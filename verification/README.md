# Multi-step loan application form: a Dafny model

This project models the client-side core of a three-step loan/benefits
application form. It covers:

- **The session slice.** This is the Redux slice holding the current step, the accumulated answers and the submitted flag. Its five reducers are modelled.
- **The persistence provider.** It saves the session in the browser's single-key store, loads it back at mount and clears it after submission. Each of its three effects runs only when one of its dependencies changed: the load effect once, at mount; the auto-save effect when the step, the answers or the flag changed; the clear effect when the flag changed.
- **The three steps.** Each step has per-field validation rules and a submit handler that merges the step's answers and moves to the next step. Each step also has a handler for going back.
- **The monthly-income widget.** Its display formatter adds `AED ` and inserts thousands separators. Its parser removes them again.
- **The writing-assistant dialog.** On the last step it fills a narrative field with text returned by a completion service.

Everything is pure: states are immutable datatypes, and every handler and
effect is a function from state to state. Anything outside the code is a
parameter of the function that needs it:

- today's date;
- the date parser;
- the phone and e-mail regular expressions;
- the completion service's answer;
- the submission endpoint's verdict;
- whether the store accepts writes.

Files, one module each:

| file | module | models |
|---|---|---|
| wrappers.dfy | Wrappers | `Option` |
| js_text.dfy | JsText | JavaScript's `\s`, `trim`, `\w` and UTF-16 `length` |
| form_slice.dfy | FormSlice | `src/store/slices/formSlice.ts` |
| form_context.dfy | FormContext | `src/context/FormContext.tsx` |
| field_rules.dfy | FieldRules | the order in which react-hook-form evaluates a field's rules, and the character classes of the free-text patterns |
| personal_info.dfy | PersonalInfo | `src/components/steps/PersonalInfo.tsx` |
| financial_info.dfy | FinancialInfo | `src/components/steps/FinancialInfo.tsx` (validators and step handlers) |
| income_format.dfy | IncomeFormat | the monthly-income `formatter` and `parser` of `FinancialInfo.tsx` |
| assist_dialog.dfy | AssistDialog | the assistant dialog of `src/components/steps/AdditionalInfo.tsx` |
| additional_info.dfy | AdditionalInfo | the narrative rules, submission and going back in `AdditionalInfo.tsx` |

Rule order follows react-hook-form, which is not part of this model. For
each field it reports the first failing rule, in this order:

1. `required`: the empty string fails.
2. `maxLength`.
3. `minLength`.
4. `pattern`.
5. The custom `validate` functions.

Lengths are JavaScript string lengths, in UTF-16 code units.

The mount sequence is modelled as React runs it:

- The load effect clears the initial-mount ref before the auto-save effect reads it.
- So the very first commit already saves the state from before the load.
- The loaded state reaches the store on the next render.
- `StartMirrors` proves that the store nevertheless ends up mirroring the loaded session.

## Model

| member | source | states |
|---|---|---|
| FormSlice.Merge | src/store/slices/formSlice.ts:71 | the spread merge has the keys of both records; keys in the partial update take its values and every other key keeps its old value |
| FormSlice.SetStepReducer | src/store/slices/formSlice.ts:67-69 | the step becomes the payload, with no range check; the answers and the flag are unchanged |
| FormSlice.UpdateFormDataReducer | src/store/slices/formSlice.ts:70-72 | the answers become the key-by-key merge of the update into the old answers; the step and the flag are unchanged |
| FormSlice.ResetFormReducer | src/store/slices/formSlice.ts:40-61 | from any state: step 0, not submitted, and the fourteen initial fields |
| FormSlice.SetSubmittedReducer | src/store/slices/formSlice.ts:78-80 | only the flag changes, to the payload |
| FormSlice.LoadFormDataReducer | src/store/slices/formSlice.ts:81-83 | each field present in the payload replaces the old one wholesale (the answers are not merged); absent fields stay |
| FormSlice.UpdateIdempotent | src/store/slices/formSlice.ts:70-72 | merging the same update twice is merging it once |
| FormSlice.UpdatesCommute | src/store/slices/formSlice.ts:70-72 | updates to disjoint keys commute |
| FormSlice.UpdateWithNothing | src/store/slices/formSlice.ts:70-72 | merging the empty update changes nothing |
| FormSlice.ResetIsInitial | src/store/slices/formSlice.ts:73-77 | reset lands on the initial state from any two states alike |
| FormSlice.SetStepOverrides | src/store/slices/formSlice.ts:67-69 | of two step changes only the last one matters |
| FormSlice.LoadReplacesWholesale | src/store/slices/formSlice.ts:81-83 | a load carrying a step and answers yields exactly those, and keeps the flag |
| FormSlice.Reduce | src/store/slices/formSlice.ts:63-85 | no contract of its own: each action is handled by the reducer of the same name, whose rows are above |
| FormSlice.ReduceAll | src/components/steps/PersonalInfo.tsx:51-54 | no contract of its own: the handlers' dispatches in order; ReduceAllSingle, ReduceAllPair and ReduceAllAppend state how it composes |
| FormSlice.ReduceAllSingle | src/store/slices/formSlice.ts:63-85 | dispatching one action is applying the reducer once |
| FormSlice.ReduceAllPair | src/components/steps/PersonalInfo.tsx:51-54 | dispatching two actions applies the reducer to the first, then to the second |
| FormSlice.ReduceAllAppend | src/store/slices/formSlice.ts:63-85 | dispatching two action lists one after the other is dispatching their concatenation |
| FormSlice.SubmittedSticks | src/store/slices/formSlice.ts:67-72 | step changes and merges never clear the flag or drop a key, so answers can still be merged after submission |
| FormContext.Save | src/context/FormContext.tsx:20-32 | a writable store then holds the state's step and answers; when the write throws, the store is unchanged |
| FormContext.Clear | src/context/FormContext.tsx:53-60 | the entry is gone |
| FormContext.StepOrZero | src/context/FormContext.tsx:40 | a missing or falsy step loads as 0; any other step is kept |
| FormContext.DataOrEmpty | src/context/FormContext.tsx:41 | missing answers load as the empty record, not the initial one |
| FormContext.Load | src/context/FormContext.tsx:34-51 | it reports success exactly when a parsable entry is stored; on success the state has the stored step (0 when missing or falsy) and the stored answers wholesale (the empty record when missing), with the flag kept; on failure the state is untouched |
| FormContext.SaveLoadRoundTrip | src/context/FormContext.tsx:20-51 | loading what was saved restores its step and answers, and keeps the loading state's flag |
| FormContext.LoadAbsent | src/context/FormContext.tsx:36-37 | with no entry nothing is loaded |
| FormContext.LoadCorrupt | src/context/FormContext.tsx:37-49 | an empty string or unparsable text loads nothing, and the error is swallowed |
| FormContext.LoadDefaults | src/context/FormContext.tsx:39-42 | a snapshot with no step and no answers loads step 0 and the empty record |
| FormContext.ClearIdempotent | src/context/FormContext.tsx:53-60 | clearing twice is clearing once, and nothing loads afterwards |
| FormContext.AutoSave | src/context/FormContext.tsx:71-75 | saves exactly when the mount is over and the session is not submitted |
| FormContext.ClearOnSubmit | src/context/FormContext.tsx:78-82 | clears exactly when the session is submitted |
| FormContext.Mount | src/context/FormContext.tsx:62-82 | the first commit shows the loaded state; the store saves the pre-load state (or is cleared if that state is submitted), because the ref is already cleared when auto-save reads it |
| FormContext.Render | src/context/FormContext.tsx:70-82 | on a later commit the store changes only by a save or a clear; it saves when the session changed and saving is enabled; it is cleared when the flag became true |
| FormContext.Start | src/context/FormContext.tsx:62-82 | no contract of its own: the first commit, then the render the load's dispatch causes; StartMirrors states what it leads to |
| FormContext.Dispatch | src/context/FormContext.tsx:70-82 | no contract of its own: a handler's dispatches, then the render they cause; DispatchMirrors states the invariant it keeps |
| FormContext.StartMirrors | src/context/FormContext.tsx:62-82 | after start-up the session is the loaded one, the ref is off, and the store mirrors the session |
| FormContext.DispatchMirrors | src/context/FormContext.tsx:70-82 | every later dispatch keeps the store mirroring the session |
| FormContext.ReloadResumes | src/context/FormContext.tsx:20-68 | a new session started on the mirrored store of an unfinished one resumes the same step and answers |
| FormContext.ReloadAfterSubmit | src/context/FormContext.tsx:53-82 | after submission nothing is stored, so a reload starts from the initial state |
| JsText.JsLength | src/components/steps/PersonalInfo.tsx:76-83 | a string length lies between the number of characters and twice that, is 0 only for the empty string, and for one character is its code units; with JsLengthAppend it is the sum of every character's code units |
| JsText.CodeUnits | src/components/steps/PersonalInfo.tsx:76-83 | a character above U+FFFF counts two code units, any other one |
| JsText.JsLengthAppend | src/components/steps/PersonalInfo.tsx:76-83 | the length of a concatenation is the sum of the lengths |
| JsText.JsLengthOfBmp | src/components/steps/PersonalInfo.tsx:76-83 | with no astral characters, the length is the character count |
| JsText.Trim | src/components/steps/AdditionalInfo.tsx:88 | the result is a slice of the input with whitespace on both sides removed; it starts and ends with non-whitespace; it is empty exactly when the input is all whitespace |
| FieldRules.CheckText | src/components/steps/PersonalInfo.tsx:74-87 | passes exactly when non-empty, within both length bounds and matching the pattern; reports the first failing rule in rule order, naming the bound |
| FieldRules.InClass | src/components/steps/PersonalInfo.tsx:85 | no contract of its own: the bracket expressions of the name (also lines 309, 353, 397), national-id (129), address (264) and narrative (AdditionalInfo.tsx:208) patterns; ClassQuirks states what they admit |
| FieldRules.ClassQuirks | src/components/steps/PersonalInfo.tsx:264 | the address class's `'-/` range admits `(`, `)`, `*` and `+` but not `!` or `&`; the national-id flag folds ASCII letters only; the name class takes a tab and no digit; the narrative class takes `€` and `$` but not `*` |
| FieldRules.MatchesClass | src/components/steps/PersonalInfo.tsx:85 | no contract of its own: `^[class]+$`, a non-empty text of class characters; MatchesClassAppend states the repetition |
| FieldRules.MatchesClassAppend | src/components/steps/PersonalInfo.tsx:85 | two non-empty texts joined match exactly when both match |
| FieldRules.CheckRequired | src/components/steps/PersonalInfo.tsx:218 | a select passes exactly when an option is chosen |
| PersonalInfo.AgeInYears | src/components/steps/PersonalInfo.tsx:169 | the age is the number of completed years: the anniversary at that age has been reached and the next one has not; it is non-negative for a birth date on or before today |
| PersonalInfo.ValidateName | src/components/steps/PersonalInfo.tsx:74-87 | passes exactly when 2..100 code units long and made only of letters, Arabic, whitespace, apostrophe and hyphen |
| PersonalInfo.ValidateNationalId | src/components/steps/PersonalInfo.tsx:118-131 | passes exactly when 5..20 long and made only of ASCII letters of either case, digits and hyphens |
| PersonalInfo.DateOfBirthRule | src/components/steps/PersonalInfo.tsx:165-183 | empty passes (left to `required`); then, in order: unparsable is invalid, after today is future, under 13 is too young, over 120 is too old |
| PersonalInfo.ValidateDateOfBirth | src/components/steps/PersonalInfo.tsx:162-185 | `Required` exactly for the empty string; passes exactly for a parsable date on or before today with an age from 13 to 120 |
| PersonalInfo.ValidateAddress | src/components/steps/PersonalInfo.tsx:253-266 | passes exactly when 5..200 long and within the address class, which includes the range U+0027..U+002F that the pattern's `'-/` spells |
| PersonalInfo.ValidatePlace | src/components/steps/PersonalInfo.tsx:298-311 | city, state and country pass exactly when 2..50 long and within the name class |
| PersonalInfo.ValidatePhone | src/components/steps/PersonalInfo.tsx:430-443 | passes exactly when 10..20 long and accepted by the phone pattern |
| PersonalInfo.ValidateEmail | src/components/steps/PersonalInfo.tsx:474-483 | passes exactly when non-empty, at most 100 long and accepted by the e-mail pattern; there is no minimum length |
| PersonalInfo.Errors | src/components/steps/PersonalInfo.tsx:65-483 | a field has an error exactly when its rules fail, and the error shown is its first failing rule; only the ten fields of the step can have one; there is no error exactly when every field passes |
| PersonalInfo.ToRecord | src/components/steps/PersonalInfo.tsx:51-52 | the merged update has exactly the ten fields of the step, each holding the text typed into it |
| PersonalInfo.OnSubmit | src/components/steps/PersonalInfo.tsx:51-54 | nothing is dispatched exactly when some field fails; otherwise the answers are merged and step 1 is set |
| PersonalInfo.SubmitAdvances | src/components/steps/PersonalInfo.tsx:51-54 | a refused submit leaves the session unchanged; an accepted one lands on step 1 with the answers merged and the flag kept |
| PersonalInfo.FutureBirthBlocks | src/components/steps/PersonalInfo.tsx:173-175 | a birth date after today reports a future date and blocks the step |
| PersonalInfo.AgeBoundsInclusive | src/components/steps/PersonalInfo.tsx:176-181 | ages of exactly 13 and exactly 120 pass, and 121 is too old |
| PersonalInfo.BlankNameAccepted | src/components/steps/PersonalInfo.tsx:84-86 | the pattern's `\s` admits a name of two spaces |
| FinancialInfo.ValidateDependents | src/components/steps/FinancialInfo.tsx:102-120 | each outcome holds exactly on its own input range: missing, negative, above 20, fractional within range, and pass for a whole number 0..20 |
| FinancialInfo.ValidateMonthlyIncome | src/components/steps/FinancialInfo.tsx:190-205 | each outcome holds exactly on its own input range: missing, negative, above ten million; any other amount passes, fractions included |
| FinancialInfo.Errors | src/components/steps/FinancialInfo.tsx:63-241 | a field has an error exactly when its rules fail, and the error shown is its first failing rule; only the five fields of the step can have one; there is no error exactly when every field passes |
| FinancialInfo.ToRecord | src/components/steps/FinancialInfo.tsx:39-40 | the merged update has exactly the five fields of the step: the three selections as text, the two numbers as numbers (null when unset) |
| FinancialInfo.OnSubmit | src/components/steps/FinancialInfo.tsx:39-42 | nothing is dispatched exactly when some field fails; otherwise the answers are merged and step 2 is set |
| FinancialInfo.OnPrevious | src/components/steps/FinancialInfo.tsx:44-46 | no contract of its own: going back dispatches step 0; StepTransitions states the session it lands on |
| FinancialInfo.StepTransitions | src/components/steps/FinancialInfo.tsx:39-46 | an accepted submit lands on step 2 with the answers merged; a refused one changes nothing; going back lands on step 0 and keeps every answer |
| FinancialInfo.NumericBoundaries | src/components/steps/FinancialInfo.tsx:109-118 | the bounds 0 and 20 (and 0 and ten million) are inclusive; 20.5 is reported as too many, not as fractional |
| IncomeFormat.Format | src/components/steps/FinancialInfo.tsx:217 | no contract of its own: `AED ` and the text, through the global replacement; FormatKeepsText, FormatDigits and FormatFraction state what it displays |
| IncomeFormat.Parse | src/components/steps/FinancialInfo.tsx:218 | the parsed text is no longer than the display and holds no comma |
| IncomeFormat.InsertCommasOnlyCommas | src/components/steps/FinancialInfo.tsx:217 | the replacement only inserts commas: with commas deleted, its result is the text with commas deleted |
| IncomeFormat.FormatKeepsText | src/components/steps/FinancialInfo.tsx:217 | for any text the display starts with `AED ` and differs from `AED ` and the text only by commas |
| IncomeFormat.DigitRun | src/components/steps/FinancialInfo.tsx:217 | the digit run at the front is all digits and is followed by a non-digit or the end |
| IncomeFormat.GroupsAheadByRun | src/components/steps/FinancialInfo.tsx:217 | the lookahead `(?=(\d{3})+(?!\d))` holds exactly when the digit run ahead is a positive multiple of three long |
| IncomeFormat.GroupedIsGroup | src/components/steps/FinancialInfo.tsx:217 | grouping by position from the left agrees with chunking by threes from the right |
| IncomeFormat.InsertCommasInDigits | src/components/steps/FinancialInfo.tsx:217 | inside a digit string the replacement inserts a comma exactly where the number of digits left is a multiple of three |
| IncomeFormat.FormatDigits | src/components/steps/FinancialInfo.tsx:217 | for digits, the display is `AED ` followed by the digits grouped by thousands, with no comma in or right after the prefix |
| IncomeFormat.ParseNumericText | src/components/steps/FinancialInfo.tsx:218 | on digits, commas and points the parser only removes the commas |
| IncomeFormat.GroupShape | src/components/steps/FinancialInfo.tsx:217-218 | removing the commas from a grouping gives back the digits |
| IncomeFormat.ParseFormatDigits | src/components/steps/FinancialInfo.tsx:217-218 | the parser undoes the formatter on every non-empty digit string |
| IncomeFormat.NatToStringValue | src/components/steps/FinancialInfo.tsx:209-218 | the decimal text of an amount denotes it and has no leading zero |
| IncomeFormat.IncomeRoundTrip | src/components/steps/FinancialInfo.tsx:217-218 | for every natural amount the display starts with `AED `, groups the digits by thousands, and parses back to the amount's digits; the corrected formatter agrees on it |
| IncomeFormat.InsertCommasRun | src/components/steps/FinancialInfo.tsx:217 | inside any run of digits closed by a non-digit, commas go exactly where the digits left in the run are a multiple of three |
| IncomeFormat.FormatFraction | src/components/steps/FinancialInfo.tsx:217 | as written, a decimal amount displays as `AED `, the whole part grouped, the point, and the fraction grouped by threes too |
| IncomeFormat.ParseFormatFraction | src/components/steps/FinancialInfo.tsx:217-218 | as written, parsing the display of a decimal amount still gives the amount back |
| IncomeFormat.FormatGroupsFraction | src/components/steps/FinancialInfo.tsx:217 | as written, `1234.5678` displays as `AED 1,234.5,678` |
| IncomeFormat.PointIndex | src/components/steps/FinancialInfo.tsx:217 | the position of the first decimal point, with no point before it |
| IncomeFormat.FormatIntegerPartAgrees | src/components/steps/FinancialInfo.tsx:217 | on text without a decimal point the corrected formatter is the formatter as written |
| IncomeFormat.FormatIntegerPartFraction | src/components/steps/FinancialInfo.tsx:217 | the corrected formatter groups the whole part by thousands and leaves the fraction as typed |
| IncomeFormat.ParseFormatIntegerPart | src/components/steps/FinancialInfo.tsx:217-218 | the parser undoes the corrected formatter on decimal amounts |
| AssistDialog.Open | src/components/steps/AdditionalInfo.tsx:80-90 | the dialog opens on the field; prompt and saved value are the field's text; the mode is append exactly when that text is not blank |
| AssistDialog.Close | src/components/steps/AdditionalInfo.tsx:92-98 | no contract of its own: the closed dialog with no target, empty prompt and saved value, and replace mode; CloseForgets states its effect |
| AssistDialog.EditPrompt | src/components/steps/AdditionalInfo.tsx:163-165 | only the prompt changes |
| AssistDialog.ChooseMode | src/components/steps/AdditionalInfo.tsx:425-451 | the mode can be chosen only when the field had text |
| AssistDialog.Generate | src/components/steps/AdditionalInfo.tsx:100-148 | a blank prompt only warns and sends nothing; otherwise the trimmed prompt and the saved value are sent; non-empty content replaces the prompt, or follows the saved text after a blank line in append mode; empty content or a failure only reports an error |
| AssistDialog.Confirm | src/components/steps/AdditionalInfo.tsx:150-161 | with a target and a non-blank prompt, the untrimmed prompt becomes the field's value and the dialog closes; otherwise it only warns |
| AssistDialog.InvPreserved | src/components/steps/AdditionalInfo.tsx:80-165 | every handler keeps the invariant that append mode implies a non-empty saved value |
| AssistDialog.AppendJoinsWithBlankLine | src/components/steps/AdditionalInfo.tsx:132-137 | under the invariant, append mode always joins the saved text and the content with a blank line |
| AssistDialog.OpenThenGenerate | src/components/steps/AdditionalInfo.tsx:80-137 | opening on a field with text and generating gives that text, a blank line, then the content |
| AssistDialog.OpenBlankThenGenerate | src/components/steps/AdditionalInfo.tsx:80-139 | opening on a blank field warns until an instruction is typed, and the content then replaces it |
| AssistDialog.CloseForgets | src/components/steps/AdditionalInfo.tsx:92-98 | after closing there is no target, so generating and confirming only warn |
| AssistDialog.ConfirmWritesOnlyTarget | src/components/steps/AdditionalInfo.tsx:150-155 | confirming leaves every other field's value as it was |
| AdditionalInfo.ValidateNarrative | src/components/steps/AdditionalInfo.tsx:197-210 | passes exactly when 50..1000 long and within the narrative class |
| AdditionalInfo.Errors | src/components/steps/AdditionalInfo.tsx:194-330 | a field has an error exactly when its rules fail, and the error shown is its first failing rule; only the three narrative fields can have one; there is no error exactly when all three pass |
| AdditionalInfo.ToRecord | src/components/steps/AdditionalInfo.tsx:51-53 | the merged update has exactly the three narrative fields, with their texts |
| AdditionalInfo.OnSubmit | src/components/steps/AdditionalInfo.tsx:51-74 | a failing field stops everything; otherwise the merge of the session's answers and the step's is sent and held, the step is kept, the flag becomes true exactly on success, and success clears the store |
| AdditionalInfo.OnPrevious | src/components/steps/AdditionalInfo.tsx:76-78 | no contract of its own: going back dispatches step 1; PreviousKeepsAnswers states the session it lands on |
| AdditionalInfo.PreviousKeepsAnswers | src/components/steps/AdditionalInfo.tsx:76-78 | going back lands on step 1 and keeps every answer |
| AdditionalInfo.SentIsHeld | src/components/steps/AdditionalInfo.tsx:51-58 | something is sent exactly when the answers pass, and it is exactly the record the session holds afterwards |
| AdditionalInfo.SubmitMirrors | src/components/steps/AdditionalInfo.tsx:51-74 | whatever the endpoint answers, the store keeps mirroring the session; after a success a reload starts from the initial state |
| AdditionalInfo.FailedSubmitRetains | src/components/steps/AdditionalInfo.tsx:65-70 | a failed submission stays on its step, unsubmitted, with the answers merged and stored |
| AdditionalInfo.ConfirmFillsField | src/components/steps/AdditionalInfo.tsx:150-155 | confirming on a narrative field sets it to the prompt and leaves the other two alone |

## Left out

- JavaScript `undefined` answers are not modelled: the serialised store drops them, and an unset form field is modelled as the empty string or a missing number.
- Date parsing is a parameter, not dayjs's lenient parser. Rollover of out-of-range days and leap-day anniversaries are not modelled; the age is counted in completed years by comparing month and day.
- The phone and e-mail regular expressions are parameters of `PersonalInfo.Env`. Only the `^[class]+$` patterns are written out.
- The JSON wire format is not modelled: the stored text is abstracted to whether it parses and which fields it holds, and the save timestamp and console logging are dropped.
- Stored steps that are not integers, and stored data of the wrong JSON type, are not modelled.
- FormContext.Load: failures of `getItem` (a security error) are not modelled; only unparsable text is.
- FormContext.Clear: a throwing `removeItem` is not modelled.
- FormContext.Render: effect dependencies are compared by value. The source compares `formData` by reference, so a merge that changes nothing still saves there. Saving the same snapshot again gives the same store, so `Mirrors` is unaffected.
- AdditionalInfo.OnSubmit: the handler awaits the endpoint, and the busy flag `isSubmitting` is not modelled. A submission is atomic here, so other handlers cannot interleave during the await.
- AssistDialog.Generate: generation is also atomic. The loading flag, a result arriving after the dialog was closed or re-opened, and the `previousFormData` profile text in the request are not modelled.
- AssistDialog.Confirm: react-hook-form's re-validation triggered by `setValue` is not modelled; the new value is validated by the next submit.
- The `min`/`max`/`step` props of the number widgets, which clamp typed input, are not modelled. The validators are given the value as the form holds it.
- IncomeFormat.IncomeRoundTrip: stated for the text of natural amounts, and for decimal amounts through the lemmas listed under Findings. Negative amounts and exponent notation are not covered.
- The toasts' messages and translation keys are reduced to the `Notice` kind and the `Violation` kind.
- Routing and the progress bar (`src/pages/Form.tsx`, `src/components/ProgressBar.tsx`) are not part of this model. Neither are the HTTP client (`src/services/api.ts`), the completion API wire format (`src/store/slices/suggestionsSlice.ts`) or store setup: the endpoint's verdict and the service's answer are parameters.

## Findings

| source | as written | input that shows it | evidently intended | confidence | as-written member | corrected member |
|---|---|---|---|---|---|---|
| src/components/steps/FinancialInfo.tsx:217 | the thousands-separator replacement runs over the whole text, so the digits after a decimal point are grouped by threes too, counted from the end | a monthly income of `1234.5678` displays as `AED 1,234.5,678` | separators only in the whole part: `AED 1,234.5678`; the parser undoes both forms | medium, not executed: decimal amounts pass the income rule and the widget sets no precision | IncomeFormat.FormatGroupsFraction | IncomeFormat.FormatIntegerPartFraction |
