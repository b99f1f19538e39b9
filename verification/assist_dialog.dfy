/** The writing-assistant dialog of the last step: opened on one narrative
    field, it lets the user edit a prompt seeded with the field's text, ask
    the completion service for content (replacing the prompt, or appending
    to the field's text), and finally copy the prompt into the field.  The
    completion service is an input: its answer for the request the dialog
    sends. */
module AssistDialog {
  import opened Wrappers
  import opened JsText

  datatype Mode = Replace | Append

  /** The component state behind the dialog: open flag, target field,
      prompt text, the field's value when the dialog opened, and the mode. */
  datatype Dialog = Dialog(open: bool, field: string, prompt: string, savedValue: string, mode: Mode)

  const Closed: Dialog := Dialog(false, "", "", "", Replace)

  /** The toast the handler raises. */
  datatype Notice = NoNotice | Warning | Success | Error

  /** The service's answer: content (possibly empty), or a thrown failure. */
  datatype Completion = Content(text: string) | Thrown

  /** What is sent: field name, the trimmed prompt as instruction, and the
      field's value when the dialog opened. */
  datatype Request = Request(fieldName: string, context: string, currentValue: string)

  /** The step's form values (react-hook-form's), by field name. */
  type Values = map<string, string>

  /** `getValues(name) || ''`. */
  function ValueOf(values: Values, name: string): string {
    if name in values then values[name] else ""
  }

  /** `openAIModal`: the prompt starts as the field's text, and the mode is
      Append exactly when that text is not blank. */
  function Open(values: Values, name: string): (d: Dialog)
    ensures d.open && d.field == name
    ensures d.prompt == ValueOf(values, name) && d.savedValue == ValueOf(values, name)
    ensures d.mode == Append <==> !IsBlank(ValueOf(values, name))
  {
    var v := ValueOf(values, name);
    Dialog(true, name, v, v, if Trim(v) != "" then Append else Replace)
  }

  /** `closeAIModal`. */
  function Close(): Dialog {
    Closed
  }

  /** `handlePromptChange`. */
  function EditPrompt(d: Dialog, text: string): (r: Dialog)
    ensures r.prompt == text
    ensures r.open == d.open && r.field == d.field && r.savedValue == d.savedValue && r.mode == d.mode
  {
    d.(prompt := text)
  }

  /** The mode radio group, which is shown only when the field had text. */
  function ChooseMode(d: Dialog, m: Mode): (r: Dialog)
    ensures d.savedValue != "" ==> r == d.(mode := m)
    ensures d.savedValue == "" ==> r == d
  {
    if d.savedValue != "" then d.(mode := m) else d
  }

  /** The outcome of one press of "generate". */
  datatype Generation = Generation(dialog: Dialog, request: Option<Request>, notice: Notice)

  /** `generateAIContent`: a blank prompt only warns; otherwise the request
      is sent and non-empty content replaces the prompt, or follows the
      field's text after a blank line in Append mode; empty content or a
      failure only reports an error. */
  function Generate(d: Dialog, answer: Completion): (g: Generation)
    ensures IsBlank(d.prompt) ==> g == Generation(d, None, Warning)
    ensures !IsBlank(d.prompt) ==> g.request == Some(Request(d.field, Trim(d.prompt), d.savedValue))
    ensures !IsBlank(d.prompt) && answer.Content? && answer.text != "" ==>
      && g.notice == Success
      && g.dialog == d.(prompt := if d.mode == Append && d.savedValue != ""
                                  then d.savedValue + "\n\n" + answer.text
                                  else answer.text)
    ensures !IsBlank(d.prompt) && (answer.Thrown? || answer.text == "") ==> g.dialog == d && g.notice == Error
  {
    var context := Trim(d.prompt);
    if context == "" then Generation(d, None, Warning)
    else
      var request := Some(Request(d.field, context, d.savedValue));
      match answer
      case Content(c) =>
        if c != "" then
          var content := if d.mode == Append && d.savedValue != "" then d.savedValue + "\n\n" + c else c;
          Generation(d.(prompt := content), request, Success)
        else Generation(d, request, Error)
      case Thrown => Generation(d, request, Error)
  }

  /** The outcome of "update form field". */
  datatype Confirmation = Confirmation(dialog: Dialog, values: Values, notice: Notice)

  /** `updateFormField`: with a target and a non-blank prompt, the prompt
      as typed (untrimmed) becomes the field's value and the dialog closes;
      otherwise only a warning. */
  function Confirm(d: Dialog, values: Values): (c: Confirmation)
    ensures d.field != "" && !IsBlank(d.prompt) ==>
      c == Confirmation(Closed, values[d.field := d.prompt], Success)
    ensures d.field == "" || IsBlank(d.prompt) ==> c == Confirmation(d, values, Warning)
  {
    if d.field != "" && Trim(d.prompt) != "" then Confirmation(Close(), values[d.field := d.prompt], Success)
    else Confirmation(d, values, Warning)
  }

  /** Append mode is only ever set for a field that had text. */
  predicate Inv(d: Dialog) {
    d.mode == Append ==> d.savedValue != ""
  }

  /** Every handler keeps the invariant. */
  lemma InvPreserved(d: Dialog, values: Values, name: string, text: string, m: Mode, answer: Completion)
    requires Inv(d)
    ensures Inv(Open(values, name)) && Inv(Close())
    ensures Inv(EditPrompt(d, text)) && Inv(ChooseMode(d, m))
    ensures Inv(Generate(d, answer).dialog) && Inv(Confirm(d, values).dialog)
  {
    var v := ValueOf(values, name);
    if v == "" {
      assert IsBlank(v);
    }
  }

  /** Under the invariant the service's content always follows the field's
      text in Append mode: the handler's own emptiness test is redundant. */
  lemma AppendJoinsWithBlankLine(d: Dialog, c: string)
    requires Inv(d) && d.mode == Append && !IsBlank(d.prompt) && c != ""
    ensures Generate(d, Content(c)).dialog.prompt == d.savedValue + "\n\n" + c
  {
  }

  /** Opening on a field with text and generating appends to that text. */
  lemma OpenThenGenerate(values: Values, name: string, c: string)
    requires !IsBlank(ValueOf(values, name)) && c != ""
    ensures Generate(Open(values, name), Content(c)).dialog.prompt == ValueOf(values, name) + "\n\n" + c
  {
  }

  /** Opening on a blank field leaves nothing to generate from until an
      instruction is typed, and the content then replaces the instruction. */
  lemma OpenBlankThenGenerate(values: Values, name: string, instruction: string, c: string)
    requires IsBlank(ValueOf(values, name)) && !IsBlank(instruction) && c != ""
    ensures Generate(Open(values, name), Content(c)).notice == Warning
    ensures Generate(EditPrompt(Open(values, name), instruction), Content(c)).dialog.prompt == c
  {
  }

  /** After closing, nothing of the previous session is left: there is no
      target, so generating and confirming only warn. */
  lemma CloseForgets(values: Values, answer: Completion)
    ensures !Close().open && Inv(Close())
    ensures Generate(Close(), answer) == Generation(Closed, None, Warning)
    ensures Confirm(Close(), values) == Confirmation(Closed, values, Warning)
  {
  }

  /** A confirmed dialog writes only its target field. */
  lemma ConfirmWritesOnlyTarget(d: Dialog, values: Values, other: string)
    requires other != d.field && other in values
    ensures other in Confirm(d, values).values
    ensures Confirm(d, values).values[other] == values[other]
  {
  }
}
