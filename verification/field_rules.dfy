/** The validation engine shared by the three steps: the violation kinds, the
    character classes of the free-text patterns, and the evaluation order of
    a text field's declarative rules (react-hook-form checks `required`, then
    `maxLength`/`minLength`, then `pattern`, then the custom `validate`
    functions, and reports the first that fails). */
module FieldRules {
  import opened JsText

  /** A rule's failure.  Messages are translation keys in the source; here
      they are kinds, with the bound they name. */
  datatype Violation =
    | Required
    | TooShort(min: nat)
    | TooLong(max: nat)
    | PatternMismatch
    | BelowMin(lowest: int)
    | AboveMax(highest: int)
    | NotInteger
    | InvalidDate
    | FutureDate
    | AgeBelow(minAge: int)
    | AgeAbove(maxAge: int)

  /** The verdict on one field. */
  datatype Check = Pass | Fail(violation: Violation)

  /** The `minLength`/`maxLength` pair of a text field (an absent
      `minLength` is 0). */
  datatype LengthRule = LengthRule(minLen: nat, maxLen: nat)

  /** A text field with `required`, a length rule and a pattern whose
      outcome on the value is `matches`. */
  function CheckText(rule: LengthRule, matches: bool, v: string): (r: Check)
    ensures r.Pass? <==> v != "" && rule.minLen <= JsLength(v) <= rule.maxLen && matches
    ensures r == Fail(Required) <==> v == ""
    ensures r.Fail? && r.violation.TooLong? <==> v != "" && JsLength(v) > rule.maxLen
    ensures r.Fail? && r.violation.TooShort? <==> v != "" && JsLength(v) <= rule.maxLen && JsLength(v) < rule.minLen
    ensures r.Fail? && r.violation.PatternMismatch? <==> v != "" && rule.minLen <= JsLength(v) <= rule.maxLen && !matches
    ensures r.Fail? && r.violation.TooLong? ==> r.violation.max == rule.maxLen
    ensures r.Fail? && r.violation.TooShort? ==> r.violation.min == rule.minLen
  {
    if v == "" then Fail(Required)
    else if JsLength(v) > rule.maxLen then Fail(TooLong(rule.maxLen))
    else if JsLength(v) < rule.minLen then Fail(TooShort(rule.minLen))
    else if !matches then Fail(PatternMismatch)
    else Pass
  }

  /** A select with only `required`: any chosen option passes. */
  function CheckRequired(v: string): (r: Check)
    ensures r.Pass? <==> v != ""
    ensures r.Fail? ==> r.violation == Required
  {
    if v == "" then Fail(Required) else Pass
  }

  /** The bracket classes of the source's `^[...]+$` patterns. */
  datatype CharClass =
    | PersonName   // letters, Arabic, whitespace, apostrophe, hyphen
    | NationalId   // letters of either case, digits, hyphen
    | Address      // letters, digits, Arabic, whitespace, U+0027..U+002F, comma, period, '#'
    | Narrative    // letters, digits, Arabic, whitespace and a fixed punctuation set

  predicate InClass(k: CharClass, c: char) {
    match k
    case PersonName => IsAsciiLetter(c) || IsArabic(c) || IsJsWhitespace(c) || c == '\'' || c == '-'
    case NationalId => IsAsciiLetter(c) || IsDigit(c) || c == '-'
    case Address =>
      || IsAsciiLetter(c) || IsDigit(c) || IsArabic(c) || IsJsWhitespace(c)
      || c == ',' || c == '.' || ('\'' <= c <= '/') || c == '#'
    case Narrative =>
      || IsAsciiLetter(c) || IsDigit(c) || IsArabic(c) || IsJsWhitespace(c)
      || c in ".,!?;:()-'\"$%&/" || c == '€' || c == '£' || c == '¥'
  }

  /** `^[class]+$` matches `s`.  The empty string never matches, but every
      rule rejects it as `Required` before the pattern is tried. */
  predicate MatchesClass(k: CharClass, s: string) {
    s != [] && forall i :: 0 <= i < |s| ==> InClass(k, s[i])
  }

  /** The `+` repetition: two matching texts match when joined, and a
      joined text matches only when both of its non-empty parts do. */
  lemma MatchesClassAppend(k: CharClass, a: string, b: string)
    requires a != [] && b != []
    ensures MatchesClass(k, a + b) <==> MatchesClass(k, a) && MatchesClass(k, b)
  {
    if MatchesClass(k, a + b) {
      forall i | 0 <= i < |a|
        ensures InClass(k, a[i])
      {
        assert (a + b)[i] == a[i];
      }
      forall i | 0 <= i < |b|
        ensures InClass(k, b[i])
      {
        assert (a + b)[|a| + i] == b[i];
      }
    }
    if MatchesClass(k, a) && MatchesClass(k, b) {
      forall i | 0 <= i < |a + b|
        ensures InClass(k, (a + b)[i])
      {
        if i < |a| {
          assert (a + b)[i] == a[i];
        } else {
          assert (a + b)[i] == b[i - |a|];
        }
      }
    }
  }

  /** What the bracket expressions really admit: the address pattern's
      `'-/` is a range that lets in `(`, `)`, `*` and `+`; the national-id
      pattern's case-insensitive flag folds ASCII letters only; the name
      class takes tabs but no digits; the narrative class takes the three
      currency signs besides `$`. */
  lemma ClassQuirks()
    ensures InClass(Address, '(') && InClass(Address, ')') && InClass(Address, '*') && InClass(Address, '+')
    ensures !InClass(Address, '!') && !InClass(Address, '&')
    ensures InClass(NationalId, 'a') && InClass(NationalId, 'Z') && !InClass(NationalId, '\U{00E9}')
    ensures InClass(PersonName, '\t') && !InClass(PersonName, '0')
    ensures InClass(Narrative, '€') && InClass(Narrative, '$') && !InClass(Narrative, '*')
  {
  }
}
