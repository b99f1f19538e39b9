/** The monthly-income widget's display formatter and input parser.  The
    formatter prefixes `AED ` and runs the global replacement of the regular
    expression `\B(?=(\d{3})+(?!\d))` by a comma; the parser deletes every
    `AED` (with one following whitespace character, if any) and every comma.
    Both work on the text the widget holds. */
module IncomeFormat {
  import opened JsText

  predicate AllDigits(s: string) {
    forall i :: 0 <= i < |s| ==> IsDigit(s[i])
  }

  /** The length of the run of digits at the front of `s`. */
  function DigitRun(s: string): (n: nat)
    ensures n <= |s|
    ensures AllDigits(s[..n])
    ensures n < |s| ==> !IsDigit(s[n])
  {
    if s != [] && IsDigit(s[0]) then
      var n := 1 + DigitRun(s[1..]);
      assert s[..n] == [s[0]] + s[1..][..n - 1];
      n
    else 0
  }

  /** The lookahead `(?=(\d{3})+(?!\d))` at the front of `s`, as the regular
      expression reads: one or more groups of three digits, then no digit. */
  ghost predicate GroupsAhead(s: string) {
    exists k :: 1 <= k && 3 * k <= |s| && AllDigits(s[..3 * k]) && (3 * k == |s| || !IsDigit(s[3 * k]))
  }

  /** The lookahead holds exactly when the digit run in front is a positive
      multiple of three long. */
  lemma GroupsAheadByRun(s: string)
    ensures GroupsAhead(s) <==> DigitRun(s) > 0 && DigitRun(s) % 3 == 0
  {
    var n := DigitRun(s);
    if GroupsAhead(s) {
      var k :| 1 <= k && 3 * k <= |s| && AllDigits(s[..3 * k]) && (3 * k == |s| || !IsDigit(s[3 * k]));
    }
    if n > 0 && n % 3 == 0 {
      assert 1 <= n / 3 && 3 * (n / 3) == n;
    }
  }

  /** `\B`: the characters on either side of position `i` are both word
      characters or both not (the outside of the string counts as not). */
  predicate NotBoundary(t: string, i: int)
    requires 0 <= i <= |t|
  {
    (i > 0 && IsWordChar(t[i - 1])) == (i < |t| && IsWordChar(t[i]))
  }

  /** The regular expression matches (emptily) at position `i`. */
  predicate CommaAt(t: string, i: int)
    requires 0 <= i <= |t|
  {
    NotBoundary(t, i) && DigitRun(t[i..]) > 0 && DigitRun(t[i..]) % 3 == 0
  }

  /** The global replacement from position `i` on: every match is empty, so
      the search tries every position once and each match becomes a comma.
      (The end of the string never matches: the lookahead needs digits.) */
  function InsertCommas(t: string, i: nat): string
    requires i <= |t|
    decreases |t| - i
  {
    if i == |t| then []
    else (if CommaAt(t, i) then [','] else []) + [t[i]] + InsertCommas(t, i + 1)
  }

  /** `formatter`: the displayed text for the widget's text `value`. */
  function Format(value: string): string {
    InsertCommas("AED " + value, 0)
  }

  /** `parser`: the alternatives are tried at each position in order; an
      `AED` with one optional whitespace character goes, a run of commas
      goes, and any other character is kept. */
  function Parse(s: string): (r: string)
    ensures |r| <= |s|
    ensures forall i :: 0 <= i < |r| ==> r[i] != ','
    decreases |s|
  {
    if |s| >= 3 && s[..3] == "AED" then
      if |s| > 3 && IsJsWhitespace(s[3]) then Parse(s[4..]) else Parse(s[3..])
    else if s == [] then []
    else if s[0] == ',' then Parse(s[1..])
    else [s[0]] + Parse(s[1..])
  }

  /** Reference grouping, from the right: the last three digits form a
      group, and the rest is grouped the same way. */
  function Group(d: string): string
    decreases |d|
  {
    if |d| <= 3 then d else Group(d[..|d| - 3]) + "," + d[|d| - 3..]
  }

  /** Reference grouping, by position: a comma before each digit but the
      first whose count of digits up to the end is a multiple of three. */
  function Grouped(d: string): string {
    if d == [] then [] else [d[0]] + CommaBeforeThirds(d[1..])
  }

  function CommaBeforeThirds(e: string): string
    decreases |e|
  {
    if e == [] then [] else (if |e| % 3 == 0 then [','] else []) + [e[0]] + CommaBeforeThirds(e[1..])
  }

  /** The string with its commas deleted. */
  function RemoveCommas(s: string): string {
    if s == [] then [] else (if s[0] == ',' then [] else [s[0]]) + RemoveCommas(s[1..])
  }

  lemma {:induction false} RemoveCommasAppend(a: string, b: string)
    ensures RemoveCommas(a + b) == RemoveCommas(a) + RemoveCommas(b)
    decreases |a|
  {
    if a == [] {
      assert a + b == b;
    } else {
      assert (a + b)[1..] == a[1..] + b;
      RemoveCommasAppend(a[1..], b);
    }
  }

  /** Appending one more group of three to the right adds one comma. */
  lemma {:induction false} ThirdsAppendGroup(e: string, g: string)
    requires |g| == 3
    ensures CommaBeforeThirds(e + g) == CommaBeforeThirds(e) + "," + g
    decreases |e|
  {
    if e == [] {
      assert e + g == g;
      ThirdsShort(g[1..]);
      assert g == [g[0]] + g[1..];
    } else {
      assert (e + g)[1..] == e[1..] + g;
      ThirdsAppendGroup(e[1..], g);
    }
  }

  /** Fewer than three digits take no comma. */
  lemma {:induction false} ThirdsShort(e: string)
    requires |e| < 3
    ensures CommaBeforeThirds(e) == e
    decreases |e|
  {
    if e != [] {
      ThirdsShort(e[1..]);
      assert e == [e[0]] + e[1..];
    }
  }

  /** The two reference groupings agree. */
  lemma {:induction false} GroupedIsGroup(d: string)
    ensures Grouped(d) == Group(d)
    decreases |d|
  {
    if |d| <= 3 {
      if d != [] {
        ThirdsShort(d[1..]);
        assert d == [d[0]] + d[1..];
      }
    } else {
      var p, g := d[..|d| - 3], d[|d| - 3..];
      assert d == p + g;
      assert d[1..] == p[1..] + g;
      ThirdsAppendGroup(p[1..], g);
      GroupedIsGroup(p);
    }
  }

  lemma {:induction false} DigitRunOfDigits(s: string)
    requires AllDigits(s)
    ensures DigitRun(s) == |s|
    decreases |s|
  {
    if s != [] {
      DigitRunOfDigits(s[1..]);
    }
  }

  /** Past the first digit, the regular expression matches exactly where
      the digits left to the end are a multiple of three. */
  lemma {:induction false} InsertCommasInDigits(t: string, i: nat)
    requires 1 <= i <= |t| && AllDigits(t[i - 1..])
    ensures InsertCommas(t, i) == CommaBeforeThirds(t[i..])
    decreases |t| - i
  {
    if i < |t| {
      assert t[i..] == t[i - 1..][1..];
      DigitRunOfDigits(t[i..]);
      assert IsWordChar(t[i - 1]) && IsWordChar(t[i]);
      assert t[i..][1..] == t[i + 1..];
      InsertCommasInDigits(t, i + 1);
    }
  }

  /** The replacement only inserts commas: deleting the commas from its
      result gives the text with its own commas deleted. */
  lemma {:induction false} InsertCommasOnlyCommas(t: string, i: nat)
    requires i <= |t|
    ensures RemoveCommas(InsertCommas(t, i)) == RemoveCommas(t[i..])
    decreases |t| - i
  {
    if i < |t| {
      InsertCommasOnlyCommas(t, i + 1);
      var c: string := if CommaAt(t, i) then [','] else [];
      assert RemoveCommas(c) == [];
      RemoveCommasAppend(c + [t[i]], InsertCommas(t, i + 1));
      RemoveCommasAppend(c, [t[i]]);
      assert t[i..] == [t[i]] + t[i + 1..];
      RemoveCommasAppend([t[i]], t[i + 1..]);
    } else {
      assert t[i..] == [];
    }
  }

  /** Whatever the widget holds, the display starts with `AED ` and differs
      from `AED ` and the text only by commas. */
  lemma FormatKeepsText(value: string)
    ensures |Format(value)| >= 4 && Format(value)[..4] == "AED "
    ensures RemoveCommas(Format(value)) == RemoveCommas("AED " + value)
  {
    var t := "AED " + value;
    assert t[0] == 'A' && t[1] == 'E' && t[2] == 'D' && t[3] == ' ';
    forall k | 0 <= k < 4
      ensures !CommaAt(t, k)
    {
      NoDigitNoComma(t, k);
    }
    KeepSpan(t, 0, 4);
    assert t[0..4] == "AED ";
    InsertCommasOnlyCommas(t, 0);
    assert t[0..] == t;
  }

  /** On a non-empty digit string the formatter prefixes `AED ` and groups
      by thousands: nothing is inserted in or after the prefix. */
  lemma FormatDigits(d: string)
    requires d != [] && AllDigits(d)
    ensures Format(d) == "AED " + Group(d)
  {
    var t := "AED " + d;
    PrefixUntouched(d);
    assert InsertCommas(t, 5) == CommaBeforeThirds(d[1..]) by {
      assert t[4..] == d;
      InsertCommasInDigits(t, 5);
      assert t[5..] == d[1..];
    }
    GroupedIsGroup(d);
    Regroup("AED ", [d[0]], CommaBeforeThirds(d[1..]), []);
  }

  /** On digits, commas and points alone the parser just deletes the commas. */
  lemma {:induction false} ParseNumericText(s: string)
    requires NumericText(s)
    ensures Parse(s) == RemoveCommas(s)
    decreases |s|
  {
    if s != [] {
      assert |s| >= 3 ==> s[..3][0] == s[0] && s[0] != 'A';
      ParseNumericText(s[1..]);
    }
  }

  lemma {:induction false} RemoveCommasOfDigits(s: string)
    requires AllDigits(s)
    ensures RemoveCommas(s) == s
    decreases |s|
  {
    if s != [] {
      RemoveCommasOfDigits(s[1..]);
      assert s == [s[0]] + s[1..];
    }
  }

  lemma RemoveCommasAroundComma(x: string, y: string)
    ensures RemoveCommas(x + "," + y) == RemoveCommas(x) + RemoveCommas(y)
  {
    assert x + "," + y == x + ("," + y);
    RemoveCommasAppend(x, "," + y);
    RemoveCommasAppend(",", y);
    assert RemoveCommas(",") == [];
  }

  /** Grouping only adds commas. */
  lemma {:induction false} GroupShape(d: string)
    requires AllDigits(d)
    ensures RemoveCommas(Group(d)) == d
    decreases |d|
  {
    if |d| <= 3 {
      RemoveCommasOfDigits(d);
    } else {
      var p, g := d[..|d| - 3], d[|d| - 3..];
      assert AllDigits(p) && AllDigits(g);
      GroupShape(p);
      RemoveCommasOfDigits(g);
      RemoveCommasAroundComma(Group(p), g);
      assert d == p + g;
    }
  }

  /** Grouping leaves only digits and commas. */
  lemma {:induction false} GroupChars(d: string)
    requires AllDigits(d)
    ensures NumericText(Group(d))
    decreases |d|
  {
    if |d| > 3 {
      GroupChars(d[..|d| - 3]);
    }
  }

  /** Text made of digits, commas and decimal points only. */
  predicate NumericText(s: string) {
    forall i :: 0 <= i < |s| ==> IsDigit(s[i]) || s[i] == ',' || s[i] == '.'
  }

  /** The parser undoes the formatter on a digit string. */
  lemma ParseFormatDigits(d: string)
    requires d != [] && AllDigits(d)
    ensures Parse(Format(d)) == d
  {
    FormatDigits(d);
    var s := "AED " + Group(d);
    assert s[..3] == "AED" && IsJsWhitespace(s[3]) && s[4..] == Group(d);
    GroupShape(d);
    GroupChars(d);
    ParseNumericText(Group(d));
  }

  /** The decimal text of a natural number, as the widget holds it. */
  function NatToString(n: nat): (s: string)
    ensures s != [] && AllDigits(s)
  {
    if n < 10 then [DigitChar(n)] else NatToString(n / 10) + [DigitChar(n % 10)]
  }

  function DigitChar(k: nat): (c: char)
    requires k < 10
    ensures IsDigit(c)
  {
    ('0' as int + k) as char
  }

  /** The number a digit string denotes. */
  function DigitsValue(s: string): nat
    requires AllDigits(s)
  {
    if s == [] then 0 else 10 * DigitsValue(s[..|s| - 1]) + (s[|s| - 1] as int - '0' as int)
  }

  /** The decimal text denotes the number, and has no leading zero. */
  lemma {:induction false} NatToStringValue(n: nat)
    ensures DigitsValue(NatToString(n)) == n
    ensures n > 0 ==> NatToString(n)[0] != '0'
  {
    if n >= 10 {
      var s := NatToString(n);
      assert s[..|s| - 1] == NatToString(n / 10);
      NatToStringValue(n / 10);
    }
  }

  /** For an amount `n`, the display starts with `AED `, groups the digits of
      `n` by thousands, and parses back to the digits of `n`; the corrected
      formatter shows whole amounts the same way. */
  lemma IncomeRoundTrip(n: nat)
    ensures Format(NatToString(n)) == "AED " + Group(NatToString(n))
    ensures Format(NatToString(n))[..4] == "AED "
    ensures Parse(Format(NatToString(n))) == NatToString(n)
    ensures FormatIntegerPart(NatToString(n)) == Format(NatToString(n))
  {
    FormatDigits(NatToString(n));
    ParseFormatDigits(NatToString(n));
    FormatIntegerPartAgrees(NatToString(n));
  }

  /** A digit run of length `n` at the front of `s`, ended by a non-digit
      or by the end, is what `DigitRun` measures. */
  lemma {:induction false} DigitRunUpTo(s: string, n: nat)
    requires n <= |s| && AllDigits(s[..n]) && (n < |s| ==> !IsDigit(s[n]))
    ensures DigitRun(s) == n
    decreases n
  {
    if n > 0 {
      assert s[1..][..n - 1] == s[..n][1..];
      assert n - 1 < |s| - 1 ==> s[1..][n - 1] == s[n];
      DigitRunUpTo(s[1..], n - 1);
    }
  }

  /** Between two digits of a run that ends at `e`, the regular expression
      matches exactly when the digits left are a multiple of three. */
  lemma CommaInRun(t: string, i: nat, e: nat)
    requires 1 <= i < e <= |t| && AllDigits(t[i - 1..e]) && (e < |t| ==> !IsDigit(t[e]))
    ensures CommaAt(t, i) <==> (e - i) % 3 == 0
  {
    var s := t[i..];
    assert s[..e - i] == t[i - 1..e][1..];
    assert e - i < |s| ==> s[e - i] == t[e];
    DigitRunUpTo(s, e - i);
    assert t[i - 1] == t[i - 1..e][0] && t[i] == t[i - 1..e][1];
    assert NotBoundary(t, i);
  }

  /** One step along a run of digits: the rest of the run is digits too,
      and the positional grouping takes its first digit off. */
  lemma RunStep(t: string, i: nat, e: nat)
    requires 1 <= i < e <= |t| && AllDigits(t[i - 1..e])
    ensures AllDigits(t[i..e])
    ensures CommaBeforeThirds(t[i..e])
         == (if (e - i) % 3 == 0 then [','] else []) + [t[i]] + CommaBeforeThirds(t[i + 1..e])
  {
    assert t[i..e] == t[i - 1..e][1..];
    var r := t[i..e];
    assert r[0] == t[i] && r[1..] == t[i + 1..e] && |r| == e - i;
  }

  /** Inside a run of digits `t[i - 1..e]` that a non-digit (or the end)
      closes, the regular expression matches exactly where the digits left in
      the run are a multiple of three. */
  lemma {:induction false} InsertCommasRun(t: string, i: nat, e: nat)
    requires 1 <= i <= e <= |t| && AllDigits(t[i - 1..e]) && (e < |t| ==> !IsDigit(t[e]))
    ensures InsertCommas(t, i) == CommaBeforeThirds(t[i..e]) + InsertCommas(t, e)
    decreases e - i
  {
    if i < e {
      CommaInRun(t, i, e);
      RunStep(t, i, e);
      InsertCommasRun(t, i + 1, e);
    } else {
      assert t[i..e] == [];
    }
  }

  /** A position where no digit stands takes no comma. */
  lemma NoDigitNoComma(t: string, i: nat)
    requires i < |t| && !IsDigit(t[i])
    ensures !CommaAt(t, i)
  {
    assert t[i..][0] == t[i];
  }

  /** A stretch of positions that take no comma is copied as it is. */
  lemma {:induction false} KeepSpan(t: string, i: nat, j: nat)
    requires i <= j <= |t|
    requires forall k :: i <= k < j ==> !CommaAt(t, k)
    ensures InsertCommas(t, i) == t[i..j] + InsertCommas(t, j)
    decreases j - i
  {
    if i < j {
      KeepSpan(t, i + 1, j);
      assert t[i..j] == [t[i]] + t[i + 1..j];
    } else {
      assert t[i..j] == [];
    }
  }

  /** Nothing is inserted in the prefix or before the first digit. */
  lemma PrefixUntouched(v: string)
    requires v != [] && IsDigit(v[0])
    ensures InsertCommas("AED " + v, 0) == "AED " + [v[0]] + InsertCommas("AED " + v, 5)
  {
    var t := "AED " + v;
    assert t[0] == 'A' && t[1] == 'E' && t[2] == 'D' && t[3] == ' ' && t[4] == v[0];
    forall k | 0 <= k < 5
      ensures !CommaAt(t, k)
    {
      if k < 4 {
        NoDigitNoComma(t, k);
      } else {
        assert !NotBoundary(t, k);
      }
    }
    KeepSpan(t, 0, 5);
    assert t[0..5] == "AED " + [v[0]];
  }

  /** A point and the digit after it take no comma. */
  lemma PointBeforeDigit(t: string, p: nat)
    requires p + 1 < |t| && t[p] == '.' && IsDigit(t[p + 1])
    ensures InsertCommas(t, p) == [t[p], t[p + 1]] + InsertCommas(t, p + 2)
  {
    forall k | p <= k < p + 2
      ensures !CommaAt(t, k)
    {
      if k == p {
        NoDigitNoComma(t, k);
      } else {
        assert !NotBoundary(t, k);
      }
    }
    KeepSpan(t, p, p + 2);
    assert t[p..p + 2] == [t[p], t[p + 1]];
  }

  /** From a decimal point followed by digits to the end of the text, the
      point is kept and the digits after it are grouped by threes. */
  lemma FractionTail(t: string, p: nat, f: string)
    requires p < |t| && t[p] == '.' && t[p + 1..] == f && f != [] && AllDigits(f)
    ensures InsertCommas(t, p) == "." + Grouped(f)
  {
    assert t[p + 1] == f[0] && IsDigit(t[p + 1]);
    PointBeforeDigit(t, p);
    assert InsertCommas(t, p + 2) == CommaBeforeThirds(f[1..]) by {
      InsertCommasInDigits(t, p + 2);
      assert t[p + 2..] == f[1..];
    }
    PointGlue(InsertCommas(t, p), InsertCommas(t, p + 2), f);
  }

  lemma PointGlue(u: string, w: string, f: string)
    requires f != [] && u == ['.', f[0]] + w
    ensures u == "." + ([f[0]] + w)
  {
  }

  /** After the prefix and the first digit, the rest of a whole part that a
      non-digit closes is grouped by thousands. */
  lemma WholePartRest(v: string, d: string)
    requires d != [] && AllDigits(d) && |d| < |v| && v[..|d|] == d && !IsDigit(v[|d|])
    ensures InsertCommas("AED " + v, 5) == CommaBeforeThirds(d[1..]) + InsertCommas("AED " + v, 4 + |d|)
  {
    var t := "AED " + v;
    assert t[4..4 + |d|] == d && t[5..4 + |d|] == d[1..] && t[4 + |d|] == v[|d|];
    InsertCommasRun(t, 5, 4 + |d|);
  }

  /** Where the point and the fraction of a decimal amount sit in the text
      the replacement runs on. */
  lemma FractionLayout(d: string, f: string)
    ensures var t := "AED " + (d + "." + f);
      && 4 + |d| < |t| && t[4 + |d|] == '.' && t[4 + |d| + 1..] == f
  {
    var t := "AED " + (d + "." + f);
    assert t[4 + |d| + 1..] == f by {
      assert |t[4 + |d| + 1..]| == |f|;
      forall k | 0 <= k < |f|
        ensures t[4 + |d| + 1..][k] == f[k]
      {
        assert t[4 + |d| + 1 + k] == (d + "." + f)[|d| + 1 + k];
      }
    }
  }

  /** The formatter as written on a decimal amount: the fractional digits
      are grouped by threes as well, counted from the end of the text. */
  lemma FormatFraction(d: string, f: string)
    requires d != [] && AllDigits(d) && f != [] && AllDigits(f)
    ensures Format(d + "." + f) == "AED " + Group(d) + ("." + Group(f))
  {
    var v := d + "." + f;
    var t := "AED " + v;
    var h, r, x := [d[0]], CommaBeforeThirds(d[1..]), "." + Grouped(f);
    assert InsertCommas(t, 0) == "AED " + h + InsertCommas(t, 5) by {
      assert v[0] == d[0];
      PrefixUntouched(v);
    }
    assert InsertCommas(t, 5) == r + InsertCommas(t, 4 + |d|) by {
      assert v[..|d|] == d && v[|d|] == '.';
      WholePartRest(v, d);
    }
    assert InsertCommas(t, 4 + |d|) == x by {
      FractionLayout(d, f);
      FractionTail(t, 4 + |d|, f);
    }
    assert h + r == Group(d) by {
      GroupedIsGroup(d);
    }
    assert x == "." + Group(f) by {
      GroupedIsGroup(f);
    }
    Regroup("AED ", h, r, x);
  }

  lemma Regroup(a: string, h: string, r: string, x: string)
    ensures a + h + (r + x) == a + (h + r) + x
  {
  }

  /** Parsing still gives a decimal amount back from the formatter as
      written; only the display is off. */
  lemma ParseFormatFraction(d: string, f: string)
    requires d != [] && AllDigits(d) && f != [] && AllDigits(f)
    ensures Parse(Format(d + "." + f)) == d + "." + f
  {
    assert Parse("AED " + Group(d) + ("." + Group(f))) == d + ("." + f) by {
      PointThenGroup(f);
      ParseAfterGroup(d, "." + Group(f));
    }
    FormatFraction(d, f);
    assert d + ("." + f) == d + "." + f;
  }

  /** A point and grouped digits are numeric text whose commas hide the
      digits. */
  lemma PointThenGroup(f: string)
    requires AllDigits(f)
    ensures NumericText("." + Group(f)) && RemoveCommas("." + Group(f)) == "." + f
  {
    GroupChars(f);
    GroupShape(f);
    RemoveCommasAppend(".", Group(f));
  }

  /** A point and digits are numeric text without commas. */
  lemma PointThenDigits(f: string)
    requires AllDigits(f)
    ensures NumericText("." + f) && RemoveCommas("." + f) == "." + f
  {
    RemoveCommasAppend(".", f);
    RemoveCommasOfDigits(f);
  }

  /** Parsing `AED `, a grouped whole part and numeric text after it gives
      the whole part and that text without its commas. */
  lemma ParseAfterGroup(d: string, x: string)
    requires AllDigits(d) && NumericText(x)
    ensures Parse("AED " + Group(d) + x) == d + RemoveCommas(x)
  {
    var g := Group(d) + x;
    assert NumericText(g) by {
      GroupChars(d);
    }
    assert RemoveCommas(g) == d + RemoveCommas(x) by {
      GroupShape(d);
      RemoveCommasAppend(Group(d), x);
    }
    ParseGrouped(g, d + RemoveCommas(x));
    assert "AED " + Group(d) + x == "AED " + g;
  }

  /** Parsing `AED ` followed by numeric text deletes its commas. */
  lemma ParseGrouped(g: string, v: string)
    requires NumericText(g) && RemoveCommas(g) == v
    ensures Parse("AED " + g) == v
  {
    var s := "AED " + g;
    assert s[..3] == "AED" && IsJsWhitespace(s[3]) && s[4..] == g;
    ParseNumericText(g);
  }

  /** An amount with four fractional digits shows a comma after the point. */
  lemma FormatGroupsFraction()
    ensures Format("1234.5678") == "AED 1,234.5,678"
  {
    assert "1234" + "." + "5678" == "1234.5678";
    assert AllDigits("1234") && AllDigits("5678");
    FormatFraction("1234", "5678");
    assert "1234"[..1] == "1" && "1234"[1..] == "234";
    assert "5678"[..1] == "5" && "5678"[1..] == "678";
  }

  /** The position of the first decimal point, or the length when there is
      none. */
  function PointIndex(s: string): (k: nat)
    ensures k <= |s| && (k < |s| ==> s[k] == '.')
    ensures forall i :: 0 <= i < k ==> s[i] != '.'
  {
    if s == [] || s[0] == '.' then 0 else 1 + PointIndex(s[1..])
  }

  /** The formatter with the evidently intended grouping: the replacement
      runs on the text before the decimal point only. */
  function FormatIntegerPart(value: string): string {
    var k := PointIndex(value);
    InsertCommas("AED " + value[..k], 0) + value[k..]
  }

  /** Without a decimal point it is the formatter as written. */
  lemma FormatIntegerPartAgrees(v: string)
    requires forall i :: 0 <= i < |v| ==> v[i] != '.'
    ensures FormatIntegerPart(v) == Format(v)
  {
    assert v[..|v|] == v && v[|v|..] == [];
  }

  /** On a decimal amount it groups the whole part by thousands and leaves
      the fraction as typed. */
  lemma FormatIntegerPartFraction(d: string, f: string)
    requires d != [] && AllDigits(d) && AllDigits(f)
    ensures FormatIntegerPart(d + "." + f) == "AED " + Group(d) + ("." + f)
  {
    var v := d + "." + f;
    assert PointIndex(v) == |d| by {
      assert v[|d|] == '.';
    }
    assert v[..|d|] == d && v[|d|..] == "." + f;
    FormatDigits(d);
  }

  /** The parser undoes the corrected formatter on a decimal amount. */
  lemma ParseFormatIntegerPart(d: string, f: string)
    requires d != [] && AllDigits(d) && AllDigits(f)
    ensures Parse(FormatIntegerPart(d + "." + f)) == d + "." + f
  {
    PointThenDigits(f);
    ParseAfterGroup(d, "." + f);
    FormatIntegerPartFraction(d, f);
    assert d + ("." + f) == d + "." + f;
  }
}
