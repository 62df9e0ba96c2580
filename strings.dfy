/**
 * The Python string operations the scraper is built from, with the
 * semantics of CPython's `str` methods: `in`, `startswith`, `endswith`,
 * `split(sep)`, `sep.join`, `replace`, `splitlines`, `strip`, `int(...)`,
 * `str(n)` and the `'{:02}'` format.
 */
module Strings {
  import opened Results

  predicate StartsWith(s: string, prefix: string) {
    |prefix| <= |s| && s[..|prefix|] == prefix
  }

  predicate EndsWith(s: string, suffix: string) {
    |suffix| <= |s| && s[|s| - |suffix|..] == suffix
  }

  /** Python's `sub in s`. */
  predicate Contains(s: string, sub: string)
    decreases |s|
  {
    |sub| <= |s| && (s[..|sub|] == sub || Contains(s[1..], sub))
  }

  // ---------------------------------------------------------------------------
  // split / join / replace
  // ---------------------------------------------------------------------------

  /**
   * Python's `s.split(sep)`: the pieces between the non-overlapping
   * occurrences of `sep`, found from the left.  Python raises ValueError for
   * an empty separator; every separator of the modelled code is a non-empty
   * literal.
   */
  function Split(s: string, sep: string): (parts: seq<string>)
    requires |sep| > 0
    ensures |parts| >= 1
    decreases |s|
  {
    if |s| < |sep| then [s]
    else if s[..|sep|] == sep then [""] + Split(s[|sep|..], sep)
    else
      var rest := Split(s[1..], sep);
      [[s[0]] + rest[0]] + rest[1..]
  }

  /** Python's `sep.join(parts)`. */
  function Join(parts: seq<string>, sep: string): string
    decreases |parts|
  {
    if |parts| == 0 then ""
    else if |parts| == 1 then parts[0]
    else parts[0] + sep + Join(parts[1..], sep)
  }

  /** Python's `s.replace(target, replacement)`, every occurrence from the left. */
  function Replace(s: string, target: string, replacement: string): string
    decreases |s|
  {
    if |target| == 0 then InsertEverywhere(s, replacement)
    else if |s| < |target| then s
    else if s[..|target|] == target then replacement + Replace(s[|target|..], target, replacement)
    else [s[0]] + Replace(s[1..], target, replacement)
  }

  /** `s.replace('', r)`: `r` before every character and at the end. */
  function InsertEverywhere(s: string, r: string): string
    decreases |s|
  {
    if |s| == 0 then r else r + [s[0]] + InsertEverywhere(s[1..], r)
  }

  lemma JoinAfterFirst(x: string, rest: seq<string>, sep: string)
    requires |rest| >= 1
    ensures Join([x + rest[0]] + rest[1..], sep) == x + Join(rest, sep)
  {
    var parts := [x + rest[0]] + rest[1..];
    if |rest| > 1 {
      assert parts[1..] == rest[1..];
      assert (x + rest[0]) + sep + Join(rest[1..], sep) == x + (rest[0] + sep + Join(rest[1..], sep));
    }
  }

  /** Splitting and joining again with the same separator gives back the string. */
  lemma {:induction false} JoinSplit(s: string, sep: string)
    requires |sep| > 0
    ensures Join(Split(s, sep), sep) == s
    decreases |s|
  {
    if |s| < |sep| {
    } else if s[..|sep|] == sep {
      var tail := s[|sep|..];
      JoinSplit(tail, sep);
      JoinCons("", Split(tail, sep), sep);
      SeparatorFirst(s, sep);
    } else {
      JoinSplit(s[1..], sep);
      JoinAfterFirst([s[0]], Split(s[1..], sep), sep);
      FirstCharFirst(s);
    }
  }

  lemma SeparatorFirst(s: string, sep: string)
    requires |sep| <= |s| && s[..|sep|] == sep
    ensures s == "" + sep + s[|sep|..]
  {
    assert s == s[..|sep|] + s[|sep|..];
  }

  lemma FirstCharFirst(s: string)
    requires |s| > 0
    ensures s == [s[0]] + s[1..]
  {
  }

  /** `s.replace(t, r)` is `r.join(s.split(t))` for a non-empty `t`. */
  lemma {:induction false} ReplaceIsJoinOfSplit(s: string, target: string, replacement: string)
    requires |target| > 0
    ensures Replace(s, target, replacement) == Join(Split(s, target), replacement)
    decreases |s|
  {
    if |s| < |target| {
    } else if s[..|target|] == target {
      var rest := Split(s[|target|..], target);
      ReplaceIsJoinOfSplit(s[|target|..], target, replacement);
      JoinCons("", rest, replacement);
    } else {
      var rest := Split(s[1..], target);
      ReplaceIsJoinOfSplit(s[1..], target, replacement);
      JoinAfterFirst([s[0]], rest, replacement);
    }
  }

  /** A string without an occurrence of the target is left as it is. */
  lemma {:induction false} ReplaceAbsent(s: string, target: string, replacement: string)
    requires |target| > 0 && !Contains(s, target)
    ensures Replace(s, target, replacement) == s
    decreases |s|
  {
    if |s| >= |target| {
      ReplaceAbsent(s[1..], target, replacement);
      assert s == [s[0]] + s[1..];
    }
  }

  /** A string without the separator character splits into itself. */
  lemma {:induction false} SplitWithoutSeparator(a: string, c: char)
    requires c !in a
    ensures Split(a, [c]) == [a]
    decreases |a|
  {
    if |a| >= 1 {
      assert a[..1] == [a[0]];
      SplitWithoutSeparator(a[1..], c);
      assert [a[0]] + a[1..] == a;
    }
  }

  /** The first piece of a split at a character is everything before its first occurrence. */
  lemma {:induction false} SplitAtFirst(a: string, c: char, b: string)
    requires c !in a
    ensures Split(a + [c] + b, [c]) == [a] + Split(b, [c])
    decreases |a|
  {
    var s := a + [c] + b;
    if |a| == 0 {
      assert s[..1] == [c];
      assert s[1..] == b;
    } else {
      assert s[..1] == [a[0]];
      assert s[1..] == a[1..] + [c] + b;
      SplitAtFirst(a[1..], c, b);
      assert [a[0]] + a[1..] == a;
    }
  }

  /** No piece of a split at a character contains that character. */
  lemma {:induction false} SplitPiecesAvoidSeparator(s: string, c: char)
    ensures forall k :: 0 <= k < |Split(s, [c])| ==> c !in Split(s, [c])[k]
    decreases |s|
  {
    if |s| >= 1 {
      SplitPiecesAvoidSeparator(s[1..], c);
      if s[..1] != [c] {
        assert s[0] != c;
      }
    }
  }

  // ---------------------------------------------------------------------------
  // splitlines
  // ---------------------------------------------------------------------------

  /** The characters at which Python's `str.splitlines` breaks a line. */
  predicate IsLineBreak(ch: char) {
    ch == '\n' || ch == '\r' || ch == '\U{0b}' || ch == '\U{0c}' || ch == '\U{1c}' ||
    ch == '\U{1d}' || ch == '\U{1e}' || ch == '\U{85}' || ch == '\U{2028}' || ch == '\U{2029}'
  }

  function FirstLineBreak(s: string): (n: nat)
    ensures n <= |s|
    ensures n < |s| ==> IsLineBreak(s[n])
    ensures forall i :: 0 <= i < n ==> !IsLineBreak(s[i])
    decreases |s|
  {
    if |s| == 0 || IsLineBreak(s[0]) then 0 else 1 + FirstLineBreak(s[1..])
  }

  /**
   * Python's `s.splitlines()`: the lines without their terminators; `\r\n`
   * ends one line, a final terminator does not open an empty last line.
   */
  function SplitLines(s: string): (lines: seq<string>)
    ensures |s| == 0 <==> |lines| == 0
    decreases |s|
  {
    if |s| == 0 then []
    else
      var n := FirstLineBreak(s);
      if n == |s| then [s]
      else
        var width := if s[n] == '\r' && n + 1 < |s| && s[n + 1] == '\n' then 2 else 1;
        [s[..n]] + SplitLines(s[n + width..])
  }

  predicate OnlyNewlineBreaks(s: string) {
    forall i :: 0 <= i < |s| && IsLineBreak(s[i]) ==> s[i] == '\n'
  }

  lemma OnlyNewlineBreaksSuffix(s: string, k: nat)
    requires k <= |s| && OnlyNewlineBreaks(s)
    ensures OnlyNewlineBreaks(s[k..])
  {
    forall i | 0 <= i < |s| - k && IsLineBreak(s[k..][i])
      ensures s[k..][i] == '\n'
    {
      assert s[k..][i] == s[k + i];
    }
  }

  lemma JoinCons(x: string, rest: seq<string>, sep: string)
    requires |rest| >= 1
    ensures Join([x] + rest, sep) == x + sep + Join(rest, sep)
  {
    assert ([x] + rest)[1..] == rest;
  }

  /** A `\n` before the last character ends the first line, and the lines of the rest follow. */
  lemma SplitLinesAtNewline(s: string, n: nat)
    requires n == FirstLineBreak(s) && n + 1 < |s| && s[n] == '\n'
    ensures SplitLines(s) == [s[..n]] + SplitLines(s[n + 1..])
  {
  }

  /** The first line, a `\n` and the joined lines of the rest give the text back. */
  lemma JoinLinesStep(s: string, n: nat, restLines: seq<string>)
    requires n + 1 < |s| && s[n] == '\n' && |restLines| >= 1 && Join(restLines, "\n") == s[n + 1..]
    ensures Join([s[..n]] + restLines, "\n") == s
  {
    JoinCons(s[..n], restLines, "\n");
    NewlineSplitsText(s, n);
  }

  lemma NewlineSplitsText(s: string, n: nat)
    requires n < |s| && s[n] == '\n'
    ensures s == s[..n] + "\n" + s[n + 1..]
  {
    assert s[..n] + "\n" + s[n + 1..] == s[..n] + [s[n]] + s[n + 1..];
  }

  /** A text whose only terminator is `\n`, and that does not end in one, is its lines joined by `\n`. */
  lemma {:induction false} JoinSplitLines(s: string)
    requires |s| > 0 && s[|s| - 1] != '\n' && OnlyNewlineBreaks(s)
    ensures Join(SplitLines(s), "\n") == s
    decreases |s|
  {
    var n := FirstLineBreak(s);
    if n < |s| {
      assert s[n] == '\n';
      var rest := s[n + 1..];
      assert rest[|rest| - 1] == s[|s| - 1];
      OnlyNewlineBreaksSuffix(s, n + 1);
      JoinSplitLines(rest);
      SplitLinesAtNewline(s, n);
      JoinLinesStep(s, n, SplitLines(rest));
    }
  }

  // ---------------------------------------------------------------------------
  // integers: int(...), str(n), '{:02}'.format(n)
  // ---------------------------------------------------------------------------

  predicate IsDigit(ch: char) {
    '0' <= ch <= '9'
  }

  predicate AllDigits(s: string) {
    forall i :: 0 <= i < |s| ==> IsDigit(s[i])
  }

  /** The characters Python's `str.isspace` accepts, which `int()` and `strip()` drop. */
  predicate IsSpace(ch: char) {
    ch == ' ' || ('\t' <= ch <= '\r') || ('\U{1c}' <= ch <= '\U{1f}') || ch == '\U{85}' ||
    ch == '\U{a0}' || ch == '\U{1680}' || ('\U{2000}' <= ch <= '\U{200a}') || ch == '\U{2028}' ||
    ch == '\U{2029}' || ch == '\U{202f}' || ch == '\U{205f}' || ch == '\U{3000}'
  }

  function DigitsValue(s: string): nat
    requires AllDigits(s)
    decreases |s|
  {
    if |s| == 0 then 0 else 10 * DigitsValue(s[..|s| - 1]) + ((s[|s| - 1] as int) - ('0' as int))
  }

  function DigitChar(d: nat): (ch: char)
    requires d < 10
    ensures IsDigit(ch) && (ch as int) - ('0' as int) == d
  {
    ['0', '1', '2', '3', '4', '5', '6', '7', '8', '9'][d]
  }

  /** Python's `str(n)` for a non-negative integer. */
  function Decimal(n: nat): (s: string)
    ensures |s| >= 1 && AllDigits(s)
    ensures n < 10 <==> |s| == 1
  {
    if n < 10 then [DigitChar(n)] else Decimal(n / 10) + [DigitChar(n % 10)]
  }

  /** Reading back what `str(n)` wrote gives `n`. */
  lemma {:induction false} DecimalRoundTrip(n: nat)
    ensures DigitsValue(Decimal(n)) == n
  {
    if n >= 10 {
      DecimalRoundTrip(n / 10);
      var s := Decimal(n);
      assert s[..|s| - 1] == Decimal(n / 10);
    }
  }

  function StripLeft(s: string): (r: string)
    ensures |r| == 0 || !IsSpace(r[0])
    decreases |s|
  {
    if |s| > 0 && IsSpace(s[0]) then StripLeft(s[1..]) else s
  }

  function StripRight(s: string): (r: string)
    ensures |r| == 0 || !IsSpace(r[|r| - 1])
    decreases |s|
  {
    if |s| > 0 && IsSpace(s[|s| - 1]) then StripRight(s[..|s| - 1]) else s
  }

  /** Python's `s.strip()`. */
  function Strip(s: string): string {
    StripRight(StripLeft(s))
  }

  /**
   * Python's `int(s)` for base 10: surrounding white space is dropped, one
   * optional sign, then one or more digits; anything else raises ValueError.
   */
  function ParseInt(s: string): (r: Result<int>)
    ensures AllDigits(s) && |s| > 0 ==> r == Ok(DigitsValue(s))
  {
    var t := Strip(s);
    var negative := |t| > 0 && t[0] == '-';
    var body := if |t| > 0 && (t[0] == '-' || t[0] == '+') then t[1..] else t;
    if |body| == 0 || !AllDigits(body) then Err(ValueError)
    else
      var magnitude: int := DigitsValue(body);
      Ok(if negative then -magnitude else magnitude)
  }

  /** Python's `'{:02}'.format(n)`: zero-padded to width 2 after the sign, never truncated. */
  function Format02(n: int): (s: string)
    ensures |s| >= 2
    ensures 0 <= n < 100 ==> |s| == 2 && AllDigits(s) && DigitsValue(s) == n
  {
    if n < 0 then
      "-" + Decimal(-n)
    else if n < 10 then
      assert DigitsValue(['0', DigitChar(n)][..1]) == 0;
      ['0', DigitChar(n)]
    else
      var s := Decimal(n);
      DecimalRoundTrip(n);
      s
  }
}
