/**
 * `get_title_to_download_links` (scrape.py): for every candidate playlist URL
 * of a title, fetch it; if it is an HLS master playlist (RFC 8216, section
 * 4.3.4.2: an `EXT-X-STREAM-INF` tag line carrying `RESOLUTION=<W>x<H>`,
 * followed by the URI line of that variant), pick the variant of largest
 * W*H and turn it into a final URL:
 *   - matterhorn: fetch the variant playlist, find its `.mp4` reference and
 *     join it to the base prefix of the candidate URL;
 *   - panopto: join the variant path to the base prefix.
 * A candidate that is not a master playlist contributes nothing.
 *
 * Fetching is the parameter `fetch` (URL -> body text).  The three regular
 * expressions of the code are modelled one by one below.
 */
module Playlist {
  import opened Results
  import opened Strings
  import opened Dicts
  import opened Correlate

  const StreamInfTag := "#EXT-X-STREAM-INF"

  // ---------------------------------------------------------------------------
  // `re.findall('\d*x\d*', line)[0]`
  // ---------------------------------------------------------------------------

  function IndexOf(s: string, c: char): (r: Option<nat>)
    ensures r.Some? ==> r.value < |s| && s[r.value] == c && forall i :: 0 <= i < r.value ==> s[i] != c
    ensures r.None? ==> forall i :: 0 <= i < |s| ==> s[i] != c
    decreases |s|
  {
    if |s| == 0 then None
    else if s[0] == c then Some(0)
    else
      match IndexOf(s[1..], c)
      case None => None
      case Some(k) => Some(k + 1)
  }

  function DigitsBefore(s: string, q: nat): (p: nat)
    requires q <= |s|
    ensures p <= q && (forall i :: p <= i < q ==> IsDigit(s[i])) && (p == 0 || !IsDigit(s[p - 1]))
    decreases q
  {
    if q > 0 && IsDigit(s[q - 1]) then DigitsBefore(s, q - 1) else q
  }

  function DigitsFrom(s: string, i: nat): (e: nat)
    requires i <= |s|
    ensures i <= e <= |s| && (forall k :: i <= k < e ==> IsDigit(s[k])) && (e == |s| || !IsDigit(s[e]))
    decreases |s| - i
  {
    if i < |s| && IsDigit(s[i]) then DigitsFrom(s, i + 1) else i
  }

  /**
   * The first match of `\d*x\d*`: the pattern needs an `x`, and the leftmost
   * match is the first `x` with the longest digit runs on either side.
   * None stands for the IndexError of `[0]` on no match.
   */
  function ResolutionToken(line: string): (r: Option<string>)
    ensures r.None? <==> 'x' !in line
  {
    match IndexOf(line, 'x')
    case None => None
    case Some(q) => Some(line[DigitsBefore(line, q)..DigitsFrom(line, q + 1)])
  }

  lemma IndexOfIs(s: string, c: char, q: nat)
    requires q < |s| && s[q] == c && forall i :: 0 <= i < q ==> s[i] != c
    ensures IndexOf(s, c) == Some(q)
  {
  }

  lemma DigitsBeforeIs(s: string, q: nat, p: nat)
    requires p <= q <= |s| && (forall i :: p <= i < q ==> IsDigit(s[i])) && (p == 0 || !IsDigit(s[p - 1]))
    ensures DigitsBefore(s, q) == p
  {
  }

  lemma DigitsFromIs(s: string, i: nat, e: nat)
    requires i <= e <= |s| && (forall k :: i <= k < e ==> IsDigit(s[k])) && (e == |s| || !IsDigit(s[e]))
    ensures DigitsFrom(s, i) == e
  {
  }

  /** The token of a line is fixed by its first `x` and the digit runs around it. */
  lemma ResolutionTokenIs(line: string, p: nat, q: nat, e: nat)
    requires p <= q < e <= |line| && line[q] == 'x' && forall i :: 0 <= i < q ==> line[i] != 'x'
    requires forall i :: p <= i < q ==> IsDigit(line[i])
    requires p == 0 || !IsDigit(line[p - 1])
    requires forall i :: q < i < e ==> IsDigit(line[i])
    requires e == |line| || !IsDigit(line[e])
    ensures ResolutionToken(line) == Some(line[p..e])
  {
    IndexOfIs(line, 'x', q);
    DigitsBeforeIs(line, q, p);
    DigitsFromIs(line, q + 1, e);
  }

  lemma TagLineBeforeX(pre: string, w: string, h: string, post: string)
    requires 'x' !in pre && AllDigits(w) && (|pre| == 0 || !IsDigit(pre[|pre| - 1]))
    ensures var line := pre + w + "x" + h + post;
            && (|pre| == 0 || !IsDigit(line[|pre| - 1]))
            && line[|pre| + |w|] == 'x'
            && (forall i :: 0 <= i < |pre| + |w| ==> line[i] != 'x')
            && (forall i :: |pre| <= i < |pre| + |w| ==> IsDigit(line[i]))
  {
    var line := pre + w + "x" + h + post;
    forall i | 0 <= i < |pre| ensures line[i] == pre[i] { }
    forall i | |pre| <= i < |pre| + |w| ensures line[i] == w[i - |pre|] { }
  }

  lemma TagLineSlice(pre: string, w: string, h: string, post: string)
    ensures (pre + w + "x" + h + post)[|pre|..|pre| + |w| + 1 + |h|] == w + "x" + h
  {
    var line := pre + w + "x" + h + post;
    assert line == pre + (w + "x" + h) + post;
  }

  lemma TagLineAfterX(pre: string, w: string, h: string, post: string)
    requires AllDigits(h) && (|post| == 0 || !IsDigit(post[0]))
    ensures var line, e := pre + w + "x" + h + post, |pre| + |w| + 1 + |h|;
            && (forall i :: |pre| + |w| < i < e ==> IsDigit(line[i]))
            && (e == |line| || !IsDigit(line[e]))
  {
    var line := pre + w + "x" + h + post;
    var e := |pre| + |w| + 1 + |h|;
    forall i | |pre| + |w| < i < e ensures line[i] == h[i - |pre| - |w| - 1] { }
    if e < |line| {
      assert line[e] == post[0];
    }
  }

  /** For a tag line `...RESOLUTION=<W>x<H>...` with no `x` before the resolution, the token is `<W>x<H>`. */
  lemma ResolutionTokenOfTagLine(pre: string, w: string, h: string, post: string)
    requires 'x' !in pre && (|pre| == 0 || !IsDigit(pre[|pre| - 1]))
    requires AllDigits(w) && AllDigits(h) && (|post| == 0 || !IsDigit(post[0]))
    ensures ResolutionToken(pre + w + "x" + h + post) == Some(w + "x" + h)
  {
    var line := pre + w + "x" + h + post;
    var p := |pre|;
    var e := p + |w| + 1 + |h|;
    TagLineBeforeX(pre, w, h, post);
    TagLineAfterX(pre, w, h, post);
    ResolutionTokenIs(line, p, p + |w|, e);
    TagLineSlice(pre, w, h, post);
  }

  /** `x, y = resolution.split('x')` then `int(x) * int(y)`; ValueError for a wrong number of sides or a bad integer. */
  function Area(key: string): Result<int> {
    var sides := Split(key, "x");
    if |sides| != 2 then Err(ValueError)
    else
      var w := ParseInt(sides[0]);
      var h := ParseInt(sides[1]);
      if w.Err? then Err(w.error)
      else if h.Err? then Err(h.error)
      else Ok(w.value * h.value)
  }

  /** A `<W>x<H>` key of digit runs has area W*H; an empty side raises ValueError. */
  lemma AreaOfResolution(w: string, h: string)
    requires AllDigits(w) && AllDigits(h)
    ensures Area(w + "x" + h) == if |w| > 0 && |h| > 0 then Ok(DigitsValue(w) * DigitsValue(h)) else Err(ValueError)
  {
    assert 'x' !in w by { DigitsAvoid(w, 'x'); }
    assert 'x' !in h by { DigitsAvoid(h, 'x'); }
    SplitAtFirst(w, 'x', h);
    SplitWithoutSeparator(h, 'x');
    assert Split(w + "x" + h, "x") == [w, h];
  }

  lemma DigitsAvoid(s: string, c: char)
    requires AllDigits(s) && !IsDigit(c)
    ensures c !in s
  {
  }

  // ---------------------------------------------------------------------------
  // resolution -> variant path
  // ---------------------------------------------------------------------------

  /** How the loop sees a line: a `#EXT-X-STREAM-INF` tag line with its resolution token (None when it has none), or any other line. */
  datatype LineKind = OtherLine | TagLine(resolution: Option<string>)

  function KindOf(line: string): LineKind {
    if StartsWith(line, StreamInfTag) then TagLine(ResolutionToken(line)) else OtherLine
  }

  /**
   * `resolution_dict` after the first `n` lines of the master playlist, with
   * the lines classified by `kindOf`; IndexError for a tag line without a
   * resolution or without a next line.  `kindOf` is `KindOf` in the program
   * (see VariantsOf); the lemmas hold for any classifier.
   */
  function VariantsUpTo(lines: seq<string>, n: nat, kindOf: string -> LineKind): Result<Dict<string>>
    requires n <= |lines|
  {
    if n == 0 then Ok([])
    else
      var prev := VariantsUpTo(lines, n - 1, kindOf);
      var kind := kindOf(lines[n - 1]);
      if prev.Err? || kind.OtherLine? then prev
      else if kind.resolution.None? || n >= |lines| then Err(IndexError)
      else Ok(Set(prev.value, kind.resolution.value, lines[n]))
  }

  /** `resolution_dict` after the first `n` lines. */
  function VariantsOf(lines: seq<string>, n: nat): Result<Dict<string>>
    requires n <= |lines|
  {
    VariantsUpTo(lines, n, KindOf)
  }

  predicate IsTagWith(lines: seq<string>, j: nat, key: string, kindOf: string -> LineKind)
    requires j < |lines|
  {
    kindOf(lines[j]) == TagLine(Some(key))
  }

  lemma {:induction false} VariantsErrorSticks(lines: seq<string>, n: nat, m: nat, kindOf: string -> LineKind)
    requires n <= m <= |lines| && VariantsUpTo(lines, n, kindOf).Err?
    ensures VariantsUpTo(lines, m, kindOf) == Err(IndexError)
    decreases m
  {
    if m > n {
      VariantsErrorSticks(lines, n, m - 1, kindOf);
    } else {
      VariantsOnlyIndexError(lines, n, kindOf);
    }
  }

  lemma {:induction false} VariantsOnlyIndexError(lines: seq<string>, n: nat, kindOf: string -> LineKind)
    requires n <= |lines|
    ensures VariantsUpTo(lines, n, kindOf).Err? ==> VariantsUpTo(lines, n, kindOf) == Err(IndexError)
    decreases n
  {
    if n > 0 {
      VariantsOnlyIndexError(lines, n - 1, kindOf);
    }
  }

  /** Line `j` makes the loop raise: a tag line without a resolution token, or a tag line with no line after it. */
  predicate IsFailingTag(lines: seq<string>, j: nat, kindOf: string -> LineKind)
    requires j < |lines|
  {
    kindOf(lines[j]).TagLine? && (kindOf(lines[j]).resolution.None? || j + 1 >= |lines|)
  }

  /** The parse of the first `n` lines fails exactly when one of them is a failing tag line. */
  lemma {:induction false} VariantsFailIff(lines: seq<string>, n: nat, kindOf: string -> LineKind)
    requires n <= |lines|
    ensures VariantsUpTo(lines, n, kindOf).Err? <==> exists j :: 0 <= j < n && IsFailingTag(lines, j, kindOf)
    decreases n
  {
    if n > 0 {
      VariantsFailIff(lines, n - 1, kindOf);
      if IsFailingTag(lines, n - 1, kindOf) {
        assert 0 <= n - 1 < n && IsFailingTag(lines, n - 1, kindOf);
      }
    }
  }

  /**
   * The whole master playlist fails to parse exactly when some
   * `#EXT-X-STREAM-INF` line has no `x` (`findall(...)[0]`) or is the last
   * line (`m3u8_content[i+1]`).
   */
  lemma VariantsOfFailIff(lines: seq<string>)
    ensures VariantsOf(lines, |lines|).Err? <==>
            exists j :: 0 <= j < |lines| && StartsWith(lines[j], StreamInfTag) && ('x' !in lines[j] || j + 1 == |lines|)
    ensures VariantsOf(lines, |lines|).Err? ==> VariantsOf(lines, |lines|) == Err(IndexError)
  {
    VariantsFailIff(lines, |lines|, KindOf);
    VariantsOnlyIndexError(lines, |lines|, KindOf);
    forall j | 0 <= j < |lines|
      ensures IsFailingTag(lines, j, KindOf) <==> StartsWith(lines[j], StreamInfTag) && ('x' !in lines[j] || j + 1 == |lines|)
    {
    }
  }

  /**
   * A repeated resolution takes the path after its last tag line: the path
   * stored for a key is the line after a tag line with that key that no later
   * tag line with the same key follows.
   */
  lemma {:induction false} VariantsLastWriteWins(lines: seq<string>, n: nat, j: nat, key: string, kindOf: string -> LineKind)
    requires n <= |lines| && VariantsUpTo(lines, n, kindOf).Ok?
    requires j < n && IsTagWith(lines, j, key, kindOf)
    requires forall l :: j < l < n ==> !IsTagWith(lines, l, key, kindOf)
    ensures j + 1 < |lines| && Get(VariantsUpTo(lines, n, kindOf).value, key) == Some(lines[j + 1])
    decreases n
  {
    var prev := VariantsUpTo(lines, n - 1, kindOf);
    var kind := kindOf(lines[n - 1]);
    if j < n - 1 {
      VariantsLastWriteWins(lines, n - 1, j, key, kindOf);
      if kind.TagLine? {
        assert kind.resolution.value != key by { assert !IsTagWith(lines, n - 1, key, kindOf); }
        GetSet(prev.value, kind.resolution.value, lines[n], key);
      }
    } else {
      GetSet(prev.value, key, lines[n], key);
    }
  }

  /** A resolution is stored once: the keys are distinct. */
  lemma {:induction false} VariantKeysDistinct(lines: seq<string>, n: nat, kindOf: string -> LineKind)
    requires n <= |lines| && VariantsUpTo(lines, n, kindOf).Ok?
    ensures DistinctKeys(VariantsUpTo(lines, n, kindOf).value)
    decreases n
  {
    if n > 0 {
      VariantKeysDistinct(lines, n - 1, kindOf);
      var kind := kindOf(lines[n - 1]);
      if kind.TagLine? {
        SetKeys(VariantsUpTo(lines, n - 1, kindOf).value, kind.resolution.value, lines[n]);
      }
    }
  }

  /** Every key is the resolution of some tag line among the first `n`. */
  lemma VariantKeysFromTags(lines: seq<string>, n: nat, kindOf: string -> LineKind)
    requires n <= |lines| && VariantsUpTo(lines, n, kindOf).Ok?
    ensures forall k :: k in Keys(VariantsUpTo(lines, n, kindOf).value) ==> exists j :: 0 <= j < n && IsTagWith(lines, j, k, kindOf)
  {
    forall k | k in Keys(VariantsUpTo(lines, n, kindOf).value)
      ensures exists j :: 0 <= j < n && IsTagWith(lines, j, k, kindOf)
    {
      var j := TagOfKey(lines, n, kindOf, k);
    }
  }

  /** The tag line a key comes from. */
  lemma {:induction false} TagOfKey(lines: seq<string>, n: nat, kindOf: string -> LineKind, k: string) returns (j: nat)
    requires n <= |lines| && VariantsUpTo(lines, n, kindOf).Ok? && k in Keys(VariantsUpTo(lines, n, kindOf).value)
    ensures j < n && IsTagWith(lines, j, k, kindOf)
    decreases n
  {
    var prev := VariantsUpTo(lines, n - 1, kindOf);
    var kind := kindOf(lines[n - 1]);
    if kind.TagLine? && kind.resolution.value == k {
      j := n - 1;
    } else {
      if kind.TagLine? {
        SetKeysOrder(prev.value, kind.resolution.value, lines[n]);
      }
      assert k in Keys(prev.value);
      j := TagOfKey(lines, n - 1, kindOf, k);
    }
  }

  /** A key keeps the position it first got: the keys after `m` lines are a prefix of those after `n >= m`. */
  lemma {:induction false} VariantKeysGrow(lines: seq<string>, m: nat, n: nat, kindOf: string -> LineKind)
    requires m <= n <= |lines| && VariantsUpTo(lines, n, kindOf).Ok?
    ensures VariantsUpTo(lines, m, kindOf).Ok? && Keys(VariantsUpTo(lines, m, kindOf).value) <= Keys(VariantsUpTo(lines, n, kindOf).value)
    decreases n
  {
    if m < n {
      var prev := VariantsUpTo(lines, n - 1, kindOf);
      VariantKeysGrow(lines, m, n - 1, kindOf);
      var kind := kindOf(lines[n - 1]);
      if kind.TagLine? {
        SetKeysExtend(prev.value, kind.resolution.value, lines[n]);
        PrefixOfPrefix(Keys(VariantsUpTo(lines, m, kindOf).value), Keys(prev.value), Keys(VariantsUpTo(lines, n, kindOf).value));
      }
    }
  }

  lemma PrefixOfPrefix(a: seq<string>, b: seq<string>, c: seq<string>)
    requires a <= b && b <= c
    ensures a <= c
  {
  }

  lemma VariantsStep(lines: seq<string>, i: nat, kindOf: string -> LineKind, variants: Dict<string>)
    requires i < |lines| && VariantsUpTo(lines, i, kindOf) == Ok(variants)
    ensures var kind := kindOf(lines[i]);
            VariantsUpTo(lines, i + 1, kindOf) ==
            if kind.OtherLine? then Ok(variants)
            else if kind.resolution.None? || i + 1 >= |lines| then Err(IndexError)
            else Ok(Set(variants, kind.resolution.value, lines[i + 1]))
  {
  }

  /** The loop over the lines of a master playlist, by index. */
  method ParseVariants(lines: seq<string>) returns (r: Result<Dict<string>>)
    ensures r == VariantsOf(lines, |lines|)
  {
    var variants: Dict<string> := [];
    var i := 0;
    while i < |lines|
      invariant 0 <= i <= |lines|
      invariant VariantsUpTo(lines, i, KindOf) == Ok(variants)
    {
      var line := lines[i];
      VariantsStep(lines, i, KindOf, variants);
      if StartsWith(line, StreamInfTag) {
        var token := ResolutionToken(line);
        assert KindOf(lines[i]) == TagLine(token);
        if token.None? || i + 1 >= |lines| {
          VariantsErrorSticks(lines, i + 1, |lines|, KindOf);
          return Err(IndexError);
        }
        variants := Set(variants, token.value, lines[i + 1]);
      } else {
        assert KindOf(lines[i]) == OtherLine;
      }
      i := i + 1;
    }
    return Ok(variants);
  }

  // ---------------------------------------------------------------------------
  // the maximum
  // ---------------------------------------------------------------------------

  /** The area of every key, in key order; `areaOf` is `Area`, kept a parameter so that the loop's proof does not unfold it. */
  function AreasOf(d: Dict<string>, areaOf: string -> Result<int>): (areas: seq<Result<int>>)
    ensures |areas| == |d| && forall i :: 0 <= i < |d| ==> areas[i] == areaOf(d[i].0)
  {
    seq(|d|, i requires 0 <= i < |d| => areaOf(d[i].0))
  }

  /** The loop's `max_prod` and the position of `max_resolution` (None while unset). */
  datatype MaxState = MaxState(maxProd: int, best: Option<nat>)

  /** The loop state after the first `n` areas. */
  function MaxRun(areas: seq<Result<int>>, n: nat): (r: Result<MaxState>)
    requires n <= |areas|
    ensures r.Ok? && r.value.best.Some? ==> r.value.best.value < n
  {
    if n == 0 then Ok(MaxState(-1, None))
    else
      var prev := MaxRun(areas, n - 1);
      var area := areas[n - 1];
      if prev.Err? then prev
      else if area.Err? then Err(area.error)
      else if area.value > prev.value.maxProd then Ok(MaxState(area.value, Some(n - 1)))
      else prev
  }

  /** The position of the chosen area; KeyError when none was chosen (`resolution_dict[None]`). */
  function BestOf(areas: seq<Result<int>>): (r: Result<nat>)
    ensures r.Ok? ==> r.value < |areas|
  {
    var run := MaxRun(areas, |areas|);
    if run.Err? then Err(run.error)
    else if run.value.best.None? then Err(KeyError)
    else Ok(run.value.best.value)
  }

  /** The position of the key `max(resolution_dict, key=W*H)` picks. */
  function BestIndex(d: Dict<string>): (r: Result<nat>)
    ensures r.Ok? ==> r.value < |d|
  {
    BestOf(AreasOf(d, Area))
  }

  lemma {:induction false} MaxRunInvariant(areas: seq<Result<int>>, n: nat)
    requires n <= |areas|
    ensures MaxRun(areas, n).Err? <==> exists j :: 0 <= j < n && areas[j].Err?
    ensures MaxRun(areas, n).Err? ==> exists j :: 0 <= j < n && areas[j] == Err(MaxRun(areas, n).error)
    ensures MaxRun(areas, n).Ok? ==>
              var st := MaxRun(areas, n).value;
              && (st.best.None? ==> st.maxProd == -1 && forall j :: 0 <= j < n ==> areas[j].value <= -1)
              && (st.best.Some? ==>
                    && st.best.value < n
                    && st.maxProd >= 0
                    && areas[st.best.value] == Ok(st.maxProd)
                    && (forall j :: 0 <= j < n ==> areas[j].value <= st.maxProd)
                    && (forall j :: 0 <= j < st.best.value ==> areas[j].value < st.maxProd))
    decreases n
  {
    if n > 0 {
      MaxRunInvariant(areas, n - 1);
    }
  }

  /** Every area error is the ValueError of unpacking or of `int()`. */
  lemma AreaOnlyValueError(key: string)
    ensures Area(key).Err? ==> Area(key).error == ValueError
  {
  }

  /**
   * The chosen key maximises W*H, and every key before it has a strictly
   * smaller area: on a tie the earliest key wins (the comparison is `>`).
   */
  lemma BestIsFirstMaximum(d: Dict<string>)
    requires BestIndex(d).Ok?
    ensures var b := BestIndex(d).value;
            && Area(d[b].0).Ok?
            && (forall j :: 0 <= j < |d| ==> Area(d[j].0).Ok? && Area(d[j].0).value <= Area(d[b].0).value)
            && (forall j :: 0 <= j < b ==> Area(d[j].0).value < Area(d[b].0).value)
  {
    var areas := AreasOf(d, Area);
    MaxRunInvariant(areas, |areas|);
  }

  /** Choosing fails with ValueError exactly when some key has a bad area, and with KeyError exactly when every area is below 0 (an empty dict included). */
  lemma BestFailsIff(d: Dict<string>)
    ensures BestIndex(d) == Err(ValueError) <==> exists j :: 0 <= j < |d| && Area(d[j].0).Err?
    ensures BestIndex(d) == Err(KeyError) <==> forall j :: 0 <= j < |d| ==> Area(d[j].0).Ok? && Area(d[j].0).value < 0
  {
    var areas := AreasOf(d, Area);
    var run := MaxRun(areas, |areas|);
    MaxRunInvariant(areas, |areas|);
    if run.Err? {
      var j :| 0 <= j < |areas| && areas[j] == Err(run.error);
      AreaOnlyValueError(d[j].0);
      assert BestIndex(d) == Err(ValueError);
    } else if run.value.best.None? {
      assert BestIndex(d) == Err(KeyError);
    } else {
      var b := run.value.best.value;
      assert Area(d[b].0) == Ok(run.value.maxProd);
    }
  }

  lemma {:induction false} MaxRunErrorSticks(areas: seq<Result<int>>, n: nat, m: nat)
    requires n <= m <= |areas| && MaxRun(areas, n).Err?
    ensures MaxRun(areas, m) == MaxRun(areas, n)
    decreases m
  {
    if m > n {
      MaxRunErrorSticks(areas, n, m - 1);
    }
  }

  /** One iteration: `x, y = resolution.split('x')`, `prod = int(x)*int(y)`, and the strict `>` update. */
  method ConsiderKey(d: Dict<string>, i: nat, maxProd: int, best: Option<nat>) returns (r: Result<MaxState>)
    requires i < |d| && MaxRun(AreasOf(d, Area), i) == Ok(MaxState(maxProd, best))
    ensures r == MaxRun(AreasOf(d, Area), i + 1)
  {
    var area := Area(d[i].0);
    assert area == AreasOf(d, Area)[i];
    if area.Err? {
      return Err(area.error);
    }
    if area.value > maxProd {
      return Ok(MaxState(area.value, Some(i)));
    }
    return Ok(MaxState(maxProd, best));
  }

  /** The `for resolution in resolution_dict.keys()` loop. */
  method SelectMaxResolution(d: Dict<string>) returns (r: Result<nat>)
    ensures r == BestIndex(d)
  {
    var maxProd := -1;
    var best: Option<nat> := None;
    var i: nat := 0;
    while i < |d|
      invariant i <= |d| && MaxRun(AreasOf(d, Area), i) == Ok(MaxState(maxProd, best))
    {
      var next := ConsiderKey(d, i, maxProd, best);
      if next.Err? {
        BestAfterError(d, i + 1);
        return Err(next.error);
      }
      maxProd, best := next.value.maxProd, next.value.best;
      i := i + 1;
    }
    BestAfterRun(d, MaxState(maxProd, best));
    if best.None? {
      return Err(KeyError);
    }
    return Ok(best.value);
  }

  lemma BestAfterError(d: Dict<string>, n: nat)
    requires n <= |d| && MaxRun(AreasOf(d, Area), n).Err?
    ensures BestIndex(d) == Err(MaxRun(AreasOf(d, Area), n).error)
  {
    MaxRunErrorSticks(AreasOf(d, Area), n, |d|);
  }

  lemma BestAfterRun(d: Dict<string>, st: MaxState)
    requires MaxRun(AreasOf(d, Area), |d|) == Ok(st)
    ensures BestIndex(d) == if st.best.None? then Err(KeyError) else Ok(st.best.value)
  {
  }

  // ---------------------------------------------------------------------------
  // the base prefix: `re.findall(base_re, m3u8)[0]`
  // ---------------------------------------------------------------------------

  /** Python's `\w` on ASCII text. */
  predicate IsWordChar(c: char) {
    ('a' <= c <= 'z') || ('A' <= c <= 'Z') || ('0' <= c <= '9') || c == '_'
  }

  /** `[\w-]` or, with the dot, `[.\w-]`. */
  predicate InClass(c: char, withDot: bool) {
    IsWordChar(c) || c == '-' || (withDot && c == '.')
  }

  /**
   * Both base patterns have one shape: a literal text in which `.` stands for
   * any character but a newline, then one or more `[class]*` each followed by
   * `/`; `runs` says, per star, whether its class has the dot.  A star is
   * matched greedily and never given back: the `/` after it is outside its
   * class, so backtracking could never produce a match.
   */
  datatype BasePattern = BasePattern(host: string, runs: seq<bool>)

  function RunEnd(s: string, i: nat, withDot: bool): (e: nat)
    requires i <= |s|
    ensures i <= e <= |s|
    decreases |s| - i
  {
    if i < |s| && InClass(s[i], withDot) then RunEnd(s, i + 1, withDot) else i
  }

  /** One pattern character against one text character. */
  predicate CharMatches(p: char, c: char) {
    if p == '.' then c != '\n' else c == p
  }

  /** Where the literal text, matched from `i`, ends. */
  function LiteralEnd(s: string, i: nat, t: string): (r: Option<nat>)
    requires i <= |s|
    ensures r.Some? ==> r.value == i + |t| <= |s|
    decreases |t|
  {
    if |t| == 0 then Some(i)
    else if i < |s| && CharMatches(t[0], s[i]) then LiteralEnd(s, i + 1, t[1..])
    else None
  }

  /** Where the stars-and-slashes, matched from `i`, end. */
  function RunsEnd(s: string, i: nat, runs: seq<bool>): (r: Option<nat>)
    requires i <= |s|
    ensures r.Some? ==> i <= r.value <= |s|
    decreases |runs|
  {
    if |runs| == 0 then Some(i)
    else
      var e := RunEnd(s, i, runs[0]);
      if e < |s| && s[e] == '/' then RunsEnd(s, e + 1, runs[1..]) else None
  }

  /** Where a match of the pattern starting at `i` ends, if there is one. */
  function MatchAt(s: string, i: nat, pattern: BasePattern): (r: Option<nat>)
    requires i <= |s|
    ensures r.Some? ==> i <= r.value <= |s|
  {
    match LiteralEnd(s, i, pattern.host)
    case None => None
    case Some(j) => RunsEnd(s, j, pattern.runs)
  }

  /** The leftmost match at or after `from`: the first item of `re.findall`. */
  function FirstMatch(s: string, pattern: BasePattern, from: nat): (r: Option<(nat, nat)>)
    requires from <= |s|
    ensures r.Some? ==> from <= r.value.0 <= r.value.1 <= |s| && MatchAt(s, r.value.0, pattern) == Some(r.value.1)
    ensures r.Some? ==> forall p :: from <= p < r.value.0 ==> MatchAt(s, p, pattern).None?
    ensures r.None? ==> forall p :: from <= p <= |s| ==> MatchAt(s, p, pattern).None?
    decreases |s| - from
  {
    var m := MatchAt(s, from, pattern);
    if m.Some? then Some((from, m.value))
    else if from == |s| then None
    else FirstMatch(s, pattern, from + 1)
  }

  const MatterhornHost := "https://dvgni8clk4vbh.cloudfront.net/engage-player/"
  const PanoptoHost := "https://d2y36twrtb17ty.cloudfront.net/sessions/"

  /** `https://dvgni8clk4vbh.cloudfront.net/engage-player/[\w-]*\/` and `https://d2y36twrtb17ty.cloudfront.net/sessions/[\w-]*\/[.\w-]*\/`. */
  function BasePatternOf(player: Player): BasePattern {
    match player
    case Matterhorn => BasePattern(MatterhornHost, [false])
    case Panopto => BasePattern(PanoptoHost, [false, true])
  }

  /** The base prefix of a candidate URL; None for the IndexError. */
  function BaseOf(url: string, player: Player): Option<string> {
    match FirstMatch(url, BasePatternOf(player), 0)
    case None => None
    case Some(span) => Some(url[span.0..span.1])
  }

  /** Text that spells out the literal matches it (a `.` matches itself). */
  lemma {:induction false} LiteralEndOfText(s: string, i: nat, t: string)
    requires i + |t| <= |s| && forall j :: 0 <= j < |t| ==> s[i + j] == t[j]
    ensures LiteralEnd(s, i, t) == Some(i + |t|)
    decreases |t|
  {
    if |t| > 0 {
      assert s[i + 0] == t[0];
      forall j | 0 <= j < |t[1..]| ensures s[i + 1 + j] == t[1..][j] {
        assert s[i + (j + 1)] == t[j + 1];
      }
      LiteralEndOfText(s, i + 1, t[1..]);
    }
  }

  lemma {:induction false} RunEndAt(s: string, i: nat, k: nat, withDot: bool)
    requires i <= k <= |s|
    requires forall j :: i <= j < k ==> InClass(s[j], withDot)
    requires k == |s| || !InClass(s[k], withDot)
    ensures RunEnd(s, i, withDot) == k
    decreases k - i
  {
    if i < k {
      RunEndAt(s, i + 1, k, withDot);
    }
  }

  predicate AllInClass(s: string, withDot: bool) {
    forall i :: 0 <= i < |s| ==> InClass(s[i], withDot)
  }

  /** A class run followed by `/` is consumed by one star and its slash. */
  lemma RunSlash(s: string, at: nat, run: string, withDot: bool, runs: seq<bool>)
    requires at + |run| < |s| && forall j :: 0 <= j < |run| ==> s[at + j] == run[j]
    requires AllInClass(run, withDot) && s[at + |run|] == '/'
    ensures RunsEnd(s, at, [withDot] + runs) == RunsEnd(s, at + |run| + 1, runs)
  {
    forall j | at <= j < at + |run| ensures InClass(s[j], withDot) {
      assert s[j] == run[j - at];
    }
    RunEndAt(s, at, at + |run|, withDot);
    assert ([withDot] + runs)[1..] == runs;
  }

  /** A text that starts with the literal matches it from position 0. */
  lemma HostMatches(host: string, tail: string)
    ensures LiteralEnd(host + tail, 0, host) == Some(|host|)
  {
    var url := host + tail;
    forall j | 0 <= j < |host| ensures url[0 + j] == host[j] { }
    LiteralEndOfText(url, 0, host);
  }

  /** After a prefix, a class run and its `/` are consumed by the next star. */
  lemma RunAfterPrefix(prefix: string, run: string, tail: string, withDot: bool, runs: seq<bool>)
    requires AllInClass(run, withDot)
    ensures RunsEnd(prefix + run + "/" + tail, |prefix|, [withDot] + runs) ==
            RunsEnd(prefix + run + "/" + tail, |prefix| + |run| + 1, runs)
  {
    var url := prefix + run + "/" + tail;
    forall j | 0 <= j < |run| ensures url[|prefix| + j] == run[j] { }
    RunSlash(url, |prefix|, run, withDot, runs);
  }

  /** A URL `<host><segment>/<rest>` matches `<host>[class]*\/` at its start, up to the first `/` after the host. */
  lemma OneRunMatch(host: string, segment: string, rest: string, withDot: bool)
    requires AllInClass(segment, withDot)
    ensures var url := host + segment + "/" + rest;
            FirstMatch(url, BasePattern(host, [withDot]), 0) == Some((0, |host| + |segment| + 1))
  {
    var url := host + segment + "/" + rest;
    assert url == host + (segment + "/" + rest);
    HostMatches(host, segment + "/" + rest);
    RunAfterPrefix(host, segment, rest, withDot, []);
    assert [withDot] + [] == [withDot];
  }

  /** A URL `<host><a>/<b>/<rest>` matches `<host>[class]*\/[class]*\/` at its start, up to the second `/` after the host. */
  lemma TwoRunMatch(host: string, a: string, b: string, rest: string, dotA: bool, dotB: bool)
    requires AllInClass(a, dotA) && AllInClass(b, dotB)
    ensures var url := host + a + "/" + b + "/" + rest;
            FirstMatch(url, BasePattern(host, [dotA, dotB]), 0) == Some((0, |host| + |a| + 1 + |b| + 1))
  {
    TwoRunLayout(host, a, b, rest);
    TwoRunMatchAt(host + a + "/" + b + "/" + rest, host, a, b, dotA, dotB);
  }

  /** The same, for any text laid out as `<host><a>/<b>/...`. */
  lemma TwoRunMatchAt(url: string, host: string, a: string, b: string, dotA: bool, dotB: bool)
    requires AllInClass(a, dotA) && AllInClass(b, dotB)
    requires |url| > |host| + |a| + 1 + |b|
    requires forall j :: 0 <= j < |host| ==> url[0 + j] == host[j]
    requires forall j :: 0 <= j < |a| ==> url[|host| + j] == a[j]
    requires url[|host| + |a|] == '/'
    requires forall j :: 0 <= j < |b| ==> url[|host| + |a| + 1 + j] == b[j]
    requires url[|host| + |a| + 1 + |b|] == '/'
    ensures FirstMatch(url, BasePattern(host, [dotA, dotB]), 0) == Some((0, |host| + |a| + 1 + |b| + 1))
  {
    var h, m := |host|, |host| + |a| + 1;
    LiteralEndOfText(url, 0, host);
    RunSlash(url, h, a, dotA, [dotB]);
    RunSlash(url, m, b, dotB, []);
    assert [dotA] + [dotB] == [dotA, dotB];
    assert [dotB] + [] == [dotB];
    assert RunsEnd(url, m + |b| + 1, []) == Some(m + |b| + 1);
    MatchAtStart(url, BasePattern(host, [dotA, dotB]), m + |b| + 1);
  }

  /** Where the pieces of `<host><a>/<b>/<rest>` sit. */
  lemma TwoRunLayout(host: string, a: string, b: string, rest: string)
    ensures |host + a + "/" + b + "/" + rest| == |host| + |a| + |b| + |rest| + 2
    ensures forall j :: 0 <= j < |host| ==> (host + a + "/" + b + "/" + rest)[0 + j] == host[j]
    ensures forall j :: 0 <= j < |a| ==> (host + a + "/" + b + "/" + rest)[|host| + j] == a[j]
    ensures (host + a + "/" + b + "/" + rest)[|host| + |a|] == '/'
    ensures forall j :: 0 <= j < |b| ==> (host + a + "/" + b + "/" + rest)[|host| + |a| + 1 + j] == b[j]
    ensures (host + a + "/" + b + "/" + rest)[|host| + |a| + 1 + |b|] == '/'
  {
  }

  /** A match at the very start is the leftmost one. */
  lemma MatchAtStart(url: string, pattern: BasePattern, e: nat)
    requires MatchAt(url, 0, pattern) == Some(e)
    ensures FirstMatch(url, pattern, 0) == Some((0, e))
  {
  }


  /** For a matterhorn URL `<host><segment>/<rest>` the base is `<host><segment>/`. */
  lemma MatterhornBaseOf(segment: string, rest: string)
    requires AllInClass(segment, false)
    ensures BaseOf(MatterhornHost + segment + "/" + rest, Matterhorn) == Some(MatterhornHost + segment + "/")
  {
    var url := MatterhornHost + segment + "/" + rest;
    OneRunMatch(MatterhornHost, segment, rest, false);
    assert url[..|MatterhornHost| + |segment| + 1] == MatterhornHost + segment + "/";
  }

  /** For a panopto URL `<host><session>/<folder>/<rest>` the base is `<host><session>/<folder>/`. */
  lemma PanoptoBaseOf(session: string, folder: string, rest: string)
    requires AllInClass(session, false) && AllInClass(folder, true)
    ensures BaseOf(PanoptoHost + session + "/" + folder + "/" + rest, Panopto) ==
            Some(PanoptoHost + session + "/" + folder + "/")
  {
    var url := PanoptoHost + session + "/" + folder + "/" + rest;
    TwoRunMatch(PanoptoHost, session, folder, rest, false, true);
    assert url[..|PanoptoHost| + |session| + 1 + |folder| + 1] == PanoptoHost + session + "/" + folder + "/";
  }

  // ---------------------------------------------------------------------------
  // `re.findall('../.*.mp4', content)[0]`
  // ---------------------------------------------------------------------------

  /** The end of the line that position `i` is on. */
  function LineEnd(s: string, i: nat): (e: nat)
    requires i <= |s|
    ensures i <= e <= |s| && (forall k :: i <= k < e ==> s[k] != '\n') && (e == |s| || s[e] == '\n')
    decreases |s| - i
  {
    if i < |s| && s[i] != '\n' then LineEnd(s, i + 1) else i
  }

  /** `s[..e]` ends in `mp4`. */
  predicate Mp4EndsAt(s: string, e: nat)
    requires 3 <= e <= |s|
  {
    s[e - 3..e] == "mp4"
  }

  /** The largest `e` in `[lo + 4, hi]` with `s[e-3..e] == "mp4"`: the greedy `.*` gives back as little as it can. */
  function LastMp4End(s: string, lo: nat, hi: nat): (r: Option<nat>)
    requires lo <= hi <= |s|
    ensures r.Some? ==> lo + 4 <= r.value <= hi && Mp4EndsAt(s, r.value)
    ensures r.Some? ==> forall e :: r.value < e <= hi ==> !Mp4EndsAt(s, e)
    ensures r.None? ==> forall e :: lo + 4 <= e <= hi ==> !Mp4EndsAt(s, e)
    decreases hi
  {
    if hi < lo + 4 then None
    else if Mp4EndsAt(s, hi) then Some(hi)
    else LastMp4End(s, lo, hi - 1)
  }

  /** The end of a match of `../.*.mp4` starting at `p`, if one starts there. */
  function Mp4MatchAt(s: string, p: nat): Option<nat>
    requires p <= |s|
  {
    if p + 3 <= |s| && s[p] != '\n' && s[p + 1] != '\n' && s[p + 2] == '/' then
      LastMp4End(s, p + 3, LineEnd(s, p + 3))
    else None
  }

  function FirstMp4(s: string, from: nat): (r: Option<(nat, nat)>)
    requires from <= |s|
    ensures r.Some? ==> from <= r.value.0 <= |s| && Mp4MatchAt(s, r.value.0) == Some(r.value.1) && r.value.0 + 7 <= r.value.1 <= |s|
    ensures r.Some? ==> forall p :: from <= p < r.value.0 ==> Mp4MatchAt(s, p).None?
    ensures r.None? ==> forall p :: from <= p <= |s| ==> Mp4MatchAt(s, p).None?
    decreases |s| - from
  {
    var m := Mp4MatchAt(s, from);
    if m.Some? then Some((from, m.value))
    else if from == |s| then None
    else FirstMp4(s, from + 1)
  }

  /** The `.mp4` reference of a variant playlist; None for the IndexError. */
  function Mp4Reference(content: string): Option<string> {
    match FirstMp4(content, 0)
    case None => None
    case Some(span) => Some(content[span.0..span.1])
  }

  /** A variant playlist that is the single line `../<path>` with `<path>` ending in `.mp4` refers to `../<path>`. */
  lemma Mp4ReferenceOfLine(path: string)
    requires '\n' !in path && EndsWith(path, ".mp4")
    ensures Mp4Reference("../" + path) == Some("../" + path)
  {
    var s := "../" + path;
    var n := |s|;
    assert s[0] == '.' && s[1] == '.' && s[2] == '/';
    assert LineEnd(s, 3) == n;
    assert Mp4EndsAt(s, n) by {
      assert path[|path| - 4..] == ".mp4";
      assert s[n - 3..n] == path[|path| - 3..];
      assert path[|path| - 3..] == path[|path| - 4..][1..];
    }
    assert LastMp4End(s, 3, n) == Some(n);
    assert Mp4MatchAt(s, 0) == Some(n);
    assert FirstMp4(s, 0) == Some((0, n));
    assert s[0..n] == s;
  }

  /** Python's `s[3:]`. */
  function DropThree(s: string): string {
    if |s| >= 3 then s[3..] else ""
  }

  // ---------------------------------------------------------------------------
  // one candidate, one title, all titles
  // ---------------------------------------------------------------------------

  /** What one candidate URL adds to its title's list: nothing (not a master playlist) or one final URL. */
  function CandidateLink(url: string, player: Player, fetch: string -> string): Result<Option<string>> {
    var body := fetch(url);
    if !Contains(body, StreamInfTag) then Ok(None)
    else
      var lines := SplitLines(body);
      var variants := VariantsOf(lines, |lines|);
      if variants.Err? then Err(variants.error)
      else
        var best := BestIndex(variants.value);
        if best.Err? then Err(best.error)
        else
          var path := variants.value[best.value].1;
          var base := BaseOf(url, player);
          if base.None? then Err(IndexError)
          else
            match player
            case Matterhorn =>
              var mp4 := Mp4Reference(fetch(base.value + DropThree(path)));
              if mp4.None? then Err(IndexError) else Ok(Some(base.value + DropThree(mp4.value)))
            case Panopto => Ok(Some(base.value + path))
  }

  /** A master playlist whose variants parse to `d`, with `b` chosen and base `base`, yields the entry built from them. */
  lemma CandidateLinkOfMaster(url: string, player: Player, fetch: string -> string, d: Dict<string>, b: nat, base: string)
    requires Contains(fetch(url), StreamInfTag)
    requires VariantsOf(SplitLines(fetch(url)), |SplitLines(fetch(url))|) == Ok(d)
    requires BestIndex(d) == Ok(b) && BaseOf(url, player) == Some(base)
    ensures b < |d|
    ensures player == Panopto ==> CandidateLink(url, player, fetch) == Ok(Some(base + d[b].1))
    ensures player == Matterhorn ==>
              CandidateLink(url, player, fetch) ==
              (var mp4 := Mp4Reference(fetch(base + DropThree(d[b].1)));
               if mp4.None? then Err(IndexError) else Ok(Some(base + DropThree(mp4.value))))
  {
  }

  /**
   * A panopto master playlist at `<host><session>/<folder>/<rest>` resolves to
   * `<host><session>/<folder>/` followed by the path of its chosen variant,
   * the key of largest area.
   */
  lemma PanoptoEntry(url: string, session: string, folder: string, rest: string, fetch: string -> string, d: Dict<string>, b: nat)
    requires AllInClass(session, false) && AllInClass(folder, true)
    requires url == PanoptoHost + session + "/" + folder + "/" + rest
    requires Contains(fetch(url), StreamInfTag)
    requires VariantsOf(SplitLines(fetch(url)), |SplitLines(fetch(url))|) == Ok(d) && BestIndex(d) == Ok(b)
    ensures b < |d|
    ensures CandidateLink(url, Panopto, fetch) == Ok(Some(PanoptoHost + session + "/" + folder + "/" + d[b].1))
    ensures Area(d[b].0).Ok? && forall j :: 0 <= j < |d| ==> Area(d[j].0).Ok? && Area(d[j].0).value <= Area(d[b].0).value
  {
    PanoptoBaseOf(session, folder, rest);
    CandidateLinkOfMaster(url, Panopto, fetch, d, b, PanoptoHost + session + "/" + folder + "/");
    BestIsFirstMaximum(d);
  }

  /**
   * A matterhorn master playlist at `<host><segment>/<rest>` whose chosen
   * variant playlist refers to `m` resolves to `<host><segment>/` followed by
   * `m` without its leading `../`.
   */
  lemma MatterhornEntry(url: string, segment: string, rest: string, fetch: string -> string, d: Dict<string>, b: nat, m: string)
    requires AllInClass(segment, false)
    requires url == MatterhornHost + segment + "/" + rest
    requires Contains(fetch(url), StreamInfTag)
    requires VariantsOf(SplitLines(fetch(url)), |SplitLines(fetch(url))|) == Ok(d) && BestIndex(d) == Ok(b)
    requires b < |d| && Mp4Reference(fetch(MatterhornHost + segment + "/" + DropThree(d[b].1))) == Some(m)
    ensures CandidateLink(url, Matterhorn, fetch) == Ok(Some(MatterhornHost + segment + "/" + DropThree(m)))
    ensures Area(d[b].0).Ok? && forall j :: 0 <= j < |d| ==> Area(d[j].0).Ok? && Area(d[j].0).value <= Area(d[b].0).value
  {
    MatterhornBaseOf(segment, rest);
    CandidateLinkOfMaster(url, Matterhorn, fetch, d, b, MatterhornHost + segment + "/");
    BestIsFirstMaximum(d);
  }

  /** The link function of one player and fetcher, as a value. */
  function LinkBy(player: Player, fetch: string -> string): string -> Result<Option<string>> {
    u => CandidateLink(u, player, fetch)
  }

  /** `max_resolution_m3u8s` after the first `n` candidates of one title, one candidate's link at a time: the first error ends it. */
  function LinksUpTo(urls: seq<string>, n: nat, linkOf: string -> Result<Option<string>>): Result<seq<string>>
    requires n <= |urls|
  {
    if n == 0 then Ok([])
    else
      var prev := LinksUpTo(urls, n - 1, linkOf);
      var step := linkOf(urls[n - 1]);
      if prev.Err? then prev
      else if step.Err? then Err(step.error)
      else if step.value.Some? then Ok(prev.value + [step.value.value])
      else prev
  }

  /** `max_resolution_m3u8s` for one title's candidates. */
  function LinksOf(urls: seq<string>, player: Player, fetch: string -> string): Result<seq<string>> {
    LinksUpTo(urls, |urls|, LinkBy(player, fetch))
  }

  /** The positions of the first `n` candidates that add an entry. */
  function AddingIndices(urls: seq<string>, n: nat, linkOf: string -> Result<Option<string>>): seq<nat>
    requires n <= |urls|
  {
    if n == 0 then []
    else AddingIndices(urls, n - 1, linkOf) + (if linkOf(urls[n - 1]).Ok? && linkOf(urls[n - 1]).value.Some? then [n - 1] else [])
  }

  lemma {:induction false} LinksErrorSticks(urls: seq<string>, n: nat, m: nat, linkOf: string -> Result<Option<string>>)
    requires n <= m <= |urls| && LinksUpTo(urls, n, linkOf).Err?
    ensures LinksUpTo(urls, m, linkOf) == LinksUpTo(urls, n, linkOf)
    decreases m
  {
    if m > n {
      LinksErrorSticks(urls, n, m - 1, linkOf);
    }
  }

  /** The collected list is the entries the candidates add, in candidate order. */
  lemma {:induction false} LinksAreAddedEntries(urls: seq<string>, n: nat, linkOf: string -> Result<Option<string>>)
    requires n <= |urls| && LinksUpTo(urls, n, linkOf).Ok?
    ensures var links, idx := LinksUpTo(urls, n, linkOf).value, AddingIndices(urls, n, linkOf);
            && |links| == |idx| <= n
            && (forall k :: 0 <= k < |idx| ==> idx[k] < n && linkOf(urls[idx[k]]) == Ok(Some(links[k])))
            && (forall k, l :: 0 <= k < l < |idx| ==> idx[k] < idx[l])
            && (forall i :: 0 <= i < n && linkOf(urls[i]).Ok? && linkOf(urls[i]).value.Some? ==> i in idx)
    decreases n
  {
    if n > 0 {
      LinksAreAddedEntries(urls, n - 1, linkOf);
    }
  }

  /** The collection fails exactly when some candidate fails, and then with the first failing candidate's error. */
  lemma {:induction false} LinksFailIff(urls: seq<string>, n: nat, linkOf: string -> Result<Option<string>>)
    requires n <= |urls|
    ensures LinksUpTo(urls, n, linkOf).Err? <==> exists i :: 0 <= i < n && linkOf(urls[i]).Err?
    ensures LinksUpTo(urls, n, linkOf).Err? ==>
              exists i :: 0 <= i < n && linkOf(urls[i]) == Err(LinksUpTo(urls, n, linkOf).error) &&
                          forall j :: 0 <= j < i ==> linkOf(urls[j]).Ok?
    decreases n
  {
    if n > 0 {
      LinksFailIff(urls, n - 1, linkOf);
    }
  }

  /** Only a master playlist adds an entry; any other candidate adds nothing and cannot fail. */
  lemma CandidateLinkSome(url: string, player: Player, fetch: string -> string)
    ensures !Contains(fetch(url), StreamInfTag) ==> CandidateLink(url, player, fetch) == Ok(None)
    ensures CandidateLink(url, player, fetch).Ok? && Contains(fetch(url), StreamInfTag) ==>
              CandidateLink(url, player, fetch).value.Some?
  {
  }

  /**
   * A title's list has one entry per candidate that is a master playlist, in
   * candidate order, and so is never longer than the candidate list; entry k
   * is the link of the k-th such candidate.
   */
  lemma LinksPerMasterCandidate(urls: seq<string>, player: Player, fetch: string -> string)
    requires LinksOf(urls, player, fetch).Ok?
    ensures var links, idx := LinksOf(urls, player, fetch).value, AddingIndices(urls, |urls|, LinkBy(player, fetch));
            && |links| == |idx| <= |urls|
            && (forall k :: 0 <= k < |idx| ==>
                  idx[k] < |urls| && Contains(fetch(urls[idx[k]]), StreamInfTag) &&
                  CandidateLink(urls[idx[k]], player, fetch) == Ok(Some(links[k])))
            && (forall k, l :: 0 <= k < l < |idx| ==> idx[k] < idx[l])
            && (forall i :: 0 <= i < |urls| && Contains(fetch(urls[i]), StreamInfTag) ==> i in idx)
  {
    var linkOf := LinkBy(player, fetch);
    LinksAreAddedEntries(urls, |urls|, linkOf);
    LinksFailIff(urls, |urls|, linkOf);
    var idx := AddingIndices(urls, |urls|, linkOf);
    forall k | 0 <= k < |idx| ensures Contains(fetch(urls[idx[k]]), StreamInfTag) {
      assert linkOf(urls[idx[k]]) == CandidateLink(urls[idx[k]], player, fetch);
      CandidateLinkSome(urls[idx[k]], player, fetch);
    }
    forall i | 0 <= i < |urls| && Contains(fetch(urls[i]), StreamInfTag) ensures i in idx {
      assert linkOf(urls[i]) == CandidateLink(urls[i], player, fetch);
      CandidateLinkSome(urls[i], player, fetch);
    }
  }

  /** The per-title function of one player and fetcher, as a value. */
  function TitleLinksBy(player: Player, fetch: string -> string): seq<string> -> Result<seq<string>> {
    urls => LinksOf(urls, player, fetch)
  }

  /** `title_to_best_m3u8` after the first `n` titles, one title's list at a time: the first failing title ends it. */
  function AllLinksUpTo(titles: Dict<seq<string>>, n: nat, linksOf: seq<string> -> Result<seq<string>>): Result<Dict<seq<string>>>
    requires n <= |titles|
  {
    if n == 0 then Ok([])
    else
      var prev := AllLinksUpTo(titles, n - 1, linksOf);
      var links := linksOf(titles[n - 1].1);
      if prev.Err? then prev
      else if links.Err? then Err(links.error)
      else Ok(Set(prev.value, titles[n - 1].0, links.value))
  }

  /** `get_title_to_download_links` on the whole input. */
  function AllLinksOf(titles: Dict<seq<string>>, player: Player, fetch: string -> string): Result<Dict<seq<string>>> {
    AllLinksUpTo(titles, |titles|, TitleLinksBy(player, fetch))
  }

  lemma {:induction false} AllLinksErrorSticks(titles: Dict<seq<string>>, n: nat, m: nat, linksOf: seq<string> -> Result<seq<string>>)
    requires n <= m <= |titles| && AllLinksUpTo(titles, n, linksOf).Err?
    ensures AllLinksUpTo(titles, m, linksOf) == AllLinksUpTo(titles, n, linksOf)
    decreases m
  {
    if m > n {
      AllLinksErrorSticks(titles, n, m - 1, linksOf);
    }
  }

  /** With distinct titles, the result has the input's titles in the input's order, each with its own list. */
  lemma {:induction false} AllLinksKeys(titles: Dict<seq<string>>, n: nat, linksOf: seq<string> -> Result<seq<string>>)
    requires n <= |titles| && DistinctKeys(titles) && AllLinksUpTo(titles, n, linksOf).Ok?
    ensures var r := AllLinksUpTo(titles, n, linksOf).value;
            && |r| == n
            && forall i :: 0 <= i < n ==> r[i].0 == titles[i].0 && linksOf(titles[i].1) == Ok(r[i].1)
    decreases n
  {
    if n > 0 {
      var prev := AllLinksUpTo(titles, n - 1, linksOf).value;
      AllLinksKeys(titles, n - 1, linksOf);
      var key := titles[n - 1].0;
      assert key !in Keys(prev);
      SetAppends(prev, key, linksOf(titles[n - 1].1).value);
    }
  }

  /** The assembly fails exactly when some title's list fails. */
  lemma {:induction false} AllLinksFailIff(titles: Dict<seq<string>>, n: nat, linksOf: seq<string> -> Result<seq<string>>)
    requires n <= |titles|
    ensures AllLinksUpTo(titles, n, linksOf).Err? <==> exists i :: 0 <= i < n && linksOf(titles[i].1).Err?
    decreases n
  {
    if n > 0 {
      AllLinksFailIff(titles, n - 1, linksOf);
    }
  }

  /** Every title keeps its place and gets the list of its own candidates; the call fails exactly when some title's list fails. */
  lemma AllLinksPerTitle(titles: Dict<seq<string>>, player: Player, fetch: string -> string)
    requires DistinctKeys(titles)
    ensures AllLinksOf(titles, player, fetch).Ok? ==>
              var r := AllLinksOf(titles, player, fetch).value;
              && Keys(r) == Keys(titles)
              && forall i :: 0 <= i < |titles| ==> LinksOf(titles[i].1, player, fetch) == Ok(r[i].1)
    ensures AllLinksOf(titles, player, fetch).Err? <==>
              exists i :: 0 <= i < |titles| && LinksOf(titles[i].1, player, fetch).Err?
  {
    var linksOf := TitleLinksBy(player, fetch);
    AllLinksFailIff(titles, |titles|, linksOf);
    if AllLinksOf(titles, player, fetch).Ok? {
      AllLinksKeys(titles, |titles|, linksOf);
      var r := AllLinksOf(titles, player, fetch).value;
      assert Keys(r) == Keys(titles);
    }
  }


  /** The body of the inner loop: one candidate URL. */
  method ResolveCandidate(url: string, player: Player, fetch: string -> string) returns (r: Result<Option<string>>)
    ensures r == CandidateLink(url, player, fetch)
  {
    var body := fetch(url);
    if !Contains(body, StreamInfTag) {
      return Ok(None);
    }
    var lines := SplitLines(body);
    var variants := ParseVariants(lines);
    if variants.Err? {
      return Err(variants.error);
    }
    var best := SelectMaxResolution(variants.value);
    if best.Err? {
      return Err(best.error);
    }
    var path := variants.value[best.value].1;
    var base := BaseOf(url, player);
    if base.None? {
      return Err(IndexError);
    }
    if player == Matterhorn {
      var variantBody := fetch(base.value + DropThree(path));
      var mp4 := Mp4Reference(variantBody);
      if mp4.None? {
        return Err(IndexError);
      }
      return Ok(Some(base.value + DropThree(mp4.value)));
    }
    return Ok(Some(base.value + path));
  }

  lemma LinksStep(urls: seq<string>, c: nat, linkOf: string -> Result<Option<string>>, chosen: seq<string>)
    requires c < |urls| && LinksUpTo(urls, c, linkOf) == Ok(chosen)
    ensures var link := linkOf(urls[c]);
            LinksUpTo(urls, c + 1, linkOf) ==
            if link.Err? then Err(link.error) else if link.value.Some? then Ok(chosen + [link.value.value]) else Ok(chosen)
  {
  }

  /** The inner loop: the candidates of one title. */
  method ResolveTitle(urls: seq<string>, player: Player, fetch: string -> string) returns (r: Result<seq<string>>)
    ensures r == LinksOf(urls, player, fetch)
  {
    ghost var linkOf := LinkBy(player, fetch);
    var chosen: seq<string> := [];
    var c: nat := 0;
    while c < |urls|
      invariant c <= |urls| && LinksUpTo(urls, c, linkOf) == Ok(chosen)
    {
      var link := ResolveCandidate(urls[c], player, fetch);
      assert link == linkOf(urls[c]);
      LinksStep(urls, c, linkOf, chosen);
      if link.Err? {
        LinksErrorSticks(urls, c + 1, |urls|, linkOf);
        return Err(link.error);
      }
      if link.value.Some? {
        chosen := chosen + [link.value.value];
      }
      c := c + 1;
    }
    return Ok(chosen);
  }

  lemma AllLinksStep(titles: Dict<seq<string>>, t: nat, linksOf: seq<string> -> Result<seq<string>>, result: Dict<seq<string>>)
    requires t < |titles| && AllLinksUpTo(titles, t, linksOf) == Ok(result)
    ensures var links := linksOf(titles[t].1);
            AllLinksUpTo(titles, t + 1, linksOf) ==
            if links.Err? then Err(links.error) else Ok(Set(result, titles[t].0, links.value))
  {
  }

  /** `get_title_to_download_links`: the outer loop over titles. */
  method TitleToDownloadLinks(titles: Dict<seq<string>>, player: Player, fetch: string -> string)
    returns (r: Result<Dict<seq<string>>>)
    ensures r == AllLinksOf(titles, player, fetch)
  {
    ghost var linksOf := TitleLinksBy(player, fetch);
    var result: Dict<seq<string>> := [];
    var t: nat := 0;
    while t < |titles|
      invariant t <= |titles| && AllLinksUpTo(titles, t, linksOf) == Ok(result)
    {
      var links := ResolveTitle(titles[t].1, player, fetch);
      assert links == linksOf(titles[t].1);
      AllLinksStep(titles, t, linksOf, result);
      if links.Err? {
        AllLinksErrorSticks(titles, t + 1, |titles|, linksOf);
        return Err(links.error);
      }
      result := Set(result, titles[t].0, links.value);
      t := t + 1;
    }
    return Ok(result);
  }

  // ---------------------------------------------------------------------------
  // the panopto segment list (`download_lecture`)
  // ---------------------------------------------------------------------------

  /** `url.replace('index.m3u8', line)` for every line ending in `.ts`, in order. */
  function SegmentsOf(url: string, lines: seq<string>): seq<string>
    decreases |lines|
  {
    if |lines| == 0 then []
    else
      var last := lines[|lines| - 1];
      SegmentsOf(url, lines[..|lines| - 1]) + (if EndsWith(last, ".ts") then [Replace(url, "index.m3u8", last)] else [])
  }

  /** The segment list of two pieces of a playlist is the concatenation of theirs: it is computed line by line. */
  lemma {:induction false} SegmentsOfConcat(url: string, a: seq<string>, b: seq<string>)
    ensures SegmentsOf(url, a + b) == SegmentsOf(url, a) + SegmentsOf(url, b)
    decreases |b|
  {
    if |b| == 0 {
      assert a + b == a;
    } else {
      var n := |b| - 1;
      assert (a + b)[..|a + b| - 1] == a + b[..n];
      SegmentsOfConcat(url, a, b[..n]);
    }
  }

  /** One line: a `.ts` line gives the URL with `index.m3u8` replaced by the line, any other line nothing. */
  lemma SegmentsOfLine(url: string, line: string)
    ensures SegmentsOf(url, [line]) == if EndsWith(line, ".ts") then [Replace(url, "index.m3u8", line)] else []
  {
    assert [line][..0] == [];
  }

  /** The segment list is never longer than the playlist, and every segment URL is the URL with the line spliced in. */
  lemma {:induction false} SegmentsAreSplicedUrls(url: string, lines: seq<string>)
    ensures |SegmentsOf(url, lines)| <= |lines|
    ensures forall k :: 0 <= k < |SegmentsOf(url, lines)| ==>
              exists j :: 0 <= j < |lines| && EndsWith(lines[j], ".ts") &&
                          SegmentsOf(url, lines)[k] == Join(Split(url, "index.m3u8"), lines[j])
    decreases |lines|
  {
    if |lines| > 0 {
      var n := |lines| - 1;
      var init := lines[..n];
      SegmentsAreSplicedUrls(url, init);
      var seg := SegmentsOf(url, lines);
      var before := SegmentsOf(url, init);
      assert seg == before + (if EndsWith(lines[n], ".ts") then [Replace(url, "index.m3u8", lines[n])] else []);
      forall k | 0 <= k < |seg|
        ensures exists j :: 0 <= j < |lines| && EndsWith(lines[j], ".ts") &&
                            seg[k] == Join(Split(url, "index.m3u8"), lines[j])
      {
        if k < |before| {
          assert seg[k] == before[k];
          var j :| 0 <= j < |init| && EndsWith(init[j], ".ts") &&
                   SegmentsOf(url, init)[k] == Join(Split(url, "index.m3u8"), init[j]);
          assert lines[j] == init[j];
        } else {
          assert EndsWith(lines[n], ".ts") && seg[k] == Replace(url, "index.m3u8", lines[n]);
          ReplaceIsJoinOfSplit(url, "index.m3u8", lines[n]);
        }
      }
    }
  }

  /** The `ts_list` loop over `m3u8_content.splitlines()`. */
  method SegmentList(url: string, body: string) returns (segments: seq<string>)
    ensures segments == SegmentsOf(url, SplitLines(body))
  {
    var lines := SplitLines(body);
    segments := [];
    var i := 0;
    while i < |lines|
      invariant 0 <= i <= |lines|
      invariant segments == SegmentsOf(url, lines[..i])
    {
      assert lines[..i + 1][..i] == lines[..i];
      if EndsWith(lines[i], ".ts") {
        segments := segments + [Replace(url, "index.m3u8", lines[i])];
      }
      i := i + 1;
    }
    assert lines[..i] == lines;
  }
}
