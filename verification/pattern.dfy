/** The pieces the text patterns of the detail page are built from: the
    case-insensitive literal, the `[\s:]` run, the percentage numeral, and
    the single-position matchers of the synonym, cannabinoid and Total
    Terpenes patterns. */
module Pattern {
  import opened Text
  import opened JsonValue
  import opened Percent

  /** The literal `lit` occurs at index `i` of `s` under the `i` flag. The
      patterns are ASCII, and a non-ASCII character never folds onto an
      ASCII one in a non-Unicode pattern, so ASCII folding is exact here. */
  predicate LiteralAt(s: string, i: nat, lit: string)
  {
    i + |lit| <= |s| && forall k :: 0 <= k < |lit| ==> Lower(s[i + k]) == Lower(lit[k])
  }

  /** The class `[\s:]` (the terpene pattern's `[\n\r\t\s:]` is the same
      class). */
  predicate IsColonOrSpace(c: char) { c == ':' || IsSpace(c) }

  /** End of the run of `[\s:]` that starts at `i`. */
  function SkipColonSpaces(s: string, i: nat): (j: nat)
    requires i <= |s|
    ensures i <= j <= |s|
    ensures forall k :: i <= k < j ==> IsColonOrSpace(s[k])
    ensures j < |s| ==> !IsColonOrSpace(s[j])
    decreases |s| - i
  {
    if i < |s| && IsColonOrSpace(s[i]) then SkipColonSpaces(s, i + 1) else i
  }

  /** `([0-9]+(?:\.[0-9]+)?)%` tried at `j`: the end of the match, just past
      the `%`. The digit runs are greedy and backtracking cannot help, since
      giving back a digit leaves a digit where `.` or `%` is needed. */
  function PercentNumeralEnd(s: string, j: nat): (r: Option<nat>)
    requires j <= |s|
    ensures r.Some? ==> j < r.value <= |s| && IsDigit(s[j])
  {
    if j < |s| && IsDigit(s[j]) then
      var e := DigitRunEnd(s, j);
      if e < |s| && s[e] == '%' then Some(e + 1)
      else if e + 1 < |s| && s[e] == '.' && IsDigit(s[e + 1]) then
        var f := DigitRunEnd(s, e + 1);
        if f < |s| && s[f] == '%' then Some(f + 1) else None
      else None
    else None
  }

  /** `s[j..end]` spells `[0-9]+(\.[0-9]+)?%`. */
  ghost predicate PercentNumeralSpan(s: string, j: nat, end: nat)
  {
    j + 1 < end <= |s| && s[end - 1] == '%'
    && ((forall k :: j <= k < end - 1 ==> IsDigit(s[k]))
        || exists dot :: j < dot < end - 2 && s[dot] == '.'
             && (forall k :: j <= k < dot ==> IsDigit(s[k]))
             && (forall k :: dot < k < end - 1 ==> IsDigit(s[k])))
  }

  /** The match found is exactly a span of the pattern, and every span is
      found: the pattern has at most one match starting at `j`. */
  lemma PercentNumeralEndIff(s: string, j: nat, end: nat)
    requires j <= |s|
    ensures PercentNumeralEnd(s, j) == Some(end) <==> PercentNumeralSpan(s, j, end)
  {
    if PercentNumeralSpan(s, j, end) {
      if forall k :: j <= k < end - 1 ==> IsDigit(s[k]) {
        IntegerSpanFound(s, j, end);
      } else {
        var dot :| j < dot < end - 2 && s[dot] == '.'
          && (forall k :: j <= k < dot ==> IsDigit(s[k]))
          && (forall k :: dot < k < end - 1 ==> IsDigit(s[k]));
        PointSpanFound(s, j, dot, end);
      }
    }
    if PercentNumeralEnd(s, j) == Some(end) {
      FoundIsSpan(s, j, end);
    }
  }

  lemma IntegerSpanFound(s: string, j: nat, end: nat)
    requires j + 1 < end <= |s| && s[end - 1] == '%'
    requires forall k :: j <= k < end - 1 ==> IsDigit(s[k])
    ensures PercentNumeralEnd(s, j) == Some(end)
  {
    DigitRunEndAt(s, j, end - 1);
  }

  lemma PointSpanFound(s: string, j: nat, dot: nat, end: nat)
    requires j < dot < end - 2 && end <= |s| && s[dot] == '.' && s[end - 1] == '%'
    requires forall k :: j <= k < dot ==> IsDigit(s[k])
    requires forall k :: dot < k < end - 1 ==> IsDigit(s[k])
    ensures PercentNumeralEnd(s, j) == Some(end)
  {
    DigitRunEndAt(s, j, dot);
    DigitRunEndAt(s, dot + 1, end - 1);
  }

  lemma FoundIsSpan(s: string, j: nat, end: nat)
    requires j <= |s| && PercentNumeralEnd(s, j) == Some(end)
    ensures PercentNumeralSpan(s, j, end)
  {
    var e := DigitRunEnd(s, j);
    if !(e < |s| && s[e] == '%') {
      var f := DigitRunEnd(s, e + 1);
      assert f + 1 == end;
      assert j < e < end - 2 && s[e] == '.'
        && (forall k :: j <= k < e ==> IsDigit(s[k]))
        && (forall k :: e < k < end - 1 ==> IsDigit(s[k]));
    }
  }

  /** Alternative `syn` tried at `i`, followed by `[\s:]*` and a percentage:
      the end of the whole match. */
  function SynonymMatchEnd(s: string, i: nat, syn: string): Option<nat>
    requires i <= |s|
  {
    if LiteralAt(s, i, syn) then PercentNumeralEnd(s, SkipColonSpaces(s, i + |syn|)) else None
  }

  /** `s[i..end]` spells `syn[\s:]*[0-9]+(\.[0-9]+)?%`, ignoring case. */
  ghost predicate SynonymSpan(s: string, i: nat, syn: string, end: nat)
  {
    LiteralAt(s, i, syn)
    && exists q :: i + |syn| <= q <= |s| && (forall k :: i + |syn| <= k < q ==> IsColonOrSpace(s[k]))
         && PercentNumeralSpan(s, q, end)
  }

  lemma SynonymMatchEndIff(s: string, i: nat, syn: string, end: nat)
    requires i <= |s|
    ensures SynonymMatchEnd(s, i, syn) == Some(end) <==> SynonymSpan(s, i, syn, end)
  {
    if LiteralAt(s, i, syn) {
      var q0 := SkipColonSpaces(s, i + |syn|);
      PercentNumeralEndIff(s, q0, end);
      if SynonymSpan(s, i, syn, end) {
        var q :| i + |syn| <= q <= |s| && (forall k :: i + |syn| <= k < q ==> IsColonOrSpace(s[k]))
          && PercentNumeralSpan(s, q, end);
        assert IsDigit(s[q]);
        assert q == q0;
      }
    }
  }

  /** Index of the first `Some` of `xs` at or after `from`: the leftmost
      search every pattern below runs. */
  function FirstSome<X>(xs: seq<Option<X>>, from: nat): (r: Option<nat>)
    requires from <= |xs|
    ensures r.Some? ==> from <= r.value < |xs| && xs[r.value].Some?
    ensures r.Some? ==> forall i :: from <= i < r.value ==> xs[i].None?
    ensures r.None? <==> forall i :: from <= i < |xs| ==> xs[i].None?
    decreases |xs| - from
  {
    if from == |xs| then None
    else if xs[from].Some? then Some(from)
    else FirstSome(xs, from + 1)
  }

  /** The first value `f(i)` holds for `from <= i < end`: the leftmost match
      of a pattern that `f` tries at each index. */
  function FirstFound<X>(f: nat -> Option<X>, end: nat, from: nat): Option<X>
    requires from <= end
    decreases end - from
  {
    if from == end then None
    else match f(from)
      case Some(v) => Some(v)
      case None => FirstFound(f, end, from + 1)
  }

  /** The value found is that of the first index where `f` holds one, and
      none is found exactly when `f` holds none. */
  lemma {:induction false} FirstFoundLeftmost<X>(f: nat -> Option<X>, end: nat, from: nat)
    requires from <= end
    ensures var r := FirstFound(f, end, from);
      r.Some? ==> exists i :: from <= i < end && f(i) == r && forall k :: from <= k < i ==> f(k).None?
    ensures FirstFound(f, end, from).None? <==> forall i :: from <= i < end ==> f(i).None?
    decreases end - from
  {
    if from < end && f(from).None? {
      FirstFoundLeftmost(f, end, from + 1);
    }
  }

  /** `NAME[:\s]+(\d+\.?\d*)%` tried at `i` with the `i` flag: the captured
      text. The colon and space run is greedy and cannot end on a digit, so
      the capture starts where the run ends. */
  function CannabinoidAt(s: string, i: nat, name: string): (r: Option<string>)
    requires i <= |s|
    ensures r.Some? ==> LiteralAt(s, i, name) && SkipColonSpaces(s, i + |name|) > i + |name|
  {
    if !LiteralAt(s, i, name) then None
    else
      var q := i + |name|;
      var j := SkipColonSpaces(s, q);
      if j == q || j == |s| || !IsDigit(s[j]) then None
      else
        var e := DigitRunEnd(s, j);
        if e < |s| && s[e] == '%' then Some(s[j..e])
        else if e < |s| && s[e] == '.' then
          var f := DigitRunEnd(s, e + 1);
          if f < |s| && s[f] == '%' then Some(s[j..f]) else None
        else None
  }

  /** A captured figure reads back through `parsePercent` as the numeral
      that starts the capture. */
  lemma CaptureReadsBack(s: string, i: nat, name: string)
    requires i <= |s| && CannabinoidAt(s, i, name).Some?
    ensures var j := SkipColonSpaces(s, i + |name|);
      j < |s| && IsDigit(s[j]) && ParsePercent(JStr(CannabinoidAt(s, i, name).value)) == PNum(NumeralValue(s, j))
  {
    var j := SkipColonSpaces(s, i + |name|);
    assert j < |s| && IsDigit(s[j]);
    var e := DigitRunEnd(s, j);
    if e < |s| && s[e] == '%' {
      assert CannabinoidAt(s, i, name) == Some(s[j..e]);
      IntegerCapture(s, j, e);
    } else {
      assert e < |s| && s[e] == '.';
      var f := DigitRunEnd(s, e + 1);
      assert f < |s| && s[f] == '%';
      assert CannabinoidAt(s, i, name) == Some(s[j..f]);
      if f == e + 1 {
        PointCapture(s, j, e);
      } else {
        FractionCapture(s, j, e, f);
      }
    }
  }

  /** `5%`: the capture is the digits. */
  lemma IntegerCapture(s: string, j: nat, e: nat)
    requires j < e < |s| && s[e] == '%' && forall k :: j <= k < e ==> IsDigit(s[k])
    ensures ParsePercent(JStr(s[j..e])) == PNum(NumeralValue(s, j))
  {
    IntegerCaptureText(s, j, e);
    DigitRunEndAt(s, j, e);
    NumeralInteger(s, j, e);
  }

  lemma IntegerCaptureText(s: string, j: nat, e: nat)
    requires j < e <= |s| && forall k :: j <= k < e ==> IsDigit(s[k])
    ensures ParsePercent(JStr(s[j..e])) == PNum(DecimalValue(s[j..e], []))
  {
    var c := s[j..e];
    assert c[..e - j] == c;
    IntegerText(c, e - j);
  }

  /** `5.%`: the capture ends with the point, which the numeral leaves out. */
  lemma PointCapture(s: string, j: nat, e: nat)
    requires j < e && e + 1 < |s| && s[e] == '.' && s[e + 1] == '%'
    requires forall k :: j <= k < e ==> IsDigit(s[k])
    ensures ParsePercent(JStr(s[j..e + 1])) == PNum(NumeralValue(s, j))
  {
    PointCaptureText(s, j, e);
    DigitRunEndAt(s, j, e);
    NumeralInteger(s, j, e);
  }

  lemma PointCaptureText(s: string, j: nat, e: nat)
    requires j < e < |s| && s[e] == '.'
    requires forall k :: j <= k < e ==> IsDigit(s[k])
    ensures ParsePercent(JStr(s[j..e + 1])) == PNum(DecimalValue(s[j..e], []))
  {
    var c := s[j..e + 1];
    assert c[..e - j] == s[j..e];
    IntegerText(c, e - j);
  }

  /** `5.25%`: the capture is the whole numeral. */
  lemma FractionCapture(s: string, j: nat, e: nat, f: nat)
    requires j < e && e + 1 < f < |s| && s[e] == '.' && s[f] == '%'
    requires forall k :: j <= k < e ==> IsDigit(s[k])
    requires forall k :: e < k < f ==> IsDigit(s[k])
    ensures ParsePercent(JStr(s[j..f])) == PNum(NumeralValue(s, j))
  {
    FractionCaptureText(s, j, e, f);
    DigitRunEndAt(s, j, e);
    DigitRunEndAt(s, e + 1, f);
    NumeralFraction(s, j, e, f);
  }

  lemma FractionCaptureText(s: string, j: nat, e: nat, f: nat)
    requires j < e && e + 1 < f <= |s| && s[e] == '.'
    requires forall k :: j <= k < e ==> IsDigit(s[k])
    requires forall k :: e < k < f ==> IsDigit(s[k])
    ensures ParsePercent(JStr(s[j..f])) == PNum(DecimalValue(s[j..e], s[e + 1..f]))
  {
    var c := s[j..f];
    assert c[..e - j] == s[j..e] && c[e - j + 1..] == s[e + 1..f];
    PointNumeralText(c, e - j);
  }

  /** `/Total\s*Terpenes\s*:?[\s]*([0-9]+(?:\.[0-9]+)?)%/i` tried at `i`:
      `parseFloat` of the capture. Each space run is greedy and is followed
      by a letter, `:` or a digit, so its maximal end is the only one that
      can succeed. */
  function TotalAt(s: string, i: nat): (r: Option<real>)
    ensures r.Some? ==> LiteralAt(s, i, "total") && r.value >= 0.0
  {
    if !LiteralAt(s, i, "total") then None
    else
      var a := SkipSpaces(s, i + 5);
      if !LiteralAt(s, a, "terpenes") then None
      else
        var b := SkipSpaces(s, a + 8);
        var c := if b < |s| && s[b] == ':' then SkipSpaces(s, b + 1) else b;
        if PercentNumeralEnd(s, c).Some? then Some(NumeralValue(s, c)) else None
  }

  /** `text.match(re)` for the Total Terpenes pattern: the figure of the
      leftmost match. */
  function FirstTotal(s: string): Option<real>
  {
    FirstFound(TotalPattern(s), |s| + 1, 0)
  }

  /** The Total Terpenes pattern tried at each index of `s`. */
  function TotalPattern(s: string): (f: nat -> Option<real>)
    ensures forall i: nat :: f(i) == TotalAt(s, i)
  {
    (i: nat) => TotalAt(s, i)
  }

  /** The figure is that of the leftmost match, and there is none exactly
      when the pattern matches nowhere. */
  lemma FirstTotalLeftmost(s: string)
    ensures var r := FirstTotal(s);
      r.Some? ==> exists i :: 0 <= i <= |s| && TotalAt(s, i) == r && forall k :: 0 <= k < i ==> TotalAt(s, k).None?
    ensures FirstTotal(s).None? <==> forall i :: 0 <= i <= |s| ==> TotalAt(s, i).None?
  {
    FirstFoundLeftmost(TotalPattern(s), |s| + 1, 0);
  }
}
