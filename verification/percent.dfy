/** `parsePercent`: a number, null, or the value of the first decimal numeral
    found in the text of a value. */
module Percent {
  import opened Text
  import opened JsonValue

  /** What `parsePercent` returns: `null`, a number, or `NaN` (only when it is
      handed `NaN` itself). */
  datatype Parsed = PNull | PNum(v: real) | PNaN

  /** End of the run of digits that starts at `i`. */
  function DigitRunEnd(s: string, i: nat): (e: nat)
    requires i <= |s|
    ensures i <= e <= |s|
    ensures forall k :: i <= k < e ==> IsDigit(s[k])
    ensures e < |s| ==> !IsDigit(s[e])
    decreases |s| - i
  {
    if i < |s| && IsDigit(s[i]) then DigitRunEnd(s, i + 1) else i
  }

  /** Index of the first digit at or after `i`, if any. */
  function FirstDigit(s: string, i: nat): (r: Option<nat>)
    requires i <= |s|
    ensures r.Some? ==> i <= r.value < |s| && IsDigit(s[r.value])
    ensures r.Some? ==> forall k :: i <= k < r.value ==> !IsDigit(s[k])
    ensures r.None? <==> forall k :: i <= k < |s| ==> !IsDigit(s[k])
    decreases |s| - i
  {
    if i == |s| then None
    else if IsDigit(s[i]) then Some(i)
    else FirstDigit(s, i + 1)
  }

  /** Value of the longest match of `[0-9]+(\.[0-9]+)?` that starts at `i`:
      the digits, then a point and digits only when a digit follows the
      point. */
  function NumeralValue(s: string, i: nat): (v: real)
    requires i < |s| && IsDigit(s[i])
    ensures v >= 0.0
  {
    var d := DigitRunEnd(s, i);
    if d + 1 < |s| && s[d] == '.' && IsDigit(s[d + 1]) then
      var e := DigitRunEnd(s, d + 1);
      DecimalValue(s[i..d], s[d + 1..e])
    else
      DecimalValue(s[i..d], [])
  }

  /** `str.match(/([0-9]+(?:\.[0-9]+)?)/)` followed by `parseFloat` of the
      match: the leftmost numeral, or null when the text has no digit. */
  function ParseText(s: string): (r: Parsed)
    ensures r != PNaN
    ensures r == PNull <==> forall k :: 0 <= k < |s| ==> !IsDigit(s[k])
    ensures r.PNum? ==> r.v >= 0.0
  {
    match FirstDigit(s, 0)
    case None => PNull
    case Some(i) => PNum(NumeralValue(s, i))
  }

  /** `parsePercent(value)`. */
  function ParsePercent(j: Json): (r: Parsed)
    ensures Nullish(j) ==> r == PNull
    ensures j.JNum? ==> r == PNum(j.n)
    ensures j.JNaN? ==> r == PNaN
    ensures !Nullish(j) && !j.JNum? && !j.JNaN? ==> r == ParseText(Trim(ToStr(j)))
  {
    match j
    case JUndef => PNull
    case JNull => PNull
    case JNum(n) => PNum(n)
    case JNaN => PNaN
    case _ => ParseText(Trim(ToStr(j)))
  }

  /** The value of a numeral whose digits end at `d` with no fraction. */
  lemma NumeralInteger(s: string, i: nat, d: nat)
    requires i < d <= |s| && DigitRunEnd(s, i) == d
    requires d + 1 < |s| && s[d] == '.' ==> !IsDigit(s[d + 1])
    ensures NumeralValue(s, i) == DecimalValue(s[i..d], [])
  {
  }

  /** The value of a numeral with digits up to the point `d` and a fraction
      up to `e`. */
  lemma NumeralFraction(s: string, i: nat, d: nat, e: nat)
    requires i < d && d + 1 < |s| && s[d] == '.' && IsDigit(s[d + 1])
    requires DigitRunEnd(s, i) == d && DigitRunEnd(s, d + 1) == e
    ensures NumeralValue(s, i) == DecimalValue(s[i..d], s[d + 1..e])
  {
  }

  lemma {:induction false} DigitRunEndAt(s: string, i: nat, j: nat)
    requires i <= j <= |s|
    requires forall k :: i <= k < j ==> IsDigit(s[k])
    requires j == |s| || !IsDigit(s[j])
    ensures DigitRunEnd(s, i) == j
    decreases j - i
  {
    if i < j {
      DigitRunEndAt(s, i + 1, j);
    }
  }

  lemma {:induction false} FirstDigitAt(s: string, i: nat, j: nat)
    requires i <= j < |s| && IsDigit(s[j])
    requires forall k :: i <= k < j ==> !IsDigit(s[k])
    ensures FirstDigit(s, i) == Some(j)
    decreases j - i
  {
    if i < j {
      FirstDigitAt(s, i + 1, j);
    }
  }

  predicate AllDigits(d: string) { forall k :: 0 <= k < |d| ==> IsDigit(d[k]) }

  predicate NoDigit(p: string) { forall k :: 0 <= k < |p| ==> !IsDigit(p[k]) }

  /** When the first digit of `s` is at `i`, its run of digits ends at `e`,
      and no point followed by a digit comes next, `s` parses to the value of
      the run. */
  lemma IntegerAt(s: string, i: nat, e: nat)
    requires i < e <= |s|
    requires forall k :: 0 <= k < i ==> !IsDigit(s[k])
    requires forall k :: i <= k < e ==> IsDigit(s[k])
    requires e < |s| ==> !IsDigit(s[e])
    requires e + 1 < |s| && s[e] == '.' ==> !IsDigit(s[e + 1])
    ensures ParseText(s) == PNum(DigitsValue(s[i..e]) as real)
  {
    FirstDigitAt(s, 0, i);
    DigitRunEndAt(s, i, e);
  }

  /** When the first digit of `s` is at `i`, its run of digits ends at the
      point `dot`, and a second run of digits follows up to `e`, `s` parses
      to the value of the numeral `s[i..e]`. */
  lemma FractionAt(s: string, i: nat, dot: nat, e: nat)
    requires i < dot && dot + 1 < e <= |s| && s[dot] == '.'
    requires forall k :: 0 <= k < i ==> !IsDigit(s[k])
    requires forall k :: i <= k < dot ==> IsDigit(s[k])
    requires forall k :: dot < k < e ==> IsDigit(s[k])
    requires e < |s| ==> !IsDigit(s[e])
    ensures ParseText(s) == PNum(DecimalValue(s[i..dot], s[dot + 1..e]))
  {
    FirstDigitAt(s, 0, i);
    DigitRunEndAt(s, i, dot);
    DigitRunEndAt(s, dot + 1, e);
  }

  /** A text made of digit-free prefix `p`, integer numeral `d` and a rest
      that continues the numeral neither with a digit nor with a point and a
      digit parses to the value of `d`. */
  lemma IntegerNumeral(p: string, d: string, rest: string)
    requires NoDigit(p) && |d| > 0 && AllDigits(d)
    requires rest == [] || !IsDigit(rest[0])
    requires |rest| >= 2 && rest[0] == '.' ==> !IsDigit(rest[1])
    ensures ParseText(p + d + rest) == PNum(DigitsValue(d) as real)
  {
    var s := p + d + rest;
    var i, e := |p|, |p| + |d|;
    assert s[..i] == p && s[i..e] == d && s[e..] == rest;
    IntegerAt(s, i, e);
  }

  /** A text made of digit-free prefix `p`, numeral `d.f` and a rest that does
      not start with a digit parses to the value of `d.f`. */
  lemma FractionalNumeral(p: string, d: string, f: string, rest: string)
    requires NoDigit(p) && |d| > 0 && AllDigits(d) && |f| > 0 && AllDigits(f)
    requires rest == [] || !IsDigit(rest[0])
    ensures ParseText(p + d + "." + f + rest) == PNum(DecimalValue(d, f))
  {
    var s := p + d + "." + f + rest;
    var i, dot := |p|, |p| + |d|;
    var e := dot + 1 + |f|;
    assert s[..i] == p && s[i..dot] == d && s[dot] == '.' && s[dot + 1..e] == f && s[e..] == rest;
    FractionAt(s, i, dot, e);
  }

  /** A text of `d` digits, alone or followed by a point, parses to the
      value of the digits. */
  lemma IntegerText(c: string, d: nat)
    requires 0 < d && (|c| == d || (|c| == d + 1 && c[d] == '.'))
    requires forall k :: 0 <= k < d ==> IsDigit(c[k])
    ensures ParsePercent(JStr(c)) == PNum(DecimalValue(c[..d], []))
  {
    TrimPlain(c);
    IntegerAt(c, 0, d);
    assert c[0..d] == c[..d];
    WholeValue(c[..d]);
  }

  /** A text that is digits, a point and digits parses to its own value. */
  lemma PointNumeralText(c: string, d: nat)
    requires 0 < d && d + 1 < |c| && c[d] == '.'
    requires forall k :: 0 <= k < |c| && k != d ==> IsDigit(c[k])
    ensures ParsePercent(JStr(c)) == PNum(DecimalValue(c[..d], c[d + 1..]))
  {
    TrimPlain(c);
    FractionAt(c, 0, d, |c|);
    assert c[0..d] == c[..d] && c[d + 1..|c|] == c[d + 1..];
  }

  /** A minus sign is not part of the numeral: "-5" reads as 5. */
  lemma MinusSignIgnored()
    ensures ParsePercent(JStr("-5")) == PNum(5.0)
  {
    var s := "-5";
    TrimPlain(s);
    IntegerAt(s, 1, 2);
    assert s[1..2] == "5";
  }

  /** "37.5%" reads as 37.5. */
  lemma PercentText()
    ensures ParsePercent(JStr("37.5%")) == PNum(37.5)
  {
    var s := "37.5%";
    TrimPlain(s);
    FractionAt(s, 0, 2, 4);
    assert s[0..2] == "37" && s[3..4] == "5";
    ThirtySevenAndAHalf();
  }

  lemma ThirtySevenAndAHalf()
    ensures DecimalValue("37", "5") == 37.5
  {
    assert "37"[..1] == "3";
    assert DigitsValue("37") == 37;
  }

  /** "n/a" has no digit and reads as null. */
  lemma NoDigitText()
    ensures ParsePercent(JStr("n/a")) == PNull
  {
  }
}
