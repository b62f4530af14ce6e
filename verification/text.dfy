/** Character classes and string helpers shared by every scanner of the model.
    Case mapping is ASCII-only (see README, "Left out"). */
module Text {

  predicate IsDigit(c: char) { '0' <= c <= '9' }

  /** The characters of the regular-expression class `\s`, which are also the
      characters `String.prototype.trim` removes. */
  predicate IsSpace(c: char)
  {
    c == ' ' || c == '\t' || c == '\n' || c == '\r' || c == '\U{000B}' || c == '\U{000C}'
    || c == '\U{00A0}' || c == '\U{1680}' || ('\U{2000}' <= c <= '\U{200A}')
    || c == '\U{2028}' || c == '\U{2029}' || c == '\U{202F}' || c == '\U{205F}'
    || c == '\U{3000}' || c == '\U{FEFF}'
  }

  function Lower(c: char): char { if 'A' <= c <= 'Z' then (c as int + 32) as char else c }

  function Upper(c: char): char { if 'a' <= c <= 'z' then (c as int - 32) as char else c }

  function LowerStr(s: string): (r: string)
    ensures |r| == |s| && forall i :: 0 <= i < |s| ==> r[i] == Lower(s[i])
  {
    seq(|s|, i requires 0 <= i < |s| => Lower(s[i]))
  }

  function UpperStr(s: string): (r: string)
    ensures |r| == |s| && forall i :: 0 <= i < |s| ==> r[i] == Upper(s[i])
  {
    seq(|s|, i requires 0 <= i < |s| => Upper(s[i]))
  }

  /** `s.replace(/_/g, '-')` */
  function UnderscoreToHyphen(s: string): (r: string)
    ensures |r| == |s|
    ensures forall i :: 0 <= i < |s| ==> r[i] == (if s[i] == '_' then '-' else s[i])
  {
    seq(|s|, i requires 0 <= i < |s| => if s[i] == '_' then '-' else s[i])
  }

  /** Index of the first character at or after `i` that is not white space. */
  function SkipSpaces(s: string, i: nat): (j: nat)
    requires i <= |s|
    ensures i <= j <= |s|
    ensures forall k :: i <= k < j ==> IsSpace(s[k])
    ensures j < |s| ==> !IsSpace(s[j])
    decreases |s| - i
  {
    if i == |s| || !IsSpace(s[i]) then i else SkipSpaces(s, i + 1)
  }

  /** The end of the run of white space that finishes at `j`, read backwards. */
  function TrimEnd(s: string, j: nat): (e: nat)
    requires j <= |s|
    ensures e <= j
    ensures forall k :: e <= k < j ==> IsSpace(s[k])
    ensures e > 0 ==> !IsSpace(s[e - 1])
  {
    if j == 0 || !IsSpace(s[j - 1]) then j else TrimEnd(s, j - 1)
  }

  /** `String.prototype.trim` */
  function Trim(s: string): (r: string)
    ensures |r| <= |s|
    ensures r == [] || (!IsSpace(r[0]) && !IsSpace(r[|r| - 1]))
    ensures (forall k :: 0 <= k < |s| ==> IsSpace(s[k])) <==> r == []
  {
    var b := SkipSpaces(s, 0);
    var e := TrimEnd(s, |s|);
    if b < e then s[b..e] else []
  }

  /** A text with no white space at either end is its own trim. */
  lemma TrimPlain(s: string)
    requires |s| > 0 && !IsSpace(s[0]) && !IsSpace(s[|s| - 1])
    ensures Trim(s) == s
  {
    assert SkipSpaces(s, 0) == 0;
    assert TrimEnd(s, |s|) == |s|;
  }

  /** `s.includes(k)` */
  predicate Contains(s: string, k: string)
  {
    exists i {:trigger s[i..]} :: 0 <= i <= |s| - |k| && s[i..][..|k|] == k
  }

  predicate StartsWith(s: string, p: string)
  {
    |p| <= |s| && s[..|p|] == p
  }

  lemma ContainsAt(s: string, k: string, i: nat)
    requires i + |k| <= |s| && s[i..i + |k|] == k
    ensures Contains(s, k)
  {
    assert s[i..][..|k|] == s[i..i + |k|];
  }

  /** A string cannot contain `k` when one of the characters of `k` does not
      occur in it. */
  lemma NotContainsByChar(s: string, k: string, c: char)
    requires c in k && c !in s
    ensures !Contains(s, k)
  {
    var j :| 0 <= j < |k| && k[j] == c;
    forall i | 0 <= i <= |s| - |k| ensures s[i..][..|k|] != k {
      assert s[i..][..|k|][j] == s[i + j];
    }
  }

  /** A string shorter than `k` cannot contain it. */
  lemma NotContainsShort(s: string, k: string)
    requires |s| < |k|
    ensures !Contains(s, k)
  {
  }

  /** Whatever contains a string contains every substring of it. */
  lemma ContainsTransitive(s: string, k: string, sub: string, j: nat)
    requires Contains(s, k)
    requires j + |sub| <= |k| && k[j..j + |sub|] == sub
    ensures Contains(s, sub)
  {
    var i :| 0 <= i <= |s| - |k| && s[i..][..|k|] == k;
    assert s[i + j..i + j + |sub|] == sub by {
      forall t | 0 <= t < |sub| ensures s[i + j + t] == sub[t] {
        assert s[i..][..|k|][j + t] == k[j + t];
      }
    }
    ContainsAt(s, sub, i + j);
  }

  /** The value of a non-empty run of decimal digits. */
  function DigitsValue(d: string): (v: nat)
    requires forall k :: 0 <= k < |d| ==> IsDigit(d[k])
  {
    if d == [] then 0
    else
      assert IsDigit(d[|d| - 1]);
      10 * DigitsValue(d[..|d| - 1]) + (d[|d| - 1] as int - '0' as int)
  }

  function Pow10(n: nat): (p: nat)
    ensures p >= 1
  {
    if n == 0 then 1 else 10 * Pow10(n - 1)
  }

  /** The value of the decimal numeral `whole` `.` `frac` (an empty `frac` means
      an integer numeral). */
  function DecimalValue(whole: string, frac: string): (v: real)
    requires forall k :: 0 <= k < |whole| ==> IsDigit(whole[k])
    requires forall k :: 0 <= k < |frac| ==> IsDigit(frac[k])
    ensures v >= 0.0
  {
    var p := Pow10(|frac|) as real;
    var q := DigitsValue(frac) as real / p;
    assert q * p == DigitsValue(frac) as real;
    DigitsValue(whole) as real + q
  }

  /** A numeral without a fraction is worth its digits. */
  lemma WholeValue(whole: string)
    requires forall k :: 0 <= k < |whole| ==> IsDigit(whole[k])
    ensures DecimalValue(whole, []) == DigitsValue(whole) as real
  {
    assert DigitsValue([]) == 0 && Pow10(0) == 1;
  }

  /** Decimal digits of a natural number. */
  function NatText(n: nat): (s: string)
    ensures |s| > 0 && forall k :: 0 <= k < |s| ==> IsDigit(s[k])
  {
    if n < 10 then [('0' as int + n) as char]
    else NatText(n / 10) + [('0' as int + n % 10) as char]
  }

  lemma {:induction false} NatTextValue(n: nat)
    ensures DigitsValue(NatText(n)) == n
  {
    if n >= 10 {
      NatTextValue(n / 10);
      var s := NatText(n);
      assert s[..|s| - 1] == NatText(n / 10);
    }
  }

  /** At most `n` digits of the fraction `f` in [0, 1). */
  function FractionText(f: real, n: nat): (s: string)
    requires 0.0 <= f < 1.0
    ensures forall k :: 0 <= k < |s| ==> IsDigit(s[k])
    decreases n
  {
    if n == 0 || f == 0.0 then []
    else
      var d := (f * 10.0).Floor;
      [('0' as int + d) as char] + FractionText(f * 10.0 - d as real, n - 1)
  }

  /** The decimal text JavaScript's `String(x)` gives for a number. Exact for
      integers and for fractions with at most 20 decimals; exponent notation
      is not modelled. */
  function NumberText(x: real): string
  {
    var a := if x < 0.0 then -x else x;
    var whole := a.Floor;
    var digits := NatText(whole) + (if a == whole as real then [] else "." + FractionText(a - whole as real, 20));
    if x < 0.0 then "-" + digits else digits
  }
}
