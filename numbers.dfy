/**
 * Python's `float()` applied to text: optional surrounding white space, an optional sign,
 * a decimal mantissa with an optional exponent, or the word `nan` in any case.
 */
module Numbers {
  import opened Wrappers
  import opened Text

  /** A Python float: a finite value or NaN (which compares false with everything). */
  datatype Float = Num(value: real) | NaN

  /** `x > 0` on a Python float. */
  predicate IsPositive(x: Float)
  {
    x.Num? && x.value > 0.0
  }

  function Pow10(k: nat): (r: real)
    ensures r >= 1.0
  {
    if k == 0 then 1.0 else 10.0 * Pow10(k - 1)
  }

  predicate AllDigits(s: string)
  {
    forall i :: 0 <= i < |s| ==> IsDigit(s[i])
  }

  /** The value of a decimal numeral with whole part `w` and a `k`-digit fraction `f`. */
  function Decimal(w: nat, f: nat, k: nat): real
  {
    w as real + f as real / Pow10(k)
  }

  function ParseMantissa(s: string): Option<real>
  {
    var dot := FindFrom(s, ".", 0);
    if dot == -1 then
      if s != [] && AllDigits(s) then Some(DigitsValue(s) as real) else None
    else
      var whole, fraction := s[..dot], s[dot + 1..];
      if AllDigits(whole) && AllDigits(fraction) && |whole| + |fraction| > 0 then
        Some(Decimal(DigitsValue(whole), DigitsValue(fraction), |fraction|))
      else None
  }

  /** The exponent after `e`/`E`: an optional sign and at least one digit. */
  function ParseExponent(s: string): Option<int>
  {
    var negative := s != [] && s[0] == '-';
    var digits := if s != [] && (s[0] == '+' || s[0] == '-') then s[1..] else s;
    if digits != [] && AllDigits(digits) then
      Some(if negative then -(DigitsValue(digits) as int) else DigitsValue(digits) as int)
    else None
  }

  function ScaleBy10(m: real, e: int): real
  {
    if e >= 0 then m * Pow10(e) else m / Pow10(-e)
  }

  /** Index of the first `e` or `E`, or -1. */
  function ExponentMark(s: string): (r: int)
    ensures r == -1 || 0 <= r < |s|
    ensures r == -1 ==> forall i :: 0 <= i < |s| ==> s[i] != 'e' && s[i] != 'E'
  {
    if s == [] then -1
    else if s[0] == 'e' || s[0] == 'E' then 0
    else var k := ExponentMark(s[1..]); if k == -1 then -1 else k + 1
  }

  function ParseUnsigned(s: string): Option<real>
  {
    var e := ExponentMark(s);
    if e == -1 then ParseMantissa(s)
    else
      match (ParseMantissa(s[..e]), ParseExponent(s[e + 1..]))
      case (Some(m), Some(x)) => Some(ScaleBy10(m, x))
      case _ => None
  }

  /** `nan` in any mix of cases. */
  predicate IsNanWord(s: string)
  {
    |s| == 3 && LowerChar(s[0]) == 'n' && LowerChar(s[1]) == 'a' && LowerChar(s[2]) == 'n'
  }

  /** `float(s)` for a string `s`; `None` stands for the `ValueError` it raises. */
  function ParseFloat(s: string): Option<Float>
  {
    var t := Strip(s);
    var negative := t != [] && t[0] == '-';
    var body := if t != [] && (t[0] == '+' || t[0] == '-') then t[1..] else t;
    if IsNanWord(body) then Some(NaN)
    else
      match ParseUnsigned(body)
      case Some(v) => Some(Num(if negative then -v else v))
      case None => None
  }

  /** An amount of `c` hundredths written as a bank export writes it: `-12.34`. */
  function FormatCents(c: int): string
  {
    var m := if c < 0 then -c else c;
    (if c < 0 then "-" else "") + NatToString(m / 100) + "." + PadNat(m % 100, 2)
  }

  lemma StripUnchanged(s: string)
    requires s != [] && !IsSpace(s[0]) && !IsSpace(s[|s| - 1])
    ensures Strip(s) == s
  {
    assert StripLeft(s) == s;
    assert StripRight(s) == s;
  }

  lemma {:induction false} FindDotAfterDigits(d: string, rest: string)
    requires AllDigits(d)
    requires rest != [] && rest[0] == '.'
    ensures FindFrom(d + rest, ".", 0) == |d|
  {
    var s := d + rest;
    assert OccursAt(s, ".", |d|);
    forall k | 0 <= k < |d| ensures !OccursAt(s, ".", k) {
      assert s[k] == d[k];
    }
  }

  /** The amount a count of `c` hundredths stands for. */
  function CentsValue(c: int): real
  {
    c as real / 100.0
  }

  /** Parsing what `FormatCents` writes gives back the amount. */
  lemma ParseFormatCents(c: int)
    ensures ParseFloat(FormatCents(c)) == Some(Num(CentsValue(c)))
  {
    var m := if c < 0 then -c else c;
    ParseFormatCentsAs(c, m / 100, m % 100);
  }

  /** The same, with `|c|` already split into whole units `q` and hundredths `r`. */
  lemma ParseFormatCentsAs(c: int, q: nat, r: nat)
    requires r < 100 && (if c < 0 then -c else c) == 100 * q + r
    ensures ParseFloat(FormatCents(c)) == Some(Num(CentsValue(c)))
  {
    FormatCentsSplit(c, q, r);
    var body := NatToString(q) + "." + PadNat(r, 2);
    var v := Decimal(q, r, 2);
    FormatCentsBody(q, r);
    FormatCentsEnds(q, r);
    SignedCents(c, q, r, v);
    ParseSigned(FormatCents(c), c < 0, body, v);
  }

  lemma FormatCentsSplit(c: int, q: nat, r: nat)
    requires r < 100 && (if c < 0 then -c else c) == 100 * q + r
    ensures FormatCents(c) == (if c < 0 then "-" else "") + (NatToString(q) + "." + PadNat(r, 2))
  {
    var m := if c < 0 then -c else c;
    assert m / 100 == q && m % 100 == r;
  }

  lemma SignedCents(c: int, q: nat, r: nat, v: real)
    requires (if c < 0 then -c else c) == 100 * q + r
    requires v == Decimal(q, r, 2)
    ensures (if c < 0 then -v else v) == CentsValue(c)
  {
    assert Pow10(2) == 100.0;
  }

  lemma ParseSigned(s: string, negative: bool, body: string, v: real)
    requires s == (if negative then "-" else "") + body
    requires body != [] && IsDigit(body[0]) && IsDigit(body[|body| - 1])
    requires ParseUnsigned(body) == Some(v)
    ensures ParseFloat(s) == Some(Num(if negative then -v else v))
  {
    SignedStripUnchanged(s, negative, body);
    assert !IsNanWord(body) by { NotSpaceOrLetter(body[0]); }
    assert (if s[0] == '+' || s[0] == '-' then s[1..] else s) == body by {
      if negative { assert s[1..] == body; } else { assert s[0] == body[0]; }
    }
  }

  lemma NotSpaceOrLetter(c: char)
    requires IsDigit(c) || c == '-'
    ensures !IsSpace(c) && !IsLetter(c) && LowerChar(c) == c
  {
  }

  lemma SignedStripUnchanged(s: string, negative: bool, body: string)
    requires s == (if negative then "-" else "") + body
    requires body != [] && IsDigit(body[0]) && IsDigit(body[|body| - 1])
    ensures Strip(s) == s
  {
    assert s[|s| - 1] == body[|body| - 1];
    NotSpaceOrLetter(s[|s| - 1]);
    assert s[0] == '-' || s[0] == body[0];
    NotSpaceOrLetter(s[0]);
    StripUnchanged(s);
  }

  /** The unsigned part `q.rr` of a formatted amount parses to `q + rr / 100`. */
  lemma FormatCentsBody(q: nat, r: nat)
    requires r < 100
    ensures ParseUnsigned(NatToString(q) + "." + PadNat(r, 2)) == Some(Decimal(q, r, 2))
  {
    assert Pow10Nat(2) == 100;
    PadNatWidth(r, 2);
    NatToStringValue(q);
    PadNatValue(r, 2);
    DigitsDotDigits(NatToString(q), PadNat(r, 2));
  }

  /** Digits, a dot and digits parse as a decimal numeral. */
  lemma DigitsDotDigits(whole: string, fraction: string)
    requires whole != [] && AllDigits(whole) && AllDigits(fraction)
    ensures ParseUnsigned(whole + "." + fraction) == Some(Decimal(DigitsValue(whole), DigitsValue(fraction), |fraction|))
  {
    var body := whole + "." + fraction;
    FindDotAfterDigits(whole, "." + fraction);
    assert body == whole + ("." + fraction);
    var dot := FindFrom(body, ".", 0);
    assert body[..dot] == whole;
    assert body[dot + 1..] == fraction;
    ExponentFree(body);
  }

  lemma FormatCentsEnds(q: nat, r: nat)
    requires r < 100
    ensures var body := NatToString(q) + "." + PadNat(r, 2);
      IsDigit(body[0]) && IsDigit(body[|body| - 1])
  {
    var whole, fraction := NatToString(q), PadNat(r, 2);
    var body := whole + "." + fraction;
    assert body[|body| - 1] == fraction[|fraction| - 1];
    assert body[0] == whole[0];
  }

  lemma ExponentFree(body: string)
    requires forall i :: 0 <= i < |body| ==> IsDigit(body[i]) || body[i] == '.'
    ensures ExponentMark(body) == -1
  {
    if body != [] {
      ExponentFree(body[1..]);
    }
  }
}
