/**
 * String operations with the semantics of the Python built-ins the source uses:
 * `str.strip()`, `str.lower()`, `str.title()`, `in` on strings, `str.find` and slicing.
 * Case mapping is modelled on ASCII letters only.
 */
module Text {

  /** The characters Python's `str.isspace()` accepts (and hence `str.strip()` removes). */
  predicate IsSpace(c: char)
  {
    || ('\U{0009}' <= c <= '\U{000D}') || ('\U{001C}' <= c <= '\U{0020}')
    || c == '\U{0085}' || c == '\U{00A0}' || c == '\U{1680}'
    || ('\U{2000}' <= c <= '\U{200A}') || c == '\U{2028}' || c == '\U{2029}'
    || c == '\U{202F}' || c == '\U{205F}' || c == '\U{3000}'
  }

  predicate IsUpper(c: char) { 'A' <= c <= 'Z' }
  predicate IsLower(c: char) { 'a' <= c <= 'z' }
  predicate IsLetter(c: char) { IsUpper(c) || IsLower(c) }
  predicate IsDigit(c: char) { '0' <= c <= '9' }

  function LowerChar(c: char): (r: char)
    ensures IsLetter(c) <==> IsLetter(r)
    ensures !IsUpper(r)
  {
    if IsUpper(c) then (c as int + 32) as char else c
  }

  function UpperChar(c: char): (r: char)
    ensures IsLetter(c) <==> IsLetter(r)
    ensures !IsLower(r)
  {
    if IsLower(c) then (c as int - 32) as char else c
  }

  /** `s.lower()` */
  function Lower(s: string): (r: string)
    ensures |r| == |s|
    ensures forall i :: 0 <= i < |s| ==> r[i] == LowerChar(s[i])
  {
    if s == [] then [] else [LowerChar(s[0])] + Lower(s[1..])
  }

  lemma LowerIdempotent(s: string)
    ensures Lower(Lower(s)) == Lower(s)
  {
  }

  /** `s.title()`: a letter that follows a letter is lower-cased, any other letter upper-cased. */
  function Title(s: string): string
  {
    TitleAfter(s, false)
  }

  function TitleAfter(s: string, previousCased: bool): (r: string)
    ensures |r| == |s|
    decreases |s|
  {
    if s == [] then []
    else [if previousCased then LowerChar(s[0]) else UpperChar(s[0])] + TitleAfter(s[1..], IsLetter(s[0]))
  }

  /**
   * Title-casing yields a capitalised word exactly when the input is that word in any mix of cases:
   * for a lower-case word `w` made of letters, `Title(s) == Capitalised(w)` iff `Lower(s) == w`.
   */
  function Capitalised(w: string): string
  {
    if w == [] then [] else [UpperChar(w[0])] + w[1..]
  }

  lemma {:induction false} TitleAfterLetters(s: string)
    requires forall i :: 0 <= i < |s| ==> IsLetter(s[i])
    ensures TitleAfter(s, true) == Lower(s)
    decreases |s|
  {
    if s != [] {
      TitleAfterLetters(s[1..]);
    }
  }

  lemma {:induction false} TitleAfterIsLowerWord(s: string, w: string)
    requires forall i :: 0 <= i < |w| ==> IsLower(w[i])
    ensures TitleAfter(s, true) == w <==> Lower(s) == w
    decreases |s|
  {
    if s != [] && w != [] {
      TitleAfterIsLowerWord(s[1..], w[1..]);
      if TitleAfter(s, true) == w {
        assert LowerChar(s[0]) == w[0];
        assert IsLetter(s[0]);
        assert TitleAfter(s[1..], true) == w[1..];
      }
      if Lower(s) == w {
        assert LowerChar(s[0]) == w[0];
        assert IsLetter(s[0]);
        assert Lower(s[1..]) == w[1..];
      }
    }
  }

  lemma UpperCharLetters(a: char, b: char)
    requires IsLower(b) && UpperChar(a) == UpperChar(b)
    ensures IsLetter(a) && LowerChar(a) == b
  {
  }

  lemma LowerCharLetters(a: char, b: char)
    requires IsLower(b) && LowerChar(a) == b
    ensures IsLetter(a) && UpperChar(a) == UpperChar(b)
  {
  }

  lemma TitleIsCapitalised(s: string, w: string)
    requires w != []
    requires forall i :: 0 <= i < |w| ==> IsLower(w[i])
    ensures Title(s) == Capitalised(w) <==> Lower(s) == w
  {
    if s != [] {
      if Title(s) == Capitalised(w) {
        TitleToLower(s, w);
      }
      if Lower(s) == w {
        LowerToTitle(s, w);
      }
    }
  }

  lemma TitleToLower(s: string, w: string)
    requires s != [] && w != []
    requires forall i :: 0 <= i < |w| ==> IsLower(w[i])
    requires Title(s) == Capitalised(w)
    ensures Lower(s) == w
  {
    var c := s[0];
    var rest := TitleAfter(s[1..], IsLetter(c));
    assert Title(s) == [UpperChar(c)] + rest;
    assert UpperChar(c) == UpperChar(w[0]);
    UpperCharLetters(c, w[0]);
    assert Capitalised(w) == [UpperChar(w[0])] + w[1..];
    assert Title(s)[1..] == rest;
    assert Capitalised(w)[1..] == w[1..];
    assert rest == w[1..];
    TitleAfterIsLowerWord(s[1..], w[1..]);
    assert Lower(s) == [LowerChar(c)] + Lower(s[1..]);
  }

  lemma LowerToTitle(s: string, w: string)
    requires s != [] && w != []
    requires forall i :: 0 <= i < |w| ==> IsLower(w[i])
    requires Lower(s) == w
    ensures Title(s) == Capitalised(w)
  {
    var c := s[0];
    assert Lower(s) == [LowerChar(c)] + Lower(s[1..]);
    assert LowerChar(c) == w[0];
    LowerCharLetters(c, w[0]);
    assert Lower(s[1..]) == w[1..];
    TitleAfterIsLowerWord(s[1..], w[1..]);
    assert Title(s) == [UpperChar(c)] + TitleAfter(s[1..], true);
  }

  /** `s.lstrip()` */
  function StripLeft(s: string): (r: string)
    ensures |r| <= |s| && r == s[|s| - |r|..]
    ensures forall i :: 0 <= i < |s| - |r| ==> IsSpace(s[i])
    ensures r == [] || !IsSpace(r[0])
    decreases |s|
  {
    if s != [] && IsSpace(s[0]) then StripLeft(s[1..]) else s
  }

  /** `s.rstrip()` */
  function StripRight(s: string): (r: string)
    ensures |r| <= |s| && r == s[..|r|]
    ensures forall i :: |r| <= i < |s| ==> IsSpace(s[i])
    ensures r == [] || !IsSpace(r[|r| - 1])
    decreases |s|
  {
    if s != [] && IsSpace(s[|s| - 1]) then StripRight(s[..|s| - 1]) else s
  }

  /** How many leading white-space characters `s.strip()` removes. */
  function StripOffset(s: string): nat
  {
    |s| - |StripLeft(s)|
  }

  /** `s.strip()`: the result is the slice of `s` at `StripOffset(s)`, and only white space lies outside it. */
  function Strip(s: string): (r: string)
    ensures StripOffset(s) + |r| <= |s| && r == s[StripOffset(s)..StripOffset(s) + |r|]
    ensures forall k :: 0 <= k < StripOffset(s) ==> IsSpace(s[k])
    ensures forall k :: StripOffset(s) + |r| <= k < |s| ==> IsSpace(s[k])
    ensures r == [] || (!IsSpace(r[0]) && !IsSpace(r[|r| - 1]))
  {
    var l := StripLeft(s);
    var r := StripRight(l);
    StripSlices(s, l, r);
    r
  }

  /** The right strip of a suffix of `s` is a slice of `s`, with only what lay past it dropped. */
  lemma StripSlices(s: string, l: string, r: string)
    requires |l| <= |s| && l == s[|s| - |l|..]
    requires |r| <= |l| && r == l[..|r|]
    requires forall k :: |r| <= k < |l| ==> IsSpace(l[k])
    ensures r == s[|s| - |l|..|s| - |l| + |r|]
    ensures forall k :: |s| - |l| + |r| <= k < |s| ==> IsSpace(s[k])
  {
    var i := |s| - |l|;
    forall k | i + |r| <= k < |s|
      ensures IsSpace(s[k])
    {
      assert s[k] == l[k - i];
    }
  }

  /** A string is all white space exactly when stripping it leaves nothing. */
  lemma StripEmpty(s: string)
    ensures Strip(s) == [] <==> forall k :: 0 <= k < |s| ==> IsSpace(s[k])
  {
    if forall k :: 0 <= k < |s| ==> IsSpace(s[k]) {
      StripLeftAllSpace(s);
    }
  }

  lemma {:induction false} StripLeftAllSpace(s: string)
    requires forall k :: 0 <= k < |s| ==> IsSpace(s[k])
    ensures StripLeft(s) == []
    decreases |s|
  {
    if s != [] {
      StripLeftAllSpace(s[1..]);
    }
  }

  lemma StripIdempotent(s: string)
    ensures Strip(Strip(s)) == Strip(s)
  {
  }

  predicate StartsWith(s: string, p: string)
  {
    |p| <= |s| && s[..|p|] == p
  }

  predicate OccursAt(s: string, p: string, i: int)
  {
    0 <= i && i + |p| <= |s| && s[i..i + |p|] == p
  }

  /** Python's `p in s` (and `re.search` with a pattern free of metacharacters). */
  predicate Contains(s: string, p: string)
    decreases |s|
  {
    StartsWith(s, p) || (s != [] && Contains(s[1..], p))
  }

  lemma {:induction false} ContainsIff(s: string, p: string)
    ensures Contains(s, p) <==> exists i :: OccursAt(s, p, i)
    decreases |s|
  {
    if StartsWith(s, p) {
      assert OccursAt(s, p, 0);
    } else if s != [] {
      ContainsIff(s[1..], p);
      if Contains(s[1..], p) {
        var i :| OccursAt(s[1..], p, i);
        assert s[1..][i..i + |p|] == s[i + 1..i + 1 + |p|];
        assert OccursAt(s, p, i + 1);
      }
      if exists i :: OccursAt(s, p, i) {
        var i :| OccursAt(s, p, i);
        assert i != 0;
        assert s[1..][i - 1..i - 1 + |p|] == s[i..i + |p|];
        assert OccursAt(s[1..], p, i - 1);
      }
    }
  }

  /** A string containing `q` contains every prefix of `q`. */
  lemma ContainsPrefix(s: string, q: string, n: nat)
    requires Contains(s, q)
    requires n <= |q|
    ensures Contains(s, q[..n])
  {
    ContainsIff(s, q);
    var i :| OccursAt(s, q, i);
    assert s[i..i + n] == q[..n];
    assert OccursAt(s, q[..n], i);
    ContainsIff(s, q[..n]);
  }

  /** `s.find(p, start)`: the first occurrence of `p` at or after `start`, or -1. */
  function FindFrom(s: string, p: string, start: nat): (r: int)
    ensures r == -1 || (start <= r && OccursAt(s, p, r))
    ensures r == -1 ==> forall k :: start <= k ==> !OccursAt(s, p, k)
    ensures r != -1 ==> forall k :: start <= k < r ==> !OccursAt(s, p, k)
    decreases |s| - start
  {
    if start + |p| > |s| then -1
    else if s[start..start + |p|] == p then start
    else FindFrom(s, p, start + 1)
  }

  /** Python's slice `s[i:j]`, where a negative bound counts from the end. */
  function Slice(s: string, i: int, j: int): (r: string)
    ensures |r| <= |s|
  {
    var lo := if i < 0 then (if i + |s| < 0 then 0 else i + |s|) else (if i > |s| then |s| else i);
    var hi := if j < 0 then (if j + |s| < 0 then 0 else j + |s|) else (if j > |s| then |s| else j);
    if lo < hi then s[lo..hi] else []
  }

  /** `s.replace(c, '')` for a single character `c`: every occurrence goes. */
  function Remove(s: string, c: char): (r: string)
    ensures |r| <= |s|
    ensures forall i :: 0 <= i < |r| ==> r[i] != c
  {
    if s == [] then [] else (if s[0] == c then [] else [s[0]]) + Remove(s[1..], c)
  }

  /** Removing a character that does not occur changes nothing. */
  lemma {:induction false} RemoveAbsent(s: string, c: char)
    requires forall i :: 0 <= i < |s| ==> s[i] != c
    ensures Remove(s, c) == s
  {
    if s != [] {
      RemoveAbsent(s[1..], c);
    }
  }

  /** `sep.join(parts)` */
  function Join(parts: seq<string>, sep: string): string
  {
    if parts == [] then []
    else if |parts| == 1 then parts[0]
    else parts[0] + sep + Join(parts[1..], sep)
  }

  /** Decimal digits of a natural number, without leading zeros. */
  function NatToString(n: nat): (r: string)
    ensures |r| >= 1
    ensures forall i :: 0 <= i < |r| ==> IsDigit(r[i])
    decreases n
  {
    if n < 10 then [('0' as int + n) as char] else NatToString(n / 10) + [('0' as int + n % 10) as char]
  }

  function DigitValue(c: char): nat
    requires IsDigit(c)
  {
    c as int - '0' as int
  }

  /** The number a string of decimal digits denotes. */
  function DigitsValue(s: string): nat
    requires forall i :: 0 <= i < |s| ==> IsDigit(s[i])
  {
    if s == [] then 0 else DigitsValue(s[..|s| - 1]) * 10 + DigitValue(s[|s| - 1])
  }

  lemma {:induction false} NatToStringValue(n: nat)
    ensures DigitsValue(NatToString(n)) == n
    decreases n
  {
    if n >= 10 {
      NatToStringValue(n / 10);
      var s := NatToString(n);
      assert s[..|s| - 1] == NatToString(n / 10);
    }
  }

  /** `n` in decimal, left-padded with zeros to at least `width` digits (`"%0*d"`). */
  function PadNat(n: nat, width: nat): (r: string)
    ensures |r| >= width && |r| >= 1
    ensures forall i :: 0 <= i < |r| ==> IsDigit(r[i])
    decreases width
  {
    var s := NatToString(n);
    if |s| >= width then s else "0" + PadNat(n, width - 1)
  }

  lemma {:induction false} PadNatValue(n: nat, width: nat)
    ensures DigitsValue(PadNat(n, width)) == n
    decreases width
  {
    var s := NatToString(n);
    if |s| >= width {
      NatToStringValue(n);
    } else {
      PadNatValue(n, width - 1);
      ZeroPrefixValue(PadNat(n, width - 1));
    }
  }

  lemma {:induction false} ZeroPrefixValue(s: string)
    requires forall i :: 0 <= i < |s| ==> IsDigit(s[i])
    ensures DigitsValue("0" + s) == DigitsValue(s)
    decreases |s|
  {
    if s != [] {
      var t := "0" + s;
      assert t[..|t| - 1] == "0" + s[..|s| - 1];
      ZeroPrefixValue(s[..|s| - 1]);
    }
  }

  /** Small numbers keep the requested width exactly. */
  lemma PadNatWidth(n: nat, width: nat)
    requires 1 <= width
    requires n < Pow10Nat(width)
    ensures |PadNat(n, width)| == width
  {
    NatToStringLength(n, width);
    PadNatWidthAux(n, width);
  }

  function Pow10Nat(k: nat): (r: nat)
    ensures r >= 1
  {
    if k == 0 then 1 else 10 * Pow10Nat(k - 1)
  }

  lemma {:induction false} NatToStringLength(n: nat, width: nat)
    requires 1 <= width
    requires n < Pow10Nat(width)
    ensures |NatToString(n)| <= width
    decreases n
  {
    if n >= 10 {
      assert Pow10Nat(1) == 10;
      NatToStringLength(n / 10, width - 1);
    }
  }

  lemma {:induction false} PadNatWidthAux(n: nat, width: nat)
    requires |NatToString(n)| <= width
    ensures |PadNat(n, width)| == width || (width == 0 && |PadNat(n, width)| == |NatToString(n)|)
    decreases width
  {
    if |NatToString(n)| < width {
      PadNatWidthAux(n, width - 1);
    }
  }

  function DigitChar(n: nat): (c: char)
    requires n < 10
    ensures IsDigit(c) && DigitValue(c) == n
  {
    ('0' as int + n) as char
  }

  /** The last `width` decimal digits of `n`, zero-padded (`"%0*d"` for a number that fits). */
  function Fixed(n: nat, width: nat): (r: string)
    ensures |r| == width
    ensures forall i :: 0 <= i < |r| ==> IsDigit(r[i])
    decreases width
  {
    if width == 0 then [] else Fixed(n / 10, width - 1) + [DigitChar(n % 10)]
  }

  /** `Fixed` keeps the value of the number modulo the width's power of ten. */
  lemma {:induction false} FixedValue(n: nat, width: nat)
    ensures DigitsValue(Fixed(n, width)) == n % Pow10Nat(width)
    decreases width
  {
    if width > 0 {
      var r := Fixed(n, width);
      assert r[..|r| - 1] == Fixed(n / 10, width - 1);
      FixedValue(n / 10, width - 1);
      FixedDigits(n, width);
    }
  }

  lemma FixedDigits(n: nat, width: nat)
    requires width >= 1
    ensures (n / 10) % Pow10Nat(width - 1) * 10 + n % 10 == n % Pow10Nat(width)
  {
    var p := Pow10Nat(width - 1);
    assert Pow10Nat(width) == 10 * p;
    var q := n / 10;
    assert n == q * 10 + n % 10;
    assert q == (q / p) * p + q % p;
    assert n == (q / p) * (10 * p) + (q % p * 10 + n % 10);
    ModUnique(n, 10 * p, q / p, q % p * 10 + n % 10);
  }

  lemma ModUnique(n: int, d: int, k: int, r: int)
    requires 0 <= r < d
    requires n == k * d + r
    ensures n / d == k && n % d == r
  {
    var k', r' := n / d, n % d;
    assert n == k' * d + r';
    if k' > k {
      assert (k' - k) * d == r - r' by { MulSub(k', k, d); }
      MulAtLeast(k' - k, d);
    } else if k' < k {
      assert (k - k') * d == r' - r by { MulSub(k, k', d); }
      MulAtLeast(k - k', d);
    }
  }

  lemma MulSub(a: int, b: int, d: int)
    ensures (a - b) * d == a * d - b * d
  {
  }

  lemma MulAtLeast(a: int, d: int)
    requires a >= 1 && d >= 0
    ensures a * d >= d
    decreases a
  {
    if a > 1 {
      MulAtLeast(a - 1, d);
      assert a * d == (a - 1) * d + d;
    }
  }
}
