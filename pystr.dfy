/** The few Python `str` and `int` primitives the resource validators rely on:
    `str.isdigit`, `str.upper`, slicing with a negative bound, and the decimal
    value of a digit string (what `int(s)` computes, before its digit limit,
    which `Docker.ValidatePositiveInt` adds), with the canonical decimal
    rendering of a number as its partner. Digits are the ASCII digits '0'..'9' and upper-casing maps the ASCII
    letters only. */
module PyStr {

  predicate IsDigit(c: char) {
    '0' <= c <= '9'
  }

  /** Every character is a digit; the empty string qualifies. */
  predicate AllDigits(s: string) {
    forall i :: 0 <= i < |s| ==> IsDigit(s[i])
  }

  /** Python's `s.isdigit()`: false on the empty string, otherwise true
      exactly when every character of `s` is a digit. */
  predicate IsDigitString(s: string)
    ensures IsDigitString(s) <==> s != [] && forall c :: c in s ==> IsDigit(c)
  {
    assert forall i :: 0 <= i < |s| ==> s[i] in s;
    |s| > 0 && AllDigits(s)
  }

  function DigitValue(c: char): (d: nat)
    requires IsDigit(c)
    ensures d < 10
  {
    (c as int) - ('0' as int)
  }

  function DigitChar(d: nat): (c: char)
    requires d < 10
    ensures IsDigit(c) && DigitValue(c) == d
  {
    (('0' as int) + d) as char
  }

  lemma DigitCharOfValue(c: char)
    requires IsDigit(c)
    ensures DigitChar(DigitValue(c)) == c
  {
  }

  function Pow10(k: nat): (p: nat)
    ensures p >= 1
  {
    if k == 0 then 1 else 10 * Pow10(k - 1)
  }

  /** The decimal value of a string of digits (0 for the empty string);
      `k` digits denote a number below `10^k`. This is the number `int(s)`
      computes; `int`'s limit on the number of digits is not part of it. */
  function DigitsValue(s: string): (n: nat)
    requires AllDigits(s)
    ensures n < Pow10(|s|)
    decreases |s|
  {
    if s == [] then 0
    else
      var p := DigitsValue(s[..|s| - 1]);
      assert 10 * p + 9 < 10 * Pow10(|s| - 1);
      10 * p + DigitValue(s[|s| - 1])
  }

  /** The canonical decimal rendering of `n`, with no leading zero except
      for 0 itself. */
  function Decimal(n: nat): (s: string)
    ensures IsDigitString(s)
    ensures |s| == 1 || s[0] != '0'
    decreases n
  {
    if n < 10 then [DigitChar(n)] else Decimal(n / 10) + [DigitChar(n % 10)]
  }

  /** A run of `k` zero digits. */
  function Zeros(k: nat): (s: string)
    ensures |s| == k && AllDigits(s)
    ensures forall i :: 0 <= i < k ==> s[i] == '0'
  {
    if k == 0 then [] else ['0'] + Zeros(k - 1)
  }

  /** The digits of `s` with its leading zeros removed, keeping at least the
      last digit. */
  function StripZeros(s: string): (t: string)
    requires IsDigitString(s)
    ensures IsDigitString(t) && |t| <= |s|
    ensures |t| == 1 || t[0] != '0'
    ensures t == s[|s| - |t|..]
    ensures forall i :: 0 <= i < |s| - |t| ==> s[i] == '0'
    decreases |s|
  {
    if |s| > 1 && s[0] == '0' then StripZeros(s[1..]) else s
  }

  /** The rendering of `n` has digit value `n`. */
  lemma {:induction false} DecimalValue(n: nat)
    ensures DigitsValue(Decimal(n)) == n
    decreases n
  {
    var s := Decimal(n);
    if n < 10 {
      assert s[..0] == [];
    } else {
      var p := Decimal(n / 10);
      assert s[..|s| - 1] == p;
      DecimalValue(n / 10);
    }
  }

  /** A leading zero adds nothing to the value. */
  lemma {:induction false} LeadingZeroValue(s: string)
    requires AllDigits(s)
    ensures AllDigits(['0'] + s) && DigitsValue(['0'] + s) == DigitsValue(s)
    decreases |s|
  {
    var z := ['0'] + s;
    if s == [] {
      assert z[..0] == [];
    } else {
      assert z[..|z| - 1] == ['0'] + s[..|s| - 1];
      LeadingZeroValue(s[..|s| - 1]);
    }
  }

  /** Any number of leading zeros adds nothing to the value. */
  lemma {:induction false} ZerosValue(k: nat, s: string)
    requires AllDigits(s)
    ensures AllDigits(Zeros(k) + s) && DigitsValue(Zeros(k) + s) == DigitsValue(s)
    decreases k
  {
    if k == 0 {
      assert Zeros(k) + s == s;
    } else {
      var x := Zeros(k - 1) + s;
      ZerosValue(k - 1, s);
      LeadingZeroValue(x);
      calc {
        Zeros(k) + s;
        (['0'] + Zeros(k - 1)) + s;
        ['0'] + x;
      }
    }
  }

  /** A digit string that does not start with '0' has a positive value. */
  lemma {:induction false} NoLeadingZeroPositive(s: string)
    requires IsDigitString(s) && s[0] != '0'
    ensures DigitsValue(s) > 0
    decreases |s|
  {
    if |s| == 1 {
      assert s[..0] == [];
    } else {
      NoLeadingZeroPositive(s[..|s| - 1]);
    }
  }

  /** A digit string without a leading zero is exactly the rendering of its
      value. */
  lemma {:induction false} CanonicalDecimal(s: string)
    requires IsDigitString(s)
    requires |s| == 1 || s[0] != '0'
    ensures Decimal(DigitsValue(s)) == s
    decreases |s|
  {
    var last := s[|s| - 1];
    if |s| == 1 {
      assert s[..0] == [];
      DigitCharOfValue(last);
      assert s == [last];
    } else {
      var p := s[..|s| - 1];
      NoLeadingZeroPositive(p);
      CanonicalDecimal(p);
      var n := DigitsValue(s);
      assert n == 10 * DigitsValue(p) + DigitValue(last);
      assert n / 10 == DigitsValue(p) && n % 10 == DigitValue(last);
      DigitCharOfValue(last);
      assert s == p + [last];
    }
  }

  /** Every digit string is a run of zeros followed by the canonical
      rendering of its value. */
  lemma {:induction false} PaddedDecimal(s: string)
    requires IsDigitString(s)
    ensures var t := Decimal(DigitsValue(s));
            |t| <= |s| && s == Zeros(|s| - |t|) + t
  {
    var t := StripZeros(s);
    var k := |s| - |t|;
    assert s[..k] == Zeros(k);
    assert s == s[..k] + s[k..];
    assert s == Zeros(k) + t;
    ZerosValue(k, t);
    CanonicalDecimal(t);
  }

  /** The rendering of `n` has at most `k` digits exactly when `n < 10^k`
      (for `k >= 1`; `"0"` itself has one digit). */
  lemma {:induction false} DecimalLength(n: nat, k: nat)
    requires k >= 1
    ensures |Decimal(n)| <= k <==> n < Pow10(k)
    decreases n
  {
    if n < 10 {
      if k > 1 {
        assert Pow10(k) == 10 * Pow10(k - 1);
      }
    } else {
      assert |Decimal(n)| == |Decimal(n / 10)| + 1;
      assert n == 10 * (n / 10) + n % 10;
      if k == 1 {
        assert |Decimal(n / 10)| >= 1;
      } else {
        DecimalLength(n / 10, k - 1);
        assert Pow10(k) == 10 * Pow10(k - 1);
        assert n / 10 < Pow10(k - 1) <==> n < 10 * Pow10(k - 1);
      }
    }
  }

  /** Python slice bound normalisation: a negative bound counts from the end,
      and every bound is clamped into `0..len`. */
  function SliceIndex(len: nat, k: int): (i: nat)
    ensures i <= len
  {
    if k < 0 then (if len + k < 0 then 0 else len + k)
    else if k > len then len else k
  }

  /** Python's `v[:stop]`. */
  function Prefix(v: string, stop: int): (r: string)
    ensures |r| <= |v| && r == v[..|r|]
  {
    v[..SliceIndex(|v|, stop)]
  }

  /** Python's `v[start:]`. */
  function Suffix(v: string, start: int): (r: string)
    ensures |r| <= |v| && r == v[|v| - |r|..]
  {
    v[SliceIndex(|v|, start)..]
  }

  /** Slicing off the last two characters, for strings of each length. */
  lemma LastTwoSlices(v: string)
    ensures |v| < 2 ==> Prefix(v, -2) == [] && Suffix(v, -2) == v
    ensures |v| >= 2 ==> Prefix(v, -2) == v[..|v| - 2] && Suffix(v, -2) == [v[|v| - 2], v[|v| - 1]]
  {
  }

  function UpperChar(c: char): (u: char)
    ensures 'a' <= c <= 'z' ==> u as int == c as int - 32
    ensures !('a' <= c <= 'z') ==> u == c
  {
    if 'a' <= c <= 'z' then (c as int - 32) as char else c
  }

  /** Python's `s.upper()`, character by character. */
  function Upper(s: string): (r: string)
    ensures |r| == |s|
    ensures forall i :: 0 <= i < |s| ==> r[i] == UpperChar(s[i])
  {
    if s == [] then [] else [UpperChar(s[0])] + Upper(s[1..])
  }
}
