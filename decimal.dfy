/**
 * Decimal rendering of non-negative integers, as Python's `f'{n}'` and
 * `f'{n:02d}'` produce it, together with its inverse `ValueOf`.
 */
module Decimal {

  predicate IsDigit(c: char)
  {
    '0' <= c <= '9'
  }

  predicate AllDigits(s: string)
  {
    forall i :: 0 <= i < |s| ==> IsDigit(s[i])
  }

  function DigitValue(c: char): (d: nat)
    requires IsDigit(c)
    ensures d < 10
  {
    c as int - '0' as int
  }

  function DigitChar(d: nat): (c: char)
    requires d < 10
    ensures IsDigit(c) && DigitValue(c) == d
  {
    ('0' as int + d) as char
  }

  function Pow10(k: nat): (p: nat)
    ensures p >= 1
  {
    if k == 0 then 1 else 10 * Pow10(k - 1)
  }

  /** The number a string of decimal digits denotes; leading zeros are allowed. */
  function ValueOf(s: string): nat
    requires AllDigits(s)
    decreases |s|
  {
    if s == [] then 0 else ValueOf(s[..|s| - 1]) * 10 + DigitValue(s[|s| - 1])
  }

  /**
   * `str(n)`: the shortest decimal numeral of `n`. It is never empty, has no
   * leading zero, is a single digit exactly when n < 10, and denotes `n`.
   */
  function NatToString(n: nat): (s: string)
    ensures 1 <= |s| && AllDigits(s)
    ensures |s| == 1 <==> n < 10
    ensures |s| > 1 ==> s[0] != '0'
    ensures ValueOf(s) == n
    decreases n
  {
    if n < 10 then [DigitChar(n)]
    else
      var init := NatToString(n / 10);
      var s := init + [DigitChar(n % 10)];
      assert s[..|s| - 1] == init;
      s
  }

  /** A numeral below 10^k has at most k digits. */
  lemma {:induction false} NatToStringLength(n: nat, k: nat)
    requires 1 <= k && n < Pow10(k)
    ensures |NatToString(n)| <= k
  {
    if n >= 10 {
      assert k >= 2;
      NatToStringLength(n / 10, k - 1);
    }
  }

  function Zeros(k: nat): (z: string)
    ensures |z| == k && forall i :: 0 <= i < k ==> z[i] == '0'
  {
    seq(k, _ => '0')
  }

  lemma {:induction false} ValueOfZeros(k: nat)
    ensures ValueOf(Zeros(k)) == 0
  {
    if k > 0 {
      assert Zeros(k)[..k - 1] == Zeros(k - 1);
      ValueOfZeros(k - 1);
    }
  }

  /** Leading zeros do not change the value of a numeral. */
  lemma {:induction false} ValueOfZerosPrefix(k: nat, d: string)
    requires AllDigits(d)
    ensures AllDigits(Zeros(k) + d) && ValueOf(Zeros(k) + d) == ValueOf(d)
    decreases |d|
  {
    var z := Zeros(k);
    if d == [] {
      assert z + d == z;
      ValueOfZeros(k);
    } else {
      var zd := z + d;
      assert zd[..|zd| - 1] == z + d[..|d| - 1];
      ValueOfZerosPrefix(k, d[..|d| - 1]);
    }
  }

  /**
   * `f'{n:0<width>d}'`: `str(n)` left-padded with zeros to at least `width`
   * characters. A longer numeral is kept whole, never truncated.
   */
  function ZeroPad(n: nat, width: nat): (s: string)
    ensures AllDigits(s) && ValueOf(s) == n
    ensures |s| == if |NatToString(n)| < width then width else |NatToString(n)|
    ensures |NatToString(n)| >= width ==> s == NatToString(n)
  {
    var d := NatToString(n);
    if |d| < width then
      ValueOfZerosPrefix(width - |d|, d);
      Zeros(width - |d|) + d
    else d
  }

  /** A value below 10^width is padded to exactly `width` digits. */
  lemma ZeroPadExactWidth(n: nat, width: nat)
    requires 1 <= width && n < Pow10(width)
    ensures |ZeroPad(n, width)| == width
  {
    NatToStringLength(n, width);
  }
}
