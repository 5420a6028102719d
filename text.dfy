/**
 * Character and decimal helpers shared by every part of the model:
 * ASCII digits, the value of a digit string, the decimal rendering of a
 * natural number and the zero padding that `std::setw(w)` with
 * `std::setfill('0')` applies to a positive counter.
 */
module Text {

  datatype Option<T> = None | Some(value: T)

  const IntMin: int := -0x8000_0000
  const IntMax: int := 0x7FFF_FFFF

  /** `std::isdigit` in the C locale. */
  predicate IsDigit(c: char) {
    '0' <= c <= '9'
  }

  /** `std::isspace` in the C locale, which is what `std::stoi` skips. */
  predicate IsSpace(c: char) {
    c == ' ' || c == '\t' || c == '\n' || c == '\U{0B}' || c == '\U{0C}' || c == '\r'
  }

  predicate AllDigits(s: string) {
    forall i :: 0 <= i < |s| ==> IsDigit(s[i])
  }

  predicate NoDigits(s: string) {
    forall i :: 0 <= i < |s| ==> !IsDigit(s[i])
  }

  function DigitOf(c: char): (d: nat)
    requires IsDigit(c)
    ensures d < 10
  {
    (c as int - '0' as int) as nat
  }

  function CharOf(d: nat): (c: char)
    requires d < 10
    ensures IsDigit(c) && DigitOf(c) == d
  {
    (d + '0' as int) as char
  }

  /** The base-10 value of a digit string; leading zeros do not change it. */
  function DigitsValue(s: string): nat
    requires AllDigits(s)
  {
    if s == [] then 0
    else DigitsValue(s[..|s| - 1]) * 10 + DigitOf(s[|s| - 1])
  }

  /** Decimal rendering of `n` without leading zeros (at least one digit). */
  function DecimalString(n: nat): (s: string)
    ensures |s| >= 1 && AllDigits(s)
    ensures n >= 10 ==> |s| >= 2
  {
    if n < 10 then [CharOf(n)] else DecimalString(n / 10) + [CharOf(n % 10)]
  }

  function Zeros(k: nat): (s: string)
    ensures |s| == k && AllDigits(s)
    ensures forall i :: 0 <= i < k ==> s[i] == '0'
  {
    if k == 0 then [] else Zeros(k - 1) + ['0']
  }

  /** What `<< std::setw(width) << std::setfill('0') << n` writes for a non-negative `n`. */
  function ZeroPad(n: nat, width: nat): (s: string)
    ensures AllDigits(s)
    ensures |s| >= width
  {
    var d := DecimalString(n);
    if |d| < width then Zeros(width - |d|) + d else d
  }

  function Pow10(k: nat): (p: nat)
    ensures p >= 1 && (k >= 1 ==> p >= 10)
  {
    if k == 0 then 1 else 10 * Pow10(k - 1)
  }

  /** `needle` occurs in `haystack` starting at index `i`. */
  predicate OccursAt(haystack: string, needle: string, i: int) {
    0 <= i <= |haystack| - |needle| && haystack[i..i + |needle|] == needle
  }

  /** `haystack.find(needle) != npos`. */
  predicate Contains(haystack: string, needle: string) {
    exists i :: 0 <= i <= |haystack| - |needle| && OccursAt(haystack, needle, i)
  }

  // ---------------------------------------------------------------------
  // Lemmas about digit strings

  lemma {:induction false} DecimalRoundTrip(n: nat)
    ensures DigitsValue(DecimalString(n)) == n
  {
    var s := DecimalString(n);
    if n >= 10 {
      DecimalRoundTrip(n / 10);
      assert s[..|s| - 1] == DecimalString(n / 10);
    }
  }

  lemma {:induction false} LeadingZeroIgnored(s: string)
    requires AllDigits(s)
    ensures DigitsValue(['0'] + s) == DigitsValue(s)
  {
    if s != [] {
      var t := ['0'] + s;
      assert t[..|t| - 1] == ['0'] + s[..|s| - 1];
      LeadingZeroIgnored(s[..|s| - 1]);
    } else {
      assert (['0'] + s)[..0] == [];
    }
  }

  lemma {:induction false} ZerosIgnored(k: nat, s: string)
    requires AllDigits(s)
    ensures DigitsValue(Zeros(k) + s) == DigitsValue(s)
  {
    if k > 0 {
      assert Zeros(k) + s == ['0'] + (Zeros(k - 1) + s) by {
        assert Zeros(k) == ['0'] + Zeros(k - 1) by { ZerosCons(k); }
      }
      LeadingZeroIgnored(Zeros(k - 1) + s);
      ZerosIgnored(k - 1, s);
    } else {
      assert Zeros(k) + s == s;
    }
  }

  lemma ZerosCons(k: nat)
    requires k > 0
    ensures Zeros(k) == ['0'] + Zeros(k - 1)
  {
  }

  /** Padding never changes the value: reading the padded counter back gives the counter. */
  lemma ZeroPadRoundTrip(n: nat, width: nat)
    ensures DigitsValue(ZeroPad(n, width)) == n
  {
    var d := DecimalString(n);
    DecimalRoundTrip(n);
    if |d| < width {
      ZerosIgnored(width - |d|, d);
    }
  }

  /** Two different counters are never padded to the same text. */
  lemma ZeroPadInjective(m: nat, n: nat, width: nat)
    requires ZeroPad(m, width) == ZeroPad(n, width)
    ensures m == n
  {
    ZeroPadRoundTrip(m, width);
    ZeroPadRoundTrip(n, width);
  }

  /** `n` takes at most `k` digits exactly when it is below 10^k. */
  lemma {:induction false} DecimalLength(n: nat, k: nat)
    requires k >= 1
    ensures |DecimalString(n)| <= k <==> n < Pow10(k)
  {
    if n >= 10 && k > 1 {
      DecimalLength(n / 10, k - 1);
    }
  }

  /**
   * `std::setw` is a minimum: the padded counter has exactly `width` digits
   * while it is below 10^width, and more after that.
   */
  lemma ZeroPadWidth(n: nat, width: nat)
    requires width >= 1
    ensures |ZeroPad(n, width)| == width <==> n < Pow10(width)
  {
    DecimalLength(n, width);
  }
}
