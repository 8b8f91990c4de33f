/** The printf conversions the program uses: %lu and %u, %04u and its timestamp, %04x. */
module Formatting {
  import opened WideStrings

  const ZERO: Wchar := 0x30

  const LINE_END := W("\r\n")

  predicate IsDigit(u: Unit) { 0x30 <= u <= 0x39 }

  predicate AllDigits(s: seq<Unit>) { forall i :: 0 <= i < |s| ==> IsDigit(s[i]) }

  /** %lu: the decimal digits of `n`, without leading zeros. */
  function Decimal(n: nat): (digits: Wide)
    ensures |digits| > 0 && AllDigits(digits)
    ensures digits[0] == ZERO ==> n == 0 && |digits| == 1
  {
    if n < 10 then [ZERO + n] else Decimal(n / 10) + [ZERO + n % 10]
  }

  /** The number a run of digits denotes. */
  function DigitsValue(digits: seq<Unit>): nat
    requires AllDigits(digits)
  {
    if digits == [] then 0
    else
      assert IsDigit(digits[|digits| - 1]);
      DigitsValue(digits[..|digits| - 1]) * 10 + (digits[|digits| - 1] - 0x30)
  }

  lemma {:induction false} DecimalValue(n: nat)
    ensures DigitsValue(Decimal(n)) == n
  {
    if n < 10 {
    } else {
      DecimalValue(n / 10);
      assert Decimal(n)[..|Decimal(n)| - 1] == Decimal(n / 10);
    }
  }

  function Zeros(n: nat): (z: Wide)
    ensures |z| == n && forall i :: 0 <= i < n ==> z[i] == ZERO
  {
    seq(n, i => ZERO)
  }

  /** %0<width>u. */
  function Padded(n: nat, width: nat): (digits: Wide)
    ensures |digits| >= width && AllDigits(digits) && (|digits| == width || digits == Decimal(n))
  {
    var digits := Decimal(n);
    if |digits| < width then Zeros(width - |digits|) + digits else digits
  }

  lemma {:induction false} LeadingZeros(k: nat, digits: Wide)
    requires AllDigits(digits)
    ensures DigitsValue(Zeros(k) + digits) == DigitsValue(digits)
    decreases k + |digits|
  {
    var all := Zeros(k) + digits;
    if digits == [] {
      assert all == Zeros(k);
      if k > 0 {
        LeadingZeros(k - 1, []);
        assert all[..|all| - 1] == Zeros(k - 1) + [];
      }
    } else {
      LeadingZeros(k, digits[..|digits| - 1]);
      assert all[..|all| - 1] == Zeros(k) + digits[..|digits| - 1];
    }
  }

  lemma PaddedValue(n: nat, width: nat)
    ensures DigitsValue(Padded(n, width)) == n
  {
    DecimalValue(n);
    if |Decimal(n)| < width {
      LeadingZeros(width - |Decimal(n)|, Decimal(n));
    }
  }

  /** The lower-case hexadecimal digit of %x. */
  function HexDigit(n: nat): (u: Wchar)
    requires n < 16
  {
    if n < 10 then 0x30 + n else 0x61 + (n - 10)
  }
}
