/**
  Rust's `str::parse` for the two integer types the event parser uses:
  `usize` (workspace ids) and `i32` (the fullscreen flag).
  The target is taken to be 64-bit.
 */
module Numbers {
  import opened Wrappers

  const USIZE_MAX: nat := 0xFFFF_FFFF_FFFF_FFFF
  const I32_MIN: int := -0x8000_0000
  const I32_MAX: int := 0x7FFF_FFFF

  type Usize = n: nat | n <= USIZE_MAX
  type I32 = n: int | I32_MIN <= n <= I32_MAX

  predicate IsDigit(c: char) {
    '0' <= c <= '9'
  }

  predicate AllDigits(s: string) {
    forall i | 0 <= i < |s| :: IsDigit(s[i])
  }

  ghost predicate AllZeros(s: string) {
    forall i | 0 <= i < |s| :: s[i] == '0'
  }

  function DigitValue(c: char): (d: nat)
    requires IsDigit(c)
    ensures d < 10
  {
    c as int - '0' as int
  }

  function DigitChar(d: nat): (c: char)
    requires d < 10
    ensures IsDigit(c) && DigitValue(c) == d
  {
    ('0' as int + d) as char
  }

  /** The value of a decimal digit string, most significant digit first. */
  function DigitsValue(s: string): nat
    requires AllDigits(s)
  {
    if |s| == 0 then 0 else 10 * DigitsValue(s[..|s| - 1]) + DigitValue(s[|s| - 1])
  }

  /** The canonical decimal text of `n`: no sign, no leading zero. */
  function Decimal(n: nat): (r: string)
    ensures |r| > 0 && AllDigits(r)
    ensures r[0] == '0' ==> n == 0
    decreases n
  {
    if n < 10 then [DigitChar(n)] else Decimal(n / 10) + [DigitChar(n % 10)]
  }

  /** An optional sign character followed by the digits. */
  function Unsigned(s: string, sign: char): string {
    if |s| > 0 && s[0] == sign then s[1..] else s
  }

  /** `str::parse::<usize>`: an optional `+`, then one or more ASCII digits
      whose value fits in 64 bits. */
  function ParseUsize(s: string): Option<Usize> {
    var digits := Unsigned(s, '+');
    if |digits| == 0 || !AllDigits(digits) then None
    else
      var v := DigitsValue(digits);
      if v <= USIZE_MAX then Some(v) else None
  }

  /** `str::parse::<i32>`: an optional `+` or `-`, then one or more ASCII
      digits whose signed value lies in the 32-bit range. */
  function ParseI32(s: string): Option<I32> {
    if |s| > 0 && s[0] == '-' then
      var digits := s[1..];
      if |digits| == 0 || !AllDigits(digits) then None
      else
        var v := DigitsValue(digits);
        if v <= -I32_MIN then Some(0 - v as int) else None
    else
      var digits := Unsigned(s, '+');
      if |digits| == 0 || !AllDigits(digits) then None
      else
        var v := DigitsValue(digits);
        if v <= I32_MAX then Some(v) else None
  }

  // ---------------------------------------------------------------------
  // Decimal text and its value

  /** `s` is the decimal text of `n` preceded by zero or more zeros. */
  ghost predicate PaddedDecimal(s: string, n: nat) {
    exists k | 0 <= k <= |s| :: AllZeros(s[..k]) && s[k..] == Decimal(n)
  }

  lemma {:induction false} DecimalValue(n: nat)
    ensures DigitsValue(Decimal(n)) == n
    decreases n
  {
    if n >= 10 {
      var d := Decimal(n);
      assert d[..|d| - 1] == Decimal(n / 10);
      DecimalValue(n / 10);
    }
  }

  lemma {:induction false} ZerosValue(z: string)
    requires AllZeros(z)
    ensures AllDigits(z) && DigitsValue(z) == 0
    decreases |z|
  {
    if z != [] {
      ZerosValue(z[..|z| - 1]);
    }
  }

  /** Leading zeros do not change the value. */
  lemma {:induction false} ZerosPrefixValue(z: string, d: string)
    requires AllZeros(z) && AllDigits(d)
    ensures AllDigits(z + d) && DigitsValue(z + d) == DigitsValue(d)
    decreases |d|
  {
    if d == [] {
      assert z + d == z;
      ZerosValue(z);
    } else {
      assert (z + d)[..|z + d| - 1] == z + d[..|d| - 1];
      ZerosPrefixValue(z, d[..|d| - 1]);
    }
  }

  lemma {:induction false} LeadingDigitPositive(d: string)
    requires |d| > 0 && AllDigits(d) && d[0] != '0'
    ensures DigitsValue(d) > 0
    decreases |d|
  {
    if |d| > 1 {
      LeadingDigitPositive(d[..|d| - 1]);
    }
  }

  /** A digit string without a redundant leading zero is the decimal text of its value. */
  lemma {:induction false} DecimalOfValue(d: string)
    requires |d| > 0 && AllDigits(d)
    requires d[0] != '0' || |d| == 1
    ensures Decimal(DigitsValue(d)) == d
    decreases |d|
  {
    if |d| > 1 {
      var init := d[..|d| - 1];
      LeadingDigitPositive(init);
      DecimalOfValue(init);
      assert d == init + [d[|d| - 1]];
    }
  }

  /** The number of leading zeros to drop, keeping at least one digit. */
  function LeadingZeros(d: string): (k: nat)
    requires |d| > 0
    ensures k < |d| && AllZeros(d[..k])
    ensures d[k] != '0' || k == |d| - 1
  {
    if |d| > 1 && d[0] == '0' then
      var k := 1 + LeadingZeros(d[1..]);
      assert d[..k] == [d[0]] + d[1..][..k - 1];
      k
    else 0
  }

  lemma ValuePadded(s: string)
    requires |s| > 0 && AllDigits(s)
    ensures PaddedDecimal(s, DigitsValue(s))
  {
    var k := LeadingZeros(s);
    StripZeros(s, k);
    DecimalOfValue(s[k..]);
    PaddedWitness(s, DigitsValue(s), k);
  }

  lemma StripZeros(s: string, k: nat)
    requires k <= |s| && AllZeros(s[..k]) && AllDigits(s)
    ensures AllDigits(s[k..]) && DigitsValue(s[k..]) == DigitsValue(s)
  {
    assert s == s[..k] + s[k..];
    ZerosPrefixValue(s[..k], s[k..]);
  }

  lemma PaddedWitness(s: string, n: nat, k: nat)
    requires k <= |s| && AllZeros(s[..k]) && s[k..] == Decimal(n)
    ensures PaddedDecimal(s, n)
  {
  }

  lemma PaddedValue(s: string, n: nat)
    requires PaddedDecimal(s, n)
    ensures |s| > 0 && AllDigits(s) && DigitsValue(s) == n
  {
    var k :| 0 <= k <= |s| && AllZeros(s[..k]) && s[k..] == Decimal(n);
    assert s == s[..k] + Decimal(n);
    ZerosPrefixValue(s[..k], Decimal(n));
    DecimalValue(n);
  }

  /** A non-empty digit string is exactly a zero-padded decimal text of its value. */
  lemma DigitsIff(s: string, n: nat)
    ensures (|s| > 0 && AllDigits(s) && DigitsValue(s) == n) <==> PaddedDecimal(s, n)
  {
    if |s| > 0 && AllDigits(s) && DigitsValue(s) == n {
      ValuePadded(s);
    }
    if PaddedDecimal(s, n) {
      PaddedValue(s, n);
    }
  }

  // ---------------------------------------------------------------------
  // What the parsers accept

  /** `s` spells `n` as a `usize`: an optional `+`, then `n` in decimal with
      any number of leading zeros, and `n` fits in 64 bits. */
  ghost predicate UsizeText(s: string, n: nat) {
    && n <= USIZE_MAX
    && (PaddedDecimal(s, n) || (|s| > 0 && s[0] == '+' && PaddedDecimal(s[1..], n)))
  }

  /** `ParseUsize` accepts exactly an optional `+` followed by a zero-padded
      decimal text of a value that fits. */
  lemma ParseUsizeIff(s: string, n: nat)
    ensures ParseUsize(s) == Some(n) <==> UsizeText(s, n)
  {
    DigitsIff(s, n);
    if |s| > 0 && s[0] == '+' {
      assert !IsDigit(s[0]);
      DigitsIff(s[1..], n);
    }
  }

  /** `ParseI32` accepts a sign only when it agrees with the value; `-0` is zero. */
  lemma ParseI32Iff(s: string, v: int)
    ensures ParseI32(s) == Some(v) <==>
              && I32_MIN <= v <= I32_MAX
              && (|| (v >= 0 && PaddedDecimal(s, v))
                  || (v >= 0 && |s| > 0 && s[0] == '+' && PaddedDecimal(s[1..], v))
                  || (v <= 0 && |s| > 0 && s[0] == '-' && PaddedDecimal(s[1..], -v)))
  {
    if v >= 0 {
      DigitsIff(s, v);
      if |s| > 0 {
        DigitsIff(s[1..], v);
      }
    }
    if v <= 0 && |s| > 0 {
      DigitsIff(s[1..], -v);
    }
  }

  /** Round trip: the decimal text of a value parses back to it exactly when it fits. */
  lemma ParseUsizeDecimal(n: nat)
    ensures ParseUsize(Decimal(n)) == if n <= USIZE_MAX then Some(n) else None
  {
    DecimalValue(n);
  }
}
