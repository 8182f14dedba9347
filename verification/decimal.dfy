/**
  Decimal integers as Rust's `from_str_radix(s, 10)` reads them and as the
  `{}` formatter writes them.

  The header parsers first turn the raw bytes into text with
  `String::from_utf8_lossy` and then call `from_str_radix`. Every byte of an
  accepted numeral is an ASCII sign or digit, and lossy decoding turns any
  other byte into a character that is neither, so this module reads the
  bytes directly: the set of accepted inputs and their values are the same.
 */
module Decimal {
  import opened Wrappers
  import opened Bytes

  /** The integer types the headers parse into. */
  datatype IntKind = U8 | U16 | U32 | I32 {
    function Min(): int {
      if this == I32 then -0x8000_0000 else 0
    }
    function Max(): int {
      match this
      case U8 => 0xFF
      case U16 => 0xFFFF
      case U32 => 0xFFFF_FFFF
      case I32 => 0x7FFF_FFFF
    }
    predicate Signed() {
      this == I32
    }
  }

  const PLUS: byte := 43
  const MINUS: byte := 45
  const ZERO: byte := 48

  predicate IsDigit(b: byte) {
    ZERO <= b <= ZERO + 9
  }

  predicate AllDigits(s: seq<byte>) {
    forall i | 0 <= i < |s| :: IsDigit(s[i])
  }

  /** The value of a string of decimal digits, most significant first. */
  function DigitsValue(s: seq<byte>): nat
    requires AllDigits(s)
  {
    if s == [] then 0 else DigitsValue(s[..|s| - 1]) * 10 + (s[|s| - 1] - ZERO)
  }

  /** True when `s` starts with a sign the integer kind admits. */
  predicate HasSign(s: seq<byte>, k: IntKind) {
    |s| > 0 && (s[0] == PLUS || (k.Signed() && s[0] == MINUS))
  }

  /**
    `from_str_radix(s, 10)` for the integer kind `k`: an optional `+` (or `-`
    when `k` is signed), then at least one digit and nothing else; leading
    zeros are allowed, and a value outside the kind's range is an overflow
    error.
   */
  function ParseInt(s: seq<byte>, k: IntKind): (r: Option<int>)
    ensures r.Some? ==> k.Min() <= r.value <= k.Max()
    ensures r.Some? ==> |s| > 0 && (s[0] == PLUS || s[0] == MINUS || IsDigit(s[0]))
    ensures r.Some? && !k.Signed() ==> 0 <= r.value && s[0] != MINUS
  {
    var digits := if HasSign(s, k) then s[1..] else s;
    if digits == [] || !AllDigits(digits) then None
    else
      var magnitude := DigitsValue(digits);
      var n := if HasSign(s, k) && s[0] == MINUS then 0 - magnitude as int else magnitude;
      if k.Min() <= n <= k.Max() then Some(n) else None
  }

  /** The digits Rust's `{}` writes for a non-negative integer: no sign, no leading zero. */
  function Format(n: nat): (r: seq<byte>)
    ensures |r| > 0 && AllDigits(r)
    ensures r[0] == ZERO ==> n == 0 && |r| == 1
  {
    if n < 10 then [ZERO + n] else Format(n / 10) + [ZERO + n % 10]
  }

  /** Reading back the digits `Format` writes gives the number again. */
  lemma {:induction false} FormatValue(n: nat)
    ensures DigitsValue(Format(n)) == n
  {
    if n >= 10 {
      var f := Format(n);
      assert f[..|f| - 1] == Format(n / 10);
      FormatValue(n / 10);
    }
  }

  /** Formatting then parsing is the identity on every value the kind can hold. */
  lemma ParseFormat(n: nat, k: IntKind)
    requires n <= k.Max()
    ensures ParseInt(Format(n), k) == Some(n)
  {
    FormatValue(n);
  }

  /** Leading zeros in front of a digit string do not change its value. */
  lemma {:induction false} LeadingZerosValue(z: nat, s: seq<byte>)
    requires AllDigits(s)
    ensures AllDigits(seq(z, _ => ZERO) + s)
    ensures DigitsValue(seq(z, _ => ZERO) + s) == DigitsValue(s)
    decreases |s|
  {
    var zs: seq<byte> := seq(z, _ => ZERO);
    if s == [] {
      assert zs + s == zs;
      ZerosValue(z);
    } else {
      assert (zs + s)[..|zs + s| - 1] == zs + s[..|s| - 1];
      LeadingZerosValue(z, s[..|s| - 1]);
    }
  }

  lemma {:induction false} ZerosValue(z: nat)
    ensures AllDigits(seq(z, _ => ZERO))
    ensures DigitsValue(seq(z, _ => ZERO)) == 0
  {
    if z > 0 {
      assert seq(z, _ => ZERO)[..z - 1] == seq(z - 1, _ => ZERO);
      ZerosValue(z - 1);
    }
  }

  /** Any number of leading zeros is accepted and ignored. */
  lemma LeadingZerosAccepted(z: nat, n: nat, k: IntKind)
    requires n <= k.Max()
    ensures ParseInt(seq(z, _ => ZERO) + Format(n), k) == Some(n)
  {
    LeadingZerosValue(z, Format(n));
    FormatValue(n);
  }

  /** A `+` in front of a formatted number is accepted. */
  lemma PlusAccepted(n: nat, k: IntKind)
    requires n <= k.Max()
    ensures ParseInt([PLUS] + Format(n), k) == Some(n)
  {
    assert ([PLUS] + Format(n))[1..] == Format(n);
    FormatValue(n);
  }

  /** For a signed kind, `-` negates: `-0` reads as 0 and `-n` as the negative number. */
  lemma MinusAccepted(n: nat, k: IntKind)
    requires k.Signed() && 0 - n as int >= k.Min()
    ensures ParseInt([MINUS] + Format(n), k) == Some(0 - n as int)
  {
    assert ([MINUS] + Format(n))[1..] == Format(n);
    FormatValue(n);
  }

  /** A `-` is not a sign for an unsigned kind, so the input is rejected. */
  lemma UnsignedRejectsMinus(s: seq<byte>, k: IntKind)
    requires !k.Signed() && |s| > 0 && s[0] == MINUS
    ensures ParseInt(s, k) == None
  {
  }

  /** A byte that is neither a digit nor a leading sign makes the input invalid. */
  lemma NonDigitRejected(s: seq<byte>, i: nat, k: IntKind)
    requires i < |s| && !IsDigit(s[i])
    requires i > 0 || (s[i] != PLUS && s[i] != MINUS)
    ensures ParseInt(s, k) == None
  {
    if HasSign(s, k) {
      assert s[1..][i - 1] == s[i];
    }
  }

  /** A value above the kind's maximum is an overflow error. */
  lemma OverflowRejected(n: nat, k: IntKind)
    requires n > k.Max()
    ensures ParseInt(Format(n), k) == None
  {
    FormatValue(n);
  }
}
