/**
  Byte strings, ASCII literals and UTF-8 validity.

  SSDP header values travel as raw byte vectors (`Vec<u8>`); this module gives
  them a type, a way to write byte-string literals, and the UTF-8 validity test
  that `String::from_utf8` performs.
 */
module Bytes {
  import opened Wrappers

  /** An unsigned 8-bit value, Rust's `u8`. */
  type byte = b: int | 0 <= b < 256

  /** Rust's `u16`. */
  type u16 = n: int | 0 <= n < 0x1_0000

  /** Rust's `u32`. */
  type u32 = n: int | 0 <= n < 0x1_0000_0000

  /** The bytes of an ASCII string literal, as Rust's `"...".as_bytes()` gives them. */
  function Ascii(s: string): (r: seq<byte>)
    ensures |r| == |s|
    ensures forall i | 0 <= i < |s| :: r[i] == (s[i] as int) % 256
  {
    seq(|s|, i requires 0 <= i < |s| => (s[i] as int) % 256)
  }

  const COLON: byte := 58
  const SLASH: byte := 47
  const STAR: byte := 42

  /** The index of the first occurrence of `b` in `s`, if any (`position_elem`). */
  function FirstIndexOf(s: seq<byte>, b: byte): (r: Option<nat>)
    ensures r.None? <==> b !in s
    ensures r.Some? ==> r.value < |s| && s[r.value] == b && b !in s[..r.value]
  {
    if s == [] then None
    else if s[0] == b then Some(0)
    else match FirstIndexOf(s[1..], b)
      case None => None
      case Some(k) => assert s[1..][..k] == s[1..k + 1]; Some(k + 1)
  }


  /** A continuation byte `10xxxxxx`. */
  predicate IsContinuation(b: byte) {
    0x80 <= b <= 0xBF
  }

  /**
    Well-formed UTF-8 as Table 3-7 of the Unicode Standard (and section 4 of
    RFC 3629) lays it out: no overlong forms, no surrogates, nothing above
    U+10FFFF. This is the check `String::from_utf8` makes.
   */
  predicate IsUtf8(s: seq<byte>)
    decreases |s|
  {
    if s == [] then true
    else if s[0] < 0x80 then IsUtf8(s[1..])
    else if 0xC2 <= s[0] <= 0xDF then
      |s| >= 2 && IsContinuation(s[1]) && IsUtf8(s[2..])
    else if 0xE0 <= s[0] <= 0xEF then
      && |s| >= 3
      && (if s[0] == 0xE0 then 0xA0 <= s[1] <= 0xBF
          else if s[0] == 0xED then 0x80 <= s[1] <= 0x9F
          else IsContinuation(s[1]))
      && IsContinuation(s[2])
      && IsUtf8(s[3..])
    else if 0xF0 <= s[0] <= 0xF4 then
      && |s| >= 4
      && (if s[0] == 0xF0 then 0x90 <= s[1] <= 0xBF
          else if s[0] == 0xF4 then 0x80 <= s[1] <= 0x8F
          else IsContinuation(s[1]))
      && IsContinuation(s[2])
      && IsContinuation(s[3])
      && IsUtf8(s[4..])
    else false
  }
}
