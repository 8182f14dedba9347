/** The `BOOTID.UPNP.ORG` header: the boot instance of a root device, a 31-bit non-negative integer. */
module BootIdHeader {
  import opened Wrappers
  import opened Bytes
  import opened Decimal

  const BOOTID_HEADER_NAME: string := "BOOTID.UPNP.ORG"

  /** The field is a `u32`, although only values up to 2^31-1 are ever parsed. */
  datatype BootID = BootID(id: u32)

  /** The value is read as a decimal `i32`; a negative value is rejected, `-0` reads as 0. */
  function ParseHeader(raw: seq<seq<byte>>): (r: Option<BootID>)
    ensures r.Some? <==> |raw| == 1 && ParseInt(raw[0], I32).Some? && ParseInt(raw[0], I32).value >= 0
    ensures r.Some? ==> r.value.id == ParseInt(raw[0], I32).value <= 0x7FFF_FFFF
  {
    if |raw| != 1 then None
    else match ParseInt(raw[0], I32)
      case None => None
      case Some(value) => if value < 0 then None else Some(BootID(value))
  }

  function FmtHeader(b: BootID): seq<byte> {
    Format(b.id)
  }

  /** Every boot id up to 2^31-1 is written in decimal and read back unchanged. */
  lemma RoundTrip(b: BootID)
    requires b.id <= 0x7FFF_FFFF
    ensures ParseHeader([FmtHeader(b)]) == Some(b)
  {
    ParseFormat(b.id, I32);
  }

  /** A boot id above 2^31-1 fits the `u32` field but does not read back. */
  lemma LargeIdDoesNotReparse(b: BootID)
    requires b.id > 0x7FFF_FFFF
    ensures ParseHeader([FmtHeader(b)]) == None
  {
    OverflowRejected(b.id, I32);
  }

  /** A minus sign in front of a non-zero value is rejected; `-0` is accepted as 0. */
  lemma SignHandling(n: nat)
    requires 0 < n <= 0x8000_0000
    ensures ParseHeader([[MINUS] + Format(n)]) == None
    ensures ParseHeader([[MINUS] + Format(0)]) == Some(BootID(0))
  {
    MinusAccepted(n, I32);
    MinusAccepted(0, I32);
  }

  /** A value with a byte that is neither a digit nor a leading sign (`2290wow649224`) is rejected. */
  lemma NonNumericRejected(s: seq<byte>, i: nat)
    requires i < |s| && !IsDigit(s[i]) && (i > 0 || (s[i] != PLUS && s[i] != MINUS))
    ensures ParseHeader([s]) == None
  {
    NonDigitRejected(s, i, I32);
  }

  /** Leading zeros are accepted. */
  lemma LeadingZeros(z: nat, b: BootID)
    requires b.id <= 0x7FFF_FFFF
    ensures ParseHeader([seq(z, _ => ZERO) + FmtHeader(b)]) == Some(b)
  {
    LeadingZerosAccepted(z, b.id, I32);
  }
}
