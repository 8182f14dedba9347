/** The `SEARCHPORT.UPNP.ORG` header: the unicast port a device answers searches on. */
module SearchPortHeader {
  import opened Wrappers
  import opened Bytes
  import opened Decimal

  const SEARCHPORT_HEADER_NAME: string := "SEARCHPORT.UPNP.ORG"

  /** Ports below this value are reserved; the header must name one at or above it. */
  const SEARCHPORT_MIN_VALUE: u16 := 49152

  datatype SearchPort = SearchPort(port: u16)

  /** Accepted exactly when the value is a decimal `u16` of at least 49152. */
  function ParseHeader(raw: seq<seq<byte>>): (r: Option<SearchPort>)
    ensures r.Some? <==> |raw| == 1 && ParseInt(raw[0], U16).Some? && ParseInt(raw[0], U16).value >= SEARCHPORT_MIN_VALUE
    ensures r.Some? ==> SEARCHPORT_MIN_VALUE <= r.value.port == ParseInt(raw[0], U16).value
  {
    if |raw| != 1 then None
    else match ParseInt(raw[0], U16)
      case None => None
      case Some(value) => if value >= SEARCHPORT_MIN_VALUE then Some(SearchPort(value)) else None
  }

  function FmtHeader(p: SearchPort): seq<byte> {
    Format(p.port)
  }

  /** A port of at least 49152 is written in decimal and read back unchanged; a lower one is not read back. */
  lemma RoundTrip(p: SearchPort)
    ensures ParseHeader([FmtHeader(p)]) == (if p.port >= SEARCHPORT_MIN_VALUE then Some(p) else None)
  {
    ParseFormat(p.port, U16);
  }

  /** 49152 and 65535 are accepted; 49151 and 65536 are rejected. */
  lemma Examples()
    ensures ParseHeader([Format(49152)]) == Some(SearchPort(49152))
    ensures ParseHeader([Format(65535)]) == Some(SearchPort(65535))
    ensures ParseHeader([Format(49151)]) == None
    ensures ParseHeader([Format(65536)]) == None
  {
    ParseFormat(49152, U16);
    ParseFormat(65535, U16);
    ParseFormat(49151, U16);
    OverflowRejected(65536, U16);
  }

  /** A value with a byte that is neither a digit nor a leading sign (`49151a`) is rejected. */
  lemma NonNumericRejected(s: seq<byte>, i: nat)
    requires i < |s| && !IsDigit(s[i]) && (i > 0 || (s[i] != PLUS && s[i] != MINUS))
    ensures ParseHeader([s]) == None
  {
    NonDigitRejected(s, i, U16);
  }
}
