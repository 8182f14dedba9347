/** The `NTS` header: the notification sub type of a NOTIFY message. */
module NtsHeader {
  import opened Wrappers
  import opened Bytes

  const NTS_HEADER_NAME: string := "NTS"

  const ALIVE_HEADER: seq<byte> := Ascii("ssdp:alive")
  const UPDATE_HEADER: seq<byte> := Ascii("ssdp:update")
  const BYEBYE_HEADER: seq<byte> := Ascii("ssdp:byebye")

  /** An entity announces itself, updates its presence, or leaves the network. */
  datatype NTS = Alive | Update | ByeBye

  /** Exactly one of the three literals, byte for byte; anything else is rejected. */
  function ParseHeader(raw: seq<seq<byte>>): (r: Option<NTS>)
    ensures r.Some? <==> |raw| == 1 && raw[0] in {ALIVE_HEADER, UPDATE_HEADER, BYEBYE_HEADER}
    ensures r.Some? ==> FmtHeader(r.value) == raw[0]
  {
    if |raw| != 1 then None
    else if raw[0] == ALIVE_HEADER then Some(Alive)
    else if raw[0] == UPDATE_HEADER then Some(Update)
    else if raw[0] == BYEBYE_HEADER then Some(ByeBye)
    else None
  }

  function FmtHeader(nts: NTS): seq<byte> {
    match nts
    case Alive => ALIVE_HEADER
    case Update => UPDATE_HEADER
    case ByeBye => BYEBYE_HEADER
  }

  /** Every sub type is written as a literal that parses back to it. */
  lemma RoundTrip(nts: NTS)
    ensures ParseHeader([FmtHeader(nts)]) == Some(nts)
  {
    assert ALIVE_HEADER != UPDATE_HEADER && ALIVE_HEADER != BYEBYE_HEADER;
    assert UPDATE_HEADER[5] != BYEBYE_HEADER[5];
  }

  /** Extra bytes, an unknown suffix, the empty value and a bare `ssdp:` are rejected. */
  lemma Rejections()
    ensures ParseHeader([Ascii("ssdp:alive_someotherbytes")]) == None
    ensures ParseHeader([Ascii("ssdp:somestring")]) == None
    ensures ParseHeader([[]]) == None
    ensures ParseHeader([Ascii("ssdp:")]) == None
  {
    assert Ascii("ssdp:somestring")[5] != BYEBYE_HEADER[5];
  }
}
