/** The `MAN` header of an M-SEARCH request: always `"ssdp:discover"`, quotes included. */
module ManHeader {
  import opened Wrappers
  import opened Bytes

  const MAN_HEADER_NAME: string := "MAN"
  const MAN_HEADER_VALUE: seq<byte> := Ascii("\"ssdp:discover\"")

  /** The header carries no data: its one value is the literal. */
  datatype Man = Man

  function ParseHeader(raw: seq<seq<byte>>): (r: Option<Man>)
    ensures r.Some? <==> |raw| == 1 && raw[0] == MAN_HEADER_VALUE
  {
    if |raw| != 1 then None
    else if raw[0] == MAN_HEADER_VALUE then Some(Man)
    else None
  }

  function FmtHeader(man: Man): seq<byte> {
    MAN_HEADER_VALUE
  }

  /** The literal written is the literal accepted. */
  lemma RoundTrip(man: Man)
    ensures ParseHeader([FmtHeader(man)]) == Some(man)
  {
  }

  /** Comparison is case-sensitive and the quotes are required. */
  lemma Rejections()
    ensures ParseHeader([Ascii("\"SSDP:discover\"")]) == None
    ensures ParseHeader([Ascii("ssdp:discover")]) == None
  {
    assert Ascii("\"SSDP:discover\"")[1] != MAN_HEADER_VALUE[1];
  }
}
