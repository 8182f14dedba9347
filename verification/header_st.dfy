/** The `ST` header: the search target of an M-SEARCH request or its response. */
module StHeader {
  import opened Wrappers
  import opened Bytes
  import opened Field

  const ST_HEADER_NAME: string := "ST"
  const ST_ALL_VALUE: seq<byte> := Ascii("ssdp:all")

  /** Every device and service (`ssdp:all`), or one target named by a field. */
  datatype ST = All | Target(field: FieldMap)

  /** `ssdp:all` is checked first; any other value must be a `FieldMap`. */
  function ParseHeader(raw: seq<seq<byte>>): (r: Option<ST>)
    ensures |raw| != 1 ==> r.None?
    ensures |raw| == 1 && raw[0] == ST_ALL_VALUE ==> r == Some(All)
    // what is accepted is written back byte for byte
    ensures r.Some? ==> FmtHeader(r.value) == raw[0]
    ensures r.Some? && r.value.Target? ==> r.value.field.WellFormed()
  {
    if |raw| != 1 then None
    else if raw[0] == ST_ALL_VALUE then Some(All)
    else match New(raw[0])
      case Some(f) => Some(Target(f))
      case None => None
  }

  function FmtHeader(st: ST): seq<byte> {
    match st
    case All => ST_ALL_VALUE
    case Target(f) => Display(f)
  }

  /** The one well-formed target that displays as `ssdp:all`. */
  const SSDP_ALL_FIELD: FieldMap := Unknown(Ascii("ssdp"), Ascii("all"))

  /** `All` and every well-formed target other than `ssdp`/`all` are written and read back unchanged. */
  lemma RoundTrip(st: ST)
    requires st.Target? ==> st.field.WellFormed() && st.field != SSDP_ALL_FIELD
    ensures ParseHeader([FmtHeader(st)]) == Some(st)
  {
    if st.Target? {
      NewDisplay(st.field);
      SsdpAllTargetBecomesAll();
      // `New` reads `ssdp:all` back as SSDP_ALL_FIELD, so no other field displays as it
      assert Display(st.field) != ST_ALL_VALUE;
    }
  }

  /** The unknown pair `ssdp`/`all` is written as `ssdp:all`, which reads back as `All`. */
  lemma SsdpAllTargetBecomesAll()
    ensures SSDP_ALL_FIELD.WellFormed()
    ensures New(ST_ALL_VALUE) == Some(SSDP_ALL_FIELD)
    ensures ParseHeader([FmtHeader(Target(SSDP_ALL_FIELD))]) == Some(All)
  {
    assert Ascii("ssdp")[0] != UUID_PREFIX[0] && |Ascii("ssdp")| != |URN_PREFIX| && Ascii("ssdp")[0] != UPNP_PREFIX[0];
    assert Display(SSDP_ALL_FIELD) == ST_ALL_VALUE;
    NewDisplay(SSDP_ALL_FIELD);
  }

  /** A value that does not start like `ssdp:all` is parsed as a `FieldMap` alone. */
  lemma NotAllIsTarget(s: seq<byte>)
    requires |s| > 0 && s[0] != ST_ALL_VALUE[0]
    ensures ParseHeader([s]) == (if New(s).Some? then Some(Target(New(s).value)) else None)
  {
  }

  /** A `key:value` pair whose key does not start with `s` is always a target, tagged by `New`. */
  lemma KeyedTarget(key: seq<byte>, v: seq<byte>)
    requires key != [] && COLON !in key && v != []
    requires key[0] != ST_ALL_VALUE[0]
    ensures New(key + [COLON] + v).Some?
    ensures ParseHeader([key + [COLON] + v]) == Some(Target(New(key + [COLON] + v).value))
  {
    KeyTagging(key, v);
    NotAllIsTarget(key + [COLON] + v);
  }

  /** The `uuid` key gives a UUID target (none of the known keys starts with the `s` of `ssdp:all`). */
  lemma UuidTarget(v: seq<byte>)
    requires v != []
    ensures ParseHeader([UUID_PREFIX + [COLON] + v]) == Some(Target(UUID(v)))
  {
    assert ST_ALL_VALUE[0] == 115 && UUID_PREFIX[0] == 117;
    KeyTagging(UUID_PREFIX, v);
    KeyedTarget(UUID_PREFIX, v);
  }

  /** The `urn` key gives a URN target. */
  lemma UrnTarget(v: seq<byte>)
    requires v != []
    ensures ParseHeader([URN_PREFIX + [COLON] + v]) == Some(Target(URN(v)))
  {
    assert ST_ALL_VALUE[0] == 115 && URN_PREFIX[0] == 117;
    KeyTagging(URN_PREFIX, v);
    KeyedTarget(URN_PREFIX, v);
  }

  /** The `upnp` key gives a UPnP target. */
  lemma UpnpTarget(v: seq<byte>)
    requires v != []
    ensures ParseHeader([UPNP_PREFIX + [COLON] + v]) == Some(Target(UPnP(v)))
  {
    assert ST_ALL_VALUE[0] == 115 && UPNP_PREFIX[0] == 117;
    KeyTagging(UPNP_PREFIX, v);
    KeyedTarget(UPNP_PREFIX, v);
  }
}
