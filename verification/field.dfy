/**
  `FieldMap`: the `key:value` pairs carried inside the NT, ST and USN header
  values (UPnP Device Architecture 1.1, section 1).
 */
module Field {
  import opened Wrappers
  import opened Bytes

  const UPNP_PREFIX: seq<byte> := Ascii("upnp")
  const UUID_PREFIX: seq<byte> := Ascii("uuid")
  const URN_PREFIX: seq<byte> := Ascii("urn")

  /** A key and its value; the three keys UPnP defines get their own variant. */
  datatype FieldMap =
    | UPnP(value: seq<byte>)
    | UUID(value: seq<byte>)
    | URN(value: seq<byte>)
    | Unknown(key: seq<byte>, value: seq<byte>)
  {
    /** The key the field is written with. */
    function Key(): seq<byte> {
      match this
      case UPnP(_) => UPNP_PREFIX
      case UUID(_) => UUID_PREFIX
      case URN(_) => URN_PREFIX
      case Unknown(k, _) => k
    }

    /**
      The fields `New` can produce: a non-empty key without a colon, a
      non-empty value, and an `Unknown` key that is none of the three known ones.
     */
    predicate WellFormed() {
      && Key() != []
      && COLON !in Key()
      && value != []
      && (Unknown? ==> key != UUID_PREFIX && key != URN_PREFIX && key != UPNP_PREFIX)
    }
  }

  predicate MatchesUuidKey(key: seq<byte>) {
    UUID_PREFIX == key
  }

  predicate MatchesUrnKey(key: seq<byte>) {
    URN_PREFIX == key
  }

  predicate MatchesUpnpKey(key: seq<byte>) {
    UPNP_PREFIX == key
  }

  /**
    `FieldMap::new`: split at the first colon; reject an empty key or an
    empty value; tag the keys `uuid`, `urn` and `upnp` (byte-equal).
   */
  function New(field: seq<byte>): (r: Option<FieldMap>)
    // rejected exactly when there is no colon, the key is empty, or the value is empty
    ensures r.None? <==>
              || COLON !in field
              || field[0] == COLON
              || (field[|field| - 1] == COLON && COLON !in field[..|field| - 1])
    // an accepted field is written back byte for byte
    ensures r.Some? ==> Display(r.value) == field
    ensures r.Some? ==> r.value.WellFormed()
  {
    match FirstIndexOf(field, COLON)
    case None => None
    case Some(splitIndex) =>
      var key := field[..splitIndex];
      var value := field[splitIndex + 1..];
      if |key| == 0 || |value| == 0 then
        None
      else
        assert field == key + [COLON] + value;
        if MatchesUuidKey(key) then Some(UUID(value))
        else if MatchesUrnKey(key) then Some(URN(value))
        else if MatchesUpnpKey(key) then Some(UPnP(value))
        else Some(Unknown(key, value))
  }

  /** `Display for FieldMap`: the key, a colon, then the value. */
  function Display(f: FieldMap): (r: seq<byte>)
    ensures |r| == |f.Key()| + 1 + |f.value|
  {
    f.Key() + [COLON] + f.value
  }

  /** A well-formed field survives display and re-parsing unchanged. */
  lemma NewDisplay(f: FieldMap)
    requires f.WellFormed()
    ensures New(Display(f)) == Some(f)
  {
    var s := Display(f);
    assert s[|f.Key()|] == COLON;
    assert s[..|f.Key()|] == f.Key();
    assert COLON in s;
    var k := FirstIndexOf(s, COLON).value;
    assert k == |f.Key()|;
    assert s[k + 1..] == f.value;
  }

  /** `New` and `Display` are inverse bijections between accepted inputs and well-formed fields. */
  lemma NewIffDisplay(field: seq<byte>, f: FieldMap)
    ensures New(field) == Some(f) <==> f.WellFormed() && Display(f) == field
  {
    if f.WellFormed() && Display(f) == field {
      NewDisplay(f);
    }
  }

  /** The three known keys are different byte strings. */
  lemma KnownKeysDistinct()
    ensures UUID_PREFIX != URN_PREFIX && UUID_PREFIX != UPNP_PREFIX && URN_PREFIX != UPNP_PREFIX
  {
    assert UUID_PREFIX == [117, 117, 105, 100];
    assert URN_PREFIX == [117, 114, 110];
    assert UPNP_PREFIX == [117, 112, 110, 112];
  }

  /** The key decides the variant: exactly `uuid`, `urn` or `upnp`, case-sensitively, else `Unknown`; the value is kept verbatim. */
  lemma KeyTagging(key: seq<byte>, value: seq<byte>)
    requires key != [] && COLON !in key && value != []
    ensures New(key + [COLON] + value).Some?
    ensures New(key + [COLON] + value).value.value == value
    ensures key == UUID_PREFIX ==> New(key + [COLON] + value) == Some(UUID(value))
    ensures key == URN_PREFIX ==> New(key + [COLON] + value) == Some(URN(value))
    ensures key == UPNP_PREFIX ==> New(key + [COLON] + value) == Some(UPnP(value))
    ensures key != UUID_PREFIX && key != URN_PREFIX && key != UPNP_PREFIX ==>
              New(key + [COLON] + value) == Some(Unknown(key, value))
  {
    KnownKeysDistinct();
    if key == UUID_PREFIX {
      NewDisplay(UUID(value));
    } else if key == URN_PREFIX {
      NewDisplay(URN(value));
    } else if key == UPNP_PREFIX {
      NewDisplay(UPnP(value));
    } else {
      NewDisplay(Unknown(key, value));
    }
  }
}
