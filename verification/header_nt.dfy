/**
  The `NT` header: the notification type of a NOTIFY message. The whole value
  is one `FieldMap`; a double colon is not a separator here.
 */
module NtHeader {
  import opened Wrappers
  import opened Bytes
  import opened Field

  const NT_HEADER_NAME: string := "NT"

  datatype NT = NT(field: FieldMap)

  function ParseHeader(raw: seq<seq<byte>>): (r: Option<NT>)
    ensures |raw| != 1 ==> r.None?
    // what is accepted is written back byte for byte, and comes from a well-formed field
    ensures r.Some? ==> FmtHeader(r.value) == raw[0] && r.value.field.WellFormed()
  {
    if |raw| != 1 then None
    else match New(raw[0])
      case Some(n) => Some(NT(n))
      case None => None
  }

  /** Exactly the `FieldMap` display. */
  function FmtHeader(nt: NT): seq<byte> {
    Display(nt.field)
  }

  /** A well-formed notification type is written and read back unchanged. */
  lemma RoundTrip(nt: NT)
    requires nt.field.WellFormed()
    ensures ParseHeader([FmtHeader(nt)]) == Some(nt)
  {
    NewDisplay(nt.field);
  }

  /** After `uuid:` a second colon belongs to the value: `uuid::abc` is the UUID `:abc`. */
  lemma DoubleColonIsNotSeparator(v: seq<byte>)
    ensures ParseHeader([UUID_PREFIX + [COLON] + ([COLON] + v)]) == Some(NT(UUID([COLON] + v)))
  {
    KeyTagging(UUID_PREFIX, [COLON] + v);
  }

  /** `max-age:1500::upnp:rootdevice` is one unknown pair whose value keeps the rest of the text. */
  lemma UnknownKeepsRest()
    ensures ParseHeader([Ascii("max-age:1500::upnp:rootdevice")])
         == Some(NT(Unknown(Ascii("max-age"), Ascii("1500::upnp:rootdevice"))))
  {
    var key, value := Ascii("max-age"), Ascii("1500::upnp:rootdevice");
    assert Ascii("max-age:1500::upnp:rootdevice") == key + [COLON] + value;
    assert key != UUID_PREFIX && key != URN_PREFIX && key != UPNP_PREFIX;
    KeyTagging(key, value);
  }

  /** The minimal `a:a` is accepted as an unknown pair. */
  lemma ShortField()
    ensures ParseHeader([Ascii("a:a")]) == Some(NT(Unknown(Ascii("a"), Ascii("a"))))
  {
    assert Ascii("a:a") == Ascii("a") + [COLON] + Ascii("a");
    KeyTagging(Ascii("a"), Ascii("a"));
  }

  /** The empty value, `:`, `::` and a value without a colon are rejected. */
  lemma Rejections()
    ensures ParseHeader([[]]) == None
    ensures ParseHeader([[COLON]]) == None
    ensures ParseHeader([[COLON, COLON]]) == None
    ensures ParseHeader([Ascii("some_key-some_value")]) == None
  {
    assert COLON !in Ascii("some_key-some_value");
  }
}
