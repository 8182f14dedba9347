/** The `MX` header: the most seconds a device may wait before answering an M-SEARCH. */
module MxHeader {
  import opened Wrappers
  import opened Bytes
  import opened Decimal
  import opened Errors

  const MX_HEADER_NAME: string := "MX"

  /** Minimum wait time of the UPnP 1.0 standard. */
  const MX_HEADER_MIN: byte := 1
  /** Maximum wait time of the UPnP 1.0 standard. */
  const MX_HEADER_MAX: byte := 120

  datatype MX = MX(wait: byte)

  /** `MX::new`: accepts a wait bound in [1, 120], any other is an `InvalidHeader` error. */
  function New(waitBound: byte): (r: Result<MX, SsdpError>)
    ensures r.Ok? <==> MX_HEADER_MIN <= waitBound <= MX_HEADER_MAX
    ensures r.Ok? ==> r.value.wait == waitBound
    ensures r.Err? ==> r.error == InvalidHeader(MX_HEADER_NAME, "Supplied Wait Bound Is Out Of Bounds")
  {
    if waitBound < MX_HEADER_MIN || waitBound > MX_HEADER_MAX then
      Err(InvalidHeader(MX_HEADER_NAME, "Supplied Wait Bound Is Out Of Bounds"))
    else
      Ok(MX(waitBound))
  }

  /** Accepted exactly when the value is a decimal `u8` in [1, 120]. */
  function ParseHeader(raw: seq<seq<byte>>): (r: Option<MX>)
    ensures r.Some? <==> |raw| == 1 && ParseInt(raw[0], U8).Some? && 1 <= ParseInt(raw[0], U8).value <= 120
    ensures r.Some? ==> r.value.wait == ParseInt(raw[0], U8).value
    // a parsed MX satisfies exactly the bounds `MX::new` enforces
    ensures r.Some? ==> New(r.value.wait) == Ok(r.value)
  {
    if |raw| != 1 then None
    else match ParseInt(raw[0], U8)
      case Some(n) =>
        if n >= MX_HEADER_MIN && n <= MX_HEADER_MAX then Some(MX(n)) else None
      case None => None
  }

  function FmtHeader(mx: MX): seq<byte> {
    Format(mx.wait)
  }

  /** An in-range MX is written in decimal and read back unchanged. */
  lemma RoundTrip(mx: MX)
    requires MX_HEADER_MIN <= mx.wait <= MX_HEADER_MAX
    ensures ParseHeader([FmtHeader(mx)]) == Some(mx)
  {
    ParseFormat(mx.wait, U8);
  }

  /** An out-of-range MX is written but not read back. */
  lemma OutOfRangeRejected(mx: MX)
    requires mx.wait < MX_HEADER_MIN || mx.wait > MX_HEADER_MAX
    ensures ParseHeader([FmtHeader(mx)]) == None
  {
    ParseFormat(mx.wait, U8);
  }

  /** 1, 5 and 120 are accepted. */
  lemma AcceptedExamples()
    ensures ParseHeader([Ascii("1")]) == Some(MX(1))
    ensures ParseHeader([Ascii("5")]) == Some(MX(5))
    ensures ParseHeader([Ascii("120")]) == Some(MX(120))
  {
    assert Ascii("1") == Format(1);
    assert Ascii("5") == Format(5);
    assert Ascii("120") == Format(120);
    RoundTrip(MX(1));
    RoundTrip(MX(5));
    RoundTrip(MX(120));
  }

  /** 0 and 121 are out of range; `-5` and `0.5` are not `u8` numerals. */
  lemma RejectedExamples()
    ensures ParseHeader([Ascii("0")]) == None
    ensures ParseHeader([Ascii("121")]) == None
    ensures ParseHeader([Ascii("-5")]) == None
    ensures ParseHeader([Ascii("0.5")]) == None
  {
    assert Ascii("0") == Format(0);
    assert Ascii("121") == Format(121);
    OutOfRangeRejected(MX(0));
    OutOfRangeRejected(MX(121));
    UnsignedRejectsMinus(Ascii("-5"), U8);
    NonDigitRejected(Ascii("0.5"), 1, U8);
  }
}
