/** The `SECURELOCATION.UPNP.ORG` header: a secure URL of a device's description, used instead of LOCATION. */
module SecureLocationHeader {
  import opened Wrappers
  import opened Bytes

  const SECURELOCATION_HEADER_NAME: string := "SECURELOCATION.UPNP.ORG"

  /** A Rust `String`: its bytes are always valid UTF-8. */
  type Utf8String = s: seq<byte> | IsUtf8(s)

  datatype SecureLocation = SecureLocation(url: Utf8String)

  /** Any non-empty UTF-8 value is accepted verbatim; the URL itself is not checked. */
  function ParseHeader(raw: seq<seq<byte>>): (r: Option<SecureLocation>)
    ensures r.Some? <==> |raw| == 1 && raw[0] != [] && IsUtf8(raw[0])
    ensures r.Some? ==> r.value.url == raw[0]
  {
    if |raw| != 1 || raw[0] == [] then None
    else if IsUtf8(raw[0]) then Some(SecureLocation(raw[0]))
    else None
  }

  function FmtHeader(loc: SecureLocation): seq<byte> {
    loc.url
  }

  /** A non-empty location is written unchanged and read back; the empty one is not read back. */
  lemma RoundTrip(loc: SecureLocation)
    ensures ParseHeader([FmtHeader(loc)]) == (if loc.url != [] then Some(loc) else None)
  {
  }

  /** A value that is not UTF-8 (a lone 0x80 byte at the end) is rejected. */
  lemma InvalidUtf8Rejected(s: seq<byte>)
    requires IsUtf8(s)
    ensures ParseHeader([s + [0x80]]) == None
    decreases |s|
  {
    InvalidTail(s);
  }

  lemma {:induction false} InvalidTail(s: seq<byte>)
    requires IsUtf8(s)
    ensures !IsUtf8(s + [0x80])
    decreases |s|
  {
    var t := s + [0x80];
    if s != [] {
      var n := if s[0] < 0x80 then 1 else if s[0] <= 0xDF then 2 else if s[0] <= 0xEF then 3 else 4;
      assert |s| >= n && IsUtf8(s[n..]);
      assert t[n..] == s[n..] + [0x80];
      assert forall i | 0 <= i < n :: t[i] == s[i];
      InvalidTail(s[n..]);
    }
  }
}
