/**
  SSDP messages: the checks that turn a parsed HTTP request or response into
  a NOTIFY, M-SEARCH or search-response message, and the message object with
  its mutable header store.

  The HTTP parser itself is not modelled: its output is the `RequestParts` or
  `ResponseParts` value below, and the parser is a function parameter.
 */
module Ssdp {
  import opened Wrappers
  import opened Bytes
  import opened Errors
  import TypedHeader

  /** The only status code a search response may carry. */
  const VALID_RESPONSE_CODE: u16 := 200

  /** Case-sensitive method names. */
  const NOTIFY_METHOD: string := "NOTIFY"
  const SEARCH_METHOD: string := "M-SEARCH"

  /** The name of the HTTP `Host` header, the one header every request must carry. */
  const HOST_HEADER_NAME: string := "Host"

  datatype MessageType = Notify | Search | Response

  datatype HttpVersion = Http09 | Http10 | Http11 | Http20

  /** The methods the HTTP parser knows by name; any other name is an extension method. */
  datatype Method =
    | Options | Get | Post | Put | Delete | Head | Trace | Connect | Patch
    | Extension(name: string)

  /** The written name of a method. */
  function MethodName(m: Method): string {
    match m
    case Options => "OPTIONS"
    case Get => "GET"
    case Post => "POST"
    case Put => "PUT"
    case Delete => "DELETE"
    case Head => "HEAD"
    case Trace => "TRACE"
    case Connect => "CONNECT"
    case Patch => "PATCH"
    case Extension(n) => n
  }

  /** The four forms of a Request-URI (section 5.1.2 of RFC 2616). */
  datatype RequestUri =
    | AbsolutePath(path: string)
    | AbsoluteUri(url: string)
    | Authority(authority: string)
    | Star

  /** The text of a Request-URI other than `*`. */
  function UriText(u: RequestUri): string
    requires !u.Star?
  {
    match u
    case AbsolutePath(n) => n
    case AbsoluteUri(n) => n
    case Authority(n) => n
  }

  // ---------------------------------------------------------------------------
  // header store

  /** A string with no ASCII capital letter. */
  predicate IsLowerAscii(s: string) {
    forall i | 0 <= i < |s| :: !('A' <= s[i] <= 'Z')
  }

  /**
    Raw header values by name. Names are compared without regard to ASCII case,
    so each header is kept under the lower-cased spelling of its name: one entry
    per header, whatever spelling it was written or looked up with.
   */
  type HeaderMap = m: map<string, seq<seq<byte>>> | forall k | k in m :: IsLowerAscii(k)

  function LowerChar(c: char): char {
    if 'A' <= c <= 'Z' then (c as int + 32) as char else c
  }

  /**
    ASCII lower-casing, the case folding header names are compared under: it
    leaves no capital letter, keeps the length, and changes nothing in a string
    that has none.
   */
  function LowerAscii(s: string): (r: string)
    ensures |r| == |s|
    ensures IsLowerAscii(r)
    ensures IsLowerAscii(s) ==> r == s
  {
    seq(|s|, i requires 0 <= i < |s| => LowerChar(s[i]))
  }

  /** Lower-casing twice is lower-casing once. */
  lemma LowerAsciiIdempotent(s: string)
    ensures LowerAscii(LowerAscii(s)) == LowerAscii(s)
  {
  }

  /** Two characters that are the same letter, or the same character, up to ASCII case. */
  predicate SameUpToCase(c: char, d: char) {
    || c == d
    || ('A' <= c <= 'Z' && d as int == c as int + 32)
    || ('A' <= d <= 'Z' && c as int == d as int + 32)
  }

  /** Two names get the same key exactly when they agree character by character up to ASCII case. */
  lemma LowerAsciiEqualIff(a: string, b: string)
    ensures LowerAscii(a) == LowerAscii(b) <==>
              |a| == |b| && forall i | 0 <= i < |a| :: SameUpToCase(a[i], b[i])
  {
    if |a| == |b| {
      forall i | 0 <= i < |a|
        ensures LowerAscii(a)[i] == LowerAscii(b)[i] <==> SameUpToCase(a[i], b[i])
      {
      }
      if forall i | 0 <= i < |a| :: SameUpToCase(a[i], b[i]) {
        assert LowerAscii(a) == LowerAscii(b);
      }
    }
  }

  /** The key a header name is stored under. */
  function HeaderKey(name: string): string {
    LowerAscii(name)
  }

  /** `get_raw`: the raw values stored under a name, in any letter case. */
  function Lookup(headers: HeaderMap, name: string): Option<seq<seq<byte>>> {
    if HeaderKey(name) in headers then Some(headers[HeaderKey(name)]) else None
  }

  /** `set_raw`: replace whatever is stored under the name. */
  function Store(headers: HeaderMap, name: string, value: seq<seq<byte>>): HeaderMap {
    headers[HeaderKey(name) := value]
  }

  /** Typed `set`: store the header's written form under its name. */
  function StoreTyped(headers: HeaderMap, h: TypedHeader.Header): HeaderMap {
    Store(headers, h.Kind().Name(), [TypedHeader.Format(h)])
  }

  /** Typed `get`: the header of the kind asked for, read from its raw value. */
  function GetTyped(headers: HeaderMap, kind: TypedHeader.HeaderKind): Option<TypedHeader.Header> {
    match Lookup(headers, kind.Name())
    case None => None
    case Some(raw) => TypedHeader.Parse(kind, raw)
  }

  /** A raw value stored under one spelling of a name is found under every other spelling; other names are untouched. */
  lemma StoreLookup(headers: HeaderMap, name: string, other: string, value: seq<seq<byte>>)
    ensures LowerAscii(other) == LowerAscii(name) ==> Lookup(Store(headers, name, value), other) == Some(value)
    ensures LowerAscii(other) != LowerAscii(name) ==> Lookup(Store(headers, name, value), other) == Lookup(headers, other)
  {
  }

  /**
    A Host header stored under the spelling `HOST` is the one the decoder looks
    up as `Host`, and a message that carries it that way is accepted.
   */
  lemma HostNameIgnoresCase(headers: HeaderMap, value: seq<seq<byte>>)
    ensures HeaderKey("HOST") == HeaderKey(HOST_HEADER_NAME) == "host"
    ensures Lookup(Store(headers, "HOST", value), HOST_HEADER_NAME) == Some(value)
    ensures |value| == 1 && value[0] != [] && IsUtf8(value[0]) ==> HostPresent(Store(headers, "HOST", value))
    ensures |value| == 1 && value[0] != [] && IsUtf8(value[0]) ==>
              MessageFromRequest(RequestParts(Http11, Extension(NOTIFY_METHOD), Star, Store(headers, "HOST", value)))
                == Ok(Message(Notify, Store(headers, "HOST", value)))
  {
    assert LowerAscii("HOST") == "host";
    assert LowerAscii(HOST_HEADER_NAME) == "host";
  }

  /** A typed header that its codec writes back is read back by a typed lookup; other kinds of header are not disturbed. */
  lemma StoreTypedGet(headers: HeaderMap, h: TypedHeader.Header, kind: TypedHeader.HeaderKind)
    requires h.Reparses()
    ensures kind == h.Kind() ==> GetTyped(StoreTyped(headers, h), kind) == Some(h)
    ensures LowerAscii(kind.Name()) != LowerAscii(h.Kind().Name()) ==>
              GetTyped(StoreTyped(headers, h), kind) == GetTyped(headers, kind)
  {
    StoreLookup(headers, h.Kind().Name(), kind.Name(), [TypedHeader.Format(h)]);
    if kind == h.Kind() {
      TypedHeader.FormatParse(h);
    }
  }

  /**
    The message carries a Host header: exactly one non-empty UTF-8 value under
    the name `Host`.
   */
  predicate HostPresent(headers: HeaderMap) {
    match Lookup(headers, HOST_HEADER_NAME)
    case None => false
    case Some(raw) => |raw| == 1 && raw[0] != [] && IsUtf8(raw[0])
  }

  // ---------------------------------------------------------------------------
  // decoding

  /** What the HTTP parser hands over for a request. */
  datatype RequestParts = RequestParts(version: HttpVersion, verb: Method, uri: RequestUri, headers: HeaderMap)

  /** What the HTTP parser hands over for a response. */
  datatype ResponseParts = ResponseParts(version: HttpVersion, code: u16, reason: string, headers: HeaderMap)

  /** The value of an SSDP message: its type and its headers. */
  datatype Message = Message(kind: MessageType, headers: HeaderMap)

  function ValidateHttpVersion(version: HttpVersion): (r: Result<(), SsdpError>)
    ensures r.Ok? <==> version == Http11
    ensures r.Err? ==> r.error == InvalidHttpVersion
  {
    if version != Http11 then Err(InvalidHttpVersion) else Ok(())
  }

  function ValidateHttpHost(headers: HeaderMap): (r: Result<(), SsdpError>)
    ensures r.Ok? <==> HostPresent(headers)
    ensures r.Err? ==> r.error == MissingHeader(HOST_HEADER_NAME)
  {
    if !HostPresent(headers) then Err(MissingHeader(HOST_HEADER_NAME)) else Ok(())
  }

  function ValidateResponseCode(code: u16): (r: Result<(), SsdpError>)
    ensures r.Ok? <==> code == VALID_RESPONSE_CODE
    ensures r.Err? ==> r.error == ResponseCode(code)
  {
    if code != VALID_RESPONSE_CODE then Err(ResponseCode(code)) else Ok(())
  }

  /**
    `message_from_request`: the version is checked first, then the Host
    header, then the method and Request-URI.
   */
  function MessageFromRequest(parts: RequestParts): (r: Result<Message, SsdpError>)
    ensures parts.version != Http11 ==> r == Err(InvalidHttpVersion)
    ensures parts.version == Http11 && !HostPresent(parts.headers) ==> r == Err(MissingHeader(HOST_HEADER_NAME))
    // accepted exactly for NOTIFY or M-SEARCH, case-sensitively, on `*`
    ensures r.Ok? <==>
              && parts.version == Http11
              && HostPresent(parts.headers)
              && parts.uri == Star
              && parts.verb in {Extension(NOTIFY_METHOD), Extension(SEARCH_METHOD)}
    // headers are kept intact
    ensures r.Ok? ==> r.value.headers == parts.headers
    ensures r.Ok? ==> (r.value.kind == Notify <==> parts.verb == Extension(NOTIFY_METHOD))
    ensures r.Ok? ==> r.value.kind != Response
    // once version and Host pass, a bad URI outranks a bad method
    ensures r.Err? && parts.version == Http11 && HostPresent(parts.headers) ==>
              r.error == if parts.uri.Star? then InvalidMethod(MethodName(parts.verb)) else InvalidUri(UriText(parts.uri))
  {
    var headers := parts.headers;
    match ValidateHttpVersion(parts.version)
    case Err(e) => Err(e)
    case Ok(_) =>
      match ValidateHttpHost(headers)
      case Err(e) => Err(e)
      case Ok(_) =>
        match parts.uri
        case Star =>
          (match parts.verb
           case Extension(n) =>
             if n == NOTIFY_METHOD then Ok(Message(Notify, headers))
             else if n == SEARCH_METHOD then Ok(Message(Search, headers))
             else Err(InvalidMethod(n))
           case _ => Err(InvalidMethod(MethodName(parts.verb))))
        case AbsolutePath(n) => Err(InvalidUri(n))
        case Authority(n) => Err(InvalidUri(n))
        case AbsoluteUri(n) => Err(InvalidUri(n))
  }

  /** `message_from_response`: HTTP/1.1 and status 200; no Host is required. */
  function MessageFromResponse(parts: ResponseParts): (r: Result<Message, SsdpError>)
    ensures r.Ok? <==> parts.version == Http11 && parts.code == VALID_RESPONSE_CODE
    ensures parts.version != Http11 ==> r == Err(InvalidHttpVersion)
    ensures parts.version == Http11 && parts.code != VALID_RESPONSE_CODE ==> r == Err(ResponseCode(parts.code))
    ensures r.Ok? ==> r.value == Message(Response, parts.headers)
  {
    match ValidateHttpVersion(parts.version)
    case Err(e) => Err(e)
    case Ok(_) =>
      match ValidateResponseCode(parts.code)
      case Err(e) => Err(e)
      case Ok(_) => Ok(Message(Response, parts.headers))
  }

  /**
    `raw_ssdp`: a datagram that parses as a request is judged as a request
    alone; only when it does not is it tried as a response; when neither
    parse succeeds the datagram is returned inside an `InvalidHttp` error.
   */
  function RawSsdp(
    bytes: seq<byte>,
    parseRequest: seq<byte> -> Option<RequestParts>,
    parseResponse: seq<byte> -> Option<ResponseParts>
  ): (r: Result<Message, SsdpError>)
    ensures r == Err(InvalidHttp(bytes)) <==> parseRequest(bytes).None? && parseResponse(bytes).None?
    // a parsed request is judged by the request rules alone
    ensures parseRequest(bytes).Some? ==> r == MessageFromRequest(parseRequest(bytes).value)
    // a parsed response, tried only after the request parse failed, by the response rules alone
    ensures parseRequest(bytes).None? && parseResponse(bytes).Some? ==>
              r == MessageFromResponse(parseResponse(bytes).value)
    ensures r.Ok? && r.value.kind != Response ==>
              parseRequest(bytes).Some? && r.value.headers == parseRequest(bytes).value.headers
    ensures r.Ok? && r.value.kind == Response ==>
              && parseRequest(bytes).None?
              && parseResponse(bytes).Some?
              && r.value.headers == parseResponse(bytes).value.headers
  {
    match parseRequest(bytes)
    case Some(parts) => MessageFromRequest(parts)
    case None =>
      match parseResponse(bytes)
      case Some(parts) => MessageFromResponse(parts)
      case None => Err(InvalidHttp(bytes))
  }

  /** Once the request parser succeeds, what the response parser would say does not matter. */
  lemma RequestDecides(
    bytes: seq<byte>,
    parseRequest: seq<byte> -> Option<RequestParts>,
    parseResponse: seq<byte> -> Option<ResponseParts>,
    otherResponse: seq<byte> -> Option<ResponseParts>
  )
    requires parseRequest(bytes).Some?
    ensures RawSsdp(bytes, parseRequest, parseResponse) == RawSsdp(bytes, parseRequest, otherResponse)
    ensures RawSsdp(bytes, parseRequest, parseResponse).Err? ==>
              RawSsdp(bytes, parseRequest, parseResponse).error != InvalidHttp(bytes)
  {
  }

  /**
    A datagram that parses as a request is rejected for a version other than
    HTTP/1.1, then for a missing Host, then for a request target that is a path.
   */
  lemma RawSsdpRejections(
    bytes: seq<byte>,
    parseRequest: seq<byte> -> Option<RequestParts>,
    parseResponse: seq<byte> -> Option<ResponseParts>
  )
    requires parseRequest(bytes).Some?
    ensures var p := parseRequest(bytes).value;
            p.version != Http11 ==> RawSsdp(bytes, parseRequest, parseResponse) == Err(InvalidHttpVersion)
    ensures var p := parseRequest(bytes).value;
            p.version == Http11 && !HostPresent(p.headers) ==>
              RawSsdp(bytes, parseRequest, parseResponse) == Err(MissingHeader(HOST_HEADER_NAME))
    ensures var p := parseRequest(bytes).value;
            p.version == Http11 && HostPresent(p.headers) && p.uri.AbsolutePath? ==>
              RawSsdp(bytes, parseRequest, parseResponse) == Err(InvalidUri(p.uri.path))
  {
  }

  // ---------------------------------------------------------------------------
  // sending

  /** The request method a message type is sent with; a response is sent with status 200 instead. */
  function SendMethod(kind: MessageType): (r: Option<string>)
    ensures r.None? <==> kind == Response
  {
    match kind
    case Notify => Some(NOTIFY_METHOD)
    case Search => Some(SEARCH_METHOD)
    case Response => None
  }

  /** The start line each message type is sent with, once the request target is `*`. */
  function StartLine(kind: MessageType): string {
    match kind
    case Notify => "NOTIFY * HTTP/1.1"
    case Search => "M-SEARCH * HTTP/1.1"
    case Response => "HTTP/1.1 200 OK"
  }

  /**
    The start line `send` gives each message type is one the decoder maps back
    to that type: request parts carrying its method, `*` and HTTP/1.1 decode to
    the same type and headers exactly when those headers carry a Host, and a
    200 response decodes to a response whatever its headers. The headers the
    HTTP library adds on the way out are not part of this statement.
   */
  lemma SendKindDecodes(kind: MessageType, headers: HeaderMap)
    ensures kind != Response ==>
              var parts := RequestParts(Http11, Extension(SendMethod(kind).value), Star, headers);
              (MessageFromRequest(parts) == Ok(Message(kind, headers)) <==> HostPresent(headers))
    ensures kind == Response ==>
              MessageFromResponse(ResponseParts(Http11, VALID_RESPONSE_CODE, "OK", headers))
                == Ok(Message(Response, headers))
  {
  }

  /**
    An SSDP message: its type and a header store that `set` and `set_raw`
    change in place.
   */
  class SSDPMessage {
    var kind: MessageType
    var headers: HeaderMap

    /** `SSDPMessage::new`: the given type and no headers. */
    constructor New(messageType: MessageType)
      ensures kind == messageType && headers == map[]
    {
      kind := messageType;
      headers := map[];
    }

    /** The message a successful decode builds. */
    constructor FromValue(m: Message)
      ensures Value() == m
    {
      kind := m.kind;
      headers := m.headers;
    }

    function Value(): Message
      reads this
    {
      Message(kind, headers)
    }

    function GetRaw(name: string): Option<seq<seq<byte>>>
      reads this
    {
      Lookup(headers, name)
    }

    function Get(kind: TypedHeader.HeaderKind): Option<TypedHeader.Header>
      reads this
    {
      GetTyped(headers, kind)
    }

    method SetRaw(name: string, value: seq<seq<byte>>)
      modifies this
      ensures headers == Store(old(headers), name, value)
      ensures kind == old(kind)
      ensures GetRaw(name) == Some(value)
    {
      headers := Store(headers, name, value);
      StoreLookup(old(headers), name, name, value);
    }

    method Set(h: TypedHeader.Header)
      modifies this
      ensures headers == StoreTyped(old(headers), h)
      ensures kind == old(kind)
      ensures h.Reparses() ==> Get(h.Kind()) == Some(h)
    {
      headers := StoreTyped(headers, h);
      if h.Reparses() {
        StoreTypedGet(old(headers), h, h.Kind());
      }
    }
  }
}
