/** NOTIFY messages: an SSDP message that is known to have the Notify type. */
module Notify {
  import opened Wrappers
  import opened Bytes
  import opened Errors
  import opened Ssdp
  import TypedHeader

  /** The error a datagram that decodes to another message type is turned into. */
  const NOT_NOTIFY_ERROR: SsdpError := Msg("SSDP Message Received Is Not A NotifyMessage")

  /**
    `NotifyMessage::raw_ssdp`: decode the datagram as an SSDP message, then
    keep it only if it is a NOTIFY.
   */
  function NotifyFromRaw(
    bytes: seq<byte>,
    parseRequest: seq<byte> -> Option<RequestParts>,
    parseResponse: seq<byte> -> Option<ResponseParts>
  ): (r: Result<Message, SsdpError>)
    // a decode error comes through unchanged
    ensures RawSsdp(bytes, parseRequest, parseResponse).Err? ==>
              r == RawSsdp(bytes, parseRequest, parseResponse)
    // accepted exactly when the decoded message is a NOTIFY, and then it is that message
    ensures r.Ok? <==> RawSsdp(bytes, parseRequest, parseResponse).Ok? && RawSsdp(bytes, parseRequest, parseResponse).value.kind == Notify
    ensures r.Ok? ==> r == RawSsdp(bytes, parseRequest, parseResponse)
    ensures RawSsdp(bytes, parseRequest, parseResponse).Ok? && r.Err? ==> r.error == NOT_NOTIFY_ERROR
  {
    match RawSsdp(bytes, parseRequest, parseResponse)
    case Err(e) => Err(e)
    case Ok(message) =>
      if message.kind != Notify then Err(NOT_NOTIFY_ERROR) else Ok(message)
  }

  /** A NOTIFY request with a Host header is accepted as is; M-SEARCH requests and responses are rejected. */
  lemma NotifyFilter(
    bytes: seq<byte>,
    parseRequest: seq<byte> -> Option<RequestParts>,
    parseResponse: seq<byte> -> Option<ResponseParts>
  )
    requires parseRequest(bytes).Some?
    ensures var p := parseRequest(bytes).value;
            p.version == Http11 && HostPresent(p.headers) && p.uri == Star && p.verb == Extension(NOTIFY_METHOD) ==>
              NotifyFromRaw(bytes, parseRequest, parseResponse) == Ok(Message(Notify, p.headers))
    ensures var p := parseRequest(bytes).value;
            p.version == Http11 && HostPresent(p.headers) && p.uri == Star && p.verb == Extension(SEARCH_METHOD) ==>
              NotifyFromRaw(bytes, parseRequest, parseResponse) == Err(NOT_NOTIFY_ERROR)
  {
  }

  /** A datagram that is not a request is never a NOTIFY: a valid response is turned away with the type error. */
  lemma ResponseIsNotNotify(
    bytes: seq<byte>,
    parseRequest: seq<byte> -> Option<RequestParts>,
    parseResponse: seq<byte> -> Option<ResponseParts>
  )
    requires parseRequest(bytes).None?
    ensures NotifyFromRaw(bytes, parseRequest, parseResponse).Err?
    ensures RawSsdp(bytes, parseRequest, parseResponse).Ok? ==>
              NotifyFromRaw(bytes, parseRequest, parseResponse) == Err(NOT_NOTIFY_ERROR)
  {
  }

  /** A NOTIFY message; its headers are those of the SSDP message it wraps. */
  class NotifyMessage {
    const message: SSDPMessage

    /** `NotifyMessage::new`, which `Default::default` also gives: Notify type, no headers. */
    constructor New()
      ensures fresh(message)
      ensures message.kind == Notify && message.headers == map[]
    {
      message := new SSDPMessage.New(Notify);
    }

    /** `NotifyMessage::raw_ssdp`: a fresh NOTIFY message holding the decoded value, or the error. */
    static method FromRaw(
      bytes: seq<byte>,
      parseRequest: seq<byte> -> Option<RequestParts>,
      parseResponse: seq<byte> -> Option<ResponseParts>
    ) returns (r: Result<NotifyMessage, SsdpError>)
      ensures r.Err? ==> NotifyFromRaw(bytes, parseRequest, parseResponse) == Err(r.error)
      ensures r.Ok? ==> NotifyFromRaw(bytes, parseRequest, parseResponse) == Ok(r.value.message.Value())
      ensures r.Ok? ==> r.value.message.kind == Notify
    {
      var decoded := NotifyFromRaw(bytes, parseRequest, parseResponse);
      if decoded.Err? {
        r := Err(decoded.error);
      } else {
        var inner := new SSDPMessage.FromValue(decoded.value);
        var n := new NotifyMessage.Wrap(inner);
        r := Ok(n);
      }
    }

    /** Wrap a message already checked to be a NOTIFY. */
    constructor Wrap(m: SSDPMessage)
      requires m.kind == Notify
      ensures message == m
    {
      message := m;
    }

    /** `get_raw`, answered by the wrapped message. */
    function GetRaw(name: string): Option<seq<seq<byte>>>
      reads message
    {
      message.GetRaw(name)
    }

    /** Typed `get`, answered by the wrapped message. */
    function Get(kind: TypedHeader.HeaderKind): Option<TypedHeader.Header>
      reads message
    {
      message.Get(kind)
    }

    method SetRaw(name: string, value: seq<seq<byte>>)
      modifies message
      ensures message.headers == Store(old(message.headers), name, value)
      ensures message.kind == old(message.kind)
      ensures GetRaw(name) == Some(value)
    {
      message.SetRaw(name, value);
    }

    method Set(h: TypedHeader.Header)
      modifies message
      ensures message.headers == StoreTyped(old(message.headers), h)
      ensures message.kind == old(message.kind)
      ensures h.Reparses() ==> Get(h.Kind()) == Some(h)
    {
      message.Set(h);
    }

    /** `Default::default` for a NOTIFY message is `new`. */
    static method Default() returns (n: NotifyMessage)
      ensures fresh(n) && fresh(n.message)
      ensures n.message.kind == Notify && n.message.headers == map[]
    {
      n := new NotifyMessage.New();
    }
  }
}
