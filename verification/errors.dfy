/** The error kinds of the library (`SSDPErrorKind`); their display text is not modelled. */
module Errors {
  import opened Bytes

  datatype SsdpError =
    | InvalidHttp(message: seq<byte>)          // not an HTTP request or response; the datagram
    | InvalidHttpVersion                       // not HTTP/1.1
    | ResponseCode(code: u16)                  // a response status other than 200
    | InvalidMethod(name: string)              // neither NOTIFY nor M-SEARCH
    | InvalidUri(uri: string)                  // a Request-URI other than `*`
    | MissingHeader(header: string)            // a required header is absent
    | InvalidHeader(header: string, reason: string)
    | Msg(description: string)                 // a plain message error
}
