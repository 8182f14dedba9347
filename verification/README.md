# ssdp-rs core in Dafny

This project models the core of ssdp-rs, a Rust implementation of SSDP. SSDP
is the Simple Service Discovery Protocol of the UPnP Device Architecture 1.1.
The model covers five parts:

- **Key/value fields** (`Field`, `src/field.rs`): `FieldMap`, a `key:value`
  byte string split at its first colon, with the keys `uuid`, `urn` and `upnp`
  tagged. Also its `Display`.
- **The ten typed headers**, each a parser over the raw values
  (`seq<seq<byte>>`) and a formatter:
  - `UsnHeader`: USN, up to two fields joined by `::`. The imperative
    `partition_pairs` is a method proved equal to a specification function.
  - `NtHeader`, `StHeader`, `NtsHeader` and `ManHeader`: NT, ST, NTS and MAN.
  - `MxHeader`, `BootIdHeader`, `ConfigIdHeader` and `SearchPortHeader`: MX,
    BOOTID.UPNP.ORG, CONFIGID.UPNP.ORG and SEARCHPORT.UPNP.ORG. These use the
    decimal parser that `from_str_radix` provides (`Decimal`).
  - `SecureLocationHeader`: SECURELOCATION.UPNP.ORG.
  - `TypedHeader`: the union the message stores read and write.
- **Message classification** (`Ssdp`, `Notify`; `src/message/ssdp.rs`,
  `src/message/notify.rs`):
  - how a datagram becomes a NOTIFY, M-SEARCH or response message, or which
    error it gets;
  - the `SSDPMessage` and `NotifyMessage` objects, whose header stores change
    in place.
- **The "is global" address classifier** (`Ip`, `src/message/ip.rs`) for
  IPv4 and IPv6.
- **The datagram rewrite** (`Sender`, `src/net/sender.rs`) that
  `UdpSender::write` applies before sending: the first `/` becomes `*`.

Modelling choices:

- Header parse failure (hyper's `Error::Header`) is `None`.
- Bytes are integers in 0..255. Addresses use bit-vectors (`bv8` octets,
  `bv16` segments) because the source masks them.
- The HTTP parser is not modelled. `Ssdp.RawSsdp` takes the request parser and
  the response parser as function parameters. Each returns the parts the
  classification reads: version, method, Request-URI or status code, and
  headers.
- The headers call `FieldMap::parse_bytes` (`src/header/usn.rs:37`,
  `src/header/nt.rs:32`, `src/header/st.rs:32`). `src/field.rs:37` defines
  that function under the name `new`. Both are `Field.New`.

## Model

| member | source | states |
|---|---|---|
| Field.New | src/field.rs:37-61 | rejected exactly when there is no colon, the key before the first colon is empty, or nothing follows that colon; an accepted field displays back to the exact input bytes and is well formed (non-empty colon-free key, non-empty value, `Unknown` never uses a reserved key) |
| Field.Display | src/field.rs:64-84 | the written form is key, one colon, value: its length is the key's plus one plus the value's |
| Field.NewDisplay | src/field.rs:37-84 | every well-formed field survives `Display` then `new` unchanged |
| Field.NewIffDisplay | src/field.rs:37-84 | `new(s) == Some(f)` exactly when `f` is well formed and displays as `s`: the two are inverse on accepted inputs |
| Field.KeyTagging | src/field.rs:52-60 | with a non-empty colon-free key and a non-empty value, the key `uuid`, `urn` or `upnp` (byte-equal, case-sensitive) gives UUID/URN/UPnP, any other key gives `Unknown(key, value)`, and the value is kept verbatim |
| Decimal.ParseInt | src/header/bootid.rs:25-28 | an accepted number lies in the target type's range, starts with a sign or a digit, and is non-negative with no `-` for an unsigned type |
| Decimal.Format | src/header/bootid.rs:40-44 | the decimal text is non-empty, all digits, and has no leading zero unless it is `0` |
| Decimal.ParseFormat | src/header/bootid.rs:25-44 | decimal text of any value within the type's range parses back to that value |
| Decimal.LeadingZerosAccepted | src/header/bootid.rs:61-66 | leading zeros do not change the parsed value |
| Decimal.PlusAccepted | src/header/bootid.rs:25-28 | a leading `+` is accepted |
| Decimal.MinusAccepted | src/header/bootid.rs:82-88 | for a signed type a leading `-` negates the value |
| Decimal.UnsignedRejectsMinus | src/header/mx.rs:49-51 | an unsigned type rejects any text that starts with `-` |
| Decimal.NonDigitRejected | src/header/bootid.rs:106-110 | a byte that is not a digit (other than one leading sign) makes the parse fail |
| Decimal.OverflowRejected | src/header/bootid.rs:90-96 | a value above the type's maximum is rejected |
| UsnHeader.FirstSeparator | src/header/usn.rs:74-83 | the least index at which the closure's `[last_byte, n] == "::"` test holds, or none |
| UsnHeader.PartitionPairs | src/header/usn.rs:62-98 | the loop over the bytes that sends each one to the first vector until the separator is seen, then pops up to two trailing colons, computes exactly `Partition` |
| UsnHeader.PartitionShape | src/header/usn.rs:62-98 | no partition exactly when the input is empty or starts with a colon; the first part has no `::` and no colon at either end; with a second part the input is first + `::` + second (second non-empty); without one the input is first, first + `:` or first + `::` |
| UsnHeader.SplitAtSeparator | src/header/usn.rs:74-98 | a pair-free first part followed by `::` and any rest splits into exactly that part and the rest |
| UsnHeader.WholeValue | src/header/usn.rs:74-98 | a pair-free value is one part with no second |
| UsnHeader.ParseHeader | src/header/usn.rs:31-46 | not exactly one raw value means rejection; every accepted field is well formed |
| UsnHeader.ParseOne | src/header/usn.rs:36-45 | the header is rejected exactly when the first part is not a field; an invalid second part becomes `None` |
| UsnHeader.SeparableDisplay | src/header/usn.rs:49-59 | a field whose value has no `::` and no colon at either end displays as a pair-free string |
| UsnHeader.RoundTrip | src/header/usn.rs:31-98 | formatting then parsing returns the USN when its first field can stand before `::` and its optional second field is well formed |
| UsnHeader.TrailingColons | src/header/usn.rs:86-92 | one or two trailing colons after a single field are dropped: the result is that field and no second |
| UsnHeader.OneTrailingColon | src/header/usn.rs:86-92 | a pair-free value followed by one colon partitions into that value alone |
| UsnHeader.InvalidSecondDropped | src/header/usn.rs:36-38 | an invalid second field after `::` silently becomes `None` |
| UsnHeader.Rejections | src/header/usn.rs:94-98 | empty input and input starting with a colon are rejected, and a partitioned input is rejected exactly when its first part is not a field |
| UsnHeader.KeyBeforeSeparatorRejected | src/header/usn.rs:192-196 | `uuid:::` is rejected |
| NtHeader.ParseHeader | src/header/nt.rs:27-36 | not exactly one raw value means rejection; an accepted NT holds a well-formed field that formats back to the exact input |
| NtHeader.RoundTrip | src/header/nt.rs:27-44 | a well-formed field is formatted and parsed back unchanged |
| NtHeader.DoubleColonIsNotSeparator | src/header/nt.rs:124-136 | `uuid::v` gives UUID(`:v`): `::` is not a separator in NT |
| NtHeader.UnknownKeepsRest | src/header/nt.rs:90-105 | `max-age:1500::upnp:rootdevice` gives Unknown(`max-age`, `1500::upnp:rootdevice`) |
| NtHeader.ShortField | src/header/nt.rs:107-122 | `a:a` is accepted as Unknown(`a`, `a`) |
| NtHeader.Rejections | src/header/nt.rs:138-168 | empty, `:`, `::` and colon-free values are rejected |
| StHeader.ParseHeader | src/header/st.rs:24-34 | not exactly one raw value means rejection; exactly `ssdp:all` is `All`; an accepted value formats back to the input and a target field is well formed |
| StHeader.RoundTrip | src/header/st.rs:24-46 | `All` and every well-formed target other than Unknown(`ssdp`,`all`) are formatted and parsed back unchanged |
| StHeader.SsdpAllTargetBecomesAll | src/header/st.rs:29-42 | the target Unknown(`ssdp`,`all`) is well formed but formats to `ssdp:all`, which parses back as `All` |
| StHeader.NotAllIsTarget | src/header/st.rs:29-33 | a value that cannot be `ssdp:all` is a target exactly when it is a field |
| StHeader.KeyedTarget | src/header/st.rs:32 | a keyed field whose key does not start like `ssdp:all` parses to the target of that field |
| StHeader.UuidTarget | src/header/st.rs:85-93 | `uuid:v` gives Target(UUID(v)) |
| StHeader.UrnTarget | src/header/st.rs:75-83 | `urn:v` gives Target(URN(v)) |
| StHeader.UpnpTarget | src/header/st.rs:65-73 | `upnp:v` gives Target(UPnP(v)) |
| NtsHeader.ParseHeader | src/header/nts.rs:31-45 | accepted exactly when there is one raw value equal to `ssdp:alive`, `ssdp:update` or `ssdp:byebye`, and the result formats back to it |
| NtsHeader.RoundTrip | src/header/nts.rs:31-57 | each sub type is formatted and parsed back unchanged |
| NtsHeader.Rejections | src/header/nts.rs:96-126 | extra bytes, unknown suffixes, the empty value and `ssdp:` are rejected |
| ManHeader.ParseHeader | src/header/man.rs:18-28 | accepted exactly when there is one raw value equal to `"ssdp:discover"`, quotes included |
| ManHeader.RoundTrip | src/header/man.rs:18-36 | the written literal is parsed back |
| ManHeader.Rejections | src/header/man.rs:52-66 | the wrong case and missing quotes are rejected |
| MxHeader.New | src/header/mx.rs:28-34 | succeeds exactly for 1..120 with that wait bound, else fails with InvalidHeader(`MX`, `Supplied Wait Bound Is Out Of Bounds`) |
| MxHeader.ParseHeader | src/header/mx.rs:42-53 | accepted exactly when there is one raw value that is a decimal u8 in 1..120; the wait is that number, and an accepted value is one `new` accepts |
| MxHeader.RoundTrip | src/header/mx.rs:42-61 | every in-range MX is formatted and parsed back unchanged |
| MxHeader.OutOfRangeRejected | src/header/mx.rs:49-51 | formatting an out-of-range MX gives text that is rejected |
| MxHeader.AcceptedExamples | src/header/mx.rs:70-99 | `1`, `5` and `120` are accepted |
| MxHeader.RejectedExamples | src/header/mx.rs:100-130 | `0`, `121`, `-5` and `0.5` are rejected |
| BootIdHeader.ParseHeader | src/header/bootid.rs:17-36 | accepted exactly when there is one raw value that is a decimal i32 and non-negative; the id is that number, at most 2147483647 |
| BootIdHeader.RoundTrip | src/header/bootid.rs:17-44 | every id up to 2^31-1 is formatted and parsed back unchanged |
| BootIdHeader.LargeIdDoesNotReparse | src/header/bootid.rs:25-28 | a u32 id above 2^31-1 formats to text that is rejected |
| BootIdHeader.SignHandling | src/header/bootid.rs:31-35 | a negative value (down to -2^31) is rejected, but `-0` is accepted as 0 |
| BootIdHeader.NonNumericRejected | src/header/bootid.rs:106-110 | a non-digit byte makes the value rejected |
| BootIdHeader.LeadingZeros | src/header/bootid.rs:61-66 | leading zeros are accepted |
| ConfigIdHeader.ParseHeader | src/header/configid.rs:17-41 | accepted exactly when there is one raw value that is a decimal i32 and non-negative; the id is that number, at most 2147483647 |
| ConfigIdHeader.RoundTrip | src/header/configid.rs:17-50 | every id up to 2^31-1 is formatted and parsed back unchanged |
| ConfigIdHeader.LargeIdDoesNotReparse | src/header/configid.rs:25-28 | a u32 id above 2^31-1 formats to text that is rejected |
| ConfigIdHeader.SignHandling | src/header/configid.rs:36-40 | a negative value is rejected, but `-0` is accepted as 0 |
| ConfigIdHeader.NoReservedRangeCheck | src/header/configid.rs:30-33 | 20720000, above 2^24-1, is accepted |
| ConfigIdHeader.NonNumericRejected | src/header/configid.rs:111-115 | a non-digit byte makes the value rejected |
| ConfigIdHeader.LeadingZeros | src/header/configid.rs:25-28 | leading zeros are accepted |
| SearchPortHeader.ParseHeader | src/header/searchport.rs:22-39 | accepted exactly when there is one raw value that is a decimal u16 of at least 49152 |
| SearchPortHeader.RoundTrip | src/header/searchport.rs:22-47 | a port of at least 49152 is formatted and parsed back; a lower one is formatted to text that is rejected |
| SearchPortHeader.Examples | src/header/searchport.rs:62-83 | 49152 and 65535 are accepted; 49151 and 65536 are rejected |
| SearchPortHeader.NonNumericRejected | src/header/searchport.rs:85-91 | a non-digit byte, as in `49151a`, makes the value rejected |
| SecureLocationHeader.ParseHeader | src/header/securelocation.rs:19-30 | accepted exactly when there is one raw value that is non-empty and valid UTF-8; the location is those bytes verbatim |
| SecureLocationHeader.RoundTrip | src/header/securelocation.rs:19-38 | a non-empty location is written and parsed back unchanged; the empty one is rejected |
| SecureLocationHeader.InvalidUtf8Rejected | src/header/securelocation.rs:69-75 | valid UTF-8 followed by a stray continuation byte is rejected |
| TypedHeader.Parse | src/header/mod.rs:74-84 | a typed read yields a header of the kind asked for, and only from exactly one raw value |
| TypedHeader.FormatParse | src/header/mod.rs:111-116 | every header value that its codec can write back is read back as itself under its own kind |
| Ssdp.LowerAscii | src/message/ssdp.rs:165-167 | the name a header is kept under: same length, no ASCII capital left, and a name without capitals is kept as it is |
| Ssdp.LowerAsciiEqualIff | src/message/ssdp.rs:165-181 | two names get the same key exactly when they have the same length and agree character by character up to ASCII case |
| Ssdp.LowerAsciiIdempotent | src/message/ssdp.rs:165-167 | lower-casing a name twice gives the same key as once |
| Ssdp.StoreLookup | src/message/ssdp.rs:165-181 | a raw value set under one spelling of a name is found under every spelling that differs only in ASCII case; other names are untouched |
| Ssdp.HostNameIgnoresCase | src/message/ssdp.rs:454-464 | a Host header stored under the spelling `HOST` is what `get_raw("Host")` returns; with one non-empty UTF-8 value it counts as present, and a NOTIFY request to `*` carrying it is accepted with those headers |
| Ssdp.StoreTypedGet | src/message/ssdp.rs:158-175 | after a typed set, a typed get of that kind returns the header when its codec can read it back; gets of other names are unaffected |
| Ssdp.ValidateHttpVersion | src/message/ssdp.rs:266-272 | OK exactly for HTTP/1.1, else InvalidHttpVersion |
| Ssdp.ValidateHttpHost | src/message/ssdp.rs:275-285 | OK exactly when a Host header is present, else MissingHeader(`Host`) |
| Ssdp.ValidateResponseCode | src/message/ssdp.rs:288-294 | OK exactly for 200, else ResponseCode(code) |
| Ssdp.MessageFromRequest | src/message/ssdp.rs:220-249 | version is checked first, then Host; accepted exactly for HTTP/1.1 with Host, URI `*` and the case-sensitive extension method NOTIFY or M-SEARCH; the message is Notify exactly for NOTIFY and keeps the headers; otherwise InvalidMethod(name) with URI `*`, or InvalidUri(text) |
| Ssdp.MessageFromResponse | src/message/ssdp.rs:252-263 | accepted exactly for HTTP/1.1 and status 200, as a Response with the headers; else InvalidHttpVersion, then ResponseCode(code); no Host is required |
| Ssdp.RawSsdp | src/message/ssdp.rs:185-208 | InvalidHttp(bytes) exactly when neither the request nor the response parse succeeds; a parsed request is judged by `message_from_request` alone; only when the request parse fails is a parsed response judged by `message_from_response`; a NOTIFY or M-SEARCH message comes from the request parse with its headers |
| Ssdp.RawSsdpRejections | src/message/ssdp.rs:466-489 | a datagram parsed as a request is rejected for a version other than HTTP/1.1, then for a missing Host, then for a path as request target |
| Ssdp.RequestDecides | src/message/ssdp.rs:188-193 | once the bytes parse as a request, the response parser has no influence and the error is never InvalidHttp |
| Ssdp.SendMethod | src/message/ssdp.rs:65-84 | NOTIFY and M-SEARCH are sent as requests with their method; a response has no method |
| Ssdp.SendKindDecodes | src/message/ssdp.rs:60-85 | request parts with the method `send` uses for NOTIFY or M-SEARCH, URI `*` and HTTP/1.1 decode to that type with the same headers exactly when the headers carry a Host; HTTP/1.1 status 200 parts decode to a response with the same headers |
| Ssdp.SSDPMessage.New | src/message/ssdp.rs:45-50 | `new` gives the requested type and no headers |
| Ssdp.SSDPMessage.FromValue | src/message/ssdp.rs:230-239 | the object built for a decoded message holds exactly that type and those headers |
| Ssdp.SSDPMessage.SetRaw | src/message/ssdp.rs:177-181 | the raw value replaces the one stored under the name, the type is unchanged, and `get_raw` now returns it |
| Ssdp.SSDPMessage.Set | src/message/ssdp.rs:171-175 | the header's written form replaces the one stored under its name, the type is unchanged, and a typed get of its kind returns it when its codec can read it back |
| Notify.NotifyFromRaw | src/message/notify.rs:43-51 | a decode error comes through unchanged; the result is OK exactly when the decoded message is a NOTIFY, and is then that message; any other decoded type gives the "Is Not A NotifyMessage" error |
| Notify.NotifyFilter | src/message/notify.rs:92-105 | a NOTIFY * HTTP/1.1 request with Host is accepted; an M-SEARCH is rejected with the type error |
| Notify.ResponseIsNotNotify | src/message/notify.rs:108-113 | a datagram that is not a request is never accepted, and a valid response gets the type error |
| Notify.NotifyMessage.New | src/message/notify.rs:22-24 | `new` gives a fresh Notify message with no headers |
| Notify.NotifyMessage.Default | src/message/notify.rs:36-40 | `default` is `new`: Notify type, no headers |
| Notify.NotifyMessage.FromRaw | src/message/notify.rs:43-51 | the error of the type filter, or a Notify message holding the decoded value |
| Notify.NotifyMessage.Wrap | src/message/notify.rs:44-49 | wraps the decoded message itself, which must already be of type Notify |
| Notify.NotifyMessage.SetRaw | src/message/notify.rs:73-77 | forwards to the wrapped message: that name's raw value is replaced and read back |
| Notify.NotifyMessage.Set | src/message/notify.rs:67-71 | forwards to the wrapped message: the header is stored under its name and read back |
| Ip.IsShared | src/message/ip.rs:39-41 | exactly 100.64.0.0/10 |
| Ip.IsIetfProtocolAssignment | src/message/ip.rs:43-45 | exactly 192.0.0.0/24 |
| Ip.IsReserved | src/message/ip.rs:47-49 | exactly 240.0.0.0/4 without 255.255.255.255 |
| Ip.IsBenchmarking | src/message/ip.rs:51-53 | exactly 198.18.0.0/15 |
| Ip.ClassRanges | src/message/ip.rs:17-27 | the octet tests for 0/8, loopback, link-local, broadcast, private and documentation are each the address ranges their blocks name |
| Ip.IsGlobalV4Blocks | src/message/ip.rs:9-28 | an IPv4 address is global exactly when it is 192.0.0.9, 192.0.0.10, or in none of the thirteen non-global blocks |
| Ip.ProtocolAssignmentExceptions | src/message/ip.rs:12-16 | in 192.0.0.0/24 exactly .9 and .10 are global |
| Ip.NonGlobalV4Blocks | src/message/ip.rs:22-27 | 0/8, shared space, benchmarking space and 240/4 are not global |
| Ip.MulticastScope | src/message/ip.rs:65-80 | a scope is returned only for multicast addresses, and then its code is the low nibble of the first segment; the nibbles 1, 2, 3, 4, 5, 8 and 14 always give a scope |
| Ip.IsUnicastLinkLocal | src/message/ip.rs:91-93 | exactly first segment fe80..febf (fe80::/10) |
| Ip.IsUniqueLocal | src/message/ip.rs:95-97 | exactly first segment fc00..fdff (fc00::/7) |
| Ip.IsDocumentationV6 | src/message/ip.rs:99-100 | exactly 2001:db8::/32 |
| Ip.MulticastGlobalIffScope14 | src/message/ip.rs:29-35 | a multicast address is global exactly when its scope nibble is 14 |
| Ip.IsGlobalV6Ranges | src/message/ip.rs:29-100 | an IPv6 address is global exactly when it is multicast with scope 14, or is not multicast and is outside fc00::/7, fe80::/10 and 2001:db8::/32 and is neither loopback nor unspecified |
| Sender.StarFirstSlash | src/net/sender.rs:42-51 | same length; the byte at each position is `*` exactly where it is a `/` with no `/` before it, and is otherwise copied, later `/` included; without a `/` the buffer is unchanged |
| Sender.Write | src/net/sender.rs:41-51 | the byte-by-byte loop with the `found` flag fills a freshly allocated buffer, aliasing nothing, with exactly `StarFirstSlash` of the input |
| Sender.FirstSlashAt | src/net/sender.rs:45-47 | with the first `/` at index i, the rewrite is the single update of index i to `*` |
| Sender.RewriteMovesOn | src/net/sender.rs:45-47 | a buffer with a `/` has a `*` after the rewrite, and no `/` when it had only one |
| Sender.RequestLineRewritten | src/net/sender.rs:42-51 | a request line `METHOD / HTTP/1.1` followed by anything becomes `METHOD * HTTP/1.1` and the same remainder |
| Sender.ResponseLineCorrupted | src/net/sender.rs:42-51 | a buffer that starts with `HTTP/1.1` goes out starting with `HTTP*1.1` |
| Sender.RewriteRequestOnly | src/message/ssdp.rs:354-364 | buffers that start with `H` pass unchanged; all others get the first-slash rewrite |
| Sender.RequestMethodLine | src/message/ssdp.rs:33-34 | NOTIFY and M-SEARCH contain no `/` and do not start with `H`; with ` * HTTP/1.1` they are the SSDP start lines |
| Sender.SentStartLines | src/message/ssdp.rs:398-432 | with the guarded rewrite, NOTIFY and M-SEARCH go out as `NOTIFY * HTTP/1.1` and `M-SEARCH * HTTP/1.1`, and a response as `HTTP/1.1 200 OK` |

## Left out

- The HTTP layer is hyper's and is not part of this model. This covers
  `h1::parse_request`/`parse_response`, the `Request`/`Response` writers and
  the `Headers` store. The parsers are parameters of `Ssdp.RawSsdp`.
- Hyper's header store compares names without regard to ASCII case. The model
  keeps each header under its lower-cased name (`Ssdp.HeaderMap` admits no
  other key), so the parser parameters hand over header maps keyed that way.
  The spelling a header arrived with, which hyper keeps for iteration, is not
  modelled.
- The `BufReader` shared by the two parse attempts in `raw_ssdp` is not
  modelled. A failed request parse may consume input before the response
  parse runs; the model gives the response parser the whole datagram.
- `Ssdp.HostPresent` does not run hyper's `Host` grammar (host, optional
  port). It requires one non-empty UTF-8 raw value under `host`.
- Hyper keeps the parsed value of a typed header in a cache. The model
  re-reads the raw bytes on each typed get instead. `Ssdp.StoreTypedGet`
  states that the two agree whenever the header's codec reads its own output
  back (`TypedHeader.Header.Reparses`).
- `Field.Display`: keys and values are written as bytes. `from_utf8_lossy`
  replacement of invalid UTF-8 by U+FFFD is not modelled. A non-UTF-8
  `Unknown` key or value would be written differently by the source.
- `Decimal.ParseInt` works on the bytes. The source first applies
  `from_utf8_lossy` and then `from_str_radix`. The two accept the same inputs
  with the same values, because a replaced byte is never a digit or a sign.
- Sending is not modelled: sockets, `send_to`, connectors and the
  `print!` of every datagram in `UdpSender::write`. The same goes for
  `send_request`, `send_response`, `copy_headers` and `url_from_addr`.
  So the headers that go out with a message are not modelled: hyper adds a
  Host taken from the destination address to requests, and `send` sets
  `Content-Length: 0` on every message. `Ssdp.SendKindDecodes` states only
  that the start line chosen for each type decodes back to that type.
  `Sender.Write` returns the rewritten buffer instead of sending it.
- How hyper splits a message into `write` calls is not modelled. The
  start-line lemmas take any remainder after the start line.
- Other parts of the repository that are not part of this model:
  - threads, receivers and streams;
  - multicast sending and interface enumeration;
  - the search/listen drivers and the broken `src/message/search.rs`;
  - the `Display` text of errors. `Errors.SsdpError` keeps only the error
    kinds and their data.
- The standard-library address tests are defined from their RFCs. These are
  `is_private`, `is_loopback`, `is_link_local`, `is_broadcast` and
  `is_documentation` for IPv4, and `is_multicast`, `is_loopback` and
  `is_unspecified` for IPv6.

## Findings

| source | as written | input that shows it | evidently intended | confidence | as-written member | corrected member |
|---|---|---|---|---|---|---|
| src/net/sender.rs:42-51 | `UdpSender::write` replaces the first `/` of every buffer it is given. Responses go through it too: `send` connects a stream for a response and hyper writes the status line on it. | a response whose first buffer starts with `HTTP/1.1`; it goes out as `HTTP*1.1 200 OK`, which no receiver parses as a response | rewrite only request lines. The test double at src/message/ssdp.rs:354-364 skips buffers whose first byte is `H`, and the test at src/message/ssdp.rs:422-432 expects `HTTP/1.1 200 OK` | medium, not executed | Sender.ResponseLineCorrupted | Sender.SentStartLines |
