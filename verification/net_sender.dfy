/**
  The byte rewrite `UdpSender::write` applies to each buffer the HTTP writer
  hands it before sending it as a UDP datagram: the first `/` becomes `*`, so
  that the request line `M-SEARCH / HTTP/1.1` goes out as `M-SEARCH * HTTP/1.1`.
 */
module Sender {
  import opened Wrappers
  import opened Bytes
  import Ssdp

  /** The buffer with its first `/`, if any, replaced by `*`. */
  function StarFirstSlash(buf: seq<byte>): (r: seq<byte>)
    ensures |r| == |buf|
    // byte by byte: exactly the `/` with no `/` before it becomes `*`
    ensures forall j | 0 <= j < |buf| ::
              r[j] == if buf[j] == SLASH && SLASH !in buf[..j] then STAR else buf[j]
    ensures SLASH !in buf ==> r == buf
  {
    match FirstIndexOf(buf, SLASH)
    case None => buf
    case Some(i) =>
      assert forall j | i < j < |buf| :: SLASH in buf[..j] by {
        forall j | i < j < |buf| ensures SLASH in buf[..j] {
          assert buf[..j][i] == SLASH;
        }
      }
      buf[i := STAR]
  }

  /**
    The loop of `UdpSender::write`: a zeroed buffer of the same length, filled
    byte by byte, with a flag that records whether the `/` has been replaced.
   */
  method Write(buf: seq<byte>) returns (buffer: array<byte>)
    ensures fresh(buffer)
    ensures buffer[..] == StarFirstSlash(buf)
  {
    buffer := new byte[|buf|](_ => 0);
    var found := false;
    for index := 0 to |buf|
      invariant found <==> SLASH in buf[..index]
      invariant forall j | 0 <= j < index :: buffer[j] == StarFirstSlash(buf)[j]
    {
      var item := buf[index];
      assert buf[..index + 1] == buf[..index] + [item];
      if item == SLASH && !found {
        found := true;
        buffer[index] := STAR;
      } else {
        buffer[index] := item;
      }
    }
  }

  /** Where the first `/` is known, the rewrite is a single update at that index. */
  lemma FirstSlashAt(buf: seq<byte>, i: nat)
    requires i < |buf| && buf[i] == SLASH && SLASH !in buf[..i]
    ensures StarFirstSlash(buf) == buf[i := STAR]
  {
    var r := StarFirstSlash(buf);
    forall j | 0 <= j < |buf| ensures r[j] == buf[i := STAR][j] {
      if j > i {
        assert buf[..j][i] == SLASH;
      } else if j < i {
        assert buf[j] == buf[..i][j];
      }
    }
  }

  /**
    A buffer with a `/` comes out holding a `*`; when its first `/` was its
    only one, it comes out with none left.
   */
  lemma RewriteMovesOn(buf: seq<byte>)
    requires SLASH in buf
    ensures STAR in StarFirstSlash(buf)
    ensures SLASH !in buf[FirstIndexOf(buf, SLASH).value + 1..] ==> SLASH !in StarFirstSlash(buf)
  {
    var i := FirstIndexOf(buf, SLASH).value;
    var r := StarFirstSlash(buf);
    assert r[i] == STAR;
    if SLASH !in buf[i + 1..] {
      forall j | 0 <= j < |r|
        ensures r[j] != SLASH
      {
        if j > i {
          assert buf[j] == buf[i + 1..][j - i - 1];
        }
      }
    }
  }

  // ---------------------------------------------------------------------------
  // start lines

  /** `HTTP/1.1`, with which a response's first buffer begins. */
  const HTTP_11: seq<byte> := Ascii("HTTP/1.1")

  /** The request line the HTTP writer produces for a target URL with an empty path. */
  function RequestHead(methodName: string): seq<byte> {
    Ascii(methodName) + Ascii(" / HTTP/1.1")
  }

  /** The same line with the `*` Request-URI SSDP requires. */
  function SsdpRequestLine(methodName: string): seq<byte> {
    Ascii(methodName) + Ascii(" * HTTP/1.1")
  }

  /** A method name written without a `/`. */
  predicate SlashFree(methodName: string) {
    SLASH !in Ascii(methodName)
  }

  /** The request line of NOTIFY and M-SEARCH gets its `*`, whatever follows it in the buffer. */
  lemma RequestLineRewritten(methodName: string, rest: seq<byte>)
    requires SlashFree(methodName)
    ensures StarFirstSlash(RequestHead(methodName) + rest) == SsdpRequestLine(methodName) + rest
  {
    var m := Ascii(methodName);
    var buf := RequestHead(methodName) + rest;
    var i := |m| + 1;
    assert buf[i] == SLASH;
    assert SLASH !in buf[..i] by {
      assert buf[..i] == m + [32];
    }
    assert FirstIndexOf(buf, SLASH) == Some(i);
    assert buf[i := STAR] == SsdpRequestLine(methodName) + rest;
  }

  /**
    As written, a response buffer is rewritten too: one that begins with
    `HTTP/1.1` goes out beginning with `HTTP*1.1`, which no receiver parses as
    a response.
   */
  lemma ResponseLineCorrupted(rest: seq<byte>)
    ensures StarFirstSlash(HTTP_11 + rest)[..8] == Ascii("HTTP*1.1")
    ensures StarFirstSlash(HTTP_11 + rest)[..8] != HTTP_11
  {
    var buf := HTTP_11 + rest;
    assert HTTP_11 == [72, 84, 84, 80, 47, 49, 46, 49];
    assert buf[..4] == [72, 84, 84, 80];
    FirstSlashAt(buf, 4);
    assert StarFirstSlash(buf)[..8] == [72, 84, 84, 80, 42, 49, 46, 49];
  }

  /** The rewrite with the guard the source's own test double carries: buffers that begin with `H` pass unchanged. */
  function RewriteRequestOnly(buf: seq<byte>): (r: seq<byte>)
    ensures |r| == |buf|
    ensures |buf| > 0 && buf[0] == 72 ==> r == buf
    ensures !(|buf| > 0 && buf[0] == 72) ==> r == StarFirstSlash(buf)
  {
    if |buf| > 0 && buf[0] == 72 then buf else StarFirstSlash(buf)
  }

  /** The two request methods: no `/`, not starting with `H`, and with `*` their SSDP start lines. */
  lemma RequestMethodLine(kind: Ssdp.MessageType)
    requires kind != Ssdp.Response
    ensures SlashFree(Ssdp.SendMethod(kind).value)
    ensures Ascii(Ssdp.SendMethod(kind).value)[0] != 72
    ensures SsdpRequestLine(Ssdp.SendMethod(kind).value) == Ascii(Ssdp.StartLine(kind))
  {
    var star := Ascii(" * HTTP/1.1");
    assert star == [32, 42, 32, 72, 84, 84, 80, 47, 49, 46, 49];
    if kind == Ssdp.Notify {
      assert Ascii(Ssdp.NOTIFY_METHOD) == [78, 79, 84, 73, 70, 89];
      assert Ascii(Ssdp.StartLine(kind)) == [78, 79, 84, 73, 70, 89] + star;
    } else {
      assert Ascii(Ssdp.SEARCH_METHOD) == [77, 45, 83, 69, 65, 82, 67, 72];
      assert Ascii(Ssdp.StartLine(kind)) == [77, 45, 83, 69, 65, 82, 67, 72] + star;
    }
  }

  /**
    With the guard, every message type goes out with the start line SSDP
    requires: `NOTIFY * HTTP/1.1`, `M-SEARCH * HTTP/1.1` and `HTTP/1.1 200 OK`.
   */
  lemma SentStartLines(kind: Ssdp.MessageType, rest: seq<byte>)
    ensures kind != Ssdp.Response ==>
              RewriteRequestOnly(RequestHead(Ssdp.SendMethod(kind).value) + rest) == Ascii(Ssdp.StartLine(kind)) + rest
    ensures kind == Ssdp.Response ==>
              RewriteRequestOnly(Ascii(Ssdp.StartLine(kind)) + rest) == Ascii(Ssdp.StartLine(kind)) + rest
  {
    if kind == Ssdp.Response {
      assert (Ascii(Ssdp.StartLine(kind)) + rest)[0] == 72;
    } else {
      var m := Ssdp.SendMethod(kind).value;
      RequestMethodLine(kind);
      RequestLineRewritten(m, rest);
      assert (RequestHead(m) + rest)[0] == Ascii(m)[0];
    }
  }
}
