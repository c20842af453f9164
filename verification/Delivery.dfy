/**
 * The client's side of the response stream: cut the head at the first blank line, read its Content-Length,
 * take that many bytes, and none for HEAD. Shown to recover exactly what the server put in.
 */
module Delivery {
  import opened Prelude
  import opened Strings
  import opened Buffers
  import opened Requests
  import opened Responses

  datatype Message = Message(head: string, body: string)

  // ---- the client ----

  /** The value of the first header line with this key. */
  function FindHeader(lines: seq<string>, key: string): Option<string> {
    if lines == [] then None
    else
      var h := ParseHeader(lines[0]);
      if h.Some? && h.value.key == key then Some(h.value.value) else FindHeader(lines[1..], key)
  }

  function ContentLength(head: string): Option<nat> {
    match FindHeader(Tokens(head, CRLF), HEADER_CONTENT_LENGTH)
    case None => None
    case Some(v) => Number(v)
  }

  /** One message read off the front of the stream, and what is left of the stream. */
  function Receive(m: Method, stream: string): Option<(Message, string)> {
    var cut := PopTill(stream, BLANK_LINE);
    if cut.found.None? then None
    else
      var length := if m.HEAD? then Some(0) else ContentLength(cut.found.value);
      if length.None? || |cut.rest| < length.value then None
      else Some((Message(cut.found.value, cut.rest[..length.value]), cut.rest[length.value..]))
  }

  /** The whole stream, one message for each request sent. */
  function ReceiveAll(ms: seq<Method>, stream: string): Option<seq<Message>> {
    if ms == [] then if stream == "" then Some([]) else None
    else
      match Receive(ms[0], stream)
      case None => None
      case Some((msg, rest)) =>
        match ReceiveAll(ms[1..], rest)
        case None => None
        case Some(msgs) => Some([msg] + msgs)
  }

  function Stream(msgs: seq<Message>): string {
    if msgs == [] then "" else msgs[0].head + msgs[0].body + Stream(msgs[1..])
  }

  // ---- heads that frame themselves ----

  /** A head that ends at its only blank line and announces `length`. */
  ghost predicate Announces(head: string, length: nat) {
    Framed(head, BLANK_LINE) && ContentLength(head) == Some(length)
  }

  predicate SimpleHeader(h: Header) {
    ':' !in h.key && '\n' !in h.key && '\n' !in h.value && h.value != "" && h.value[|h.value| - 1] != ':'
  }

  lemma SimpleIsPlain(h: Header)
    requires SimpleHeader(h)
    ensures PlainHeader(h) && Free(HeaderLine(h), CRLF)
  {
    OneCharFree(h.key, COLON);
    NoCrlf(HeaderLine(h));
    assert h.value[|h.value| - 1..] == [h.value[|h.value| - 1]];
  }

  function LookUp(hs: seq<Header>, key: string): Option<string> {
    if hs == [] then None else if hs[0].key == key then Some(hs[0].value) else LookUp(hs[1..], key)
  }

  lemma {:induction false} FindHeaderInPrinted(hs: seq<Header>, key: string)
    requires forall h :: h in hs ==> PlainHeader(h)
    ensures FindHeader(HeaderLines(hs) + [""], key) == LookUp(hs, key)
  {
    var lines := HeaderLines(hs) + [""];
    if hs == [] {
      StatusIsNoHeader("");
      assert lines == [""] && lines[1..] == [];
    } else {
      HeaderRoundTripExactly(hs[0]);
      assert lines[0] == HeaderLine(hs[0]);
      assert lines[1..] == HeaderLines(hs[1..]) + [""];
      FindHeaderInPrinted(hs[1..], key);
    }
  }

  /** The lines of a printed head. */
  lemma HeadLines(status: string, hs: seq<Header>)
    requires '\n' !in status && forall h :: h in hs ==> SimpleHeader(h)
    ensures Framed(HeadText(status, hs), BLANK_LINE)
    ensures Tokens(HeadText(status, hs), CRLF) == [status] + HeaderLines(hs) + [""]
  {
    forall h | h in hs ensures PlainHeader(h) && Free(HeaderLine(h), CRLF) {
      SimpleIsPlain(h);
    }
    NoCrlf(status);
    NoCrlf("");
    HeaderTextsTerminated(hs);
    CrlfBorderFree();
    var ts := [status] + HeaderLines(hs);
    assert ts[1..] == HeaderLines(hs);
    TerminatedAppend(ts, [""], CRLF);
    assert Terminated([""], CRLF) == CRLF;
    FirstBlankLine(ts, CRLF);
    SplitTerminated(ts + [""], "", CRLF);
    assert Terminated(ts + [""], CRLF) + "" == HeadText(status, hs);
  }

  lemma StatusIsNoHeader(status: string)
    requires ':' !in status
    ensures ParseHeader(status).None?
  {
    OneCharFree(status, COLON);
    FreeIsNone(status, COLON);
    TokensLast(status, COLON);
  }

  /** What a client reads from a printed head: the status line first, and the headers by their keys. */
  lemma {:induction false} HeadRead(status: string, hs: seq<Header>, key: string)
    requires ':' !in status && '\n' !in status && forall h :: h in hs ==> SimpleHeader(h)
    ensures var lines := Tokens(HeadText(status, hs), CRLF);
            lines != [] && lines[0] == status && FindHeader(lines, key) == LookUp(hs, key)
  {
    HeadLines(status, hs);
    StatusIsNoHeader(status);
    var lines := [status] + HeaderLines(hs) + [""];
    assert lines[1..] == HeaderLines(hs) + [""];
    forall h | h in hs ensures PlainHeader(h) {
      SimpleIsPlain(h);
    }
    FindHeaderInPrinted(hs, key);
  }

  lemma HeadAnnounces(status: string, hs: seq<Header>, length: nat)
    requires ':' !in status && '\n' !in status && forall h :: h in hs ==> SimpleHeader(h)
    requires LookUp(hs, HEADER_CONTENT_LENGTH) == Some(Decimal(length))
    ensures Announces(HeadText(status, hs), length)
  {
    HeadLines(status, hs);
    HeadRead(status, hs, HEADER_CONTENT_LENGTH);
    NumberOfDecimal(length);
  }

  // ---- the server's heads ----

  lemma MimeIsSimple(e: Extension)
    ensures SimpleHeader(Header(HEADER_CONTENT_TYPE, ExtensionToMime(e)))
  {
  }

  lemma DecimalIsSimple(n: nat)
    ensures SimpleHeader(Header(HEADER_CONTENT_LENGTH, Decimal(n)))
  {
  }

  lemma FixedHeadersSimple(close: bool)
    ensures SimpleHeader(Header(HEADER_SERVER, SERVER_TURTLE))
    ensures SimpleHeader(Header(HEADER_CONNECTION, if close then CONNECTION_CLOSE else CONNECTION_KEEP_ALIVE))
  {
  }

  lemma LookUpSkip(h: Header, hs: seq<Header>, key: string)
    requires |h.key| != |key|
    ensures LookUp([h] + hs, key) == LookUp(hs, key)
  {
    assert ([h] + hs)[1..] == hs;
  }

  lemma ReplyHeadersSimple(close: bool, n: nat, mime: Option<string>)
    requires mime.Some? ==> exists e :: mime.value == ExtensionToMime(e)
    ensures forall h :: h in ReplyHeaders(close, Decimal(n), mime) ==> SimpleHeader(h)
    ensures LookUp(ReplyHeaders(close, Decimal(n), mime), HEADER_CONTENT_LENGTH) == Some(Decimal(n))
  {
    DecimalIsSimple(n);
    FixedHeadersSimple(close);
    if mime.Some? {
      var e :| mime.value == ExtensionToMime(e);
      MimeIsSimple(e);
    }
    var server := Header(HEADER_SERVER, SERVER_TURTLE);
    var connection := Header(HEADER_CONNECTION, if close then CONNECTION_CLOSE else CONNECTION_KEEP_ALIVE);
    var last := [Header(HEADER_CONTENT_LENGTH, Decimal(n))]
                + if mime.Some? then [Header(HEADER_CONTENT_TYPE, mime.value)] else [];
    assert ReplyHeaders(close, Decimal(n), mime) == [server] + ([connection] + last);
    LookUpSkip(server, [connection] + last, HEADER_CONTENT_LENGTH);
    LookUpSkip(connection, last, HEADER_CONTENT_LENGTH);
  }

  // ---- recovering the stream ----

  lemma ReceiveOne(m: Method, msg: Message, length: nat, rest: string)
    requires Announces(msg.head, length) && (m.HEAD? || length == |msg.body|)
    ensures Receive(m, msg.head + (msg.body + rest))
            == Some((Message(msg.head, if m.HEAD? then "" else msg.body),
                     if m.HEAD? then msg.body + rest else rest))
  {
    PopOfFramed(msg.head, msg.body + rest, BLANK_LINE);
    assert (msg.body + rest)[..|msg.body|] == msg.body && (msg.body + rest)[|msg.body|..] == rest;
    assert (msg.body + rest)[..0] == "" && (msg.body + rest)[0..] == msg.body + rest;
  }

  /** A message that its method and its head allow: only HEAD may announce a length that the body does not have. */
  ghost predicate Deliverable(m: Method, msg: Message) {
    exists length :: Announces(msg.head, length) && (m.HEAD? || length == |msg.body|)
  }

  lemma ReceiveAllNext(ms: seq<Method>, stream: string, msg: Message, rest: string)
    requires ms != [] && Receive(ms[0], stream) == Some((msg, rest)) && ReceiveAll(ms[1..], rest).Some?
    ensures ReceiveAll(ms, stream) == Some([msg] + ReceiveAll(ms[1..], rest).value)
  {
  }

  /** The first message of a stream is received, and the stream of the others left. */
  lemma {:induction false} ReceiveFirst(m: Method, msgs: seq<Message>)
    requires msgs != [] && Deliverable(m, msgs[0]) && (m.HEAD? ==> msgs[0].body == "")
    ensures Receive(m, Stream(msgs)) == Some((msgs[0], Stream(msgs[1..])))
  {
    var msg, rest := msgs[0], Stream(msgs[1..]);
    var length :| Announces(msg.head, length) && (m.HEAD? || length == |msg.body|);
    Regroup(msg.head, msg.body, rest);
    ReceiveOne(m, msg, length, rest);
    assert m.HEAD? ==> msg.body + rest == rest;
  }

  lemma {:induction false} BodilessHeadsRecovered(ms: seq<Method>, msgs: seq<Message>)
    requires |ms| == |msgs| && forall i :: 0 <= i < |ms| ==> Deliverable(ms[i], msgs[i])
    requires forall i :: 0 <= i < |ms| ==> ms[i].HEAD? ==> msgs[i].body == ""
    ensures ReceiveAll(ms, Stream(msgs)) == Some(msgs)
  {
    if ms != [] {
      ReceiveFirst(ms[0], msgs);
      BodilessHeadsRecovered(ms[1..], msgs[1..]);
      ReceiveAllNext(ms, Stream(msgs), msgs[0], Stream(msgs[1..]));
      assert msgs == [msgs[0]] + msgs[1..];
    }
  }

  lemma HeadReceivedEmpty(m: Method, stream: string)
    ensures m.HEAD? && Receive(m, stream).Some? ==> Receive(m, stream).value.0.body == ""
  {
  }

  lemma {:induction false} HeadsReceivedEmpty(ms: seq<Method>, stream: string)
    ensures var r := ReceiveAll(ms, stream);
            r.Some? ==> |r.value| == |ms| && forall i :: 0 <= i < |ms| ==> ms[i].HEAD? ==> r.value[i].body == ""
  {
    if ms != [] && Receive(ms[0], stream).Some? {
      var (msg, rest) := Receive(ms[0], stream).value;
      HeadReceivedEmpty(ms[0], stream);
      HeadsReceivedEmpty(ms[1..], rest);
      if ReceiveAll(ms[1..], rest).Some? {
        ReceiveAllNext(ms, stream, msg, rest);
        var more := ReceiveAll(ms[1..], rest).value;
        forall i | 0 <= i < |ms| && ms[i].HEAD? ensures ([msg] + more)[i].body == "" {
          if 0 < i {
            assert ms[1..][i - 1] == ms[i] && ([msg] + more)[i] == more[i - 1];
          }
        }
      }
    }
  }

  /**
   * The stream is self-delimiting exactly when no HEAD was answered with a body: whatever bytes the bodies
   * hold, the client that knows its methods then recovers the very heads and bodies that were sent.
   */
  lemma StreamRecoveredExactly(ms: seq<Method>, msgs: seq<Message>)
    requires |ms| == |msgs| && forall i :: 0 <= i < |ms| ==> Deliverable(ms[i], msgs[i])
    ensures ReceiveAll(ms, Stream(msgs)) == Some(msgs)
            <==> forall i :: 0 <= i < |ms| ==> ms[i].HEAD? ==> msgs[i].body == ""
  {
    if forall i :: 0 <= i < |ms| ==> ms[i].HEAD? ==> msgs[i].body == "" {
      BodilessHeadsRecovered(ms, msgs);
    } else {
      HeadsReceivedEmpty(ms, Stream(msgs));
    }
  }
}
