/**
 * The serving loop of src/http/http_server.cpp over fixed files and CGI results. `Serve` says what a stream of
 * received bytes is answered with; `ProcessHttpRequest` is the loop with its connection buffers and its cache.
 */
module Server {
  import opened Prelude
  import opened Strings
  import opened Buffers
  import opened Requests
  import opened Responses
  import opened Delivery

  const CGI_BIN := "cgi-bin"
  const PARAMETER_SEPARATOR := "&"

  /** What the server finds on disk, and what each CGI request prints. */
  datatype World = World(dir: string, files: map<string, string>, cgi: string -> string)

  /** What the head of a response is printed from. */
  datatype Head = Head(status: string, close: bool, length: nat, mime: Option<string>)

  function Text(h: Head): string {
    HeadText(StatusLine(h.status), ReplyHeaders(h.close, Decimal(h.length), h.mime))
  }

  /** A response and the method it answers. The connection ends with it if its head says so. */
  datatype Reply = Reply(head: Head, body: string, asked: Method)

  function MessageOf(r: Reply): Message {
    Message(Text(r.head), r.body)
  }

  predicate IsCgiRequest(path: string) {
    Find(path, CGI_BIN, 0).Some?
  }

  /** The program that a CGI request names: everything before the first separator after the CGI folder. */
  function CgiProgram(path: string): Option<string> {
    if path == "" || !IsCgiRequest(path) then None
    else
      match Find(path, PARAMETER_SEPARATOR, Find(path, CGI_BIN, 0).value)
      case None => Some(path)
      case Some(i) => Some(path[..i])
  }

  function Refusal(status: string, asked: Method): Reply {
    Reply(Head(status, true, 0, None), "", asked)
  }

  /** The answer to a CGI request: whatever the program prints, whichever the method. */
  function RespondCgi(w: World, path: string, verb: Method, close: bool): Reply {
    match CgiProgram(path)
    case None => Refusal(RESPONSE_BAD_REQUEST, verb)
    case Some(program) =>
      if program !in w.files then Refusal(RESPONSE_NOT_FOUND, verb)
      else Reply(Head(RESPONSE_OK, close, |w.cgi(path)|, None), w.cgi(path), verb)
  }

  /** The answer to a request for a file. The head of a HEAD answer still announces the file's length. */
  function RespondFile(w: World, path: string, verb: Method, close: bool): Reply {
    if path !in w.files then Refusal(RESPONSE_NOT_FOUND, verb)
    else Reply(Head(RESPONSE_OK, close, |w.files[path]|, MimeOf(path)), if verb.GET? then w.files[path] else "", verb)
  }

  function RespondPath(w: World, path: string, verb: Method, close: bool): Reply {
    if IsCgiRequest(path) then RespondCgi(w, path, verb, close) else RespondFile(w, path, verb, close)
  }

  function RespondTo(w: World, request: Parsed): Reply {
    match request
    case Invalid => Refusal(RESPONSE_BAD_REQUEST, GET)
    case Valid(verb, url, headers, close) => RespondPath(w, w.dir + url, verb, close)
  }

  function Respond(w: World, text: string): Reply {
    RespondTo(w, ParseRequest(text))
  }

  /** The server over a world, as a responder: what the laws below hold for any responder. */
  function Responder(w: World): string -> Reply {
    (text: string) => Respond(w, text)
  }

  datatype Served = Served(replies: seq<Reply>, rest: string, closed: bool)

  function After(replies: seq<Reply>, s: Served): Served {
    Served(replies + s.replies, s.rest, s.closed)
  }

  /** Every complete request in the buffer is answered in turn, until one ends the connection. */
  function Serve(answer: string -> Reply, buf: string): Served
    decreases |buf|
  {
    var pop := PopTill(buf, BLANK_LINE);
    match pop.found
    case None => Served([], buf, false)
    case Some(text) =>
      var reply := answer(text);
      if reply.head.close then Served([reply], pop.rest, true) else After([reply], Serve(answer, pop.rest))
  }

  function Messages(rs: seq<Reply>): seq<Message> {
    if rs == [] then [] else [MessageOf(rs[0])] + Messages(rs[1..])
  }

  function Methods(rs: seq<Reply>): seq<Method> {
    if rs == [] then [] else [rs[0].asked] + Methods(rs[1..])
  }

  /** The bytes sent for these replies. */
  function Bytes(rs: seq<Reply>): string {
    Stream(Messages(rs))
  }

  // ---- chunking ----

  lemma ServeNext(answer: string -> Reply, buf: string, text: string, rest: string)
    requires PopTill(buf, BLANK_LINE) == Pop(Some(text), rest)
    ensures Serve(answer, buf) ==
            if answer(text).head.close then Served([answer(text)], rest, true)
            else After([answer(text)], Serve(answer, rest))
  {
  }

  /** One request more answered, on top of those done. */
  lemma ServeNextAfter(answer: string -> Reply, done: seq<Reply>, buf: string, text: string, rest: string)
    requires PopTill(buf, BLANK_LINE) == Pop(Some(text), rest)
    ensures After(done, Serve(answer, buf)) ==
            if answer(text).head.close then Served(done + [answer(text)], rest, true)
            else After(done + [answer(text)], Serve(answer, rest))
  {
    ServeNext(answer, buf, text, rest);
    var s := Serve(answer, rest);
    assert done + ([answer(text)] + s.replies) == done + [answer(text)] + s.replies;
  }

  lemma ServeEnd(answer: string -> Reply, done: seq<Reply>, buf: string)
    requires PopTill(buf, BLANK_LINE).found.None?
    ensures After(done, Serve(answer, buf)) == Served(done, buf, false)
  {
  }

  /** What has been served of a stream, carried on with more bytes. */
  function CarryOn(answer: string -> Reply, s: Served, more: string): Served {
    if s.closed then Served(s.replies, s.rest + more, true) else After(s.replies, Serve(answer, s.rest + more))
  }

  lemma {:induction false} CarryOnAfter(answer: string -> Reply, r: Reply, s: Served, more: string)
    ensures CarryOn(answer, After([r], s), more) == After([r], CarryOn(answer, s, more))
  {
  }

  /** More bytes only add to what has been served; nothing answered before is changed by them. */
  lemma {:induction false} ServeMore(answer: string -> Reply, a: string, b: string)
    ensures Serve(answer, a + b) == CarryOn(answer, Serve(answer, a), b)
    decreases |a|
  {
    var pop := PopTill(a, BLANK_LINE);
    if pop.found.Some? {
      var text, rest := pop.found.value, pop.rest;
      Regroup(text, rest, b);
      PopOfFramed(text, rest + b, BLANK_LINE);
      ServeNext(answer, a, text, rest);
      ServeNext(answer, a + b, text, rest + b);
      if !answer(text).head.close {
        ServeMore(answer, rest, b);
        CarryOnAfter(answer, answer(text), Serve(answer, rest), b);
      }
    } else {
      assert Serve(answer, a) == Served([], a, false);
    }
  }

  /** A connection between two wake-ups: unanswered bytes, whether it is still there, what it has been sent. */
  datatype Session = Session(pending: string, open: bool, replies: seq<Reply>)

  const FRESH := Session("", true, [])

  /** One wake-up that received `chunk`. */
  function Feed(answer: string -> Reply, s: Session, chunk: string): Session {
    if !s.open then s
    else
      var r := Serve(answer, s.pending + chunk);
      Session(r.rest, !r.closed, s.replies + r.replies)
  }

  /** A wake-up that received `chunk` and the end of the stream: the connection goes, and the chunk with it. */
  function HangUp(s: Session, chunk: string): Session {
    if !s.open then s else Session(s.pending + chunk, false, s.replies)
  }

  function FeedAll(answer: string -> Reply, s: Session, chunks: seq<string>): Session {
    if chunks == [] then s else Feed(answer, FeedAll(answer, s, chunks[..|chunks| - 1]), chunks[|chunks| - 1])
  }

  lemma {:induction false} FedIsServed(answer: string -> Reply, chunks: seq<string>)
    ensures var f, s := FeedAll(answer, FRESH, chunks), Serve(answer, Concat(chunks));
            f.replies == s.replies && f.open == !s.closed && (f.open ==> f.pending == s.rest)
  {
    if chunks != [] {
      var before, last := chunks[..|chunks| - 1], chunks[|chunks| - 1];
      FedIsServed(answer, before);
      ConcatLast(chunks);
      ServeMore(answer, Concat(before), last);
    } else {
      NothingToServe(answer, "");
    }
  }

  lemma NothingToServe(answer: string -> Reply, buf: string)
    requires |buf| < |BLANK_LINE|
    ensures Serve(answer, buf) == Served([], buf, false)
  {
  }

  /**
   * The bytes sent depend only on the bytes received: however the same stream was cut into wake-ups, the same
   * replies go out, the connection ends or not alike, and the same bytes stay unanswered.
   */
  lemma ChunkingIrrelevant(answer: string -> Reply, chunks: seq<string>, chunks': seq<string>)
    requires Concat(chunks) == Concat(chunks')
    ensures var f, f' := FeedAll(answer, FRESH, chunks), FeedAll(answer, FRESH, chunks');
            Bytes(f.replies) == Bytes(f'.replies) && f.open == f'.open && (f.open ==> f == f')
  {
    FedIsServed(answer, chunks);
    FedIsServed(answer, chunks');
  }

  /**
   * The end of the stream in a wake-up of its own loses nothing. Together with bytes it loses exactly the
   * requests that those bytes complete: the replies are those of the whole stream if and only if the connection
   * was gone already or no complete request is waiting.
   */
  lemma EndOfStreamExactly(answer: string -> Reply, chunks: seq<string>, last: string)
    ensures var f := FeedAll(answer, FRESH, chunks);
            HangUp(f, last).replies == Serve(answer, Concat(chunks) + last).replies
            <==> !f.open || Free(f.pending + last, BLANK_LINE)
  {
    FedIsServed(answer, chunks);
    ServeMore(answer, Concat(chunks), last);
    var f := FeedAll(answer, FRESH, chunks);
    FreeIsNone(f.pending + last, BLANK_LINE);
    if f.open && !Free(f.pending + last, BLANK_LINE) {
      assert Serve(answer, f.pending + last).replies != [];
      assert |Serve(answer, Concat(chunks) + last).replies| > |f.replies|;
    }
  }

  // ---- pipelining ----

  /** Replies to requests that arrived one after the other, up to the first that ends the connection. */
  function InOrder(answer: string -> Reply, texts: seq<string>): seq<Reply> {
    if texts == [] then []
    else
      var reply := answer(texts[0]);
      if reply.head.close then [reply] else [reply] + InOrder(answer, texts[1..])
  }

  lemma {:induction false} PipelinedInOrder(answer: string -> Reply, texts: seq<string>)
    requires forall t :: t in texts ==> Framed(t, BLANK_LINE)
    ensures Serve(answer, Concat(texts)).replies == InOrder(answer, texts)
  {
    if texts == [] {
      NothingToServe(answer, "");
    } else {
      PopOfFramed(texts[0], Concat(texts[1..]), BLANK_LINE);
      PipelinedInOrder(answer, texts[1..]);
    }
  }
}
