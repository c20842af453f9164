/** The response stream of the server, end to end: what a client makes of the bytes it is sent. */
module ServerLaws {
  import opened Prelude
  import opened Buffers
  import opened Requests
  import opened RequestLaws
  import opened Responses
  import opened Delivery
  import opened Server

  predicate PlainStatus(status: string) {
    ':' !in StatusLine(status) && '\n' !in StatusLine(status)
  }

  lemma StatusesPlain()
    ensures PlainStatus(RESPONSE_OK) && PlainStatus(RESPONSE_BAD_REQUEST) && PlainStatus(RESPONSE_NOT_FOUND)
  {
  }

  /** A head with a plain status, and a content type from the table if it has one. */
  predicate PlainHead(h: Head) {
    PlainStatus(h.status) && (h.mime.Some? ==> exists e :: h.mime.value == ExtensionToMime(e))
  }

  lemma PlainHeadAnnounces(h: Head)
    requires PlainHead(h)
    ensures Announces(Text(h), h.length)
  {
    ReplyHeadersSimple(h.close, h.length, h.mime);
    HeadAnnounces(StatusLine(h.status), ReplyHeaders(h.close, Decimal(h.length), h.mime), h.length);
  }

  predicate AnnouncesBody(r: Reply) {
    PlainHead(r.head) && (r.asked.HEAD? || r.head.length == |r.body|)
  }

  lemma {:induction false} CgiAnnouncesBody(w: World, path: string, verb: Method, close: bool)
    ensures AnnouncesBody(RespondCgi(w, path, verb, close))
  {
    StatusesPlain();
  }

  lemma {:induction false} FileAnnouncesBody(w: World, path: string, verb: Method, close: bool)
    requires !verb.UNSUPPORTED_METHOD?
    ensures AnnouncesBody(RespondFile(w, path, verb, close))
  {
    StatusesPlain();
  }

  lemma {:induction false} OnlyKnownMethods(text: string)
    ensures ParseRequest(text).Valid? ==> !ParseRequest(text).verb.UNSUPPORTED_METHOD?
  {
  }

  /** The head of a reply announces its body, except that a HEAD reply announces the body it leaves out. */
  lemma {:induction false} ReplyAnnouncesBody(w: World, text: string)
    ensures AnnouncesBody(Respond(w, text))
  {
    OnlyKnownMethods(text);
    match ParseRequest(text)
    case Invalid => StatusesPlain();
    case Valid(verb, url, headers, close) =>
      CgiAnnouncesBody(w, w.dir + url, verb, close);
      FileAnnouncesBody(w, w.dir + url, verb, close);
  }

  lemma ReplyDeliverable(w: World, text: string)
    ensures Deliverable(Respond(w, text).asked, MessageOf(Respond(w, text)))
  {
    ReplyAnnouncesBody(w, text);
    PlainHeadAnnounces(Respond(w, text).head);
  }

  /** A HEAD is answered with a body exactly when it asks for a CGI program that exists and prints something. */
  predicate HeadOfTalkingCgi(w: World, text: string) {
    match ParseRequest(text)
    case Invalid => false
    case Valid(verb, url, headers, close) =>
      var path := w.dir + url;
      verb.HEAD? && IsCgiRequest(path) && CgiProgram(path).Some? && CgiProgram(path).value in w.files && w.cgi(path) != ""
  }

  lemma HeadBodyExactly(w: World, text: string)
    ensures HeadOfTalkingCgi(w, text) <==> Respond(w, text).asked.HEAD? && Respond(w, text).body != ""
  {
  }

  lemma {:induction false} ViewsOfReplies(rs: seq<Reply>)
    ensures |Messages(rs)| == |Methods(rs)| == |rs|
    ensures forall i :: 0 <= i < |rs| ==> Messages(rs)[i] == MessageOf(rs[i]) && Methods(rs)[i] == rs[i].asked
  {
    if rs != [] {
      ViewsOfReplies(rs[1..]);
    }
  }

  lemma {:induction false} InOrderAreReplies(answer: string -> Reply, texts: seq<string>)
    ensures |InOrder(answer, texts)| <= |texts|
    ensures forall i :: 0 <= i < |InOrder(answer, texts)| ==> InOrder(answer, texts)[i] == answer(texts[i])
  {
    if texts != [] && !answer(texts[0]).head.close {
      InOrderAreReplies(answer, texts[1..]);
    }
  }

  /** If the server could read the request at all, it read the method that the client sent it with. */
  predicate Understood(m: Method, text: string) {
    ParseRequest(text).Valid? ==> ParseRequest(text).verb == m
  }

  /** A reply is as deliverable under the method that was sent: a refusal has no body under any. */
  lemma {:induction false} SentMethodDelivers(w: World, m: Method, text: string)
    requires Understood(m, text)
    ensures Deliverable(m, MessageOf(Respond(w, text)))
    ensures HeadOfTalkingCgi(w, text) <==> m.HEAD? && Respond(w, text).body != ""
  {
    ReplyDeliverable(w, text);
    HeadBodyExactly(w, text);
    if ParseRequest(text).Invalid? {
      StatusesPlain();
      PlainHeadAnnounces(Respond(w, text).head);
    }
  }

  lemma {:induction false} DeliverableUnlessHeadOfCgi(w: World, texts: seq<string>, ms: seq<Method>, rs: seq<Reply>)
    requires |rs| == |ms| <= |texts| && forall i :: 0 <= i < |rs| ==> rs[i] == Responder(w)(texts[i]) && Understood(ms[i], texts[i])
    ensures ReceiveAll(ms, Bytes(rs)) == Some(Messages(rs))
            <==> forall i :: 0 <= i < |rs| ==> !HeadOfTalkingCgi(w, texts[i])
  {
    ViewsOfReplies(rs);
    var msgs := Messages(rs);
    forall i | 0 <= i < |rs|
      ensures Deliverable(ms[i], msgs[i])
      ensures HeadOfTalkingCgi(w, texts[i]) <==> ms[i].HEAD? && msgs[i].body != ""
    {
      SentMethodDelivers(w, ms[i], texts[i]);
    }
    StreamRecoveredExactly(ms, msgs);
  }

  /** A request as a client sends it. */
  datatype Sent = Sent(verb: Method, url: string, headers: seq<Header>)

  function Verbs(sent: seq<Sent>): seq<Method> {
    if sent == [] then [] else [sent[0].verb] + Verbs(sent[1..])
  }

  function Texts(sent: seq<Sent>): seq<string> {
    if sent == [] then [] else [Printed(sent[0].verb, sent[0].url, sent[0].headers)] + Texts(sent[1..])
  }

  lemma {:induction false} ViewsOfSent(sent: seq<Sent>)
    ensures |Verbs(sent)| == |Texts(sent)| == |sent|
    ensures forall i :: 0 <= i < |sent| ==>
              Verbs(sent)[i] == sent[i].verb && Texts(sent)[i] == Printed(sent[i].verb, sent[i].url, sent[i].headers)
  {
    if sent != [] {
      var rest := sent[1..];
      ViewsOfSent(rest);
      forall i | 0 < i < |sent|
        ensures Verbs(sent)[i] == sent[i].verb && Texts(sent)[i] == Printed(sent[i].verb, sent[i].url, sent[i].headers)
      {
        assert sent[i] == rest[i - 1] && Verbs(sent)[i] == Verbs(rest)[i - 1] && Texts(sent)[i] == Texts(rest)[i - 1];
      }
    }
  }

  /**
   * Self-delimiting end to end: a client that sent these GET and HEAD requests back to back, whatever their URLs and
   * headers as long as each ends at its first blank line, recovers from the bytes it is sent exactly the answers, in
   * order, if and only if no answered HEAD asked for a CGI program that prints something. All the client knows is the
   * methods it sent; the bodies may hold any bytes.
   */
  lemma {:induction false} ClientRecoversAnswers(w: World, sent: seq<Sent>)
    requires forall r :: r in sent ==> !r.verb.UNSUPPORTED_METHOD? && Framed(Printed(r.verb, r.url, r.headers), BLANK_LINE)
    ensures var texts := Texts(sent);
            var rs := Serve(Responder(w), Concat(texts)).replies;
            && rs == InOrder(Responder(w), texts) && |rs| <= |texts| == |Verbs(sent)|
            && (ReceiveAll(Verbs(sent)[..|rs|], Bytes(rs)) == Some(Messages(rs))
                <==> forall i :: 0 <= i < |rs| ==> !HeadOfTalkingCgi(w, texts[i]))
  {
    ViewsOfSent(sent);
    var texts := Texts(sent);
    forall i | 0 <= i < |sent| ensures Framed(texts[i], BLANK_LINE) && Understood(Verbs(sent)[i], texts[i]) {
      assert sent[i] in sent;
      PrintedMethodRead(sent[i].verb, sent[i].url, sent[i].headers);
    }
    PipelinedInOrder(Responder(w), texts);
    InOrderAreReplies(Responder(w), texts);
    var rs := InOrder(Responder(w), texts);
    DeliverableUnlessHeadOfCgi(w, texts, Verbs(sent)[..|rs|], rs);
  }
}
