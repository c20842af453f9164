/**
 * `ProcessHttpRequest` with everything it works on: the connection and its buffers, the parsed request, the
 * response under construction and the linked-list cache. Its contract speaks of `Serve` alone, which knows of no
 * cache: the cache never shows in the bytes.
 */
module ServerLoop {
  import opened Prelude
  import opened Buffers
  import opened Requests
  import opened Responses
  import opened Server
  import opened Connections
  import Lru
  import LruCache

  /** Whatever is cached is what the file of that name holds. */
  ghost predicate Honest(es: seq<Lru.Entry>, w: World) {
    forall e :: e in es ==> e.key in w.files && e.data == w.files[e.key]
  }

  ghost predicate HonestCache(cache: LruCache.Cache, w: World, now: nat)
    reads cache, cache.nodes
  {
    cache.Valid() && cache.clock <= now && Honest(cache.entries, w)
  }

  lemma HonestKept(es: seq<Lru.Entry>, w: World, capacity: nat, path: string)
    requires Honest(es, w) && path in w.files
    ensures Honest(Lru.Loaded(es, path), w)
    ensures Honest(Lru.Inserted(es, capacity, Lru.Entry(path, w.files[path])), w)
    ensures Lru.Has(es, path) ==> Lru.Lookup(es, path) == Some(w.files[path])
  {
    Lru.NothingElseComesIn(es, capacity, Lru.Entry(path, w.files[path]));
    if Lru.Has(es, path) {
      Lru.LookupIn(es, path);
    }
  }

  /** The file's bytes, from the cache or else from disk and then cached. */
  method LoadThroughCache(w: World, cache: LruCache.Cache, path: string, now: nat) returns (content: string)
    requires HonestCache(cache, w, now) && path in w.files
    modifies cache, cache.nodes
    ensures HonestCache(cache, w, now) && fresh(cache.nodes - old(cache.nodes))
    ensures content == w.files[path]
    ensures cache.entries == Lru.Accessed(old(cache.entries), cache.capacity, (p: string) => if p in w.files then w.files[p] else "", path)
  {
    HonestKept(cache.entries, w, cache.capacity, path);
    var cached;
    cached, content := cache.TryLoad(path, "", now);
    if !cached {
      content := content + w.files[path];
      var inserted := cache.TryInsert(path, content, now);
    }
  }

  /** Prints the head of a response. */
  method PrintHead(status: string, close: bool, resource: Option<string>, files: map<string, string>) returns (buf: string)
    ensures buf == Text(if resource.Some? && resource.value in files
                        then Head(status, close, |files[resource.value]|, MimeOf(resource.value))
                        else Head(status, close, 0, None))
  {
    var response := new Response(status, close, resource, files);
    buf := response.Serialize("");
  }

  /** A head for bytes that come from no file: its length is put in afterwards. */
  method PrintCgiHead(close: bool, length: nat) returns (buf: string)
    ensures buf == Text(Head(RESPONSE_OK, close, length, None))
  {
    var response := new Response(RESPONSE_OK, close, None, map[]);
    var changed := response.ChangeHeader(HEADER_CONTENT_LENGTH, Decimal(length));
    ChangedLength(close, Decimal(length));
    buf := response.Serialize("");
  }

  lemma ChangedSkip(h: Header, hs: seq<Header>, key: string, value: string)
    requires |h.key| != |key|
    ensures Changed([h] + hs, key, value) == [h] + Changed(hs, key, value)
  {
    assert ([h] + hs)[1..] == hs;
  }

  lemma ChangedLength(close: bool, value: string)
    ensures Changed(ReplyHeaders(close, CONTENT_LENGTH_ZERO, None), HEADER_CONTENT_LENGTH, value) == ReplyHeaders(close, value, None)
  {
    var server := Header(HEADER_SERVER, SERVER_TURTLE);
    var connection := Header(HEADER_CONNECTION, if close then CONNECTION_CLOSE else CONNECTION_KEEP_ALIVE);
    var last := [Header(HEADER_CONTENT_LENGTH, CONTENT_LENGTH_ZERO)];
    assert ReplyHeaders(close, CONTENT_LENGTH_ZERO, None) == [server] + ([connection] + last);
    ChangedSkip(server, [connection] + last, HEADER_CONTENT_LENGTH, value);
    ChangedSkip(connection, last, HEADER_CONTENT_LENGTH, value);
    assert ReplyHeaders(close, value, None) == [server] + ([connection] + [Header(HEADER_CONTENT_LENGTH, value)]);
  }

  method AnswerCgi(w: World, path: string, verb: Method, close: bool) returns (buf: string, last: bool)
    ensures var r := RespondCgi(w, path, verb, close); buf == Text(r.head) + r.body && last == r.head.close
  {
    var program := CgiProgram(path);
    if program.None? {
      buf := PrintHead(RESPONSE_BAD_REQUEST, true, None, w.files);
      return buf, true;
    }
    if program.value !in w.files {
      buf := PrintHead(RESPONSE_NOT_FOUND, true, None, w.files);
      return buf, true;
    }
    var result := w.cgi(path);
    buf := PrintCgiHead(close, |result|);
    return buf + result, close;
  }

  method AnswerFile(w: World, cache: LruCache.Cache, path: string, verb: Method, close: bool, now: nat)
    returns (buf: string, last: bool)
    requires HonestCache(cache, w, now)
    modifies cache, cache.nodes
    ensures HonestCache(cache, w, now) && fresh(cache.nodes - old(cache.nodes))
    ensures var r := RespondFile(w, path, verb, close); buf == Text(r.head) + r.body && last == r.head.close
  {
    if path !in w.files {
      buf := PrintHead(RESPONSE_NOT_FOUND, true, None, w.files);
      return buf, true;
    }
    buf := PrintHead(RESPONSE_OK, close, Some(path), w.files);
    last := close;
    var content := "";
    if verb == GET {
      content := LoadThroughCache(w, cache, path, now);
    }
    buf := buf + content;
  }

  method AnswerPath(w: World, cache: LruCache.Cache, path: string, verb: Method, close: bool, now: nat)
    returns (buf: string, last: bool)
    requires HonestCache(cache, w, now)
    modifies cache, cache.nodes
    ensures HonestCache(cache, w, now) && fresh(cache.nodes - old(cache.nodes))
    ensures var r := RespondPath(w, path, verb, close); buf == Text(r.head) + r.body && last == r.head.close
  {
    if IsCgiRequest(path) {
      buf, last := AnswerCgi(w, path, verb, close);
    } else {
      buf, last := AnswerFile(w, cache, path, verb, close, now);
    }
  }

  method AnswerRequest(w: World, cache: LruCache.Cache, request: Request, now: nat) returns (buf: string, last: bool)
    requires HonestCache(cache, w, now)
    modifies cache, cache.nodes
    ensures HonestCache(cache, w, now) && fresh(cache.nodes - old(cache.nodes))
    ensures var r := RespondTo(w, request.Value()); buf == Text(r.head) + r.body && last == r.head.close
  {
    if !request.isValid {
      buf := PrintHead(RESPONSE_BAD_REQUEST, true, None, w.files);
      return buf, true;
    }
    buf, last := AnswerPath(w, cache, w.dir + request.resourceUrl, request.verb, request.shouldClose, now);
  }

  /** The bytes of one reply. */
  function Wire(r: Reply): string {
    Text(r.head) + r.body
  }

  /** What the k-th Send of a connection puts into the socket for a reply. */
  function Put(socket: nat -> Outlet, k: nat, r: Reply): string {
    Through(socket(k), Wire(r))
  }

  /**
   * `answer` is what the server over `w` answers, and `put` is what of it goes into the socket. The serving loop and what
   * it calls are stated over these two, as ghost parameters, because they hold for any answering and any socket: their
   * proofs then do not see the insides of parsing, printing and sending. `ProcessHttpRequest` fixes both.
   */
  ghost predicate Speaks(answer: string -> Reply, put: (nat, Reply) -> string, w: World, socket: nat -> Outlet) {
    && (forall text {:trigger Respond(w, text)} :: answer(text) == Respond(w, text))
    && (forall k: nat, r {:trigger Put(socket, k, r)} :: put(k, r) == Put(socket, k, r))
  }

  /** What goes into the socket for these replies, one Send for each, the first of them the `first` of the connection. */
  function PutAll(put: (nat, Reply) -> string, first: nat, rs: seq<Reply>): string {
    if rs == [] then ""
    else
      var n := |rs| - 1;
      PutAll(put, first, rs[..n]) + put(first + n, rs[n])
  }

  /** The response to one request, and whether it is the last. */
  method Answer(w: World, cache: LruCache.Cache, text: string, now: nat) returns (buf: string, last: bool)
    requires HonestCache(cache, w, now)
    modifies cache, cache.nodes
    ensures HonestCache(cache, w, now) && fresh(cache.nodes - old(cache.nodes))
    ensures buf == Wire(Respond(w, text)) && last == Respond(w, text).head.close
  {
    var request := new Request(text);
    buf, last := AnswerRequest(w, cache, request, now);
  }

  /** One turn of the loop: answers one request and sends the answer. */
  method AnswerAndSend(w: World, cache: LruCache.Cache, conn: Connection, text: string, now: nat,
                       ghost answer: string -> Reply, ghost put: (nat, Reply) -> string)
    returns (last: bool)
    requires HonestCache(cache, w, now) && Speaks(answer, put, w, conn.socket)
    requires conn.Valid() && conn.writeBuffer.buf == ""
    modifies cache, cache.nodes, conn`sent, conn`sends, conn.writeBuffer
    ensures HonestCache(cache, w, now) && fresh(cache.nodes - old(cache.nodes))
    ensures conn.writeBuffer.buf == ""
    ensures conn.sends == old(conn.sends) + 1
    ensures conn.sent == old(conn.sent) + put(old(conn.sends), answer(text))
    ensures last == answer(text).head.close
  {
    ghost var r, k := answer(text), conn.sends;
    assert r == Respond(w, text);
    var responseBuf;
    responseBuf, last := Answer(w, cache, text, now);
    assert put(k, r) == Put(conn.socket, k, r) == Through(conn.socket(k), responseBuf);
    SendBuffer(conn, responseBuf);
  }

  /** Writes to the write buffer, and sends. */
  method SendBuffer(conn: Connection, responseBuf: string)
    requires conn.Valid() && conn.writeBuffer.buf == ""
    modifies conn`sent, conn`sends, conn.writeBuffer
    ensures conn.writeBuffer.buf == "" && conn.sends == old(conn.sends) + 1
    ensures conn.sent == old(conn.sent) + Through(conn.socket(old(conn.sends)), responseBuf)
  {
    conn.writeBuffer.Append(responseBuf);
    assert conn.writeBuffer.buf == responseBuf;
    conn.Send();
  }

  /** The turn as the loop takes it: if the connection goes on, the next request is popped. */
  method Turn(w: World, cache: LruCache.Cache, conn: Connection, text: string, now: nat,
              ghost answer: string -> Reply, ghost put: (nat, Reply) -> string)
    returns (last: bool, next: Option<string>)
    requires HonestCache(cache, w, now) && Speaks(answer, put, w, conn.socket)
    requires conn.Valid() && conn.writeBuffer.buf == ""
    modifies cache, cache.nodes, conn`sent, conn`sends, conn.readBuffer, conn.writeBuffer
    ensures HonestCache(cache, w, now) && fresh(cache.nodes - old(cache.nodes))
    ensures conn.writeBuffer.buf == ""
    ensures conn.sends == old(conn.sends) + 1
    ensures conn.sent == old(conn.sent) + put(old(conn.sends), answer(text))
    ensures last == answer(text).head.close
    ensures if last then conn.readBuffer.buf == old(conn.readBuffer.buf)
            else Pop(next, conn.readBuffer.buf) == PopTill(old(conn.readBuffer.buf), BLANK_LINE)
  {
    last := AnswerAndSend(w, cache, conn, text, now, answer, put);
    next := None;
    if !last {
      next := conn.readBuffer.FindAndPopTill(BLANK_LINE);
    }
  }

  /** How far the loop has come: `done` is answered, `pending` is what the buffer held before the last pop. */
  ghost predicate Underway(answer: string -> Reply, input: string, done: seq<Reply>, pending: string, op: Option<string>, buf: string) {
    Serve(answer, input) == After(done, Serve(answer, pending)) && Pop(op, buf) == PopTill(pending, BLANK_LINE)
  }

  lemma UnderwayNext(answer: string -> Reply, input: string, done: seq<Reply>, pending: string, text: string, buf: string)
    requires Underway(answer, input, done, pending, Some(text), buf)
    ensures |buf| < |pending|
    ensures if answer(text).head.close then Serve(answer, input) == Served(done + [answer(text)], buf, true)
            else Serve(answer, input) == After(done + [answer(text)], Serve(answer, buf))
  {
    ServeNextAfter(answer, done, pending, text, buf);
  }

  /** The loop over the complete requests in the read buffer. */
  method AnswerAll(w: World, cache: LruCache.Cache, conn: Connection, now: nat,
                   ghost answer: string -> Reply, ghost put: (nat, Reply) -> string)
    returns (noMoreParse: bool)
    requires HonestCache(cache, w, now) && Speaks(answer, put, w, conn.socket)
    requires conn.Valid() && conn.writeBuffer.buf == ""
    modifies cache, cache.nodes, conn`sent, conn`sends, conn.readBuffer, conn.writeBuffer
    ensures HonestCache(cache, w, now) && fresh(cache.nodes - old(cache.nodes))
    ensures conn.writeBuffer.buf == ""
    ensures var s := Serve(answer, old(conn.readBuffer.buf));
            && conn.readBuffer.buf == s.rest && noMoreParse == s.closed
            && conn.sends == old(conn.sends) + |s.replies|
            && conn.sent == old(conn.sent) + PutAll(put, old(conn.sends), s.replies)
  {
    noMoreParse := false;
    ghost var input, pending, done := conn.readBuffer.buf, conn.readBuffer.buf, [];
    assert After(done, Serve(answer, pending)) == Serve(answer, input);
    var requestOp := conn.readBuffer.FindAndPopTill(BLANK_LINE);
    while requestOp.Some? && !noMoreParse
      invariant conn.writeBuffer.buf == ""
      invariant if noMoreParse then Serve(answer, input) == Served(done, conn.readBuffer.buf, true)
                else Underway(answer, input, done, pending, requestOp, conn.readBuffer.buf)
      invariant HonestCache(cache, w, now) && fresh(cache.nodes - old(cache.nodes))
      invariant conn.sends == old(conn.sends) + |done|
      invariant conn.sent == old(conn.sent) + PutAll(put, old(conn.sends), done)
      decreases |pending|
    {
      UnderwayNext(answer, input, done, pending, requestOp.value, conn.readBuffer.buf);
      PutOneMore(put, old(conn.sends), done, answer(requestOp.value), old(conn.sent), conn.sent, conn.sends);
      done, pending := done + [answer(requestOp.value)], conn.readBuffer.buf;
      noMoreParse, requestOp := Turn(w, cache, conn, requestOp.value, now, answer, put);
    }
    if !noMoreParse {
      ServeEnd(answer, done, pending);
    }
  }

  lemma PutOneMore(put: (nat, Reply) -> string, first: nat, rs: seq<Reply>, r: Reply, before: string, sent: string, k: nat)
    requires sent == before + PutAll(put, first, rs) && k == first + |rs|
    ensures sent + put(k, r) == before + PutAll(put, first, rs + [r])
  {
    assert (rs + [r])[..|rs|] == rs;
    Regroup(before, PutAll(put, first, rs), put(first + |rs|, r));
  }

  lemma {:induction false} BytesAppend(rs: seq<Reply>, r: Reply)
    ensures Bytes(rs + [r]) == Bytes(rs) + Wire(r)
  {
    if rs == [] {
      assert rs + [r] == [r] && [r][1..] == [];
      assert [MessageOf(r)][1..] == [];
    } else {
      BytesAppend(rs[1..], r);
      assert (rs + [r])[1..] == rs[1..] + [r];
      assert Messages(rs)[1..] == Messages(rs[1..]) && Messages(rs + [r])[1..] == Messages(rs[1..] + [r]);
      var first := MessageOf(rs[0]);
      Regroup(first.head + first.body, Bytes(rs[1..]), Wire(r));
    }
  }

  function Putting(socket: nat -> Outlet): (nat, Reply) -> string {
    (k: nat, r: Reply) => Put(socket, k, r)
  }

  /** What goes into this socket for the server's replies. */
  function Delivered(socket: nat -> Outlet, first: nat, rs: seq<Reply>): string {
    PutAll(Putting(socket), first, rs)
  }

  /** All of it gets through if and only if the socket never fails for good before one of the replies is taken. */
  lemma {:induction false} PutAllExactly(put: (nat, Reply) -> string, whole: (nat, Reply) -> string, first: nat, rs: seq<Reply>)
    requires forall k: nat, r :: |put(k, r)| <= |whole(k, r)|
    ensures |PutAll(put, first, rs)| <= |PutAll(whole, first, rs)|
    ensures PutAll(put, first, rs) == PutAll(whole, first, rs)
            <==> forall i :: 0 <= i < |rs| ==> put(first + i, rs[i]) == whole(first + i, rs[i])
  {
    if rs != [] {
      var n, before := |rs| - 1, rs[..|rs| - 1];
      PutAllExactly(put, whole, first, before);
      SumOfShorter(PutAll(put, first, before), put(first + n, rs[n]), PutAll(whole, first, before), whole(first + n, rs[n]));
      assert forall i :: 0 <= i < n ==> before[i] == rs[i];
    }
  }

  lemma {:induction false} PutAllIsBytes(whole: (nat, Reply) -> string, first: nat, rs: seq<Reply>)
    requires forall k: nat, r {:trigger whole(k, r)} :: whole(k, r) == Wire(r)
    ensures PutAll(whole, first, rs) == Bytes(rs)
  {
    if rs != [] {
      var n := |rs| - 1;
      PutAllIsBytes(whole, first, rs[..n]);
      BytesAppend(rs[..n], rs[n]);
      assert rs[..n] + [rs[n]] == rs;
    }
  }

  /** The socket does not fail for good before it has taken all of any of these replies. */
  predicate Healthy(socket: nat -> Outlet, first: nat, rs: seq<Reply>) {
    forall i :: 0 <= i < |rs| ==> !Fails(socket(first + i), |Wire(rs[i])|)
  }

  lemma {:induction false} ThroughExactly(outlet: Outlet, bytes: string)
    ensures |Through(outlet, bytes)| <= |bytes|
    ensures Through(outlet, bytes) == bytes <==> !Fails(outlet, |bytes|)
  {
  }

  /** All the bytes get through if and only if the socket is healthy. */
  lemma {:induction false} DeliveredExactly(socket: nat -> Outlet, first: nat, rs: seq<Reply>)
    ensures |Delivered(socket, first, rs)| <= |Bytes(rs)|
    ensures Delivered(socket, first, rs) == Bytes(rs) <==> Healthy(socket, first, rs)
  {
    var put, whole := Putting(socket), (k: nat, r: Reply) => Wire(r);
    forall k: nat, r
      ensures |put(k, r)| <= |whole(k, r)| && (put(k, r) == whole(k, r) <==> !Fails(socket(k), |Wire(r)|))
    {
      ThroughExactly(socket(k), Wire(r));
    }
    PutAllExactly(put, whole, first, rs);
    PutAllIsBytes(whole, first, rs);
  }

  lemma {:induction false} SumOfShorter(a: string, b: string, c: string, d: string)
    requires |a| <= |c| && |b| <= |d|
    ensures a + b == c + d <==> a == c && b == d
  {
    if a + b == c + d {
      assert |a| == |c|;
      assert a == (a + b)[..|a|] && c == (c + d)[..|c|] && b == (a + b)[|a|..] && d == (c + d)[|c|..];
    }
  }

  lemma {:induction false} SentExactly(socket: nat -> Outlet, first: nat, sent: string, rs: seq<Reply>)
    ensures sent + Delivered(socket, first, rs) == sent + Bytes(rs) <==> Healthy(socket, first, rs)
  {
    DeliveredExactly(socket, first, rs);
    SumOfShorter(sent, Delivered(socket, first, rs), sent, Bytes(rs));
  }

  /** Answers what has been received in full, and gives the connection up if one of the answers says so. */
  method ServeBuffered(w: World, cache: LruCache.Cache, conn: Connection, now: nat,
                       ghost answer: string -> Reply, ghost put: (nat, Reply) -> string)
    requires HonestCache(cache, w, now) && Speaks(answer, put, w, conn.socket)
    requires conn.Valid() && conn.alive && conn.writeBuffer.buf == ""
    modifies cache, cache.nodes, conn`sent, conn`sends, conn`alive, conn.readBuffer, conn.writeBuffer
    ensures HonestCache(cache, w, now) && fresh(cache.nodes - old(cache.nodes))
    ensures conn.writeBuffer.buf == ""
    ensures var s := Serve(answer, old(conn.readBuffer.buf));
            && conn.readBuffer.buf == s.rest && conn.alive == !s.closed
            && conn.sends == old(conn.sends) + |s.replies|
            && conn.sent == old(conn.sent) + PutAll(put, old(conn.sends), s.replies)
  {
    var noMoreParse := AnswerAll(w, cache, conn, now, answer, put);
    if noMoreParse {
      conn.alive := false;
    }
  }

  /** What a connection shows between two wake-ups: unanswered bytes, whether it is still there, and what has been sent. */
  datatype Snapshot = Snapshot(pending: string, alive: bool, sends: nat, sent: string)

  /** A wake-up that drained this. No cache comes into it. */
  ghost predicate WokenBy(answer: string -> Reply, put: (nat, Reply) -> string, a: Snapshot, script: seq<RecvResult>, b: Snapshot)
    requires Drain(script)
  {
    var input := a.pending + Received(script);
    if !script[|script| - 1].WouldBlock? then b == Snapshot(input, false, a.sends, a.sent)
    else
      var s := Serve(answer, input);
      b == Snapshot(s.rest, !s.closed, a.sends + |s.replies|, a.sent + PutAll(put, a.sends, s.replies))
  }

  /** A wake-up of the server over `w` on this socket. */
  ghost predicate Woken(w: World, socket: nat -> Outlet, a: Snapshot, script: seq<RecvResult>, b: Snapshot)
    requires Drain(script)
  {
    WokenBy(Responder(w), Putting(socket), a, script, b)
  }

  /** One wake-up of a connection. */
  method WakeUp(w: World, cache: LruCache.Cache, conn: Connection, script: seq<RecvResult>, now: nat,
                ghost answer: string -> Reply, ghost put: (nat, Reply) -> string)
    requires HonestCache(cache, w, now) && Speaks(answer, put, w, conn.socket)
    requires conn.Valid() && conn.alive && conn.writeBuffer.buf == "" && Drain(script)
    modifies cache, cache.nodes, conn, conn.readBuffer, conn.writeBuffer
    ensures HonestCache(cache, w, now) && fresh(cache.nodes - old(cache.nodes))
    ensures conn.writeBuffer.buf == ""
    ensures WokenBy(answer, put, Snapshot(old(conn.readBuffer.buf), true, old(conn.sends), old(conn.sent)), script,
                    Snapshot(conn.readBuffer.buf, conn.alive, conn.sends, conn.sent))
  {
    var read, exit := conn.Recv(script);
    if exit {
      conn.alive := false;
      return;
    }
    ServeBuffered(w, cache, conn, now, answer, put);
  }

  /**
   * One wake-up of a connection, with the cache. Whatever the cache held and whatever its capacity, what goes into the
   * socket and what becomes of the connection are those of the cacheless `Serve` on the bytes received so far.
   */
  method ProcessHttpRequest(w: World, cache: LruCache.Cache, conn: Connection, script: seq<RecvResult>, now: nat)
    requires HonestCache(cache, w, now)
    requires conn.Valid() && conn.alive && conn.writeBuffer.buf == "" && Drain(script)
    modifies cache, cache.nodes, conn, conn.readBuffer, conn.writeBuffer
    ensures HonestCache(cache, w, now) && fresh(cache.nodes - old(cache.nodes))
    ensures conn.writeBuffer.buf == ""
    ensures Woken(w, conn.socket, Snapshot(old(conn.readBuffer.buf), true, old(conn.sends), old(conn.sent)), script,
                  Snapshot(conn.readBuffer.buf, conn.alive, conn.sends, conn.sent))
    ensures var s := Serve(Responder(w), old(conn.readBuffer.buf) + Received(script));
            script[|script| - 1].WouldBlock?
            ==> (conn.sent == old(conn.sent) + Bytes(s.replies) <==> Healthy(conn.socket, old(conn.sends), s.replies))
  {
    SentExactly(conn.socket, conn.sends, conn.sent, Serve(Responder(w), conn.readBuffer.buf + Received(script)).replies);
    WakeUp(w, cache, conn, script, now, Responder(w), Putting(conn.socket));
  }
}
