/**
 * Whole lives of connections: any number of wake-ups, each with whatever cache it finds. What goes out depends on the
 * bytes that came in and on nothing else.
 */
module ServerRuns {
  import opened Prelude
  import opened Strings
  import opened Buffers
  import opened Server
  import opened Connections
  import opened ServerLoop
  import LruCache

  const BORN := Snapshot("", true, 0, "")

  /** A drain and what it does to a connection; one that is gone is not woken any more. */
  ghost predicate Lived(w: World, socket: nat -> Outlet, a: Snapshot, script: seq<RecvResult>, b: Snapshot) {
    Drain(script) && if a.alive then Woken(w, socket, a, script, b) else b == a
  }

  /** The snapshots of a connection, from its start and after each drain. */
  ghost predicate Life(w: World, socket: nat -> Outlet, scripts: seq<seq<RecvResult>>, snaps: seq<Snapshot>) {
    Chain((a, script, b) => Lived(w, socket, a, script, b), scripts, snaps)
  }

  ghost predicate Chain(step: (Snapshot, seq<RecvResult>, Snapshot) -> bool, scripts: seq<seq<RecvResult>>, snaps: seq<Snapshot>) {
    && |snaps| == |scripts| + 1 && snaps[0] == BORN
    && forall i :: 0 <= i < |scripts| ==> step(snaps[i], scripts[i], snaps[i + 1])
  }

  predicate Blocks(script: seq<RecvResult>) {
    script != [] && script[|script| - 1].WouldBlock?
  }

  /** Every drain but the last leaves the connection open; the last may be its end, if it comes without bytes. */
  predicate Orderly(scripts: seq<seq<RecvResult>>) {
    && (forall i :: 0 <= i < |scripts| - 1 ==> Blocks(scripts[i]))
    && (scripts != [] ==> Blocks(scripts[|scripts| - 1]) || Received(scripts[|scripts| - 1]) == "")
  }

  /** What each drain received. */
  function Chunks(scripts: seq<seq<RecvResult>>): seq<string> {
    if scripts == [] then [] else Chunks(scripts[..|scripts| - 1]) + [Received(scripts[|scripts| - 1])]
  }

  /** All bytes received. */
  function Input(scripts: seq<seq<RecvResult>>): string {
    Concat(Chunks(scripts))
  }

  lemma {:induction false} PutAllConcat(put: (nat, Reply) -> string, first: nat, a: seq<Reply>, b: seq<Reply>)
    ensures PutAll(put, first, a + b) == PutAll(put, first, a) + PutAll(put, first + |a|, b)
  {
    if b == [] {
      assert a + b == a;
    } else {
      var n := |b| - 1;
      PutAllConcat(put, first, a, b[..n]);
      assert (a + b)[..|a + b| - 1] == a + b[..n];
      Regroup(PutAll(put, first, a), PutAll(put, first + |a|, b[..n]), put(first + |a| + n, b[n]));
    }
  }

  lemma {:induction false} LifePrefix(w: World, socket: nat -> Outlet, scripts: seq<seq<RecvResult>>, snaps: seq<Snapshot>)
    requires Life(w, socket, scripts, snaps) && scripts != []
    ensures Life(w, socket, scripts[..|scripts| - 1], snaps[..|scripts|])
  {
  }

  lemma {:induction false} NothingMore(scripts: seq<seq<RecvResult>>)
    requires scripts != [] && Received(scripts[|scripts| - 1]) == ""
    ensures Input(scripts) == Input(scripts[..|scripts| - 1])
  {
    var chunks := Chunks(scripts[..|scripts| - 1]);
    assert Chunks(scripts) == chunks + [""];
    ConcatAppend(chunks, [""]);
    ConcatOne("");
    assert Concat(chunks) + "" == Concat(chunks);
  }

  lemma FeedLast(answer: string -> Reply, chunks: seq<string>, last: string)
    ensures FeedAll(answer, FRESH, chunks + [last]) == Feed(answer, FeedAll(answer, FRESH, chunks), last)
  {
    assert (chunks + [last])[..|chunks|] == chunks;
  }

  lemma {:induction false} DeliveredConcat(socket: nat -> Outlet, a: seq<Reply>, b: seq<Reply>)
    ensures Delivered(socket, 0, a + b) == Delivered(socket, 0, a) + Delivered(socket, |a|, b)
  {
    PutAllConcat(Putting(socket), 0, a, b);
  }

  /** A connection shows what a session does. */
  ghost predicate Shows(socket: nat -> Outlet, s: Snapshot, f: Session) {
    && s.sent == Delivered(socket, 0, f.replies) && s.sends == |f.replies|
    && s.alive == f.open && (s.alive ==> s.pending == f.pending)
  }

  lemma {:induction false} ShowsNext(w: World, socket: nat -> Outlet, s: Snapshot, f: Session, script: seq<RecvResult>, s': Snapshot)
    requires Shows(socket, s, f) && Lived(w, socket, s, script, s') && Blocks(script)
    ensures Shows(socket, s', Feed(Responder(w), f, Received(script)))
  {
    if s.alive {
      DeliveredConcat(socket, f.replies, Serve(Responder(w), f.pending + Received(script)).replies);
    }
  }

  /** While every drain leaves it open, a connection is the session fed with what was received. */
  lemma {:induction false} LifeIsSession(w: World, socket: nat -> Outlet, scripts: seq<seq<RecvResult>>, snaps: seq<Snapshot>)
    requires Life(w, socket, scripts, snaps) && forall i :: 0 <= i < |scripts| ==> Blocks(scripts[i])
    ensures Shows(socket, snaps[|scripts|], FeedAll(Responder(w), FRESH, Chunks(scripts)))
  {
    if scripts != [] {
      var n := |scripts| - 1;
      LifePrefix(w, socket, scripts, snaps);
      LifeIsSession(w, socket, scripts[..n], snaps[..n + 1]);
      assert snaps[..n + 1][n] == snaps[n];
      FeedLast(Responder(w), Chunks(scripts[..n]), Received(scripts[n]));
      ShowsNext(w, socket, snaps[n], FeedAll(Responder(w), FRESH, Chunks(scripts[..n])), scripts[n], snaps[n + 1]);
    }
  }

  lemma {:induction false} OpenSentIsServed(w: World, socket: nat -> Outlet, scripts: seq<seq<RecvResult>>, snaps: seq<Snapshot>)
    requires Life(w, socket, scripts, snaps) && forall i :: 0 <= i < |scripts| ==> Blocks(scripts[i])
    ensures snaps[|scripts|].sent == Delivered(socket, 0, Serve(Responder(w), Input(scripts)).replies)
  {
    LifeIsSession(w, socket, scripts, snaps);
    FedIsServed(Responder(w), Chunks(scripts));
  }

  /** A connection that received its bytes in whatever portions was sent what its socket let through of the answers, and nothing else. */
  lemma {:induction false} SentIsServed(w: World, socket: nat -> Outlet, scripts: seq<seq<RecvResult>>, snaps: seq<Snapshot>)
    requires Life(w, socket, scripts, snaps) && Orderly(scripts)
    ensures snaps[|scripts|].sent == Delivered(socket, 0, Serve(Responder(w), Input(scripts)).replies)
  {
    if scripts == [] || Blocks(scripts[|scripts| - 1]) {
      OpenSentIsServed(w, socket, scripts, snaps);
    } else {
      var n := |scripts| - 1;
      LifePrefix(w, socket, scripts, snaps);
      OpenSentIsServed(w, socket, scripts[..n], snaps[..n + 1]);
      assert snaps[n + 1].sent == snaps[n].sent == snaps[..n + 1][n].sent;
      NothingMore(scripts);
    }
  }

  /**
   * If the last drain ends the connection and brings bytes with it, these are not answered: what is sent is what the
   * socket lets through of the answers to the bytes before, and those are all the answers if and only if the connection
   * was gone already or no complete request was waiting.
   */
  lemma {:induction false} LastBytesExactly(w: World, socket: nat -> Outlet, scripts: seq<seq<RecvResult>>, snaps: seq<Snapshot>)
    requires Life(w, socket, scripts, snaps) && scripts != [] && !Blocks(scripts[|scripts| - 1])
    requires forall i :: 0 <= i < |scripts| - 1 ==> Blocks(scripts[i])
    ensures var n := |scripts| - 1;
            var f, last := FeedAll(Responder(w), FRESH, Chunks(scripts[..n])), Received(scripts[n]);
            && Shows(socket, snaps[n + 1], HangUp(f, last))
            && (HangUp(f, last).replies == Serve(Responder(w), Input(scripts[..n]) + last).replies
                <==> !f.open || Free(f.pending + last, BLANK_LINE))
  {
    var n := |scripts| - 1;
    LifePrefix(w, socket, scripts, snaps);
    LifeIsSession(w, socket, scripts[..n], snaps[..n + 1]);
    assert snaps[..n + 1][n] == snaps[n];
    assert Lived(w, socket, snaps[n], scripts[n], snaps[n + 1]);
    EndOfStreamExactly(Responder(w), Chunks(scripts[..n]), Received(scripts[n]));
  }

  /**
   * Two connections that received the same bytes were sent the same bytes, however the bytes were portioned and whether
   * or not the end of the stream has been seen, if their sockets behaved alike or let everything through.
   */
  lemma {:induction false} SentDependsOnlyOnReceived(
      w: World, socket: nat -> Outlet, scripts: seq<seq<RecvResult>>, snaps: seq<Snapshot>,
      socket': nat -> Outlet, scripts': seq<seq<RecvResult>>, snaps': seq<Snapshot>)
    requires Life(w, socket, scripts, snaps) && Orderly(scripts) && Life(w, socket', scripts', snaps') && Orderly(scripts')
    requires Input(scripts) == Input(scripts')
    requires var rs := Serve(Responder(w), Input(scripts)).replies;
             socket == socket' || (Healthy(socket, 0, rs) && Healthy(socket', 0, rs))
    ensures snaps[|scripts|].sent == snaps'[|scripts'|].sent
  {
    SentIsServed(w, socket, scripts, snaps);
    SentIsServed(w, socket', scripts', snaps');
    DeliveredExactly(socket, 0, Serve(Responder(w), Input(scripts)).replies);
    DeliveredExactly(socket', 0, Serve(Responder(w), Input(scripts)).replies);
  }

  // ---- real connections and caches ----

  /** The caches are valid and hold nothing but what the files hold, and any two of them are one or apart. */
  ghost predicate Ready(w: World, caches: seq<LruCache.Cache>, now: nat)
    reads set c | c in caches, set c, n | c in caches && n in c.nodes :: n
  {
    && (forall c :: c in caches ==> HonestCache(c, w, now))
    && (forall c, d :: c in caches && d in caches && c != d ==> c.nodes !! d.nodes)
  }

  /** One wake-up with one of the caches leaves all of them ready. */
  method WakeUpWith(w: World, caches: seq<LruCache.Cache>, cache: LruCache.Cache, conn: Connection, script: seq<RecvResult>,
                    now: nat)
    requires Ready(w, caches, now) && cache in caches
    requires conn.Valid() && conn.alive && conn.writeBuffer.buf == "" && Drain(script)
    modifies cache, cache.nodes, conn, conn.readBuffer, conn.writeBuffer
    ensures Ready(w, caches, now) && fresh(cache.nodes - old(cache.nodes))
    ensures conn.writeBuffer.buf == ""
    ensures Woken(w, conn.socket, Snapshot(old(conn.readBuffer.buf), true, old(conn.sends), old(conn.sent)), script,
                  Snapshot(conn.readBuffer.buf, conn.alive, conn.sends, conn.sent))
  {
    ProcessHttpRequest(w, cache, conn, script, now);
  }

  /** One drain: nothing happens any more to a connection that is gone. */
  method LiveThrough(w: World, caches: seq<LruCache.Cache>, cache: LruCache.Cache, conn: Connection, script: seq<RecvResult>,
                     now: nat, later: nat) returns (after: Snapshot)
    requires Ready(w, caches, now) && cache in caches && now <= later
    requires conn.Valid() && conn.writeBuffer.buf == "" && Drain(script)
    modifies cache, cache.nodes, conn, conn.readBuffer, conn.writeBuffer
    ensures Ready(w, caches, later) && forall c :: c in caches ==> fresh(c.nodes - old(c.nodes))
    ensures conn.writeBuffer.buf == ""
    ensures after == Snapshot(conn.readBuffer.buf, conn.alive, conn.sends, conn.sent)
    ensures Lived(w, conn.socket, Snapshot(old(conn.readBuffer.buf), old(conn.alive), old(conn.sends), old(conn.sent)), script, after)
  {
    if conn.alive {
      WakeUpWith(w, caches, cache, conn, script, now);
    }
    ReadyLater(w, caches, now, later);
    after := Snapshot(conn.readBuffer.buf, conn.alive, conn.sends, conn.sent);
  }

  lemma {:induction false} ReadyLater(w: World, caches: seq<LruCache.Cache>, now: nat, later: nat)
    requires Ready(w, caches, now) && now <= later
    ensures Ready(w, caches, later)
  {
    assert forall c :: c in caches && HonestCache(c, w, now) ==> HonestCache(c, w, later);
  }

  lemma {:induction false} ChainGrows(step: (Snapshot, seq<RecvResult>, Snapshot) -> bool, scripts: seq<seq<RecvResult>>,
                                      snaps: seq<Snapshot>, script: seq<RecvResult>, b: Snapshot)
    requires Chain(step, scripts, snaps) && step(snaps[|scripts|], script, b)
    ensures Chain(step, scripts + [script], snaps + [b])
  {
    var all, after := scripts + [script], snaps + [b];
    forall i | 0 <= i < |all| ensures step(after[i], all[i], after[i + 1]) {
      if i < |scripts| {
        assert all[i] == scripts[i] && after[i] == snaps[i] && after[i + 1] == snaps[i + 1];
      }
    }
  }

  lemma {:induction false} LifeGrows(w: World, socket: nat -> Outlet, scripts: seq<seq<RecvResult>>, k: nat, snaps: seq<Snapshot>, after: Snapshot)
    requires k < |scripts| && Life(w, socket, scripts[..k], snaps) && Lived(w, socket, snaps[k], scripts[k], after)
    ensures Life(w, socket, scripts[..k + 1], snaps + [after])
  {
    var step := (a, script, b) => Lived(w, socket, a, script, b);
    assert step(snaps[k], scripts[k], after);
    ChainGrows(step, scripts[..k], snaps, scripts[k], after);
    assert scripts[..k + 1] == scripts[..k] + [scripts[k]];
  }

  /** A new connection is woken once for each of these drains, each time with a cache of whatever contents and capacity. */
  method LiveOut(w: World, caches: seq<LruCache.Cache>, conn: Connection, scripts: seq<seq<RecvResult>>, times: seq<nat>)
    returns (snaps: seq<Snapshot>)
    requires |caches| == |times| == |scripts| && forall i, j :: 0 <= i <= j < |times| ==> times[i] <= times[j]
    requires (forall i :: 0 <= i < |scripts| ==> Drain(scripts[i])) && (scripts != [] ==> Ready(w, caches, times[0]))
    requires conn.Valid() && conn.alive && conn.readBuffer.buf == "" && conn.writeBuffer.buf == "" && conn.sent == "" && conn.sends == 0
    modifies set c | c in caches, set c, n | c in caches && n in c.nodes :: n
    modifies conn, conn.readBuffer, conn.writeBuffer
    ensures Life(w, conn.socket, scripts, snaps) && snaps[|scripts|] == Snapshot(conn.readBuffer.buf, conn.alive, conn.sends, conn.sent)
  {
    snaps := [BORN];
    for k := 0 to |scripts|
      invariant k < |scripts| ==> Ready(w, caches, times[k])
      invariant forall c :: c in caches ==> fresh(c.nodes - old(c.nodes))
      invariant conn.writeBuffer.buf == ""
      invariant Life(w, conn.socket, scripts[..k], snaps) && snaps[k] == Snapshot(conn.readBuffer.buf, conn.alive, conn.sends, conn.sent)
    {
      var next := if k + 1 < |times| then times[k + 1] else times[k];
      var after := LiveThrough(w, caches, caches[k], conn, scripts[k], times[k], next);
      LifeGrows(w, conn.socket, scripts, k, snaps, after);
      snaps := snaps + [after];
    }
    assert scripts[..|scripts|] == scripts;
  }

  /**
   * A new connection through all its wake-ups, with real buffers and caches, lives a life of the kind above: what its
   * socket let through of the answers to the bytes it received, and nothing else, and all of them if and only if the
   * socket never failed for good before an answer was taken.
   */
  method ServeConnection(w: World, caches: seq<LruCache.Cache>, conn: Connection, scripts: seq<seq<RecvResult>>, times: seq<nat>)
    returns (snaps: seq<Snapshot>)
    requires |caches| == |times| == |scripts| && forall i, j :: 0 <= i <= j < |times| ==> times[i] <= times[j]
    requires (forall i :: 0 <= i < |scripts| ==> Drain(scripts[i])) && (scripts != [] ==> Ready(w, caches, times[0]))
    requires conn.Valid() && conn.alive && conn.readBuffer.buf == "" && conn.writeBuffer.buf == "" && conn.sent == "" && conn.sends == 0
    modifies set c | c in caches, set c, n | c in caches && n in c.nodes :: n
    modifies conn, conn.readBuffer, conn.writeBuffer
    ensures Life(w, conn.socket, scripts, snaps) && snaps[|scripts|] == Snapshot(conn.readBuffer.buf, conn.alive, conn.sends, conn.sent)
    ensures var rs := Serve(Responder(w), Input(scripts)).replies;
            Orderly(scripts) ==> conn.sent == Delivered(conn.socket, 0, rs) && (conn.sent == Bytes(rs) <==> Healthy(conn.socket, 0, rs))
  {
    snaps := LiveOut(w, caches, conn, scripts, times);
    if Orderly(scripts) {
      SentIsServed(w, conn.socket, scripts, snaps);
      DeliveredExactly(conn.socket, 0, Serve(Responder(w), Input(scripts)).replies);
    }
  }
}
