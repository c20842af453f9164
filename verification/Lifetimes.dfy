/**
 * The life of connections under one loop thread and any number of acceptor threads (src/core/looper.cpp,
 * src/core/timer.cpp, src/core/acceptor.cpp), as a machine whose steps are what happens between two acquisitions of
 * a lock. A loop round polls, handles the ready connections one by one, and runs the timer callback last; acceptors
 * add connections meanwhile, in three steps that hold the looper's lock; time passes at any point.
 *
 * Descriptors are reused: `gen` numbers the successive users of a descriptor.
 */
module Lifetimes {
  import opened Timers
  import opened Loopers

  /** A connection as a ready list points to it. */
  datatype Pointer = Pointer(fd: int, gen: nat)

  /** The acceptor inside AddConnection, if there is one; it holds the looper's lock. */
  datatype Adding = Nobody | Inserted(fd: int) | TimerAdded(fd: int, timer: SingleTimer)

  /** Where the loop thread is. */
  datatype Loop =
    | Polling
    | Handling(ready: seq<Pointer>, timerReady: bool)                   // callbacks still to run
    | Serving(current: Pointer, ready: seq<Pointer>, timerReady: bool)  // between refresh and the custom handler's end
    | Firing(due: seq<SingleTimer>)                                     // pruned timers whose callbacks are still to run

  datatype State = State(tables: Tables, now: nat, nextId: nat, nextGen: nat, adding: Adding, loop: Loop)

  datatype Config = Config(expiration: nat, filing: Filing)

  datatype Action =
    | Tick(later: nat)
    | BeginAdd(fd: int) | AddTimer | EndAdd
    | Poll(ready: seq<Pointer>, timerReady: bool)
    | RefreshNext | Keep | Close
    | EndHandling | Prune(count: nat, later: nat)
    | Fire | EndFiring

  const START := State(Tables(map[], map[], []), 0, 0, 0, Nobody, Polling)

  function Due(s: State): seq<SingleTimer> {
    if s.loop.Firing? then s.loop.due else []
  }

  /** Connections that the loop thread is going to touch in this round. */
  function Touched(s: State): seq<Pointer> {
    match s.loop
    case Handling(ready, _) => ready
    case Serving(current, ready, _) => [current] + ready
    case _ => []
  }

  predicate Live(s: State, p: Pointer) {
    p.fd in s.tables.conns && s.tables.conns[p.fd].gen == p.gen
  }

  ghost predicate DistinctFds(ps: seq<Pointer>) {
    forall i, j :: 0 <= i < j < |ps| ==> ps[i].fd != ps[j].fd
  }

  /**
   * What the surroundings guarantee and where the locks let a step happen. An accepted descriptor is not in use, and a
   * poll reports live connections, each once.
   */
  ghost predicate CanHappen(s: State, a: Action) {
    match a
    case Tick(later) => s.now <= later
    case BeginAdd(fd) => s.adding.Nobody? && fd !in s.tables.conns
    case AddTimer => s.adding.Inserted?
    case EndAdd => s.adding.TimerAdded?
    case Poll(ready, _) => s.loop.Polling? && DistinctFds(ready) && forall p :: p in ready ==> Live(s, p)
    case RefreshNext => s.adding.Nobody? && s.loop.Handling? && s.loop.ready != []
    case Keep => s.loop.Serving?
    case Close => s.adding.Nobody? && s.loop.Serving?
    case EndHandling => s.loop.Handling? && s.loop.ready == [] && !s.loop.timerReady
    case Prune(count, later) =>
      && s.loop.Handling? && s.loop.ready == [] && s.loop.timerReady && s.now <= later && count <= |s.tables.queue|
      && (0 < count ==> s.tables.queue[count - 1].expiry <= later)
      && (count < |s.tables.queue| ==> s.now < s.tables.queue[count].expiry)
    case Fire => s.adding.Nobody? && s.loop.Firing? && s.loop.due != []
    case EndFiring => s.loop.Firing? && s.loop.due == []
  }

  /** A step that can happen, and that creates no timer at an expiry that another queued timer has. */
  ghost predicate Enabled(c: Config, s: State, a: Action) {
    && CanHappen(s, a)
    && (a.AddTimer? ==> !Taken(s.tables.queue, s.now + c.expiration))
    && (a.RefreshNext? ==> !CollidesOnRefresh(c, s, s.loop.ready[0].fd))
  }

  /** A refresh of `fd` would find its timer, and some other queued timer already has the expiry of the new one. */
  ghost predicate CollidesOnRefresh(c: Config, s: State, fd: int) {
    && fd in s.tables.mapping && Taken(s.tables.queue, s.tables.mapping[fd].expiry)
    && Taken(Erase(s.tables.queue, s.tables.mapping[fd].expiry), s.now + c.expiration)
  }

  /** The step itself, which does not look at what `Enabled` assumes about collisions. */
  function Next(c: Config, s: State, a: Action): State {
    match a
    case Tick(later) => s.(now := later)
    case BeginAdd(fd) =>
      s.(tables := InsertConn(s.tables, fd, Accepted(s.nextGen, s.now)), nextGen := s.nextGen + 1, adding := Inserted(fd))
    case AddTimer =>
      if !s.adding.Inserted? || s.adding.fd !in s.tables.conns then s
      else
        // it counts as accepted when its timer starts running
        var conn := Accepted(s.tables.conns[s.adding.fd].gen, s.now);
        var t := SingleTimer(s.nextId, s.now + c.expiration, s.adding.fd, conn.gen);
        s.(tables := Arm(s.tables.(conns := s.tables.conns[s.adding.fd := conn]), t), nextId := s.nextId + 1,
           adding := TimerAdded(s.adding.fd, t))
    case EndAdd =>
      if !s.adding.TimerAdded? then s
      else s.(tables := FileTimer(s.tables, s.adding.fd, s.adding.timer), adding := Nobody)
    case Poll(ready, timerReady) => s.(loop := Handling(ready, timerReady))
    case RefreshNext =>
      if !s.loop.Handling? || s.loop.ready == [] then s
      else
        var fd := s.loop.ready[0].fd;
        s.(tables := Refreshed(NoteActivity(s.tables, fd, s.now), c.filing, fd, s.nextId, s.now, c.expiration),
           nextId := s.nextId + 1,
           loop := Serving(s.loop.ready[0], s.loop.ready[1..], s.loop.timerReady))
    case Keep =>
      if !s.loop.Serving? then s else s.(loop := Handling(s.loop.ready, s.loop.timerReady))
    case Close =>
      if !s.loop.Serving? then s
      else s.(tables := Deleted(s.tables, s.loop.current.fd), loop := Handling(s.loop.ready, s.loop.timerReady))
    case EndHandling => s.(loop := Polling)
    case Prune(count, later) =>
      if |s.tables.queue| < count then s
      else s.(tables := s.tables.(queue := s.tables.queue[count..]), now := later, loop := Firing(s.tables.queue[..count]))
    case Fire =>
      if !s.loop.Firing? || s.loop.due == [] then s
      else s.(tables := Deleted(s.tables, s.loop.due[0].fd), loop := Firing(s.loop.due[1..]))
    case EndFiring => s.(loop := Polling)
  }

  // ---- the invariant ----

  /** Queued or pruned and not yet run: the timer objects that exist. */
  ghost predicate Exists(s: State, t: SingleTimer) {
    t in s.tables.queue || t in Due(s)
  }

  /** The timer is the one of a live connection, filed under it or about to be, and expires when that has been idle long enough. */
  ghost predicate Belongs(c: Config, s: State, t: SingleTimer) {
    && t.fd in s.tables.conns && s.tables.conns[t.fd].gen == t.gen
    && t.expiry == s.tables.conns[t.fd].lastActive + c.expiration && t.id < s.nextId
    && ((t.fd in s.tables.mapping && s.tables.mapping[t.fd] == t) || s.adding == TimerAdded(t.fd, t))
  }

  ghost predicate InAdding(s: State, fd: int) {
    !s.adding.Nobody? && s.adding.fd == fd
  }

  /** Open connections, filed timers and existing timers correspond one to one, but for the connection being added. */
  ghost predicate Corresponds(c: Config, s: State) {
    && (forall t :: Exists(s, t) ==> Belongs(c, s, t))
    && (forall fd :: fd in s.tables.mapping ==> fd in s.tables.conns && s.tables.mapping[fd].fd == fd && Exists(s, s.tables.mapping[fd]))
    && (forall fd :: fd in s.tables.conns ==> fd in s.tables.mapping || InAdding(s, fd))
    && (!s.adding.Nobody? ==> s.adding.fd in s.tables.conns && s.adding.fd !in s.tables.mapping)
    && (s.adding.TimerAdded? ==> s.adding.timer.fd == s.adding.fd && Exists(s, s.adding.timer))
  }

  /** The queue is in order; pruned timers are in order, due, and earlier than all that are still queued. */
  ghost predicate Ordered(s: State) {
    && Sorted(s.tables.queue) && Sorted(Due(s))
    && (forall t :: t in Due(s) ==> t.expiry <= s.now)
    && (forall t, u :: t in Due(s) && u in s.tables.queue ==> t.expiry < u.expiry)
  }

  /** Whatever connection the loop thread will still touch in this round is there to be touched. */
  ghost predicate Safe(s: State) {
    DistinctFds(Touched(s)) && forall p :: p in Touched(s) ==> Live(s, p)
  }

  ghost predicate Inv(c: Config, s: State) {
    Corresponds(c, s) && Ordered(s) && Safe(s) && (s.loop.Firing? || Due(s) == [])
  }

  lemma StartInv(c: Config)
    ensures Inv(c, START)
  {
  }

  // ---- every step keeps it ----

  lemma TickKeeps(c: Config, s: State, later: nat)
    requires Inv(c, s) && s.now <= later
    ensures Inv(c, Next(c, s, Tick(later)))
  {
    var s' := Next(c, s, Tick(later));
    assert Due(s') == Due(s) && Touched(s') == Touched(s);
    assert forall t :: Exists(s', t) ==> Exists(s, t) && Belongs(c, s, t);
  }

  lemma BeginAddKeeps(c: Config, s: State, fd: int)
    requires Inv(c, s) && Enabled(c, s, BeginAdd(fd))
    ensures Inv(c, Next(c, s, BeginAdd(fd)))
  {
    var s' := Next(c, s, BeginAdd(fd));
    assert Due(s') == Due(s) && Touched(s') == Touched(s);
    assert forall t :: Exists(s', t) ==> Exists(s, t) && Belongs(c, s, t);
    assert forall f :: f in s.tables.mapping ==> Exists(s', s.tables.mapping[f]);
  }

  lemma AddTimerKeeps(c: Config, s: State)
    requires Inv(c, s) && Enabled(c, s, AddTimer) && 0 < c.expiration
    ensures Inv(c, Next(c, s, AddTimer))
  {
    var s' := Next(c, s, AddTimer);
    var t := s'.adding.timer;
    EmplaceMeaning(s.tables.queue, t);
    assert Due(s') == Due(s);
    assert Ordered(s');
    assert Touched(s') == Touched(s) && Safe(s');
    AddTimerCorresponds(c, s, s', t);
  }

  lemma AddTimerCorresponds(c: Config, s: State, s': State, t: SingleTimer)
    requires Corresponds(c, s) && s.adding.Inserted?
    requires t == SingleTimer(s.nextId, s.now + c.expiration, s.adding.fd, s.tables.conns[s.adding.fd].gen)
    requires forall u :: u in s'.tables.queue <==> u in s.tables.queue || u == t
    requires Due(s') == Due(s) && s'.tables.mapping == s.tables.mapping && s'.adding == TimerAdded(s.adding.fd, t)
    requires s'.nextId == s.nextId + 1
    requires s'.tables.conns == s.tables.conns[s.adding.fd := Accepted(s.tables.conns[s.adding.fd].gen, s.now)]
    ensures Corresponds(c, s')
  {
    assert forall u :: Exists(s', u) <==> Exists(s, u) || u == t;
    forall u | Exists(s', u) ensures Belongs(c, s', u) {
      if u != t {
        assert Belongs(c, s, u) && u.fd != t.fd;
      }
    }
  }

  lemma EndAddKeeps(c: Config, s: State)
    requires Inv(c, s) && Enabled(c, s, EndAdd)
    ensures Inv(c, Next(c, s, EndAdd))
  {
    var s' := Next(c, s, EndAdd);
    assert Due(s') == Due(s) && Touched(s') == Touched(s);
    assert forall t :: Exists(s', t) ==> Exists(s, t) && Belongs(c, s, t);
    assert forall f :: f in s'.tables.mapping ==> Exists(s', s'.tables.mapping[f]);
  }

  lemma PollKeeps(c: Config, s: State, ready: seq<Pointer>, timerReady: bool)
    requires Inv(c, s) && Enabled(c, s, Poll(ready, timerReady))
    ensures Inv(c, Next(c, s, Poll(ready, timerReady)))
  {
    LoopOnly(c, s, Next(c, s, Poll(ready, timerReady)));
  }

  /** A step that moves the loop thread between places where nothing is pruned. */
  lemma LoopOnly(c: Config, s: State, s': State)
    requires Inv(c, s) && Due(s) == Due(s') == []
    requires s' == s.(loop := s'.loop)
    requires Safe(s')
    ensures Inv(c, s')
  {
    assert forall t :: Exists(s', t) <==> Exists(s, t);
    assert forall t :: Belongs(c, s', t) <==> Belongs(c, s, t);
  }

  lemma DistinctTail(first: Pointer, ps: seq<Pointer>)
    requires DistinctFds([first] + ps)
    ensures DistinctFds(ps) && forall p :: p in ps ==> p.fd != first.fd
  {
    var all := [first] + ps;
    forall i, j | 0 <= i < j < |ps| ensures ps[i].fd != ps[j].fd {
      assert all[i + 1].fd != all[j + 1].fd;
    }
    forall i | 0 <= i < |ps| ensures ps[i].fd != first.fd {
      assert all[0].fd != all[i + 1].fd;
    }
  }

  lemma RestIsSafe(s: State, s': State, first: Pointer)
    requires Safe(s) && Touched(s) == [first] + Touched(s')
    requires forall p :: p in Touched(s') && Live(s, p) && p.fd != first.fd ==> Live(s', p)
    ensures Safe(s')
  {
    DistinctTail(first, Touched(s'));
    forall p | p in Touched(s') ensures Live(s', p) {
      assert p in [first] + Touched(s');
    }
  }

  lemma KeepKeeps(c: Config, s: State)
    requires Inv(c, s) && Enabled(c, s, Keep)
    ensures Inv(c, Next(c, s, Keep))
  {
    var s' := Next(c, s, Keep);
    RestIsSafe(s, s', s.loop.current);
    LoopOnly(c, s, s');
  }

  lemma EndKeeps(c: Config, s: State, a: Action)
    requires Inv(c, s) && Enabled(c, s, a) && (a.EndHandling? || a.EndFiring?)
    ensures Inv(c, Next(c, s, a))
  {
    LoopOnly(c, s, Next(c, s, a));
  }

  /** Pruning moves a prefix of the queue to the pruned timers: the timers that exist stay the same. */
  lemma {:induction false} PruneKeeps(c: Config, s: State, count: nat, later: nat)
    requires Inv(c, s) && Enabled(c, s, Prune(count, later))
    ensures Inv(c, Next(c, s, Prune(count, later)))
  {
    var s' := Next(c, s, Prune(count, later));
    var q := s.tables.queue;
    PruneOrdered(q, count, later);
    CutMembers(q, count);
    SameTimers(c, s, s');
  }

  lemma {:induction false} CutMembers(q: seq<SingleTimer>, k: nat)
    requires k <= |q|
    ensures forall t :: t in q <==> t in q[..k] || t in q[k..]
  {
    assert q == q[..k] + q[k..];
  }

  lemma {:induction false} SameTimers(c: Config, s: State, s': State)
    requires Corresponds(c, s) && forall t :: Exists(s', t) <==> Exists(s, t)
    requires s'.tables.conns == s.tables.conns && s'.tables.mapping == s.tables.mapping && s'.adding == s.adding
    requires s'.nextId == s.nextId
    ensures Corresponds(c, s')
  {
    assert forall t :: Belongs(c, s', t) <==> Belongs(c, s, t);
  }

  lemma PruneOrdered(q: seq<SingleTimer>, count: nat, later: nat)
    requires Sorted(q) && count <= |q| && (0 < count ==> q[count - 1].expiry <= later)
    ensures Sorted(q[..count]) && Sorted(q[count..])
    ensures forall t :: t in q[..count] ==> t.expiry <= later
    ensures forall t, u :: t in q[..count] && u in q[count..] ==> t.expiry < u.expiry
  {
    forall t | t in q[..count] ensures t.expiry <= later {
      var i :| 0 <= i < count && q[i] == t;
    }
    forall t, u | t in q[..count] && u in q[count..] ensures t.expiry < u.expiry {
      var i :| 0 <= i < count && q[i] == t;
      var j :| 0 <= j < |q[count..]| && q[count..][j] == u;
      assert q[count + j] == u;
    }
  }

  /** Deleting a connection whose filed timer is still queued takes that timer and no other with it. */
  lemma DeleteQueued(c: Config, s: State, s': State, fd: int)
    requires Inv(c, s) && s.adding.Nobody? && fd in s.tables.conns && Due(s) == Due(s') == []
    requires s' == s.(tables := Deleted(s.tables, fd), loop := s'.loop)
    ensures Corresponds(c, s') && Ordered(s')
  {
    var t := s.tables.mapping[fd];
    assert Exists(s, t);
    EraseMeaning(s.tables.queue, t.expiry);
    OnlyOneAt(s.tables.queue, t);
    forall u | Exists(s', u) ensures Belongs(c, s', u) {
      assert Exists(s, u) && Belongs(c, s, u) && u != t;
    }
    forall f | f in s'.tables.mapping ensures Exists(s', s'.tables.mapping[f]) {
      assert Exists(s, s.tables.mapping[f]);
      assert s.tables.mapping[f] != t;
    }
  }

  lemma OnlyOneAt(q: seq<SingleTimer>, t: SingleTimer)
    requires Sorted(q) && t in q
    ensures forall u :: u in q && u.expiry == t.expiry ==> u == t
  {
    forall u | u in q && u.expiry == t.expiry ensures u == t {
      var i :| 0 <= i < |q| && q[i] == t;
      var j :| 0 <= j < |q| && q[j] == u;
      assert i == j;
    }
  }

  lemma CloseKeeps(c: Config, s: State)
    requires Inv(c, s) && Enabled(c, s, Close)
    ensures Inv(c, Next(c, s, Close))
  {
    var s' := Next(c, s, Close);
    var fd := s.loop.current.fd;
    assert Touched(s)[0] == s.loop.current && s.loop.current in Touched(s);
    DeleteQueued(c, s, s', fd);
    RestIsSafe(s, s', s.loop.current);
  }

  /** A fired timer deletes the very connection it belongs to; its own lookup in the queue finds nothing. */
  lemma FireKeeps(c: Config, s: State)
    requires Inv(c, s) && Enabled(c, s, Fire)
    ensures Inv(c, Next(c, s, Fire))
    ensures Next(c, s, Fire).tables.queue == s.tables.queue
  {
    var s' := Next(c, s, Fire);
    var t := s.loop.due[0];
    assert Due(s) == [t] + Due(s') && t in Due(s);
    assert Exists(s, t) && Belongs(c, s, t);
    EraseMeaning(s.tables.queue, t.expiry);
    SortedTail(Due(s));
    FireCorresponds(c, s, s', t);
  }

  lemma FireCorresponds(c: Config, s: State, s': State, t: SingleTimer)
    requires Corresponds(c, s) && s.adding.Nobody? && Due(s) == [t] + Due(s') && t !in Due(s') && t !in s.tables.queue
    requires s'.tables.queue == s.tables.queue && s'.adding == s.adding && s'.nextId == s.nextId
    requires s'.tables.conns == s.tables.conns - {t.fd} && s'.tables.mapping == s.tables.mapping - {t.fd}
    ensures Corresponds(c, s')
  {
    assert Exists(s, t);
    forall u | Exists(s', u) ensures Belongs(c, s', u) {
      assert Exists(s, u) && Belongs(c, s, u) && u != t;
    }
    forall f | f in s'.tables.mapping ensures Exists(s', s'.tables.mapping[f]) {
      assert Exists(s, s.tables.mapping[f]) && s.tables.mapping[f] != t;
    }
  }

  /** What a refresh does to the tables when a timer of the filed expiry is queued. */
  lemma {:induction false} RefreshEffect(q: Tables, filing: Filing, fd: int, id: nat, now: nat, expiration: nat, t: SingleTimer)
    requires Sorted(q.queue) && fd in q.mapping && fd in q.conns && t in q.queue && q.mapping[fd].expiry == t.expiry
    ensures var n := SingleTimer(id, now + expiration, t.fd, t.gen);
            var r := Refreshed(NoteActivity(q, fd, now), filing, fd, id, now, expiration);
            && Sorted(r.queue)
            && r.conns == q.conns[fd := Heard(q.conns[fd], now)]
            && r.mapping == (if filing.Overwrite? then q.mapping[fd := n] else q.mapping)
            && if Taken(Erase(q.queue, t.expiry), n.expiry) then r.queue == Erase(q.queue, t.expiry)
               else forall u :: u in r.queue <==> (u in q.queue && u != t) || u == n
  {
    LookupOwn(q.queue, t);
    EraseMeaning(q.queue, t.expiry);
    OnlyOneAt(q.queue, t);
    EmplaceMeaning(Erase(q.queue, t.expiry), SingleTimer(id, now + expiration, t.fd, t.gen));
  }

  /** The connection whose callback runs next is live, and its timer is filed and queued. */
  lemma ReadyIsFiled(c: Config, s: State)
    requires Inv(c, s) && s.adding.Nobody? && s.loop.Handling? && s.loop.ready != []
    ensures var fd := s.loop.ready[0].fd;
            && Live(s, s.loop.ready[0]) && fd in s.tables.mapping && s.tables.mapping[fd].fd == fd
            && s.tables.mapping[fd] in s.tables.queue
  {
    var p := s.loop.ready[0];
    assert p in Touched(s) && Live(s, p);
    assert Exists(s, s.tables.mapping[p.fd]);
  }

  /** Refreshing replaces the timer of a connection by a later one, filed in its place. */
  lemma RefreshKeeps(c: Config, s: State)
    requires Inv(c, s) && Enabled(c, s, RefreshNext) && c.filing.Overwrite?
    ensures Inv(c, Next(c, s, RefreshNext))
  {
    var s' := Next(c, s, RefreshNext);
    var fd := s.loop.ready[0].fd;
    ReadyIsFiled(c, s);
    var t := s.tables.mapping[fd];
    RefreshEffect(s.tables, c.filing, fd, s.nextId, s.now, c.expiration, t);
    RefreshSafe(s, s', fd);
    RefreshCorresponds(c, s, s', t, SingleTimer(s.nextId, s.now + c.expiration, t.fd, t.gen));
  }

  lemma RefreshSafe(s: State, s': State, fd: int)
    requires Safe(s) && s.loop.Handling? && s.loop.ready != [] && fd in s.tables.conns
    requires s'.loop == Serving(s.loop.ready[0], s.loop.ready[1..], s.loop.timerReady)
    requires s'.tables.conns == s.tables.conns[fd := Heard(s.tables.conns[fd], s.now)]
    ensures Safe(s')
  {
    assert Touched(s') == Touched(s);
  }

  lemma RefreshCorresponds(c: Config, s: State, s': State, t: SingleTimer, n: SingleTimer)
    requires Corresponds(c, s) && s.adding.Nobody? && t.fd in s.tables.mapping && s.tables.mapping[t.fd] == t && Due(s) == Due(s') == []
    requires n == SingleTimer(s.nextId, s.now + c.expiration, t.fd, t.gen)
    requires forall u :: u in s'.tables.queue <==> (u in s.tables.queue && u != t) || u == n
    requires s'.adding == s.adding && s'.tables.mapping == s.tables.mapping[t.fd := n] && s'.nextId == s.nextId + 1
    requires t.fd in s.tables.conns && s'.tables.conns == s.tables.conns[t.fd := Heard(s.tables.conns[t.fd], s.now)]
    ensures Corresponds(c, s')
  {
    assert Exists(s, t) && Belongs(c, s, t);
    forall u | Exists(s', u) ensures Belongs(c, s', u) {
      if u != n {
        assert Exists(s, u) && Belongs(c, s, u) && u != t;
      }
    }
    forall f | f in s'.tables.mapping ensures Exists(s', s'.tables.mapping[f]) {
      if f != t.fd {
        assert Exists(s, s.tables.mapping[f]) && s.tables.mapping[f] != t;
      }
    }
  }

  /** Every step keeps the invariant; only a refresh needs to overwrite the filed timer for that. */
  lemma StepKeeps(c: Config, s: State, a: Action)
    requires Inv(c, s) && Enabled(c, s, a) && 0 < c.expiration && (a.RefreshNext? ==> c.filing.Overwrite?)
    ensures Inv(c, Next(c, s, a))
  {
    match a
    case Tick(later) => TickKeeps(c, s, later);
    case BeginAdd(fd) => BeginAddKeeps(c, s, fd);
    case AddTimer => AddTimerKeeps(c, s);
    case EndAdd => EndAddKeeps(c, s);
    case Poll(ready, timerReady) => PollKeeps(c, s, ready, timerReady);
    case RefreshNext => RefreshKeeps(c, s);
    case Keep => KeepKeeps(c, s);
    case Close => CloseKeeps(c, s);
    case EndHandling => EndKeeps(c, s, a);
    case Prune(count, later) => PruneKeeps(c, s, count, later);
    case Fire => FireKeeps(c, s);
    case EndFiring => EndKeeps(c, s, a);
  }
}
