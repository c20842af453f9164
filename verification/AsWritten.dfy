/**
 * Connection lifetimes under the code as it is written, where a refresh files its timer with an insertion that leaves
 * the old entry in place. The invariant of `Lifetimes` is lost at the first refresh; here is the one that is kept, over
 * every run without colliding expiries: which timers exist, when each one expires, and whom each one expels.
 */
module AsWritten {
  import opened Prelude
  import opened Timers
  import opened Loopers
  import opened Lifetimes
  import opened LifetimeLaws

  // ---- what has happened ----

  /** Why a connection is gone; `pruned` if its own timer had been pruned by then and was still to run. */
  datatype Cause = OwnHandler | OwnTimer | OtherTimer(pruned: bool)

  datatype Departure = Departure(conn: Conn, cause: Cause)

  ghost function CauseOfFiring(due: seq<SingleTimer>, gen: nat): Cause
    requires due != []
  {
    if due[0].gen == gen then OwnTimer else OtherTimer(exists t :: t in due[1..] && t.gen == gen)
  }

  /** Who has left, by generation, after one more step. */
  ghost function Recorded(s: State, a: Action, gone: map<nat, Departure>): map<nat, Departure> {
    match a
    case Close =>
      if !s.loop.Serving? || s.loop.current.fd !in s.tables.conns then gone
      else
        var conn := s.tables.conns[s.loop.current.fd];
        gone[conn.gen := Departure(conn, OwnHandler)]
    case Fire =>
      if !s.loop.Firing? || s.loop.due == [] || s.loop.due[0].fd !in s.tables.conns then gone
      else
        var conn := s.tables.conns[s.loop.due[0].fd];
        gone[conn.gen := Departure(conn, CauseOfFiring(s.loop.due, conn.gen))]
    case _ => gone
  }

  ghost function Gone(c: Config, actions: seq<Action>): map<nat, Departure> {
    if actions == [] then map[]
    else
      var before := actions[..|actions| - 1];
      Recorded(Reached(c, before), actions[|actions| - 1], Gone(c, before))
  }

  // ---- the invariant ----

  /** The moment from which the timer of a connection counts: its first later refresh, or else its acceptance. */
  function Counted(conn: Conn): nat {
    if conn.later.Some? then conn.later.value else conn.accepted
  }

  predicate OwnerLives(s: State, t: SingleTimer) {
    Live(s, Pointer(t.fd, t.gen))
  }

  /**
   * The timer of a generation that left otherwise than by it, either after a later refresh, or expelled by another's
   * timer when this one had been pruned together with that and was still to run.
   */
  ghost predicate Orphan(c: Config, s: State, gone: map<nat, Departure>, t: SingleTimer) {
    && t.gen in gone && gone[t.gen].cause != OwnTimer
    && t.expiry == Counted(gone[t.gen].conn) + c.expiration
    && (gone[t.gen].conn.later.Some? || (gone[t.gen].cause == OtherTimer(true) && t in Due(s)))
  }

  ghost predicate Accounted(c: Config, s: State, gone: map<nat, Departure>, t: SingleTimer) {
    && t.id < s.nextId && t.gen < s.nextGen
    && if OwnerLives(s, t) then t.expiry == Counted(s.tables.conns[t.fd]) + c.expiration else Orphan(c, s, gone, t)
  }

  /** Every timer is that of a live connection or an orphan, and no generation has two. */
  ghost predicate TimersKnown(c: Config, s: State, gone: map<nat, Departure>) {
    && (forall t :: Exists(s, t) ==> Accounted(c, s, gone, t))
    && (forall t, u :: Exists(s, t) && Exists(s, u) && t.gen == u.gen ==> t == u)
  }

  ghost predicate Timed(s: State, fd: int, gen: nat) {
    exists t :: Exists(s, t) && t.fd == fd && t.gen == gen
  }

  ghost predicate Timerless(s: State, gen: nat) {
    forall t :: Exists(s, t) ==> t.gen != gen
  }

  /** The filed expiry is that of the acceptance for good; after a later refresh nothing is queued there any more. */
  ghost predicate Settled(c: Config, s: State, fd: int, conn: Conn) {
    && conn.accepted <= Counted(conn) <= conn.lastActive <= s.now
    && (conn.later.None? ==> conn.lastActive == conn.accepted)
    && (conn.later.Some? ==> conn.accepted < conn.later.value && !Taken(s.tables.queue, conn.accepted + c.expiration))
    && (if fd in s.tables.mapping then s.tables.mapping[fd].expiry == conn.accepted + c.expiration
        else InAdding(s, fd) && conn.later.None?)
    && (if s.adding == Inserted(fd) then Timerless(s, conn.gen) else Timed(s, fd, conn.gen))
  }

  ghost predicate ConnsKnown(c: Config, s: State) {
    && (forall fd :: fd in s.tables.conns ==> Settled(c, s, fd, s.tables.conns[fd]))
    && (forall fd :: fd in s.tables.mapping ==> fd in s.tables.conns)
    && (!s.adding.Nobody? ==> s.adding.fd in s.tables.conns && s.adding.fd !in s.tables.mapping)
    && (s.adding.TimerAdded? ==> s.adding.timer.expiry == s.tables.conns[s.adding.fd].accepted + c.expiration)
  }

  /** Generations are told apart: those of live connections, those that are gone, those to come. */
  ghost predicate GensKnown(s: State, gone: map<nat, Departure>) {
    && (forall fd :: fd in s.tables.conns ==> s.tables.conns[fd].gen < s.nextGen && s.tables.conns[fd].gen !in gone)
    && (forall f, g :: f in s.tables.conns && g in s.tables.conns && f != g ==> s.tables.conns[f].gen != s.tables.conns[g].gen)
    && (forall g :: g in gone ==> g < s.nextGen && gone[g].conn.gen == g)
  }

  ghost predicate Kept(c: Config, s: State, gone: map<nat, Departure>) {
    TimersKnown(c, s, gone) && ConnsKnown(c, s) && GensKnown(s, gone) && Ordered(s) && Safe(s)
  }

  /** A timer of a generation that lives is that of the live connection. */
  lemma {:induction false} SameGen(c: Config, s: State, gone: map<nat, Departure>, t: SingleTimer, fd: int)
    requires TimersKnown(c, s, gone) && GensKnown(s, gone) && Exists(s, t)
    requires fd in s.tables.conns && s.tables.conns[fd].gen == t.gen
    ensures t.fd == fd && t.expiry == Counted(s.tables.conns[fd]) + c.expiration
  {
    assert Accounted(c, s, gone, t);
  }

  // ---- steps that leave connections and timers as they are ----

  lemma {:induction false} QuietKeeps(c: Config, s: State, s': State, gone: map<nat, Departure>)
    requires TimersKnown(c, s, gone) && ConnsKnown(c, s)
    requires s'.tables.conns == s.tables.conns && s'.tables.mapping == s.tables.mapping && s'.adding == s.adding
    requires s'.nextId == s.nextId && s'.nextGen == s.nextGen && s.now <= s'.now
    requires forall t :: Exists(s', t) <==> Exists(s, t)
    requires forall t :: t in s'.tables.queue ==> t in s.tables.queue
    requires forall t :: t in Due(s) ==> t in Due(s')
    ensures TimersKnown(c, s', gone) && ConnsKnown(c, s')
  {
    forall t | Exists(s', t) ensures Accounted(c, s', gone, t) {
      assert Accounted(c, s, gone, t);
    }
    forall fd | fd in s'.tables.conns ensures Settled(c, s', fd, s'.tables.conns[fd]) {
      var conn := s.tables.conns[fd];
      assert Settled(c, s, fd, conn);
      if s.adding != Inserted(fd) {
        var t :| Exists(s, t) && t.fd == fd && t.gen == conn.gen;
        assert Exists(s', t);
      }
    }
  }

  lemma {:induction false} QuietStepKeeps(c: Config, s: State, a: Action, gone: map<nat, Departure>)
    requires Kept(c, s, gone) && Enabled(c, s, a) && 0 < c.expiration
    requires a.Tick? || a.Poll? || a.Keep? || a.EndHandling? || a.EndFiring?
    ensures Kept(c, Next(c, s, a), gone)
  {
    var s' := Next(c, s, a);
    assert Due(s') == Due(s);
    StepIsSafe(c, s, a);
    QuietKeeps(c, s, s', gone);
  }

  lemma {:induction false} PruneKept(c: Config, s: State, count: nat, later: nat, gone: map<nat, Departure>)
    requires Kept(c, s, gone) && Enabled(c, s, Prune(count, later))
    ensures Kept(c, Next(c, s, Prune(count, later)), gone)
  {
    var s' := Next(c, s, Prune(count, later));
    var q := s.tables.queue;
    PruneOrdered(q, count, later);
    CutMembers(q, count);
    StepIsSafe(c, s, Prune(count, later));
    QuietKeeps(c, s, s', gone);
  }

  // ---- adding a connection ----

  lemma {:induction false} BeginAddKept(c: Config, s: State, fd: int, gone: map<nat, Departure>)
    requires Kept(c, s, gone) && Enabled(c, s, BeginAdd(fd))
    ensures Kept(c, Next(c, s, BeginAdd(fd)), gone)
  {
    var s' := Next(c, s, BeginAdd(fd));
    assert Due(s') == Due(s) && forall t :: Exists(s', t) <==> Exists(s, t);
    StepIsSafe(c, s, BeginAdd(fd));
    forall t | Exists(s', t) ensures Accounted(c, s', gone, t) {
      assert Accounted(c, s, gone, t);
    }
    forall f | f in s'.tables.conns ensures Settled(c, s', f, s'.tables.conns[f]) {
      if f != fd {
        assert Settled(c, s, f, s.tables.conns[f]);
        var t :| Exists(s, t) && t.fd == f && t.gen == s.tables.conns[f].gen;
        assert Exists(s', t);
      }
    }
  }

  lemma {:induction false} AddTimerKept(c: Config, s: State, gone: map<nat, Departure>)
    requires Kept(c, s, gone) && Enabled(c, s, AddTimer) && 0 < c.expiration
    ensures Kept(c, Next(c, s, AddTimer), gone)
  {
    var s' := Next(c, s, AddTimer);
    var n := s'.adding.timer;
    EmplaceMeaning(s.tables.queue, n);
    StepIsSafe(c, s, AddTimer);
    assert forall t :: Exists(s', t) <==> Exists(s, t) || t == n;
    AddTimerTimers(c, s, s', n, gone);
    AddTimerConns(c, s, s', n, gone);
  }

  ghost predicate TimerAddedStep(c: Config, s: State, s': State, n: SingleTimer) {
    && s.adding.Inserted? && s.adding.fd in s.tables.conns && Due(s') == Due(s)
    && n == SingleTimer(s.nextId, s.now + c.expiration, s.adding.fd, s.tables.conns[s.adding.fd].gen)
    && s'.tables.conns == s.tables.conns[s.adding.fd := Accepted(n.gen, s.now)] && s'.tables.mapping == s.tables.mapping
    && s'.now == s.now && s'.nextId == s.nextId + 1 && s'.nextGen == s.nextGen && s'.adding == TimerAdded(n.fd, n)
    && (forall t :: t in s'.tables.queue <==> t in s.tables.queue || t == n)
  }

  lemma {:induction false} AddTimerTimers(c: Config, s: State, s': State, n: SingleTimer, gone: map<nat, Departure>)
    requires TimersKnown(c, s, gone) && ConnsKnown(c, s) && GensKnown(s, gone) && TimerAddedStep(c, s, s', n)
    ensures TimersKnown(c, s', gone)
  {
    assert Settled(c, s, n.fd, s.tables.conns[n.fd]);
    assert forall t :: Exists(s', t) <==> Exists(s, t) || t == n;
    forall t | Exists(s', t) ensures Accounted(c, s', gone, t) {
      if t != n {
        assert Accounted(c, s, gone, t);
      }
    }
  }

  lemma {:induction false} AddTimerConns(c: Config, s: State, s': State, n: SingleTimer, gone: map<nat, Departure>)
    requires TimersKnown(c, s, gone) && ConnsKnown(c, s) && GensKnown(s, gone) && TimerAddedStep(c, s, s', n)
    ensures ConnsKnown(c, s')
  {
    assert Exists(s', n) && forall t :: Exists(s, t) ==> Exists(s', t);
    forall f | f in s'.tables.conns ensures Settled(c, s', f, s'.tables.conns[f]) {
      if f == n.fd {
        assert !InAdding(s', f) || s'.tables.conns[f].later.None?;
        assert Settled(c, s, f, s.tables.conns[f]);
      } else {
        OtherSettled(c, s, s', f, n.expiry);
      }
    }
  }

  /** Other connections are as settled as before when timers come and go elsewhere and nothing new is due earlier. */
  lemma {:induction false} OtherSettled(c: Config, s: State, s': State, f: int, fresh_: nat)
    requires f in s.tables.conns && Settled(c, s, f, s.tables.conns[f]) && s.adding != Inserted(f) && s'.adding != Inserted(f)
    requires forall t :: Exists(s, t) && t.gen == s.tables.conns[f].gen ==> Exists(s', t)
    requires forall t :: t in s'.tables.queue ==> t in s.tables.queue || t.expiry == fresh_
    requires fresh_ == s.now + c.expiration && s'.now == s.now
    requires f in s.tables.mapping <==> f in s'.tables.mapping
    requires f in s.tables.mapping ==> s'.tables.mapping[f] == s.tables.mapping[f]
    requires InAdding(s, f) ==> InAdding(s', f)
    ensures Settled(c, s', f, s.tables.conns[f])
  {
    var conn := s.tables.conns[f];
    var t :| Exists(s, t) && t.fd == f && t.gen == conn.gen;
    assert Exists(s', t);
  }

  lemma {:induction false} EndAddKept(c: Config, s: State, gone: map<nat, Departure>)
    requires Kept(c, s, gone) && Enabled(c, s, EndAdd)
    ensures Kept(c, Next(c, s, EndAdd), gone)
  {
    var s' := Next(c, s, EndAdd);
    assert Due(s') == Due(s) && forall t :: Exists(s', t) <==> Exists(s, t);
    StepIsSafe(c, s, EndAdd);
    forall t | Exists(s', t) ensures Accounted(c, s', gone, t) {
      assert Accounted(c, s, gone, t);
    }
    forall f | f in s'.tables.conns ensures Settled(c, s', f, s'.tables.conns[f]) {
      assert Settled(c, s, f, s.tables.conns[f]);
      var t :| Exists(s, t) && t.fd == f && t.gen == s.tables.conns[f].gen;
      assert Exists(s', t);
    }
  }

  // ---- refreshing ----

  /** Before a refresh, the own timer of the connection is queued, and found under the filed expiry unless it has moved. */
  lemma {:induction false} RefreshLookup(c: Config, s: State, gone: map<nat, Departure>) returns (t: SingleTimer)
    requires Kept(c, s, gone) && Enabled(c, s, RefreshNext)
    ensures var fd := s.loop.ready[0].fd;
            && fd in s.tables.conns && fd in s.tables.mapping && t in s.tables.queue && t.fd == fd
            && t.gen == s.tables.conns[fd].gen && t.expiry == Counted(s.tables.conns[fd]) + c.expiration
            && Lookup(s.tables.queue, s.tables.mapping[fd].expiry)
               == (if s.tables.conns[fd].later.None? then Some(t) else None)
            && (s.tables.conns[fd].later.None? ==> s.tables.mapping[fd].expiry == t.expiry)
  {
    var p := s.loop.ready[0];
    assert p in Touched(s) && Live(s, p);
    var conn := s.tables.conns[p.fd];
    assert Settled(c, s, p.fd, conn);
    t :| Exists(s, t) && t.fd == p.fd && t.gen == conn.gen;
    SameGen(c, s, gone, t, p.fd);
    LookupMeaning(s.tables.queue, s.tables.mapping[p.fd].expiry);
    if conn.later.None? {
      LookupOwn(s.tables.queue, t);
    }
  }

  lemma {:induction false} RefreshKept(c: Config, s: State, gone: map<nat, Departure>)
    requires Kept(c, s, gone) && Enabled(c, s, RefreshNext) && c.filing.InsertIfAbsent?
    ensures Kept(c, Next(c, s, RefreshNext), gone)
  {
    var s' := Next(c, s, RefreshNext);
    var fd := s.loop.ready[0].fd;
    var t := RefreshLookup(c, s, gone);
    StepIsSafe(c, s, RefreshNext);
    if s.tables.conns[fd].later.None? {
      var n := SingleTimer(s.nextId, s.now + c.expiration, t.fd, t.gen);
      RefreshIsMove(c, s, t, n);
      MovedKept(c, s, s', t, n, gone);
    } else {
      RefreshIsMiss(c, s);
      MissKept(c, s, s', fd, gone);
    }
  }

  lemma {:induction false} MovedKept(c: Config, s: State, s': State, t: SingleTimer, n: SingleTimer, gone: map<nat, Departure>)
    requires Kept(c, s, gone) && MovedStep(c, s, s', t, n) && Sorted(s'.tables.queue) && Safe(s')
    ensures Kept(c, s', gone)
  {
    MovedTimers(c, s, s', t, n, gone);
    MovedConns(c, s, s', t, n, gone);
  }

  lemma {:induction false} MissKept(c: Config, s: State, s': State, fd: int, gone: map<nat, Departure>)
    requires Kept(c, s, gone) && MissedStep(s, s', fd) && Safe(s')
    ensures Kept(c, s', gone)
  {
    MissTimers(c, s, s', fd, gone);
    MissConns(c, s, s', fd);
  }

  lemma {:induction false} RefreshIsMiss(c: Config, s: State)
    requires Enabled(c, s, RefreshNext)
    requires var fd := s.loop.ready[0].fd;
             && fd in s.tables.conns && s.tables.conns[fd].later.Some? && fd in s.tables.mapping
             && Lookup(s.tables.queue, s.tables.mapping[fd].expiry) == None
    ensures MissedStep(s, Next(c, s, RefreshNext), s.loop.ready[0].fd)
  {
  }

  lemma {:induction false} RefreshIsMove(c: Config, s: State, t: SingleTimer, n: SingleTimer)
    requires Enabled(c, s, RefreshNext) && c.filing.InsertIfAbsent? && Sorted(s.tables.queue) && t in s.tables.queue
    requires var fd := s.loop.ready[0].fd;
             && fd in s.tables.conns && s.tables.conns[fd].later.None? && fd in s.tables.mapping
             && t.fd == fd && t.gen == s.tables.conns[fd].gen && s.tables.mapping[fd].expiry == t.expiry
    requires n == SingleTimer(s.nextId, s.now + c.expiration, t.fd, t.gen)
    ensures MovedStep(c, s, Next(c, s, RefreshNext), t, n) && Sorted(Next(c, s, RefreshNext).tables.queue)
  {
    RefreshEffect(s.tables, c.filing, t.fd, s.nextId, s.now, c.expiration, t);
    assert Taken(s.tables.queue, t.expiry);
  }

  ghost predicate MovedStep(c: Config, s: State, s': State, t: SingleTimer, n: SingleTimer) {
    && t in s.tables.queue && n == SingleTimer(s.nextId, s.now + c.expiration, t.fd, t.gen)
    && Due(s) == [] && Due(s') == [] && s.adding.Nobody? && s'.adding.Nobody?
    && t.fd in s.tables.conns && s.tables.conns[t.fd].gen == t.gen && s.tables.conns[t.fd].later.None?
    && s'.tables.conns == s.tables.conns[t.fd := Heard(s.tables.conns[t.fd], s.now)] && s'.tables.mapping == s.tables.mapping
    && s'.now == s.now && s'.nextId == s.nextId + 1 && s'.nextGen == s.nextGen
    && (forall u :: u in s'.tables.queue <==> (u in s.tables.queue && u != t) || u == n)
  }

  lemma {:induction false} MovedTimers(c: Config, s: State, s': State, t: SingleTimer, n: SingleTimer, gone: map<nat, Departure>)
    requires TimersKnown(c, s, gone) && ConnsKnown(c, s) && GensKnown(s, gone) && MovedStep(c, s, s', t, n)
    ensures TimersKnown(c, s', gone)
  {
    assert Exists(s, t) && Accounted(c, s, gone, t);
    assert Settled(c, s, t.fd, s.tables.conns[t.fd]);
    assert forall u :: Exists(s', u) <==> (Exists(s, u) && u != t) || u == n;
    forall u | Exists(s', u) ensures Accounted(c, s', gone, u) {
      if u != n {
        assert Accounted(c, s, gone, u);
        assert u.gen != t.gen;
      }
    }
  }

  lemma {:induction false} MovedConns(c: Config, s: State, s': State, t: SingleTimer, n: SingleTimer, gone: map<nat, Departure>)
    requires TimersKnown(c, s, gone) && ConnsKnown(c, s) && GensKnown(s, gone) && MovedStep(c, s, s', t, n)
    requires Sorted(s.tables.queue)
    ensures ConnsKnown(c, s')
  {
    assert Exists(s', n) && forall u :: Exists(s, u) && u != t ==> Exists(s', u);
    forall f | f in s'.tables.conns ensures Settled(c, s', f, s'.tables.conns[f]) {
      assert Settled(c, s, f, s.tables.conns[f]);
      if f == t.fd {
        SameGen(c, s, gone, t, f);
        OnlyOneAt(s.tables.queue, t);
      } else {
        OtherSettled(c, s, s', f, n.expiry);
      }
    }
  }

  /** A refresh whose lookup misses shows only in what no code reads. */
  ghost predicate MissedStep(s: State, s': State, fd: int) {
    && fd in s.tables.conns && s.tables.conns[fd].later.Some? && s.adding.Nobody? && Due(s') == Due(s)
    && s'.tables.conns == s.tables.conns[fd := s.tables.conns[fd].(lastActive := s.now)]
    && s'.tables.mapping == s.tables.mapping && s'.tables.queue == s.tables.queue && s'.adding == s.adding
    && s'.now == s.now && s'.nextId == s.nextId + 1 && s'.nextGen == s.nextGen
  }

  lemma {:induction false} MissTimers(c: Config, s: State, s': State, fd: int, gone: map<nat, Departure>)
    requires TimersKnown(c, s, gone) && MissedStep(s, s', fd)
    ensures TimersKnown(c, s', gone)
  {
    assert forall t :: Exists(s', t) <==> Exists(s, t);
    forall t | Exists(s', t) ensures Accounted(c, s', gone, t) {
      assert Accounted(c, s, gone, t);
    }
  }

  lemma {:induction false} MissConns(c: Config, s: State, s': State, fd: int)
    requires ConnsKnown(c, s) && MissedStep(s, s', fd)
    ensures ConnsKnown(c, s')
  {
    forall f | f in s'.tables.conns ensures Settled(c, s', f, s'.tables.conns[f]) {
      var conn := s.tables.conns[f];
      assert Settled(c, s, f, conn);
      var t :| Exists(s, t) && t.fd == f && t.gen == conn.gen;
      assert Exists(s', t);
    }
  }

  // ---- leaving ----

  /** Nothing but the own timer of a connection can be queued under its filed expiry. */
  lemma {:induction false} FiledIsOwn(c: Config, s: State, gone: map<nat, Departure>, fd: int)
    requires Kept(c, s, gone) && s.adding.Nobody? && fd in s.tables.conns
    ensures forall u :: u in s.tables.queue && u.expiry == s.tables.conns[fd].accepted + c.expiration
                        ==> u.gen == s.tables.conns[fd].gen
  {
    var conn := s.tables.conns[fd];
    assert Settled(c, s, fd, conn);
    var t :| Exists(s, t) && t.fd == fd && t.gen == conn.gen;
    SameGen(c, s, gone, t, fd);
    if t in s.tables.queue {
      OnlyOneAt(s.tables.queue, t);
    }
  }

  /** The connection at `fd` leaves, with what is queued under its filed expiry and the timer that fired, if one did. */
  ghost predicate LeavingStep(c: Config, s: State, s': State, fd: int, fired: Option<SingleTimer>) {
    && s.adding.Nobody? && s'.adding.Nobody? && fd in s.tables.conns
    && s'.tables.conns == s.tables.conns - {fd} && s'.tables.mapping == s.tables.mapping - {fd}
    && s'.now == s.now && s'.nextId == s.nextId && s'.nextGen == s.nextGen
    && (forall u :: u in s'.tables.queue <==> u in s.tables.queue && u.expiry != s.tables.conns[fd].accepted + c.expiration)
    && (forall u :: u in Due(s') <==> u in Due(s) && fired != Some(u))
    && (fired.Some? ==> fired.value in Due(s) && fired.value.fd == fd)
  }

  /** The cause agrees with the timers: its own fired, or its own is pruned and still to run. */
  ghost predicate CauseFits(s: State, s': State, gen: nat, fired: Option<SingleTimer>, cause: Cause) {
    && (cause == OwnTimer <==> fired.Some? && fired.value.gen == gen)
    && (cause == OtherTimer(true) <==> cause != OwnTimer && exists u :: u in Due(s') && u.gen == gen)
  }

  lemma {:induction false} LeavingTimers(c: Config, s: State, s': State, fd: int, fired: Option<SingleTimer>, cause: Cause,
                                         gone: map<nat, Departure>)
    requires Kept(c, s, gone) && LeavingStep(c, s, s', fd, fired)
    requires CauseFits(s, s', s.tables.conns[fd].gen, fired, cause)
    ensures TimersKnown(c, s', gone[s.tables.conns[fd].gen := Departure(s.tables.conns[fd], cause)])
  {
    var conn := s.tables.conns[fd];
    var gone' := gone[conn.gen := Departure(conn, cause)];
    assert forall u :: Exists(s', u) ==> Exists(s, u);
    assert fired.Some? ==> Exists(s, fired.value) && !Exists(s', fired.value);
    forall u | Exists(s', u) ensures Accounted(c, s', gone', u) {
      assert Accounted(c, s, gone, u);
      if u.gen == conn.gen {
        SameGen(c, s, gone, u, fd);
      }
    }
  }

  lemma {:induction false} LeavingConns(c: Config, s: State, s': State, fd: int, fired: Option<SingleTimer>,
                                        gone: map<nat, Departure>)
    requires Kept(c, s, gone) && LeavingStep(c, s, s', fd, fired)
    ensures ConnsKnown(c, s')
  {
    FiledIsOwn(c, s, gone, fd);
    forall f | f in s'.tables.conns ensures Settled(c, s', f, s'.tables.conns[f]) {
      StaysSettled(c, s, s', fd, fired, f);
    }
  }

  /** Those that do not leave are as settled as before. */
  lemma {:induction false} StaysSettled(c: Config, s: State, s': State, fd: int, fired: Option<SingleTimer>, f: int)
    requires LeavingStep(c, s, s', fd, fired) && f in s.tables.conns && f != fd
    requires Settled(c, s, f, s.tables.conns[f]) && s.tables.conns[f].gen != s.tables.conns[fd].gen
    requires forall u :: u in s.tables.queue && u.expiry == s.tables.conns[fd].accepted + c.expiration
                         ==> u.gen == s.tables.conns[fd].gen
    ensures Settled(c, s', f, s.tables.conns[f])
  {
    var conn := s.tables.conns[f];
    var t :| Exists(s, t) && t.fd == f && t.gen == conn.gen;
    assert Exists(s', t);
  }

  lemma {:induction false} LeavingGens(c: Config, s: State, s': State, fd: int, fired: Option<SingleTimer>, cause: Cause,
                                       gone: map<nat, Departure>)
    requires GensKnown(s, gone) && LeavingStep(c, s, s', fd, fired)
    ensures GensKnown(s', gone[s.tables.conns[fd].gen := Departure(s.tables.conns[fd], cause)])
  {
  }

  /** Leaving keeps the invariant, with the departure recorded. */
  lemma {:induction false} LeavingKept(c: Config, s: State, s': State, fd: int, fired: Option<SingleTimer>, cause: Cause,
                                       gone: map<nat, Departure>)
    requires Kept(c, s, gone) && LeavingStep(c, s, s', fd, fired) && Ordered(s') && Safe(s')
    requires CauseFits(s, s', s.tables.conns[fd].gen, fired, cause)
    ensures Kept(c, s', gone[s.tables.conns[fd].gen := Departure(s.tables.conns[fd], cause)])
  {
    LeavingTimers(c, s, s', fd, fired, cause, gone);
    LeavingConns(c, s, s', fd, fired, gone);
    LeavingGens(c, s, s', fd, fired, cause, gone);
  }

  /** The filed expiry of an added connection is that of its acceptance. */
  ghost predicate FiledAt(c: Config, s: State, fd: int) {
    && s.adding.Nobody? && fd in s.tables.conns && fd in s.tables.mapping
    && s.tables.mapping[fd].expiry == s.tables.conns[fd].accepted + c.expiration
  }

  lemma {:induction false} AllFiled(c: Config, s: State, fd: int)
    requires ConnsKnown(c, s) && s.adding.Nobody? && fd in s.tables.conns
    ensures FiledAt(c, s, fd)
  {
    assert Settled(c, s, fd, s.tables.conns[fd]);
  }

  /** The handler of a connection deletes it. */
  lemma {:induction false} CloseIsLeaving(c: Config, s: State, s': State, fd: int)
    requires Ordered(s) && FiledAt(c, s, fd) && Due(s) == Due(s') == []
    requires s' == s.(tables := Deleted(s.tables, fd), loop := s'.loop)
    ensures LeavingStep(c, s, s', fd, None) && Ordered(s')
  {
    EraseMeaning(s.tables.queue, s.tables.mapping[fd].expiry);
  }

  lemma {:induction false} CloseKept(c: Config, s: State, gone: map<nat, Departure>)
    requires Kept(c, s, gone) && Enabled(c, s, Close)
    ensures Kept(c, Next(c, s, Close), Recorded(s, Close, gone))
  {
    StepIsSafe(c, s, Close);
    assert s.loop.current in Touched(s) && Live(s, s.loop.current);
    AllFiled(c, s, s.loop.current.fd);
    CloseIsLeaving(c, s, Next(c, s, Close), s.loop.current.fd);
    LeavingKept(c, s, Next(c, s, Close), s.loop.current.fd, None, OwnHandler, gone);
  }

  lemma {:induction false} DueRest(s: State)
    requires s.loop.Firing? && s.loop.due != [] && Ordered(s)
    ensures Sorted(s.loop.due[1..])
    ensures forall u :: u in s.loop.due[1..] <==> u in s.loop.due && u != s.loop.due[0]
  {
    SortedTail(s.loop.due);
    assert s.loop.due == [s.loop.due[0]] + s.loop.due[1..];
  }

  /** A timer that fires deletes whatever connection has its descriptor. */
  lemma {:induction false} FireIsLeaving(c: Config, s: State, s': State, t: SingleTimer)
    requires Ordered(s) && s.loop.Firing? && s.loop.due != [] && t == s.loop.due[0] && FiledAt(c, s, t.fd)
    requires s' == s.(tables := Deleted(s.tables, t.fd), loop := Firing(s.loop.due[1..]))
    ensures LeavingStep(c, s, s', t.fd, Some(t)) && Ordered(s')
  {
    EraseMeaning(s.tables.queue, s.tables.mapping[t.fd].expiry);
    DueRest(s);
  }

  lemma {:induction false} FiringCauseFits(s: State, s': State, t: SingleTimer, gen: nat)
    requires s.loop.Firing? && s.loop.due != [] && t == s.loop.due[0] && s'.loop == Firing(s.loop.due[1..])
    ensures CauseFits(s, s', gen, Some(t), CauseOfFiring(s.loop.due, gen)) && Safe(s')
  {
  }

  lemma {:induction false} FireExpelsKept(c: Config, s: State, s': State, t: SingleTimer, gone: map<nat, Departure>)
    requires Kept(c, s, gone) && s.adding.Nobody? && s.loop.Firing? && s.loop.due != [] && t == s.loop.due[0]
    requires t.fd in s.tables.conns && s' == s.(tables := Deleted(s.tables, t.fd), loop := Firing(s.loop.due[1..]))
    ensures var conn := s.tables.conns[t.fd];
            Kept(c, s', gone[conn.gen := Departure(conn, CauseOfFiring(s.loop.due, conn.gen))])
  {
    AllFiled(c, s, t.fd);
    FireIsLeaving(c, s, s', t);
    FiringCauseFits(s, s', t, s.tables.conns[t.fd].gen);
    LeavingKept(c, s, s', t.fd, Some(t), CauseOfFiring(s.loop.due, s.tables.conns[t.fd].gen), gone);
  }

  /** The timer of a generation that is gone fires on a descriptor that is not in use: nothing happens. */
  ghost predicate IdleFiring(s: State, s': State) {
    && s.loop.Firing? && s.loop.due != [] && s.adding.Nobody? && s' == s.(loop := Firing(s.loop.due[1..]))
    && s.loop.due[0].fd !in s.tables.conns
  }

  lemma {:induction false} IdleFiringTimers(c: Config, s: State, s': State, gone: map<nat, Departure>)
    requires TimersKnown(c, s, gone) && Ordered(s) && IdleFiring(s, s')
    ensures TimersKnown(c, s', gone) && Ordered(s')
  {
    DueRest(s);
    assert forall u :: Exists(s', u) ==> Exists(s, u);
    forall u | Exists(s', u) ensures Accounted(c, s', gone, u) {
      assert Accounted(c, s, gone, u);
    }
  }

  lemma {:induction false} IdleFiringConns(c: Config, s: State, s': State)
    requires ConnsKnown(c, s) && Ordered(s) && IdleFiring(s, s')
    ensures ConnsKnown(c, s')
  {
    DueRest(s);
    forall f | f in s'.tables.conns ensures Settled(c, s', f, s'.tables.conns[f]) {
      var conn := s.tables.conns[f];
      assert Settled(c, s, f, conn);
      var u :| Exists(s, u) && u.fd == f && u.gen == conn.gen;
      assert Exists(s', u);
    }
  }

  lemma {:induction false} FireKept(c: Config, s: State, gone: map<nat, Departure>)
    requires Kept(c, s, gone) && Enabled(c, s, Fire)
    ensures Kept(c, Next(c, s, Fire), Recorded(s, Fire, gone))
  {
    if s.loop.due[0].fd in s.tables.conns {
      FireExpelsKept(c, s, Next(c, s, Fire), s.loop.due[0], gone);
    } else {
      IdleFiringTimers(c, s, Next(c, s, Fire), gone);
      IdleFiringConns(c, s, Next(c, s, Fire));
    }
  }

  // ---- every step, every run ----

  lemma {:induction false} StepKept(c: Config, s: State, a: Action, gone: map<nat, Departure>)
    requires Kept(c, s, gone) && Enabled(c, s, a) && 0 < c.expiration && c.filing.InsertIfAbsent?
    ensures Kept(c, Next(c, s, a), Recorded(s, a, gone))
  {
    match a
    case BeginAdd(fd) => BeginAddKept(c, s, fd, gone);
    case AddTimer => AddTimerKept(c, s, gone);
    case EndAdd => EndAddKept(c, s, gone);
    case RefreshNext => RefreshKept(c, s, gone);
    case Close => CloseKept(c, s, gone);
    case Prune(count, later) => PruneKept(c, s, count, later, gone);
    case Fire => FireKept(c, s, gone);
    case _ => QuietStepKeeps(c, s, a, gone);
  }

  /** A run of the code as written, with timers on and no colliding expiries. */
  ghost predicate Written(c: Config, actions: seq<Action>) {
    0 < c.expiration && c.filing.InsertIfAbsent? && Possible(c, actions)
  }

  lemma {:induction false} AlwaysKept(c: Config, actions: seq<Action>)
    requires Written(c, actions)
    ensures Kept(c, Reached(c, actions), Gone(c, actions))
  {
    if actions != [] {
      var before := actions[..|actions| - 1];
      AlwaysKept(c, before);
      StepKept(c, Reached(c, before), actions[|actions| - 1], Gone(c, before));
    }
  }
}
