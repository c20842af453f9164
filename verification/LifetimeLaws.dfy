/** Whole runs of the connection lifetime machine: what never happens in them, and exactly when the invariant breaks. */
module LifetimeLaws {
  import opened Timers
  import opened Loopers
  import opened Lifetimes

  function Reached(c: Config, actions: seq<Action>): State {
    if actions == [] then START else Next(c, Reached(c, actions[..|actions| - 1]), actions[|actions| - 1])
  }

  ghost predicate Possible(c: Config, actions: seq<Action>) {
    actions == []
    || (Possible(c, actions[..|actions| - 1]) && Enabled(c, Reached(c, actions[..|actions| - 1]), actions[|actions| - 1]))
  }

  /** With timers on, a run whose refreshes, if any, overwrite as they are meant to. */
  predicate Intended(c: Config, actions: seq<Action>) {
    0 < c.expiration && (c.filing.Overwrite? || forall a :: a in actions ==> !a.RefreshNext?)
  }

  lemma {:induction false} AlwaysInv(c: Config, actions: seq<Action>)
    requires Intended(c, actions) && Possible(c, actions)
    ensures Inv(c, Reached(c, actions))
  {
    if actions == [] {
      StartInv(c);
    } else {
      AlwaysInv(c, actions[..|actions| - 1]);
      StepKeeps(c, Reached(c, actions[..|actions| - 1]), actions[|actions| - 1]);
    }
  }

  /**
   * In every run, a fired timer's callback deletes exactly the connection it was armed for: the one of that
   * generation, idle for at least the expiration, and no other. Its lookup by expiry misses the queue, so no other
   * connection's timer is erased.
   */
  lemma FiredTimerDeletesItsOwn(c: Config, actions: seq<Action>)
    requires Intended(c, actions) && Possible(c, actions) && Enabled(c, Reached(c, actions), Fire)
    ensures var s := Reached(c, actions);
            var s' := Next(c, s, Fire);
            var t := s.loop.due[0];
            && Live(s, Pointer(t.fd, t.gen)) && s.tables.conns[t.fd].lastActive + c.expiration <= s.now
            && s'.tables.conns == s.tables.conns - {t.fd}
            && s'.tables.queue == s.tables.queue && s'.tables.mapping == s.tables.mapping - {t.fd}
  {
    AlwaysInv(c, actions);
    var s := Reached(c, actions);
    FireKeeps(c, s);
    var t := s.loop.due[0];
    assert t in Due(s) && Exists(s, t) && Belongs(c, s, t);
  }

  /** A run with or without colliding expiries. */
  ghost predicate Happens(c: Config, actions: seq<Action>) {
    actions == []
    || (Happens(c, actions[..|actions| - 1]) && CanHappen(Reached(c, actions[..|actions| - 1]), actions[|actions| - 1]))
  }

  /** The connections still to be touched are safe from every step, whatever timers are filed where. */
  lemma {:induction false} StepIsSafe(c: Config, s: State, a: Action)
    requires Safe(s) && CanHappen(s, a)
    ensures Safe(Next(c, s, a))
  {
    var s' := Next(c, s, a);
    match a
    case RefreshNext => assert Touched(s') == Touched(s);
    case Keep => RestIsSafe(s, s', s.loop.current);
    case Close => RestIsSafe(s, s', s.loop.current);
    case _ =>
  }

  /**
   * In every run, however refreshes file their timers and whichever expiries collide, no callback is ever invoked on a
   * connection that is gone, nor on one that reused its descriptor: the timer callback comes last in its round.
   */
  lemma {:induction false} CallbacksFindTheirConnection(c: Config, actions: seq<Action>)
    requires Happens(c, actions)
    ensures Safe(Reached(c, actions))
  {
    if actions != [] {
      CallbacksFindTheirConnection(c, actions[..|actions| - 1]);
      StepIsSafe(c, Reached(c, actions[..|actions| - 1]), actions[|actions| - 1]);
    }
  }

  lemma {:induction false} DueIsPruned(q: seq<SingleTimer>, count: nat, now: nat, t: SingleTimer)
    requires Sorted(q) && count <= |q| && t in q && t.expiry <= now && (count < |q| ==> now < q[count].expiry)
    ensures t in q[..count]
  {
    var i :| 0 <= i < |q| && q[i] == t;
    assert i < count;
    assert q[..count][i] == t;
  }

  /** A pruning takes the timers of connections idle for long enough when it starts, and of none that is not when it ends. */
  lemma {:induction false} PruneSparesTheActive(c: Config, actions: seq<Action>, count: nat, later: nat, fd: int)
    requires Intended(c, actions) && Possible(c, actions) && Enabled(c, Reached(c, actions), Prune(count, later))
    requires fd in Reached(c, actions).tables.mapping
    ensures var s := Reached(c, actions);
            var due := Next(c, s, Prune(count, later)).loop.due;
            && fd in s.tables.conns
            && var idleSince := s.tables.conns[fd].lastActive;
            && (idleSince + c.expiration <= s.now ==> s.tables.mapping[fd] in due)
            && (later < idleSince + c.expiration ==> forall t :: t in due ==> t.fd != fd)
  {
    AlwaysInv(c, actions);
    var s := Reached(c, actions);
    var q := s.tables.queue;
    var t := s.tables.mapping[fd];
    assert Exists(s, t) && Belongs(c, s, t);
    if t.expiry <= s.now {
      DueIsPruned(q, count, s.now, t);
    }
    PruneOrdered(q, count, later);
    CutMembers(q, count);
    forall u | u in q[..count] && later < t.expiry ensures u.fd != fd {
      assert Exists(s, u) && Belongs(c, s, u);
    }
  }

  /** In every run, connections, filed timers and existing timers correspond one to one when no connection is being added. */
  lemma OneTimerEach(c: Config, actions: seq<Action>)
    requires Intended(c, actions) && Possible(c, actions) && Reached(c, actions).adding.Nobody?
    ensures var s := Reached(c, actions);
            && s.tables.mapping.Keys == s.tables.conns.Keys
            && (forall fd :: fd in s.tables.mapping ==> Exists(s, s.tables.mapping[fd]))
            && (forall t :: Exists(s, t) ==> t.fd in s.tables.mapping && s.tables.mapping[t.fd] == t
                                             && s.tables.conns[t.fd].gen == t.gen
                                             && t.expiry == s.tables.conns[t.fd].lastActive + c.expiration)
  {
    AlwaysInv(c, actions);
    var s := Reached(c, actions);
    assert forall t :: Exists(s, t) ==> Belongs(c, s, t);
    assert forall fd :: fd in s.tables.mapping.Keys <==> fd in s.tables.conns.Keys;
  }

  /** A connection leaves only when its own handler closes it or its own timer fires. */
  lemma LeavesOnlyByItsOwn(c: Config, s: State, a: Action, p: Pointer)
    requires Inv(c, s) && Enabled(c, s, a) && 0 < c.expiration && Live(s, p) && !Live(Next(c, s, a), p)
    ensures (a.Close? && s.loop.current == p) || (a.Fire? && s.loop.due[0].fd == p.fd && s.loop.due[0].gen == p.gen)
  {
    match a
    case Close =>
      assert s.loop.current in Touched(s);
    case Fire =>
      assert s.loop.due[0] in Due(s) && Exists(s, s.loop.due[0]);
      assert Belongs(c, s, s.loop.due[0]);
    case RefreshNext =>
      ReadyIsFiled(c, s);
      RefreshEffect(s.tables, c.filing, s.loop.ready[0].fd, s.nextId, s.now, c.expiration, s.tables.mapping[s.loop.ready[0].fd]);
    case _ =>
  }

  /** The three locked steps of adding a connection, with nothing in between, are AddConnection. */
  lemma AddStepsAreAddConnection(c: Config, s: State, fd: int)
    requires s.adding.Nobody? && fd !in s.tables.conns
    ensures var s3 := Next(c, Next(c, Next(c, s, BeginAdd(fd)), AddTimer), EndAdd);
            var t := SingleTimer(s.nextId, s.now + c.expiration, fd, s.nextGen);
            s3.tables == FileTimer(Arm(InsertConn(s.tables, fd, Accepted(s.nextGen, s.now)), t), fd, t) && s3.adding.Nobody?
  {
    var conns := s.tables.conns;
    var conn := Accepted(s.nextGen, s.now);
    assert conns[fd := conn][fd := conn] == conns[fd := conn];
  }

  /** What PruneExpiredTimer finds due, with the clock read anew for every timer, is a pruning step of the machine. */
  lemma {:induction false} PruneStepIsPruneExpired(s: State, readings: seq<nat>)
    requires Ordered(s) && s.loop.Handling? && s.loop.ready == [] && s.loop.timerReady
    requires |s.tables.queue| < |readings| && Advancing(readings) && readings[0] == s.now
    ensures CanHappen(s, Prune(DueCount(s.tables.queue, readings), readings[|s.tables.queue|]))
  {
    var q := s.tables.queue;
    DueCountMeaning(q, readings);
    var k := DueCount(q, readings);
    assert k < |q| ==> readings[0] <= readings[k];
    assert 0 < k ==> q[k - 1].expiry <= readings[k - 1] <= readings[|q|];
  }

  // ---- exactly when it breaks ----

  /** Adding a timer keeps the invariant exactly when no queued timer expires in the same millisecond. */
  lemma AddTimerExactly(c: Config, s: State)
    requires Inv(c, s) && s.adding.Inserted? && 0 < c.expiration
    ensures Inv(c, Next(c, s, AddTimer)) <==> !Taken(s.tables.queue, s.now + c.expiration)
  {
    if !Taken(s.tables.queue, s.now + c.expiration) {
      AddTimerKeeps(c, s);
    } else {
      var s' := Next(c, s, AddTimer);
      var t := s'.adding.timer;
      EmplaceMeaning(s.tables.queue, t);
      NewTimerIsNew(c, s, t);
      assert Due(s') == Due(s) && !Exists(s', t);
    }
  }

  /** Overwriting, a refresh keeps the invariant exactly when it collides with no other queued timer. */
  lemma RefreshExactly(c: Config, s: State)
    requires Inv(c, s) && s.adding.Nobody? && s.loop.Handling? && s.loop.ready != [] && 0 < c.expiration && c.filing.Overwrite?
    ensures Inv(c, Next(c, s, RefreshNext)) <==> !CollidesOnRefresh(c, s, s.loop.ready[0].fd)
  {
    if !CollidesOnRefresh(c, s, s.loop.ready[0].fd) {
      RefreshKeeps(c, s);
    } else {
      var s' := Next(c, s, RefreshNext);
      var fd := s.loop.ready[0].fd;
      ReadyIsFiled(c, s);
      RefreshEffect(s.tables, c.filing, fd, s.nextId, s.now, c.expiration, s.tables.mapping[fd]);
      EraseMeaning(s.tables.queue, s.tables.mapping[fd].expiry);
      NewTimerIsNew(c, s, s'.tables.mapping[fd]);
      assert !Exists(s', s'.tables.mapping[fd]);
    }
  }

  lemma NewTimerIsNew(c: Config, s: State, n: SingleTimer)
    requires Corresponds(c, s) && n.id == s.nextId
    ensures !Exists(s, n)
  {
    assert Exists(s, n) ==> Belongs(c, s, n);
  }

  /**
   * As the source files it, with an insertion that does not overwrite, the correspondence breaks at the first refresh
   * of any connection, and at nothing else: the filed pointer is left on a timer that has been destroyed.
   */
  lemma AsWrittenExactly(c: Config, s: State, a: Action)
    requires Inv(c, s) && Enabled(c, s, a) && 0 < c.expiration && c.filing.InsertIfAbsent?
    ensures Inv(c, Next(c, s, a)) <==> !a.RefreshNext?
  {
    if !a.RefreshNext? {
      StepKeeps(c, s, a);
    } else {
      var s' := Next(c, s, a);
      var fd := s.loop.ready[0].fd;
      ReadyIsFiled(c, s);
      var t := s.tables.mapping[fd];
      RefreshEffect(s.tables, c.filing, fd, s.nextId, s.now, c.expiration, s.tables.mapping[fd]);
      assert Exists(s, t) && Belongs(c, s, t);
      assert !Exists(s', t);
    }
  }
}
