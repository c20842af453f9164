/** What the invariant of `AsWritten` comes to, over every run of the code as written: exactly when and whom it fails. */
module AsWrittenLaws {
  import opened Prelude
  import opened Timers
  import opened Loopers
  import opened Lifetimes
  import opened LifetimeLaws
  import opened AsWritten

  /** The generation still has a timer, queued or pruned. */
  ghost predicate HasTimer(s: State, gen: nat) {
    exists t :: Exists(s, t) && t.gen == gen
  }

  /** The one timer of the connection at `fd`, and since when it counts. */
  ghost predicate OwnTimerOf(c: Config, s: State, fd: int, t: SingleTimer)
    requires fd in s.tables.conns
  {
    var conn := s.tables.conns[fd];
    && Exists(s, t) && t.fd == fd && t.gen == conn.gen && t.expiry == Counted(conn) + c.expiration
    && (forall u :: Exists(s, u) && u.gen == conn.gen ==> u == t)
  }

  lemma {:induction false} FindOwnTimer(c: Config, s: State, gone: map<nat, Departure>, fd: int) returns (t: SingleTimer)
    requires Kept(c, s, gone) && fd in s.tables.conns && s.adding != Inserted(fd)
    ensures OwnTimerOf(c, s, fd, t)
  {
    var conn := s.tables.conns[fd];
    assert Settled(c, s, fd, conn);
    t :| Exists(s, t) && t.fd == fd && t.gen == conn.gen;
    SameGen(c, s, gone, t, fd);
  }

  /**
   * In every run, each connection has exactly one timer of its own; it expires that long after the first refresh in a
   * later millisecond than the acceptance, or else after the acceptance.
   */
  lemma {:induction false} OneOwnTimer(c: Config, actions: seq<Action>, fd: int) returns (t: SingleTimer)
    requires Written(c, actions) && fd in Reached(c, actions).tables.conns && Reached(c, actions).adding != Inserted(fd)
    ensures OwnTimerOf(c, Reached(c, actions), fd, t)
  {
    AlwaysKept(c, actions);
    t := FindOwnTimer(c, Reached(c, actions), Gone(c, actions), fd);
  }

  /**
   * In every run, every other timer is an orphan: its generation is gone, otherwise than by this timer, and had been
   * refreshed later than accepted, or was expelled by another's timer while this one was pruned and still to run.
   */
  lemma {:induction false} OthersAreOrphans(c: Config, actions: seq<Action>, t: SingleTimer)
    requires Written(c, actions) && Exists(Reached(c, actions), t)
    ensures var s, gone := Reached(c, actions), Gone(c, actions);
            && (OwnerLives(s, t) <==> t.gen !in gone)
            && (t.gen in gone ==> Orphan(c, s, gone, t))
  {
    AlwaysKept(c, actions);
    assert Accounted(c, Reached(c, actions), Gone(c, actions), t);
  }

  /** In every run, a handler that deletes its connection leaves an orphan if and only if it had been refreshed later than accepted. */
  lemma {:induction false} CloseLeavesOrphanExactly(c: Config, actions: seq<Action>)
    requires Written(c, actions) && Enabled(c, Reached(c, actions), Close)
    ensures var s := Reached(c, actions);
            var p := s.loop.current;
            && Live(s, p)
            && (HasTimer(Next(c, s, Close), p.gen) <==> s.tables.conns[p.fd].later.Some?)
  {
    AlwaysKept(c, actions);
    var s, gone := Reached(c, actions), Gone(c, actions);
    assert s.loop.current in Touched(s);
    AllFiled(c, s, s.loop.current.fd);
    CloseIsLeaving(c, s, Next(c, s, Close), s.loop.current.fd);
    LeavesOrphanExactly(c, s, Next(c, s, Close), s.loop.current.fd, None, gone);
  }

  /** Whoever leaves, its own timer stays behind unless it is the one that fired or is queued under the filed expiry. */
  lemma {:induction false} LeavesOrphanExactly(c: Config, s: State, s': State, fd: int, fired: Option<SingleTimer>,
                                               gone: map<nat, Departure>)
    requires Kept(c, s, gone) && LeavingStep(c, s, s', fd, fired)
    ensures var conn := s.tables.conns[fd];
            HasTimer(s', conn.gen) <==> && !(fired.Some? && fired.value.gen == conn.gen)
                                        && (conn.later.Some? || exists u :: u in Due(s') && u.gen == conn.gen)
  {
    var conn := s.tables.conns[fd];
    assert Settled(c, s, fd, conn);
    var t :| Exists(s, t) && t.fd == fd && t.gen == conn.gen;
    SameGen(c, s, gone, t, fd);
    assert fired.Some? ==> Exists(s, fired.value);
    assert forall u :: Exists(s', u) ==> Exists(s, u);
    assert Exists(s', t) || !HasTimer(s', conn.gen);
  }

  /**
   * In every run, a timer that fires deletes whatever connection has its descriptor and no other. That is one of
   * another generation if and only if the timer is an orphan and its descriptor is in use again. Of the queued timers,
   * one is lost if and only if it is that of the connection expelled and that had not been refreshed later than accepted.
   */
  lemma {:induction false} FireExpelsAnotherExactly(c: Config, actions: seq<Action>)
    requires Written(c, actions) && Enabled(c, Reached(c, actions), Fire)
    ensures var s, gone := Reached(c, actions), Gone(c, actions);
            var t, s' := s.loop.due[0], Next(c, s, Fire);
            && s'.tables.conns == s.tables.conns - {t.fd}
            && (t.fd in s.tables.conns && s.tables.conns[t.fd].gen != t.gen
                <==> Orphan(c, s, gone, t) && t.fd in s.tables.conns)
            && (forall u :: u in s.tables.queue ==>
                  (u !in s'.tables.queue <==>
                   t.fd in s.tables.conns && u.gen == s.tables.conns[t.fd].gen && s.tables.conns[t.fd].later.None?))
  {
    AlwaysKept(c, actions);
    var s, gone := Reached(c, actions), Gone(c, actions);
    var t, s' := s.loop.due[0], Next(c, s, Fire);
    assert Exists(s, t) && Accounted(c, s, gone, t);
    if t.fd in s.tables.conns {
      AllFiled(c, s, t.fd);
      FireIsLeaving(c, s, s', t);
      QueueLoses(c, s, s', t, gone);
    }
  }

  lemma {:induction false} QueueLoses(c: Config, s: State, s': State, t: SingleTimer, gone: map<nat, Departure>)
    requires Kept(c, s, gone) && LeavingStep(c, s, s', t.fd, Some(t))
    ensures forall u :: u in s.tables.queue ==>
              (u !in s'.tables.queue <==> u.gen == s.tables.conns[t.fd].gen && s.tables.conns[t.fd].later.None?)
  {
    var conn := s.tables.conns[t.fd];
    FiledIsOwn(c, s, gone, t.fd);
    assert Settled(c, s, t.fd, conn);
    forall u | u in s.tables.queue
      ensures u !in s'.tables.queue <==> u.gen == conn.gen && conn.later.None?
    {
      assert Exists(s, u);
      if u.gen == conn.gen {
        SameGen(c, s, gone, u, t.fd);
      } else {
        assert u.expiry != conn.accepted + c.expiration;
      }
    }
  }

  /**
   * In every run, a connection expelled by a timer leaves an orphan of its own if and only if the timer is another's
   * and the connection had been refreshed later than accepted or its own timer is pruned and still to run.
   */
  lemma {:induction false} FireLeavesOrphanExactly(c: Config, actions: seq<Action>)
    requires Written(c, actions) && Enabled(c, Reached(c, actions), Fire)
    requires Reached(c, actions).loop.due[0].fd in Reached(c, actions).tables.conns
    ensures var s := Reached(c, actions);
            var t := s.loop.due[0];
            var conn := s.tables.conns[t.fd];
            HasTimer(Next(c, s, Fire), conn.gen)
            <==> conn.gen != t.gen && (conn.later.Some? || exists u :: u in s.loop.due[1..] && u.gen == conn.gen)
  {
    AlwaysKept(c, actions);
    var s := Reached(c, actions);
    var t, s' := s.loop.due[0], Next(c, s, Fire);
    AllFiled(c, s, t.fd);
    FireIsLeaving(c, s, s', t);
    LeavesOrphanExactly(c, s, s', t.fd, Some(t), Gone(c, actions));
    assert Due(s') == s.loop.due[1..];
  }

  /**
   * In every run, a refresh moves the timer of its connection if and only if it is the first in a later millisecond
   * than the acceptance. After that one no refresh moves it any more.
   */
  lemma {:induction false} RefreshMovesExactly(c: Config, actions: seq<Action>) returns (t: SingleTimer, t': SingleTimer)
    requires Written(c, actions) && Enabled(c, Reached(c, actions), RefreshNext)
    ensures var s := Reached(c, actions);
            var fd, s' := s.loop.ready[0].fd, Next(c, s, RefreshNext);
            && fd in s.tables.conns && fd in s'.tables.conns && OwnTimerOf(c, s, fd, t) && OwnTimerOf(c, s', fd, t')
            && (t'.expiry != t.expiry <==> s.tables.conns[fd].later.None? && s.tables.conns[fd].accepted < s.now)
            && t'.expiry == (if s.tables.conns[fd].later.None? then s.now + c.expiration else t.expiry)
  {
    AlwaysKept(c, actions);
    var s, gone := Reached(c, actions), Gone(c, actions);
    RefreshKept(c, s, gone);
    t, t' := RefreshMoves(c, s, gone);
  }

  lemma {:induction false} RefreshMoves(c: Config, s: State, gone: map<nat, Departure>) returns (t: SingleTimer, t': SingleTimer)
    requires Kept(c, s, gone) && Enabled(c, s, RefreshNext) && Kept(c, Next(c, s, RefreshNext), gone)
    ensures var fd, s' := s.loop.ready[0].fd, Next(c, s, RefreshNext);
            && fd in s.tables.conns && fd in s'.tables.conns && OwnTimerOf(c, s, fd, t) && OwnTimerOf(c, s', fd, t')
            && (t'.expiry != t.expiry <==> s.tables.conns[fd].later.None? && s.tables.conns[fd].accepted < s.now)
            && t'.expiry == (if s.tables.conns[fd].later.None? then s.now + c.expiration else t.expiry)
  {
    var fd, s' := s.loop.ready[0].fd, Next(c, s, RefreshNext);
    RefreshIsHeard(c, s, gone);
    t := FindOwnTimer(c, s, gone, fd);
    t' := FindOwnTimer(c, s', gone, fd);
    assert Settled(c, s, fd, s.tables.conns[fd]);
  }

  lemma {:induction false} RefreshIsHeard(c: Config, s: State, gone: map<nat, Departure>)
    requires Kept(c, s, gone) && Enabled(c, s, RefreshNext)
    ensures var fd, s' := s.loop.ready[0].fd, Next(c, s, RefreshNext);
            && fd in s.tables.conns && fd in s'.tables.conns && s'.tables.conns[fd] == Heard(s.tables.conns[fd], s.now)
            && s.adding.Nobody? && s'.adding.Nobody?
  {
    var p := s.loop.ready[0];
    assert p in Touched(s) && Live(s, p);
  }

  /** In every run, pruning takes the own timer of a connection by the time that timer counts from, whatever its last activity. */
  lemma {:induction false} PruneCountsFromFirstRefresh(c: Config, actions: seq<Action>, count: nat, later: nat, fd: int)
    requires Written(c, actions) && Enabled(c, Reached(c, actions), Prune(count, later))
    requires fd in Reached(c, actions).tables.conns && Reached(c, actions).adding != Inserted(fd)
    ensures var s := Reached(c, actions);
            var conn, due := s.tables.conns[fd], Next(c, s, Prune(count, later)).loop.due;
            && (Counted(conn) + c.expiration <= s.now ==> exists t :: t in due && t.fd == fd && t.gen == conn.gen)
            && (later < Counted(conn) + c.expiration ==> forall t :: t in due ==> t.gen != conn.gen)
  {
    AlwaysKept(c, actions);
    var s := Reached(c, actions);
    var t := FindOwnTimer(c, s, Gone(c, actions), fd);
    PruneTakesOwn(c, s, count, later, fd, t);
  }

  lemma {:induction false} PruneTakesOwn(c: Config, s: State, count: nat, later: nat, fd: int, t: SingleTimer)
    requires Enabled(c, s, Prune(count, later)) && Sorted(s.tables.queue) && fd in s.tables.conns && OwnTimerOf(c, s, fd, t)
    ensures var conn, due := s.tables.conns[fd], Next(c, s, Prune(count, later)).loop.due;
            && (Counted(conn) + c.expiration <= s.now ==> t in due)
            && (later < Counted(conn) + c.expiration ==> forall u :: u in due ==> u.gen != conn.gen)
  {
    var q := s.tables.queue;
    if t.expiry <= s.now {
      DueIsPruned(q, count, s.now, t);
    }
    PruneOrdered(q, count, later);
    CutMembers(q, count);
    assert forall u :: u in q[..count] ==> Exists(s, u);
  }

  /**
   * In every run, a connection expelled by its own timer had been silent for the expiration when that timer came due
   * if and only if nothing was heard of it after its first later refresh.
   */
  lemma {:induction false} ExpelledIdleExactly(c: Config, actions: seq<Action>)
    requires Written(c, actions) && Enabled(c, Reached(c, actions), Fire)
    requires OwnerLives(Reached(c, actions), Reached(c, actions).loop.due[0])
    ensures var s := Reached(c, actions);
            var t := s.loop.due[0];
            var conn := s.tables.conns[t.fd];
            && t.expiry <= s.now
            && (conn.lastActive + c.expiration <= t.expiry <==> conn.later == None || conn.later == Some(conn.lastActive))
  {
    AlwaysKept(c, actions);
    var s := Reached(c, actions);
    var t := s.loop.due[0];
    assert Exists(s, t) && Accounted(c, s, Gone(c, actions), t);
    assert Settled(c, s, t.fd, s.tables.conns[t.fd]);
  }

  /** In a run where no connection that left had been refreshed later than accepted, every timer is that of a live connection. */
  lemma {:induction false} NoOrphanWithoutLaterRefresh(c: Config, actions: seq<Action>)
    requires Written(c, actions) && forall g :: g in Gone(c, actions) ==> Gone(c, actions)[g].conn.later.None?
    ensures forall t :: Exists(Reached(c, actions), t) ==> OwnerLives(Reached(c, actions), t)
    ensures forall g :: g in Gone(c, actions) ==> !Gone(c, actions)[g].cause.OtherTimer?
  {
    AlwaysKept(c, actions);
    if actions != [] {
      var before, a := actions[..|actions| - 1], actions[|actions| - 1];
      AlwaysKept(c, before);
      DepartedStay(c, Reached(c, before), a, Gone(c, before));
      NoOrphanWithoutLaterRefresh(c, before);
      NobodyElseExpels(Reached(c, before), a, Gone(c, before));
    }
    assert forall t :: Exists(Reached(c, actions), t) ==> Accounted(c, Reached(c, actions), Gone(c, actions), t);
  }

  lemma {:induction false} DepartedStay(c: Config, s: State, a: Action, gone: map<nat, Departure>)
    requires GensKnown(s, gone)
    ensures forall g :: g in gone ==> g in Recorded(s, a, gone) && Recorded(s, a, gone)[g] == gone[g]
  {
  }

  lemma {:induction false} NobodyElseExpels(s: State, a: Action, gone: map<nat, Departure>)
    requires forall t :: Exists(s, t) ==> OwnerLives(s, t)
    requires forall g :: g in gone ==> !gone[g].cause.OtherTimer?
    ensures forall g :: g in Recorded(s, a, gone) ==> !Recorded(s, a, gone)[g].cause.OtherTimer?
  {
    if a.Fire? && s.loop.Firing? && s.loop.due != [] {
      assert s.loop.due[0] in Due(s) && Exists(s, s.loop.due[0]);
    }
  }
}
