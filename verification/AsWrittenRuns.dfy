/** Single runs of the connection lifetime machine that show what the laws of `AsWrittenLaws` allow to happen. */
module AsWrittenRuns {
  import opened Prelude
  import opened Timers
  import opened Loopers
  import opened Lifetimes
  import opened LifetimeLaws

  ghost predicate Leads(c: Config, actions: seq<Action>, s: State) {
    Possible(c, actions) && Reached(c, actions) == s
  }

  lemma Then(c: Config, actions: seq<Action>, s: State, a: Action, s': State)
    requires Leads(c, actions, s) && Enabled(c, s, a) && Next(c, s, a) == s'
    ensures Leads(c, actions + [a], s')
  {
    assert (actions + [a])[..|actions|] == actions;
  }

  const AS_WRITTEN := Config(10, InsertIfAbsent)

  /** A client connects and is heard from. */
  function Arrival(): seq<Action> {
    [] + [BeginAdd(5)] + [AddTimer] + [EndAdd] + [Tick(1)] + [Poll([Pointer(5, 0)], false)]
  }

  lemma ArrivalFiled()
    ensures var t0 := SingleTimer(0, 10, 5, 0);
            Leads(AS_WRITTEN, Arrival(),
                  State(Tables(map[5 := Conn(0, 0, None, 0)], map[5 := t0], [t0]), 1, 1, 1, Nobody, Handling([Pointer(5, 0)], false)))
  {
    var c := AS_WRITTEN;
    var t0 := SingleTimer(0, 10, 5, 0);
    var conns := map[5 := Conn(0, 0, None, 0)];
    var s1 := State(Tables(conns, map[], []), 0, 0, 1, Inserted(5), Polling);
    Then(c, [], START, BeginAdd(5), s1);
    assert conns[5 := Conn(0, 0, None, 0)] == conns;
    var s2 := State(Tables(conns, map[], [t0]), 0, 1, 1, TimerAdded(5, t0), Polling);
    Then(c, [] + [BeginAdd(5)], s1, AddTimer, s2);
    var s3 := State(Tables(conns, map[5 := t0], [t0]), 0, 1, 1, Nobody, Polling);
    Then(c, [] + [BeginAdd(5)] + [AddTimer], s2, EndAdd, s3);
    var s4 := s3.(now := 1);
    Then(c, [] + [BeginAdd(5)] + [AddTimer] + [EndAdd], s3, Tick(1), s4);
    Then(c, [] + [BeginAdd(5)] + [AddTimer] + [EndAdd] + [Tick(1)], s4, Poll([Pointer(5, 0)], false),
         s4.(loop := Handling([Pointer(5, 0)], false)));
  }

  /** Its visit: it is served once, and leaves. */
  function FirstVisit(): seq<Action> {
    Arrival() + [RefreshNext] + [Close] + [EndHandling]
  }

  /** It leaves behind a timer that nothing is filed under. */
  lemma FirstVisitLeavesTimer()
    ensures Leads(AS_WRITTEN, FirstVisit(), State(Tables(map[], map[], [SingleTimer(1, 11, 5, 0)]), 1, 2, 1, Nobody, Polling))
  {
    var c := AS_WRITTEN;
    var t0, t1 := SingleTimer(0, 10, 5, 0), SingleTimer(1, 11, 5, 0);
    var p := Pointer(5, 0);
    ArrivalFiled();
    var s5 := State(Tables(map[5 := Conn(0, 0, None, 0)], map[5 := t0], [t0]), 1, 1, 1, Nobody, Handling([p], false));
    assert [t0][1..] == [] && Lookup([t0], 10) == Some(t0) && Erase([t0], 10) == [] && Emplace([], t1) == [t1];
    assert [p][1..] == [];
    assert map[5 := Conn(0, 0, None, 0)][5 := Conn(0, 0, Some(1), 1)] == map[5 := Conn(0, 0, Some(1), 1)];
    var s6 := State(Tables(map[5 := Conn(0, 0, Some(1), 1)], map[5 := t0], [t1]), 1, 2, 1, Nobody, Serving(p, [], false));
    Then(c, Arrival(), s5, RefreshNext, s6);
    assert [t1][1..] == [] && Erase([t1], 10) == [t1];
    assert map[5 := Conn(0, 0, Some(1), 1)] - {5} == map[] && map[5 := t0] - {5} == map[];
    var s7 := State(Tables(map[], map[], [t1]), 1, 2, 1, Nobody, Handling([], false));
    Then(c, Arrival() + [RefreshNext], s6, Close, s7);
    Then(c, Arrival() + [RefreshNext] + [Close], s7, EndHandling, s7.(loop := Polling));
  }

  /** Another client gets the same descriptor. */
  function SecondArrival(): seq<Action> {
    FirstVisit() + [Tick(2)] + [BeginAdd(5)] + [AddTimer] + [EndAdd]
  }

  /** The timers of both are queued. */
  lemma {:induction false} SecondArrivalFiled()
    ensures var t1, t2 := SingleTimer(1, 11, 5, 0), SingleTimer(2, 12, 5, 1);
            Leads(AS_WRITTEN, SecondArrival(),
                  State(Tables(map[5 := Conn(1, 2, None, 2)], map[5 := t2], [t1, t2]), 2, 3, 2, Nobody, Polling))
  {
    var c := AS_WRITTEN;
    var t1, t2 := SingleTimer(1, 11, 5, 0), SingleTimer(2, 12, 5, 1);
    FirstVisitLeavesTimer();
    var a0 := FirstVisit();
    var s0 := State(Tables(map[], map[], [t1]), 1, 2, 1, Nobody, Polling);
    var s1 := s0.(now := 2);
    Then(c, a0, s0, Tick(2), s1);
    var conns := map[5 := Conn(1, 2, None, 2)];
    var s2 := State(Tables(conns, map[], [t1]), 2, 2, 2, Inserted(5), Polling);
    Then(c, a0 + [Tick(2)], s1, BeginAdd(5), s2);
    assert conns[5 := Conn(1, 2, None, 2)] == conns;
    assert Emplace([t1][1..], t2) == [t2] && Emplace([t1], t2) == [t1, t2];
    var s3 := State(Tables(conns, map[], [t1, t2]), 2, 3, 2, TimerAdded(5, t2), Polling);
    Then(c, a0 + [Tick(2)] + [BeginAdd(5)], s2, AddTimer, s3);
    var s4 := State(Tables(conns, map[5 := t2], [t1, t2]), 2, 3, 2, Nobody, Polling);
    Then(c, a0 + [Tick(2)] + [BeginAdd(5)] + [AddTimer], s3, EndAdd, s4);
  }

  /** The timer of the first comes due. */
  function SecondVisit(): seq<Action> {
    SecondArrival() + [Tick(11)] + [Poll([], true)] + [Prune(1, 11)]
  }

  /**
   * With the filing as written, a run in which the timer of a client that has left expels the next user of its
   * descriptor, one millisecond before that one's own time is up.
   */
  lemma {:induction false} AsWrittenExpelsTheNextUser()
    ensures var s := Reached(AS_WRITTEN, SecondVisit());
            && Possible(AS_WRITTEN, SecondVisit()) && Enabled(AS_WRITTEN, s, Fire)
            && Live(s, Pointer(5, 1)) && s.loop.due[0].gen == 0
            && s.now < s.tables.conns[5].lastActive + AS_WRITTEN.expiration
            && 5 !in Next(AS_WRITTEN, s, Fire).tables.conns
  {
    var c := AS_WRITTEN;
    var t1, t2 := SingleTimer(1, 11, 5, 0), SingleTimer(2, 12, 5, 1);
    SecondArrivalFiled();
    var a, s := SecondArrival(), State(Tables(map[5 := Conn(1, 2, None, 2)], map[5 := t2], [t1, t2]), 2, 3, 2, Nobody, Polling);
    Then(c, a, s, Tick(11), s.(now := 11));
    var s1 := s.(now := 11, loop := Handling([], true));
    Then(c, a + [Tick(11)], s.(now := 11), Poll([], true), s1);
    assert [t1, t2][..1] == [t1] && [t1, t2][1..] == [t2];
    Then(c, a + [Tick(11)] + [Poll([], true)], s1, Prune(1, 11), s1.(tables := s1.tables.(queue := [t2]), loop := Firing([t1])));
  }

  /** The timers of both come due together, and between the two a third client gets the descriptor. */
  function ThirdVisit(): seq<Action> {
    SecondArrival() + [Tick(12)] + [Poll([], true)] + [Prune(2, 12)] + [Fire] + [BeginAdd(5)] + [AddTimer] + [EndAdd]
  }

  /**
   * With the filing as written, a run in which the timer of the first client has expelled the second, which was never
   * refreshed, and that one's timer, pruned with the other, is about to expel the third in the millisecond of its acceptance.
   */
  lemma {:induction false} AsWrittenExpelsInChain()
    ensures var s := Reached(AS_WRITTEN, ThirdVisit());
            && Possible(AS_WRITTEN, ThirdVisit()) && Enabled(AS_WRITTEN, s, Fire)
            && Live(s, Pointer(5, 2)) && s.loop.due[0].gen == 1 && s.tables.conns[5].accepted == s.now
            && 5 !in Next(AS_WRITTEN, s, Fire).tables.conns
  {
    var c := AS_WRITTEN;
    var t1, t2 := SingleTimer(1, 11, 5, 0), SingleTimer(2, 12, 5, 1);
    SecondArrivalFiled();
    var a, s := SecondArrival(), State(Tables(map[5 := Conn(1, 2, None, 2)], map[5 := t2], [t1, t2]), 2, 3, 2, Nobody, Polling);
    Then(c, a, s, Tick(12), s.(now := 12));
    var s1 := s.(now := 12, loop := Handling([], true));
    Then(c, a + [Tick(12)], s.(now := 12), Poll([], true), s1);
    assert [t1, t2][..2] == [t1, t2] && [t1, t2][2..] == [] && [t1, t2][1..] == [t2];
    var s2 := s1.(tables := s1.tables.(queue := []), loop := Firing([t1, t2]));
    Then(c, a + [Tick(12)] + [Poll([], true)], s1, Prune(2, 12), s2);
    assert map[5 := Conn(1, 2, None, 2)] - {5} == map[] && map[5 := t2] - {5} == map[];
    var s3 := State(Tables(map[], map[], []), 12, 3, 2, Nobody, Firing([t2]));
    Then(c, a + [Tick(12)] + [Poll([], true)] + [Prune(2, 12)], s2, Fire, s3);
    ThirdArrives(a + [Tick(12)] + [Poll([], true)] + [Prune(2, 12)] + [Fire]);
  }

  lemma {:induction false} ThirdArrives(a: seq<Action>)
    requires Leads(AS_WRITTEN, a, State(Tables(map[], map[], []), 12, 3, 2, Nobody, Firing([SingleTimer(2, 12, 5, 1)])))
    ensures var t2, t3 := SingleTimer(2, 12, 5, 1), SingleTimer(3, 22, 5, 2);
            Leads(AS_WRITTEN, a + [BeginAdd(5)] + [AddTimer] + [EndAdd],
                  State(Tables(map[5 := Conn(2, 12, None, 12)], map[5 := t3], [t3]), 12, 4, 3, Nobody, Firing([t2])))
  {
    var c := AS_WRITTEN;
    var t2, t3 := SingleTimer(2, 12, 5, 1), SingleTimer(3, 22, 5, 2);
    var conns := map[5 := Conn(2, 12, None, 12)];
    var s := State(Tables(map[], map[], []), 12, 3, 2, Nobody, Firing([t2]));
    var s1 := State(Tables(conns, map[], []), 12, 3, 3, Inserted(5), Firing([t2]));
    Then(c, a, s, BeginAdd(5), s1);
    assert conns[5 := Conn(2, 12, None, 12)] == conns;
    var s2 := State(Tables(conns, map[], [t3]), 12, 4, 3, TimerAdded(5, t3), Firing([t2]));
    Then(c, a + [BeginAdd(5)], s1, AddTimer, s2);
    Then(c, a + [BeginAdd(5)] + [AddTimer], s2, EndAdd, s2.(tables := Tables(conns, map[5 := t3], [t3]), adding := Nobody));
  }

  // ---- a client that is heard from all the time ----

  /** It is heard from at 1 and at 5; the second time moves nothing. */
  function BusyVisit(): seq<Action> {
    Arrival() + [RefreshNext] + [Keep] + [EndHandling] + [Tick(5)] + [Poll([Pointer(5, 0)], false)]
    + [RefreshNext] + [Keep] + [EndHandling] + [Tick(11)] + [Poll([], true)] + [Prune(1, 11)]
  }

  lemma {:induction false} BusyFirstRefresh()
    ensures Leads(AS_WRITTEN, Arrival() + [RefreshNext] + [Keep] + [EndHandling],
                  State(Tables(map[5 := Conn(0, 0, Some(1), 1)], map[5 := SingleTimer(0, 10, 5, 0)], [SingleTimer(1, 11, 5, 0)]),
                        1, 2, 1, Nobody, Polling))
  {
    var c := AS_WRITTEN;
    var t0, t1, p := SingleTimer(0, 10, 5, 0), SingleTimer(1, 11, 5, 0), Pointer(5, 0);
    ArrivalFiled();
    var s5 := State(Tables(map[5 := Conn(0, 0, None, 0)], map[5 := t0], [t0]), 1, 1, 1, Nobody, Handling([p], false));
    assert [t0][1..] == [] && Lookup([t0], 10) == Some(t0) && Erase([t0], 10) == [] && Emplace([], t1) == [t1];
    assert [p][1..] == [];
    assert map[5 := Conn(0, 0, None, 0)][5 := Conn(0, 0, Some(1), 1)] == map[5 := Conn(0, 0, Some(1), 1)];
    var s6 := State(Tables(map[5 := Conn(0, 0, Some(1), 1)], map[5 := t0], [t1]), 1, 2, 1, Nobody, Serving(p, [], false));
    Then(c, Arrival(), s5, RefreshNext, s6);
    Then(c, Arrival() + [RefreshNext], s6, Keep, s6.(loop := Handling([], false)));
    Then(c, Arrival() + [RefreshNext] + [Keep], s6.(loop := Handling([], false)), EndHandling, s6.(loop := Polling));
  }

  lemma {:induction false} BusySecondRefresh()
    ensures Leads(AS_WRITTEN, Arrival() + [RefreshNext] + [Keep] + [EndHandling] + [Tick(5)] + [Poll([Pointer(5, 0)], false)]
                              + [RefreshNext] + [Keep] + [EndHandling],
                  State(Tables(map[5 := Conn(0, 0, Some(1), 5)], map[5 := SingleTimer(0, 10, 5, 0)], [SingleTimer(1, 11, 5, 0)]),
                        5, 3, 1, Nobody, Polling))
  {
    var c := AS_WRITTEN;
    var t0, t1, p := SingleTimer(0, 10, 5, 0), SingleTimer(1, 11, 5, 0), Pointer(5, 0);
    BusyFirstRefresh();
    var a := Arrival() + [RefreshNext] + [Keep] + [EndHandling];
    var s := State(Tables(map[5 := Conn(0, 0, Some(1), 1)], map[5 := t0], [t1]), 1, 2, 1, Nobody, Polling);
    Then(c, a, s, Tick(5), s.(now := 5));
    var s1 := s.(now := 5, loop := Handling([p], false));
    Then(c, a + [Tick(5)], s.(now := 5), Poll([p], false), s1);
    assert [t1][1..] == [] && Lookup([t1], 10) == None && [p][1..] == [];
    assert map[5 := Conn(0, 0, Some(1), 1)][5 := Conn(0, 0, Some(1), 5)] == map[5 := Conn(0, 0, Some(1), 5)];
    assert !Taken([t1], 10);
    var s2 := State(Tables(map[5 := Conn(0, 0, Some(1), 5)], map[5 := t0], [t1]), 5, 3, 1, Nobody, Serving(p, [], false));
    Then(c, a + [Tick(5)] + [Poll([p], false)], s1, RefreshNext, s2);
    var s3 := s2.(loop := Handling([], false));
    Then(c, a + [Tick(5)] + [Poll([p], false)] + [RefreshNext], s2, Keep, s3);
    Then(c, a + [Tick(5)] + [Poll([p], false)] + [RefreshNext] + [Keep], s3, EndHandling, s3.(loop := Polling));
  }

  /** With the filing as written, a run in which a client is expelled by its own timer six milliseconds after it was last active. */
  lemma {:induction false} AsWrittenExpelsTheActive()
    ensures var s := Reached(AS_WRITTEN, BusyVisit());
            && Possible(AS_WRITTEN, BusyVisit()) && Enabled(AS_WRITTEN, s, Fire)
            && Live(s, Pointer(5, 0)) && s.loop.due[0].gen == 0
            && s.now < s.tables.conns[5].lastActive + AS_WRITTEN.expiration
            && 5 !in Next(AS_WRITTEN, s, Fire).tables.conns
  {
    var c := AS_WRITTEN;
    var t0, t1 := SingleTimer(0, 10, 5, 0), SingleTimer(1, 11, 5, 0);
    BusySecondRefresh();
    var a := Arrival() + [RefreshNext] + [Keep] + [EndHandling] + [Tick(5)] + [Poll([Pointer(5, 0)], false)]
             + [RefreshNext] + [Keep] + [EndHandling];
    var s := State(Tables(map[5 := Conn(0, 0, Some(1), 5)], map[5 := t0], [t1]), 5, 3, 1, Nobody, Polling);
    Then(c, a, s, Tick(11), s.(now := 11));
    var s1 := s.(now := 11, loop := Handling([], true));
    Then(c, a + [Tick(11)], s.(now := 11), Poll([], true), s1);
    assert [t1][..1] == [t1] && [t1][1..] == [];
    var s2 := State(Tables(map[5 := Conn(0, 0, Some(1), 5)], map[5 := t0], []), 11, 3, 1, Nobody, Firing([t1]));
    Then(c, a + [Tick(11)] + [Poll([], true)], s1, Prune(1, 11), s2);
  }

  // ---- two clients in one millisecond ----

  /** The first of two clients accepted in one millisecond, and the table entry of the second. */
  function TwoArrivals(f: int, g: int): seq<Action> {
    [] + [BeginAdd(f)] + [AddTimer] + [EndAdd] + [BeginAdd(g)]
  }

  /**
   * Under either filing and with any expiration, a collision is four steps away: the timer of the second of two clients
   * accepted in one millisecond is dropped, and the lookup under its expiry finds that of the first, so that deleting
   * the second connection takes the timer of the first.
   */
  lemma {:induction false} CollisionReachable(c: Config, f: int, g: int)
    requires 0 < c.expiration && f != g
    ensures var s := Reached(c, TwoArrivals(f, g));
            var s' := Next(c, Next(c, s, AddTimer), EndAdd).tables;
            var t := SingleTimer(0, c.expiration, f, 0);
            && Possible(c, TwoArrivals(f, g)) && s.adding == Inserted(g) && Taken(s.tables.queue, s.now + c.expiration)
            && s'.conns.Keys == {f, g} && s'.mapping.Keys == {f, g} && s'.queue == [t]
            && Lookup(s'.queue, s'.mapping[g].expiry) == Some(t)
            && Deleted(s', g).queue == [] && f in Deleted(s', g).conns
  {
    var t := SingleTimer(0, c.expiration, f, 0);
    var conns := map[f := Conn(0, 0, None, 0)];
    var s1 := State(Tables(conns, map[], []), 0, 0, 1, Inserted(f), Polling);
    Then(c, [], START, BeginAdd(f), s1);
    assert conns[f := Conn(0, 0, None, 0)] == conns;
    var s2 := State(Tables(conns, map[], [t]), 0, 1, 1, TimerAdded(f, t), Polling);
    Then(c, [] + [BeginAdd(f)], s1, AddTimer, s2);
    var s3 := State(Tables(conns, map[f := t], [t]), 0, 1, 1, Nobody, Polling);
    Then(c, [] + [BeginAdd(f)] + [AddTimer], s2, EndAdd, s3);
    var both := map[f := Conn(0, 0, None, 0), g := Conn(1, 0, None, 0)];
    assert conns[g := Conn(1, 0, None, 0)] == both && both[g := Conn(1, 0, None, 0)] == both;
    var s4 := State(Tables(both, map[f := t], [t]), 0, 1, 2, Inserted(g), Polling);
    Then(c, [] + [BeginAdd(f)] + [AddTimer] + [EndAdd], s3, BeginAdd(g), s4);
    assert t in [t] && Taken([t], c.expiration);
    SecondTimerDropped(c, s4, f, g, t);
  }

  lemma {:induction false} SecondTimerDropped(c: Config, s: State, f: int, g: int, t: SingleTimer)
    requires f != g && t == SingleTimer(0, c.expiration, f, 0)
    requires s == State(Tables(map[f := Conn(0, 0, None, 0), g := Conn(1, 0, None, 0)], map[f := t], [t]), 0, 1, 2, Inserted(g), Polling)
    ensures var s' := Next(c, Next(c, s, AddTimer), EndAdd).tables;
            && s'.conns.Keys == {f, g} && s'.mapping.Keys == {f, g} && s'.queue == [t]
            && Lookup(s'.queue, s'.mapping[g].expiry) == Some(t)
            && Deleted(s', g).queue == [] && f in Deleted(s', g).conns
  {
    assert [t][1..] == [];
  }
}
