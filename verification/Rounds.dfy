/**
 * The rounds of Loop (src/core/looper.cpp) in whole runs, however refreshes file their timers and whichever expiries
 * collide: every connection that a poll reports is called back, once and in order, then the timer if it was reported, and
 * then every timer that was pruned fires, in order.
 */
module Rounds {
  import opened Prelude
  import opened Timers
  import opened Loopers
  import opened Lifetimes
  import opened LifetimeLaws

  // ---- what has happened since the last poll ----

  datatype Report = Report(ready: seq<Pointer>, timerReady: bool)

  /** What the last poll reported. */
  function LastPoll(actions: seq<Action>): Option<Report> {
    if actions == [] then None
    else
      var a := actions[|actions| - 1];
      if a.Poll? then Some(Report(a.ready, a.timerReady)) else LastPoll(actions[..|actions| - 1])
  }

  /** The connections called back since. */
  function Called(c: Config, actions: seq<Action>): seq<Pointer> {
    if actions == [] || actions[|actions| - 1].Poll? then []
    else
      var before, s := Called(c, actions[..|actions| - 1]), Reached(c, actions);
      if actions[|actions| - 1].RefreshNext? && s.loop.Serving? then before + [s.loop.current] else before
  }

  /** The timers pruned since, if there was a pruning. */
  function Pruned(c: Config, actions: seq<Action>): Option<seq<SingleTimer>> {
    if actions == [] || actions[|actions| - 1].Poll? then None
    else
      var before := actions[..|actions| - 1];
      var q, a := Reached(c, before).tables.queue, actions[|actions| - 1];
      if a.Prune? && a.count <= |q| then Some(q[..a.count]) else Pruned(c, before)
  }

  /** The timers that have fired since. */
  function Fired(c: Config, actions: seq<Action>): seq<SingleTimer> {
    if actions == [] || actions[|actions| - 1].Poll? then []
    else
      var before := actions[..|actions| - 1];
      var s := Reached(c, before);
      if actions[|actions| - 1].Fire? && Due(s) != [] then Fired(c, before) + [Due(s)[0]] else Fired(c, before)
  }

  // ---- the law ----

  /** Where the round stands, against what was reported, called back, pruned and fired. */
  ghost predicate OnCourse(loop: Loop, report: Report, called: seq<Pointer>, pruned: Option<seq<SingleTimer>>, fired: seq<SingleTimer>) {
    match loop
    case Handling(ready, timerReady) =>
      called + ready == report.ready && timerReady == report.timerReady && pruned == None && fired == []
    case Serving(current, ready, timerReady) =>
      && called != [] && called[|called| - 1] == current && called + ready == report.ready
      && timerReady == report.timerReady && pruned == None && fired == []
    case Firing(due) => called == report.ready && report.timerReady && pruned == Some(fired + due)
    case Polling => called == report.ready && if report.timerReady then pruned == Some(fired) else pruned == None && fired == []
  }

  lemma {:induction false} StepOnCourse(c: Config, s: State, a: Action, report: Report, called: seq<Pointer>,
                                        pruned: Option<seq<SingleTimer>>, fired: seq<SingleTimer>)
    requires OnCourse(s.loop, report, called, pruned, fired) && CanHappen(s, a) && !a.Poll?
    ensures var s' := Next(c, s, a);
            var called' := if a.RefreshNext? && s'.loop.Serving? then called + [s'.loop.current] else called;
            var pruned' := if a.Prune? && a.count <= |s.tables.queue| then Some(s.tables.queue[..a.count]) else pruned;
            var fired' := if a.Fire? && Due(s) != [] then fired + [Due(s)[0]] else fired;
            OnCourse(s'.loop, report, called', pruned', fired')
  {
    match a
    case RefreshNext =>
      var ready := s.loop.ready;
      assert ready == [ready[0]] + ready[1..];
      assert called + ready == called + [ready[0]] + ready[1..];
    case EndHandling => assert called + [] == called;
    case Prune(count, later) => assert called + [] == called && fired + s.tables.queue[..count] == s.tables.queue[..count];
    case Fire =>
      var due := s.loop.due;
      assert due == [due[0]] + due[1..];
      assert fired + due == fired + [due[0]] + due[1..];
    case EndFiring => assert fired + [] == fired;
    case _ =>
  }

  /**
   * In every run, those called back since the last poll, followed by those still to come, are what it reported; the timer
   * queue is pruned in its round if and only if it reported the timer, when all of them have been called back; and the
   * timers that have fired since, followed by those still to fire, are what was pruned. Between rounds nothing is left over.
   */
  lemma {:induction false} RoundsAreComplete(c: Config, actions: seq<Action>)
    requires Happens(c, actions)
    ensures match LastPoll(actions)
            case None => Reached(c, actions).loop.Polling?
            case Some(report) =>
              OnCourse(Reached(c, actions).loop, report, Called(c, actions), Pruned(c, actions), Fired(c, actions))
  {
    if actions != [] {
      var before, a := actions[..|actions| - 1], actions[|actions| - 1];
      RoundsAreComplete(c, before);
      var s := Reached(c, before);
      if a.Poll? {
        assert [] + a.ready == a.ready;
      } else if LastPoll(before).Some? {
        StepOnCourse(c, s, a, LastPoll(before).value, Called(c, before), Pruned(c, before), Fired(c, before));
      }
    }
  }

  /** Whoever is called back is the one that the refresh counts as active, and no other. */
  lemma {:induction false} CalledIsRefreshed(c: Config, s: State)
    requires Safe(s) && CanHappen(s, RefreshNext)
    ensures var s' := Next(c, s, RefreshNext);
            && s'.loop.Serving? && Live(s, s'.loop.current)
            && var fd := s'.loop.current.fd;
               s'.tables.conns == s.tables.conns[fd := Heard(s.tables.conns[fd], s.now)]
  {
    assert s.loop.ready[0] in Touched(s);
  }
}
