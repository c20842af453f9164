/**
 * The logger of src/log/logger.cpp: producers push under the mutex, one writer swaps the queue out under the mutex and
 * writes it without. Steps are what happens between two acquisitions of the mutex.
 */
module Loggers {
  type Log = string

  const COUNT_THRESHOLD := 1000

  /** Where the writer thread is. If it found nothing to write, it still holds the mutex when it checks the flag. */
  datatype Writer = Waiting | Writing | Clearing | Checking(locked: bool) | Exited

  datatype State = State(
    queue: seq<Log>,
    batch: seq<Log>,      // the writer's own queue
    done: bool,
    writer: Writer,
    // what has happened so far:
    pushed: seq<Log>,
    written: seq<Log>,
    seen: nat)            // how many had been pushed when the writer last held the mutex

  datatype Action =
    | Push(log: Log)
    | SetDone
    | Wake(overdue: bool)   // the wait ends, with the mutex held; `overdue` is what the clock says
    | WriteBatch
    | ClearBatch
    | CheckDone

  const START := State([], [], false, Waiting, [], [], 0)

  predicate Enabled(s: State, a: Action) {
    match a
    case Push(_) => s.writer != Checking(true)
    case SetDone => true
    case Wake(overdue) => s.writer.Waiting? && (s.done || |s.queue| > COUNT_THRESHOLD || overdue)
    case WriteBatch => s.writer.Writing?
    case ClearBatch => s.writer.Clearing?
    case CheckDone => s.writer.Checking?
  }

  function Next(s: State, a: Action): State {
    match a
    case Push(log) => s.(queue := s.queue + [log], pushed := s.pushed + [log])
    case SetDone => s.(done := true)
    case Wake(_) =>
      if s.queue != [] then s.(queue := s.batch, batch := s.queue, writer := Writing, seen := |s.pushed|)
      else s.(writer := Checking(true), seen := |s.pushed|)
    case WriteBatch => s.(written := s.written + s.batch, writer := Clearing)
    case ClearBatch => s.(batch := [], writer := Checking(false))
    case CheckDone => s.(writer := if s.done then Exited else Waiting)
  }

  function InFlight(s: State): seq<Log> {
    if s.writer.Writing? then s.batch else []
  }

  ghost predicate Inv(s: State) {
    && s.seen <= |s.pushed|
    && s.written + InFlight(s) == s.pushed[..s.seen] && s.queue == s.pushed[s.seen..]
    && (!s.writer.Writing? && !s.writer.Clearing? ==> s.batch == [])
    && (s.writer.Exited? ==> s.done)
  }

  lemma StepKeeps(s: State, a: Action)
    requires Inv(s) && Enabled(s, a)
    ensures Inv(Next(s, a))
  {
    match a
    case Push(log) =>
      assert (s.pushed + [log])[..s.seen] == s.pushed[..s.seen];
      assert (s.pushed + [log])[s.seen..] == s.pushed[s.seen..] + [log];
    case Wake(_) =>
      assert s.pushed[..s.seen] + s.pushed[s.seen..] == s.pushed;
      assert s.pushed[..|s.pushed|] == s.pushed;
    case _ =>
  }

  function Reached(actions: seq<Action>): State {
    if actions == [] then START else Next(Reached(actions[..|actions| - 1]), actions[|actions| - 1])
  }

  predicate Possible(actions: seq<Action>) {
    actions == []
    || (Possible(actions[..|actions| - 1]) && Enabled(Reached(actions[..|actions| - 1]), actions[|actions| - 1]))
  }

  lemma {:induction false} AlwaysInv(actions: seq<Action>)
    requires Possible(actions)
    ensures Inv(Reached(actions))
  {
    if actions != [] {
      AlwaysInv(actions[..|actions| - 1]);
      StepKeeps(Reached(actions[..|actions| - 1]), actions[|actions| - 1]);
    }
  }

  /**
   * In every interleaving of producers and the writer, what is written, then what is in flight, then what is queued
   * is the push order; and the batch that is swapped in for the queue is empty.
   */
  lemma WrittenInPushOrder(actions: seq<Action>)
    requires Possible(actions)
    ensures var s := Reached(actions);
            && s.written + InFlight(s) + s.queue == s.pushed
            && (s.writer.Waiting? ==> s.batch == [])
  {
    AlwaysInv(actions);
    var s := Reached(actions);
    assert s.pushed == s.pushed[..s.seen] + s.pushed[s.seen..];
  }

  /**
   * When the writer has exited, the unwritten logs are exactly those pushed after it last held the mutex: all logs
   * are written if and only if there are none.
   */
  lemma UnwrittenAtExit(actions: seq<Action>)
    requires Possible(actions) && Reached(actions).writer.Exited?
    ensures var s := Reached(actions);
            && s.seen <= |s.pushed| && s.written == s.pushed[..s.seen] && s.queue == s.pushed[s.seen..]
            && (s.written == s.pushed <==> s.seen == |s.pushed|)
  {
    AlwaysInv(actions);
    var s := Reached(actions);
    assert s.seen == |s.pushed| ==> s.pushed[..s.seen] == s.pushed;
  }

  /**
   * In every interleaving, the writer takes all that is queued, and does so only when told to finish, when more than a
   * thousand logs wait, or when the last flush is long ago.
   */
  lemma {:induction false} SwapsWhenDue(actions: seq<Action>, overdue: bool)
    requires Possible(actions) && Enabled(Reached(actions), Wake(overdue)) && Reached(actions).queue != []
    ensures var s, s' := Reached(actions), Next(Reached(actions), Wake(overdue));
            && s'.batch == s.queue && s'.queue == []
            && (s.done || overdue || 1000 < |s'.batch|)
  {
    AlwaysInv(actions);
  }

  lemma Then(actions: seq<Action>, s: State, a: Action)
    requires Possible(actions) && Reached(actions) == s && Enabled(s, a)
    ensures Possible(actions + [a]) && Reached(actions + [a]) == Next(s, a)
  {
    assert (actions + [a])[..|actions|] == actions;
  }

  /** A log pushed before the logger is told to finish, while a batch is being written, is lost. */
  lemma LogBeforeDoneCanBeLost()
    ensures var actions := [] + [Push("a")] + [Wake(true)] + [Push("b")] + [SetDone] + [WriteBatch] + [ClearBatch] + [CheckDone];
            && Possible(actions) && Reached(actions).writer.Exited?
            && Reached(actions).pushed == ["a", "b"] && Reached(actions).written == ["a"]
  {
    Then([], START, Push("a"));
    var s1 := State(["a"], [], false, Waiting, ["a"], [], 0);
    Then([] + [Push("a")], s1, Wake(true));
    var s2 := State([], ["a"], false, Writing, ["a"], [], 1);
    Then([] + [Push("a")] + [Wake(true)], s2, Push("b"));
    var s3 := State(["b"], ["a"], false, Writing, ["a", "b"], [], 1);
    Then([] + [Push("a")] + [Wake(true)] + [Push("b")], s3, SetDone);
    Then([] + [Push("a")] + [Wake(true)] + [Push("b")] + [SetDone], s3.(done := true), WriteBatch);
    var s5 := State(["b"], ["a"], true, Clearing, ["a", "b"], ["a"], 1);
    Then([] + [Push("a")] + [Wake(true)] + [Push("b")] + [SetDone] + [WriteBatch], s5, ClearBatch);
    Then([] + [Push("a")] + [Wake(true)] + [Push("b")] + [SetDone] + [WriteBatch] + [ClearBatch], s5.(batch := [], writer := Checking(false)), CheckDone);
  }
}
