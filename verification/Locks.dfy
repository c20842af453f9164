/**
 * The three mutexes that nest: the looper's, the timer's and the logger's (src/core/looper.cpp, src/core/timer.cpp,
 * src/log/logger.cpp). Threads are programs of lock operations, one for each call they make; any number of threads
 * make any calls, and no reachable state is a deadlock.
 */
module Locks {
  datatype Lock = LooperLock | TimerLock | LoggerLock

  /** The order in which locks are taken. */
  function Rank(l: Lock): nat {
    match l case LooperLock => 0 case TimerLock => 1 case LoggerLock => 2
  }

  /** What threads share under them: the looper's two maps, the timer's queue and the logger's. */
  datatype Shared = ConnectionTables | TimerQueue | LogQueue

  function Guard(x: Shared): Lock {
    match x case ConnectionTables => LooperLock case TimerQueue => TimerLock case LogQueue => LoggerLock
  }

  datatype Op = Acquire(lock: Lock) | Release(lock: Lock) | Access(what: Shared) | RunTimerCallback

  datatype Thread = Thread(rest: seq<Op>, held: set<Lock>)

  // ---- the calls, by the locks they take ----

  /** How a DeleteConnection goes: whether the descriptor is known, timers are on, a timer is filed, and removing it logs. */
  datatype Deletion = Deletion(known: bool, useTimer: bool, filed: bool, logs: bool)

  /** `logs` says whether a branch with a log statement is taken. */
  datatype Call =
    | AddAcceptor
    | AddConnection(useTimer: bool, logs: bool)
    | RefreshConnection(known: bool, logs: bool)
    | DeleteConnection(deletion: Deletion)
    | HandleRead(logs: bool, pruneLogs: bool, expired: seq<Deletion>)
    | Log
    | WriteLogs

  function LogOps(logs: bool): seq<Op> {
    if logs then [Acquire(LoggerLock)] + [Access(LogQueue)] + [Release(LoggerLock)] else []
  }

  /** A timer operation, which logs if the timer descriptor cannot be set. */
  function TimerOps(logs: bool): seq<Op> {
    [Acquire(TimerLock)] + ([Access(TimerQueue)] + LogOps(logs)) + [Release(TimerLock)]
  }

  /** An operation on the tables, with what it does to the timer queue and the log in the middle. */
  function TableOps(middle: seq<Op>): seq<Op> {
    [Acquire(LooperLock)] + ([Access(ConnectionTables)] + middle + [Access(ConnectionTables)]) + [Release(LooperLock)]
  }

  function DeleteOps(d: Deletion): seq<Op> {
    TableOps(if !d.known || !d.useTimer then [] else if d.filed then TimerOps(d.logs) else LogOps(true))
  }

  /** The callbacks of the pruned timers, each of which logs and deletes its connection. */
  function CallbackOps(expired: seq<Deletion>): seq<Op> {
    if expired == [] then []
    else [RunTimerCallback] + LogOps(true) + DeleteOps(expired[0]) + CallbackOps(expired[1..])
  }

  function Ops(call: Call): seq<Op> {
    match call
    case AddAcceptor => [Acquire(LooperLock), Release(LooperLock)]
    case AddConnection(useTimer, logs) =>
      TableOps(if useTimer then TimerOps(logs) else [])
    case RefreshConnection(known, logs) =>
      TableOps(if known then TimerOps(logs) else [])
    case DeleteConnection(d) => DeleteOps(d)
    case HandleRead(logs, pruneLogs, expired) => LogOps(logs) + TimerOps(pruneLogs) + CallbackOps(expired)
    case Log => LogOps(true)
    case WriteLogs => LogOps(true)
  }

  function Program(calls: seq<Call>): seq<Op> {
    if calls == [] then [] else Ops(calls[0]) + Program(calls[1..])
  }

  // ---- programs that keep the order ----

  /**
   * From here on, with these locks held, the program takes a lock only above all it holds (so never one it holds),
   * gives back only what it holds, accesses shared things only under their lock, starts timer callbacks with nothing
   * held, and ends with nothing held.
   */
  predicate Disciplined(ops: seq<Op>, held: set<Lock>) {
    if ops == [] then held == {}
    else
      match ops[0]
      case Acquire(l) => (forall h :: h in held ==> Rank(h) < Rank(l)) && Disciplined(ops[1..], held + {l})
      case Release(l) => l in held && Disciplined(ops[1..], held - {l})
      case Access(x) => Guard(x) in held && Disciplined(ops[1..], held)
      case RunTimerCallback => held == {} && Disciplined(ops[1..], held)
  }

  /** A piece of program that leaves the locks as it finds them, put in front of a disciplined rest. */
  ghost predicate Neutral(ops: seq<Op>, held: set<Lock>) {
    forall rest :: Disciplined(rest, held) ==> Disciplined(ops + rest, held)
  }

  lemma NeutralNothing(held: set<Lock>)
    ensures Neutral([], held)
  {
    forall rest | Disciplined(rest, held) ensures Disciplined([] + rest, held) {
      assert [] + rest == rest;
    }
  }

  lemma NeutralThen(a: seq<Op>, b: seq<Op>, held: set<Lock>)
    requires Neutral(a, held) && Neutral(b, held)
    ensures Neutral(a + b, held)
  {
    forall rest | Disciplined(rest, held) ensures Disciplined(a + b + rest, held) {
      assert Disciplined(b + rest, held);
      assert a + b + rest == a + (b + rest);
    }
  }

  /** Taking a lock above all that are held, working neutrally under it, and giving it back. */
  lemma NeutralUnder(l: Lock, ops: seq<Op>, held: set<Lock>)
    requires (forall h :: h in held ==> Rank(h) < Rank(l)) && Neutral(ops, held + {l})
    ensures Neutral([Acquire(l)] + ops + [Release(l)], held)
  {
    forall rest | Disciplined(rest, held) ensures Disciplined([Acquire(l)] + ops + [Release(l)] + rest, held) {
      var tail := [Release(l)] + rest;
      assert l !in held;
      assert held + {l} - {l} == held;
      assert tail[1..] == rest;
      assert Disciplined(tail, held + {l});
      var all := [Acquire(l)] + ops + [Release(l)] + rest;
      assert all == [Acquire(l)] + (ops + tail);
      assert all[1..] == ops + tail;
    }
  }

  lemma AccessNeutral(x: Shared, held: set<Lock>)
    requires Guard(x) in held
    ensures Neutral([Access(x)], held)
  {
    forall rest | Disciplined(rest, held) ensures Disciplined([Access(x)] + rest, held) {
      assert ([Access(x)] + rest)[1..] == rest;
    }
  }

  lemma LogNeutral(logs: bool, held: set<Lock>)
    requires LoggerLock !in held
    ensures Neutral(LogOps(logs), held)
  {
    NeutralNothing(held);
    if logs {
      AccessNeutral(LogQueue, held + {LoggerLock});
      NeutralUnder(LoggerLock, [Access(LogQueue)], held);
    }
  }

  lemma TimerNeutral(logs: bool, held: set<Lock>)
    requires held <= {LooperLock}
    ensures Neutral(TimerOps(logs), held)
  {
    AccessNeutral(TimerQueue, held + {TimerLock});
    LogNeutral(logs, held + {TimerLock});
    NeutralThen([Access(TimerQueue)], LogOps(logs), held + {TimerLock});
    NeutralUnder(TimerLock, [Access(TimerQueue)] + LogOps(logs), held);
  }

  lemma TableNeutral(middle: seq<Op>)
    requires Neutral(middle, {LooperLock})
    ensures Neutral(TableOps(middle), {})
  {
    AccessNeutral(ConnectionTables, {LooperLock});
    NeutralThen([Access(ConnectionTables)], middle, {LooperLock});
    NeutralThen([Access(ConnectionTables)] + middle, [Access(ConnectionTables)], {LooperLock});
    UnderLooperNeutral([Access(ConnectionTables)] + middle + [Access(ConnectionTables)]);
  }

  lemma UnderLooperNeutral(ops: seq<Op>)
    requires Neutral(ops, {LooperLock})
    ensures Neutral([Acquire(LooperLock)] + ops + [Release(LooperLock)], {})
  {
    assert {} + {LooperLock} == {LooperLock};
    NeutralUnder(LooperLock, ops, {});
  }

  lemma DeleteNeutral(d: Deletion)
    ensures Neutral(DeleteOps(d), {})
  {
    NeutralNothing({LooperLock});
    TimerNeutral(d.logs, {LooperLock});
    LogNeutral(true, {LooperLock});
    TableNeutral(if !d.known || !d.useTimer then [] else if d.filed then TimerOps(d.logs) else LogOps(true));
  }

  lemma CallbackStartNeutral()
    ensures Neutral([RunTimerCallback], {})
  {
    forall rest | Disciplined(rest, {}) ensures Disciplined([RunTimerCallback] + rest, {}) {
      assert ([RunTimerCallback] + rest)[1..] == rest;
    }
  }

  lemma {:induction false} CallbacksNeutral(expired: seq<Deletion>)
    ensures Neutral(CallbackOps(expired), {})
  {
    if expired == [] {
      NeutralNothing({});
    } else {
      var d := expired[0];
      CallbackStartNeutral();
      LogNeutral(true, {});
      DeleteNeutral(d);
      CallbacksNeutral(expired[1..]);
      NeutralThen([RunTimerCallback], LogOps(true), {});
      NeutralThen([RunTimerCallback] + LogOps(true), DeleteOps(d), {});
      NeutralThen([RunTimerCallback] + LogOps(true) + DeleteOps(d), CallbackOps(expired[1..]), {});
    }
  }

  lemma CallNeutral(call: Call)
    ensures Neutral(Ops(call), {})
  {
    NeutralNothing({LooperLock});
    LogNeutral(true, {});
    match call
    case AddAcceptor =>
      UnderLooperNeutral([]);
      assert [Acquire(LooperLock)] + [] + [Release(LooperLock)] == Ops(call);
    case AddConnection(useTimer, logs) =>
      TimerNeutral(logs, {LooperLock});
      TableNeutral(if useTimer then TimerOps(logs) else []);
    case RefreshConnection(known, logs) =>
      TimerNeutral(logs, {LooperLock});
      TableNeutral(if known then TimerOps(logs) else []);
    case DeleteConnection(d) => DeleteNeutral(d);
    case HandleRead(logs, pruneLogs, expired) =>
      LogNeutral(logs, {});
      TimerNeutral(pruneLogs, {});
      CallbacksNeutral(expired);
      NeutralThen(LogOps(logs), TimerOps(pruneLogs), {});
      NeutralThen(LogOps(logs) + TimerOps(pruneLogs), CallbackOps(expired), {});
    case Log =>
    case WriteLogs =>
  }

  /** Whatever calls a thread makes, its program is disciplined. */
  lemma {:induction false} ProgramDisciplined(calls: seq<Call>)
    ensures Disciplined(Program(calls), {})
  {
    if calls != [] {
      ProgramDisciplined(calls[1..]);
      CallNeutral(calls[0]);
    }
  }

  // ---- the system ----

  predicate Free(threads: seq<Thread>, l: Lock) {
    forall i :: 0 <= i < |threads| ==> l !in threads[i].held
  }

  predicate CanStep(threads: seq<Thread>, i: nat)
    requires i < |threads|
  {
    threads[i].rest != [] && (threads[i].rest[0].Acquire? ==> Free(threads, threads[i].rest[0].lock))
  }

  function Stepped(t: Thread): Thread
    requires t.rest != []
  {
    match t.rest[0]
    case Acquire(l) => Thread(t.rest[1..], t.held + {l})
    case Release(l) => Thread(t.rest[1..], t.held - {l})
    case Access(_) => Thread(t.rest[1..], t.held)
    case RunTimerCallback => Thread(t.rest[1..], t.held)
  }

  function Start(programs: seq<seq<Call>>): seq<Thread> {
    if programs == [] then [] else [Thread(Program(programs[0]), {})] + Start(programs[1..])
  }

  /** The threads after a schedule, which names the thread of each step. */
  function After(threads: seq<Thread>, schedule: seq<nat>): seq<Thread> {
    if schedule == [] then threads
    else
      var before := After(threads, schedule[..|schedule| - 1]);
      var i := schedule[|schedule| - 1];
      if i < |before| && CanStep(before, i) then before[i := Stepped(before[i])] else before
  }

  ghost predicate Sound(threads: seq<Thread>) {
    && (forall i :: 0 <= i < |threads| ==> Disciplined(threads[i].rest, threads[i].held))
    && (forall i, j :: 0 <= i < j < |threads| ==> threads[i].held !! threads[j].held)
  }

  lemma {:induction false} StartSound(programs: seq<seq<Call>>)
    ensures Sound(Start(programs)) && forall t :: t in Start(programs) ==> t.held == {}
  {
    if programs != [] {
      StartSound(programs[1..]);
      ProgramDisciplined(programs[0]);
      var rest := Start(programs[1..]);
      var all := Start(programs);
      forall i | 0 <= i < |all| ensures Disciplined(all[i].rest, all[i].held) && all[i].held == {} {
        if i > 0 {
          assert all[i] == rest[i - 1] && rest[i - 1] in rest;
        }
      }
    }
  }

  lemma StepSound(threads: seq<Thread>, i: nat)
    requires Sound(threads) && i < |threads| && CanStep(threads, i)
    ensures Sound(threads[i := Stepped(threads[i])])
  {
  }

  lemma {:induction false} AlwaysSound(programs: seq<seq<Call>>, schedule: seq<nat>)
    ensures Sound(After(Start(programs), schedule))
  {
    if schedule == [] {
      StartSound(programs);
    } else {
      var before := After(Start(programs), schedule[..|schedule| - 1]);
      AlwaysSound(programs, schedule[..|schedule| - 1]);
      var i := schedule[|schedule| - 1];
      if i < |before| && CanStep(before, i) {
        StepSound(before, i);
      }
    }
  }

  /** Follows who waits for whom: each next lock ranks higher, so the chain ends at a thread that can go on. */
  lemma {:induction false} WaitEnds(threads: seq<Thread>, i: nat) returns (k: nat)
    requires Sound(threads) && i < |threads| && threads[i].rest != []
    ensures k < |threads| && CanStep(threads, k)
    decreases if threads[i].rest[0].Acquire? then 3 - Rank(threads[i].rest[0].lock) else 0
  {
    if CanStep(threads, i) {
      k := i;
    } else {
      var l := threads[i].rest[0].lock;
      var j :| 0 <= j < |threads| && l in threads[j].held;
      assert Disciplined(threads[j].rest, threads[j].held);
      k := WaitEnds(threads, j);
    }
  }

  /**
   * Deadlock freedom: whatever calls any number of threads make and however they are scheduled, as long as some
   * thread is not done, some thread can step.
   */
  lemma NoDeadlock(programs: seq<seq<Call>>, schedule: seq<nat>)
    ensures var threads := After(Start(programs), schedule);
            (exists i :: 0 <= i < |threads| && threads[i].rest != [])
            ==> exists k :: 0 <= k < |threads| && CanStep(threads, k)
  {
    var threads := After(Start(programs), schedule);
    AlwaysSound(programs, schedule);
    if i :| 0 <= i < |threads| && threads[i].rest != [] {
      var k := WaitEnds(threads, i);
    }
  }

  /**
   * In every reachable state, a lock about to be taken ranks above all the thread holds, so it is not one of them; no
   * two threads hold the same lock; and timer callbacks start with the timer's lock, as every other, given back.
   */
  lemma LockOrder(programs: seq<seq<Call>>, schedule: seq<nat>, i: nat)
    requires i < |After(Start(programs), schedule)| && After(Start(programs), schedule)[i].rest != []
    ensures var threads := After(Start(programs), schedule);
            var t := threads[i];
            && (t.rest[0].Acquire? ==> t.rest[0].lock !in t.held && forall h :: h in t.held ==> Rank(h) < Rank(t.rest[0].lock))
            && (t.rest[0].Release? ==> t.rest[0].lock in t.held)
            && (t.rest[0].RunTimerCallback? ==> t.held == {})
            && forall j :: 0 <= j < |threads| && j != i ==> threads[j].held !! t.held
  {
    AlwaysSound(programs, schedule);
    var t := After(Start(programs), schedule)[i];
    assert Disciplined(t.rest, t.held);
  }

  /** In every reachable state, whoever is about to access something shared is the only one that is, and holds its lock. */
  lemma NoRaces(programs: seq<seq<Call>>, schedule: seq<nat>, i: nat, x: Shared)
    requires i < |After(Start(programs), schedule)| && Accessing(After(Start(programs), schedule)[i], x)
    ensures var threads := After(Start(programs), schedule);
            && Guard(x) in threads[i].held
            && forall j :: 0 <= j < |threads| && j != i ==> Guard(x) !in threads[j].held && !Accessing(threads[j], x)
  {
    AlwaysSound(programs, schedule);
    var threads := After(Start(programs), schedule);
    assert Disciplined(threads[i].rest, threads[i].held);
    forall j | 0 <= j < |threads| && j != i ensures Guard(x) !in threads[j].held && !Accessing(threads[j], x) {
      assert Disciplined(threads[j].rest, threads[j].held);
      assert threads[j].held !! threads[i].held;
    }
  }

  predicate Accessing(t: Thread, x: Shared) {
    t.rest != [] && t.rest[0] == Access(x)
  }

  // ---- what each call touches ----

  predicate Uses(ops: seq<Op>, x: Shared) {
    Access(x) in ops
  }

  lemma TableOpsUse(middle: seq<Op>, x: Shared)
    ensures Uses(TableOps(middle), x) <==> x.ConnectionTables? || Uses(middle, x)
  {
  }

  lemma TimerOpsUse(logs: bool, x: Shared)
    ensures Uses(TimerOps(logs), x) <==> x.TimerQueue? || (x.LogQueue? && logs)
    ensures Uses(LogOps(logs), x) <==> x.LogQueue? && logs
  {
  }

  lemma DeleteOpsUse(d: Deletion, x: Shared)
    ensures var timed := d.known && d.useTimer;
            Uses(DeleteOps(d), x) <==>
              match x
              case ConnectionTables => true
              case TimerQueue => timed && d.filed
              case LogQueue => timed && (!d.filed || d.logs)
  {
    TableOpsUse(if !d.known || !d.useTimer then [] else if d.filed then TimerOps(d.logs) else LogOps(true), x);
    TimerOpsUse(d.logs, x);
    TimerOpsUse(true, x);
  }

  lemma {:induction false} CallbackOpsUse(expired: seq<Deletion>, x: Shared)
    ensures Uses(CallbackOps(expired), x) <==>
              expired != [] && (!x.TimerQueue? || exists d :: d in expired && d.known && d.useTimer && d.filed)
  {
    if expired != [] {
      CallbackOpsUse(expired[1..], x);
      DeleteOpsUse(expired[0], x);
      TimerOpsUse(true, x);
      assert expired == [expired[0]] + expired[1..];
      var first := [RunTimerCallback] + LogOps(true) + DeleteOps(expired[0]);
      assert Uses(CallbackOps(expired), x) <==> Uses(first, x) || Uses(CallbackOps(expired[1..]), x);
    }
  }

  /** Which of the shared things each call touches, by the branch it takes. */
  lemma {:induction false} CallsUse(call: Call, x: Shared)
    ensures Uses(Ops(call), x) <==>
              match call
              case AddAcceptor => false
              case AddConnection(useTimer, logs) => x.ConnectionTables? || (useTimer && (x.TimerQueue? || logs))
              case RefreshConnection(known, logs) => x.ConnectionTables? || (known && (x.TimerQueue? || logs))
              case DeleteConnection(d) => Uses(DeleteOps(d), x)
              case HandleRead(logs, pruneLogs, expired) =>
                x.TimerQueue? || (x.LogQueue? && (logs || pruneLogs)) || expired != []
              case Log => x.LogQueue?
              case WriteLogs => x.LogQueue?
  {
    match call
    case AddAcceptor =>
    case AddConnection(useTimer, logs) =>
      TableOpsUse(if useTimer then TimerOps(logs) else [], x);
      TimerOpsUse(logs, x);
    case RefreshConnection(known, logs) =>
      TableOpsUse(if known then TimerOps(logs) else [], x);
      TimerOpsUse(logs, x);
    case DeleteConnection(d) =>
    case HandleRead(logs, pruneLogs, expired) =>
      TimerOpsUse(logs, x);
      TimerOpsUse(pruneLogs, x);
      CallbackOpsUse(expired, x);
    case Log => TimerOpsUse(true, x);
    case WriteLogs => TimerOpsUse(true, x);
  }
}
