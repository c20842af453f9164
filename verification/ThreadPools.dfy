/**
 * The worker pool of src/core/thread_pool.cpp, in steps that each hold the pool's mutex at most once. Submitters test
 * the exit flag before they take the mutex, so a submission can slip past an exit.
 */
module ThreadPools {
  /** A task is told apart by its number in the order of submission. */
  type Task = nat

  datatype Worker = Idle | Running(task: Task) | Returned

  datatype State = State(
    exit: bool,
    tasks: seq<Task>,             // the queue
    workers: seq<Worker>,
    admitted: nat,                // submitters past the exit test and not yet at the mutex
    // what has happened so far:
    submitted: seq<Task>,
    started: seq<Task>,
    completed: set<Task>,
    submittedAtReturn: nat)       // how many had been submitted when a worker last returned

  datatype Action =
    | Admit             // SubmitTask finds the flag down
    | Enqueue           // and pushes its task under the mutex
    | Exit
    | Take(worker: nat)
    | Complete(worker: nat)
    | Return(worker: nat)

  const MIN_NUM_THREADS_IN_POOL := 2

  function Start(size: nat): State {
    var n := if size < MIN_NUM_THREADS_IN_POOL then MIN_NUM_THREADS_IN_POOL else size;
    State(false, [], seq(n, i => Idle), 0, [], [], {}, 0)
  }

  predicate Enabled(s: State, a: Action) {
    match a
    case Admit => !s.exit
    case Enqueue => 0 < s.admitted
    case Exit => true
    case Take(w) => w < |s.workers| && s.workers[w].Idle? && s.tasks != []
    case Complete(w) => w < |s.workers| && s.workers[w].Running?
    case Return(w) => w < |s.workers| && s.workers[w].Idle? && s.exit && s.tasks == []
  }

  function Next(s: State, a: Action): State
    requires Enabled(s, a)
  {
    match a
    case Admit => s.(admitted := s.admitted + 1)
    case Enqueue =>
      var task := |s.submitted|;
      s.(admitted := s.admitted - 1, tasks := s.tasks + [task], submitted := s.submitted + [task])
    case Exit => s.(exit := true)
    case Take(w) =>
      s.(tasks := s.tasks[1..], workers := s.workers[w := Running(s.tasks[0])], started := s.started + [s.tasks[0]])
    case Complete(w) => s.(workers := s.workers[w := Idle], completed := s.completed + {s.workers[w].task})
    case Return(w) => s.(workers := s.workers[w := Returned], submittedAtReturn := |s.submitted|)
  }

  ghost predicate Run(s: State, actions: seq<Action>, s': State)
    decreases |actions|
  {
    if actions == [] then s == s' else Enabled(s, actions[0]) && Run(Next(s, actions[0]), actions[1..], s')
  }

  predicate AllReturned(s: State) {
    forall w :: 0 <= w < |s.workers| ==> s.workers[w].Returned?
  }

  ghost predicate InHand(s: State, task: Task) {
    exists w :: 0 <= w < |s.workers| && s.workers[w] == Running(task)
  }

  ghost predicate Inv(s: State) {
    && s.started + s.tasks == s.submitted
    && (forall i :: 0 <= i < |s.submitted| ==> s.submitted[i] == i)
    // a started task is completed or in the hands of exactly one worker, and nothing else is
    && (forall t :: t in s.started <==> t in s.completed || InHand(s, t))
    && (forall w :: 0 <= w < |s.workers| && s.workers[w].Running? ==> s.workers[w].task !in s.completed)
    && (forall v, w :: 0 <= v < w < |s.workers| && s.workers[v].Running? ==> s.workers[v] != s.workers[w])
    && s.submittedAtReturn <= |s.submitted|
    // after the last return nothing has been taken
    && (AllReturned(s) && |s.workers| > 0 ==> |s.started| == s.submittedAtReturn)
    && ((exists w :: 0 <= w < |s.workers| && s.workers[w].Returned?) ==> s.exit)
  }

  lemma TakeKeeps(s: State, w: nat)
    requires Inv(s) && Enabled(s, Take(w))
    ensures Inv(Next(s, Take(w)))
  {
    var s' := Next(s, Take(w));
    var task := s.tasks[0];
    assert s'.workers[w] == Running(task);
    assert s.submitted[|s.started|] == task;
    assert task !in s.started by {
      forall i | 0 <= i < |s.started| ensures s.started[i] != task {
        assert s.started[i] == s.submitted[i];
      }
    }
    forall t ensures InHand(s', t) <==> InHand(s, t) || t == task {
      if InHand(s, t) {
        var v :| 0 <= v < |s.workers| && s.workers[v] == Running(t);
        assert s'.workers[v] == Running(t);
      }
    }
  }

  lemma CompleteKeeps(s: State, w: nat)
    requires Inv(s) && Enabled(s, Complete(w))
    ensures Inv(Next(s, Complete(w)))
  {
    var s' := Next(s, Complete(w));
    var task := s.workers[w].task;
    assert InHand(s, task) && s'.workers[w].Idle?;
    forall t ensures InHand(s', t) <==> InHand(s, t) && t != task {
      if InHand(s, t) && t != task {
        var v :| 0 <= v < |s.workers| && s.workers[v] == Running(t);
        assert s'.workers[v] == Running(t);
      }
    }
  }

  lemma ReturnKeeps(s: State, w: nat)
    requires Inv(s) && Enabled(s, Return(w))
    ensures Inv(Next(s, Return(w)))
  {
    var s' := Next(s, Return(w));
    forall t ensures InHand(s', t) <==> InHand(s, t) {
      if InHand(s, t) {
        var v :| 0 <= v < |s.workers| && s.workers[v] == Running(t);
        assert s'.workers[v] == Running(t);
      }
    }
    assert s.started + [] == s.submitted;
  }

  lemma StepKeeps(s: State, a: Action)
    requires Inv(s) && Enabled(s, a)
    ensures Inv(Next(s, a))
  {
    match a
    case Take(w) => TakeKeeps(s, w);
    case Complete(w) => CompleteKeeps(s, w);
    case Return(w) => ReturnKeeps(s, w);
    case _ => assert forall t :: InHand(Next(s, a), t) <==> InHand(s, t);
  }

  lemma {:induction false} RunKeeps(s: State, actions: seq<Action>, s': State)
    requires Inv(s) && Run(s, actions, s')
    ensures Inv(s')
    decreases |actions|
  {
    if actions != [] {
      StepKeeps(s, actions[0]);
      RunKeeps(Next(s, actions[0]), actions[1..], s');
    }
  }

  /** There are as many workers as asked for, but at least two. */
  lemma StartInv(size: nat)
    ensures Inv(Start(size)) && |Start(size).workers| == if 2 <= size then size else 2
  {
  }

  /**
   * Once the exit flag is up, nobody new is admitted: what is still submitted was admitted before, and each of those
   * submits once or is still on its way to the mutex.
   */
  lemma {:induction false} OnlyTheAdmittedSubmit(s: State, actions: seq<Action>, s': State)
    requires s.exit && Run(s, actions, s')
    ensures s'.exit && s'.admitted + |s'.submitted| == s.admitted + |s.submitted| && s.submitted <= s'.submitted
    decreases |actions|
  {
    if actions != [] {
      OnlyTheAdmittedSubmit(Next(s, actions[0]), actions[1..], s');
    }
  }

  /** In every interleaving: the started tasks and then the queued ones are the submission order, and none is started twice. */
  lemma FirstInFirstOut(size: nat, actions: seq<Action>, s: State)
    requires Run(Start(size), actions, s)
    ensures s.started + s.tasks == s.submitted
    ensures forall i, j :: 0 <= i < j < |s.submitted| ==> s.submitted[i] != s.submitted[j]
    ensures forall i, j :: 0 <= i < j < |s.started| ==> s.started[i] != s.started[j]
  {
    StartInv(size);
    RunKeeps(Start(size), actions, s);
    forall i | 0 <= i < |s.started| ensures s.started[i] == i {
      assert s.started[i] == s.submitted[i];
    }
  }

  /**
   * Once all workers have returned, every submitted task is completed if and only if nothing was enqueued after the
   * last of them returned. What was, stays in the queue for good.
   */
  lemma AllDoneExactly(size: nat, actions: seq<Action>, s: State)
    requires Run(Start(size), actions, s) && AllReturned(s)
    ensures s.submittedAtReturn <= |s.submitted| && s.tasks == s.submitted[s.submittedAtReturn..]
    ensures (forall t :: t in s.submitted ==> t in s.completed) <==> |s.submitted| == s.submittedAtReturn
  {
    StartInv(size);
    RunKeeps(Start(size), actions, s);
    WorkersStay(Start(size), actions, s);
    assert s.submitted[|s.started|..] == s.tasks;
    if |s.submitted| == s.submittedAtReturn {
      assert s.started == s.submitted;
    } else {
      var late := |s.started|;
      assert s.submitted[late] == late && late in s.submitted;
      assert late !in s.started by {
        forall i | 0 <= i < |s.started| ensures s.started[i] != late {
          assert s.started[i] == s.submitted[i];
        }
      }
    }
  }

  lemma {:induction false} WorkersStay(s: State, actions: seq<Action>, s': State)
    requires Run(s, actions, s')
    ensures |s'.workers| == |s.workers|
    decreases |actions|
  {
    if actions != [] {
      WorkersStay(Next(s, actions[0]), actions[1..], s');
    }
  }

  /** If every enqueueing comes before the exit flag is raised, then once all workers have returned all tasks are completed. */
  lemma EnqueuedBeforeExitCompletes(size: nat, before: seq<Action>, after: seq<Action>, m: State, s: State)
    requires Run(Start(size), before, m) && !m.exit && Run(m, after, s)
    requires forall a :: a in after ==> !a.Enqueue?
    requires AllReturned(s)
    ensures forall t :: t in s.submitted ==> t in s.completed
  {
    RunsJoin(Start(size), before, m, after, s);
    AllDoneExactly(size, before + after, s);
    StartInv(size);
    RunKeeps(Start(size), before, m);
    WorkersStay(Start(size), before + after, s);
    LastReturnSeesAll(m, after, s);
    assert s.workers[0].Returned?;
  }

  lemma {:induction false} RunsJoin(s: State, a: seq<Action>, m: State, b: seq<Action>, s': State)
    requires Run(s, a, m) && Run(m, b, s')
    ensures Run(s, a + b, s')
    decreases |a|
  {
    if a == [] {
      assert a + b == b;
    } else {
      RunsJoin(Next(s, a[0]), a[1..], m, b, s');
      assert (a + b)[1..] == a[1..] + b;
    }
  }

  /** With no more enqueueing, a worker that returns has seen all that was submitted. */
  lemma {:induction false} LastReturnSeesAll(m: State, after: seq<Action>, s: State)
    requires Run(m, after, s) && forall a :: a in after ==> !a.Enqueue?
    requires (exists w :: 0 <= w < |m.workers| && m.workers[w].Returned?) ==> m.submittedAtReturn == |m.submitted|
    ensures (exists w :: 0 <= w < |s.workers| && s.workers[w].Returned?) ==> s.submittedAtReturn == |s.submitted|
    decreases |after|
  {
    if after != [] {
      assert after[0] in after;
      var n := Next(m, after[0]);
      assert (exists w :: 0 <= w < |n.workers| && n.workers[w].Returned?) && !after[0].Return?
             ==> exists w :: 0 <= w < |m.workers| && m.workers[w].Returned?;
      LastReturnSeesAll(n, after[1..], s);
    }
  }

  /** A submission that slips past the exit: its task is never run. */
  lemma LateSubmissionIsLost()
    ensures exists actions, s :: Run(Start(2), actions, s) && AllReturned(s) && s.submitted == [0] && s.completed == {}
  {
    var s0 := Start(2);
    var s1 := Next(s0, Admit);
    var s2 := Next(s1, Exit);
    var s3 := Next(s2, Return(0));
    var s4 := Next(s3, Return(1));
    var s5 := Next(s4, Enqueue);
    assert Run(s5, [], s5);
    assert Run(s4, [Enqueue], s5) by { assert [Enqueue][1..] == []; }
    assert Run(s3, [Return(1), Enqueue], s5) by { assert [Return(1), Enqueue][1..] == [Enqueue]; }
    assert Run(s2, [Return(0), Return(1), Enqueue], s5) by { assert [Return(0), Return(1), Enqueue][1..] == [Return(1), Enqueue]; }
    assert Run(s1, [Exit, Return(0), Return(1), Enqueue], s5) by {
      assert [Exit, Return(0), Return(1), Enqueue][1..] == [Return(0), Return(1), Enqueue];
    }
    assert Run(s0, [Admit, Exit, Return(0), Return(1), Enqueue], s5) by {
      assert [Admit, Exit, Return(0), Return(1), Enqueue][1..] == [Exit, Return(0), Return(1), Enqueue];
    }
  }
}
