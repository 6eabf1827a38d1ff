// What the executing thread may conclude when its completion counter reaches the task count.
module SchedulerExit {
  import opened Ast
  import opened Scheduler

  /** Nothing depends on anything, but for the task `last`, which depends on all the others; there may
      be no such task, and then `last` is the number of tasks. */
  predicate Gathers(plan: Plan, last: nat) {
    && last <= |plan|
    && (forall t :: 0 <= t < |plan| && t != last ==> plan[t] == [])
    && (last < |plan| ==> forall t :: 0 <= t < |plan| && t != last ==> t in plan[last])
  }

  predicate NoDependencies(plan: Plan) {
    Gathers(plan, |plan|)
  }

  function Held(stage: Stage): Option<nat> {
    match stage
    case Taken(t) => Some(t)
    case Running(t) => Some(t)
    case Finished(t) => Some(t)
    case _ => None
  }

  /** The first task that the executing thread has not enqueued yet. */
  function Position(plan: Plan, main: MainStage): nat {
    match main
    case Looking(i) => i
    case Enqueuing(i) => i
    case Polling => |plan|
  }

  ghost predicate HolderOk(plan: Plan, last: nat, s: State, w: nat)
    requires Shaped(plan, s) && w < |s.workers|
  {
    && (s.workers[w].Checking? || s.workers[w].Marking? ==> s.workers[w].next == last)
    && match Held(s.workers[w])
       case None => true
       case Some(t) =>
         t != last ==>
           t < |plan| && t < Position(plan, s.main) && t !in s.queue && (s.completed[t] <==> s.workers[w].Finished?)
  }

  function Counted(plan: Plan, last: nat, s: State): set<nat>
    requires Shaped(plan, s)
  {
    set t | 0 <= t < |plan| && t != last && s.completed[t] && Finished(t) !in s.workers
  }

  ghost predicate DistinctBut(last: nat, s: seq<nat>) {
    forall i, j :: 0 <= i < j < |s| && s[i] != last ==> s[i] != s[j]
  }

  ghost predicate Apart(last: nat, v: Stage, w: Stage) {
    Held(v).Some? && Held(v) != Some(last) ==> Held(w) != Held(v)
  }

  ghost predicate Pending(plan: Plan, last: nat, s: State)
    requires Shaped(plan, s)
  {
    last < |plan| ==> !s.completed[last]
  }

  /** A task without dependencies is in one place at a time: not yet enqueued, in the queue, with a
      worker, or done and counted.  No more has been counted while the last task is not done. */
  ghost predicate Single(plan: Plan, last: nat, s: State) {
    && Shaped(plan, s) && Position(plan, s.main) <= |plan| && DistinctBut(last, s.queue) && Pending(plan, last, s)
    && (forall t :: 0 <= t < |plan| && t != last ==> s.ready[t])
    && (forall t :: t in s.queue && t != last ==> t < Position(plan, s.main) && t < |plan| && !s.completed[t])
    && (forall t :: 0 <= t < |plan| && t != last && s.completed[t] ==> t < Position(plan, s.main))
    && (forall w :: 0 <= w < |s.workers| ==> HolderOk(plan, last, s, w))
    && (forall v, w :: 0 <= v < w < |s.workers| ==> Apart(last, s.workers[v], s.workers[w]))
    && s.completedTasks == |Counted(plan, last, s)|
  }

  lemma StaysApart(plan: Plan, last: nat, s: State, w: nat, stage: Stage)
    requires Single(plan, last, s) && w < |s.workers|
    requires forall v :: 0 <= v < |s.workers| && v != w ==>
               Apart(last, s.workers[v], stage) && Apart(last, stage, s.workers[v])
    ensures var workers := s.workers[w := stage];
            forall u, v :: 0 <= u < v < |workers| ==> Apart(last, workers[u], workers[v])
  {
    var workers := s.workers[w := stage];
    forall u, v | 0 <= u < v < |workers|
      ensures Apart(last, workers[u], workers[v])
    {
      assert Apart(last, s.workers[u], s.workers[v]);
    }
  }

  /** A worker that keeps what it holds, or lets go of it, stays apart from the others. */
  lemma KeepsApart(plan: Plan, last: nat, s: State, w: nat, stage: Stage)
    requires Single(plan, last, s) && w < |s.workers|
    requires Held(stage).None? || Held(stage) == Held(s.workers[w])
    ensures var workers := s.workers[w := stage];
            forall u, v :: 0 <= u < v < |workers| ==> Apart(last, workers[u], workers[v])
  {
    forall v | 0 <= v < |s.workers| && v != w
      ensures Apart(last, s.workers[v], stage) && Apart(last, stage, s.workers[v])
    {
      assert v < w ==> Apart(last, s.workers[v], s.workers[w]);
      assert w < v ==> Apart(last, s.workers[w], s.workers[v]);
    }
    StaysApart(plan, last, s, w, stage);
  }

  lemma CountedStays(plan: Plan, last: nat, s: State, s': State, w: nat)
    requires Shaped(plan, s) && Shaped(plan, s') && w < |s.workers| == |s'.workers|
    requires s'.workers == s.workers[w := s'.workers[w]] && s'.completed == s.completed
    requires !s.workers[w].Finished? && !s'.workers[w].Finished?
    ensures Counted(plan, last, s') == Counted(plan, last, s)
  {
    forall t: nat
      ensures Finished(t) in s'.workers <==> Finished(t) in s.workers
    {
      InWorkers(s.workers, w, s'.workers[w], Finished(t));
    }
  }

  lemma TakeSingle(plan: Plan, last: nat, s: State, w: nat)
    requires Single(plan, last, s) && w < |s.workers| && s.workers[w].Waiting? && s.queue != []
    ensures Single(plan, last, WorkerStep(plan, s, w).value)
  {
    var s' := WorkerStep(plan, s, w).value;
    var t := s.queue[|s.queue| - 1];
    assert s.queue == s'.queue + [t] && t in s.queue;
    assert forall x :: x in s'.queue ==> x in s.queue;
    forall v | 0 <= v < |s.workers|
      ensures t != last ==> Held(s.workers[v]) != Some(t)
    {
      assert HolderOk(plan, last, s, v);
    }
    StaysApart(plan, last, s, w, Taken(t));
    forall v | 0 <= v < |s'.workers|
      ensures HolderOk(plan, last, s', v)
    {
      assert HolderOk(plan, last, s, v);
    }
    CountedStays(plan, last, s, s', w);
  }

  lemma CompleteSingle(plan: Plan, last: nat, s: State, w: nat)
    requires Single(plan, last, s) && w < |s.workers| && s.workers[w].Running?
    requires s.workers[w].task != last && WorkerStep(plan, s, w).Some?
    ensures Single(plan, last, WorkerStep(plan, s, w).value)
  {
    var s' := WorkerStep(plan, s, w).value;
    var t := s.workers[w].task;
    assert HolderOk(plan, last, s, w);
    KeepsApart(plan, last, s, w, Finished(t));
    forall v | 0 <= v < |s'.workers|
      ensures HolderOk(plan, last, s', v)
    {
      assert HolderOk(plan, last, s, v);
      assert v < w ==> Apart(last, s.workers[v], s.workers[w]);
      assert w < v ==> Apart(last, s.workers[w], s.workers[v]);
    }
    forall u: nat
      ensures u != t ==> (Finished(u) in s'.workers <==> Finished(u) in s.workers)
    {
      InWorkers(s.workers, w, s'.workers[w], Finished(u));
    }
    InWorkers(s.workers, w, s'.workers[w], Finished(t));
    assert Counted(plan, last, s') == Counted(plan, last, s);
  }

  lemma CountSingle(plan: Plan, last: nat, s: State, w: nat)
    requires Single(plan, last, s) && w < |s.workers| && s.workers[w].Finished? && s.workers[w].task != last
    ensures Single(plan, last, WorkerStep(plan, s, w).value)
  {
    var s' := WorkerStep(plan, s, w).value;
    var t := s.workers[w].task;
    assert HolderOk(plan, last, s, w);
    KeepsApart(plan, last, s, w, Scanning(0));
    forall v | 0 <= v < |s'.workers|
      ensures HolderOk(plan, last, s', v) && s'.workers[v] != Finished(t)
    {
      assert HolderOk(plan, last, s, v);
      assert v < w ==> Apart(last, s.workers[v], s.workers[w]);
      assert w < v ==> Apart(last, s.workers[w], s.workers[v]);
    }
    forall u: nat
      ensures Finished(u) in s'.workers <==> u != t && Finished(u) in s.workers
    {
      InWorkers(s.workers, w, s'.workers[w], Finished(u));
    }
    assert Finished(t) in s.workers;
    assert Counted(plan, last, s') == Counted(plan, last, s) + {t};
  }

  /** Only the last task is ever put in the queue by a worker. */
  lemma MarkSingle(plan: Plan, last: nat, s: State, w: nat)
    requires Single(plan, last, s) && w < |s.workers| && s.workers[w].Marking? && last < |plan|
    requires WorkerStep(plan, s, w).Some?
    ensures Single(plan, last, WorkerStep(plan, s, w).value)
  {
    var s' := WorkerStep(plan, s, w).value;
    assert HolderOk(plan, last, s, w) && s'.queue == s.queue + [last];
    assert forall x :: x in s'.queue ==> x == last || x in s.queue;
    KeepsApart(plan, last, s, w, s'.workers[w]);
    forall v | 0 <= v < |s'.workers|
      ensures HolderOk(plan, last, s', v)
    {
      assert HolderOk(plan, last, s, v);
    }
    CountedStays(plan, last, s, s', w);
  }

  /** The other steps of a worker change only where it is. */
  lemma MoveSingle(plan: Plan, last: nat, s: State, w: nat, s': State)
    requires Single(plan, last, s) && w < |s.workers| && WorkerStep(plan, s, w) == Some(s') && last <= |plan|
    requires !s.workers[w].Waiting? && !s.workers[w].Running? && !s.workers[w].Finished? && !s.workers[w].Marking?
    ensures Single(plan, last, s')
  {
    assert HolderOk(plan, last, s, w);
    var stage := s'.workers[w];
    KeepsApart(plan, last, s, w, stage);
    forall v | 0 <= v < |s'.workers|
      ensures HolderOk(plan, last, s', v)
    {
      assert HolderOk(plan, last, s, v);
    }
    CountedStays(plan, last, s, s', w);
  }

  lemma WorkerStepSingle(plan: Plan, last: nat, s: State, w: nat)
    requires Gathers(plan, last) && Safe(plan, s) && Single(plan, last, s)
    requires w < |s.workers| && WorkerStep(plan, s, w).Some?
    ensures var s' := WorkerStep(plan, s, w).value; Single(plan, last, s') || (last < |plan| && s'.completed[last])
  {
    var s' := WorkerStep(plan, s, w).value;
    assert StageOk(plan, s, s.workers[w]) && HolderOk(plan, last, s, w);
    match s.workers[w]
    case Waiting => TakeSingle(plan, last, s, w);
    case Running(t) =>
      if t != last {
        CompleteSingle(plan, last, s, w);
      }
    case Finished(t) => CountSingle(plan, last, s, w);
    case Marking(_) => MarkSingle(plan, last, s, w);
    case _ => MoveSingle(plan, last, s, w, s');
  }

  lemma MainStepSingle(plan: Plan, last: nat, s: State)
    requires Single(plan, last, s) && MainStep(plan, s).Some?
    ensures Single(plan, last, MainStep(plan, s).value)
  {
    var s' := MainStep(plan, s).value;
    assert forall k :: 0 <= k < |s.queue| ==> s.queue[k] in s.queue;
    assert s.main.Enqueuing? ==> forall x :: x in s'.queue <==> x in s.queue || x == s.main.next;
    forall v | 0 <= v < |s'.workers|
      ensures HolderOk(plan, last, s', v)
    {
      assert HolderOk(plan, last, s, v);
    }
    assert Counted(plan, last, s') == Counted(plan, last, s);
  }

  lemma {:induction false} EveryRunIsSingle(plan: Plan, last: nat, workers: nat, schedule: seq<Thread>)
    requires Gathers(plan, last) && Run(plan, workers, schedule).Some?
    ensures var s := Run(plan, workers, schedule).value; Single(plan, last, s) || (last < |plan| && s.completed[last])
    decreases |schedule|
  {
    if schedule == [] {
      var s := Begin(plan, workers);
      assert Counted(plan, last, s) == {};
    } else {
      var front, thread := schedule[..|schedule| - 1], schedule[|schedule| - 1];
      var s := Run(plan, workers, front).value;
      EveryRunIsSafe(plan, workers, front);
      EveryRunIsSingle(plan, last, workers, front);
      if Single(plan, last, s) {
        match thread
        case Main => MainStepSingle(plan, last, s);
        case Worker(w) => WorkerStepSingle(plan, last, s, w);
      }
    }
  }

  lemma {:induction false} FullSet(s: set<nat>, n: nat)
    requires forall t :: t in s ==> t < n
    ensures |s| <= n && (|s| == n <==> forall t :: 0 <= t < n ==> t in s)
    decreases n
  {
    if n > 0 {
      FullSet(s - {n - 1}, n - 1);
      if n - 1 in s {
        assert s == s - {n - 1} + {n - 1};
      } else {
        assert s == s - {n - 1};
      }
    } else {
      assert s == {};
    }
  }

  /** Where at most one task has dependencies, and it has all the others, the exit test never passes
      before every task has completed. */
  lemma ExitTestIsSafe(plan: Plan, last: nat, workers: nat, schedule: seq<Thread>)
    requires Gathers(plan, last) && Run(plan, workers, schedule).Some?
    ensures var s := Run(plan, workers, schedule).value;
            s.completedTasks >= |plan| ==> forall t :: 0 <= t < |plan| ==> s.completed[t]
  {
    var s := Run(plan, workers, schedule).value;
    EveryRunIsSafe(plan, workers, schedule);
    EveryRunIsSingle(plan, last, workers, schedule);
    if last < |plan| && s.completed[last] {
      assert TaskOk(plan, s, last) && DepsDone(plan, s, last);
      forall t | 0 <= t < |plan|
        ensures s.completed[t]
      {
        assert t != last ==> Done(plan, s, t);
      }
    } else {
      FullSet(Counted(plan, last, s), |plan|);
      if s.completedTasks >= |plan| {
        forall t | 0 <= t < |plan|
          ensures s.completed[t]
        {
          assert t in Counted(plan, last, s);
        }
      }
    }
  }

  /** For the plans that the scheduler builds, which have no dependency lists, the counter reaches
      the number of tasks exactly when every task has completed and been counted. */
  lemma ExitTestIsExact(plan: Plan, workers: nat, schedule: seq<Thread>)
    requires NoDependencies(plan) && Run(plan, workers, schedule).Some?
    ensures var s := Run(plan, workers, schedule).value;
            s.completedTasks >= |plan| <==> forall t :: 0 <= t < |plan| ==> s.completed[t] && Finished(t) !in s.workers
  {
    EveryRunIsSingle(plan, |plan|, workers, schedule);
    var s := Run(plan, workers, schedule).value;
    var counted := Counted(plan, |plan|, s);
    FullSet(counted, |plan|);
    if forall t :: 0 <= t < |plan| ==> s.completed[t] && Finished(t) !in s.workers {
      assert forall t :: 0 <= t < |plan| ==> t in counted;
    }
    if s.completedTasks >= |plan| {
      forall t | 0 <= t < |plan|
        ensures s.completed[t] && Finished(t) !in s.workers
      {
        assert t in counted;
      }
    }
  }

  // ---- With dependency lists the test can pass too early ----

  lemma Go(plan: Plan, workers: nat, schedule: seq<Thread>, s: State,
           thread: Thread) returns (next: seq<Thread>, s': State)
    requires Run(plan, workers, schedule) == Some(s) && Shaped(plan, s) && Step(plan, s, thread).Some?
    ensures Run(plan, workers, next) == Some(s') && s' == Step(plan, s, thread).value
    ensures Shaped(plan, s')
  {
    next := schedule + [thread];
    assert next[..|next| - 1] == schedule;
    s' := Step(plan, s, thread).value;
    StepShaped(plan, s, thread);
  }

  /** The second task waits for the first and the third for the second. */
  const CHAIN: Plan := [[], [0], [1]]

  function Chain(queue: seq<nat>, ready: bool, first: bool, second: bool, v: Stage, w: Stage, main: MainStage,
                 count: nat, log: seq<Event>): State {
    State(queue, [true, ready, false], [first, second, false], [v, w], main, count, log)
  }

  lemma FirstTaskEnqueued() returns (schedule: seq<Thread>, s: State)
    ensures Run(CHAIN, 2, schedule) == Some(s)
    ensures s == Chain([0], false, false, false, Waiting, Waiting, Looking(1), 0, [])
  {
    schedule, s := [], Begin(CHAIN, 2);
    assert s.ready == [true, false, false] && s.completed == [false, false, false] && s.workers == [Waiting, Waiting];
    schedule, s := Go(CHAIN, 2, schedule, s, Main);
    schedule, s := Go(CHAIN, 2, schedule, s, Main);
  }

  lemma FirstTaskCompleted() returns (schedule: seq<Thread>, s: State)
    ensures Run(CHAIN, 2, schedule) == Some(s)
    ensures s == Chain([], false, true, false, Scanning(1), Waiting, Looking(1), 1, [Start(0), Finish(0)])
  {
    schedule, s := FirstTaskEnqueued();
    schedule, s := Go(CHAIN, 2, schedule, s, Worker(0));
    schedule, s := Go(CHAIN, 2, schedule, s, Worker(0));
    assert s == Chain([], false, false, false, Running(0), Waiting, Looking(1), 0, [Start(0)]);
    schedule, s := Go(CHAIN, 2, schedule, s, Worker(0));
    assert s == Chain([], false, true, false, Finished(0), Waiting, Looking(1), 0, [Start(0), Finish(0)]);
    schedule, s := Go(CHAIN, 2, schedule, s, Worker(0));
    assert s == Chain([], false, true, false, Scanning(0), Waiting, Looking(1), 1, [Start(0), Finish(0)]);
    schedule, s := Go(CHAIN, 2, schedule, s, Worker(0));
  }

  lemma SecondTaskChecked() returns (schedule: seq<Thread>, s: State)
    ensures Run(CHAIN, 2, schedule) == Some(s)
    ensures s == Chain([], false, true, false, Marking(1), Waiting, Looking(1), 1, [Start(0), Finish(0)])
  {
    schedule, s := FirstTaskCompleted();
    schedule, s := Go(CHAIN, 2, schedule, s, Worker(0));
    schedule, s := Go(CHAIN, 2, schedule, s, Worker(0));
    assert s == Chain([], false, true, false, Checking(1, 0), Waiting, Looking(1), 1, [Start(0), Finish(0)]);
    schedule, s := Go(CHAIN, 2, schedule, s, Worker(0));
    schedule, s := Go(CHAIN, 2, schedule, s, Worker(0));
  }

  /** A worker completes the first task and makes the second ready before the executing thread
      gets to it, which then enqueues it once more. */
  lemma SecondTaskTwiceInQueue() returns (schedule: seq<Thread>, s: State)
    ensures Run(CHAIN, 2, schedule) == Some(s)
    ensures s == Chain([1, 1], true, true, false, Scanning(2), Waiting, Looking(2), 1, [Start(0), Finish(0)])
  {
    schedule, s := SecondTaskChecked();
    schedule, s := Go(CHAIN, 2, schedule, s, Worker(0));
    assert s == Chain([1], true, true, false, Scanning(2), Waiting, Looking(1), 1, [Start(0), Finish(0)]);
    schedule, s := Go(CHAIN, 2, schedule, s, Main);
    schedule, s := Go(CHAIN, 2, schedule, s, Main);
  }

  lemma FirstWorkerWaits() returns (schedule: seq<Thread>, s: State)
    ensures Run(CHAIN, 2, schedule) == Some(s)
    ensures s == Chain([1, 1], true, true, false, Waiting, Waiting, Looking(2), 1, [Start(0), Finish(0)])
  {
    schedule, s := SecondTaskTwiceInQueue();
    schedule, s := Go(CHAIN, 2, schedule, s, Worker(0));
    schedule, s := Go(CHAIN, 2, schedule, s, Worker(0));
    schedule, s := Go(CHAIN, 2, schedule, s, Worker(0));
    schedule, s := Go(CHAIN, 2, schedule, s, Worker(0));
  }

  /** The counter has reached the number of tasks, and the third task has not even started. */
  lemma ExitTestCanPassEarly() returns (schedule: seq<Thread>, s: State)
    ensures Run(CHAIN, 2, schedule) == Some(s) && s.main == Polling && s.completedTasks >= |CHAIN|
    ensures !s.completed[2] && Start(2) !in s.log
  {
    schedule, s := FirstWorkerWaits();
    schedule, s := Go(CHAIN, 2, schedule, s, Worker(1));
    schedule, s := Go(CHAIN, 2, schedule, s, Worker(1));
    schedule, s := Go(CHAIN, 2, schedule, s, Worker(1));
    schedule, s := Go(CHAIN, 2, schedule, s, Worker(1));
    var log := [Start(0), Finish(0), Start(1), Finish(1)];
    assert s == Chain([1], true, true, true, Waiting, Scanning(0), Looking(2), 2, log);
    schedule, s := Go(CHAIN, 2, schedule, s, Worker(0));
    schedule, s := Go(CHAIN, 2, schedule, s, Worker(0));
    schedule, s := Go(CHAIN, 2, schedule, s, Worker(0));
    assert s == Chain([], true, true, true, Scanning(0), Scanning(0), Looking(2), 3, log);
    schedule, s := Go(CHAIN, 2, schedule, s, Main);
    schedule, s := Go(CHAIN, 2, schedule, s, Main);
  }
}
