// The protocol between the worker threads and the executing thread: a stack of ready tasks, the
// flags of each task, and a scan for newly ready tasks after each completion.  One step is what
// a thread does between two points where another thread can come in.
module Scheduler {
  import opened Ast

  /** The dependency list of each task. */
  type Plan = seq<seq<nat>>

  datatype Stage =
    | Waiting                        // on the queue's condition variable
    | Taken(task: nat)               // popped, not yet holding the task's mutex
    | Running(task: nat)             // in the body, holding the mutex
    | Finished(task: nat)            // mutex released, completion not yet counted
    | Scanning(next: nat)            // about to look at the completed flag of a task
    | Reading(next: nat)             // about to look at its ready flag
    | Checking(next: nat, dep: nat)  // about to look at one of its dependencies
    | Marking(next: nat)             // about to put it in the queue

  datatype MainStage = Looking(next: nat) | Enqueuing(next: nat) | Polling

  datatype Event = Start(task: nat) | Finish(task: nat)

  datatype State = State(
    queue: seq<nat>,
    ready: seq<bool>,
    completed: seq<bool>,
    workers: seq<Stage>,
    main: MainStage,
    completedTasks: nat,
    log: seq<Event>)

  datatype Thread = Main | Worker(index: nat)

  predicate Shaped(plan: Plan, s: State) {
    |s.ready| == |s.completed| == |plan|
  }

  /** The state in which the plan has been built and execution begins. */
  function Begin(plan: Plan, workers: nat): State {
    State([], seq(|plan|, t requires 0 <= t < |plan| => plan[t] == []), seq(|plan|, _ => false),
          seq(workers, _ => Waiting), Looking(0), 0, [])
  }

  function Enter(s: State, w: nat, stage: Stage): State
    requires w < |s.workers|
  {
    s.(workers := s.workers[w := stage])
  }

  function Enqueued(s: State, t: nat): State
    requires t < |s.ready|
  {
    s.(queue := s.queue + [t], ready := s.ready[t := true])
  }

  /** `None` when the worker has to wait. */
  function WorkerStep(plan: Plan, s: State, w: nat): Option<State>
    requires Shaped(plan, s) && w < |s.workers|
  {
    match s.workers[w]
    case Waiting =>
      if s.queue == [] then None
      else Some(Enter(s, w, Taken(s.queue[|s.queue| - 1])).(queue := s.queue[..|s.queue| - 1]))
    case Taken(t) =>
      if t >= |plan| || Running(t) in s.workers then None
      else if s.completed[t] then Some(Enter(s, w, Finished(t)))
      else Some(Enter(s, w, Running(t)).(log := s.log + [Start(t)]))
    case Running(t) =>
      if t >= |plan| then None
      else Some(Enter(s, w, Finished(t)).(completed := s.completed[t := true], log := s.log + [Finish(t)]))
    case Finished(_) => Some(Enter(s, w, Scanning(0)).(completedTasks := s.completedTasks + 1))
    case Scanning(i) =>
      if i >= |plan| then Some(Enter(s, w, Waiting))
      else Some(Enter(s, w, if s.completed[i] then Scanning(i + 1) else Reading(i)))
    case Reading(i) =>
      if i >= |plan| then None
      else Some(Enter(s, w, if s.ready[i] then Scanning(i + 1) else Checking(i, 0)))
    case Checking(i, j) =>
      if i >= |plan| then None
      else if j >= |plan[i]| then Some(Enter(s, w, Marking(i)))
      else
        var d := plan[i][j];
        Some(Enter(s, w, if d >= |plan| || !s.completed[d] then Scanning(i + 1) else Checking(i, j + 1)))
    case Marking(i) =>
      if i >= |plan| then None else Some(Enter(Enqueued(s, i), w, Scanning(i + 1)))
  }

  function MainStep(plan: Plan, s: State): Option<State>
    requires Shaped(plan, s)
  {
    match s.main
    case Looking(i) =>
      if i >= |plan| then Some(s.(main := Polling))
      else Some(s.(main := if s.ready[i] then Enqueuing(i) else Looking(i + 1)))
    case Enqueuing(i) => if i >= |plan| then None else Some(Enqueued(s, i).(main := Looking(i + 1)))
    case Polling => None
  }

  function Step(plan: Plan, s: State, thread: Thread): Option<State>
    requires Shaped(plan, s)
  {
    match thread
    case Main => MainStep(plan, s)
    case Worker(w) => if w < |s.workers| then WorkerStep(plan, s, w) else None
  }

  lemma StepShaped(plan: Plan, s: State, thread: Thread)
    requires Shaped(plan, s) && Step(plan, s, thread).Some?
    ensures Shaped(plan, Step(plan, s, thread).value)
    ensures |Step(plan, s, thread).value.workers| == |s.workers|
  {
  }

  /** The state after an interleaving, if every thread in it could move when it was its turn. */
  function Run(plan: Plan, workers: nat, schedule: seq<Thread>): (r: Option<State>)
    ensures r.Some? ==> Shaped(plan, r.value) && |r.value.workers| == workers
  {
    if schedule == [] then Some(Begin(plan, workers))
    else
      match Run(plan, workers, schedule[..|schedule| - 1])
      case None => None
      case Some(s) =>
        var r := Step(plan, s, schedule[|schedule| - 1]);
        if r.Some? then (StepShaped(plan, s, schedule[|schedule| - 1]); r) else None
  }

  // ---- Safety ----

  ghost predicate Done(plan: Plan, s: State, d: nat)
    requires Shaped(plan, s)
  {
    d < |plan| && s.completed[d]
  }

  ghost predicate DepsDone(plan: Plan, s: State, t: nat)
    requires Shaped(plan, s) && t < |plan|
  {
    forall d :: d in plan[t] ==> Done(plan, s, d)
  }

  ghost predicate TaskOk(plan: Plan, s: State, t: nat)
    requires Shaped(plan, s) && t < |plan|
  {
    && (s.ready[t] ==> DepsDone(plan, s, t))
    && (s.completed[t] ==> s.ready[t])
    && (s.completed[t] <==> Finish(t) in s.log)
    && (Start(t) in s.log <==> s.completed[t] || Running(t) in s.workers)
  }

  ghost predicate StageOk(plan: Plan, s: State, stage: Stage)
    requires Shaped(plan, s)
  {
    match stage
    case Waiting => true
    case Taken(t) => t < |plan| && s.ready[t]
    case Running(t) => t < |plan| && s.ready[t] && !s.completed[t]
    case Finished(t) => t < |plan| && s.completed[t]
    case Scanning(i) => i <= |plan|
    case Reading(i) => i < |plan|
    case Checking(i, j) => i < |plan| && j <= |plan[i]| && forall k :: 0 <= k < j ==> Done(plan, s, plan[i][k])
    case Marking(i) => i < |plan| && DepsDone(plan, s, i)
  }

  ghost predicate MainOk(plan: Plan, s: State)
    requires Shaped(plan, s)
  {
    match s.main
    case Looking(i) => i <= |plan|
    case Enqueuing(i) => i < |plan| && s.ready[i]
    case Polling => true
  }

  /** Read backwards: no task starts twice, and what it needs has finished before. */
  ghost predicate LogOk(plan: Plan, log: seq<Event>) {
    forall p :: 0 <= p < |log| && log[p].Start? ==>
      && log[p].task < |plan| && log[p] !in log[..p]
      && forall d :: d in plan[log[p].task] ==> Finish(d) in log[..p]
  }

  ghost predicate Exclusive(workers: seq<Stage>) {
    forall v, w :: 0 <= v < w < |workers| && workers[v].Running? ==> workers[w] != workers[v]
  }

  ghost predicate Safe(plan: Plan, s: State) {
    && Shaped(plan, s) && LogOk(plan, s.log) && Exclusive(s.workers) && MainOk(plan, s)
    && (forall t :: 0 <= t < |plan| ==> TaskOk(plan, s, t))
    && (forall w :: 0 <= w < |s.workers| ==> StageOk(plan, s, s.workers[w]))
    && (forall t :: t in s.queue ==> t < |plan| && s.ready[t])
  }

  lemma LogGrows(plan: Plan, log: seq<Event>, e: Event)
    requires LogOk(plan, log)
    requires e.Start? ==> e.task < |plan| && e !in log && forall d :: d in plan[e.task] ==> Finish(d) in log
    ensures LogOk(plan, log + [e])
  {
    forall p | 0 <= p < |log + [e]| && (log + [e])[p].Start?
      ensures (log + [e])[p].task < |plan| && (log + [e])[p] !in (log + [e])[..p]
              && forall d :: d in plan[(log + [e])[p].task] ==> Finish(d) in (log + [e])[..p]
    {
      assert (log + [e])[..p] == log[..p];
    }
    assert log[..|log|] == log;
  }

  /** Flags are only ever raised. */
  ghost predicate Later(plan: Plan, s: State, s': State) {
    && Shaped(plan, s) && Shaped(plan, s')
    && forall t :: 0 <= t < |plan| ==> (s.ready[t] ==> s'.ready[t]) && (s.completed[t] ==> s'.completed[t])
  }

  lemma StageStays(plan: Plan, s: State, s': State, stage: Stage)
    requires Later(plan, s, s') && StageOk(plan, s, stage)
    requires stage.Running? ==> s'.completed == s.completed || !s'.completed[stage.task]
    ensures StageOk(plan, s', stage)
  {
    match stage
    case Checking(i, j) =>
      forall k | 0 <= k < j
        ensures Done(plan, s', plan[i][k])
      {
        assert Done(plan, s, plan[i][k]);
      }
    case Marking(i) => DepsStay(plan, s, s', i);
    case _ =>
  }

  lemma DepsStay(plan: Plan, s: State, s': State, t: nat)
    requires Later(plan, s, s') && t < |plan| && DepsDone(plan, s, t)
    ensures DepsDone(plan, s', t)
  {
    forall d | d in plan[t]
      ensures Done(plan, s', d)
    {
      assert Done(plan, s, d);
    }
  }

  lemma InWorkers(workers: seq<Stage>, w: nat, stage: Stage, x: Stage)
    requires w < |workers|
    ensures x in workers[w := stage] ==> x == stage || x in workers
    ensures x in workers && x != workers[w] ==> x in workers[w := stage]
    ensures stage in workers[w := stage]
  {
    assert workers[w := stage][w] == stage;
    if x in workers && x != workers[w] {
      var v :| 0 <= v < |workers| && workers[v] == x;
      assert workers[w := stage][v] == x;
    }
  }

  /** A step of a worker that touches no flag and no log. */
  lemma MoveSafe(plan: Plan, s: State, w: nat, stage: Stage)
    requires Safe(plan, s) && w < |s.workers| && StageOk(plan, s, stage)
    requires !stage.Running? && !s.workers[w].Running?
    ensures Safe(plan, Enter(s, w, stage))
  {
    var s' := Enter(s, w, stage);
    forall t | 0 <= t < |plan|
      ensures TaskOk(plan, s', t)
    {
      assert TaskOk(plan, s, t);
      InWorkers(s.workers, w, stage, Running(t));
      if DepsDone(plan, s, t) {
        DepsStay(plan, s, s', t);
      }
    }
    forall v | 0 <= v < |s'.workers|
      ensures StageOk(plan, s', s'.workers[v])
    {
      StageStays(plan, s, s', s'.workers[v]);
    }
  }

  lemma EnqueueSafe(plan: Plan, s: State, t: nat)
    requires Safe(plan, s) && t < |plan| && DepsDone(plan, s, t)
    ensures Safe(plan, Enqueued(s, t))
  {
    var s' := Enqueued(s, t);
    forall u | 0 <= u < |plan|
      ensures TaskOk(plan, s', u)
    {
      assert TaskOk(plan, s, u);
      if DepsDone(plan, s, u) {
        DepsStay(plan, s, s', u);
      }
    }
    forall v | 0 <= v < |s'.workers|
      ensures StageOk(plan, s', s'.workers[v])
    {
      StageStays(plan, s, s', s'.workers[v]);
    }
  }

  lemma StartSafe(plan: Plan, s: State, w: nat, t: nat)
    requires Safe(plan, s) && w < |s.workers| && s.workers[w] == Taken(t)
    requires t < |plan| && Running(t) !in s.workers && !s.completed[t]
    ensures Safe(plan, Enter(s, w, Running(t)).(log := s.log + [Start(t)]))
  {
    var s' := Enter(s, w, Running(t)).(log := s.log + [Start(t)]);
    assert StageOk(plan, s, s.workers[w]) && TaskOk(plan, s, t);
    forall d | d in plan[t]
      ensures Finish(d) in s.log
    {
      assert Done(plan, s, d) && TaskOk(plan, s, d);
    }
    LogGrows(plan, s.log, Start(t));
    forall u | 0 <= u < |plan|
      ensures TaskOk(plan, s', u)
    {
      assert TaskOk(plan, s, u);
      InWorkers(s.workers, w, Running(t), Running(u));
      if DepsDone(plan, s, u) {
        DepsStay(plan, s, s', u);
      }
    }
    forall v | 0 <= v < |s'.workers|
      ensures StageOk(plan, s', s'.workers[v])
    {
      StageStays(plan, s, s', s'.workers[v]);
    }
  }

  lemma FinishSafe(plan: Plan, s: State, w: nat, t: nat)
    requires Safe(plan, s) && w < |s.workers| && s.workers[w] == Running(t) && t < |plan|
    ensures Safe(plan, Enter(s, w, Finished(t)).(completed := s.completed[t := true], log := s.log + [Finish(t)]))
  {
    var s' := Enter(s, w, Finished(t)).(completed := s.completed[t := true], log := s.log + [Finish(t)]);
    assert StageOk(plan, s, s.workers[w]);
    LogGrows(plan, s.log, Finish(t));
    forall u | 0 <= u < |plan|
      ensures TaskOk(plan, s', u)
    {
      assert TaskOk(plan, s, u);
      InWorkers(s.workers, w, Finished(t), Running(u));
      if DepsDone(plan, s, u) {
        DepsStay(plan, s, s', u);
      }
    }
    forall v | 0 <= v < |s'.workers|
      ensures StageOk(plan, s', s'.workers[v])
    {
      if v != w {
        assert s.workers[v] != Running(t);
        StageStays(plan, s, s', s'.workers[v]);
      }
    }
  }

  lemma TakeSafe(plan: Plan, s: State, w: nat)
    requires Safe(plan, s) && w < |s.workers| && s.workers[w].Waiting? && s.queue != []
    ensures Safe(plan, WorkerStep(plan, s, w).value)
  {
    var t := s.queue[|s.queue| - 1];
    assert t in s.queue;
    MoveSafe(plan, s, w, Taken(t));
    var moved := Enter(s, w, Taken(t));
    var s' := WorkerStep(plan, s, w).value;
    assert s.queue == s'.queue + [t];
    assert forall x :: x in s'.queue ==> x in s.queue;
    forall u | 0 <= u < |plan|
      ensures TaskOk(plan, s', u)
    {
      assert TaskOk(plan, moved, u);
      if DepsDone(plan, moved, u) {
        DepsStay(plan, moved, s', u);
      }
    }
    forall v | 0 <= v < |s'.workers|
      ensures StageOk(plan, s', s'.workers[v])
    {
      StageStays(plan, moved, s', s'.workers[v]);
    }
  }

  lemma CountSafe(plan: Plan, s: State, count: nat, main: MainStage)
    requires Safe(plan, s) && MainOk(plan, s.(main := main))
    ensures Safe(plan, s.(completedTasks := count, main := main))
  {
    var s' := s.(completedTasks := count, main := main);
    forall u | 0 <= u < |plan|
      ensures TaskOk(plan, s', u)
    {
      assert TaskOk(plan, s, u);
      if DepsDone(plan, s, u) {
        DepsStay(plan, s, s', u);
      }
    }
    forall v | 0 <= v < |s'.workers|
      ensures StageOk(plan, s', s'.workers[v])
    {
      StageStays(plan, s, s', s'.workers[v]);
    }
  }

  lemma WorkerStepSafe(plan: Plan, s: State, w: nat)
    requires Safe(plan, s) && w < |s.workers| && WorkerStep(plan, s, w).Some?
    ensures Safe(plan, WorkerStep(plan, s, w).value)
  {
    assert StageOk(plan, s, s.workers[w]);
    match s.workers[w]
    case Waiting => TakeSafe(plan, s, w);
    case Taken(t) =>
      if s.completed[t] {
        MoveSafe(plan, s, w, Finished(t));
      } else {
        StartSafe(plan, s, w, t);
      }
    case Running(t) => FinishSafe(plan, s, w, t);
    case Finished(_) =>
      MoveSafe(plan, s, w, Scanning(0));
      CountSafe(plan, Enter(s, w, Scanning(0)), s.completedTasks + 1, s.main);
    case Marking(i) =>
      EnqueueSafe(plan, s, i);
      MoveSafe(plan, Enqueued(s, i), w, Scanning(i + 1));
    case Checking(i, j) =>
      if j >= |plan[i]| {
        assert j == |plan[i]|;
        MoveSafe(plan, s, w, Marking(i));
      } else {
        MoveSafe(plan, s, w, WorkerStep(plan, s, w).value.workers[w]);
      }
    case _ => MoveSafe(plan, s, w, WorkerStep(plan, s, w).value.workers[w]);
  }

  lemma StepSafe(plan: Plan, s: State, thread: Thread)
    requires Safe(plan, s) && Step(plan, s, thread).Some?
    ensures Safe(plan, Step(plan, s, thread).value)
  {
    match thread
    case Worker(w) => WorkerStepSafe(plan, s, w);
    case Main =>
      match s.main {
        case Looking(i) => CountSafe(plan, s, s.completedTasks, MainStep(plan, s).value.main);
        case Enqueuing(i) =>
          assert TaskOk(plan, s, i);
          EnqueueSafe(plan, s, i);
          CountSafe(plan, Enqueued(s, i), s.completedTasks, Looking(i + 1));
      }
  }

  /** In every interleaving, for any dependency lists, no task body runs twice, and none starts
      before all the tasks it depends on have finished. */
  lemma {:induction false} EveryRunIsSafe(plan: Plan, workers: nat, schedule: seq<Thread>)
    requires Run(plan, workers, schedule).Some?
    ensures var s := Run(plan, workers, schedule).value; Safe(plan, s) && LogOk(plan, s.log)
    decreases |schedule|
  {
    if schedule == [] {
      var s := Begin(plan, workers);
      forall t | 0 <= t < |plan|
        ensures TaskOk(plan, s, t)
      {
      }
    } else {
      var front := schedule[..|schedule| - 1];
      EveryRunIsSafe(plan, workers, front);
      StepSafe(plan, Run(plan, workers, front).value, schedule[|schedule| - 1]);
    }
  }
}
