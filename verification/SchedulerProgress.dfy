// No task is lost, every run ends, and what the executing thread may conclude from its counter.
module SchedulerProgress {
  import opened Scheduler

  // ---- No task is lost ----

  /** The worker is still going to look at task `t` in a scan. */
  predicate Attends(stage: Stage, t: nat) {
    match stage
    case Finished(_) => true
    case Scanning(i) => i <= t
    case Reading(i) => i <= t
    case Checking(i, _) => i <= t
    case Marking(i) => i <= t
    case _ => false
  }

  predicate Carries(stage: Stage, t: nat) {
    stage == Taken(t) || stage == Running(t)
  }

  predicate MainAttends(main: MainStage, t: nat) {
    match main
    case Looking(i) => i <= t
    case Enqueuing(i) => i <= t
    case Polling => false
  }

  ghost predicate SomeAttends(s: State, t: nat) {
    exists w :: 0 <= w < |s.workers| && Attends(s.workers[w], t)
  }

  ghost predicate SomeCarries(s: State, t: nat) {
    exists w :: 0 <= w < |s.workers| && Carries(s.workers[w], t)
  }

  ghost predicate Tracked(plan: Plan, s: State, t: nat)
    requires Shaped(plan, s) && t < |plan|
  {
    s.completed[t] ||
    if s.ready[t] then t in s.queue || SomeCarries(s, t) || MainAttends(s.main, t)
    else DepsDone(plan, s, t) ==> SomeAttends(s, t)
  }

  lemma WorkerStepTracks(plan: Plan, s: State, w: nat, t: nat)
    requires Safe(plan, s) && w < |s.workers| && WorkerStep(plan, s, w).Some? && t < |plan| && Tracked(plan, s, t)
    ensures Tracked(plan, WorkerStep(plan, s, w).value, t)
  {
    var s' := WorkerStep(plan, s, w).value;
    assert StageOk(plan, s, s.workers[w]);
    if !s'.completed[t] {
      if s.ready[t] {
        CarriedStays(plan, s, w, t);
      } else if s'.ready[t] {
        assert s'.queue[|s.queue|] == t;
      } else if DepsDone(plan, s', t) {
        AttendedStays(plan, s, w, t);
      }
    }
  }

  lemma CarriedStays(plan: Plan, s: State, w: nat, t: nat)
    requires Safe(plan, s) && w < |s.workers| && WorkerStep(plan, s, w).Some? && t < |plan|
    requires t in s.queue || SomeCarries(s, t) || MainAttends(s.main, t)
    ensures var s' := WorkerStep(plan, s, w).value;
            s'.completed[t] || t in s'.queue || SomeCarries(s', t) || MainAttends(s'.main, t)
  {
    var s' := WorkerStep(plan, s, w).value;
    if SomeCarries(s, t) {
      var v :| 0 <= v < |s.workers| && Carries(s.workers[v], t);
      assert s'.workers[v] == s.workers[v] || v == w;
      assert s'.completed[t] || Carries(s'.workers[v], t);
    } else if t in s.queue {
      if s.workers[w].Waiting? && s.queue[|s.queue| - 1] == t {
        assert Carries(s'.workers[w], t);
      } else if s.workers[w].Waiting? {
        assert s.queue == s'.queue + [s.queue[|s.queue| - 1]];
      } else {
        assert s'.queue[..|s.queue|] == s.queue;
        assert forall x :: x in s'.queue[..|s.queue|] ==> x in s'.queue;
      }
    }
  }

  lemma AttendedStays(plan: Plan, s: State, w: nat, t: nat)
    requires Safe(plan, s) && w < |s.workers| && WorkerStep(plan, s, w).Some? && t < |plan|
    requires Tracked(plan, s, t) && !s.ready[t] && !s.completed[t]
    requires var s' := WorkerStep(plan, s, w).value; !s'.ready[t] && !s'.completed[t] && DepsDone(plan, s', t)
    ensures SomeAttends(WorkerStep(plan, s, w).value, t)
  {
    var s' := WorkerStep(plan, s, w).value;
    if s.workers[w].Running? {
      assert Attends(s'.workers[w], t);
    } else {
      forall d | d in plan[t]
        ensures Done(plan, s, d)
      {
        assert Done(plan, s', d);
      }
      assert SomeAttends(s, t);
      var v :| 0 <= v < |s.workers| && Attends(s.workers[v], t);
      if v == w && s.workers[w].Checking? && s.workers[w].next == t && s.workers[w].dep < |plan[t]| {
        assert Done(plan, s, plan[t][s.workers[w].dep]);
      }
      assert Attends(s'.workers[v], t);
    }
  }

  lemma MainStepTracks(plan: Plan, s: State, t: nat)
    requires Safe(plan, s) && MainStep(plan, s).Some? && t < |plan| && Tracked(plan, s, t)
    ensures Tracked(plan, MainStep(plan, s).value, t)
  {
    var s' := MainStep(plan, s).value;
    if !s.completed[t] {
      if s.ready[t] {
        if SomeCarries(s, t) {
          assert SomeCarries(s', t);
        } else if t in s.queue {
          assert s'.queue[..|s.queue|] == s.queue;
          assert forall x :: x in s'.queue[..|s.queue|] ==> x in s'.queue;
        } else if s.main == Enqueuing(t) {
          assert s'.queue[|s.queue|] == t;
        }
      } else if DepsDone(plan, s', t) {
        forall d | d in plan[t]
          ensures Done(plan, s, d)
        {
          assert Done(plan, s', d);
        }
        assert SomeAttends(s', t);
      }
    }
  }

  lemma {:induction false} EveryRunTracks(plan: Plan, workers: nat, schedule: seq<Thread>, t: nat)
    requires Run(plan, workers, schedule).Some? && t < |plan|
    ensures Tracked(plan, Run(plan, workers, schedule).value, t)
    decreases |schedule|
  {
    if schedule == [] {
      var s := Begin(plan, workers);
      if plan[t] != [] && DepsDone(plan, s, t) {
        assert Done(plan, s, plan[t][0]);
      }
    } else {
      var front, last := schedule[..|schedule| - 1], schedule[|schedule| - 1];
      var s := Run(plan, workers, front).value;
      EveryRunTracks(plan, workers, front, t);
      EveryRunIsSafe(plan, workers, front);
      match last
      case Main => MainStepTracks(plan, s, t);
      case Worker(w) => WorkerStepTracks(plan, s, w, t);
    }
  }

  /** Initial enqueuing is over, the queue is empty and every worker waits. */
  predicate Quiescent(s: State) {
    s.queue == [] && s.main == Polling && forall w :: 0 <= w < |s.workers| ==> s.workers[w] == Waiting
  }

  /** All that `t` needs, directly or not, exists and nothing in it needs itself. */
  ghost predicate Grounded(plan: Plan, t: nat, depth: nat)
    decreases depth
  {
    t < |plan| && depth > 0 && forall d :: d in plan[t] ==> Grounded(plan, d, depth - 1)
  }

  ghost predicate Completable(plan: Plan, t: nat) {
    exists depth :: Grounded(plan, t, depth)
  }

  lemma {:induction false} GroundedDeeper(plan: Plan, t: nat, depth: nat, deeper: nat)
    requires Grounded(plan, t, depth) && depth <= deeper
    ensures Grounded(plan, t, deeper)
    decreases depth
  {
    forall d | d in plan[t]
      ensures Grounded(plan, d, deeper - 1)
    {
      GroundedDeeper(plan, d, depth - 1, deeper - 1);
    }
  }

  lemma {:induction false} CommonDepth(plan: Plan, deps: seq<nat>) returns (depth: nat)
    requires forall d :: d in deps ==> Completable(plan, d)
    ensures forall d :: d in deps ==> Grounded(plan, d, depth)
    decreases |deps|
  {
    if deps == [] {
      depth := 0;
    } else {
      assert forall d :: d in deps[1..] ==> d in deps;
      var rest := CommonDepth(plan, deps[1..]);
      assert deps[0] in deps;
      var k :| Grounded(plan, deps[0], k);
      depth := rest + k;
      forall d | d in deps
        ensures Grounded(plan, d, depth)
      {
        GroundedDeeper(plan, d, if d == deps[0] then k else rest, depth);
      }
    }
  }

  lemma {:induction false} ReadyIsGrounded(plan: Plan, workers: nat, schedule: seq<Thread>, t: nat)
    requires Run(plan, workers, schedule).Some? && t < |plan|
    requires Run(plan, workers, schedule).value.ready[t]
    ensures Completable(plan, t)
    decreases |schedule|
  {
    if schedule == [] {
      assert Grounded(plan, t, 1);
    } else {
      var front, last := schedule[..|schedule| - 1], schedule[|schedule| - 1];
      var s := Run(plan, workers, front).value;
      EveryRunIsSafe(plan, workers, front);
      if s.ready[t] {
        ReadyIsGrounded(plan, workers, front, t);
      } else {
        assert last.Worker? && StageOk(plan, s, s.workers[last.index]);
        forall d | d in plan[t]
          ensures Completable(plan, d)
        {
          assert Done(plan, s, d) && TaskOk(plan, s, d);
          ReadyIsGrounded(plan, workers, front, d);
        }
        var depth := CommonDepth(plan, plan[t]);
        assert Grounded(plan, t, depth + 1);
      }
    }
  }

  lemma {:induction false} QuietTaskCompleted(plan: Plan, workers: nat, schedule: seq<Thread>, t: nat, depth: nat)
    requires Run(plan, workers, schedule).Some? && Quiescent(Run(plan, workers, schedule).value)
    requires Grounded(plan, t, depth)
    ensures Run(plan, workers, schedule).value.completed[t]
    decreases depth
  {
    var s := Run(plan, workers, schedule).value;
    forall d | d in plan[t]
      ensures Done(plan, s, d)
    {
      QuietTaskCompleted(plan, workers, schedule, d, depth - 1);
    }
    EveryRunTracks(plan, workers, schedule, t);
  }

  /** When everything has come to rest, a task has completed exactly if it could: its dependencies
      exist and are acyclic.  So none is lost, in any interleaving. */
  lemma NoTaskIsLost(plan: Plan, workers: nat, schedule: seq<Thread>, t: nat)
    requires Run(plan, workers, schedule).Some? && Quiescent(Run(plan, workers, schedule).value) && t < |plan|
    ensures Run(plan, workers, schedule).value.completed[t] <==> Completable(plan, t)
  {
    EveryRunIsSafe(plan, workers, schedule);
    assert TaskOk(plan, Run(plan, workers, schedule).value, t);
    if Run(plan, workers, schedule).value.completed[t] {
      ReadyIsGrounded(plan, workers, schedule, t);
    }
    if k :| Grounded(plan, t, k) {
      QuietTaskCompleted(plan, workers, schedule, t, k);
    }
  }

  // ---- Every run comes to rest ----

  /** Whenever something is left to do, some thread can move. */
  lemma SomeoneCanMove(plan: Plan, s: State) returns (thread: Thread)
    requires Safe(plan, s) && |s.workers| > 0 && !Quiescent(s)
    ensures Step(plan, s, thread).Some?
  {
    if w :| 0 <= w < |s.workers| && s.workers[w] != Waiting {
      assert StageOk(plan, s, s.workers[w]);
      if s.workers[w].Taken? && Running(s.workers[w].task) in s.workers {
        var v :| 0 <= v < |s.workers| && s.workers[v] == Running(s.workers[w].task);
        thread := Worker(v);
      } else {
        thread := Worker(w);
      }
    } else if s.queue != [] {
      thread := Worker(0);
    } else {
      thread := Main;
    }
  }

  /** Moves left in a scan from task `i` on. */
  function Tail(plan: Plan, i: nat): (c: nat)
    ensures c > 0
    decreases |plan| - i
  {
    if i >= |plan| then 1 else |plan[i]| + 4 + Tail(plan, i + 1)
  }

  /** What one entry of the queue can still cost. */
  function Price(plan: Plan): nat {
    Tail(plan, 0) + 4
  }

  function Cost(plan: Plan, ready: seq<bool>, stage: Stage): nat
    requires |ready| == |plan|
  {
    match stage
    case Waiting => 0
    case Taken(_) => Tail(plan, 0) + 3
    case Running(_) => Tail(plan, 0) + 2
    case Finished(_) => Tail(plan, 0) + 1
    case Scanning(i) => Tail(plan, i)
    case Reading(i) => if i < |plan| then |plan[i]| + 3 + Tail(plan, i + 1) else 0
    case Checking(i, j) =>
      if i < |plan| && j <= |plan[i]| then
        |plan[i]| - j + 2 + Tail(plan, i + 1) + (if ready[i] then Price(plan) else 0)
      else 0
    case Marking(i) => if i < |plan| then 1 + Tail(plan, i + 1) + (if ready[i] then Price(plan) else 0) else 0
  }

  function Costs(plan: Plan, ready: seq<bool>, workers: seq<Stage>): nat
    requires |ready| == |plan|
  {
    if workers == [] then 0 else Cost(plan, ready, workers[0]) + Costs(plan, ready, workers[1..])
  }

  function Unready(ready: seq<bool>): nat {
    if ready == [] then 0 else (if ready[0] then 0 else 1) + Unready(ready[1..])
  }

  function MainCost(plan: Plan, main: MainStage): nat {
    match main
    case Looking(i) => if i <= |plan| then (|plan| - i) * (Price(plan) + 2) + 1 else 1
    case Enqueuing(i) => if i < |plan| then (|plan| - i) * (Price(plan) + 2) else 0
    case Polling => 0
  }

  /** Set aside for a task that is not ready yet: one entry for each worker, and one more. */
  function Reserve(workers: nat, price: nat): nat {
    (workers + 1) * price
  }

  function Times(a: nat, b: nat): nat {
    a * b
  }

  function Measure(plan: Plan, s: State): nat
    requires Shaped(plan, s)
  {
    Times(|s.queue|, Price(plan)) + Costs(plan, s.ready, s.workers)
    + Times(Unready(s.ready), Reserve(|s.workers|, Price(plan))) + MainCost(plan, s.main)
  }

  lemma {:induction false} CostsUpdate(plan: Plan, ready: seq<bool>, workers: seq<Stage>, w: nat, stage: Stage)
    requires |ready| == |plan| && w < |workers|
    ensures Costs(plan, ready, workers[w := stage]) + Cost(plan, ready, workers[w])
            == Costs(plan, ready, workers) + Cost(plan, ready, stage)
    decreases |workers|
  {
    if w > 0 {
      CostsUpdate(plan, ready, workers[1..], w - 1, stage);
      assert workers[w := stage][1..] == workers[1..][w - 1 := stage];
    } else {
      assert workers[w := stage][1..] == workers[1..];
    }
  }

  lemma {:induction false} CostsReady(plan: Plan, ready: seq<bool>, workers: seq<Stage>, t: nat)
    requires |ready| == |plan| && t < |plan|
    ensures Costs(plan, ready[t := true], workers) <= Costs(plan, ready, workers) + |workers| * Price(plan)
    decreases |workers|
  {
    if workers != [] {
      CostsReady(plan, ready, workers[1..], t);
      assert |workers| * Price(plan) == |workers[1..]| * Price(plan) + Price(plan);
    }
  }

  lemma {:induction false} UnreadyUpdate(ready: seq<bool>, t: nat)
    requires t < |ready|
    ensures Unready(ready) == Unready(ready[t := true]) + if ready[t] then 0 else 1
    decreases |ready|
  {
    if t > 0 {
      UnreadyUpdate(ready[1..], t - 1);
      assert ready[t := true][1..] == ready[1..][t - 1 := true];
    } else {
      assert ready[t := true][1..] == ready[1..];
    }
  }

  lemma PopPays(n: nat, price: nat)
    requires n > 0
    ensures n * price == (n - 1) * price + price
  {
  }

  /** Marking a task for the first time pays for its entry and for everyone who is about to mark
      it too. */
  lemma MarkingPays(plan: Plan, s: State, w: nat, i: nat)
    requires Safe(plan, s) && w < |s.workers| && i < |plan| && s.workers[w] == Marking(i)
    ensures Measure(plan, Enter(Enqueued(s, i), w, Scanning(i + 1))) < Measure(plan, s)
  {
    var ready' := s.ready[i := true];
    CostsUpdate(plan, ready', s.workers, w, Scanning(i + 1));
    UnreadyUpdate(s.ready, i);
    if s.ready[i] {
      assert ready' == s.ready;
      PopPays(|s.queue| + 1, Price(plan));
    } else {
      CostsReady(plan, s.ready, s.workers, i);
      MarkingSums(|s.queue|, Price(plan), |s.workers|, Unready(ready'), Costs(plan, s.ready, s.workers),
                  Costs(plan, ready', s.workers[w := Scanning(i + 1)]));
    }
  }

  lemma MarkingSums(q: nat, p: nat, w: nat, u: nat, c: nat, c': nat)
    requires c' + 1 + p <= c + w * p
    ensures (q + 1) * p + c' + u * Reserve(w, p) < q * p + c + (u + 1) * Reserve(w, p)
  {
    assert (u + 1) * Reserve(w, p) == u * Reserve(w, p) + Reserve(w, p);
    assert (q + 1) * p == q * p + p;
    assert Reserve(w, p) == w * p + p;
  }

  lemma MainStepPays(plan: Plan, s: State)
    requires Safe(plan, s) && MainStep(plan, s).Some?
    ensures Measure(plan, MainStep(plan, s).value) < Measure(plan, s)
  {
    var p := Price(plan);
    match s.main
    case Looking(i) =>
      if i < |plan| {
        PopPays(|plan| - i, p + 2);
      }
    case Enqueuing(i) =>
      PopPays(|plan| - i, p + 2);
      assert s.ready[i := true] == s.ready;
      assert (|s.queue| + 1) * p == |s.queue| * p + p;
  }

  lemma WorkerStepPays(plan: Plan, s: State, w: nat)
    requires Safe(plan, s) && w < |s.workers| && WorkerStep(plan, s, w).Some?
    ensures Measure(plan, WorkerStep(plan, s, w).value) < Measure(plan, s)
  {
    var s' := WorkerStep(plan, s, w).value;
    var stage := s.workers[w];
    assert StageOk(plan, s, stage);
    if stage.Marking? {
      MarkingPays(plan, s, w, stage.next);
    } else {
      CostsUpdate(plan, s.ready, s.workers, w, s'.workers[w]);
      if stage.Waiting? {
        PopPays(|s.queue|, Price(plan));
      }
    }
  }

  /** No interleaving goes on for ever. */
  lemma {:induction false} EveryRunEnds(plan: Plan, workers: nat, schedule: seq<Thread>)
    requires Run(plan, workers, schedule).Some?
    ensures |schedule| + Measure(plan, Run(plan, workers, schedule).value) <= Measure(plan, Begin(plan, workers))
    decreases |schedule|
  {
    if schedule != [] {
      var front, last := schedule[..|schedule| - 1], schedule[|schedule| - 1];
      var s := Run(plan, workers, front).value;
      EveryRunEnds(plan, workers, front);
      EveryRunIsSafe(plan, workers, front);
      match last
      case Main => MainStepPays(plan, s);
      case Worker(w) => WorkerStepPays(plan, s, w);
    }
  }

  /** A run that cannot be continued has completed every task that can be completed. */
  lemma FinalRunCompletesAll(plan: Plan, workers: nat, schedule: seq<Thread>, t: nat, depth: nat)
    requires Run(plan, workers, schedule).Some? && workers > 0
    requires forall thread :: Step(plan, Run(plan, workers, schedule).value, thread).None?
    requires Grounded(plan, t, depth)
    ensures Run(plan, workers, schedule).value.completed[t]
  {
    var s := Run(plan, workers, schedule).value;
    EveryRunIsSafe(plan, workers, schedule);
    if !Quiescent(s) {
      var thread := SomeoneCanMove(plan, s);
    }
    QuietTaskCompleted(plan, workers, schedule, t, depth);
  }
}
