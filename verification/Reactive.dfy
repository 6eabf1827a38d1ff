// The reactive runtime: nodes by identifier, edges kept in both directions, dirty marking,
// a bounded queue, computation on read, and transactions.
module Reactive {
  import opened Ast
  import opened Values
  import opened ReactiveGraph
  import opened ReactiveSteps
  import opened ReactiveRollback

  class Runtime {
    var formulas: seq<Option<Formula>>
    var marks: seq<Mark>
    var values: seq<Value>
    var previous: seq<Value>
    var versions: seq<nat>
    var counts: seq<nat>
    var deps: seq<seq<nat>>
    var dependents: seq<seq<nat>>
    var queue: seq<nat>
    var computing: Option<nat>
    var inTransaction: bool
    var changes: seq<nat>

    ghost function Look(): View
      reads this
    {
      View(formulas, marks, values, previous, versions, counts, deps)
    }

    /** The state values when the open transaction began. */
    ghost var origin: seq<Value>

    /** Derived nodes that were clean when it began; none of them has been computed since. */
    ghost var steady: set<nat>

    /** Nodes written in the open transaction. */
    ghost function Pending(): set<nat>
      reads this
    {
      if inTransaction then Elements(changes) else {}
    }

    ghost predicate Wired()
      reads this
    {
      Well(Look(), dependents, queue, changes, computing)
    }

    /** What the open transaction can still take back. */
    ghost predicate Ledger()
      requires Wired()
      reads this
    {
      if inTransaction then Recorded(Look(), origin, changes) && Steady(Look(), origin, steady) else changes == []
    }

    /** Between calls from outside: nothing is being computed or waiting to be. */
    ghost predicate Idle()
      reads this
    {
      Wired() && Settled(Look()) && computing.None? && Resting(Look()) && queue == [] && Ledger()
    }

    ghost predicate Sane(den: seq<Value>, rank: seq<nat>)
      requires Wired()
      reads this
    {
      Sound(Look(), Pending()) && Plan(Look(), den, rank)
    }

    /** The node may be read: it is clean, or below everything under way. */
    ghost predicate Readable(m: nat, rank: seq<nat>)
      requires Wired() && m < |formulas| && |rank| == |formulas|
      reads this
    {
      marks[m].Clean? || Under(Look(), rank, rank[m] + 1)
    }

    // ---- Edges ----

    method AddDep(n: nat, d: nat)
      requires |deps| == |dependents| && n < |deps| && d < |deps| && Linked(deps, dependents)
      modifies this`deps, this`dependents
      ensures Linked(deps, dependents)
      ensures deps == if d in old(deps[n]) then old(deps) else old(deps)[n := old(deps[n]) + [d]]
    {
      var i := 0;
      while i < |deps[n]|
        invariant i <= |deps[n]| && d !in deps[n][..i]
      {
        if deps[n][i] == d {
          return;
        }
        i := i + 1;
      }
      assert deps[n][..i] == deps[n];
      Attached(deps, dependents, n, d);
      deps := deps[n := deps[n] + [d]];
      dependents := dependents[d := dependents[d] + [n]];
    }

    method RemoveDependent(d: nat, n: nat)
      requires d < |dependents|
      modifies this`dependents
      ensures dependents == old(dependents)[d := Without(old(dependents[d]), n)]
    {
      var j := 0;
      while j < |dependents[d]|
        invariant j <= |dependents[d]| && n !in dependents[d][..j] && dependents == old(dependents)
      {
        if dependents[d][j] == n {
          WithoutAt(dependents[d], n, j);
          dependents := dependents[d := dependents[d][..j] + dependents[d][j + 1..]];
          return;
        }
        j := j + 1;
      }
      WithoutAbsent(dependents[d], n);
      assert dependents == dependents[d := dependents[d]];
    }

    method RemoveDep(n: nat, d: nat)
      requires Linked(deps, dependents) && n < |deps| && d < |deps|
      modifies this`deps, this`dependents
      ensures Linked(deps, dependents) && deps == old(deps)[n := Without(old(deps[n]), d)]
    {
      ghost var before := deps;
      Detached(deps, dependents, n, d);
      var i := 0;
      while i < |deps[n]| && deps[n][i] != d
        invariant i <= |deps[n]| && d !in deps[n][..i]
      {
        i := i + 1;
      }
      if i < |deps[n]| {
        WithoutAt(deps[n], d, i);
        deps := deps[n := deps[n][..i] + deps[n][i + 1..]];
      } else {
        assert deps[n][..i] == deps[n];
        WithoutAbsent(deps[n], d);
        assert deps == deps[n := deps[n]];
      }
      RemoveDependent(d, n);
    }

    method ClearDeps(n: nat)
      requires Linked(deps, dependents) && n < |deps|
      modifies this`deps, this`dependents
      ensures Linked(deps, dependents) && deps == old(deps)[n := []]
    {
      var i := 0;
      assert deps[n := deps[n][0..]] == deps;
      while i < |deps[n]|
        invariant |deps| == |old(deps)| && deps == old(deps) && i <= |deps[n]|
        invariant Linked(deps[n := deps[n][i..]], dependents)
      {
        ghost var rest := deps[n := deps[n][i..]];
        assert rest[n][0] == deps[n][i] && deps[n][i] in rest[n] && Tidy(rest[n], |rest|);
        Detached(rest, dependents, n, deps[n][i]);
        assert rest[n := Without(rest[n], deps[n][i])] == deps[n := deps[n][i + 1..]];
        RemoveDependent(deps[n][i], n);
        i := i + 1;
      }
      assert deps[n][i..] == [];
      deps := deps[n := []];
    }

    // ---- Reading ----

    method Get(id: nat, ghost den: seq<Value>, ghost rank: seq<nat>) returns (v: Value)
      requires Wired() && Settled(Look())
      modifies this`marks, this`values, this`previous, this`versions, this`counts, this`deps, this`dependents,
               this`computing
      ensures Wired() && Settled(Look()) && computing == old(computing)
      ensures Advanced(old(Look()), Look(), computing)
      ensures if id < |formulas| then v == values[id] && !marks[id].Dirty? else v == Nil && Look() == old(Look())
      ensures id < |formulas| && computing.Some? ==>
                deps[computing.value] == old(With(deps[computing.value], id, computing.value))
      ensures id < |formulas| && old(Sane(den, rank) && Readable(id, rank)) ==>
                Sane(den, rank) && marks[id].Clean? && v == den[id]
      decreases DirtySet(marks), 2
    {
      if id >= |formulas| {
        return Nil;
      }
      ghost var v0 := Look();
      Register(id, den, rank);
      ghost var v1 := Look();
      if marks[id].Dirty? && formulas[id].Some? {
        Recompute(id, den, rank);
        AdvancedAnywhere(v1, Look(), computing);
        AdvancedTransitive(v0, v1, Look(), computing);
        if computing.Some? {
          UnderWayKept(v1, Look(), computing.value);
        }
      }
      if Sane(den, rank) {
        PlanIsCurrent(Look(), den, rank);
      }
      v := values[id];
    }

    /** A read inside a computation makes an edge. */
    method Register(id: nat, ghost den: seq<Value>, ghost rank: seq<nat>)
      requires Wired() && Settled(Look()) && id < |formulas|
      modifies this`deps, this`dependents
      ensures Wired() && SettledBut(Look(), {id}) && Advanced(old(Look()), Look(), computing)
      ensures Look() == old(Look()).(deps := deps)
      ensures computing.None? ==> deps == old(deps)
      ensures computing.Some? ==> deps[computing.value] == old(With(deps[computing.value], id, computing.value))
      ensures old(Sane(den, rank)) ==> Sane(den, rank)
    {
      if computing.Some? {
        ghost var v0 := Look();
        if computing.value != id {
          AddDep(computing.value, id);
        }
        Leaned(v0, Look(), computing.value, Pending(), den, rank);
      }
    }

    method Recompute(m: nat, ghost den: seq<Value>, ghost rank: seq<nat>)
      requires Wired() && m < |formulas| && formulas[m].Some? && marks[m].Dirty? && SettledBut(Look(), {m})
      modifies this`marks, this`values, this`previous, this`versions, this`counts, this`deps, this`dependents,
               this`computing
      ensures Wired() && Settled(Look()) && computing == old(computing)
      ensures Advanced(old(Look()), Look(), None) && marks[m].Clean?
      ensures old(Sane(den, rank) && Readable(m, rank)) ==> Sane(den, rank) && values[m] == den[m]
      decreases DirtySet(marks), 1
    {
      ghost var v0 := Look();
      ghost var sane := Sane(den, rank) && Readable(m, rank);
      var outer := computing;
      BeginComputing(m, den, rank);
      ghost var v1 := Look();
      var result := Compute(m, formulas[m].value, den, rank);
      ghost var v2 := Look();
      CleanStays(v1, v2, Some(m), m);
      if outer.Some? {
        CleanStays(v1, v2, Some(m), outer.value);
      }
      EndComputing(m, outer, result);
      ghost var v3 := Look();
      Refreshed(v0, v1, v2, v3, m);
      if sane {
        assert Planned(v2, den, rank, m);
        ClosedSane(v2, v3, m, Pending(), den, rank);
      }
    }

    /** The first half of a recomputation: old dependencies go, and the node becomes current. */
    method BeginComputing(m: nat, ghost den: seq<Value>, ghost rank: seq<nat>)
      requires Wired() && m < |formulas| && formulas[m].Some? && marks[m].Dirty? && SettledBut(Look(), {m})
      modifies this`marks, this`deps, this`dependents,
               this`computing
      ensures Wired() && computing == Some(m) && Opens(old(Look()), Look(), m) && Settled(Look())
      ensures DirtySet(marks) < old(DirtySet(marks))
      ensures old(Sane(den, rank) && Readable(m, rank)) ==>
                Sane(den, rank) && Ready(Look(), formulas[m].value, m, den, rank)
    {
      ghost var v0 := Look();
      ghost var sane := Sane(den, rank) && Readable(m, rank);
      marks := marks[m := Computing];
      ClearDeps(m);
      computing := Some(m);
      Opened(v0, Look(), m);
      OpeningShrinks(v0, Look(), m);
      if sane {
        OpenedSane(v0, Look(), m, Pending(), den, rank);
      }
    }

    /** The second half: the result is stored if it differs, and the outer computation resumes. */
    method EndComputing(m: nat, outer: Option<nat>, result: Value)
      requires Wired() && computing == Some(m) && formulas[m].Some?
      requires outer.Some? ==> outer.value != m && outer.value < |marks| && marks[outer.value].Computing?
      modifies this`marks, this`values, this`previous, this`versions, this`counts, this`computing
      ensures Wired() && computing == outer && Closes(old(Look()), Look(), m) && values[m] == result
      ensures counts == old(counts[m := counts[m] + 1])
      ensures previous == if old(values[m]) == result then old(previous) else old(previous[m := values[m]])
      ensures versions == if old(values[m]) == result then old(versions) else old(versions[m := versions[m] + 1])
    {
      computing := outer;
      counts := counts[m := counts[m] + 1];
      if values[m] != result {
        previous := previous[m := values[m]];
        values := values[m := result];
        versions := versions[m := versions[m] + 1];
      }
      marks := marks[m := Clean];
    }

    /** Runs the compute function of node `n`. */
    method Compute(n: nat, f: Formula, ghost den: seq<Value>, ghost rank: seq<nat>) returns (v: Value)
      requires Wired() && Settled(Look()) && computing == Some(n)
      modifies this`marks, this`values, this`previous, this`versions, this`counts, this`deps, this`dependents,
               this`computing
      ensures Wired() && Settled(Look()) && computing == Some(n)
      ensures Advanced(old(Look()), Look(), computing)
      ensures old(Sane(den, rank) && Ready(Look(), f, n, den, rank)) ==>
                && Sane(den, rank) && v == Eval(f, den)
                && (forall m :: m in Reads(f, den) ==> marks[m].Clean?)
                && forall m :: m in deps[n] <==> m in old(deps[n]) || m in Reads(f, den)
      decreases DirtySet(marks), 3, f
    {
      ghost var v0 := Look();
      ghost var sane := Sane(den, rank) && Ready(v0, f, n, den, rank);
      match f {
        case Const(c) =>
          v := c;
        case Read(m) =>
          if sane && m < |formulas| {
            assert m in Reads(f, den);
            assert Readable(m, rank);
          }
          v := Get(m, den, rank);
        case Apply(combine, l, r) =>
          var a := Compute(n, l, den, rank);
          ghost var v1 := Look();
          DirtyShrinks(v0, v1, Some(n));
          if sane {
            StaysReady(v0, v1, r, n, den, rank);
          }
          var b := Compute(n, r, den, rank);
          ghost var v2 := Look();
          AdvancedTransitive(v0, v1, v2, Some(n));
          if sane {
            CleanAllStay(v1, v2, n, Reads(l, den));
          }
          v := combine(a, b);
        case Cond(holds, c, yes, no) =>
          var a := Compute(n, c, den, rank);
          ghost var v1 := Look();
          DirtyShrinks(v0, v1, Some(n));
          var branch := if holds(a) then yes else no;
          if sane {
            StaysReady(v0, v1, branch, n, den, rank);
          }
          v := Compute(n, branch, den, rank);
          ghost var v2 := Look();
          AdvancedTransitive(v0, v1, v2, Some(n));
          if sane {
            CleanAllStay(v1, v2, n, Reads(c, den));
          }
      }
    }

    // ---- Creation ----

    constructor ()
      ensures Idle() && formulas == [] && !inTransaction
    {
      formulas, marks, values, previous, versions, counts, deps, dependents := [], [], [], [], [], [], [], [];
      queue, computing, inTransaction, changes, origin, steady := [], None, false, [], [], {};
    }

    method CreateNode(f: Option<Formula>, initial: Value) returns (id: nat)
      requires Idle()
      modifies this`formulas, this`marks, this`values, this`previous, this`versions, this`counts, this`deps,
               this`dependents, this`origin, this`steady
      ensures Idle() && id == |old(formulas)| && Look() == Created(old(Look()), f, initial)
      ensures origin == old(origin) + [initial]
      ensures inTransaction && old(Unawaited(Look())) ==> steady == old(steady)
      ensures old(Sound(Look(), Pending()) && Unawaited(Look())) ==> Sound(Look(), Pending())
    {
      ghost var v0 := Look();
      CreatedSound(v0, f, initial, Pending());
      if inTransaction {
        RecordedCreation(v0, origin, changes, f, initial);
        if !Unawaited(v0) {
          steady := {};
        }
        SteadyGrows(v0, origin, steady, f, initial);
      }
      CreatedWell(v0, dependents, queue, changes, f, initial);
      id := |formulas|;
      Append(f, initial);
    }

    method Append(f: Option<Formula>, initial: Value)
      modifies this`formulas, this`marks, this`values, this`previous, this`versions, this`counts, this`deps,
               this`dependents, this`origin
      ensures Look() == Created(old(Look()), f, initial)
      ensures dependents == old(dependents) + [[]] && origin == old(origin) + [initial]
    {
      formulas, marks := formulas + [f], marks + [if f.None? then Clean else Dirty];
      values, previous := values + [initial], previous + [initial];
      versions, counts := versions + [1], counts + [0];
      deps, dependents, origin := deps + [[]], dependents + [[]], origin + [initial];
    }

    // ---- Invalidation and propagation ----

    method Invalidate(n: nat)
      requires Wired() && n < |formulas|
      requires computing.None?
      modifies this`marks, this`queue
      ensures Wired() && Spent(Look(), n) && Invalidated(old(Look()), old(queue), Look(), queue, n)
      decreases CleanSet(marks)
    {
      ghost var v0, q0 := Look(), queue;
      InvalidatedFrom(v0, q0);
      var i := 0;
      while i < |dependents[n]|
        invariant Wired() && i <= |dependents[n]| && Invalidated(v0, q0, Look(), queue, n)
        invariant Fell(v0, Look())
        invariant forall c :: c in dependents[n][..i] ==> c < |marks| && !marks[c].Clean?
      {
        var dep := dependents[n][i];
        ghost var v1, q1 := Look(), queue;
        assert dep in dependents[n] && Mutual(deps, dependents, dep, n);
        if marks[dep].Clean? {
          MarkDirty(dep);
          CleanSetShrinks(v0, v1, dep);
          ghost var q2 := queue;
          Invalidate(dep);
          InvalidatedOn(v0, q0, v1, q1, n, dep, q2, Look(), queue);
        }
        assert dependents[n][..i + 1] == dependents[n][..i] + [dep];
        i := i + 1;
      }
      assert dependents[n][..i] == dependents[n];
      AllSpent(Look(), dependents, n);
    }

    /** A full queue turns nodes away: they are computed when they are read. */
    method MarkDirty(dep: nat)
      requires Wired() && computing.None? && dep < |formulas| && formulas[dep].Some?
      modifies this`marks, this`queue
      ensures Wired() && Look() == old(Look()).(marks := old(marks)[dep := Dirty])
      ensures queue == if |old(queue)| < QUEUE_CAPACITY then old(queue) + [dep] else old(queue)
    {
      marks := marks[dep := Dirty];
      if |queue| < QUEUE_CAPACITY {
        queue := queue + [dep];
      }
    }

    method Propagate(ghost den: seq<Value>, ghost rank: seq<nat>)
      requires Wired() && Settled(Look()) && computing.None? && Resting(Look())
      modifies this`marks, this`values, this`previous, this`versions, this`counts, this`deps, this`dependents,
               this`computing, this`queue
      ensures Wired() && Settled(Look()) && computing.None? && Resting(Look()) && queue == []
      ensures Advanced(old(Look()), Look(), None)
      ensures forall k :: k in old(queue) ==> !marks[k].Dirty?
      ensures old(Sane(den, rank)) ==> Sane(den, rank)
    {
      ghost var v0 := Look();
      ghost var sane := Sane(den, rank);
      while |queue| > 0
        invariant Wired() && Settled(Look()) && computing.None? && Resting(Look())
        invariant Advanced(v0, Look(), None) && (sane ==> Sane(den, rank))
        invariant forall k :: k in old(queue) && k !in queue ==> k < |marks| && !marks[k].Dirty?
        decreases DirtySet(marks), |queue|
      {
        ghost var v1, before := Look(), queue;
        var node := queue[|queue| - 1];
        queue := queue[..|queue| - 1];
        assert before == queue + [node] && node in before;
        assert forall k :: k in queue ==> k in before;
        if marks[node].Dirty? {
          Recompute(node, den, rank);
          RestingStays(v1, Look());
          NotDirtyStays(v1, Look(), old(queue));
          DirtyShrinks(v1, Look(), None);
          assert node in DirtySet(v1.marks) && node !in DirtySet(marks);
          AdvancedTransitive(v0, v1, Look(), None);
        }
      }
    }

    // ---- Reading and writing from outside ----

    /** A read from outside every computation: acyclic formulas answer with their meaning. */
    method Query(id: nat, ghost den: seq<Value>, ghost rank: seq<nat>) returns (v: Value)
      requires Idle()
      modifies this`marks, this`values, this`previous, this`versions, this`counts, this`deps, this`dependents,
               this`computing
      ensures Idle() && SameStates(old(Look()), Look()) && ComputedOnce(old(Look()), Look())
      ensures old(Sane(den, rank)) ==>
                Sane(den, rank) && v == Of(den, id) && (id < |formulas| ==> marks[id].Clean?)
      ensures old(!inTransaction && Sound(Look(), {}) && Solves(Look(), den, rank)) ==>
                Sound(Look(), {}) && v == Of(den, id)
    {
      ghost var v0 := Look();
      if Sound(v0, {}) && Solves(v0, den, rank) {
        SolutionPlans(v0, den, rank);
      }
      v := Get(id, den, rank);
      RestingStays(v0, Look());
      AdvancedKeepsStates(v0, Look(), None);
      AdvancedComputesOnce(v0, Look(), None);
      if inTransaction {
        RecordedStays(v0, Look(), origin, changes);
        SteadyStays(v0, Look(), origin, steady);
      }
    }

    method Set(id: nat, value: Value, ghost den: seq<Value>, ghost rank: seq<nat>)
      requires Idle() && (inTransaction && Changes(Look(), id, value) ==> |changes| < CHANGES_CAPACITY)
      modifies this
      ensures Idle() && inTransaction == old(inTransaction)
      ensures SameStates(Write(old(Look()), id, value), Look()) && ComputedOnce(old(Look()), Look())
      ensures inTransaction ==>
                && Look() == Write(old(Look()), id, value) && queue == old(queue)
                && (changes == if old(Changes(Look(), id, value)) then old(changes) + [id] else old(changes))
                && origin == old(origin) && steady == old(steady)
                && (old(Sound(Look(), Pending())) ==> Sound(Look(), Pending()))
      ensures !inTransaction && old(Sound(Look(), {})) && Solves(Write(old(Look()), id, value), den, rank) ==>
                Sound(Look(), {}) && Current(Look(), den)
      ensures !inTransaction && old(|Computed(Look())|) <= QUEUE_CAPACITY && old(Changes(Look(), id, value)) ==>
                Renewed(old(Look()), Look(), {id})
      ensures !old(Changes(Look(), id, value)) ==> Look() == old(Look())
    {
      if id >= |formulas| || formulas[id].Some? || values[id] == value {
        if !inTransaction && Sound(Look(), {}) && Solves(Look(), den, rank) {
          SolutionPlans(Look(), den, rank);
          PlanIsCurrent(Look(), den, rank);
        }
        return;
      }
      Store(id, value);
      if !inTransaction {
        assert old(Pending()) + {id} == {id};
        ghost var v1 := Look();
        Spill(id, den, rank);
        if old(|Computed(Look())|) <= QUEUE_CAPACITY {
          RenewedAnyway(old(Look()), v1, Look(), id, value);
        }
      }
    }

    /** The write itself; inside a transaction it is only noted. */
    method Store(id: nat, value: Value)
      requires Idle() && Changes(Look(), id, value) && (inTransaction ==> |changes| < CHANGES_CAPACITY)
      modifies this`values, this`previous, this`versions, this`changes
      ensures Idle() && Look() == Write(old(Look()), id, value)
      ensures changes == if inTransaction then old(changes) + [id] else []
      ensures old(Sound(Look(), Pending())) ==> Sound(Look(), old(Pending()) + {id})
      ensures inTransaction ==> Pending() == old(Pending()) + {id}
    {
      if Sound(Look(), Pending()) {
        WriteSound(Look(), id, value, Pending());
      }
      if inTransaction {
        RecordedWrite(Look(), origin, changes, id, value);
        SteadyWrite(Look(), origin, steady, id, value);
      }
      Overwrite(id, value);
    }

    method Overwrite(id: nat, value: Value)
      requires Wired() && Changes(Look(), id, value)
      modifies this`values, this`previous, this`versions, this`changes
      ensures Look() == Write(old(Look()), id, value)
      ensures changes == if inTransaction then old(changes) + [id] else old(changes)
    {
      previous := previous[id := values[id]];
      values := values[id := value];
      versions := versions[id := versions[id] + 1];
      if inTransaction {
        changes := changes + [id];
      }
    }

    /** Invalidates from a changed node and recomputes what is queued. */
    method Spill(id: nat, ghost den: seq<Value>, ghost rank: seq<nat>)
      requires Idle() && !inTransaction && id < |formulas|
      modifies this`marks, this`values, this`previous, this`versions, this`counts, this`deps, this`dependents,
               this`computing, this`queue
      ensures Idle() && SameStates(old(Look()), Look()) && ComputedOnce(old(Look()), Look())
      ensures old(|Computed(Look())|) <= QUEUE_CAPACITY ==> Renewed(old(Look()), Look(), {id})
      ensures old(Sound(Look(), {id})) && Solves(old(Look()), den, rank) ==> Sound(Look(), {}) && Current(Look(), den)
    {
      ghost var v1 := Look();
      Invalidate(id);
      ghost var v2 := Look();
      SunkNone(v1);
      SunkOn(v1, v1, [], v2, queue, {}, id);
      assert {} + {id} == {id};
      SpreadSound(v1, v2, id, {id});
      assert {id} - {id} == {};
      PropagateFrom(v1, {id}, den, rank);
    }

    /** Recomputes what has fallen since `v0`, where those nodes rest on one of `s`. */
    method PropagateFrom(ghost v0: View, ghost s: set<nat>, ghost den: seq<Value>, ghost rank: seq<nat>)
      requires Wired() && Settled(Look()) && computing.None? && Resting(Look()) && !inTransaction
      requires Shaped(v0) && v0.formulas == formulas && Sunk(v0, Look(), queue, s)
      modifies this`marks, this`values, this`previous, this`versions, this`counts, this`deps, this`dependents,
               this`computing, this`queue
      ensures Wired() && Settled(Look()) && computing.None? && Resting(Look()) && queue == []
      ensures SameStates(v0, Look()) && ComputedOnce(v0, Look()) && Advanced(old(Look()), Look(), None)
      ensures |Computed(v0)| <= QUEUE_CAPACITY ==> Renewed(v0, Look(), s)
      ensures old(Sound(Look(), {})) && Solves(v0, den, rank) ==> Sound(Look(), {}) && Current(Look(), den)
    {
      ghost var v2, q2 := Look(), queue;
      SunkIs(v0, v2, q2, s);
      if Sound(v2, {}) && Solves(v0, den, rank) {
        SpreadPlans(v0, v2, den, rank);
      }
      Propagate(den, rank);
      if |den| == |rank| == |formulas| && Plan(Look(), den, rank) {
        PlanIsCurrent(Look(), den, rank);
      }
      AdvancedKeepsStates(v2, Look(), None);
      AdvancedComputesOnce(v2, Look(), None);
      if |Computed(v0)| <= QUEUE_CAPACITY {
        RenewedAfter(v0, v2, Look(), s, q2);
      }
    }

    // ---- Transactions ----

    /** A transaction inside another forgets what the outer one has written.  The graph stays sound
        exactly if what has read a node written so far is up to date as it is. */
    method Begin()
      requires Idle()
      modifies this`inTransaction, this`changes, this`origin, this`steady
      ensures Idle() && inTransaction && changes == [] && origin == values && Pending() == {}
      ensures old(Sound(Look(), {})) ==> steady == Computed(Look())
      ensures old(Sound(Look(), Pending())) ==> (Sound(Look(), {}) <==> old(TouchedCurrent(Look(), changes)))
      ensures old(Sound(Look(), Pending()) && changes == []) ==> Sound(Look(), {})
    {
      if Sound(Look(), Pending()) {
        assert Pending() == Elements(changes);
        ForgottenSound(Look(), changes);
      }
      inTransaction := true;
      changes := [];
      origin, steady := values, {};
      if Sound(Look(), {}) {
        SteadyBegins(Look());
        steady := Computed(Look());
      }
      assert Pending() == {};
    }

    method Commit(ghost den: seq<Value>, ghost rank: seq<nat>)
      requires Idle()
      modifies this`marks, this`values, this`previous, this`versions, this`counts, this`deps, this`dependents,
               this`computing, this`queue, this`inTransaction, this`changes
      ensures Idle() && !inTransaction
      ensures SameStates(old(Look()), Look()) && ComputedOnce(old(Look()), Look())
      ensures old(inTransaction && Sound(Look(), Pending())) && Solves(old(Look()), den, rank) ==>
                Sound(Look(), {}) && Current(Look(), den)
      ensures old(inTransaction && |Computed(Look())| <= QUEUE_CAPACITY) ==>
                Renewed(old(Look()), Look(), old(Elements(changes)))
      ensures old(!inTransaction) ==> Look() == old(Look())
      ensures old(changes == []) ==> Advanced(old(Look()), Look(), None)
    {
      if !inTransaction {
        return;
      }
      PropagateChanges(den, rank);
      changes := [];
    }

    method PropagateChanges(ghost den: seq<Value>, ghost rank: seq<nat>)
      requires Idle()
      modifies this`marks, this`values, this`previous, this`versions, this`counts, this`deps, this`dependents,
               this`computing, this`queue, this`inTransaction
      ensures Wired() && Settled(Look()) && computing.None? && Resting(Look()) && queue == [] && !inTransaction
      ensures SameStates(old(Look()), Look()) && ComputedOnce(old(Look()), Look())
      ensures old(Sound(Look(), Elements(changes))) && Solves(old(Look()), den, rank) ==>
                Sound(Look(), {}) && Current(Look(), den)
      ensures old(|Computed(Look())|) <= QUEUE_CAPACITY ==> Renewed(old(Look()), Look(), old(Elements(changes)))
      ensures changes == [] ==> Advanced(old(Look()), Look(), None)
    {
      ghost var v0 := Look();
      InvalidateChanges();
      PropagateFrom(v0, Elements(changes), den, rank);
    }

    method InvalidateChanges()
      requires Idle()
      modifies this`marks, this`queue, this`inTransaction
      ensures Wired() && Settled(Look()) && Resting(Look()) && !inTransaction
      ensures Sunk(old(Look()), Look(), queue, Elements(changes)) && formulas == old(formulas)
      ensures old(Sound(Look(), Elements(changes))) ==> Sound(Look(), {})
      ensures changes == [] ==> Look() == old(Look())
    {
      ghost var v0 := Look();
      SunkFirst(v0, changes);
      inTransaction := false;
      var i := 0;
      while i < |changes|
        invariant Wired() && i <= |changes| && !inTransaction && (i == 0 ==> Look() == v0)
        invariant SunkSoFar(v0, Look(), queue, changes, i)
      {
        ghost var v1, q1 := Look(), queue;
        assert changes[i] in changes;
        Invalidate(changes[i]);
        SunkNext(v0, v1, q1, Look(), queue, changes, i);
        i := i + 1;
      }
      SunkLast(v0, Look(), queue, changes);
    }

    /** Each changed node gets back its value from before the last write, which is its value from the
        beginning exactly if that is what it had then.  Derived nodes are not invalidated: the graph
        is sound again exactly if those that have read a changed node are up to date as they are. */
    method Rollback()
      requires Idle()
      modifies this`values, this`inTransaction, this`changes
      ensures Idle() && !inTransaction
      ensures if old(inTransaction) then Look() == RolledBack(old(Look()), old(changes)) else Look() == old(Look())
      ensures old(inTransaction) ==>
                forall k :: 0 <= k < |formulas| && formulas[k].None? ==>
                  (values[k] == origin[k] <==> k !in old(changes) || previous[k] == origin[k])
      ensures old(inTransaction) ==>
                forall k :: 0 <= k < |formulas| && formulas[k].None? && multiset(old(changes))[k] <= 1 ==>
                  values[k] == origin[k]
      ensures old(inTransaction && Sound(Look(), Pending())) ==>
                (Sound(Look(), {}) <==> old(TouchedUpToDate(Look(), changes)))
      ensures old(inTransaction && Undone(Look(), origin, steady, changes)) ==> old(TouchedUpToDate(Look(), changes))
    {
      if !inTransaction {
        return;
      }
      RollbackRestores(Look(), origin, changes);
      if Sound(Look(), Pending()) {
        RolledBackSound(Look(), changes);
      }
      if Undone(Look(), origin, steady, changes) {
        UndoneIsUpToDate(Look(), origin, steady, changes);
      }
      TakeBack();
    }

    method TakeBack()
      requires Idle() && inTransaction
      modifies this`values, this`inTransaction, this`changes
      ensures Look() == RolledBack(old(Look()), old(changes)) && !inTransaction && changes == []
    {
      ghost var v0 := Look();
      assert Restored(v0, []) == values;
      var i := 0;
      while i < |changes|
        invariant changes == old(changes) && i <= |changes| && Look() == RolledBack(v0, changes[..i])
      {
        var node := changes[i];
        assert changes[..i + 1] == changes[..i] + [node] && node in changes;
        assert Restored(v0, changes[..i + 1]) == values[node := previous[node]];
        values := values[node := previous[node]];
        i := i + 1;
      }
      assert changes[..i] == changes;
      inTransaction := false;
      changes := [];
    }
  }
}
