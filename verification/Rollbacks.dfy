// Transactions that are rolled back, from beginning to end.
module Rollbacks {
  import opened Ast
  import opened Values
  import opened ReactiveGraph
  import opened ReactiveSteps
  import opened ReactiveRollback
  import opened Reactive
  import opened Batching

  /** A transaction of writes alone, rolled back.  A state node has its first value again exactly if
      none of the writes changed it, or if it had that value before the last one that did; and if all
      nodes have, the graph is as sound as it was. */
  method WriteAndRollBack(rt: Runtime, writes: Writes, ghost rank: seq<nat>)
    requires rt.Idle() && !rt.inTransaction && |ChangedBy(rt.Look(), writes)| <= CHANGES_CAPACITY
    modifies rt
    ensures rt.Idle() && !rt.inTransaction && rt.formulas == old(rt.formulas)
    ensures forall k :: 0 <= k < |rt.formulas| && rt.formulas[k].None? ==>
              && rt.values[k] == BeforeLast(old(rt.Look()), writes, k)
              && (rt.values[k] == old(rt.values)[k]
                  <==> k !in ChangedBy(old(rt.Look()), writes)
                       || BeforeLast(old(rt.Look()), writes, k) == old(rt.values)[k])
    ensures old(Sound(rt.Look(), {}) && ComesBack(rt.Look(), writes)) ==> Sound(rt.Look(), {})
  {
    ghost var v0 := rt.Look();
    WriteInTransaction(rt, writes, rank);
    if Sound(v0, {}) && ComesBack(v0, writes) {
      WritesUndone(v0, writes);
    }
    rt.Rollback();
    AllRestored(v0, writes);
  }

  method WriteInTransaction(rt: Runtime, writes: Writes, ghost rank: seq<nat>)
    requires rt.Idle() && !rt.inTransaction && |ChangedBy(rt.Look(), writes)| <= CHANGES_CAPACITY
    modifies rt
    ensures rt.Idle() && rt.inTransaction && rt.origin == old(rt.values)
    ensures rt.Look() == WriteAll(old(rt.Look()), writes) && rt.changes == ChangedBy(old(rt.Look()), writes)
    ensures old(Sound(rt.Look(), {})) ==> rt.steady == Computed(old(rt.Look())) && Sound(rt.Look(), rt.Pending())
  {
    rt.Begin();
    WriteEach(rt, writes, rank);
  }

  lemma AllRestored(v: View, writes: Writes)
    requires |v.previous| == |v.values| == |v.versions|
    ensures forall k :: 0 <= k < |v.values| ==>
              Restored(WriteAll(v, writes), ChangedBy(v, writes))[k] == BeforeLast(v, writes, k)
    ensures forall k :: 0 <= k < |v.values| && k !in ChangedBy(v, writes) ==> BeforeLast(v, writes, k) == v.values[k]
  {
    forall k | 0 <= k < |v.values|
      ensures Restored(WriteAll(v, writes), ChangedBy(v, writes))[k] == BeforeLast(v, writes, k)
      ensures k !in ChangedBy(v, writes) ==> BeforeLast(v, writes, k) == v.values[k]
    {
      LastWrites(v, writes, k);
    }
  }

  /** Every node that the writes change had its first value before its last change. */
  ghost predicate ComesBack(v: View, writes: Writes)
    requires Shaped(v)
  {
    forall k :: k in ChangedBy(v, writes) ==> k < |v.values| && BeforeLast(v, writes, k) == v.values[k]
  }

  lemma {:induction false} WritesKeepComputed(v: View, writes: Writes)
    requires Shaped(v)
    ensures Shaped(WriteAll(v, writes)) && Computed(WriteAll(v, writes)) == Computed(v)
    decreases |writes|
  {
    if writes != [] {
      WritesKeepComputed(v, writes[..|writes| - 1]);
    }
  }

  lemma WritesUndone(v: View, writes: Writes)
    requires Shaped(v) && ComesBack(v, writes)
    ensures Shaped(WriteAll(v, writes))
    ensures Undone(WriteAll(v, writes), v.values, Computed(v), ChangedBy(v, writes))
  {
    WritesKeepComputed(v, writes);
    forall k | k in ChangedBy(v, writes)
      ensures WriteAll(v, writes).previous[k] == v.values[k]
    {
      LastWrites(v, writes, k);
    }
    forall k | Touched(WriteAll(v, writes), ChangedBy(v, writes), k)
      ensures k in Computed(v)
    {
      assert k in Computed(WriteAll(v, writes));
    }
  }

  /** A state node and a derived one that shows it, not yet computed; the state has been written
      `writes` times. */
  function Pair(value: Value, before: Value, writes: nat): View {
    View([None, Some(Read(0))], [Clean, Dirty], [value, Nil], [before, Nil], [1 + writes, 1], [0, 0], [[], []])
  }

  method NewPair() returns (rt: Runtime)
    ensures fresh(rt) && rt.Idle() && !rt.inTransaction && rt.Look() == Pair(Num(0.0), Num(0.0), 0)
    ensures Sound(rt.Look(), {})
  {
    rt := new Runtime();
    var _ := rt.CreateNode(None, Num(0.0));
    var _ := rt.CreateNode(Some(Read(0)), Nil);
  }

  method WritePair(rt: Runtime)
    requires rt.Idle() && !rt.inTransaction && rt.Look() == Pair(Num(0.0), Num(0.0), 0) && Sound(rt.Look(), {})
    modifies rt
    ensures rt.Idle() && rt.inTransaction && rt.Look() == Pair(Num(1.0), Num(0.0), 1) && rt.changes == [0]
    ensures Sound(rt.Look(), rt.Pending())
  {
    rt.Begin();
    assert Changes(rt.Look(), 0, Num(1.0));
    rt.Set(0, Num(1.0), [], []);
  }

  method ReadPair(rt: Runtime)
    requires rt.Idle() && rt.inTransaction && rt.Look() == Pair(Num(1.0), Num(0.0), 1) && rt.changes == [0]
    requires Sound(rt.Look(), rt.Pending())
    modifies rt
    ensures rt.Idle() && rt.inTransaction && rt.changes == [0] && rt.formulas == [None, Some(Read(0))]
    ensures rt.values == [Num(1.0), Num(1.0)] && rt.previous[0] == Num(0.0) && rt.marks == [Clean, Clean]
  {
    ghost var den, rank, v0 := [Num(1.0), Num(1.0)], [0, 1], rt.Look();
    assert Planned(v0, den, rank, 0) && Planned(v0, den, rank, 1);
    var _ := rt.Query(1, den, rank);
    assert NodeKept(v0, rt.Look(), 0);
    PlanIsCurrent(rt.Look(), den, rank);
  }

  /** A derived node that is computed inside the transaction stays as it is: after the rollback it is
      clean and shows the value that was taken back, although its state node, changed once, has its
      first value again. */
  method RollbackLeavesStale() returns (rt: Runtime)
    ensures rt.Idle() && !rt.inTransaction && rt.formulas == [None, Some(Read(0))]
    ensures rt.values == [Num(0.0), Num(1.0)] && rt.marks == [Clean, Clean]
    ensures !Sound(rt.Look(), {})
  {
    rt := NewPair();
    WritePair(rt);
    ReadPair(rt);
    ghost var v := rt.Look();
    rt.Rollback();
    assert rt.values == Restored(v, [0]) == [Num(0.0), Num(1.0)];
    assert !NodeSound(rt.Look(), {}, 1);
  }

  /** A transaction begun inside another: the derived node, computed before, is not invalidated when
      the transaction is committed, and stays behind. */
  method SecondBeginLeavesStale() returns (rt: Runtime)
    ensures rt.Idle() && !rt.inTransaction && rt.formulas == [None, Some(Read(0))]
    ensures rt.values == [Num(1.0), Num(0.0)] && rt.marks == [Clean, Clean]
    ensures !Sound(rt.Look(), {})
  {
    rt := NewPair();
    ShowPair(rt);
    WriteAndBeginAgain(rt);
    ghost var v := rt.Look();
    rt.Commit([], []);
    assert NodeAdvanced(v, rt.Look(), None, 0) && NodeAdvanced(v, rt.Look(), None, 1);
    BehindIsUnsound(rt.Look());
  }

  method WriteAndBeginAgain(rt: Runtime)
    requires rt.Idle() && !rt.inTransaction && rt.formulas == [None, Some(Read(0))]
    requires rt.values == [Num(0.0), Num(0.0)] && rt.marks == [Clean, Clean]
    modifies rt
    ensures rt.Idle() && rt.inTransaction && rt.changes == [] && rt.formulas == [None, Some(Read(0))]
    ensures rt.values == [Num(1.0), Num(0.0)] && rt.marks == [Clean, Clean]
  {
    rt.Begin();
    assert Changes(rt.Look(), 0, Num(1.0));
    rt.Set(0, Num(1.0), [], []);
    rt.Begin();
  }

  lemma BehindIsUnsound(v: View)
    requires Shaped(v) && v.formulas == [None, Some(Read(0))] && v.marks == [Clean, Clean]
    requires v.values == [Num(1.0), Num(0.0)]
    ensures !Sound(v, {})
  {
    assert Eval(Read(0), v.values) == Num(1.0);
    assert !NodeSound(v, {}, 1);
  }

  method ShowPair(rt: Runtime)
    requires rt.Idle() && !rt.inTransaction && rt.Look() == Pair(Num(0.0), Num(0.0), 0) && Sound(rt.Look(), {})
    modifies rt
    ensures rt.Idle() && !rt.inTransaction && rt.formulas == [None, Some(Read(0))]
    ensures rt.values == [Num(0.0), Num(0.0)] && rt.marks == [Clean, Clean] && |rt.previous| == |rt.versions| == 2
  {
    ghost var den, rank, v0 := [Num(0.0), Num(0.0)], [0, 1], rt.Look();
    assert Planned(v0, den, rank, 0) && Planned(v0, den, rank, 1);
    var _ := rt.Query(1, den, rank);
    assert NodeKept(v0, rt.Look(), 0);
    PlanIsCurrent(rt.Look(), den, rank);
  }
}
