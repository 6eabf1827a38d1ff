// The chain of environment frames, and the one flat map it stands for.
module Scopes {
  import opened Ast

  const FRAME_SLOTS: nat := 256

  datatype Binding<+V> = Binding(key: string, value: V)

  type Frame<+V> = seq<Binding<V>>

  /** A frame with its parents; `Nowhere` is the null environment. */
  datatype Chain<+V> = Nowhere | Scope(frame: Frame<V>, parent: Chain<V>)

  function IndexOf<V>(f: Frame<V>, name: string): (i: nat)
    ensures i <= |f|
    ensures i < |f| ==> f[i].key == name
    ensures forall k :: 0 <= k < i ==> f[k].key != name
  {
    if |f| == 0 || f[0].key == name then 0 else 1 + IndexOf(f[1..], name)
  }

  /** The number of frames. */
  function Depth<V>(c: Chain<V>): nat {
    if c.Scope? then 1 + Depth(c.parent) else 0
  }

  predicate Binds<V>(f: Frame<V>, name: string) {
    IndexOf(f, name) < |f|
  }

  predicate Has<V>(c: Chain<V>, name: string) {
    c.Scope? && (Binds(c.frame, name) || Has(c.parent, name))
  }

  function Get<V>(c: Chain<V>, name: string): Option<V> {
    match c
    case Nowhere => None
    case Scope(f, parent) => if Binds(f, name) then Some(f[IndexOf(f, name)].value) else Get(parent, name)
  }

  /** Updates where the name is bound; otherwise binds it in the innermost frame, if there is room. */
  function Set<V>(c: Chain<V>, name: string, v: V): (r: Chain<V>)
    ensures Depth(r) == Depth(c)
  {
    match c
    case Nowhere => c
    case Scope(f, parent) =>
      if Binds(f, name) then Scope(f[IndexOf(f, name) := Binding(name, v)], parent)
      else if Has(parent, name) then Scope(f, Set(parent, name, v))
      else if |f| < FRAME_SLOTS then Scope(f + [Binding(name, v)], parent)
      else c
  }

  /** The last binding takes the place of the one that goes. */
  function DropAt<V>(f: Frame<V>, i: nat): Frame<V>
    requires i < |f|
  {
    if i < |f| - 1 then f[i := f[|f| - 1]][..|f| - 1] else f[..|f| - 1]
  }

  function Remove<V>(c: Chain<V>, name: string): (r: Chain<V>)
    ensures Depth(r) == Depth(c)
  {
    match c
    case Nowhere => c
    case Scope(f, parent) =>
      if Binds(f, name) then Scope(DropAt(f, IndexOf(f, name)), parent) else Scope(f, Remove(parent, name))
  }

  // ---- The flat map ----

  function Keys<V>(f: Frame<V>): (keys: set<string>)
    ensures forall n :: n in keys <==> Binds(f, n)
  {
    if f == [] then {} else {f[0].key} + Keys(f[1..])
  }

  function FrameMap<V>(f: Frame<V>): map<string, V> {
    map n | n in Keys(f) :: f[IndexOf(f, n)].value
  }

  function Flat<V>(c: Chain<V>): map<string, V> {
    match c
    case Nowhere => map[]
    case Scope(f, parent) => Flat(parent) + FrameMap(f)
  }

  predicate KeysDiffer<V>(f: Frame<V>, i: nat, j: nat)
    requires i < |f| && j < |f|
  {
    f[i].key != f[j].key
  }

  ghost predicate DistinctKeys<V>(f: Frame<V>) {
    forall i, j :: 0 <= i < j < |f| ==> KeysDiffer(f, i, j)
  }

  ghost predicate Apart<V>(outer: Chain<V>, f: Frame<V>) {
    forall name :: Binds(f, name) ==> !Has(outer, name)
  }

  /** No name is bound twice, in one frame or in two. */
  ghost predicate Unshadowed<V>(c: Chain<V>) {
    c.Scope? ==> Unshadowed(c.parent) && DistinctKeys(c.frame) && Apart(c.parent, c.frame)
  }

  lemma FrameMapBinds<V>(f: Frame<V>, name: string)
    ensures Binds(f, name) <==> name in FrameMap(f)
    ensures Binds(f, name) ==> FrameMap(f)[name] == f[IndexOf(f, name)].value
  {
    if Binds(f, name) {
      assert f[IndexOf(f, name)].key == name;
    }
  }

  lemma IndexOfUnique<V>(f: Frame<V>, i: nat)
    requires DistinctKeys(f) && i < |f|
    ensures IndexOf(f, f[i].key) == i
  {
    var j := IndexOf(f, f[i].key);
    assert j < i ==> KeysDiffer(f, j, i);
  }

  /** Reading the chain is reading the map. */
  lemma {:induction false} GetIsLookup<V>(c: Chain<V>, name: string)
    ensures Has(c, name) <==> name in Flat(c)
    ensures Get(c, name) == if name in Flat(c) then Some(Flat(c)[name]) else None
    decreases c
  {
    if c.Scope? {
      GetIsLookup(c.parent, name);
      FrameMapBinds(c.frame, name);
    }
  }

  lemma UpdateFrame<V>(f: Frame<V>, i: nat, v: V)
    requires DistinctKeys(f) && i < |f|
    ensures DistinctKeys(f[i := Binding(f[i].key, v)])
    ensures FrameMap(f[i := Binding(f[i].key, v)]) == FrameMap(f)[f[i].key := v]
  {
    var f' := f[i := Binding(f[i].key, v)];
    forall j, k | 0 <= j < k < |f'|
      ensures KeysDiffer(f', j, k)
    {
      assert KeysDiffer(f, j, k);
    }
    forall name
      ensures Binds(f', name) <==> Binds(f, name)
      ensures Binds(f, name) ==> IndexOf(f', name) == IndexOf(f, name)
    {
      if Binds(f, name) {
        IndexOfUnique(f', IndexOf(f, name));
      }
      if Binds(f', name) {
        IndexOfUnique(f, IndexOf(f', name));
      }
    }
    forall name
      ensures name in FrameMap(f') <==> name in FrameMap(f)[f[i].key := v]
      ensures name in FrameMap(f') ==> FrameMap(f')[name] == FrameMap(f)[f[i].key := v][name]
    {
      FrameMapBinds(f, name);
      FrameMapBinds(f', name);
      IndexOfUnique(f, i);
    }
  }

  lemma GrowFrame<V>(f: Frame<V>, name: string, v: V)
    requires DistinctKeys(f) && !Binds(f, name)
    ensures DistinctKeys(f + [Binding(name, v)])
    ensures FrameMap(f + [Binding(name, v)]) == FrameMap(f)[name := v]
    ensures forall n :: Binds(f + [Binding(name, v)], n) <==> Binds(f, n) || n == name
  {
    var f' := f + [Binding(name, v)];
    forall j, k | 0 <= j < k < |f'|
      ensures KeysDiffer(f', j, k)
    {
      assert k < |f| ==> KeysDiffer(f, j, k);
    }
    assert f'[|f|].key == name;
    forall n
      ensures Binds(f', n) <==> Binds(f, n) || n == name
      ensures Binds(f, n) ==> IndexOf(f', n) == IndexOf(f, n)
    {
      if Binds(f, n) {
        IndexOfUnique(f', IndexOf(f, n));
      }
    }
    IndexOfUnique(f', |f|);
    forall n
      ensures n in FrameMap(f') <==> n in FrameMap(f)[name := v]
      ensures n in FrameMap(f') ==> FrameMap(f')[n] == FrameMap(f)[name := v][n]
    {
      FrameMapBinds(f, n);
      FrameMapBinds(f', n);
    }
  }

  lemma DropAtKeys<V>(f: Frame<V>, i: nat)
    requires DistinctKeys(f) && i < |f|
    ensures var f' := DropAt(f, i); |f'| == |f| - 1 && DistinctKeys(f')
    ensures forall k :: 0 <= k < |f| - 1 ==> DropAt(f, i)[k] == f[if k == i then |f| - 1 else k]
  {
    var f' := DropAt(f, i);
    forall j, k | 0 <= j < k < |f'|
      ensures KeysDiffer(f', j, k)
    {
      assert KeysDiffer(f, j, if k == i then |f| - 1 else k);
      assert j == i ==> KeysDiffer(f, k, |f| - 1);
    }
  }

  lemma ShrinkBinds<V>(f: Frame<V>, i: nat, n: string)
    requires DistinctKeys(f) && i < |f|
    ensures var f' := DropAt(f, i);
            && (Binds(f', n) <==> Binds(f, n) && n != f[i].key)
            && (Binds(f', n) ==> f'[IndexOf(f', n)] == f[IndexOf(f, n)])
  {
    var f' := DropAt(f, i);
    DropAtKeys(f, i);
    IndexOfUnique(f, i);
    if Binds(f', n) {
      var j := IndexOf(f', n);
      IndexOfUnique(f, if j == i then |f| - 1 else j);
    } else if Binds(f, n) && n != f[i].key {
      var j := IndexOf(f, n);
      IndexOfUnique(f', if j == |f| - 1 then i else j);
    }
  }

  ghost predicate Loses<V>(small: map<string, V>, large: map<string, V>, key: string, n: string) {
    (n in small <==> n in large && n != key) && (n in small ==> small[n] == large[n])
  }

  lemma LosesOne<V>(small: map<string, V>, large: map<string, V>, key: string)
    requires forall n :: Loses(small, large, key, n)
    ensures small == large - {key}
  {
    assert forall n :: n in small <==> n in large && n != key by {
      forall n
        ensures n in small <==> n in large && n != key
      {
        assert Loses(small, large, key, n);
      }
    }
    forall n | n in small
      ensures small[n] == large[n]
    {
      assert Loses(small, large, key, n);
    }
  }

  lemma ShrinkMap<V>(f: Frame<V>, i: nat, n: string)
    requires DistinctKeys(f) && i < |f|
    ensures Loses(FrameMap(DropAt(f, i)), FrameMap(f), f[i].key, n)
  {
    ShrinkBinds(f, i, n);
    FrameMapBinds(f, n);
    FrameMapBinds(DropAt(f, i), n);
  }

  lemma ShrinkFrame<V>(f: Frame<V>, i: nat)
    requires DistinctKeys(f) && i < |f|
    ensures DistinctKeys(DropAt(f, i))
    ensures FrameMap(DropAt(f, i)) == FrameMap(f) - {f[i].key}
    ensures forall n :: Binds(DropAt(f, i), n) <==> Binds(f, n) && n != f[i].key
  {
    DropAtKeys(f, i);
    forall n
      ensures Binds(DropAt(f, i), n) <==> Binds(f, n) && n != f[i].key
    {
      ShrinkBinds(f, i, n);
    }
    forall n
      ensures Loses(FrameMap(DropAt(f, i)), FrameMap(f), f[i].key, n)
    {
      ShrinkMap(f, i, n);
    }
    LosesOne(FrameMap(DropAt(f, i)), FrameMap(f), f[i].key);
  }

  /** There is a binding to change or a slot for a new one. */
  predicate Takes<V>(c: Chain<V>, name: string) {
    c.Scope? && (Has(c, name) || |c.frame| < FRAME_SLOTS)
  }

  lemma SameDomain<V>(c: Chain<V>, d: Chain<V>, name: string, v: V)
    requires Flat(d) == Flat(c)[name := v]
    ensures forall n :: Has(d, n) <==> Has(c, n) || n == name
  {
    forall n
      ensures Has(d, n) <==> Has(c, n) || n == name
    {
      GetIsLookup(c, n);
      GetIsLookup(d, n);
    }
  }

  lemma RemovedNames<V>(c: Chain<V>, d: Chain<V>, name: string)
    requires Flat(d) == Flat(c) - {name}
    ensures forall n :: Has(d, n) <==> Has(c, n) && n != name
  {
    forall n
      ensures Has(d, n) <==> Has(c, n) && n != name
    {
      GetIsLookup(c, n);
      GetIsLookup(d, n);
    }
  }

  lemma MergeUpdates<V>(outer: map<string, V>, inner: map<string, V>, name: string, v: V)
    ensures outer + inner[name := v] == (outer + inner)[name := v]
    ensures name !in inner ==> outer[name := v] + inner == (outer + inner)[name := v]
  {
  }

  lemma MergeRemovals<V>(outer: map<string, V>, inner: map<string, V>, name: string)
    ensures name !in inner ==> (outer - {name}) + inner == (outer + inner) - {name}
    ensures name !in outer ==> outer + (inner - {name}) == (outer + inner) - {name}
  {
  }

  ghost predicate SetWell<V>(c: Chain<V>, name: string, v: V) {
    && Unshadowed(Set(c, name, v))
    && Flat(Set(c, name, v)) == if Takes(c, name) then Flat(c)[name := v] else Flat(c)
  }

  lemma SetInner<V>(f: Frame<V>, parent: Chain<V>, name: string, v: V)
    requires Unshadowed(Scope(f, parent)) && Binds(f, name)
    ensures SetWell(Scope(f, parent), name, v)
  {
    MergeUpdates(Flat(parent), FrameMap(f), name, v);
    UpdateFrame(f, IndexOf(f, name), v);
    FrameMapBinds(f, name);
  }

  lemma SetNew<V>(f: Frame<V>, parent: Chain<V>, name: string, v: V)
    requires Unshadowed(Scope(f, parent)) && !Binds(f, name) && !Has(parent, name) && |f| < FRAME_SLOTS
    ensures SetWell(Scope(f, parent), name, v)
  {
    MergeUpdates(Flat(parent), FrameMap(f), name, v);
    GrowFrame(f, name, v);
  }

  lemma SetOuter<V>(f: Frame<V>, parent: Chain<V>, name: string, v: V)
    requires Unshadowed(Scope(f, parent)) && !Binds(f, name) && Has(parent, name) && SetWell(parent, name, v)
    ensures SetWell(Scope(f, parent), name, v)
  {
    SameDomain(parent, Set(parent, name, v), name, v);
    MergeUpdates(Flat(parent), FrameMap(f), name, v);
    FrameMapBinds(f, name);
  }

  /** Setting is map update, and keeps names unshadowed. */
  lemma {:induction false} SetIsUpdate<V>(c: Chain<V>, name: string, v: V)
    requires Unshadowed(c)
    ensures Unshadowed(Set(c, name, v))
    ensures Flat(Set(c, name, v)) == if Takes(c, name) then Flat(c)[name := v] else Flat(c)
    decreases c
  {
    match c
    case Nowhere =>
    case Scope(f, parent) =>
      if !Binds(f, name) && Has(parent, name) {
        SetIsUpdate(parent, name, v);
        SetOuter(f, parent, name, v);
      } else if Binds(f, name) {
        SetInner(f, parent, name, v);
      } else if |f| < FRAME_SLOTS {
        SetNew(f, parent, name, v);
      }
  }

  ghost predicate RemoveWell<V>(c: Chain<V>, name: string) {
    Unshadowed(Remove(c, name)) && Flat(Remove(c, name)) == Flat(c) - {name}
  }

  lemma RemoveInner<V>(f: Frame<V>, parent: Chain<V>, name: string)
    requires Unshadowed(Scope(f, parent)) && Binds(f, name)
    ensures RemoveWell(Scope(f, parent), name)
  {
    GetIsLookup(parent, name);
    ShrinkFrame(f, IndexOf(f, name));
    MergeRemovals(Flat(parent), FrameMap(f), name);
  }

  lemma RemoveOuter<V>(f: Frame<V>, parent: Chain<V>, name: string)
    requires Unshadowed(Scope(f, parent)) && !Binds(f, name) && RemoveWell(parent, name)
    ensures RemoveWell(Scope(f, parent), name)
  {
    RemovedNames(parent, Remove(parent, name), name);
    FrameMapBinds(f, name);
    MergeRemovals(Flat(parent), FrameMap(f), name);
  }

  /** Removing is map subtraction. */
  lemma {:induction false} RemoveIsSubtraction<V>(c: Chain<V>, name: string)
    requires Unshadowed(c)
    ensures Unshadowed(Remove(c, name)) && Flat(Remove(c, name)) == Flat(c) - {name}
    decreases c
  {
    match c
    case Nowhere =>
    case Scope(f, parent) =>
      if Binds(f, name) {
        RemoveInner(f, parent, name);
      } else {
        RemoveIsSubtraction(parent, name);
        RemoveOuter(f, parent, name);
      }
  }

  // ---- A scope from its push to its pop ----

  /** `Inside` is a push, actions, and the pop that belongs to it. */
  datatype Action<+V> = Assign(name: string, value: V) | Forget(name: string) | Inside(actions: seq<Action<V>>)

  function Push<V>(c: Chain<V>): Chain<V> {
    Scope([], c)
  }

  function Pop<V>(c: Chain<V>): Chain<V> {
    match c
    case Nowhere => c
    case Scope(_, parent) => parent
  }

  function Act<V>(c: Chain<V>, a: Action<V>): (r: Chain<V>)
    ensures Depth(r) == Depth(c)
    decreases a
  {
    match a
    case Assign(name, v) => Set(c, name, v)
    case Forget(name) => Remove(c, name)
    case Inside(actions) => Pop(ActAll(Push(c), actions))
  }

  function ActAll<V>(c: Chain<V>, actions: seq<Action<V>>): (r: Chain<V>)
    ensures Depth(r) == Depth(c)
    decreases actions
  {
    if actions == [] then c else Act(ActAll(c, actions[..|actions| - 1]), actions[|actions| - 1])
  }

  predicate Forgets<V>(a: Action<V>, name: string)
    decreases a
  {
    match a
    case Assign(_, _) => false
    case Forget(n) => n == name
    case Inside(actions) => Forgotten(actions, name)
  }

  predicate Forgotten<V>(actions: seq<Action<V>>, name: string)
    decreases actions
  {
    exists i :: 0 <= i < |actions| && Forgets(actions[i], name)
  }

  lemma ForgottenLast<V>(actions: seq<Action<V>>, name: string)
    requires actions != []
    ensures var front, last := actions[..|actions| - 1], actions[|actions| - 1];
            Forgotten(actions, name) <==> Forgotten(front, name) || Forgets(last, name)
  {
    var front, last := actions[..|actions| - 1], actions[|actions| - 1];
    assert actions == front + [last];
  }

  /** The chain without its `d` innermost frames. */
  function Outer<V>(c: Chain<V>, d: nat): Chain<V>
    decreases d
  {
    if d == 0 then c else Outer(Pop(c), d - 1)
  }

  lemma {:induction false} SetKeepsOuter<V>(c: Chain<V>, name: string, v: V, d: nat, n: string)
    requires Unshadowed(c) && d > 0
    ensures Has(Outer(Set(c, name, v), d), n) <==> Has(Outer(c, d), n)
    decreases c
  {
    if c.Scope? && !Binds(c.frame, name) && Has(c.parent, name) {
      if d == 1 {
        SetIsUpdate(c.parent, name, v);
        SameDomain(c.parent, Set(c.parent, name, v), name, v);
      } else {
        SetKeepsOuter(c.parent, name, v, d - 1, n);
      }
    }
  }

  lemma {:induction false} OuterHasLess<V>(c: Chain<V>, d: nat, n: string)
    requires Has(Outer(c, d), n)
    ensures Has(c, n)
    decreases d
  {
    if d > 0 {
      OuterHasLess(Pop(c), d - 1, n);
    }
  }

  lemma {:induction false} RemoveInOuter<V>(c: Chain<V>, name: string, d: nat, n: string)
    requires Unshadowed(c) && d > 0
    ensures Has(Outer(Remove(c, name), d), n) <==> Has(Outer(c, d), n) && n != name
    decreases c
  {
    if c.Scope? {
      if Binds(c.frame, name) {
        if Has(Outer(c.parent, d - 1), name) {
          OuterHasLess(c.parent, d - 1, name);
        }
      } else if d == 1 {
        RemoveIsSubtraction(c.parent, name);
        RemovedNames(c.parent, Remove(c.parent, name), name);
      } else {
        RemoveInOuter(c.parent, name, d - 1, n);
      }
    } else if Has(Outer(c, d), n) {
      OuterHasLess(c, d, n);
    }
  }

  lemma {:induction false} ActUnshadowed<V>(c: Chain<V>, a: Action<V>)
    requires Unshadowed(c)
    ensures Unshadowed(Act(c, a))
    decreases a
  {
    match a
    case Assign(name, v) => SetIsUpdate(c, name, v);
    case Forget(name) => RemoveIsSubtraction(c, name);
    case Inside(actions) => ActAllUnshadowed(Push(c), actions);
  }

  lemma {:induction false} ActAllUnshadowed<V>(c: Chain<V>, actions: seq<Action<V>>)
    requires Unshadowed(c)
    ensures Unshadowed(ActAll(c, actions))
    decreases actions
  {
    if actions != [] {
      ActAllUnshadowed(c, actions[..|actions| - 1]);
      ActUnshadowed(ActAll(c, actions[..|actions| - 1]), actions[|actions| - 1]);
    }
  }

  /** Below the innermost frames names can only be forgotten. */
  lemma {:induction false} ActInOuter<V>(c: Chain<V>, a: Action<V>, d: nat, n: string)
    requires Unshadowed(c) && d > 0
    ensures Has(Outer(Act(c, a), d), n) <==> Has(Outer(c, d), n) && !Forgets(a, n)
    decreases a
  {
    match a
    case Assign(name, v) => SetKeepsOuter(c, name, v, d, n);
    case Forget(name) => RemoveInOuter(c, name, d, n);
    case Inside(actions) =>
      ActAllInOuter(Push(c), actions, d + 1, n);
      assert Outer(Push(c), d + 1) == Outer(c, d);
      assert Outer(ActAll(Push(c), actions), d + 1) == Outer(Act(c, a), d);
  }

  lemma {:induction false} ActAllInOuter<V>(c: Chain<V>, actions: seq<Action<V>>, d: nat, n: string)
    requires Unshadowed(c) && d > 0
    ensures Has(Outer(ActAll(c, actions), d), n) <==> Has(Outer(c, d), n) && !Forgotten(actions, n)
    decreases actions
  {
    if actions != [] {
      var front := actions[..|actions| - 1];
      ActAllInOuter(c, front, d, n);
      ActAllUnshadowed(c, front);
      ActInOuter(ActAll(c, front), actions[|actions| - 1], d, n);
      ForgottenLast(actions, n);
    }
  }

  /** Whatever happens between a push and its pop, further scopes included, the pop leaves exactly the
      names that were bound before and have not been removed, each with the value it had last; the
      names first bound since are gone. */
  lemma PopDropsExactlyTheNewNames<V>(c: Chain<V>, actions: seq<Action<V>>, n: string)
    requires Unshadowed(c)
    ensures var last := ActAll(Push(c), actions);
            && (n in Flat(Pop(last)) <==> n in Flat(c) && !Forgotten(actions, n))
            && (n in Flat(Pop(last)) ==> n in Flat(last) && Flat(Pop(last))[n] == Flat(last)[n])
  {
    var last := ActAll(Push(c), actions);
    ActAllUnshadowed(Push(c), actions);
    ActAllInOuter(Push(c), actions, 1, n);
    assert Outer(last, 1) == Pop(last) && Outer(Push(c), 1) == c;
    GetIsLookup(c, n);
    GetIsLookup(Pop(last), n);
    FrameMapBinds(last.frame, n);
  }
}
