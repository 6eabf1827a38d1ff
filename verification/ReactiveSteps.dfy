// The single steps of the reactive runtime, on values: edges in both directions, and the views
// before and after each half of a recomputation.
module ReactiveSteps {
  import opened Ast
  import opened Values
  import opened ReactiveGraph

  const QUEUE_CAPACITY: nat := 256
  const CHANGES_CAPACITY: nat := 256

  ghost predicate NoDuplicates(s: seq<nat>) {
    forall i, j :: 0 <= i < j < |s| ==> s[i] != s[j]
  }

  ghost predicate Tidy(s: seq<nat>, n: nat) {
    NoDuplicates(s) && forall x :: x in s ==> x < n
  }

  ghost predicate Mutual(deps: seq<seq<nat>>, dependents: seq<seq<nat>>, k: nat, d: nat)
    requires k < |deps| && d < |dependents|
  {
    d in deps[k] <==> k in dependents[d]
  }

  /** The two directions of every edge agree. */
  ghost predicate Linked(deps: seq<seq<nat>>, dependents: seq<seq<nat>>) {
    && |deps| == |dependents|
    && (forall k :: 0 <= k < |deps| ==> Tidy(deps[k], |deps|) && Tidy(dependents[k], |deps|))
    && (forall k: nat, d: nat :: k < |deps| && d < |deps| ==> Mutual(deps, dependents, k, d))
  }

  /** The dependencies `s` of node `reader` once it has read `d`. */
  function With(s: seq<nat>, d: nat, reader: nat): seq<nat> {
    if d == reader || d in s then s else s + [d]
  }

  function Without(s: seq<nat>, x: nat): seq<nat> {
    if s == [] then [] else if s[0] == x then s[1..] else [s[0]] + Without(s[1..], x)
  }

  lemma {:induction false} WithoutKeepsOthers(s: seq<nat>, x: nat)
    requires NoDuplicates(s)
    ensures NoDuplicates(Without(s, x))
    ensures forall y :: y in Without(s, x) <==> y in s && y != x
  {
    if s != [] && s[0] != x {
      WithoutKeepsOthers(s[1..], x);
      assert s == [s[0]] + s[1..];
      assert forall y :: y in Without(s, x) <==> y == s[0] || y in Without(s[1..], x);
      assert s[0] !in s[1..];
    } else if s != [] {
      assert s == [s[0]] + s[1..];
      assert s[0] !in s[1..];
    }
  }

  lemma {:induction false} WithoutAbsent(s: seq<nat>, x: nat)
    requires x !in s
    ensures Without(s, x) == s
  {
    if s != [] {
      WithoutAbsent(s[1..], x);
    }
  }

  lemma {:induction false} WithoutAt(s: seq<nat>, x: nat, i: nat)
    requires i < |s| && s[i] == x && x !in s[..i]
    ensures Without(s, x) == s[..i] + s[i + 1..]
  {
    if i > 0 {
      assert s[0] == s[..i][0];
      assert s[1..][..i - 1] == s[..i][1..];
      WithoutAt(s[1..], x, i - 1);
    }
  }

  lemma Attached(deps: seq<seq<nat>>, back: seq<seq<nat>>, n: nat, d: nat)
    requires Linked(deps, back) && n < |deps| && d < |deps| && d !in deps[n]
    ensures Linked(deps[n := deps[n] + [d]], back[d := back[d] + [n]])
  {
    var deps', back' := deps[n := deps[n] + [d]], back[d := back[d] + [n]];
    assert Mutual(deps, back, n, d);
    assert Tidy(deps[n], |deps|) && Tidy(back[d], |deps|);
    assert Tidy(deps'[n], |deps|) && Tidy(back'[d], |deps|);
    forall k: nat, e: nat | k < |deps| && e < |deps|
      ensures Mutual(deps', back', k, e)
    {
      assert Mutual(deps, back, k, e);
    }
  }

  lemma Detached(deps: seq<seq<nat>>, back: seq<seq<nat>>, n: nat, d: nat)
    requires Linked(deps, back) && n < |deps| && d < |deps|
    ensures Linked(deps[n := Without(deps[n], d)], back[d := Without(back[d], n)])
  {
    var deps', back' := deps[n := Without(deps[n], d)], back[d := Without(back[d], n)];
    assert Tidy(deps[n], |deps|) && Tidy(back[d], |deps|);
    WithoutKeepsOthers(deps[n], d);
    WithoutKeepsOthers(back[d], n);
    assert Tidy(deps'[n], |deps|) && Tidy(back'[d], |deps|);
    forall k: nat, e: nat | k < |deps| && e < |deps|
      ensures Mutual(deps', back', k, e)
    {
      assert Mutual(deps, back, k, e);
    }
  }

  lemma LinkedExtends(deps: seq<seq<nat>>, back: seq<seq<nat>>)
    requires Linked(deps, back)
    ensures Linked(deps + [[]], back + [[]])
  {
    var deps', back' := deps + [[]], back + [[]];
    forall k | 0 <= k < |deps'|
      ensures Tidy(deps'[k], |deps'|) && Tidy(back'[k], |deps'|)
    {
      if k < |deps| {
        assert Tidy(deps[k], |deps|) && Tidy(back[k], |deps|);
      }
    }
    forall k: nat, e: nat | k < |deps'| && e < |deps'|
      ensures Mutual(deps', back', k, e)
    {
      if k < |deps| && e < |deps| {
        assert Mutual(deps, back, k, e);
      } else if k < |deps| {
        assert Tidy(deps[k], |deps|);
      } else if e < |deps| {
        assert Tidy(back[e], |deps|);
      }
    }
  }

  /** The shape that the runtime always has. */
  ghost predicate Well(w: View, dependents: seq<seq<nat>>, queue: seq<nat>, changes: seq<nat>, computing: Option<nat>) {
    && Shaped(w) && Linked(w.deps, dependents)
    && |queue| <= QUEUE_CAPACITY && (forall k :: k in queue ==> k < |w.formulas|)
    && |changes| <= CHANGES_CAPACITY && (forall k :: k in changes ==> k < |w.formulas| && w.formulas[k].None?)
    && (computing.Some? ==> computing.value < |w.formulas| && w.marks[computing.value].Computing?)
  }

  // ---- The steps of a recomputation, on views ----

  /** What evaluating `f` inside node `n` will read can be read. */
  ghost predicate Ready(w: View, f: Formula, n: nat, den: seq<Value>, rank: seq<nat>)
    requires Shaped(w) && n < |w.formulas|
  {
    && |den| == |rank| == |w.formulas| && w.marks[n].Computing?
    && Under(w, rank, rank[n])
    && forall m :: m in Reads(f, den) ==> w.marks[m].Clean? || rank[m] < rank[n]
  }

  lemma AdvancedAnywhere(v: View, w: View, at: Option<nat>)
    requires Shaped(v) && Shaped(w) && Advanced(v, w, None)
    ensures Advanced(v, w, at)
  {
    forall k | 0 <= k < |v.formulas|
      ensures NodeAdvanced(v, w, at, k)
    {
      assert NodeAdvanced(v, w, None, k);
    }
  }

  lemma UnderWayKept(v: View, w: View, c: nat)
    requires Shaped(v) && Shaped(w) && Advanced(v, w, None) && c < |v.marks| && v.marks[c].Computing?
    ensures w.deps[c] == v.deps[c]
  {
    assert NodeAdvanced(v, w, None, c);
  }

  /** Only the edges of a node under way change. */
  lemma Leaned(v: View, w: View, c: nat, pending: set<nat>, den: seq<Value>, rank: seq<nat>)
    requires Shaped(v) && Shaped(w) && c < |v.formulas| && v.marks[c].Computing? && w == v.(deps := w.deps)
    requires forall k :: 0 <= k < |v.deps| && k != c ==> w.deps[k] == v.deps[k]
    ensures Advanced(v, w, Some(c))
    ensures Sound(v, pending) && Plan(v, den, rank) ==> Sound(w, pending) && Plan(w, den, rank)
  {
    if Sound(v, pending) && Plan(v, den, rank) {
      forall k | 0 <= k < |w.formulas|
        ensures NodeSound(w, pending, k) && Planned(w, den, rank, k)
      {
        assert NodeSound(v, pending, k) && Planned(v, den, rank, k);
      }
    }
  }

  lemma StaysReady(v: View, w: View, f: Formula, n: nat, den: seq<Value>, rank: seq<nat>)
    requires Shaped(v) && Shaped(w) && n < |v.formulas| && Advanced(v, w, Some(n))
    requires Ready(v, f, n, den, rank)
    ensures Ready(w, f, n, den, rank)
  {
    UnderStays(v, w, Some(n), rank, rank[n]);
    CleanStays(v, w, Some(n), n);
    forall m | m in Reads(f, den)
      ensures w.marks[m].Clean? || rank[m] < rank[n]
    {
      CleanStays(v, w, Some(n), m);
    }
  }

  lemma CleanAllStay(v: View, w: View, n: nat, s: set<nat>)
    requires Shaped(v) && Shaped(w) && Advanced(v, w, Some(n))
    requires forall m :: m in s ==> m < |v.marks| && v.marks[m].Clean?
    ensures forall m :: m in s ==> w.marks[m].Clean?
  {
    forall m | m in s
      ensures w.marks[m].Clean?
    {
      CleanStays(v, w, Some(n), m);
    }
  }

  ghost predicate Opens(v: View, w: View, m: nat)
    requires Shaped(v) && m < |v.formulas|
  {
    v.marks[m].Dirty? && v.formulas[m].Some? && w == v.(marks := v.marks[m := Computing], deps := v.deps[m := []])
  }

  lemma Opened(v: View, w: View, m: nat)
    requires Shaped(v) && m < |v.formulas| && Opens(v, w, m) && SettledBut(v, {m})
    ensures Shaped(w) && Settled(w)
  {
  }

  lemma OpeningShrinks(v: View, w: View, m: nat)
    requires Shaped(v) && m < |v.formulas| && Opens(v, w, m)
    ensures DirtySet(w.marks) < DirtySet(v.marks)
  {
    assert m in DirtySet(v.marks) && m !in DirtySet(w.marks);
  }

  lemma OpenedSane(v: View, w: View, m: nat, pending: set<nat>, den: seq<Value>, rank: seq<nat>)
    requires Shaped(v) && m < |v.formulas| && Opens(v, w, m) && Shaped(w)
    requires Sound(v, pending) && Plan(v, den, rank) && Under(v, rank, rank[m] + 1)
    ensures Sound(w, pending) && Plan(w, den, rank) && Ready(w, v.formulas[m].value, m, den, rank)
  {
    forall k | 0 <= k < |w.formulas|
      ensures NodeSound(w, pending, k) && Planned(w, den, rank, k)
    {
      assert NodeSound(v, pending, k) && Planned(v, den, rank, k);
    }
    assert Planned(v, den, rank, m);
  }

  ghost predicate Closes(v: View, w: View, m: nat)
    requires Shaped(v) && m < |v.formulas| && Shaped(w)
  {
    && v.marks[m].Computing? && w.formulas == v.formulas && w.deps == v.deps && w.marks == v.marks[m := Clean]
    && w.values == v.values[m := w.values[m]]
  }

  lemma Refreshed(v0: View, v1: View, v2: View, v3: View, m: nat)
    requires Shaped(v0) && Shaped(v1) && Shaped(v2) && Shaped(v3) && m < |v0.formulas|
    requires Opens(v0, v1, m) && Advanced(v1, v2, Some(m)) && Closes(v2, v3, m) && Settled(v2)
    requires v3.counts == v2.counts[m := v2.counts[m] + 1]
    requires v3.previous == if v3.values[m] == v2.values[m] then v2.previous else v2.previous[m := v2.values[m]]
    requires v3.versions == if v3.values[m] == v2.values[m] then v2.versions else v2.versions[m := v2.versions[m] + 1]
    ensures Settled(v3) && Advanced(v0, v3, None)
  {
    forall k | 0 <= k < |v0.formulas|
      ensures NodeAdvanced(v0, v3, None, k)
    {
      assert NodeAdvanced(v1, v2, Some(m), k);
    }
  }

  lemma ClosedSane(v: View, w: View, m: nat, pending: set<nat>, den: seq<Value>, rank: seq<nat>)
    requires Shaped(v) && Shaped(w) && m < |v.formulas| && Closes(v, w, m) && v.formulas[m].Some?
    requires Sound(v, pending) && Plan(v, den, rank)
    requires w.values[m] == den[m] == Eval(v.formulas[m].value, den)
    requires forall d :: d in Reads(v.formulas[m].value, den) ==> v.marks[d].Clean?
    requires forall d :: d in v.deps[m] <==> d in Reads(v.formulas[m].value, den)
    ensures Sound(w, pending) && Plan(w, den, rank)
  {
    forall k | 0 <= k < |w.formulas|
      ensures NodeSound(w, pending, k)
    {
      assert NodeSound(v, pending, k);
      if k == m {
        forall d | d in Reads(v.formulas[m].value, den)
          ensures den[d] == w.values[d]
        {
          assert Planned(v, den, rank, d);
        }
        EvalAgrees(v.formulas[m].value, den, w.values);
      } else if w.formulas[k].Some? && w.marks[k].Clean? && !Meets(w.deps[k], pending) {
        EvalAgrees(v.formulas[k].value, v.values, w.values);
      }
    }
    forall k | 0 <= k < |w.formulas|
      ensures Planned(w, den, rank, k)
    {
      assert Planned(v, den, rank, k);
    }
  }

  // ---- Invalidation ----

  function CleanSet(marks: seq<Mark>): set<nat> {
    set k | 0 <= k < |marks| && marks[k].Clean?
  }

  /** Only marks change, and only of derived nodes from clean to dirty. */
  ghost predicate Fell(v: View, w: View) {
    && Shaped(v) && Shaped(w) && w == v.(marks := w.marks)
    && forall k :: 0 <= k < |v.marks| ==>
         w.marks[k] == v.marks[k] || (v.marks[k].Clean? && w.marks[k].Dirty? && v.formulas[k].Some?)
  }

  /** No node that depends on `n` still counts as up to date. */
  ghost predicate Spent(w: View, n: nat)
    requires Shaped(w)
  {
    forall c :: 0 <= c < |w.deps| && n in w.deps[c] ==> !w.marks[c].Clean?
  }

  /** Dirt that has arrived at a node has gone on to its dependents. */
  ghost predicate Spread(v: View, w: View) {
    Fell(v, w) && forall k :: 0 <= k < |v.marks| && w.marks[k] != v.marks[k] ==> Spent(w, k)
  }

  lemma SpentStays(v: View, w: View, n: nat)
    requires Fell(v, w) && Spent(v, n)
    ensures Spent(w, n)
  {
  }

  /** Every node whose mark has changed is in the queue. */
  ghost predicate Queued(before: seq<Mark>, after: seq<Mark>, queue: seq<nat>) {
    |before| == |after| && forall k :: 0 <= k < |before| && after[k] != before[k] ==> k in queue
  }

  lemma QueuedOn(m0: seq<Mark>, m1: seq<Mark>, m3: seq<Mark>, dep: nat, q1: seq<nat>, q2: seq<nat>, q3: seq<nat>)
    requires Queued(m0, m1, q1) && dep < |m1| && dep in q2 && q1 <= q2 <= q3
    requires Queued(m1[dep := Dirty], m3, q3)
    ensures Queued(m0, m3, q3)
  {
    forall k | 0 <= k < |m0| && m3[k] != m0[k]
      ensures k in q3
    {
      if k == dep {
        assert k in q2;
      } else if m1[k] != m0[k] {
        assert k in q1;
      }
    }
  }

  lemma QueuedTwice(m0: seq<Mark>, m1: seq<Mark>, m2: seq<Mark>, q1: seq<nat>, q2: seq<nat>)
    requires Queued(m0, m1, q1) && Queued(m1, m2, q2) && q1 <= q2
    ensures Queued(m0, m2, q2)
  {
    forall k | 0 <= k < |m0| && m2[k] != m0[k]
      ensures k in q2
    {
      if m1[k] != m0[k] {
        assert k in q1;
      }
    }
  }

  lemma SpreadOn(u: View, v: View, m: nat, w: View)
    requires Spread(u, v) && m < |v.marks| && v.formulas[m].Some? && v.marks[m].Clean?
    requires Spread(v.(marks := v.marks[m := Dirty]), w) && Spent(w, m)
    ensures Spread(u, w) && Fell(v, w)
  {
    forall k | 0 <= k < |u.marks| && w.marks[k] != u.marks[k]
      ensures Spent(w, k)
    {
      if v.marks[k] != u.marks[k] {
        SpentStays(v, w, k);
      }
    }
  }

  lemma SpreadTransitive(u: View, v: View, w: View)
    requires Spread(u, v) && Spread(v, w)
    ensures Spread(u, w)
  {
    forall k | 0 <= k < |u.marks| && w.marks[k] != u.marks[k]
      ensures Spent(w, k)
    {
      if v.marks[k] != u.marks[k] {
        SpentStays(v, w, k);
      }
    }
  }

  lemma SoundWeakens(v: View, pending: set<nat>, more: set<nat>)
    requires Shaped(v) && Sound(v, pending) && pending <= more
    ensures Sound(v, more)
  {
    forall k | 0 <= k < |v.formulas|
      ensures NodeSound(v, more, k)
    {
      assert NodeSound(v, pending, k);
    }
  }

  /** After invalidation from `n` everything that counts as up to date is, as far as `n` goes. */
  lemma SpreadSound(v: View, w: View, n: nat, pending: set<nat>)
    requires Spread(v, w) && Spent(w, n) && Settled(v) && Resting(v)
    ensures Settled(w)
    ensures Sound(v, pending) ==> Sound(w, pending - {n})
  {
    forall k, d | 0 <= k < |w.deps| && !w.marks[k].Dirty? && d in w.deps[k]
      ensures !w.marks[d].Dirty?
    {
      assert w.marks[d] != v.marks[d] ==> Spent(w, d);
    }
    if Sound(v, pending) {
      forall k | 0 <= k < |w.formulas|
        ensures NodeSound(w, pending - {n}, k)
      {
        assert NodeSound(v, pending, k);
      }
    }
  }

  /** A sound graph from which `n` has been invalidated can be computed afresh. */
  lemma SpreadPlans(v: View, w: View, den: seq<Value>, rank: seq<nat>)
    requires Spread(v, w) && Sound(w, {}) && Solves(v, den, rank)
    ensures Plan(w, den, rank)
  {
    assert SameStates(v, w);
    SameStatesSolve(v, w, den, rank);
    SolutionPlans(w, den, rank);
  }

  /** Every clean node shows what its formula means. */
  ghost predicate Current(w: View, den: seq<Value>)
    requires Shaped(w) && |den| == |w.formulas|
  {
    forall k :: 0 <= k < |den| && w.marks[k].Clean? ==> w.values[k] == den[k]
  }

  lemma PlanIsCurrent(w: View, den: seq<Value>, rank: seq<nat>)
    requires Shaped(w) && Plan(w, den, rank)
    ensures Current(w, den)
  {
    forall k | 0 <= k < |den| && w.marks[k].Clean?
      ensures w.values[k] == den[k]
    {
      assert Planned(w, den, rank, k);
    }
  }

  // ---- What a change reaches ----

  /** Each node of the path depends on the one before it. */
  ghost predicate Path(deps: seq<seq<nat>>, path: seq<nat>) {
    && |path| > 1 && (forall i :: 0 <= i < |path| ==> path[i] < |deps|)
    && forall i :: 0 < i < |path| ==> path[i - 1] in deps[path[i]]
  }

  /** `k` depends on `n`, itself or through others. */
  ghost predicate Rests(deps: seq<seq<nat>>, k: nat, n: nat) {
    exists path :: Path(deps, path) && path[0] == n && path[|path| - 1] == k
  }

  ghost predicate RestsOnAny(deps: seq<seq<nat>>, k: nat, s: set<nat>) {
    exists n :: n in s && Rests(deps, k, n)
  }

  lemma RestsDirectly(deps: seq<seq<nat>>, k: nat, n: nat)
    requires k < |deps| && n < |deps| && n in deps[k]
    ensures Rests(deps, k, n)
  {
    assert Path(deps, [n, k]);
  }

  lemma RestsThrough(deps: seq<seq<nat>>, k: nat, m: nat, n: nat)
    requires m < |deps| && n < |deps| && n in deps[m] && Rests(deps, k, m)
    ensures Rests(deps, k, n)
  {
    var path :| Path(deps, path) && path[0] == m && path[|path| - 1] == k;
    var longer := [n] + path;
    forall i | 0 < i < |longer|
      ensures longer[i - 1] in deps[longer[i]]
    {
      assert longer[i] == path[i - 1] && (i > 1 ==> longer[i - 1] == path[i - 2]);
    }
    assert Path(deps, longer);
  }

  /** Nothing has fallen but what rests on `n`. */
  ghost predicate OnlyBelow(v: View, w: View, n: nat) {
    forall k: nat :: k < |v.marks| && k < |w.marks| && w.marks[k] != v.marks[k] ==> Rests(v.deps, k, n)
  }

  lemma OnlyBelowOn(u: View, v: View, w: View, n: nat, dep: nat)
    requires u.deps == v.deps && |u.marks| == |v.marks| == |w.marks| == |u.deps| && dep < |u.marks| && n < |u.deps|
    requires OnlyBelow(u, v, n) && OnlyBelow(v.(marks := v.marks[dep := Dirty]), w, dep) && n in u.deps[dep]
    ensures OnlyBelow(u, w, n)
  {
    var v' := v.(marks := v.marks[dep := Dirty]);
    RestsDirectly(u.deps, dep, n);
    forall k: nat | k < |u.marks| && w.marks[k] != u.marks[k]
      ensures Rests(u.deps, k, n)
    {
      if k != dep && v.marks[k] == u.marks[k] {
        assert w.marks[k] != v'.marks[k];
        RestsThrough(u.deps, k, dep, n);
      }
    }
  }

  /** Of the clean nodes exactly those that rest on one of `s` have fallen. */
  ghost predicate Fallen(v: View, w: View, s: set<nat>)
    requires Shaped(v) && Shaped(w) && |v.marks| == |w.marks|
  {
    forall k :: 0 <= k < |v.marks| && v.marks[k].Clean? ==> (w.marks[k] == Clean <==> !RestsOnAny(v.deps, k, s))
  }

  /** Dirt goes along a path to its end. */
  lemma {:induction false} PathFalls(v: View, w: View, n: nat, path: seq<nat>)
    requires Spread(v, w) && Spent(w, n) && Settled(v) && Resting(v) && Path(v.deps, path) && path[0] == n
    ensures !w.marks[path[|path| - 1]].Clean?
    decreases |path|
  {
    var last := |path| - 1;
    var m, k := path[last - 1], path[last];
    assert m in v.deps[k];
    if last > 1 {
      var shorter := path[..last];
      assert Path(v.deps, shorter);
      PathFalls(v, w, n, shorter);
      assert w.marks[m] != v.marks[m] ==> Spent(w, m);
    }
  }

  lemma FallenFrom(v: View, w: View, n: nat)
    requires Spread(v, w) && Spent(w, n) && Settled(v) && Resting(v) && OnlyBelow(v, w, n)
    ensures Fallen(v, w, {n})
  {
    forall k | 0 <= k < |v.marks| && v.marks[k].Clean?
      ensures w.marks[k] == Clean <==> !RestsOnAny(v.deps, k, {n})
    {
      if RestsOnAny(v.deps, k, {n}) {
        var path :| Path(v.deps, path) && path[0] == n && path[|path| - 1] == k;
        PathFalls(v, w, n, path);
      } else {
        assert n in {n};
      }
    }
  }

  lemma FallenTwice(u: View, v: View, w: View, s: set<nat>, n: nat)
    requires Fell(u, v) && Fell(v, w) && Fallen(u, v, s) && Fallen(v, w, {n})
    ensures Fallen(u, w, s + {n})
  {
    forall k | 0 <= k < |u.marks| && u.marks[k].Clean?
      ensures w.marks[k] == Clean <==> !RestsOnAny(u.deps, k, s + {n})
    {
      assert RestsOnAny(u.deps, k, s + {n}) <==> RestsOnAny(u.deps, k, s) || RestsOnAny(u.deps, k, {n});
    }
  }

  /** Computed afresh, once, and clean: the version has moved exactly if the value has. */
  ghost predicate NodeRenewed(v: View, w: View, k: nat)
    requires Shaped(v) && Shaped(w) && v.formulas == w.formulas && k < |v.formulas|
  {
    && w.marks[k].Clean? && w.counts[k] == v.counts[k] + 1
    && w.previous[k] == (if w.values[k] == v.values[k] then v.previous[k] else v.values[k])
    && w.versions[k] == (if w.values[k] == v.values[k] then v.versions[k] else v.versions[k] + 1)
  }

  /** Of the clean derived nodes those that rest on one of `s` are computed afresh and the others are as they
      were: all are clean. */
  ghost predicate Renewed(v: View, w: View, s: set<nat>)
    requires Shaped(v) && Shaped(w) && v.formulas == w.formulas
  {
    forall k :: 0 <= k < |v.formulas| && v.formulas[k].Some? && v.marks[k].Clean? ==>
      if RestsOnAny(v.deps, k, s) then NodeRenewed(v, w, k) else NodeKept(v, w, k)
  }

  lemma RenewedAfter(u: View, v: View, w: View, s: set<nat>, queue: seq<nat>)
    requires Fell(u, v) && Fallen(u, v, s) && Queued(u.marks, v.marks, queue)
    requires Shaped(w) && Advanced(v, w, None) && Resting(w)
    requires forall k :: k in queue && k < |w.marks| ==> !w.marks[k].Dirty?
    ensures Renewed(u, w, s)
  {
    forall k | 0 <= k < |u.formulas| && u.formulas[k].Some? && u.marks[k].Clean?
      ensures if RestsOnAny(u.deps, k, s) then NodeRenewed(u, w, k) else NodeKept(u, w, k)
    {
      assert NodeAdvanced(v, w, None, k);
      assert RestsOnAny(u.deps, k, s) ==> k in queue;
    }
  }

  // ---- Room in the queue ----

  /** The clean derived nodes. */
  function Computed(v: View): set<nat>
    requires |v.formulas| == |v.marks|
  {
    set k | 0 <= k < |v.formulas| && v.formulas[k].Some? && v.marks[k].Clean?
  }

  lemma OneLess(v: View, m: nat)
    requires Shaped(v) && m < |v.formulas| && v.formulas[m].Some? && v.marks[m].Clean?
    ensures var w := v.(marks := v.marks[m := Dirty]); Shaped(w) && |Computed(w)| == |Computed(v)| - 1
  {
    var w := v.(marks := v.marks[m := Dirty]);
    assert Computed(v) == Computed(w) + {m} && m !in Computed(w);
  }

  // ---- Invalidation from one node ----

  /** From `v` and queue `q` to `w` and queue `r`: dirt has spread to nodes that rest on `n`, and those that have
      fallen are queued as long as there is room. */
  ghost predicate HasInvalidated(v: View, q: seq<nat>, w: View, r: seq<nat>, n: nat) {
    && Spread(v, w) && OnlyBelow(v, w, n)
    && q <= r && |r| + |Computed(w)| <= |q| + |Computed(v)|
    && (|q| + |Computed(v)| <= QUEUE_CAPACITY ==> Queued(v.marks, w.marks, r))
  }

  ghost predicate IsView(v: View, w: View) {
    v == w
  }

  /** The quantifier keeps provers from unfolding what that means where it does not matter. */
  ghost predicate Invalidated(v: View, q: seq<nat>, w: View, r: seq<nat>, n: nat) {
    forall x :: IsView(x, w) ==> HasInvalidated(v, q, x, r, n)
  }

  lemma InvalidatedIs(v: View, q: seq<nat>, w: View, r: seq<nat>, n: nat)
    ensures Invalidated(v, q, w, r, n) <==> HasInvalidated(v, q, w, r, n)
  {
    assert IsView(w, w);
  }

  /** ... and then on from a dependent of `n` that has been marked and queued. */
  lemma InvalidatedOn(u: View, q: seq<nat>, v: View, r: seq<nat>, n: nat, dep: nat, r': seq<nat>, w: View, t: seq<nat>)
    requires Shaped(v) && Invalidated(u, q, v, r, n) && n < |v.formulas|
    requires dep < |v.formulas| && v.formulas[dep].Some? && v.marks[dep].Clean? && n in v.deps[dep]
    requires r' == if |r| < QUEUE_CAPACITY then r + [dep] else r
    requires Invalidated(v.(marks := v.marks[dep := Dirty]), r', w, t, dep) && Shaped(w) && Spent(w, dep)
    ensures Invalidated(u, q, w, t, n) && Fell(v, w) && Fell(u, w) && !w.marks[dep].Clean?
  {
    var v' := v.(marks := v.marks[dep := Dirty]);
    InvalidatedIs(u, q, v, r, n);
    InvalidatedIs(v', r', w, t, dep);
    InvalidatedIs(u, q, w, t, n);
    OneLess(v, dep);
    SpreadOn(u, v, dep, w);
    OnlyBelowOn(u, v, w, n, dep);
    if |q| + |Computed(u)| <= QUEUE_CAPACITY {
      QueuedOn(u.marks, v.marks, w.marks, dep, r, r', t);
    }
  }

  /** Dirt has spread from all of `s`, to what rests on one of them, and there is room left for what is clean. */
  ghost predicate HasSunk(v: View, w: View, q: seq<nat>, s: set<nat>) {
    && Spread(v, w) && Fallen(v, w, s)
    && |q| + |Computed(w)| <= |Computed(v)|
    && (|Computed(v)| <= QUEUE_CAPACITY ==> Queued(v.marks, w.marks, q))
  }

  ghost predicate Sunk(v: View, w: View, q: seq<nat>, s: set<nat>) {
    forall x :: IsView(x, w) ==> HasSunk(v, x, q, s)
  }

  lemma SunkIs(v: View, w: View, q: seq<nat>, s: set<nat>)
    ensures Sunk(v, w, q, s) <==> HasSunk(v, w, q, s)
  {
    assert IsView(w, w);
  }

  lemma SunkOn(u: View, v: View, q: seq<nat>, w: View, r: seq<nat>, s: set<nat>, n: nat)
    requires Sunk(u, v, q, s) && Shaped(v) && Settled(v) && Resting(v)
    requires Invalidated(v, q, w, r, n) && Shaped(w) && Spent(w, n)
    ensures Sunk(u, w, r, s + {n}) && Spread(v, w)
  {
    SunkIs(u, v, q, s);
    SunkIs(u, w, r, s + {n});
    InvalidatedIs(v, q, w, r, n);
    FallenFrom(v, w, n);
    FallenTwice(u, v, w, s, n);
    SpreadTransitive(u, v, w);
    if |Computed(u)| <= QUEUE_CAPACITY {
      QueuedTwice(u.marks, v.marks, w.marks, q, r);
    }
  }

  lemma AllSpent(w: View, dependents: seq<seq<nat>>, n: nat)
    requires Shaped(w) && Linked(w.deps, dependents) && n < |w.deps|
    requires forall c :: c in dependents[n] ==> c < |w.marks| && !w.marks[c].Clean?
    ensures Spent(w, n)
  {
    forall c | 0 <= c < |w.deps| && n in w.deps[c]
      ensures !w.marks[c].Clean?
    {
      assert Mutual(w.deps, dependents, c, n);
    }
  }

  lemma CleanSetShrinks(v: View, w: View, dep: nat)
    requires Fell(v, w) && dep < |w.marks| && w.marks[dep].Clean?
    ensures CleanSet(w.marks[dep := Dirty]) < CleanSet(v.marks)
  {
    assert dep in CleanSet(v.marks) && dep !in CleanSet(w.marks[dep := Dirty]);
  }

  lemma InvalidatedFrom(v: View, q: seq<nat>)
    requires Shaped(v)
    ensures forall n :: Invalidated(v, q, v, q, n)
  {
    forall n: nat
      ensures Invalidated(v, q, v, q, n)
    {
      InvalidatedIs(v, q, v, q, n);
    }
  }

  // ---- Writing ----

  predicate Changes(v: View, id: nat, value: Value) {
    id < |v.formulas| && id < |v.values| && v.formulas[id].None? && v.values[id] != value
  }

  /** A write that changes a state node moves its version; any other write does nothing. */
  function Write(v: View, id: nat, value: Value): View
    requires |v.previous| == |v.values| == |v.versions|
  {
    if Changes(v, id, value) then
      v.(previous := v.previous[id := v.values[id]], values := v.values[id := value],
         versions := v.versions[id := v.versions[id] + 1])
    else v
  }

  ghost predicate SameStates(v: View, w: View) {
    && Shaped(v) && Shaped(w) && v.formulas == w.formulas
    && forall k :: 0 <= k < |v.formulas| && v.formulas[k].None? ==> NodeKept(v, w, k)
  }

  lemma AdvancedKeepsStates(v: View, w: View, at: Option<nat>)
    requires Shaped(v) && Shaped(w) && Advanced(v, w, at)
    ensures SameStates(v, w)
  {
    forall k | 0 <= k < |v.formulas| && v.formulas[k].None?
      ensures NodeKept(v, w, k)
    {
      assert NodeAdvanced(v, w, at, k);
    }
  }

  lemma SameStatesSolve(v: View, w: View, den: seq<Value>, rank: seq<nat>)
    requires SameStates(v, w) && Solves(v, den, rank)
    ensures Solves(w, den, rank)
  {
    forall k | 0 <= k < |den|
      ensures Denotes(w, den, rank, k)
    {
      assert Denotes(v, den, rank, k);
      if w.formulas[k].None? {
        assert NodeKept(v, w, k);
      }
    }
  }

  /** A write by itself computes nothing and moves no edge. */
  lemma RenewedAnyway(u: View, v: View, w: View, id: nat, value: Value)
    requires Shaped(u) && Shaped(v) && Shaped(w) && v == Write(u, id, value) && u.formulas == w.formulas
    requires Renewed(v, w, {id})
    ensures Renewed(u, w, {id})
  {
    forall k | 0 <= k < |u.formulas| && u.formulas[k].Some? && u.marks[k].Clean?
      ensures if RestsOnAny(u.deps, k, {id}) then NodeRenewed(u, w, k) else NodeKept(u, w, k)
    {
      assert if RestsOnAny(v.deps, k, {id}) then NodeRenewed(v, w, k) else NodeKept(v, w, k);
    }
  }

  lemma WriteSound(v: View, id: nat, value: Value, pending: set<nat>)
    requires Shaped(v) && Sound(v, pending) && Changes(v, id, value)
    ensures Shaped(Write(v, id, value)) && Sound(Write(v, id, value), pending + {id})
  {
    var w := Write(v, id, value);
    forall k | 0 <= k < |w.formulas|
      ensures NodeSound(w, pending + {id}, k)
    {
      assert NodeSound(v, pending, k);
      if w.formulas[k].Some? && w.marks[k].Clean? && !Meets(w.deps[k], pending + {id}) {
        assert !Meets(v.deps[k], pending);
        EvalAgrees(w.formulas[k].value, v.values, w.values);
      }
    }
  }

  /** No node computed more than once, and state nodes never. */
  ghost predicate ComputedOnce(v: View, w: View)
    requires Shaped(v) && Shaped(w)
  {
    && v.formulas == w.formulas
    && forall k :: 0 <= k < |v.counts| ==>
         v.counts[k] <= w.counts[k] <= v.counts[k] + if v.formulas[k].Some? then 1 else 0
  }

  lemma NotDirtyStays(v: View, w: View, s: seq<nat>)
    requires Shaped(v) && Shaped(w) && Advanced(v, w, None)
    ensures forall k :: k in s && k < |v.marks| && !v.marks[k].Dirty? ==> !w.marks[k].Dirty?
  {
    forall k | k in s && k < |v.marks| && !v.marks[k].Dirty?
      ensures !w.marks[k].Dirty?
    {
      assert NodeAdvanced(v, w, None, k);
    }
  }

  lemma AdvancedComputesOnce(v: View, w: View, at: Option<nat>)
    requires Shaped(v) && Shaped(w) && Advanced(v, w, at)
    ensures ComputedOnce(v, w)
  {
    forall k | 0 <= k < |v.counts|
      ensures v.counts[k] <= w.counts[k] <= v.counts[k] + if v.formulas[k].Some? then 1 else 0
    {
      assert NodeAdvanced(v, w, at, k);
    }
  }

  ghost predicate Resting(w: View) {
    forall k :: 0 <= k < |w.marks| ==> !w.marks[k].Computing?
  }

  lemma RestingStays(v: View, w: View)
    requires Shaped(v) && Shaped(w) && Resting(v) && Advanced(v, w, None)
    ensures Resting(w)
  {
    forall k | 0 <= k < |w.marks|
      ensures !w.marks[k].Computing?
    {
      CleanStays(v, w, None, k);
    }
  }

  // ---- New nodes ----

  lemma {:induction false} EvalExtends(f: Formula, u: seq<Value>, x: Value)
    requires !Mentions(f, |u|)
    ensures Eval(f, u + [x]) == Eval(f, u) && Reads(f, u + [x]) == Reads(f, u)
    decreases f
  {
    match f
    case Const(_) =>
    case Read(_) =>
    case Apply(_, l, r) =>
      EvalExtends(l, u, x);
      EvalExtends(r, u, x);
    case Cond(holds, c, y, n) =>
      EvalExtends(c, u, x);
      EvalExtends(y, u, x);
      EvalExtends(n, u, x);
  }

  function Created(v: View, f: Option<Formula>, initial: Value): View {
    View(v.formulas + [f], v.marks + [if f.None? then Clean else Dirty], v.values + [initial],
         v.previous + [initial], v.versions + [1], v.counts + [0], v.deps + [[]])
  }

  /** No clean node has looked for a node that did not exist yet. */
  ghost predicate Unawaited(v: View)
    requires Shaped(v)
  {
    forall k :: 0 <= k < |v.formulas| && v.formulas[k].Some? && v.marks[k].Clean? ==>
      !Mentions(v.formulas[k].value, |v.formulas|)
  }

  lemma CreatedSound(v: View, f: Option<Formula>, initial: Value, pending: set<nat>)
    requires Shaped(v)
    ensures Shaped(Created(v, f, initial))
    ensures Settled(v) ==> Settled(Created(v, f, initial))
    ensures Sound(v, pending) && Unawaited(v) ==> Sound(Created(v, f, initial), pending)
  {
    var w := Created(v, f, initial);
    if Sound(v, pending) && Unawaited(v) {
      forall k | 0 <= k < |w.formulas|
        ensures NodeSound(w, pending, k)
      {
        if k < |v.formulas| {
          assert NodeSound(v, pending, k);
          if w.formulas[k].Some? && w.marks[k].Clean? {
            EvalExtends(w.formulas[k].value, v.values, initial);
          }
        }
      }
    }
  }

  lemma CreatedWell(v: View, dependents: seq<seq<nat>>, queue: seq<nat>, changes: seq<nat>,
                    f: Option<Formula>, initial: Value)
    requires Well(v, dependents, queue, changes, None)
    ensures Well(Created(v, f, initial), dependents + [[]], queue, changes, None)
  {
    LinkedExtends(v.deps, dependents);
  }

  // ---- What an open transaction can take back ----

  function Elements(s: seq<nat>): set<nat> {
    set d | d in s
  }

  lemma ElementsBeforeNext(s: seq<nat>, i: nat)
    requires i < |s|
    ensures Elements(s[..i + 1]) == Elements(s[..i]) + {s[i]}
  {
    assert s[..i + 1] == s[..i] + [s[i]];
  }

  // ---- Invalidation from several nodes ----

  /** Invalidation has come as far as the first `i` of the changes. */
  ghost predicate SunkSoFar(v: View, w: View, q: seq<nat>, changes: seq<nat>, i: nat)
    requires i <= |changes|
  {
    && Sunk(v, w, q, Elements(changes[..i])) && Shaped(v) && Shaped(w) && Settled(w) && Resting(w)
    && (Sound(v, Elements(changes)) ==> Sound(w, Elements(changes[i..])))
  }

  lemma SunkNext(u: View, v: View, q: seq<nat>, w: View, r: seq<nat>, changes: seq<nat>, i: nat)
    requires i < |changes| && SunkSoFar(u, v, q, changes, i)
    requires Invalidated(v, q, w, r, changes[i]) && Shaped(w) && Spent(w, changes[i])
    ensures SunkSoFar(u, w, r, changes, i + 1)
  {
    SunkOn(u, v, q, w, r, Elements(changes[..i]), changes[i]);
    ElementsBeforeNext(changes, i);
    SpreadSound(v, w, changes[i], Elements(changes[i..]));
    if Sound(u, Elements(changes)) {
      ElementsAfterFirst(changes, i);
      SoundWeakens(w, Elements(changes[i..]) - {changes[i]}, Elements(changes[i + 1..]));
    }
    RestingFalls(v, w);
  }

  lemma RestingFalls(v: View, w: View)
    requires Fell(v, w) && Resting(v)
    ensures Resting(w)
  {
  }

  lemma SunkNone(v: View)
    requires Shaped(v)
    ensures Sunk(v, v, [], {})
  {
    SunkIs(v, v, [], {});
  }

  lemma SunkFirst(v: View, changes: seq<nat>)
    requires Shaped(v) && Settled(v) && Resting(v)
    ensures SunkSoFar(v, v, [], changes, 0)
  {
    assert changes[0..] == changes && Elements(changes[..0]) == {};
    SunkNone(v);
  }

  lemma SunkLast(v: View, w: View, q: seq<nat>, changes: seq<nat>)
    requires SunkSoFar(v, w, q, changes, |changes|)
    ensures Sunk(v, w, q, Elements(changes)) && Shaped(v) && Shaped(w) && (Sound(v, Elements(changes)) ==> Sound(w, {}))
  {
    assert changes[..|changes|] == changes && Elements(changes[|changes|..]) == {};
  }

  lemma ElementsAfterFirst(s: seq<nat>, i: nat)
    requires i < |s|
    ensures Elements(s[i..]) - {s[i]} <= Elements(s[i + 1..])
  {
    assert s[i..] == [s[i]] + s[i + 1..];
  }

  ghost predicate Recoverable(v: View, origin: seq<Value>, changes: seq<nat>, k: nat)
    requires Shaped(v) && k < |v.formulas| == |origin|
  {
    v.formulas[k].None? ==>
      && (k !in changes ==> v.values[k] == origin[k])
      && (multiset(changes)[k] == 1 ==> v.previous[k] == origin[k])
  }

  /** `origin` holds the state values from before the `changes`: whatever was not written still has
      its value, and whatever was written once has it as its previous one. */
  ghost predicate Recorded(v: View, origin: seq<Value>, changes: seq<nat>)
    requires Shaped(v)
  {
    |origin| == |v.formulas| && forall k :: 0 <= k < |origin| ==> Recoverable(v, origin, changes, k)
  }

  lemma RecordedWrite(v: View, origin: seq<Value>, changes: seq<nat>, id: nat, value: Value)
    requires Shaped(v) && Recorded(v, origin, changes) && Changes(v, id, value)
    ensures Shaped(Write(v, id, value)) && Recorded(Write(v, id, value), origin, changes + [id])
  {
    forall k | 0 <= k < |origin|
      ensures Recoverable(Write(v, id, value), origin, changes + [id], k)
    {
      assert Recoverable(v, origin, changes, k);
      assert multiset(changes + [id]) == multiset(changes) + multiset{id};
    }
  }

  lemma RecordedCreation(v: View, origin: seq<Value>, changes: seq<nat>, f: Option<Formula>, initial: Value)
    requires Shaped(v) && Recorded(v, origin, changes) && forall k :: k in changes ==> k < |v.formulas|
    ensures Shaped(Created(v, f, initial)) && Recorded(Created(v, f, initial), origin + [initial], changes)
  {
    forall k | 0 <= k < |origin| + 1
      ensures Recoverable(Created(v, f, initial), origin + [initial], changes, k)
    {
      if k < |origin| {
        assert Recoverable(v, origin, changes, k);
      }
    }
  }

  lemma RecordedStays(v: View, w: View, origin: seq<Value>, changes: seq<nat>)
    requires SameStates(v, w) && Recorded(v, origin, changes)
    ensures Recorded(w, origin, changes)
  {
    forall k | 0 <= k < |origin|
      ensures Recoverable(w, origin, changes, k)
    {
      assert Recoverable(v, origin, changes, k);
    }
  }

  function Restored(v: View, changes: seq<nat>): (values: seq<Value>)
    requires |v.previous| == |v.values|
    ensures |values| == |v.values|
  {
    seq(|v.values|, k requires 0 <= k < |v.values| => if k in changes then v.previous[k] else v.values[k])
  }

  /** Rolling back gives every state node that was written at most once its old value. */
  lemma RestoredOrigin(v: View, origin: seq<Value>, changes: seq<nat>, k: nat)
    requires Shaped(v) && Recorded(v, origin, changes) && k < |origin| && v.formulas[k].None?
    requires multiset(changes)[k] <= 1
    ensures Restored(v, changes)[k] == origin[k]
  {
    assert Recoverable(v, origin, changes, k);
    assert k in changes <==> multiset(changes)[k] > 0;
  }

  /** A node that was written twice comes back with the first of the two writes. */
  lemma RollbackAfterTwoWrites(v: View, id: nat, first: Value, second: Value)
    requires Shaped(v) && Changes(v, id, first) && first != second
    ensures var w := Write(Write(v, id, first), id, second); Restored(w, [id, id])[id] == first != v.values[id]
  {
  }
}
