// The test that lets functions of a module run in parallel, and what it justifies.
module Parallelism {
  import opened Ast
  import opened Values

  /** The variables of a module by number. */
  type Memory = map<nat, Value>

  /** A function with the variables it declares to read and to write. */
  datatype Routine = Routine(inputs: seq<nat>, outputs: seq<nat>, effect: Memory -> Memory)

  ghost predicate Alike(f: Routine, m: Memory, n: Memory) {
    m.Keys == n.Keys && forall v :: v in m && (v in f.inputs || v in f.outputs) ==> m[v] == n[v]
  }

  ghost predicate Untouched(f: Routine, m: Memory) {
    f.effect(m).Keys == m.Keys && forall v :: v in m && v !in f.outputs ==> f.effect(m)[v] == m[v]
  }

  ghost predicate Determined(f: Routine, m: Memory, n: Memory)
    requires Untouched(f, m) && Untouched(f, n)
  {
    Alike(f, m, n) ==> forall v :: v in m && v in f.outputs ==> f.effect(m)[v] == f.effect(n)[v]
  }

  /** The function changes nothing but its write set, and what it puts there depends on nothing but
      the variables it declares. */
  ghost predicate Honest(f: Routine) {
    (forall m :: Untouched(f, m)) && forall m, n :: Determined(f, m, n)
  }

  predicate Clear(vars: seq<nat>, others: seq<nat>) {
    forall i, j :: 0 <= i < |vars| && 0 <= j < |others| ==> vars[i] != others[j]
  }

  predicate Independent(f: Routine, g: Routine) {
    Clear(f.outputs, g.inputs) && Clear(f.outputs, g.outputs) && Clear(g.outputs, f.inputs)
  }

  /** The answer is yes exactly for two functions neither of which writes what the other accesses. */
  method CanParallelize(f: Option<Routine>, g: Option<Routine>) returns (yes: bool)
    ensures yes <==> f.Some? && g.Some? && Independent(f.value, g.value)
  {
    if f.None? || g.None? {
      return false;
    }
    var a, b := f.value, g.value;
    var i := 0;
    while i < |a.outputs|
      invariant i <= |a.outputs| && Clear(a.outputs[..i], b.inputs) && Clear(a.outputs[..i], b.outputs)
    {
      var j := 0;
      while j < |b.inputs|
        invariant j <= |b.inputs| && forall k :: 0 <= k < j ==> b.inputs[k] != a.outputs[i]
      {
        if b.inputs[j] == a.outputs[i] {
          return false;
        }
        j := j + 1;
      }
      j := 0;
      while j < |b.outputs|
        invariant j <= |b.outputs| && forall k :: 0 <= k < j ==> b.outputs[k] != a.outputs[i]
      {
        if b.outputs[j] == a.outputs[i] {
          return false;
        }
        j := j + 1;
      }
      assert a.outputs[..i + 1] == a.outputs[..i] + [a.outputs[i]];
      i := i + 1;
    }
    assert a.outputs[..i] == a.outputs;
    i := 0;
    while i < |b.outputs|
      invariant i <= |b.outputs| && Clear(b.outputs[..i], a.inputs)
    {
      var j := 0;
      while j < |a.inputs|
        invariant j <= |a.inputs| && forall k :: 0 <= k < j ==> a.inputs[k] != b.outputs[i]
      {
        if a.inputs[j] == b.outputs[i] {
          return false;
        }
        j := j + 1;
      }
      assert b.outputs[..i + 1] == b.outputs[..i] + [b.outputs[i]];
      i := i + 1;
    }
    assert b.outputs[..i] == b.outputs;
    yes := true;
  }

  lemma ClearMeans(vars: seq<nat>, others: seq<nat>, v: nat)
    requires Clear(vars, others) && v in vars
    ensures v !in others
  {
  }

  lemma IndependentIsSymmetric(f: Routine, g: Routine)
    requires Independent(f, g)
    ensures Independent(g, f)
  {
  }

  /** A write of `g` leaves alone whatever `f` accesses. */
  lemma Apart(f: Routine, g: Routine, m: Memory)
    requires Independent(f, g) && Honest(g)
    ensures Untouched(g, m) && Alike(f, m, g.effect(m))
  {
    assert Untouched(g, m);
    forall v | v in m && (v in f.inputs || v in f.outputs)
      ensures m[v] == g.effect(m)[v]
    {
      if v in g.outputs {
        ClearMeans(g.outputs, f.inputs, v);
        if v in f.outputs {
          ClearMeans(f.outputs, g.outputs, v);
        }
      }
    }
  }

  lemma HalfCommute(f: Routine, g: Routine, m: Memory, v: nat)
    requires Independent(f, g) && Honest(f) && Honest(g) && v in m && v !in g.outputs
    ensures v in g.effect(f.effect(m)) && v in f.effect(g.effect(m))
    ensures g.effect(f.effect(m))[v] == f.effect(g.effect(m))[v]
  {
    Apart(f, g, m);
    assert Untouched(f, m) && Untouched(f, g.effect(m)) && Untouched(g, f.effect(m));
    assert Determined(f, m, g.effect(m));
  }

  lemma Commute(f: Routine, g: Routine, m: Memory)
    requires Independent(f, g) && Honest(f) && Honest(g)
    ensures g.effect(f.effect(m)) == f.effect(g.effect(m))
  {
    IndependentIsSymmetric(f, g);
    assert Untouched(f, m) && Untouched(g, m) && Untouched(f, g.effect(m)) && Untouched(g, f.effect(m));
    forall v | v in m
      ensures g.effect(f.effect(m))[v] == f.effect(g.effect(m))[v]
    {
      if v in g.outputs {
        if v in f.outputs {
          ClearMeans(f.outputs, g.outputs, v);
        }
        HalfCommute(g, f, m, v);
      } else {
        HalfCommute(f, g, m, v);
      }
    }
  }

  // ---- What the test refuses ----

  /** The order can matter: a variable is written by both, or written by one and read by the other, which writes
      something itself. */
  predicate Interfere(f: Routine, g: Routine) {
    || !Clear(f.outputs, g.outputs)
    || (!Clear(f.outputs, g.inputs) && g.outputs != []) || (!Clear(g.outputs, f.inputs) && f.outputs != [])
  }

  /** Puts the same value in each of its variables. */
  function Writer(f: Routine, value: Value): Routine {
    f.(effect := (m: Memory) => map v | v in m :: if v in f.outputs then value else m[v])
  }

  /** Puts there what it finds in the variable `x`. */
  function Copier(f: Routine, x: nat): Routine {
    f.(effect := (m: Memory) => map v | v in m :: if v in f.outputs && x in m then m[x] else m[v])
  }

  lemma WriterIsHonest(f: Routine, value: Value)
    ensures Honest(Writer(f, value))
  {
    var w := Writer(f, value);
    assert forall m :: Untouched(w, m);
    assert forall m, n :: Determined(w, m, n);
  }

  lemma CopierIsHonest(f: Routine, x: nat)
    requires x in f.inputs
    ensures Honest(Copier(f, x))
  {
    var c := Copier(f, x);
    assert forall m :: Untouched(c, m);
    forall m, n
      ensures Determined(c, m, n)
    {
      if Alike(c, m, n) {
        assert forall v :: v in m && v in c.outputs ==> v in n && m[v] == n[v];
      }
    }
  }

  /** A variable that one writes and the other reads and passes on. */
  lemma PassingOn(f: Routine, g: Routine) returns (f': Routine, g': Routine, m: Memory)
    requires Clear(f.outputs, g.outputs) && !Clear(f.outputs, g.inputs) && g.outputs != []
    ensures Honest(f') && Honest(g') && SameLists(f, f') && SameLists(g, g')
    ensures g'.effect(f'.effect(m)) != f'.effect(g'.effect(m))
  {
    var i, j :| 0 <= i < |f.outputs| && 0 <= j < |g.inputs| && f.outputs[i] == g.inputs[j];
    var x, w := f.outputs[i], g.outputs[0];
    assert w in g.outputs && x in f.outputs && x in g.inputs;
    ClearMeans(f.outputs, g.outputs, x);
    assert w !in f.outputs;
    f', g', m := Writer(f, Num(1.0)), Copier(g, x), map[x := Nil, w := Nil];
    WriterIsHonest(f, Num(1.0));
    CopierIsHonest(g, x);
    assert g'.effect(f'.effect(m))[w] == Num(1.0);
    assert f'.effect(g'.effect(m))[w] == Nil;
  }

  predicate SameLists(f: Routine, g: Routine) {
    f.inputs == g.inputs && f.outputs == g.outputs
  }

  /** Where the order can matter there are functions with those variables for which it does. */
  lemma OrderCanMatter(f: Routine, g: Routine) returns (f': Routine, g': Routine, m: Memory)
    requires Interfere(f, g)
    ensures Honest(f') && Honest(g') && SameLists(f, f') && SameLists(g, g')
    ensures g'.effect(f'.effect(m)) != f'.effect(g'.effect(m))
  {
    if !Clear(f.outputs, g.outputs) {
      var i, j :| 0 <= i < |f.outputs| && 0 <= j < |g.outputs| && f.outputs[i] == g.outputs[j];
      var x := f.outputs[i];
      f', g', m := Writer(f, Num(1.0)), Writer(g, Num(2.0)), map[x := Nil];
      WriterIsHonest(f, Num(1.0));
      WriterIsHonest(g, Num(2.0));
      assert g'.effect(f'.effect(m))[x] == Num(2.0) && f'.effect(g'.effect(m))[x] == Num(1.0);
    } else if !Clear(f.outputs, g.inputs) && g.outputs != [] {
      f', g', m := PassingOn(f, g);
    } else {
      g', f', m := PassingOn(g, f);
    }
  }

  /** ... and everywhere else it never does. */
  lemma OrderCannotMatter(f: Routine, g: Routine, m: Memory)
    requires !Interfere(f, g) && Honest(f) && Honest(g)
    ensures g.effect(f.effect(m)) == f.effect(g.effect(m))
  {
    assert Untouched(f, m) && Untouched(g, m) && Untouched(f, g.effect(m)) && Untouched(g, f.effect(m));
    if f.outputs == [] {
      assert f.effect(m) == m && f.effect(g.effect(m)) == g.effect(m);
    } else if g.outputs == [] {
      assert g.effect(m) == m && g.effect(f.effect(m)) == f.effect(m);
    } else {
      Commute(f, g, m);
    }
  }

  /** Besides those, the test refuses only pairs in which one function reads what the other writes, and writes
      nothing. */
  lemma RefusedExactly(f: Routine, g: Routine)
    ensures !Independent(f, g) <==>
            || Interfere(f, g)
            || (!Clear(f.outputs, g.inputs) && g.outputs == []) || (!Clear(g.outputs, f.inputs) && f.outputs == [])
  {
  }

  // ---- Any order ----

  ghost predicate Valid(fs: seq<Routine>, order: seq<nat>) {
    forall k :: 0 <= k < |order| ==> order[k] < |fs|
  }

  /** The functions of the list, in the given order, one after the other. */
  function Run(fs: seq<Routine>, order: seq<nat>, m: Memory): Memory
    requires forall k :: 0 <= k < |order| ==> order[k] < |fs|
  {
    if order == [] then m else Run(fs, order[1..], fs[order[0]].effect(m))
  }

  ghost predicate Pairwise(fs: seq<Routine>) {
    (forall i :: 0 <= i < |fs| ==> Honest(fs[i])) && forall i, j :: 0 <= i < j < |fs| ==> Independent(fs[i], fs[j])
  }

  lemma PairIndependent(fs: seq<Routine>, i: nat, j: nat)
    requires Pairwise(fs) && i < |fs| && j < |fs| && i != j
    ensures Independent(fs[i], fs[j])
  {
    if j < i {
      IndependentIsSymmetric(fs[j], fs[i]);
    }
  }

  lemma RunFirst(fs: seq<Routine>, j: nat, rest: seq<nat>, order: seq<nat>, m: Memory)
    requires order == [j] + rest && Valid(fs, order)
    ensures j < |fs| && Valid(fs, rest) && Run(fs, order, m) == Run(fs, rest, fs[j].effect(m))
  {
    assert order[0] == j && order[1..] == rest;
  }

  /** A function can be moved to the front of all the others. */
  lemma {:induction false} ToFront(fs: seq<Routine>, a: seq<nat>, i: nat, b: seq<nat>, m: Memory)
    requires Pairwise(fs) && i < |fs| && i !in a
    requires Valid(fs, a) && Valid(fs, b)
    ensures Run(fs, a + [i] + b, m) == Run(fs, a + b, fs[i].effect(m))
    decreases |a|
  {
    if a == [] {
      assert a + [i] + b == [i] + b && a + b == b;
      assert ([i] + b)[1..] == b;
    } else {
      var j := a[0];
      assert a == [j] + a[1..] && j in a;
      RunFirst(fs, j, a[1..] + [i] + b, a + [i] + b, m);
      RunFirst(fs, j, a[1..] + b, a + b, fs[i].effect(m));
      ToFront(fs, a[1..], i, b, fs[j].effect(m));
      PairIndependent(fs, i, j);
      Commute(fs[i], fs[j], m);
    }
  }

  ghost predicate Distinct(s: seq<nat>) {
    forall i, j :: 0 <= i < j < |s| ==> s[i] != s[j]
  }

  /** The same functions, each once. */
  ghost predicate Reordered(p: seq<nat>, q: seq<nat>) {
    Distinct(p) && Distinct(q) && forall x :: x in p <==> x in q
  }

  lemma DropFirst(p: seq<nat>, q: seq<nat>) returns (a: seq<nat>, b: seq<nat>)
    requires Reordered(p, q) && p != []
    ensures q == a + [p[0]] + b && p[0] !in a && Reordered(p[1..], a + b)
    ensures a == q[..|a|] && b == q[|a| + 1..]
  {
    assert p[0] in p;
    var k :| 0 <= k < |q| && q[k] == p[0];
    a, b := q[..k], q[k + 1..];
    assert q == a + [p[0]] + b;
    assert p == [p[0]] + p[1..];
    forall x
      ensures x in p[1..] <==> x in a + b
    {
      assert x in q <==> x in a || x == p[0] || x in b;
    }
  }

  lemma HasMember(q: seq<nat>)
    requires q != []
    ensures exists x :: x in q
  {
    assert q[0] in q;
  }

  lemma {:induction false} OrdersAgree(fs: seq<Routine>, p: seq<nat>, q: seq<nat>, m: Memory)
    requires Pairwise(fs) && Reordered(p, q)
    requires Valid(fs, p) && Valid(fs, q)
    ensures Run(fs, p, m) == Run(fs, q, m)
    decreases |p|
  {
    if p == [] {
      if q != [] {
        HasMember(q);
      }
    } else {
      var a, b := DropFirst(p, q);
      ToFront(fs, a, p[0], b, m);
      OrdersAgree(fs, p[1..], a + b, fs[p[0]].effect(m));
    }
  }

  function Upto(n: nat): (s: seq<nat>)
    ensures |s| == n && forall k :: 0 <= k < n ==> s[k] == k
  {
    seq(n, k requires 0 <= k < n => k)
  }

  /** If all functions of a list pass the test pairwise, every order leaves the same memory as the
      order of the list. */
  lemma TestJustifiesAnyOrder(fs: seq<Routine>, order: seq<nat>, m: Memory)
    requires Pairwise(fs) && Reordered(order, Upto(|fs|)) && Valid(fs, order)
    ensures Run(fs, order, m) == Run(fs, Upto(|fs|), m)
  {
    OrdersAgree(fs, order, Upto(|fs|), m);
  }

  /** What the scheduler does with a list of functions for now: one after the other. */
  method ScheduleParallel(fs: seq<Routine>, start: Memory) returns (m: Memory)
    ensures m == Run(fs, Upto(|fs|), start)
  {
    m := start;
    var i := 0;
    while i < |fs|
      invariant i <= |fs| && Run(fs, Upto(|fs|), start) == Run(fs, Upto(|fs|)[i..], m)
    {
      m := fs[i].effect(m);
      i := i + 1;
    }
  }
}
