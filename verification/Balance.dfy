// The law of the counts: what moving a value from one place to another does to it.
module Balance {
  import opened Ast
  import opened Values
  import opened Bytecode
  import Scopes
  import opened Ownership

  datatype Places = Places(stack: seq<Cell>, locals: seq<Cell>, env: Scopes.Chain<Cell>, snapshots: seq<Snapshot>)

  function Held(p: Places, id: nat): nat {
    Count(p.stack, id) + Count(p.locals, id) + CountChain(p.env, id) + CountSnapshots(p.snapshots, id)
  }

  /** Each object counts exactly the references held by the places and by `extra`, the values that
      are in hand; an object without a reference is gone. */
  ghost predicate Balanced(h: Heap, texts: seq<string>, p: Places, extra: seq<Cell>) {
    HeapOk(h, texts) && forall id: nat :: Even(h, p, extra, id)
  }

  predicate Even(h: Heap, p: Places, extra: seq<Cell>, id: nat) {
    Refs(h, id) == Held(p, id) + Count(extra, id)
  }

  lemma {:induction false} CountNone(s: seq<Cell>, id: nat)
    requires forall i :: 0 <= i < |s| ==> s[i] == CNil
    ensures Count(s, id) == 0
    decreases |s|
  {
    if s != [] {
      CountNone(s[..|s| - 1], id);
    }
  }

  lemma NothingHeld(locals: seq<Cell>)
    requires forall i :: 0 <= i < |locals| ==> locals[i] == CNil
    ensures Balanced(map[], [], Places([], locals, Scopes.Scope([], Scopes.Nowhere), []), [])
  {
    var p := Places([], locals, Scopes.Scope([], Scopes.Nowhere), []);
    forall id: nat
      ensures Even(map[], p, [], id)
    {
      CountNone(locals, id);
      assert Count(p.stack, id) == 0;
      assert CountChain(p.env, id) == CountFrame([], id) + CountChain(Scopes.Nowhere, id);
      assert CountSnapshots(p.snapshots, id) == 0;
    }
  }

  lemma InHandIsLive(h: Heap, texts: seq<string>, p: Places, extra: seq<Cell>, i: nat)
    requires Balanced(h, texts, p, extra) && i < |extra|
    ensures Live(h, extra[i])
  {
    if extra[i].CObj? {
      CountMember(extra, i, extra[i].id);
      assert Even(h, p, extra, extra[i].id);
    }
  }

  lemma StackTopMoves(h: Heap, texts: seq<string>, p: Places, extra: seq<Cell>)
    requires Balanced(h, texts, p, extra) && p.stack != []
    ensures Balanced(h, texts, p.(stack := p.stack[..|p.stack| - 1]), extra + [p.stack[|p.stack| - 1]])
  {
    var v, p' := p.stack[|p.stack| - 1], p.(stack := p.stack[..|p.stack| - 1]);
    forall id: nat
      ensures Even(h, p', extra + [v], id)
    {
      CountAppend(extra, v, id);
      assert Even(h, p, extra, id);
    }
  }

  lemma StackTopBalances(h: Heap, texts: seq<string>, p: Places, extra: seq<Cell>)
    requires Balanced(h, texts, p, extra) && p.stack != []
    ensures var v := p.stack[|p.stack| - 1]; Live(h, v) && Balanced(Retained(h, v), texts, p, extra + [v])
  {
    var v := p.stack[|p.stack| - 1];
    if v.CObj? {
      CountMember(p.stack, |p.stack| - 1, v.id);
      assert Even(h, p, extra, v.id);
    }
    RetainBalances(h, texts, p, extra, v);
  }

  lemma NothingInHand(h: Heap, texts: seq<string>, p: Places, extra: seq<Cell>, v: Cell)
    requires !v.CObj? && Balanced(h, texts, p, extra)
    ensures Balanced(h, texts, p, extra + [v])
  {
    forall id: nat
      ensures Even(h, p, extra + [v], id)
    {
      CountAppend(extra, v, id);
      assert Even(h, p, extra, id);
    }
  }

  lemma StackGrows(h: Heap, texts: seq<string>, p: Places, extra: seq<Cell>, v: Cell)
    requires Balanced(h, texts, p, extra + [v])
    ensures Balanced(h, texts, p.(stack := p.stack + [v]), extra)
  {
    forall id: nat
      ensures Even(h, p.(stack := p.stack + [v]), extra, id)
    {
      CountAppend(extra, v, id);
      CountAppend(p.stack, v, id);
      assert Even(h, p, extra + [v], id);
    }
  }

  lemma SlotSwaps(h: Heap, texts: seq<string>, p: Places, extra: seq<Cell>, i: nat, v: Cell)
    requires Balanced(h, texts, p, extra + [v]) && i < |p.locals|
    ensures Balanced(h, texts, p.(locals := p.locals[i := v]), extra + [p.locals[i]])
  {
    var p', extra' := p.(locals := p.locals[i := v]), extra + [p.locals[i]];
    forall id: nat
      ensures Even(h, p', extra', id)
    {
      assert Even(h, p, extra + [v], id);
      CountAppend(extra, v, id);
      CountAppend(extra, p.locals[i], id);
      CountUpdate(p.locals, i, v, id);
    }
  }

  lemma SlotIsLive(h: Heap, texts: seq<string>, p: Places, extra: seq<Cell>, i: nat)
    requires Balanced(h, texts, p, extra) && i < |p.locals|
    ensures Live(h, p.locals[i])
  {
    if p.locals[i].CObj? {
      CountMember(p.locals, i, p.locals[i].id);
      assert Even(h, p, extra, p.locals[i].id);
    }
  }

  lemma BoundIsLive(h: Heap, texts: seq<string>, p: Places, extra: seq<Cell>, name: string)
    requires Balanced(h, texts, p, extra) && name in Scopes.Flat(p.env)
    ensures Live(h, Scopes.Flat(p.env)[name])
  {
    var v := Scopes.Flat(p.env)[name];
    if v.CObj? {
      ChainMember(p.env, name, v.id);
      assert Even(h, p, extra, v.id);
    }
  }

  lemma RetainBalances(h: Heap, texts: seq<string>, p: Places, extra: seq<Cell>, v: Cell)
    requires Balanced(h, texts, p, extra) && Live(h, v)
    ensures Balanced(Retained(h, v), texts, p, extra + [v])
  {
    RetainedCounts(h, texts, v);
    forall id: nat
      ensures Even(Retained(h, v), p, extra + [v], id)
    {
      CountAppend(extra, v, id);
      assert Even(h, p, extra, id);
    }
  }

  lemma ReleaseBalances(h: Heap, texts: seq<string>, p: Places, extra: seq<Cell>, v: Cell)
    requires Balanced(h, texts, p, extra + [v])
    ensures Live(h, v) && Balanced(Released(h, v), texts, p, extra)
  {
    assert (extra + [v])[|extra|] == v;
    InHandIsLive(h, texts, p, extra + [v], |extra|);
    ReleasedCounts(h, texts, v);
    forall id: nat
      ensures Even(Released(h, v), p, extra, id)
    {
      CountAppend(extra, v, id);
      assert Even(h, p, extra + [v], id);
    }
  }

  lemma CreateBalances(h: Heap, texts: seq<string>, p: Places, extra: seq<Cell>, chars: string)
    requires Balanced(h, texts, p, extra)
    ensures Balanced(h[|texts| := Object(chars, 1)], texts + [chars], p, extra + [CObj(|texts|)])
  {
    var v, h' := CObj(|texts|), h[|texts| := Object(chars, 1)];
    assert ObjectOk(h, texts, |texts|);
    forall id: nat
      ensures Even(h', p, extra + [v], id) && ObjectOk(h', texts + [chars], id)
    {
      CountAppend(extra, v, id);
      assert Even(h, p, extra, id) && ObjectOk(h, texts, id);
    }
  }

  /** What places and hands refer to has a text. */
  lemma HeldIsKnown(h: Heap, texts: seq<string>, p: Places, extra: seq<Cell>)
    requires Balanced(h, texts, p, extra)
    ensures forall id: nat :: Count(p.stack, id) > 0 ==> id < |texts|
    ensures forall id: nat :: Count(p.locals, id) > 0 ==> id < |texts|
    ensures forall id: nat :: CountChain(p.env, id) > 0 ==> id < |texts|
    ensures forall id: nat :: Count(extra, id) > 0 ==> id < |texts|
  {
    forall id: nat
      ensures Count(p.stack, id) > 0 ==> id < |texts|
      ensures Count(p.locals, id) > 0 ==> id < |texts|
      ensures CountChain(p.env, id) > 0 ==> id < |texts|
      ensures Count(extra, id) > 0 ==> id < |texts|
    {
      assert Even(h, p, extra, id) && ObjectOk(h, texts, id);
    }
  }

  lemma DenoteTop(texts: seq<string>, s: seq<Cell>)
    ensures s != [] ==> Rest(DenoteSeq(texts, s)) == DenoteSeq(texts, s[..|s| - 1])
    ensures s != [] ==> Top(DenoteSeq(texts, s)) == Denote(texts, s[|s| - 1])
  {
  }

  lemma DenotePush(texts: seq<string>, s: seq<Cell>, v: Cell)
    ensures DenoteSeq(texts, s + [v]) == DenoteSeq(texts, s) + [Denote(texts, v)]
  {
  }

  lemma DenoteSlot(texts: seq<string>, s: seq<Cell>, i: nat, v: Cell)
    requires i < |s|
    ensures DenoteSeq(texts, s[i := v]) == DenoteSeq(texts, s)[i := Denote(texts, v)]
  {
  }

  // ---- Environment operations, by what they do to the counts ----

  /** The heap counts what the chain holds, and the value besides. */
  ghost predicate Covers(h: Heap, c: Scopes.Chain<Cell>, v: Cell) {
    forall id: nat :: CountChain(c, id) + One(v, id) <= Refs(h, id)
  }

  /** The counts have moved as the chain has. */
  ghost predicate Follows(h: Heap, c: Scopes.Chain<Cell>, h': Heap, c': Scopes.Chain<Cell>) {
    forall id: nat :: Refs(h', id) + CountChain(c, id) == Refs(h, id) + CountChain(c', id)
  }

  lemma CoveredIsLive(h: Heap, c: Scopes.Chain<Cell>, v: Cell)
    requires Covers(h, c, v)
    ensures Live(h, v)
  {
    if v.CObj? {
      assert One(v, v.id) <= Refs(h, v.id);
    }
  }

  lemma BindingReplaced(h: Heap, texts: seq<string>, c: Scopes.Chain<Cell>, i: nat, b: Scopes.Binding<Cell>)
    requires HeapOk(h, texts) && Covers(h, c, b.value) && c.Scope? && i < |c.frame|
    ensures Live(h, b.value) && Live(Retained(h, b.value), c.frame[i].value)
    ensures var h' := Released(Retained(h, b.value), c.frame[i].value);
            HeapOk(h', texts) && Follows(h, c, h', Scopes.Scope(c.frame[i := b], c.parent))
  {
    CoveredIsLive(h, c, b.value);
    var was, h1 := c.frame[i].value, Retained(h, b.value);
    RetainedCounts(h, texts, b.value);
    if was.CObj? {
      CountFrameMember(c.frame, i, was.id);
      assert CountChain(c, was.id) <= Refs(h, was.id);
    }
    ReleasedCounts(h1, texts, was);
    forall id: nat
      ensures Refs(Released(h1, was), id) + CountChain(c, id)
              == Refs(h, id) + CountChain(Scopes.Scope(c.frame[i := b], c.parent), id)
    {
      CountFrameUpdate(c.frame, i, b, id);
    }
  }

  lemma OuterCovered(h: Heap, texts: seq<string>, c: Scopes.Chain<Cell>, v: Cell)
    requires HeapOk(h, texts) && Covers(h, c, v) && c.Scope?
    ensures Live(h, v) && HeapOk(Retained(h, v), texts) && Covers(Retained(h, v), c.parent, v)
  {
    CoveredIsLive(h, c, v);
    RetainedCounts(h, texts, v);
    forall id: nat
      ensures CountChain(c.parent, id) + One(v, id) <= Refs(Retained(h, v), id)
    {
      assert CountChain(c, id) + One(v, id) <= Refs(h, id);
    }
  }

  lemma OuterReplaced(h: Heap, texts: seq<string>, c: Scopes.Chain<Cell>, v: Cell, h': Heap, parent: Scopes.Chain<Cell>)
    requires HeapOk(h, texts) && Covers(h, c, v) && c.Scope? && Live(h, v)
    requires HeapOk(h', texts) && Follows(Retained(h, v), c.parent, h', parent)
    ensures Live(h', v) && HeapOk(Released(h', v), texts)
    ensures Follows(h, c, Released(h', v), Scopes.Scope(c.frame, parent))
  {
    RetainedCounts(h, texts, v);
    if v.CObj? {
      assert CountChain(c, v.id) + One(v, v.id) <= Refs(h, v.id);
      assert Refs(h', v.id) + CountChain(c.parent, v.id) == Refs(Retained(h, v), v.id) + CountChain(parent, v.id);
    }
    ReleasedCounts(h', texts, v);
    forall id: nat
      ensures Refs(Released(h', v), id) + CountChain(c, id)
              == Refs(h, id) + CountChain(Scopes.Scope(c.frame, parent), id)
    {
      assert Refs(h', id) + CountChain(c.parent, id) == Refs(Retained(h, v), id) + CountChain(parent, id);
    }
  }

  lemma BindingAdded(h: Heap, c: Scopes.Chain<Cell>, b: Scopes.Binding<Cell>)
    requires c.Scope? && Live(h, b.value)
    ensures Follows(h, c, Retained(h, b.value), Scopes.Scope(c.frame + [b], c.parent))
  {
    forall id: nat
      ensures Refs(Retained(h, b.value), id) + CountChain(c, id)
              == Refs(h, id) + CountChain(Scopes.Scope(c.frame + [b], c.parent), id)
    {
      CountFrameAppend(c.frame, b, id);
    }
  }

  lemma RetainedReleased(h: Heap, texts: seq<string>, v: Cell)
    requires HeapOk(h, texts) && Live(h, v)
    ensures Live(Retained(h, v), v) && Released(Retained(h, v), v) == h
  {
    if v.CObj? {
      assert ObjectOk(h, texts, v.id);
    }
  }

  lemma BindingDropped(h: Heap, texts: seq<string>, c: Scopes.Chain<Cell>, i: nat)
    requires HeapOk(h, texts) && Covers(h, c, CNil) && c.Scope? && i < |c.frame|
    ensures Live(h, c.frame[i].value)
    ensures var h' := Released(h, c.frame[i].value);
            HeapOk(h', texts) && Follows(h, c, h', Scopes.Scope(Scopes.DropAt(c.frame, i), c.parent))
  {
    var was := c.frame[i].value;
    if was.CObj? {
      CountFrameMember(c.frame, i, was.id);
      assert CountChain(c, was.id) + One(CNil, was.id) <= Refs(h, was.id);
    }
    ReleasedCounts(h, texts, was);
    forall id: nat
      ensures Refs(Released(h, was), id) + CountChain(c, id)
              == Refs(h, id) + CountChain(Scopes.Scope(Scopes.DropAt(c.frame, i), c.parent), id)
    {
      CountFrameDrop(c.frame, i, id);
    }
  }

  lemma ChainCovered(h: Heap, texts: seq<string>, p: Places, extra: seq<Cell>, v: Cell)
    requires Balanced(h, texts, p, extra + [v])
    ensures Covers(h, p.env, v)
  {
    forall id: nat
      ensures CountChain(p.env, id) + One(v, id) <= Refs(h, id)
    {
      CountAppend(extra, v, id);
      assert Even(h, p, extra + [v], id);
    }
  }

  lemma ChainFollows(h: Heap, h': Heap, texts: seq<string>, p: Places, extra: seq<Cell>, c: Scopes.Chain<Cell>)
    requires Balanced(h, texts, p, extra) && HeapOk(h', texts) && Follows(h, p.env, h', c)
    ensures Balanced(h', texts, p.(env := c), extra)
  {
    forall id: nat
      ensures Even(h', p.(env := c), extra, id)
    {
      assert Even(h, p, extra, id);
      assert Refs(h', id) + CountChain(p.env, id) == Refs(h, id) + CountChain(c, id);
    }
  }

  /** One frame without a parent.  The quantifier keeps provers from unfolding the frame where
      only the fact matters. */
  ghost predicate SingleFrame(c: Scopes.Chain<Cell>) {
    forall d :: d == c ==> Scopes.Unshadowed(d) && d.Scope? && d.parent.Nowhere?
  }

  lemma SingleFrameSet(c: Scopes.Chain<Cell>, name: string, v: Cell)
    requires SingleFrame(c)
    ensures SingleFrame(Scopes.Set(c, name, v))
  {
    assert Scopes.Unshadowed(c);
    Scopes.SetIsUpdate(c, name, v);
  }

  lemma SingleFrameRemove(c: Scopes.Chain<Cell>, name: string)
    requires SingleFrame(c)
    ensures SingleFrame(Scopes.Remove(c, name))
  {
    assert Scopes.Unshadowed(c);
    Scopes.RemoveIsSubtraction(c, name);
  }

  lemma DenoteMapUpdate(texts: seq<string>, m: map<string, Cell>, name: string, v: Cell)
    ensures DenoteMap(texts, m[name := v]) == DenoteMap(texts, m)[name := Denote(texts, v)]
  {
  }

  lemma DenoteMapRemove(texts: seq<string>, m: map<string, Cell>, name: string)
    ensures DenoteMap(texts, m - {name}) == DenoteMap(texts, m) - {name}
  {
  }

  lemma TakesAlike(texts: seq<string>, c: Scopes.Chain<Cell>, name: string)
    requires c.Scope? && c.parent.Nowhere? && Scopes.Unshadowed(c)
    ensures var m := DenoteMap(texts, Scopes.Flat(c)); Scopes.Takes(c, name) <==> name in m || |m| < FRAME_SLOTS
  {
    Scopes.GetIsLookup(c, name);
    SingleFrameCount(texts, c.frame);
    assert c == Scopes.Scope(c.frame, Scopes.Nowhere);
  }

  /** On a single frame, setting is binding in the map of values. */
  lemma BindsAlike(texts: seq<string>, c: Scopes.Chain<Cell>, name: string, v: Cell)
    requires SingleFrame(c)
    ensures DenoteMap(texts, Scopes.Flat(Scopes.Set(c, name, v)))
            == Bind(DenoteMap(texts, Scopes.Flat(c)), name, Denote(texts, v))
  {
    assert Scopes.Unshadowed(c);
    Scopes.SetIsUpdate(c, name, v);
    TakesAlike(texts, c, name);
    DenoteMapUpdate(texts, Scopes.Flat(c), name, v);
  }

  lemma UnbindsAlike(texts: seq<string>, c: Scopes.Chain<Cell>, name: string)
    requires SingleFrame(c)
    ensures DenoteMap(texts, Scopes.Flat(Scopes.Remove(c, name))) == DenoteMap(texts, Scopes.Flat(c)) - {name}
  {
    assert Scopes.Unshadowed(c);
    Scopes.RemoveIsSubtraction(c, name);
    DenoteMapRemove(texts, Scopes.Flat(c), name);
  }

  function CellsOf(f: Scopes.Frame<Cell>): (s: seq<Cell>)
    ensures |s| == |f|
    ensures forall i :: 0 <= i < |f| ==> s[i] == f[i].value
  {
    if f == [] then [] else CellsOf(f[..|f| - 1]) + [f[|f| - 1].value]
  }

  lemma {:induction false} ValuesCount(f: Scopes.Frame<Cell>, id: nat)
    ensures Count(CellsOf(f), id) == CountFrame(f, id)
    decreases |f|
  {
    if f != [] {
      ValuesCount(f[..|f| - 1], id);
      CountAppend(CellsOf(f[..|f| - 1]), f[|f| - 1].value, id);
    }
  }

  lemma {:induction false} CountConcat(s: seq<Cell>, t: seq<Cell>, id: nat)
    ensures Count(s + t, id) == Count(s, id) + Count(t, id)
    decreases |t|
  {
    if t == [] {
      assert s + t == s;
    } else {
      CountConcat(s, t[..|t| - 1], id);
      assert s + t == s + t[..|t| - 1] + [t[|t| - 1]];
      CountAppend(s + t[..|t| - 1], t[|t| - 1], id);
    }
  }

  lemma NewFrameBalances(h: Heap, texts: seq<string>, p: Places, extra: seq<Cell>)
    requires Balanced(h, texts, p, extra)
    ensures Balanced(h, texts, p.(env := Scopes.Push(p.env)), extra)
  {
    forall id: nat
      ensures Even(h, p.(env := Scopes.Push(p.env)), extra, id)
    {
      assert Even(h, p, extra, id);
    }
  }

  /** The innermost frame as values to be given up. */
  lemma FrameInHand(h: Heap, texts: seq<string>, p: Places, extra: seq<Cell>)
    requires Balanced(h, texts, p, extra) && p.env.Scope?
    ensures Balanced(h, texts, p.(env := p.env.parent), extra + CellsOf(p.env.frame))
  {
    forall id: nat
      ensures Even(h, p.(env := p.env.parent), extra + CellsOf(p.env.frame), id)
    {
      ValuesCount(p.env.frame, id);
      CountConcat(extra, CellsOf(p.env.frame), id);
      assert Even(h, p, extra, id);
    }
  }

  lemma FirstReleased(h: Heap, texts: seq<string>, p: Places, extra: seq<Cell>, cells: seq<Cell>)
    requires Balanced(h, texts, p, extra + cells) && cells != []
    ensures Live(h, cells[0]) && Balanced(Released(h, cells[0]), texts, p, extra + cells[1..])
  {
    assert (extra + cells)[|extra|] == cells[0];
    InHandIsLive(h, texts, p, extra + cells, |extra|);
    ReleasedCounts(h, texts, cells[0]);
    forall id: nat
      ensures Even(Released(h, cells[0]), p, extra + cells[1..], id)
    {
      assert cells == [cells[0]] + cells[1..];
      CountConcat(extra, cells, id);
      CountConcat([cells[0]], cells[1..], id);
      CountConcat(extra, cells[1..], id);
      CountAppend([], cells[0], id);
      assert [] + [cells[0]] == [cells[0]];
      assert Even(h, p, extra + cells, id);
    }
  }

  /** The return code of a step and the state it leaves. */
  predicate Agrees(code: int, expected: StepResult, st: State) {
    match expected
    case Next(s) => code == 0 && st == s
    case Fault(s) => code == 1 && st == s
    case Halted(s) => code == -1 && st == s
  }

  lemma StoredIsStep(p: Program, v: nat, s: State, s': State)
    requires v < |p.vars|
    requires s' == s.(pc := s.pc + 1, stack := Rest(s.stack), env := Bind(s.env, p.vars[v], Top(s.stack)))
    ensures Agrees(0, StepVariable(p, StoreVar(v), s), s')
  {
  }

  lemma ForgottenIsStep(p: Program, v: nat, s: State, s': State)
    requires v < |p.vars|
    requires s' == s.(pc := s.pc + 1, env := s.env - {p.vars[v]},
                      locals := if v < REGISTERS then s.locals[v := Nil] else s.locals)
    ensures Agrees(0, StepVariable(p, Instr.Release(v), s), s')
  {
  }

  lemma RunOne(p: Program, fmt: Format, s: State, n: nat)
    requires n > 0
    ensures Run(p, fmt, s, 1) == Bytecode.Step(p, fmt, s)
    ensures !Bytecode.Step(p, fmt, s).Next? ==> Run(p, fmt, s, n) == Bytecode.Step(p, fmt, s)
  {
  }

  // ---- Snapshots and the end, by what they do to the counts ----

  lemma SnapshotStored(h: Heap, texts: seq<string>, p: Places, pc: nat, copy: seq<Cell>)
    requires Balanced(h, texts, p, copy)
    ensures Balanced(h, texts, p.(snapshots := p.snapshots + [Snapshot(pc, copy, true)]), [])
  {
    var p' := p.(snapshots := p.snapshots + [Snapshot(pc, copy, true)]);
    forall id: nat
      ensures Even(h, p', [], id)
    {
      CountSnapshotsAppend(p.snapshots, Snapshot(pc, copy, true), id);
      assert Even(h, p, copy, id);
    }
  }

  lemma {:induction false} CountSnapshotsMember(ss: seq<Snapshot>, k: nat, id: nat)
    requires k < |ss|
    ensures CountSnapshot(ss[k], id) <= CountSnapshots(ss, id)
    decreases |ss|
  {
    if k < |ss| - 1 {
      CountSnapshotsMember(ss[..|ss| - 1], k, id);
    }
  }

  /** The old value of a register goes, and the saved one comes back with a reference of its own:
      the snapshot keeps it alive in between. */
  lemma SlotRestored(h: Heap, texts: seq<string>, p: Places, k: nat, i: nat)
    requires Balanced(h, texts, p, []) && k < |p.snapshots| && p.snapshots[k].valid
    requires i < |p.locals| && i < |p.snapshots[k].locals|
    ensures var was, v := p.locals[i], p.snapshots[k].locals[i];
            && Live(h, was) && Live(Released(h, was), v)
            && Balanced(Retained(Released(h, was), v), texts, p.(locals := p.locals[i := v]), [])
  {
    var was, v := p.locals[i], p.snapshots[k].locals[i];
    var p' := p.(locals := p.locals[i := v]);
    SlotIsLive(h, texts, p, [], i);
    ReleasedCounts(h, texts, was);
    if v.CObj? {
      CountSnapshotsMember(p.snapshots, k, v.id);
      CountMember(p.snapshots[k].locals, i, v.id);
      CountMember(p.locals, i, v.id);
      assert Even(h, p, [], v.id);
    }
    RetainedCounts(Released(h, was), texts, v);
    forall id: nat
      ensures Even(Retained(Released(h, was), v), p', [], id)
    {
      CountUpdate(p.locals, i, v, id);
      assert Even(h, p, [], id);
    }
  }

  lemma SnapshotInHand(h: Heap, texts: seq<string>, p: Places, k: nat)
    requires Balanced(h, texts, p, []) && k < |p.snapshots| && p.snapshots[k].valid
    ensures var dead := p.snapshots[k].(valid := false);
            Balanced(h, texts, p.(snapshots := p.snapshots[k := dead]), [] + p.snapshots[k].locals)
  {
    var dead := p.snapshots[k].(valid := false);
    var p', cells := p.(snapshots := p.snapshots[k := dead]), [] + p.snapshots[k].locals;
    assert cells == p.snapshots[k].locals;
    forall id: nat
      ensures Even(h, p', cells, id)
    {
      CountSnapshotsUpdate(p.snapshots, k, dead, id);
      assert Even(h, p, [], id);
    }
  }

  lemma LocalsInHand(h: Heap, texts: seq<string>, p: Places)
    requires Balanced(h, texts, p, [])
    ensures Balanced(h, texts, p.(locals := []), [] + p.locals)
  {
    var p', cells := p.(locals := []), [] + p.locals;
    assert cells == p.locals;
    forall id: nat
      ensures Even(h, p', cells, id)
    {
      assert Even(h, p, [], id);
    }
  }

  lemma StackInHand(h: Heap, texts: seq<string>, p: Places)
    requires Balanced(h, texts, p, [])
    ensures Balanced(h, texts, p.(stack := []), [] + p.stack)
  {
    var p', cells := p.(stack := []), [] + p.stack;
    assert cells == p.stack;
    forall id: nat
      ensures Even(h, p', cells, id)
    {
      assert Even(h, p, [], id);
    }
  }

  lemma EmptyHeap(h: Heap, texts: seq<string>, ss: seq<Snapshot>)
    requires Balanced(h, texts, Places([], [], Scopes.Nowhere, ss), [])
    requires forall k :: 0 <= k < |ss| ==> !ss[k].valid
    ensures h == map[]
  {
    forall id: nat
      ensures id !in h
    {
      NoValidSnapshot(ss, id);
      assert Even(h, Places([], [], Scopes.Nowhere, ss), [], id) && ObjectOk(h, texts, id);
    }
  }

  lemma NegatedIsStep(s: State, n: real, s': State)
    requires Top(s.stack) == Num(n) && s' == s.(pc := s.pc + 1, stack := Rest(s.stack) + [Num(-n)])
    ensures Agrees(0, StepNegate(Neg, s), s')
  {
  }

  lemma UnnegatedIsFault(s: State, s': State)
    requires !Top(s.stack).Num? && s' == s.(stack := Rest(s.stack))
    ensures Agrees(1, StepNegate(Neg, s), s')
  {
  }

  lemma Swapped(h: Heap, texts: seq<string>, p: Places, x: Cell, y: Cell)
    requires Balanced(h, texts, p, [] + [x] + [y])
    ensures Balanced(h, texts, p, [] + [y] + [x])
  {
    forall id: nat
      ensures Even(h, p, [] + [y] + [x], id)
    {
      CountAppend([], x, id);
      CountAppend([] + [x], y, id);
      CountAppend([], y, id);
      CountAppend([] + [y], x, id);
      assert Even(h, p, [] + [x] + [y], id);
    }
  }

  lemma OperatedIsStep(fmt: Format, op: BinaryOp, s: State, v: Value, s': State)
    requires MachineBinary(fmt, op, Top(Rest(s.stack)), Top(s.stack)) == Some(v)
    requires s' == s.(pc := s.pc + 1, stack := Rest(Rest(s.stack)) + [v])
    ensures Agrees(0, StepOperate(fmt, op, s), s')
  {
  }

  lemma RefusedIsFault(fmt: Format, op: BinaryOp, s: State, s': State)
    requires MachineBinary(fmt, op, Top(Rest(s.stack)), Top(s.stack)).None?
    requires s' == s.(stack := Rest(Rest(s.stack)))
    ensures Agrees(1, StepOperate(fmt, op, s), s')
  {
  }
}
