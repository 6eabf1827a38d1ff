// Cells that refer to counted objects, and how many references a place holds to each object.
module Ownership {
  import opened Values
  import opened Scopes

  /** A value as it lies in a slot; strings are objects on the heap. */
  datatype Cell = CNum(n: real) | CBool(b: bool) | CNil | CObj(id: nat)

  datatype Object = Object(chars: string, refs: int)

  type Heap = map<nat, Object>

  // ---- References held by places ----

  function One(v: Cell, id: nat): nat {
    if v == CObj(id) then 1 else 0
  }

  function Count(s: seq<Cell>, id: nat): nat {
    if s == [] then 0 else Count(s[..|s| - 1], id) + One(s[|s| - 1], id)
  }

  function CountFrame(f: Frame<Cell>, id: nat): nat {
    if f == [] then 0 else CountFrame(f[..|f| - 1], id) + One(f[|f| - 1].value, id)
  }

  function CountChain(c: Chain<Cell>, id: nat): nat {
    match c
    case Nowhere => 0
    case Scope(f, parent) => CountFrame(f, id) + CountChain(parent, id)
  }

  /** A saved position and register file. */
  datatype Snapshot = Snapshot(pc: nat, locals: seq<Cell>, valid: bool)

  /** Only a valid snapshot holds references. */
  function CountSnapshot(s: Snapshot, id: nat): nat {
    if s.valid then Count(s.locals, id) else 0
  }

  function CountSnapshots(ss: seq<Snapshot>, id: nat): nat {
    if ss == [] then 0 else CountSnapshots(ss[..|ss| - 1], id) + CountSnapshot(ss[|ss| - 1], id)
  }

  lemma {:induction false} CountUpdate(s: seq<Cell>, i: nat, v: Cell, id: nat)
    requires i < |s|
    ensures Count(s[i := v], id) + One(s[i], id) == Count(s, id) + One(v, id)
    decreases |s|
  {
    var s' := s[i := v];
    if i < |s| - 1 {
      CountUpdate(s[..|s| - 1], i, v, id);
      assert s'[..|s| - 1] == s[..|s| - 1][i := v];
    } else {
      assert s'[..|s| - 1] == s[..|s| - 1];
    }
  }

  lemma CountAppend(s: seq<Cell>, v: Cell, id: nat)
    ensures Count(s + [v], id) == Count(s, id) + One(v, id)
  {
    assert (s + [v])[..|s|] == s;
  }

  lemma {:induction false} CountMember(s: seq<Cell>, i: nat, id: nat)
    requires i < |s|
    ensures One(s[i], id) <= Count(s, id)
    decreases |s|
  {
    if i < |s| - 1 {
      CountMember(s[..|s| - 1], i, id);
    }
  }

  lemma {:induction false} CountFrameUpdate(f: Frame<Cell>, i: nat, v: Binding<Cell>, id: nat)
    requires i < |f|
    ensures CountFrame(f[i := v], id) + One(f[i].value, id) == CountFrame(f, id) + One(v.value, id)
    decreases |f|
  {
    var f' := f[i := v];
    if i < |f| - 1 {
      CountFrameUpdate(f[..|f| - 1], i, v, id);
      assert f'[..|f| - 1] == f[..|f| - 1][i := v];
    } else {
      assert f'[..|f| - 1] == f[..|f| - 1];
    }
  }

  lemma CountFrameAppend(f: Frame<Cell>, v: Binding<Cell>, id: nat)
    ensures CountFrame(f + [v], id) == CountFrame(f, id) + One(v.value, id)
  {
    assert (f + [v])[..|f|] == f;
  }

  lemma CountFrameDrop(f: Frame<Cell>, i: nat, id: nat)
    requires i < |f|
    ensures CountFrame(DropAt(f, i), id) + One(f[i].value, id) == CountFrame(f, id)
  {
    if i < |f| - 1 {
      CountFrameUpdate(f, i, f[|f| - 1], id);
    }
  }

  lemma {:induction false} CountFrameMember(f: Frame<Cell>, i: nat, id: nat)
    requires i < |f|
    ensures One(f[i].value, id) <= CountFrame(f, id)
    decreases |f|
  {
    if i < |f| - 1 {
      CountFrameMember(f[..|f| - 1], i, id);
    }
  }

  lemma {:induction false} CountSnapshotsUpdate(ss: seq<Snapshot>, i: nat, s: Snapshot, id: nat)
    requires i < |ss|
    ensures CountSnapshots(ss[i := s], id) + CountSnapshot(ss[i], id) == CountSnapshots(ss, id) + CountSnapshot(s, id)
    decreases |ss|
  {
    var ss' := ss[i := s];
    if i < |ss| - 1 {
      CountSnapshotsUpdate(ss[..|ss| - 1], i, s, id);
      assert ss'[..|ss| - 1] == ss[..|ss| - 1][i := s];
    } else {
      assert ss'[..|ss| - 1] == ss[..|ss| - 1];
    }
  }

  lemma CountSnapshotsAppend(ss: seq<Snapshot>, s: Snapshot, id: nat)
    ensures CountSnapshots(ss + [s], id) == CountSnapshots(ss, id) + CountSnapshot(s, id)
  {
    assert (ss + [s])[..|ss|] == ss;
  }

  lemma {:induction false} NoValidSnapshot(ss: seq<Snapshot>, id: nat)
    requires forall i :: 0 <= i < |ss| ==> !ss[i].valid
    ensures CountSnapshots(ss, id) == 0
    decreases |ss|
  {
    if ss != [] {
      NoValidSnapshot(ss[..|ss| - 1], id);
    }
  }

  // ---- The heap ----

  /** References that an object counts; an object that is gone has none. */
  function Refs(h: Heap, id: nat): int {
    if id in h then h[id].refs else 0
  }

  /** The value may be used: it is not an object, or one that still exists. */
  predicate Live(h: Heap, v: Cell) {
    v.CObj? ==> v.id in h
  }

  /** Objects exist as long as they are counted, and keep their text. */
  ghost predicate HeapOk(h: Heap, texts: seq<string>) {
    forall id: nat :: ObjectOk(h, texts, id)
  }

  predicate ObjectOk(h: Heap, texts: seq<string>, id: nat) {
    id in h ==> h[id].refs > 0 && id < |texts| && h[id].chars == texts[id]
  }

  function Retained(h: Heap, v: Cell): Heap
    requires Live(h, v)
  {
    if v.CObj? then h[v.id := h[v.id].(refs := h[v.id].refs + 1)] else h
  }

  /** The last release takes the object away. */
  function Released(h: Heap, v: Cell): Heap
    requires Live(h, v)
  {
    if !v.CObj? then h
    else if h[v.id].refs == 1 then h - {v.id}
    else h[v.id := h[v.id].(refs := h[v.id].refs - 1)]
  }

  lemma RetainedCounts(h: Heap, texts: seq<string>, v: Cell)
    requires HeapOk(h, texts) && Live(h, v)
    ensures HeapOk(Retained(h, v), texts)
    ensures forall id: nat :: Refs(Retained(h, v), id) == Refs(h, id) + One(v, id)
  {
    forall id: nat
      ensures ObjectOk(Retained(h, v), texts, id) && Refs(Retained(h, v), id) == Refs(h, id) + One(v, id)
    {
      assert ObjectOk(h, texts, id);
    }
  }

  lemma ReleasedCounts(h: Heap, texts: seq<string>, v: Cell)
    requires HeapOk(h, texts) && Live(h, v)
    ensures HeapOk(Released(h, v), texts)
    ensures forall id: nat :: Refs(Released(h, v), id) == Refs(h, id) - One(v, id)
  {
    forall id: nat
      ensures ObjectOk(Released(h, v), texts, id) && Refs(Released(h, v), id) == Refs(h, id) - One(v, id)
    {
      assert ObjectOk(h, texts, id);
    }
  }

  // ---- What cells mean ----

  function Denote(texts: seq<string>, v: Cell): Value {
    match v
    case CNum(n) => Num(n)
    case CBool(b) => Bool(b)
    case CNil => Nil
    case CObj(id) => Str(if id < |texts| then texts[id] else "")
  }

  function DenoteSeq(texts: seq<string>, s: seq<Cell>): (r: seq<Value>)
    ensures |r| == |s|
  {
    seq(|s|, i requires 0 <= i < |s| => Denote(texts, s[i]))
  }

  function DenoteMap(texts: seq<string>, m: map<string, Cell>): map<string, Value> {
    map k | k in m :: Denote(texts, m[k])
  }

  /** Every object a place refers to has a text. */
  lemma DenoteSeqGrows(texts: seq<string>, more: string, s: seq<Cell>)
    requires forall id: nat :: Count(s, id) > 0 ==> id < |texts|
    ensures DenoteSeq(texts + [more], s) == DenoteSeq(texts, s)
  {
    forall i | 0 <= i < |s|
      ensures Denote(texts + [more], s[i]) == Denote(texts, s[i])
    {
      if s[i].CObj? {
        CountMember(s, i, s[i].id);
      }
    }
  }

  lemma {:induction false} ChainMember(c: Chain<Cell>, name: string, id: nat)
    requires name in Flat(c)
    ensures One(Flat(c)[name], id) <= CountChain(c, id)
    decreases c
  {
    match c
    case Scope(f, parent) =>
      FrameMapBinds(f, name);
      if Binds(f, name) {
        CountFrameMember(f, IndexOf(f, name), id);
      } else {
        ChainMember(parent, name, id);
      }
  }

  lemma BoundCellStays(texts: seq<string>, more: string, c: Chain<Cell>, k: string)
    requires k in Flat(c) && forall id: nat :: CountChain(c, id) > 0 ==> id < |texts|
    ensures Denote(texts + [more], Flat(c)[k]) == Denote(texts, Flat(c)[k])
  {
    if Flat(c)[k].CObj? {
      ChainMember(c, k, Flat(c)[k].id);
    }
  }

  lemma DenoteMapGrows(texts: seq<string>, more: string, c: Chain<Cell>)
    requires forall id: nat :: CountChain(c, id) > 0 ==> id < |texts|
    ensures DenoteMap(texts + [more], Flat(c)) == DenoteMap(texts, Flat(c))
  {
    var m := Flat(c);
    forall k | k in m
      ensures Denote(texts + [more], m[k]) == Denote(texts, m[k])
    {
      BoundCellStays(texts, more, c, k);
    }
  }

  lemma {:induction false} KeysCount<V>(f: Frame<V>)
    requires DistinctKeys(f)
    ensures |Keys(f)| == |f|
    decreases |f|
  {
    if f != [] {
      var rest := f[1..];
      forall j, k | 0 <= j < k < |rest|
        ensures KeysDiffer(rest, j, k)
      {
        assert KeysDiffer(f, j + 1, k + 1);
      }
      KeysCount(rest);
      forall k | 0 <= k < |rest|
        ensures rest[k].key != f[0].key
      {
        assert KeysDiffer(f, 0, k + 1);
      }
    }
  }

  /** A single frame holds as many names as it has entries. */
  lemma SingleFrameCount(texts: seq<string>, f: Frame<Cell>)
    requires DistinctKeys(f)
    ensures |DenoteMap(texts, Flat(Scope(f, Nowhere)))| == |f|
  {
    KeysCount(f);
    var m := DenoteMap(texts, Flat(Scope(f, Nowhere)));
    assert Flat(Scope(f, Nowhere)) == FrameMap(f);
    assert m.Keys == Keys(f);
    assert |m| == |m.Keys|;
  }
}
