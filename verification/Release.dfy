// Releasing a variable after its last use, and when nobody can notice.
module Release {
  import opened Ast
  import opened Values
  import opened Bytecode
  import opened CodeShape
  import opened CodeTree
  import opened CodeRuns
  import opened Ssa
  import opened Programs
  import Divergence
  import Preservation

  // ---- The tree without marks ----

  function StripE(e: Expr): Expr {
    match e
    case Ident(name, _, _) => Ident(name, -1, false)
    case Unary(op, operand) => Unary(op, StripE(operand))
    case Binary(l, op, r) => Binary(StripE(l), op, StripE(r))
    case Call(callee, args) => Call(callee, StripEs(args))
    case _ => e
  }

  function StripEs(es: seq<Expr>): (r: seq<Expr>)
    ensures |r| == |es|
  {
    if es == [] then [] else StripEs(es[..|es| - 1]) + [StripE(es[|es| - 1])]
  }

  function StripS(s: Stmt): Stmt {
    match s
    case Let(name, value, escapes) => Let(name, StripE(value), escapes)
    case Assign(name, source) => Assign(name, StripE(source))
    case Print(e) => Print(StripE(e))
    case If(c, t, f) => If(StripE(c), StripS(t), StripO(f))
    case While(c, b) => While(StripE(c), StripS(b))
    case For(init, test, increment, body) =>
      For(StripO(init), if test.Some? then Some(StripE(test.value)) else None, StripO(increment), StripS(body))
    case Block(ss) => Block(StripSs(ss))
    case Return(Some(e)) => Return(Some(StripE(e)))
    case Bare(e) => Bare(StripE(e))
    case _ => s
  }

  function StripO(s: Option<Stmt>): Option<Stmt> {
    if s.Some? then Some(StripS(s.value)) else None
  }

  function StripSs(ss: seq<Stmt>): (r: seq<Stmt>)
    ensures |r| == |ss|
  {
    if ss == [] then [] else StripSs(ss[..|ss| - 1]) + [StripS(ss[|ss| - 1])]
  }

  // ---- Its code is that of the marked tree without the releases ----

  function Kept(items: seq<Item>): seq<Item> {
    if items == [] then []
    else Kept(items[..|items| - 1]) + if items[|items| - 1].Free? then [] else [items[|items| - 1]]
  }

  function KeptCode(code: Code): Code {
    match code
    case Row(items) => Row(Kept(items))
    case Then(a, b) => Then(KeptCode(a), KeptCode(b))
    case Branch(condition, yes, no) =>
      Branch(Kept(condition), KeptCode(yes), if no.Some? then Some(KeptCode(no.value)) else None)
    case Loop(test, round) => Loop(if test.Some? then Some(Kept(test.value)) else None, KeptCode(round))
  }

  lemma {:induction false} KeptAppend(a: seq<Item>, b: seq<Item>)
    ensures Kept(a + b) == Kept(a) + Kept(b)
    decreases |b|
  {
    if b == [] {
      assert a + b == a;
    } else {
      assert (a + b)[..|a + b| - 1] == a + b[..|b| - 1];
      KeptAppend(a, b[..|b| - 1]);
    }
  }

  lemma {:induction false} KeptOne(item: Item)
    ensures Kept([item]) == if item.Free? then [] else [item]
  {
    assert [item][..0] == [];
  }

  lemma {:induction false} KeptThen(items: seq<Item>, item: Item)
    requires !item.Free?
    ensures Kept(items + [item]) == Kept(items) + [item]
  {
    KeptAppend(items, [item]);
    KeptOne(item);
  }

  lemma {:induction false} StripItems(e: Expr, syms: Symbols)
    ensures ItemsE(StripE(e), syms) == Kept(ItemsE(e, syms))
    decreases e
  {
    match e
    case Ident(name, _, lastUse) =>
      KeptOne(Load(name, IsLocal(syms, name)));
      if lastUse {
        KeptAppend([Load(name, IsLocal(syms, name))], [Free(name)]);
        KeptOne(Free(name));
      }
    case Unary(op, operand) =>
      StripItems(operand, syms);
      KeptThen(ItemsE(operand, syms), Exact(Negate(op)));
    case Binary(l, op, r) =>
      StripItems(l, syms);
      StripItems(r, syms);
      KeptAppend(ItemsE(l, syms), ItemsE(r, syms));
      KeptThen(ItemsE(l, syms) + ItemsE(r, syms), Exact(Operate(op)));
    case Call(callee, args) =>
      StripItemsOfAll(args, syms);
      KeptThen(ItemsEs(args, syms), Invoke(callee));
    case Number(n) => KeptOne(Push(Num(n)));
    case Text(t) => KeptOne(Push(Str(t)));
    case Boolean(b) => KeptOne(Push(Bool(b)));
    case Absent =>
  }

  lemma {:induction false} StripItemsOfAll(es: seq<Expr>, syms: Symbols)
    ensures ItemsEs(StripEs(es), syms) == Kept(ItemsEs(es, syms))
    decreases es
  {
    if es != [] {
      var front := es[..|es| - 1];
      assert StripEs(es)[..|es| - 1] == StripEs(front);
      StripItemsOfAll(front, syms);
      StripItems(es[|es| - 1], syms);
      KeptAppend(ItemsEs(front, syms), ItemsE(es[|es| - 1], syms));
    }
  }

  lemma {:induction false} StripSyms(s: Stmt, syms: Symbols)
    ensures SymsS(StripS(s), syms) == SymsS(s, syms)
    decreases s
  {
    match s
    case If(_, t, f) =>
      StripSyms(t, syms);
      StripSymsO(f, SymsS(t, syms));
    case While(_, b) => StripSyms(b, syms);
    case For(init, _, increment, body) =>
      StripSymsO(init, syms);
      StripSyms(body, SymsO(init, syms));
      StripSymsO(increment, SymsS(body, SymsO(init, syms)));
    case Block(ss) => StripSymsSs(ss, syms);
    case _ =>
  }

  lemma {:induction false} StripSymsO(s: Option<Stmt>, syms: Symbols)
    ensures SymsO(StripO(s), syms) == SymsO(s, syms)
    decreases s
  {
    if s.Some? {
      StripSyms(s.value, syms);
    }
  }

  lemma {:induction false} StripSymsSs(ss: seq<Stmt>, syms: Symbols)
    ensures SymsSs(StripSs(ss), syms) == SymsSs(ss, syms)
    decreases ss
  {
    if ss != [] {
      assert StripSs(ss)[..|ss| - 1] == StripSs(ss[..|ss| - 1]);
      StripSymsSs(ss[..|ss| - 1], syms);
      StripSyms(ss[|ss| - 1], SymsSs(ss[..|ss| - 1], syms));
    }
  }

  lemma {:induction false} StripCode(s: Stmt, syms: Symbols)
    ensures CodeOf(StripS(s), syms) == KeptCode(CodeOf(s, syms))
    decreases s, 1
  {
    match s
    case Let(name, value, escapes) => StripRow(value, syms, Store(name, !escapes));
    case Assign(name, source) => StripRow(source, syms, Store(name, IsLocal(syms, name)));
    case Print(e) => StripPrint(e, syms);
    case If(c, t, f) =>
      StripItems(c, syms);
      StripCode(t, syms);
      StripSyms(t, syms);
      StripCodeO(f, SymsS(t, syms));
    case While(c, b) =>
      StripItems(c, syms);
      StripCode(b, syms);
    case For(init, _, _, _) =>
      StripCodeO(init, syms);
      StripSymsO(init, syms);
      StripLoop(s, SymsO(init, syms));
    case Block(ss) => StripCodeSs(ss, syms);
    case Return(None) => StripReturn();
    case Return(Some(e)) => StripRow(e, syms, Exact(ReturnValue));
    case Function(_, _, _) =>
    case Bare(e) => StripItems(e, syms);
  }

  lemma {:induction false} StripRow(e: Expr, syms: Symbols, last: Item)
    requires !last.Free?
    ensures ItemsE(StripE(e), syms) + [last] == Kept(ItemsE(e, syms) + [last])
  {
    StripItems(e, syms);
    KeptThen(ItemsE(e, syms), last);
  }

  lemma {:induction false} StripPrint(e: Expr, syms: Symbols)
    ensures ItemsE(StripE(e), syms) + [Exact(PrintTop), Exact(Pop)]
         == Kept(ItemsE(e, syms) + [Exact(PrintTop), Exact(Pop)])
  {
    StripRow(e, syms, Exact(PrintTop));
    var items := ItemsE(e, syms) + [Exact(PrintTop)];
    KeptThen(items, Exact(Pop));
    assert items + [Exact(Pop)] == ItemsE(e, syms) + [Exact(PrintTop), Exact(Pop)];
  }

  lemma {:induction false} StripReturn()
    ensures Kept([Push(Nil), Exact(ReturnValue)]) == [Push(Nil), Exact(ReturnValue)]
  {
    KeptOne(Push(Nil));
    KeptThen([Push(Nil)], Exact(ReturnValue));
    assert [Push(Nil)] + [Exact(ReturnValue)] == [Push(Nil), Exact(ReturnValue)];
  }

  lemma {:induction false} StripLoop(s: Stmt, syms: Symbols)
    requires s.For?
    ensures LoopOf(StripS(s), syms) == KeptCode(LoopOf(s, syms))
    decreases s, 0
  {
    if s.test.Some? {
      StripItems(s.test.value, syms);
    }
    StripCode(s.forBody, syms);
    StripSyms(s.forBody, syms);
    StripCodeO(s.increment, SymsS(s.forBody, syms));
  }

  lemma {:induction false} StripCodeO(s: Option<Stmt>, syms: Symbols)
    ensures CodeOfO(StripO(s), syms) == KeptCode(CodeOfO(s, syms))
    ensures CodeOfStep(StripO(s), syms) == KeptCode(CodeOfStep(s, syms))
    decreases s
  {
    if s.Some? {
      StripCode(s.value, syms);
      KeptOne(Exact(Pop));
    }
  }

  lemma {:induction false} StripCodeSs(ss: seq<Stmt>, syms: Symbols)
    ensures CodeOfSs(StripSs(ss), syms) == KeptCode(CodeOfSs(ss, syms))
    decreases ss
  {
    if ss != [] {
      assert StripSs(ss)[..|ss| - 1] == StripSs(ss[..|ss| - 1]);
      StripCodeSs(ss[..|ss| - 1], syms);
      StripSymsSs(ss[..|ss| - 1], syms);
      StripCode(ss[|ss| - 1], SymsSs(ss[..|ss| - 1], syms));
    }
  }

  // ---- What loads will find ----

  /** The names whose environment entry, and whose register, a release may have emptied with no store
      since; and the names that have certainly been stored to a register. */
  datatype Lapse = Lapse(env: set<string>, regs: set<string>, kept: set<string>)

  const NOTHING := Lapse({}, {}, {})

  function Fate(item: Item, k: Lapse): Lapse {
    match item
    case Free(name) => k.(env := k.env + {name}, regs := k.regs + {name})
    case Store(name, true) => k.(regs := k.regs - {name}, kept := k.kept + {name})
    case Store(name, false) => k.(env := k.env - {name})
    case _ => k
  }

  function Fates(items: seq<Item>, k: Lapse): Lapse {
    if items == [] then k else Fate(items[|items| - 1], Fates(items[..|items| - 1], k))
  }

  function Joined(j: Lapse, k: Lapse): Lapse {
    Lapse(j.env + k.env, j.regs + k.regs, j.kept * k.kept)
  }

  function FatesO(test: Option<seq<Item>>, k: Lapse): Lapse {
    if test.Some? then Fates(test.value, k) else k
  }

  /** Along every path through the code. */
  function Later(code: Code, k: Lapse): Lapse
    decreases code, 0
  {
    match code
    case Row(items) => Fates(items, k)
    case Then(a, b) => Later(b, Later(a, k))
    case Branch(condition, yes, no) =>
      var tested := Fates(condition, k);
      Joined(Later(yes, tested), if no.Some? then Later(no.value, tested) else tested)
    case Loop(test, round) => FatesO(test, Head(test, round, k))
  }

  /** At the test of a loop: before the first round, or after one. */
  function Head(test: Option<seq<Item>>, round: Code, k: Lapse): Lapse
    decreases round, 1
  {
    var back := Later(round, FatesO(test, k));
    Lapse(k.env + back.env, k.regs + back.regs, k.kept)
  }

  /** More names in registers than there are: a store has failed by now. */
  predicate Crowded(k: Lapse) {
    |k.kept| > REGISTERS
  }

  predicate Finds(item: Item, k: Lapse) {
    item.Load? ==> item.name !in if item.isLocal then k.regs else k.env
  }

  predicate AllFind(items: seq<Item>, k: Lapse) {
    items == [] ||
    (var before := Fates(items[..|items| - 1], k);
     AllFind(items[..|items| - 1], k) && (Finds(items[|items| - 1], before) || Crowded(before)))
  }

  predicate Within(j: Lapse, k: Lapse) {
    j.env <= k.env && j.regs <= k.regs && j.kept >= k.kept
  }

  /** No load that is reached finds its variable released. */
  predicate Readable(code: Code, k: Lapse) {
    match code
    case Row(items) => AllFind(items, k)
    case Then(a, b) => Readable(a, k) && Readable(b, Later(a, k))
    case Branch(condition, yes, no) =>
      var tested := Fates(condition, k);
      AllFind(condition, k) && Readable(yes, tested) && (no.Some? ==> Readable(no.value, tested))
    case Loop(test, round) =>
      var head := Head(test, round, k);
      && (test.Some? ==> AllFind(test.value, head))
      && Readable(round, FatesO(test, head)) && Within(Later(round, FatesO(test, head)), head)
  }

  // ---- Two memories, one with releases and one without ----

  ghost predicate SameEnv(vars: seq<string>, gone: set<string>, a: Memory, b: Memory) {
    forall n :: n in vars && n !in gone ==> Lookup(a.env, n) == Lookup(b.env, n)
  }

  predicate SameRegister(vars: seq<string>, n: string, a: Memory, b: Memory) {
    Place(vars, n) < REGISTERS ==> a.locals[Place(vars, n)] == b.locals[Place(vars, n)]
  }

  ghost predicate SameRegisters(vars: seq<string>, gone: set<string>, a: Memory, b: Memory) {
    forall n :: n in vars && n !in gone ==> SameRegister(vars, n, a, b)
  }

  ghost predicate Fit(vars: seq<string>, kept: set<string>) {
    forall n :: n in kept ==> n in vars && Place(vars, n) < REGISTERS
  }

  ghost predicate Over(vars: seq<string>, env: map<string, Value>) {
    forall n :: n in env ==> n in vars
  }

  /** They differ at most in what is released. */
  ghost predicate Alike(vars: seq<string>, k: Lapse, a: Memory, b: Memory) {
    && a.stack == b.stack && a.out == b.out && Over(vars, a.env) && Over(vars, b.env)
    && Fit(vars, k.kept) && SameEnv(vars, k.env, a, b) && SameRegisters(vars, k.regs, a, b)
  }

  /** Both runs went through, or both met an error having printed the same, or both are going on. */
  ghost predicate Matched(vars: seq<string>, k: Lapse, x: Outcome, y: Outcome) {
    match x
    case Ran(a) => y.Ran? && Alike(vars, k, a, y.m)
    case Failed(a) => y.Failed? && a.out == y.m.out
    case Spent => y.Spent?
  }

  ghost predicate Table(vars: seq<string>) {
    Distinct(vars) && |vars| <= FRAME_SLOTS
  }

  predicate Named(vars: seq<string>, item: Item) {
    match item
    case Load(name, _) => name in vars
    case Store(name, _) => name in vars
    case Free(name) => name in vars
    case _ => true
  }

  predicate AllNamed(vars: seq<string>, items: seq<Item>) {
    forall i :: 0 <= i < |items| ==> Named(vars, items[i])
  }

  predicate NamedCode(vars: seq<string>, code: Code) {
    match code
    case Row(items) => AllNamed(vars, items)
    case Then(a, b) => NamedCode(vars, a) && NamedCode(vars, b)
    case Branch(condition, yes, no) =>
      AllNamed(vars, condition) && NamedCode(vars, yes) && (no.Some? ==> NamedCode(vars, no.value))
    case Loop(test, round) => (test.Some? ==> AllNamed(vars, test.value)) && NamedCode(vars, round)
  }

  lemma PlacesDiffer(vars: seq<string>, m: string, n: string)
    requires m in vars && n in vars && m != n
    ensures Place(vars, m) != Place(vars, n)
  {
  }

  lemma RoomInFrame(vars: seq<string>, env: map<string, Value>, name: string, v: Value)
    requires Table(vars) && name in vars && Over(vars, env)
    ensures Bind(env, name, v) == env[name := v]
  {
    if name !in env {
      var names := Preservation.Range(vars);
      Preservation.RangeSize(vars);
      assert env.Keys < names by {
        assert name in names;
      }
      assert names == env.Keys + (names - env.Keys);
      assert name in names - env.Keys;
    }
  }

  lemma {:induction false} SameStore(vars: seq<string>, fmt: Format, name: string, isLocal: bool, k: Lapse, a: Memory,
                                     b: Memory)
    requires Table(vars) && name in vars && Alike(vars, k, a, b)
    ensures Matched(vars, Fate(Store(name, isLocal), k), DoItem(vars, fmt, Store(name, isLocal), a),
                    DoItem(vars, fmt, Store(name, isLocal), b))
  {
    if isLocal {
      forall n | n in vars && n !in k.regs - {name}
        ensures Place(vars, name) < REGISTERS ==>
                  SameRegister(vars, n, DoItem(vars, fmt, Store(name, isLocal), a).m,
                               DoItem(vars, fmt, Store(name, isLocal), b).m)
      {
        if n != name {
          PlacesDiffer(vars, n, name);
          assert SameRegister(vars, n, a, b);
        }
      }
    } else {
      RoomInFrame(vars, a.env, name, Top(a.stack));
      RoomInFrame(vars, b.env, name, Top(b.stack));
    }
  }

  lemma {:induction false} SameItem(vars: seq<string>, fmt: Format, item: Item, k: Lapse, a: Memory, b: Memory)
    requires Table(vars) && Named(vars, item) && !item.Free? && Finds(item, k) && Alike(vars, k, a, b)
    ensures Matched(vars, Fate(item, k), DoItem(vars, fmt, item, a), DoItem(vars, fmt, item, b))
  {
    match item
    case Store(name, isLocal) => SameStore(vars, fmt, name, isLocal, k, a, b);
    case Load(name, isLocal) => assert isLocal ==> SameRegister(vars, name, a, b);
    case _ =>
  }

  lemma {:induction false} FreeAlike(vars: seq<string>, fmt: Format, name: string, k: Lapse, a: Memory, b: Memory)
    requires Table(vars) && name in vars && Alike(vars, k, a, b)
    ensures Matched(vars, Fate(Free(name), k), DoItem(vars, fmt, Free(name), a), Ran(b))
  {
    var a' := DoItem(vars, fmt, Free(name), a).m;
    forall n | n in vars && n !in k.regs + {name}
      ensures SameRegister(vars, n, a', b)
    {
      PlacesDiffer(vars, n, name);
      assert SameRegister(vars, n, a, b);
    }
  }

  lemma FitIsNotCrowded(vars: seq<string>, k: Lapse)
    requires Fit(vars, k.kept)
    ensures !Crowded(k)
  {
    var low := if |vars| <= REGISTERS then vars else vars[..REGISTERS];
    var names := Preservation.Range(low);
    Preservation.RangeSize(low);
    forall n | n in k.kept
      ensures n in names
    {
      assert vars[Place(vars, n)] == n && low[Place(vars, n)] == n;
    }
    assert names == k.kept + (names - k.kept);
  }

  lemma {:induction false} SameItems(vars: seq<string>, fmt: Format, items: seq<Item>, k: Lapse, a: Memory, b: Memory)
    requires Table(vars) && AllNamed(vars, items) && AllFind(items, k) && Alike(vars, k, a, b)
    ensures Matched(vars, Fates(items, k), DoItems(vars, fmt, items, a), DoItems(vars, fmt, Kept(items), b))
    decreases |items|
  {
    if items != [] {
      var front, last := items[..|items| - 1], items[|items| - 1];
      SameItems(vars, fmt, front, k, a, b);
      var x, y, before := DoItems(vars, fmt, front, a), DoItems(vars, fmt, Kept(front), b), Fates(front, k);
      DoKept(vars, fmt, items, b);
      if x.Ran? {
        FitIsNotCrowded(vars, before);
        assert Named(vars, last);
        if last.Free? {
          FreeAlike(vars, fmt, last.name, before, x.m, y.m);
        } else {
          SameItem(vars, fmt, last, before, x.m, y.m);
        }
      }
    }
  }

  lemma DoKept(vars: seq<string>, fmt: Format, items: seq<Item>, b: Memory)
    requires items != []
    ensures var front, last := DoItems(vars, fmt, Kept(items[..|items| - 1]), b), items[|items| - 1];
            DoItems(vars, fmt, Kept(items), b)
            == if last.Free? || !front.Ran? then front else DoItem(vars, fmt, last, front.m)
  {
    var front, last := Kept(items[..|items| - 1]), items[|items| - 1];
    if !last.Free? {
      assert Kept(items)[..|Kept(items)| - 1] == front && Kept(items)[|Kept(items)| - 1] == last;
    } else {
      assert Kept(items) == front;
    }
  }

  lemma Weaker(vars: seq<string>, j: Lapse, k: Lapse, x: Outcome, y: Outcome)
    requires Matched(vars, j, x, y) && Within(j, k)
    ensures Matched(vars, k, x, y)
  {
  }

  lemma PoppedAlike(vars: seq<string>, k: Lapse, a: Memory, b: Memory)
    requires Alike(vars, k, a, b)
    ensures Alike(vars, k, Popped(a), Popped(b))
  {
    forall n | n in vars && n !in k.regs
      ensures SameRegister(vars, n, Popped(a), Popped(b))
    {
      assert SameRegister(vars, n, a, b);
    }
  }

  /** The same code with and without its releases, when no load finds its variable released. */
  lemma {:induction false} SameCode(vars: seq<string>, fmt: Format, code: Code, k: Lapse, a: Memory, b: Memory,
                                    fuel: nat)
    requires Table(vars) && NamedCode(vars, code) && Readable(code, k) && Alike(vars, k, a, b)
    ensures Matched(vars, Later(code, k), Do(vars, fmt, code, a, fuel), Do(vars, fmt, KeptCode(code), b, fuel))
    decreases fuel, code, 1
  {
    match code
    case Row(items) => SameItems(vars, fmt, items, k, a, b);
    case Then(first, second) =>
      SameCode(vars, fmt, first, k, a, b, fuel);
      var x, y := Do(vars, fmt, first, a, fuel), Do(vars, fmt, KeptCode(first), b, fuel);
      if x.Ran? {
        SameCode(vars, fmt, second, Later(first, k), x.m, y.m, fuel);
      }
    case Branch(_, _, _) => SameBranch(vars, fmt, code, k, a, b, fuel);
    case Loop(test, round) => SameLoop(vars, fmt, code, Head(test, round, k), a, b, fuel);
  }

  lemma {:induction false} SameBranch(vars: seq<string>, fmt: Format, code: Code, k: Lapse, a: Memory, b: Memory,
                                      fuel: nat)
    requires code.Branch? && Table(vars) && NamedCode(vars, code) && Readable(code, k) && Alike(vars, k, a, b)
    ensures Matched(vars, Later(code, k), Do(vars, fmt, code, a, fuel), Do(vars, fmt, KeptCode(code), b, fuel))
    decreases fuel, code, 0
  {
    var tested := Fates(code.condition, k);
    SameItems(vars, fmt, code.condition, k, a, b);
    var x, y := DoItems(vars, fmt, code.condition, a), DoItems(vars, fmt, Kept(code.condition), b);
    if x.Ran? {
      PoppedAlike(vars, tested, x.m, y.m);
      var a', b' := Popped(x.m), Popped(y.m);
      if Truthy(Top(x.m.stack)) {
        SameCode(vars, fmt, code.yes, tested, a', b', fuel);
        Weaker(vars, Later(code.yes, tested), Later(code, k), Do(vars, fmt, code.yes, a', fuel),
               Do(vars, fmt, KeptCode(code.yes), b', fuel));
      } else if code.no.Some? {
        SameCode(vars, fmt, code.no.value, tested, a', b', fuel);
        Weaker(vars, Later(code.no.value, tested), Later(code, k), Do(vars, fmt, code.no.value, a', fuel),
               Do(vars, fmt, KeptCode(code.no.value), b', fuel));
      } else {
        Weaker(vars, tested, Later(code, k), Ran(a'), Ran(b'));
      }
    }
  }

  /** From the test of a loop on, whatever round it is. */
  lemma {:induction false} SameLoop(vars: seq<string>, fmt: Format, code: Code, head: Lapse, a: Memory, b: Memory,
                                    fuel: nat)
    requires code.Loop? && Table(vars) && NamedCode(vars, code) && Alike(vars, head, a, b)
    requires code.test.Some? ==> AllFind(code.test.value, head)
    requires Readable(code.round, FatesO(code.test, head))
    requires Within(Later(code.round, FatesO(code.test, head)), head)
    ensures Matched(vars, FatesO(code.test, head), Do(vars, fmt, code, a, fuel),
                    Do(vars, fmt, KeptCode(code), b, fuel))
    decreases fuel, code, 0
  {
    if fuel > 0 {
      if code.test.Some? {
        SameItems(vars, fmt, code.test.value, head, a, b);
        var x, y := DoItems(vars, fmt, code.test.value, a), DoItems(vars, fmt, Kept(code.test.value), b);
        if x.Ran? {
          PoppedAlike(vars, FatesO(code.test, head), x.m, y.m);
          if Truthy(Top(x.m.stack)) {
            SameRound(vars, fmt, code, head, Popped(x.m), Popped(y.m), fuel);
          }
        }
      } else {
        SameRound(vars, fmt, code, head, a, b, fuel);
      }
    }
  }

  function Again(vars: seq<string>, fmt: Format, code: Code, m: Memory, fuel: nat): Outcome
    requires code.Loop? && fuel > 0
  {
    var once := Do(vars, fmt, code.round, m, fuel);
    if once.Ran? then Do(vars, fmt, code, once.m, fuel - 1) else once
  }

  lemma {:induction false} SameRound(vars: seq<string>, fmt: Format, code: Code, head: Lapse, a: Memory, b: Memory,
                                     fuel: nat)
    requires code.Loop? && Table(vars) && NamedCode(vars, code) && fuel > 0
    requires Alike(vars, FatesO(code.test, head), a, b)
    requires code.test.Some? ==> AllFind(code.test.value, head)
    requires Readable(code.round, FatesO(code.test, head))
    requires Within(Later(code.round, FatesO(code.test, head)), head)
    ensures Matched(vars, FatesO(code.test, head), Again(vars, fmt, code, a, fuel),
                    Again(vars, fmt, KeptCode(code), b, fuel))
    decreases fuel, code.round, 2
  {
    var inside := FatesO(code.test, head);
    SameCode(vars, fmt, code.round, inside, a, b, fuel);
    var x, y := Do(vars, fmt, code.round, a, fuel), Do(vars, fmt, KeptCode(code.round), b, fuel);
    if x.Ran? {
      Weaker(vars, Later(code.round, inside), head, x, y);
      SameLoop(vars, fmt, code, head, x.m, y.m, fuel - 1);
    }
  }

  // ---- Which variables are released, along a sequence of events ----

  function Dead(dead: set<string>, ev: seq<Event>): set<string> {
    if ev == [] then dead
    else
      var before := Dead(dead, ev[..|ev| - 1]);
      match ev[|ev| - 1]
      case Use(name, _, marked) => if marked then before + {name} else before
      case Def(name) => before - {name}
  }

  /** No use finds its variable released. */
  predicate Sound(dead: set<string>, ev: seq<Event>) {
    ev == [] ||
    (Sound(dead, ev[..|ev| - 1]) &&
     (ev[|ev| - 1].Use? ==> ev[|ev| - 1].name !in Dead(dead, ev[..|ev| - 1])))
  }

  lemma {:induction false} SoundAppend(dead: set<string>, a: seq<Event>, b: seq<Event>)
    ensures Dead(dead, a + b) == Dead(Dead(dead, a), b)
    ensures Sound(dead, a + b) <==> Sound(dead, a) && Sound(Dead(dead, a), b)
    decreases |b|
  {
    if b == [] {
      assert a + b == a;
    } else {
      assert (a + b)[..|a + b| - 1] == a + b[..|b| - 1];
      SoundAppend(dead, a, b[..|b| - 1]);
    }
  }

  lemma {:induction false} DeadSince(ev: seq<Event>, name: string) returns (i: nat)
    requires name in Dead({}, ev)
    ensures i < |ev| && ev[i].Use? && ev[i].marked && ev[i].name == name && Def(name) !in ev[i..]
    decreases |ev|
  {
    var last, front := ev[|ev| - 1], ev[..|ev| - 1];
    if last.Use? && last.marked && last.name == name {
      i := |ev| - 1;
    } else {
      i := DeadSince(front, name);
      assert ev[i..] == front[i..] + [last];
    }
  }

  lemma {:induction false} LastUsesAreSound(ev: seq<Event>)
    requires LastUsesAreLast(ev)
    ensures Sound({}, ev)
    decreases |ev|
  {
    if ev != [] {
      var n := |ev| - 1;
      var front := ev[..n];
      forall i, j | 0 <= i < j < |front| && front[i].Use? && front[i].marked && front[j].Use?
                    && front[j].name == front[i].name
        ensures Def(front[i].name) in front[i..j]
      {
        assert front[i] == ev[i] && front[j] == ev[j] && front[i..j] == ev[i..j];
      }
      LastUsesAreSound(front);
      if ev[n].Use? && ev[n].name in Dead({}, front) {
        var i := DeadSince(front, ev[n].name);
      }
    }
  }

  // ---- The passes change nothing but marks and versions ----

  lemma {:induction false} StripNumberE(e: Expr, t: Table)
    ensures StripE(NumberE(e, t).0) == StripE(e)
    decreases e
  {
    match e
    case Binary(l, _, r) =>
      StripNumberE(l, t);
      StripNumberE(r, NumberE(l, t).1);
    case _ =>
  }

  lemma {:induction false} StripNumberS(s: Stmt, t: Table)
    ensures StripS(NumberS(s, t).0) == StripS(s)
    decreases s
  {
    match s
    case Let(_, value, _) => StripNumberE(value, t);
    case Assign(_, source) => StripNumberE(source, t);
    case Print(e) => StripNumberE(e, t);
    case While(c, b) =>
      StripNumberE(c, t);
      StripNumberS(b, NumberE(c, t).1);
    case Block(ss) => StripNumberSs(ss, t);
    case Bare(e) => StripNumberE(e, t);
    case _ =>
  }

  lemma {:induction false} StripNumberSs(ss: seq<Stmt>, t: Table)
    ensures StripSs(NumberSs(ss, t).0) == StripSs(ss)
    decreases ss
  {
    if ss != [] {
      var front := ss[..|ss| - 1];
      StripNumberSs(front, t);
      StripNumberS(ss[|ss| - 1], NumberSs(front, t).1);
      assert NumberSs(ss, t).0[..|ss| - 1] == NumberSs(front, t).0;
    }
  }

  lemma {:induction false} StripMarkE(e: Expr, name: string, version: nat, found: bool)
    ensures StripE(MarkE(e, name, version, found).0) == StripE(e)
    decreases e
  {
    match e
    case Binary(l, _, r) =>
      StripMarkE(r, name, version, false);
      StripMarkE(l, name, version, MarkE(r, name, version, false).1);
    case _ =>
  }

  lemma {:induction false} StripMarkS(s: Stmt, name: string, version: nat, found: bool)
    ensures StripS(MarkS(s, name, version, found).0) == StripS(s)
    decreases s, 1
  {
    match s
    case Let(_, value, _) => StripMarkE(value, name, version, false);
    case Assign(_, source) => StripMarkE(source, name, version, false);
    case Print(e) => StripMarkE(e, name, version, false);
    case If(_, _, _) => StripMarkIf(s, name, version, found);
    case While(c, b) =>
      StripMarkS(b, name, version, false);
      StripMarkE(c, name, version, MarkS(b, name, version, false).1);
    case Block(ss) => StripMarkSs(ss, name, version, false);
    case Bare(e) => StripMarkE(e, name, version, false);
    case _ =>
  }

  lemma {:induction false} StripMarkIf(s: Stmt, name: string, version: nat, found: bool)
    requires s.If?
    ensures StripS(MarkS(s, name, version, found).0) == StripS(s)
    decreases s, 0
  {
    var f := s.elseBranch.Some? && MarkS(s.elseBranch.value, name, version, false).1;
    if s.elseBranch.Some? {
      StripMarkS(s.elseBranch.value, name, version, false);
    }
    StripMarkS(s.thenBranch, name, version, f);
    StripMarkE(s.condition, name, version, MarkS(s.thenBranch, name, version, f).1);
  }

  lemma {:induction false} StripMarkSs(ss: seq<Stmt>, name: string, version: nat, found: bool)
    ensures StripSs(MarkSs(ss, name, version, found).0) == StripSs(ss)
    decreases ss
  {
    if ss != [] {
      var front, last := ss[..|ss| - 1], ss[|ss| - 1];
      StripMarkS(last, name, version, found);
      StripMarkSs(front, name, version, MarkS(last, name, version, found).1);
      assert MarkSs(ss, name, version, found).0[..|ss| - 1]
          == MarkSs(front, name, version, MarkS(last, name, version, found).1).0;
    }
  }

  lemma {:induction false} StripMarkVersions(s: Stmt, name: string, n: nat)
    ensures StripS(MarkVersions(s, name, n)) == StripS(s)
    decreases n
  {
    if n > 0 {
      StripMarkVersions(s, name, n - 1);
      StripMarkS(MarkVersions(s, name, n - 1), name, n - 1, false);
    }
  }

  lemma {:induction false} StripMarkVars(s: Stmt, t: Table)
    ensures StripS(MarkVars(s, t)) == StripS(s)
    decreases |t|
  {
    if t != [] {
      StripMarkVars(s, t[..|t| - 1]);
      StripMarkVersions(MarkVars(s, t[..|t| - 1]), t[|t| - 1].name, t[|t| - 1].totalVersions);
    }
  }

  lemma StripAnnotate(s: Stmt)
    ensures StripS(Annotate(s)) == StripS(s)
  {
    StripNumberS(s, []);
    StripMarkVars(NumberS(s, []).0, NumberS(s, []).1);
  }

  lemma {:induction false} StrippedE(e: Expr)
    ensures MentionsE(StripE(e)) == MentionsE(e)
    decreases e
  {
    match e
    case Unary(_, operand) => StrippedE(operand);
    case Binary(l, _, r) =>
      StrippedE(l);
      StrippedE(r);
    case Call(_, args) => StrippedEs(args);
    case _ =>
  }

  lemma {:induction false} StrippedEs(es: seq<Expr>)
    ensures MentionsEs(StripEs(es)) == MentionsEs(es)
    decreases es
  {
    if es != [] {
      assert StripEs(es)[..|es| - 1] == StripEs(es[..|es| - 1]);
      StrippedEs(es[..|es| - 1]);
      StrippedE(es[|es| - 1]);
    }
  }

  lemma {:induction false} StrippedS(s: Stmt)
    ensures MentionsS(StripS(s)) == MentionsS(s)
    decreases s, 1
  {
    match s
    case Let(_, value, _) => StrippedE(value);
    case Assign(_, source) => StrippedE(source);
    case Print(e) => StrippedE(e);
    case If(c, t, f) =>
      StrippedE(c);
      StrippedS(t);
      StrippedO(f);
    case While(c, b) =>
      StrippedE(c);
      StrippedS(b);
    case For(_, _, _, _) => StrippedFor(s);
    case Block(ss) => StrippedSs(ss);
    case Return(Some(e)) => StrippedE(e);
    case Bare(e) => StrippedE(e);
    case _ =>
  }

  lemma {:induction false} StrippedFor(s: Stmt)
    requires s.For?
    ensures MentionsS(StripS(s)) == MentionsS(s)
    decreases s, 0
  {
    StrippedO(s.init);
    if s.test.Some? {
      StrippedE(s.test.value);
    }
    StrippedS(s.forBody);
    StrippedO(s.increment);
  }

  lemma {:induction false} StrippedO(s: Option<Stmt>)
    ensures MentionsO(StripO(s)) == MentionsO(s)
    decreases s
  {
    if s.Some? {
      StrippedS(s.value);
    }
  }

  lemma {:induction false} StrippedSs(ss: seq<Stmt>)
    ensures MentionsSs(StripSs(ss)) == MentionsSs(ss)
    decreases ss
  {
    if ss != [] {
      assert StripSs(ss)[..|ss| - 1] == StripSs(ss[..|ss| - 1]);
      StrippedSs(ss[..|ss| - 1]);
      StrippedS(ss[|ss| - 1]);
    }
  }

  // ---- The theorem ----

  lemma {:induction false} ItemsNamed(p: Program, items: seq<Item>, at: nat)
    requires Holds(p, at, items)
    ensures AllNamed(p.vars, items)
  {
    forall i | 0 <= i < |items|
      ensures Named(p.vars, items[i])
    {
      assert FitsAt(p, at, items, i);
    }
  }

  lemma {:induction false} CodeNamed(p: Program, code: Code, at: nat)
    requires Holds(p, at, Laid(code, at))
    ensures NamedCode(p.vars, code)
    decreases code
  {
    match code
    case Row(items) => ItemsNamed(p, items, at);
    case Then(a, b) =>
      var first := Laid(a, at);
      HoldsSplit(p, at, first, Laid(b, at + |first|));
      CodeNamed(p, a, at);
      CodeNamed(p, b, at + |first|);
    case Branch(condition, yes, no) =>
      var yesAt := at + |condition| + 1;
      if no.Some? {
        var noAt: nat;
        yesAt, noAt := BranchSplits(p, code, at);
        HoldsSplit(p, at, condition, [Exact(JumpIfFalse(noAt))]);
        CodeNamed(p, no.value, noAt);
      } else {
        var guard := condition + [Exact(JumpIfFalse(yesAt + |Laid(yes, yesAt)|))];
        assert Laid(code, at) == guard + Laid(yes, yesAt);
        HoldsSplit(p, at, guard, Laid(yes, yesAt));
        HoldsSplit(p, at, condition, [Exact(JumpIfFalse(yesAt + |Laid(yes, yesAt)|))]);
      }
      ItemsNamed(p, condition, at);
      CodeNamed(p, yes, yesAt);
    case Loop(test, round) =>
      var start := at + |LaidTest(test, 0)|;
      var exit := start + |Laid(round, start)| + 1;
      Preservation.SplitLoop(p, at, LaidTest(test, exit), Laid(round, start), Exact(Jump(at)));
      if test.Some? {
        HoldsSplit(p, at, test.value, [Exact(JumpIfFalse(exit))]);
        ItemsNamed(p, test.value, at);
      }
      CodeNamed(p, round, start);
  }

  /** The two machines end alike: both halt, both stop with an error, or both go on for ever; and where
      they end they have printed the same. */
  ghost predicate Indistinct(p: Program, q: Program, fmt: Format) {
    forall out ::
      && (Divergence.Halts(p, fmt, out) <==> Divergence.Halts(q, fmt, out))
      && (Fails(p, fmt, Divergence.Initial(), out) <==> Fails(q, fmt, Divergence.Initial(), out))
  }

  lemma SameTrees(p: Program, q: Program, fmt: Format, t: Stmt, fuel: nat)
    requires CompiledFrom(p, t) && CompiledFrom(q, StripS(t)) && |q.vars| <= FRAME_SLOTS
    requires Readable(CodeOf(t, []), NOTHING)
    ensures p.vars == q.vars
    ensures Matched(p.vars, Later(CodeOf(t, []), NOTHING), DoTree(p.vars, fmt, t, fuel),
                    DoTree(q.vars, fmt, StripS(t), fuel))
  {
    var code := CodeOf(t, []);
    StrippedS(t);
    StripCode(t, []);
    LaidIsItems(t, 0, []);
    CodeNamed(p, code, 0);
    SameCode(p.vars, fmt, code, NOTHING, Blank(), Blank(), fuel);
  }

  /** Any program as the parser makes it, loops and branches included, compiled with and without the
      release marks: if no load finds its variable released, the two runs cannot be told apart.  The
      tables of the marking pass and of the compiler may overflow; the frame of the machine may not. */
  lemma ReleasesAreInvisible(p: Program, q: Program, fmt: Format, s: Stmt)
    requires StripS(s) == s && CompiledFrom(p, Annotate(s)) && CompiledFrom(q, s) && |q.vars| <= FRAME_SLOTS
    requires Readable(CodeOf(Annotate(s), []), NOTHING)
    ensures Indistinct(p, q, fmt)
  {
    var t := Annotate(s);
    StripAnnotate(s);
    forall out
      ensures Divergence.Halts(p, fmt, out) <==> Divergence.Halts(q, fmt, out)
      ensures Fails(p, fmt, Divergence.Initial(), out) <==> Fails(q, fmt, Divergence.Initial(), out)
    {
      EndAlike(p, q, fmt, t, out);
    }
  }

  lemma EndAlike(p: Program, q: Program, fmt: Format, t: Stmt, out: seq<Value>)
    requires CompiledFrom(p, t) && CompiledFrom(q, StripS(t)) && |q.vars| <= FRAME_SLOTS
    requires Readable(CodeOf(t, []), NOTHING)
    ensures Divergence.Halts(p, fmt, out) <==> Divergence.Halts(q, fmt, out)
    ensures Fails(p, fmt, Divergence.Initial(), out) <==> Fails(q, fmt, Divergence.Initial(), out)
  {
    StopsAsTheTree(p, fmt, t, out);
    StopsAsTheTree(q, fmt, StripS(t), out);
    forall fuel: nat
      ensures Matched(p.vars, Later(CodeOf(t, []), NOTHING), DoTree(p.vars, fmt, t, fuel),
                      DoTree(q.vars, fmt, StripS(t), fuel)) && p.vars == q.vars
    {
      SameTrees(p, q, fmt, t, fuel);
    }
  }
}
