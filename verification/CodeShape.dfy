// The code of a syntax tree, written down directly: no patching, and names and constants in
// place of table indices.
module CodeShape {
  import opened Ast
  import opened Values
  import opened Bytecode

  const MAX_SYMBOLS: nat := 100

  datatype Symbol = Symbol(name: string, isLocal: bool)

  /** The compile-time symbol table: the storage class of the latest declaration of a name. */
  type Symbols = seq<Symbol>

  function IsLocal(syms: Symbols, name: string): bool {
    if |syms| == 0 then false
    else if syms[0].name == name then syms[0].isLocal
    else IsLocal(syms[1..], name)
  }

  function AddSymbol(syms: Symbols, name: string, isLocal: bool): Symbols {
    AddSymbolFrom([], syms, name, isLocal)
  }

  /** `seen` holds the entries already passed over. */
  function AddSymbolFrom(seen: Symbols, syms: Symbols, name: string, isLocal: bool): Symbols
    decreases |syms|
  {
    if |syms| == 0 then
      if |seen| < MAX_SYMBOLS then seen + [Symbol(name, isLocal)] else seen
    else if syms[0].name == name then seen + [Symbol(name, isLocal)] + syms[1..]
    else AddSymbolFrom(seen + [syms[0]], syms[1..], name, isLocal)
  }

  // ---- The symbol table after a node, in compilation order ----

  function SymsS(s: Stmt, syms: Symbols): Symbols {
    match s
    case Let(name, _, escapes) => AddSymbol(syms, name, !escapes)
    case If(_, t, f) => SymsO(f, SymsS(t, syms))
    case While(_, b) => SymsS(b, syms)
    case For(init, _, increment, body) => SymsO(increment, SymsS(body, SymsO(init, syms)))
    case Block(ss) => SymsSs(ss, syms)
    case _ => syms
  }

  function SymsO(s: Option<Stmt>, syms: Symbols): Symbols {
    if s.Some? then SymsS(s.value, syms) else syms
  }

  function SymsSs(ss: seq<Stmt>, syms: Symbols): Symbols {
    if ss == [] then syms else SymsS(ss[|ss| - 1], SymsSs(ss[..|ss| - 1], syms))
  }

  // ---- The code ----

  /** An instruction whose table index is still a name or a constant. */
  datatype Item =
    | Push(v: Value)
    | Load(name: string, isLocal: bool)
    | Store(name: string, isLocal: bool)
    | Free(name: string)
    | Invoke(name: string)
    | Exact(i: Instr)

  function ItemsE(e: Expr, syms: Symbols): seq<Item> {
    match e
    case Absent => []
    case Number(n) => [Push(Num(n))]
    case Text(s) => [Push(Str(s))]
    case Boolean(b) => [Push(Bool(b))]
    case Ident(name, _, lastUse) => [Load(name, IsLocal(syms, name))] + if lastUse then [Free(name)] else []
    case Unary(op, operand) => ItemsE(operand, syms) + [Exact(Negate(op))]
    case Binary(l, op, r) => ItemsE(l, syms) + ItemsE(r, syms) + [Exact(Operate(op))]
    case Call(callee, args) => ItemsEs(args, syms) + [Invoke(callee)]
  }

  function ItemsEs(es: seq<Expr>, syms: Symbols): seq<Item> {
    if es == [] then [] else ItemsEs(es[..|es| - 1], syms) + ItemsE(es[|es| - 1], syms)
  }

  /** The code of `s` when its first instruction sits at `at`. */
  function ItemsS(s: Stmt, at: nat, syms: Symbols): seq<Item>
    decreases s, 2
  {
    match s
    case Let(name, value, escapes) => ItemsE(value, syms) + [Store(name, !escapes)]
    case Assign(name, source) => ItemsE(source, syms) + [Store(name, IsLocal(syms, name))]
    case Print(e) => ItemsE(e, syms) + [Exact(PrintTop), Exact(Pop)]
    case If(_, _, _) => ItemsIf(s, at, syms)
    case While(c, b) =>
      var test := ItemsE(c, syms);
      var body := ItemsS(b, at + |test| + 1, syms);
      test + [Exact(JumpIfFalse(at + |test| + 1 + |body| + 1))] + body + [Exact(Jump(at))]
    case For(init, _, _, _) =>
      var start := ItemsO(init, at, syms);
      start + ItemsLoop(s, at + |start|, SymsO(init, syms))
    case Block(ss) => ItemsSs(ss, at, syms)
    case Return(None) => [Push(Nil), Exact(ReturnValue)]
    case Return(Some(e)) => ItemsE(e, syms) + [Exact(ReturnValue)]
    case Function(_, _, _) => []
    case Bare(e) => ItemsE(e, syms)
  }

  function ItemsIf(s: Stmt, at: nat, syms: Symbols): seq<Item>
    requires s.If?
    decreases s, 0
  {
    var test := ItemsE(s.condition, syms);
    var thenAt := at + |test| + 1;
    var thenItems := ItemsS(s.thenBranch, thenAt, syms);
    var thenEnd := thenAt + |thenItems|;
    match s.elseBranch
    case None => test + [Exact(JumpIfFalse(thenEnd))] + thenItems
    case Some(f) =>
      var elseItems := ItemsS(f, thenEnd + 1, SymsS(s.thenBranch, syms));
      test + [Exact(JumpIfFalse(thenEnd + 1))] + thenItems
      + [Exact(Jump(thenEnd + 1 + |elseItems|))] + elseItems
  }

  /** The part of a `for` after its initialisation; `at` is where the back jump lands. */
  function ItemsLoop(s: Stmt, at: nat, syms: Symbols): seq<Item>
    requires s.For?
    decreases s, 1
  {
    var roundAt := at + |ItemsTest(s.test, 0, syms)|;
    var round := ItemsRound(s, roundAt, syms);
    ItemsTest(s.test, roundAt + |round| + 1, syms) + round + [Exact(Jump(at))]
  }

  /** One round of a `for`: its body and its increment. */
  function ItemsRound(s: Stmt, at: nat, syms: Symbols): seq<Item>
    requires s.For?
    decreases s, 0
  {
    var body := ItemsS(s.forBody, at, syms);
    body + ItemsStep(s.increment, at + |body|, SymsS(s.forBody, syms))
  }

  /** An increment and the pop of its result. */
  function ItemsStep(increment: Option<Stmt>, at: nat, syms: Symbols): seq<Item>
    decreases increment
  {
    if increment.Some? then ItemsS(increment.value, at, syms) + [Exact(Pop)] else []
  }

  /** The test of a `for`, if it has one, and the jump out of the loop. */
  function ItemsTest(test: Option<Expr>, exit: nat, syms: Symbols): seq<Item> {
    if test.Some? then ItemsE(test.value, syms) + [Exact(JumpIfFalse(exit))] else []
  }

  function ItemsO(s: Option<Stmt>, at: nat, syms: Symbols): seq<Item>
    decreases s
  {
    if s.Some? then ItemsS(s.value, at, syms) else []
  }

  function ItemsSs(ss: seq<Stmt>, at: nat, syms: Symbols): seq<Item>
    decreases ss
  {
    if ss == [] then []
    else
      var front := ItemsSs(ss[..|ss| - 1], at, syms);
      front + ItemsS(ss[|ss| - 1], at + |front|, SymsSs(ss[..|ss| - 1], syms))
  }

  // ---- When a program holds that code ----

  ghost predicate Differ<T>(s: seq<T>, i: nat, j: nat)
    requires i < |s| && j < |s|
  {
    s[i] != s[j]
  }

  /** Nothing occurs twice. */
  ghost predicate Distinct<T>(s: seq<T>) {
    forall i, j :: 0 <= i < j < |s| ==> Differ(s, i, j)
  }

  lemma DistinctSnoc<T>(s: seq<T>, x: T)
    requires Distinct(s) && x !in s
    ensures Distinct(s + [x])
  {
    forall i, j | 0 <= i < j < |s + [x]|
      ensures Differ(s + [x], i, j)
    {
      if j < |s| {
        assert Differ(s, i, j);
      }
    }
  }

  lemma SamePlace<T>(s: seq<T>, i: nat, j: nat)
    requires Distinct(s) && i < |s| && j < |s| && s[i] == s[j]
    ensures i == j
  {
    assert i < j ==> Differ(s, i, j);
    assert j < i ==> Differ(s, j, i);
  }

  predicate Names(p: Program, v: nat, name: string) {
    v < |p.vars| && p.vars[v] == name
  }

  predicate Fits(p: Program, i: Instr, item: Item) {
    match item
    case Push(v) => i.LoadConst? && i.k < |p.consts| && p.consts[i.k] == v
    case Load(name, isLocal) => (if isLocal then i.LoadLocal? else i.LoadVar?) && Names(p, i.v, name)
    case Store(name, isLocal) => (if isLocal then i.StoreLocal? else i.StoreVar?) && Names(p, i.v, name)
    case Free(name) => i.Release? && Names(p, i.v, name)
    case Invoke(name) => i.CallFunction? && Names(p, i.v, name)
    case Exact(j) => i == j
  }

  ghost predicate FitsAt(p: Program, at: nat, items: seq<Item>, k: nat)
    requires k < |items| && at + |items| <= |p.instrs|
  {
    Fits(p, p.instrs[at + k], items[k])
  }

  ghost predicate Holds(p: Program, at: nat, items: seq<Item>) {
    && at + |items| <= |p.instrs|
    && forall k :: 0 <= k < |items| ==> FitsAt(p, at, items, k)
  }

  lemma HoldsOne(p: Program, at: nat, item: Item)
    requires Holds(p, at, [item])
    ensures at < |p.instrs| && Fits(p, p.instrs[at], item)
  {
    assert FitsAt(p, at, [item], 0);
  }

  lemma HoldsSplit(p: Program, at: nat, a: seq<Item>, b: seq<Item>)
    requires Holds(p, at, a + b)
    ensures Holds(p, at, a) && Holds(p, at + |a|, b)
  {
    forall k | 0 <= k < |a|
      ensures FitsAt(p, at, a, k)
    {
      assert FitsAt(p, at, a + b, k);
    }
    var mid := at + |a|;
    forall k | 0 <= k < |b|
      ensures FitsAt(p, mid, b, k)
    {
      assert FitsAt(p, at, a + b, |a| + k);
    }
  }

  lemma HoldsJoin(p: Program, at: nat, a: seq<Item>, b: seq<Item>)
    requires Holds(p, at, a) && Holds(p, at + |a|, b)
    ensures Holds(p, at, a + b)
  {
    forall k | 0 <= k < |a + b|
      ensures FitsAt(p, at, a + b, k)
    {
      if k < |a| {
        assert FitsAt(p, at, a, k);
      } else {
        assert FitsAt(p, at + |a|, b, k - |a|);
      }
    }
  }

  /** Code is not disturbed by growing tables or by anything outside its own range. */
  lemma HoldsStable(p: Program, q: Program, at: nat, items: seq<Item>)
    requires Holds(p, at, items)
    requires p.consts <= q.consts && p.vars <= q.vars && |p.instrs| <= |q.instrs|
    requires forall k :: at <= k < at + |items| ==> q.instrs[k] == p.instrs[k]
    ensures Holds(q, at, items)
  {
    forall k | 0 <= k < |items|
      ensures FitsAt(q, at, items, k)
    {
      assert FitsAt(p, at, items, k);
    }
  }
}
