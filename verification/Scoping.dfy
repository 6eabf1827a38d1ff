// Declaring names before they are mentioned is enough for the compiler's choice of store to be
// the same everywhere.
module Scoping {
  import opened Ast
  import opened CodeShape
  import opened Preservation

  // ---- The symbol table as a map ----

  ghost predicate Listed(syms: Symbols, name: string) {
    exists i :: 0 <= i < |syms| && syms[i].name == name
  }

  lemma {:induction false} IsLocalAppend(a: Symbols, b: Symbols, name: string)
    ensures IsLocal(a + b, name) == if Listed(a, name) then IsLocal(a, name) else IsLocal(b, name)
    decreases |a|
  {
    if a == [] {
      assert a + b == b;
    } else {
      assert (a + b)[1..] == a[1..] + b;
      IsLocalAppend(a[1..], b, name);
      if Listed(a, name) && a[0].name != name {
        var i :| 0 <= i < |a| && a[i].name == name;
        assert a[1..][i - 1].name == name;
      }
    }
  }

  lemma {:induction false} ListedAppend(a: Symbols, b: Symbols, name: string)
    ensures Listed(a + b, name) <==> Listed(a, name) || Listed(b, name)
  {
    if i :| 0 <= i < |a| && a[i].name == name {
      assert (a + b)[i].name == name;
    }
    if i :| 0 <= i < |b| && b[i].name == name {
      assert (a + b)[|a| + i].name == name;
    }
  }

  /** Adding a symbol to a table with room changes the class of that name and of no other. */
  lemma {:induction false} AddSymbolFromIsUpdate(seen: Symbols, syms: Symbols, name: string, isLocal: bool, m: string)
    requires !Listed(seen, name) && (Listed(syms, name) || |seen| + |syms| < MAX_SYMBOLS)
    ensures var after := AddSymbolFrom(seen, syms, name, isLocal);
            && (IsLocal(after, m) == if m == name then isLocal else IsLocal(seen + syms, m))
            && (Listed(after, m) <==> m == name || Listed(seen + syms, m))
            && |after| == |seen| + |syms| + (if Listed(syms, name) then 0 else 1)
    decreases |syms|
  {
    var entry := [Symbol(name, isLocal)];
    if syms == [] {
      IsLocalAppend(seen, entry, m);
      IsLocalAppend(seen, syms, m);
      assert seen + syms == seen;
      ListedAppend(seen, entry, m);
      assert entry[0].name == name;
    } else if syms[0].name == name {
      var after := seen + entry + syms[1..];
      assert AddSymbolFrom(seen, syms, name, isLocal) == after;
      assert after == seen + (entry + syms[1..]);
      IsLocalAppend(seen, entry + syms[1..], m);
      IsLocalAppend(seen, syms, m);
      assert (entry + syms[1..])[1..] == syms[1..];
      ListedAppend(seen, entry + syms[1..], m);
      ListedAppend(entry, syms[1..], m);
      ListedAppend(seen, syms, m);
      ListedAppend(syms[..1], syms[1..], m);
      assert syms[..1] + syms[1..] == syms;
      assert entry[0].name == name && syms[..1][0].name == name;
    } else {
      assert seen + [syms[0]] + syms[1..] == seen + syms;
      assert Listed(syms[1..], name) <==> Listed(syms, name) by {
        if Listed(syms, name) {
          var i :| 0 <= i < |syms| && syms[i].name == name;
          assert syms[1..][i - 1].name == name;
        }
      }
      AddSymbolFromIsUpdate(seen + [syms[0]], syms[1..], name, isLocal, m);
    }
  }

  lemma ListedInRest(syms: Symbols, name: string)
    requires syms != []
    ensures Listed(syms[1..], name) ==> Listed(syms, name)
  {
    if i :| 0 <= i < |syms| - 1 && syms[1..][i].name == name {
      assert syms[i + 1].name == name;
    }
  }

  lemma {:induction false} AddSymbolTurnsAway(seen: Symbols, syms: Symbols, name: string, isLocal: bool)
    requires !Listed(syms, name) && |seen| + |syms| >= MAX_SYMBOLS
    ensures AddSymbolFrom(seen, syms, name, isLocal) == seen + syms
    decreases |syms|
  {
    if syms == [] {
      assert seen + syms == seen;
    } else {
      assert seen + [syms[0]] + syms[1..] == seen + syms;
      ListedInRest(syms, name);
      AddSymbolTurnsAway(seen + [syms[0]], syms[1..], name, isLocal);
    }
  }

  lemma {:induction false} UnlistedIsGlobal(syms: Symbols, name: string)
    requires !Listed(syms, name)
    ensures !IsLocal(syms, name)
    decreases |syms|
  {
    if syms != [] {
      ListedInRest(syms, name);
      UnlistedIsGlobal(syms[1..], name);
    }
  }

  /** With room or without: a name that a full table turns away is loaded from the environment. */
  lemma AddSymbolAnyway(syms: Symbols, name: string, isLocal: bool, m: string)
    ensures var after := AddSymbol(syms, name, isLocal);
            if Listed(syms, name) || |syms| < MAX_SYMBOLS then
              IsLocal(after, m) == if m == name then isLocal else IsLocal(syms, m)
            else after == syms && !IsLocal(syms, name)
  {
    assert [] + syms == syms;
    if Listed(syms, name) || |syms| < MAX_SYMBOLS {
      AddSymbolFromIsUpdate([], syms, name, isLocal, m);
    } else {
      AddSymbolTurnsAway([], syms, name, isLocal);
      UnlistedIsGlobal(syms, name);
    }
  }

  /** The table holds exactly the names in `known`, each once. */
  ghost predicate Enlists(syms: Symbols, known: set<string>) {
    (forall n :: Listed(syms, n) <==> n in known) && |syms| == |known|
  }

  lemma {:induction false} AddSymbolEnlists(syms: Symbols, known: set<string>, all: set<string>, name: string,
                                            isLocal: bool)
    requires Enlists(syms, known) && known <= all && name in all && |all| <= MAX_SYMBOLS
    ensures Enlists(AddSymbol(syms, name, isLocal), known + {name})
    ensures forall m :: IsLocal(AddSymbol(syms, name, isLocal), m) == if m == name then isLocal else IsLocal(syms, m)
  {
    if name !in known {
      assert |known| < |all| by {
        assert all == known + (all - known);
        assert name in all - known;
      }
    }
    assert [] + syms == syms;
    forall m
      ensures IsLocal(AddSymbol(syms, name, isLocal), m) == if m == name then isLocal else IsLocal(syms, m)
      ensures Listed(AddSymbol(syms, name, isLocal), m) <==> m == name || Listed(syms, m)
    {
      AddSymbolFromIsUpdate([], syms, name, isLocal, m);
    }
    AddSymbolFromIsUpdate([], syms, name, isLocal, name);
    if name in known {
      assert known + {name} == known;
    }
  }

  /** ... and gives each of them the class that `regs` does. */
  ghost predicate Tabulates(syms: Symbols, known: set<string>, regs: set<string>) {
    Enlists(syms, known) && forall n :: IsLocal(syms, n) <==> n in known && n in regs
  }

  // ---- The condition on the text of a program ----

  /** The names whose declaration is complete after `s`, given those before it. */
  function KnownS(s: Stmt, known: set<string>): set<string> {
    match s
    case Let(name, _, _) => known + {name}
    case If(_, t, f) => KnownO(f, KnownS(t, known))
    case While(_, b) => KnownS(b, known)
    case For(init, _, increment, body) => KnownO(increment, KnownS(body, KnownO(init, known)))
    case Block(ss) => KnownSs(ss, known)
    case _ => known
  }

  function KnownO(s: Option<Stmt>, known: set<string>): set<string> {
    if s.Some? then KnownS(s.value, known) else known
  }

  function KnownSs(ss: seq<Stmt>, known: set<string>): set<string> {
    if ss == [] then known else KnownS(ss[|ss| - 1], KnownSs(ss[..|ss| - 1], known))
  }

  /** A mention is in order once the name's declaration is complete, or if it has none at all. */
  predicate InOrder(name: string, known: set<string>, all: set<string>) {
    name in known || name !in all
  }

  predicate OrderlyE(e: Expr, known: set<string>, all: set<string>) {
    match e
    case Ident(name, _, lastUse) => !lastUse && InOrder(name, known, all)
    case Unary(_, operand) => OrderlyE(operand, known, all)
    case Binary(l, _, r) => OrderlyE(l, known, all) && OrderlyE(r, known, all)
    case Call(_, args) => false
    case _ => true
  }

  /** Names are declared before they are mentioned, and each with one storage class; `all` holds
      every name that is declared anywhere. */
  predicate OrderlyS(s: Stmt, known: set<string>, all: set<string>, regs: set<string>)
    decreases s, 1
  {
    match s
    case Let(name, value, escapes) =>
      OrderlyE(value, known, all) && name in all && (!escapes <==> name in regs)
    case Assign(name, source) => OrderlyE(source, known, all) && InOrder(name, known, all)
    case Print(e) => OrderlyE(e, known, all)
    case If(c, t, f) =>
      && OrderlyE(c, known, all)
      && OrderlyS(t, known, all, regs)
      && OrderlyO(f, KnownS(t, known), all, regs)
    case While(c, b) => OrderlyE(c, known, all) && OrderlyS(b, known, all, regs)
    case For(init, _, _, _) => OrderlyO(init, known, all, regs) && OrderlyLoop(s, KnownO(init, known), all, regs)
    case Block(ss) => OrderlySs(ss, known, all, regs)
    case Bare(e) => OrderlyE(e, known, all)
    case _ => false
  }

  predicate OrderlyLoop(s: Stmt, known: set<string>, all: set<string>, regs: set<string>)
    requires s.For?
    decreases s, 0
  {
    && (s.test.Some? ==> OrderlyE(s.test.value, known, all))
    && OrderlyS(s.forBody, known, all, regs)
    && OrderlyO(s.increment, KnownS(s.forBody, known), all, regs)
  }

  predicate OrderlyO(s: Option<Stmt>, known: set<string>, all: set<string>, regs: set<string>)
    decreases s
  {
    s.Some? ==> OrderlyS(s.value, known, all, regs)
  }

  predicate OrderlySs(ss: seq<Stmt>, known: set<string>, all: set<string>, regs: set<string>)
    decreases ss
  {
    ss == [] ||
    (var front := ss[..|ss| - 1];
     OrderlySs(front, known, all, regs) && OrderlyS(ss[|ss| - 1], KnownSs(front, known), all, regs))
  }

  // ---- It settles every mention ----

  lemma {:induction false} OrderlySettlesE(e: Expr, syms: Symbols, known: set<string>, all: set<string>,
                                           regs: set<string>)
    requires Tabulates(syms, known, regs) && regs <= all && OrderlyE(e, known, all)
    ensures SettledE(e, syms, regs)
    decreases e
  {
    match e
    case Unary(_, operand) => OrderlySettlesE(operand, syms, known, all, regs);
    case Binary(l, _, r) =>
      OrderlySettlesE(l, syms, known, all, regs);
      OrderlySettlesE(r, syms, known, all, regs);
    case _ =>
  }

  /** If every name is declared before it is mentioned, or never declared, and always with the same
      storage class, then every mention compiles to the store of that class. */
  lemma {:induction false} OrderlySettlesS(s: Stmt, syms: Symbols, known: set<string>, all: set<string>,
                                           regs: set<string>)
    requires Tabulates(syms, known, regs) && known <= all && regs <= all && |all| <= MAX_SYMBOLS
    requires OrderlyS(s, known, all, regs)
    ensures SettledS(s, syms, regs) && Tabulates(SymsS(s, syms), KnownS(s, known), regs) && KnownS(s, known) <= all
    decreases s, 1
  {
    match s
    case Let(name, value, escapes) =>
      OrderlySettlesE(value, syms, known, all, regs);
      AddSymbolEnlists(syms, known, all, name, !escapes);
    case Assign(_, source) => OrderlySettlesE(source, syms, known, all, regs);
    case Print(e) => OrderlySettlesE(e, syms, known, all, regs);
    case Bare(e) => OrderlySettlesE(e, syms, known, all, regs);
    case If(c, t, f) =>
      OrderlySettlesE(c, syms, known, all, regs);
      OrderlySettlesS(t, syms, known, all, regs);
      OrderlySettlesO(f, SymsS(t, syms), KnownS(t, known), all, regs);
    case While(c, b) =>
      OrderlySettlesE(c, syms, known, all, regs);
      OrderlySettlesS(b, syms, known, all, regs);
    case For(init, _, _, _) =>
      OrderlySettlesO(init, syms, known, all, regs);
      OrderlySettlesLoop(s, SymsO(init, syms), KnownO(init, known), all, regs);
    case Block(ss) => OrderlySettlesSs(ss, syms, known, all, regs);
  }

  lemma {:induction false} OrderlySettlesLoop(s: Stmt, syms: Symbols, known: set<string>, all: set<string>,
                                              regs: set<string>)
    requires Tabulates(syms, known, regs) && known <= all && regs <= all && |all| <= MAX_SYMBOLS
    requires s.For? && OrderlyLoop(s, known, all, regs)
    ensures SettledLoop(s, syms, regs)
    ensures var after := KnownO(s.increment, KnownS(s.forBody, known));
            after <= all && Tabulates(SymsO(s.increment, SymsS(s.forBody, syms)), after, regs)
    decreases s, 0
  {
    if s.test.Some? {
      OrderlySettlesE(s.test.value, syms, known, all, regs);
    }
    OrderlySettlesS(s.forBody, syms, known, all, regs);
    OrderlySettlesO(s.increment, SymsS(s.forBody, syms), KnownS(s.forBody, known), all, regs);
  }

  lemma {:induction false} OrderlySettlesO(s: Option<Stmt>, syms: Symbols, known: set<string>, all: set<string>,
                                           regs: set<string>)
    requires Tabulates(syms, known, regs) && known <= all && regs <= all && |all| <= MAX_SYMBOLS
    requires OrderlyO(s, known, all, regs)
    ensures SettledO(s, syms, regs) && Tabulates(SymsO(s, syms), KnownO(s, known), regs) && KnownO(s, known) <= all
    decreases s
  {
    if s.Some? {
      OrderlySettlesS(s.value, syms, known, all, regs);
    }
  }

  lemma {:induction false} OrderlySettlesSs(ss: seq<Stmt>, syms: Symbols, known: set<string>, all: set<string>,
                                            regs: set<string>)
    requires Tabulates(syms, known, regs) && known <= all && regs <= all && |all| <= MAX_SYMBOLS
    requires OrderlySs(ss, known, all, regs)
    ensures SettledSs(ss, syms, regs) && Tabulates(SymsSs(ss, syms), KnownSs(ss, known), regs)
    ensures KnownSs(ss, known) <= all
    decreases ss
  {
    if ss != [] {
      var front := ss[..|ss| - 1];
      OrderlySettlesSs(front, syms, known, all, regs);
      OrderlySettlesS(ss[|ss| - 1], SymsSs(front, syms), KnownSs(front, known), all, regs);
    }
  }
}
