// The compiler as it works: appending instructions, patching jumps in place, and growing its
// tables by search.
module Compiler {
  import opened Ast
  import opened Values
  import opened Bytecode
  import opened CodeShape
  import opened Spans
  import opened Programs
  import SpanPlaces

  /** `q` is `p` with the code of `items` appended; the tables of `q` extend those of `p`. */
  ghost predicate Grown(p: Program, q: Program, items: seq<Item>) {
    && p.instrs <= q.instrs && p.consts <= q.consts && p.vars <= q.vars
    && |q.instrs| == |p.instrs| + |items|
    && Holds(q, |p.instrs|, items)
  }

  lemma GrownTwice(p: Program, q: Program, r: Program, a: seq<Item>, b: seq<Item>)
    requires Grown(p, q, a) && Grown(q, r, b)
    ensures Grown(p, r, a + b)
  {
    HoldsStable(q, r, |p.instrs|, a);
    HoldsJoin(r, |p.instrs|, a, b);
  }

  lemma GrownPatched(p: Program, q: Program, items: seq<Item>, k: nat, i: Instr, patched: seq<Item>)
    requires Grown(p, q, items) && k < |items| && patched == items[k := Exact(i)]
    ensures Grown(p, q.(instrs := q.instrs[|p.instrs| + k := i]), patched)
  {
    var at := |p.instrs|;
    var r := q.(instrs := q.instrs[at + k := i]);
    forall j | 0 <= j < |patched|
      ensures FitsAt(r, at, patched, j)
    {
      assert FitsAt(q, at, items, j);
    }
  }

  lemma Regroup<T>(a: seq<T>, b: seq<T>, c: seq<T>)
    ensures a + b + c == a + (b + c)
  {
  }

  class Compiler {
    var instrs: seq<Instr>
    var consts: seq<Value>
    var vars: seq<string>
    var symbols: Symbols
    var spans: seq<Span>
    ghost var mentions: seq<string>

    /** The constant pool and the variable table hold nothing twice, and the variable table lists
        the names mentioned so far. */
    ghost predicate Valid()
      reads this
    {
      Distinct(consts) && Distinct(vars) && Lists(vars, mentions)
    }

    ghost function Code(): Program
      reads this
    {
      Program(instrs, consts, vars)
    }

    constructor ()
      ensures Valid() && Code() == Program([], [], []) && symbols == [] && spans == [] && mentions == []
    {
      instrs, consts, vars, symbols, spans := [], [], [], [], [];
      mentions := [];
    }

    method AddConstant(constant: Value) returns (index: nat)
      requires Valid()
      modifies this`consts
      ensures Valid()
      ensures old(consts) <= consts && index < |consts| && consts[index] == constant
      ensures constant in old(consts) ==> consts == old(consts)
    {
      index := 0;
      while index < |consts|
        invariant index <= |consts| && consts == old(consts)
        invariant constant !in consts[..index]
      {
        if consts[index] == constant {
          return;
        }
        index := index + 1;
      }
      DistinctSnoc(consts, constant);
      consts := consts + [constant];
    }

    method AddVariable(name: string) returns (index: nat)
      requires Distinct(vars)
      modifies this`vars
      ensures Distinct(vars) && vars == AddName(old(vars), name)
      ensures index < |vars| && vars[index] == name
    {
      index := 0;
      while index < |vars|
        invariant index <= |vars| && vars == old(vars)
        invariant name !in vars[..index]
      {
        if vars[index] == name {
          return;
        }
        index := index + 1;
      }
      DistinctSnoc(vars, name);
      vars := vars + [name];
    }

    /** Adds a variable that the text mentions here. */
    method Mention(name: string) returns (index: nat)
      requires Valid()
      modifies this`vars, this`mentions
      ensures Valid() && mentions == old(mentions) + [name]
      ensures old(vars) <= vars && index < |vars| && vars[index] == name
    {
      index := AddVariable(name);
      ListsSnoc(old(vars), mentions, name);
      mentions := mentions + [name];
    }

    method AddCompilerSymbol(name: string, isLocal: bool)
      modifies this`symbols
      ensures symbols == AddSymbol(old(symbols), name, isLocal)
    {
      var i := 0;
      while i < |symbols|
        invariant i <= |symbols| && symbols == old(symbols)
        invariant AddSymbol(symbols, name, isLocal) == AddSymbolFrom(symbols[..i], symbols[i..], name, isLocal)
      {
        if symbols[i].name == name {
          symbols := symbols[i := Symbol(name, isLocal)];
          assert symbols == old(symbols[..i]) + [Symbol(name, isLocal)] + old(symbols[i..])[1..];
          return;
        }
        assert symbols[..i] + [symbols[i]] == symbols[..i + 1];
        i := i + 1;
      }
      assert symbols[..i] == symbols;
      if |symbols| < MAX_SYMBOLS {
        symbols := symbols + [Symbol(name, isLocal)];
      }
    }

    method CompilerIsLocal(name: string) returns (isLocal: bool)
      ensures isLocal == IsLocal(symbols, name)
    {
      var i := 0;
      while i < |symbols|
        invariant i <= |symbols|
        invariant IsLocal(symbols, name) == IsLocal(symbols[i..], name)
      {
        if symbols[i].name == name {
          return symbols[i].isLocal;
        }
        i := i + 1;
      }
      return false;
    }

    method Emit(i: Instr)
      modifies this`instrs
      ensures instrs == old(instrs) + [i]
    {
      instrs := instrs + [i];
    }

    method EmitExact(i: Instr)
      modifies this`instrs
      ensures instrs == old(instrs) + [i]
      ensures Grown(old(Code()), Code(), [Exact(i)])
    {
      Emit(i);
    }

    method EmitConstant(v: Value)
      requires Valid()
      modifies this`instrs, this`consts
      ensures Valid() && Grown(old(Code()), Code(), [Push(v)])
    {
      var k := AddConstant(v);
      Emit(LoadConst(k));
    }

    method EmitLoad(name: string)
      requires Valid()
      modifies this`instrs, this`vars, this`mentions
      ensures Valid() && mentions == old(mentions) + [name]
      ensures name in vars
      ensures Grown(old(Code()), Code(), [Load(name, IsLocal(symbols, name))])
    {
      var v := Mention(name);
      var isLocal := CompilerIsLocal(name);
      if isLocal {
        Emit(LoadLocal(v));
      } else {
        Emit(LoadVar(v));
      }
    }

    method EmitStore(name: string, isLocal: bool)
      requires Valid()
      modifies this`instrs, this`vars, this`mentions
      ensures Valid() && mentions == old(mentions) + [name]
      ensures Grown(old(Code()), Code(), [Store(name, isLocal)])
    {
      var v := Mention(name);
      if isLocal {
        Emit(StoreLocal(v));
      } else {
        Emit(StoreVar(v));
      }
    }

    /** Overwrites the jump that follows the code of `before`. */
    method Patch(ghost start: Program, ghost before: seq<Item>, ghost after: seq<Item>, pos: nat, ghost was: Instr,
                 i: Instr)
      requires Grown(start, Code(), before + [Exact(was)] + after) && pos == |start.instrs| + |before|
      modifies this`instrs
      ensures instrs == old(instrs)[pos := i] && Grown(start, Code(), before + [Exact(i)] + after)
    {
      GrownPatched(start, Code(), before + [Exact(was)] + after, |before|, i, before + [Exact(i)] + after);
      instrs := instrs[pos := i];
    }

    method CompileExpr(e: Expr)
      requires Valid()
      modifies this`instrs, this`consts, this`vars, this`spans, this`mentions
      ensures Valid() && Grown(old(Code()), Code(), ItemsE(e, symbols))
      ensures spans == old(spans) + SpansE(e, |old(instrs)|, symbols)
      ensures mentions == old(mentions) + MentionsE(e)
      decreases e, 2
    {
      if e.Absent? {
        return;
      }
      var startPc := |instrs|;
      ghost var start := Code();
      match e {
        case Number(n) => EmitConstant(Num(n));
        case Text(s) => EmitConstant(Str(s));
        case Boolean(b) => EmitConstant(Bool(b));
        case Ident(name, _, lastUse) => CompileIdent(name, lastUse);
        case Unary(_, _) => CompileUnary(e);
        case Binary(_, _, _) => CompileBinary(e);
        case Call(_, _) => CompileCall(e);
      }
      spans := spans + [Span(startPc, |instrs|)];
    }

    method CompileIdent(name: string, lastUse: bool)
      requires Valid()
      modifies this`instrs, this`vars, this`mentions
      ensures Valid() && mentions == old(mentions) + [name]
      ensures Grown(old(Code()), Code(), [Load(name, IsLocal(symbols, name))] + if lastUse then [Free(name)] else [])
    {
      ghost var start := Code();
      EmitLoad(name);
      assert [Load(name, IsLocal(symbols, name))] + [] == [Load(name, IsLocal(symbols, name))];
      if lastUse {
        ghost var loaded := Code();
        EmitRelease(name);
        GrownTwice(start, loaded, Code(), [Load(name, IsLocal(symbols, name))], [Free(name)]);
      }
    }

    method CompileUnary(e: Expr)
      requires Valid() && e.Unary?
      modifies this`instrs, this`consts, this`vars, this`spans, this`mentions
      ensures Valid() && Grown(old(Code()), Code(), ItemsE(e, symbols))
      ensures spans == old(spans) + SpansE(e.operand, |old(instrs)|, symbols)
      ensures mentions == old(mentions) + MentionsE(e)
      decreases e, 0
    {
      ghost var start := Code();
      CompileExpr(e.operand);
      ghost var inner := Code();
      EmitExact(Negate(e.unaryOp));
      GrownTwice(start, inner, Code(), ItemsE(e.operand, symbols), [Exact(Negate(e.unaryOp))]);
    }

    method CompileBinary(e: Expr)
      requires Valid() && e.Binary?
      modifies this`instrs, this`consts, this`vars, this`spans, this`mentions
      ensures Valid() && Grown(old(Code()), Code(), ItemsE(e, symbols))
      ensures spans == old(spans) + (SpansE(e.left, |old(instrs)|, symbols)
                                     + SpansE(e.right, |old(instrs)| + |ItemsE(e.left, symbols)|, symbols))
      ensures mentions == old(mentions) + MentionsE(e)
      decreases e, 0
    {
      ghost var start, left, right := Code(), ItemsE(e.left, symbols), ItemsE(e.right, symbols);
      CompileExpr(e.left);
      ghost var leftDone := Code();
      CompileExpr(e.right);
      ghost var bothDone := Code();
      GrownTwice(start, leftDone, bothDone, left, right);
      Regroup(old(mentions), MentionsE(e.left), MentionsE(e.right));
      Regroup(old(spans), SpansE(e.left, |start.instrs|, symbols), SpansE(e.right, |leftDone.instrs|, symbols));
      EmitExact(Operate(e.op));
      GrownTwice(start, bothDone, Code(), left + right, [Exact(Operate(e.op))]);
    }

    method CompileCall(e: Expr)
      requires Valid() && e.Call?
      modifies this`instrs, this`consts, this`vars, this`spans, this`mentions
      ensures Valid() && Grown(old(Code()), Code(), ItemsE(e, symbols))
      ensures spans == old(spans) + SpansEs(e.arguments, |old(instrs)|, symbols)
      ensures mentions == old(mentions) + MentionsE(e)
      decreases e, 1
    {
      ghost var start := Code();
      CompileArguments(e);
      ghost var inner := Code();
      EmitCall(e.callee);
      GrownTwice(start, inner, Code(), ItemsEs(e.arguments, symbols), [Invoke(e.callee)]);
    }

    method CompileArguments(call: Expr)
      requires Valid() && call.Call?
      modifies this`instrs, this`consts, this`vars, this`spans, this`mentions
      ensures Valid() && Grown(old(Code()), Code(), ItemsEs(call.arguments, symbols))
      ensures spans == old(spans) + SpansEs(call.arguments, |old(instrs)|, symbols)
      ensures mentions == old(mentions) + MentionsEs(call.arguments)
      decreases call, 0
    {
      var es := call.arguments;
      ghost var start := Code();
      var i := 0;
      while i < |es|
        invariant i <= |es| && Valid()
        invariant Grown(start, Code(), ItemsEs(es[..i], symbols))
        invariant spans == old(spans) + SpansEs(es[..i], |start.instrs|, symbols)
        invariant mentions == old(mentions) + MentionsEs(es[..i])
      {
        ghost var before := Code();
        CompileExpr(es[i]);
        GrownTwice(start, before, Code(), ItemsEs(es[..i], symbols), ItemsE(es[i], symbols));
        assert es[..i + 1][..i] == es[..i];
        i := i + 1;
      }
      assert es[..i] == es;
    }

    method EmitRelease(name: string)
      requires Valid() && name in vars
      modifies this`instrs, this`vars
      ensures Valid() && vars == old(vars)
      ensures Grown(old(Code()), Code(), [Free(name)])
    {
      var v := AddVariable(name);
      Emit(Release(v));
    }

    method EmitCall(name: string)
      requires Valid()
      modifies this`instrs, this`vars, this`mentions
      ensures Valid() && mentions == old(mentions) + [name]
      ensures Grown(old(Code()), Code(), [Invoke(name)])
    {
      var v := Mention(name);
      Emit(CallFunction(v));
    }

    /** Compiles a statement after whatever is there already.  What is appended, once every jump
        has been patched, is exactly the code written down by `ItemsS`. */
    method CompileStatement(s: Stmt)
      requires Valid()
      modifies this
      ensures Valid() && Grown(old(Code()), Code(), ItemsS(s, |old(instrs)|, old(symbols)))
      ensures symbols == SymsS(s, old(symbols))
      ensures spans == old(spans) + SpansS(s, |old(instrs)|, old(symbols))
      ensures mentions == old(mentions) + MentionsS(s)
      decreases s, 4
    {
      var startPc := |instrs|;
      ghost var start := Code();
      match s {
        case Let(_, _, _) => CompileStore(s);
        case Assign(_, _) => CompileStore(s);
        case Print(e) =>
          CompileExpr(e);
          ghost var inner := Code();
          EmitExact(PrintTop);
          ghost var printed := Code();
          EmitExact(Pop);
          GrownTwice(inner, printed, Code(), [Exact(PrintTop)], [Exact(Pop)]);
          GrownTwice(start, inner, Code(), ItemsE(e, symbols), [Exact(PrintTop), Exact(Pop)]);
        case If(_, _, _) => CompileIf(s);
        case While(_, _) => CompileWhile(s);
        case For(_, _, _, _) => CompileFor(s);
        case Block(_) => CompileBlock(s);
        case Return(_) => CompileReturn(s);
        case Function(_, _, _) =>
        case Bare(e) => CompileExpr(e);
      }
      spans := spans + [Span(startPc, |instrs|)];
    }

    method CompileStore(s: Stmt)
      requires Valid() && (s.Let? || s.Assign?)
      modifies this
      ensures Valid() && Grown(old(Code()), Code(), ItemsS(s, |old(instrs)|, old(symbols)))
      ensures symbols == SymsS(s, old(symbols))
      ensures spans == old(spans) + SpansBelow(s, |old(instrs)|, old(symbols))
      ensures mentions == old(mentions) + MentionsS(s)
      decreases s, 0
    {
      ghost var start := Code();
      if s.Let? {
        CompileExpr(s.value);
        ghost var inner := Code();
        AddCompilerSymbol(s.variable, !s.escapes);
        EmitStore(s.variable, !s.escapes);
        GrownTwice(start, inner, Code(), ItemsE(s.value, old(symbols)), [Store(s.variable, !s.escapes)]);
      } else {
        CompileExpr(s.source);
        ghost var inner := Code();
        var isLocal := CompilerIsLocal(s.target);
        EmitStore(s.target, isLocal);
        GrownTwice(start, inner, Code(), ItemsE(s.source, symbols), [Store(s.target, isLocal)]);
      }
    }

    method CompileReturn(s: Stmt)
      requires Valid() && s.Return?
      modifies this
      ensures Valid() && Grown(old(Code()), Code(), ItemsS(s, |old(instrs)|, old(symbols)))
      ensures symbols == old(symbols)
      ensures spans == old(spans) + SpansBelow(s, |old(instrs)|, old(symbols))
      ensures mentions == old(mentions) + MentionsS(s)
      decreases s, 0
    {
      ghost var start := Code();
      if s.result.Some? {
        CompileExpr(s.result.value);
      } else {
        EmitConstant(Nil);
      }
      ghost var inner := Code();
      EmitExact(ReturnValue);
      assert [Push(Nil), Exact(ReturnValue)] == [Push(Nil)] + [Exact(ReturnValue)];
      GrownTwice(start, inner, Code(),
                 if s.result.Some? then ItemsE(s.result.value, symbols) else [Push(Nil)], [Exact(ReturnValue)]);
    }

    /** Compiles a condition and a jump past what it guards; the jump still has to be patched. */
    method CompileGuard(e: Expr) returns (jumpIfFalsePos: nat)
      requires Valid()
      modifies this`instrs, this`consts, this`vars, this`spans, this`mentions
      ensures Valid() && Grown(old(Code()), Code(), ItemsE(e, symbols) + [Exact(JumpIfFalse(0))])
      ensures jumpIfFalsePos == |old(instrs)| + |ItemsE(e, symbols)|
      ensures spans == old(spans) + SpansE(e, |old(instrs)|, symbols)
      ensures mentions == old(mentions) + MentionsE(e)
    {
      ghost var start := Code();
      CompileExpr(e);
      ghost var tested := Code();
      jumpIfFalsePos := |instrs|;
      EmitExact(JumpIfFalse(0));
      GrownTwice(start, tested, Code(), ItemsE(e, symbols), [Exact(JumpIfFalse(0))]);
    }

    method CompileIf(s: Stmt)
      requires Valid() && s.If?
      modifies this
      ensures Valid() && Grown(old(Code()), Code(), ItemsIf(s, |old(instrs)|, old(symbols)))
      ensures symbols == SymsS(s, old(symbols))
      ensures spans == old(spans) + SpansBelow(s, |old(instrs)|, old(symbols))
      ensures mentions == old(mentions) + MentionsS(s)
      decreases s, 2
    {
      ghost var start, test, thenItems := Code(), ItemsE(s.condition, symbols), ThenItems(s, |instrs|, symbols);
      ghost var at, syms := |instrs|, symbols;
      var jumpIfFalsePos := CompileThen(s);
      if s.elseBranch.None? {
        IfWithoutElse(s, at, syms);
        Patch(start, test, thenItems, jumpIfFalsePos, JumpIfFalse(0), JumpIfFalse(|instrs|));
      } else {
        IfWithElse(s, at, syms);
        CompileElse(s.elseBranch.value, jumpIfFalsePos, start, test, thenItems);
      }
    }

    ghost function ThenItems(s: Stmt, at: nat, syms: Symbols): seq<Item>
      requires s.If?
    {
      ItemsS(s.thenBranch, at + |ItemsE(s.condition, syms)| + 1, syms)
    }

    lemma IfWithoutElse(s: Stmt, at: nat, syms: Symbols)
      requires s.If? && s.elseBranch.None?
      ensures var test, thenItems := ItemsE(s.condition, syms), ThenItems(s, at, syms);
              && ItemsIf(s, at, syms) == test + [Exact(JumpIfFalse(at + |test| + 1 + |thenItems|))] + thenItems
              && SpansBelow(s, at, syms) == SpansE(s.condition, at, syms) + SpansS(s.thenBranch, at + |test| + 1, syms)
      ensures SymsS(s, syms) == SymsS(s.thenBranch, syms)
      ensures MentionsS(s) == MentionsE(s.condition) + MentionsS(s.thenBranch)
    {
    }

    lemma IfWithElse(s: Stmt, at: nat, syms: Symbols)
      requires s.If? && s.elseBranch.Some?
      ensures var test, thenItems := ItemsE(s.condition, syms), ThenItems(s, at, syms);
              var elseAt := at + |test| + 1 + |thenItems| + 1;
              var elseItems := ItemsS(s.elseBranch.value, elseAt, SymsS(s.thenBranch, syms));
              && ItemsIf(s, at, syms) == test + [Exact(JumpIfFalse(elseAt))] + thenItems
                                         + [Exact(Jump(elseAt + |elseItems|))] + elseItems
              && SpansBelow(s, at, syms) == SpansE(s.condition, at, syms) + SpansS(s.thenBranch, at + |test| + 1, syms)
                                            + SpansS(s.elseBranch.value, elseAt, SymsS(s.thenBranch, syms))
      ensures SymsS(s, syms) == SymsS(s.elseBranch.value, SymsS(s.thenBranch, syms))
      ensures MentionsS(s) == MentionsE(s.condition) + MentionsS(s.thenBranch) + MentionsS(s.elseBranch.value)
    {
    }

    /** Condition, unpatched jump and `then` branch. */
    method CompileThen(s: Stmt) returns (jumpIfFalsePos: nat)
      requires Valid() && s.If?
      modifies this
      ensures var test := ItemsE(s.condition, old(symbols));
              var thenItems := ThenItems(s, |old(instrs)|, old(symbols));
              && Valid() && Grown(old(Code()), Code(), test + [Exact(JumpIfFalse(0))] + thenItems)
              && jumpIfFalsePos == |old(instrs)| + |test|
              && spans == old(spans) + (SpansE(s.condition, |old(instrs)|, old(symbols))
                                        + SpansS(s.thenBranch, |old(instrs)| + |test| + 1, old(symbols)))
      ensures symbols == SymsS(s.thenBranch, old(symbols))
      ensures mentions == old(mentions) + (MentionsE(s.condition) + MentionsS(s.thenBranch))
      decreases s, 1
    {
      ghost var start, test, thenItems := Code(), ItemsE(s.condition, symbols), ThenItems(s, |instrs|, symbols);
      jumpIfFalsePos := CompileGuard(s.condition);
      ghost var guarded := Code();
      CompileStatement(s.thenBranch);
      GrownTwice(start, guarded, Code(), test + [Exact(JumpIfFalse(0))], thenItems);
    }

    /** The code between a `then` branch and the end of its `if`, and both of the jumps. */
    method CompileElse(f: Stmt, jumpIfFalsePos: nat, ghost start: Program, ghost test: seq<Item>,
                       ghost thenItems: seq<Item>)
      requires Valid() && Grown(start, Code(), test + [Exact(JumpIfFalse(0))] + thenItems)
      requires jumpIfFalsePos == |start.instrs| + |test|
      modifies this
      ensures var elseAt := |start.instrs| + |test| + 1 + |thenItems| + 1;
              var elseItems := ItemsS(f, elseAt, old(symbols));
              && Valid()
              && Grown(start, Code(), test + [Exact(JumpIfFalse(elseAt))] + thenItems
                                      + [Exact(Jump(elseAt + |elseItems|))] + elseItems)
              && spans == old(spans) + SpansS(f, elseAt, old(symbols))
      ensures symbols == SymsS(f, old(symbols))
      ensures mentions == old(mentions) + MentionsS(f)
      decreases f, 5
    {
      ghost var chosen := Code();
      var jumpElsePos := |instrs|;
      EmitExact(Jump(0));
      var elseAt := |instrs|;
      ghost var front := test + [Exact(JumpIfFalse(0))] + thenItems;
      GrownTwice(start, chosen, Code(), front, [Exact(Jump(0))]);
      assert front + [Exact(Jump(0))] == test + [Exact(JumpIfFalse(0))] + (thenItems + [Exact(Jump(0))]);
      Patch(start, test, thenItems + [Exact(Jump(0))], jumpIfFalsePos, JumpIfFalse(0), JumpIfFalse(elseAt));
      front := test + [Exact(JumpIfFalse(elseAt))] + thenItems;
      assert test + [Exact(JumpIfFalse(elseAt))] + (thenItems + [Exact(Jump(0))]) == front + [Exact(Jump(0))];

      ghost var split, elseItems := Code(), ItemsS(f, elseAt, symbols);
      CompileStatement(f);
      GrownTwice(start, split, Code(), front + [Exact(Jump(0))], elseItems);
      Patch(start, front, elseItems, jumpElsePos, Jump(0), Jump(|instrs|));
    }

    method CompileWhile(s: Stmt)
      requires Valid() && s.While?
      modifies this
      ensures Valid() && Grown(old(Code()), Code(), ItemsS(s, |old(instrs)|, old(symbols)))
      ensures symbols == SymsS(s, old(symbols))
      ensures spans == old(spans) + SpansBelow(s, |old(instrs)|, old(symbols))
      ensures mentions == old(mentions) + MentionsS(s)
      decreases s, 1
    {
      ghost var start, test := Code(), ItemsE(s.guard, symbols);
      var loopStart := |instrs|;
      var jumpIfFalsePos := CompileGuard(s.guard);
      ghost var guarded := Code();
      ghost var body := ItemsS(s.loopBody, |instrs|, symbols);
      CompileStatement(s.loopBody);
      Regroup(old(mentions), MentionsE(s.guard), MentionsS(s.loopBody));
      Regroup(old(spans), SpansE(s.guard, loopStart, old(symbols)),
              SpansS(s.loopBody, |guarded.instrs|, old(symbols)));
      CloseLoop(start, guarded, test, body, jumpIfFalsePos, loopStart);
    }

    /** Emits the jump back at the end of a loop whose test and guard `guarded` already holds, and
        patches the guard to leave after it. */
    method CloseLoop(ghost start: Program, ghost guarded: Program, ghost test: seq<Item>, ghost body: seq<Item>,
                     jumpIfFalsePos: nat, loopStart: nat)
      requires Grown(start, guarded, test + [Exact(JumpIfFalse(0))]) && Grown(guarded, Code(), body)
      requires jumpIfFalsePos == |start.instrs| + |test|
      modifies this`instrs
      ensures |instrs| == |old(instrs)| + 1
      ensures Grown(start, Code(), test + [Exact(JumpIfFalse(|instrs|))] + body + [Exact(Jump(loopStart))])
    {
      ghost var ran, back := Code(), [Exact(Jump(loopStart))];
      EmitExact(Jump(loopStart));
      GrownTwice(guarded, ran, Code(), body, back);
      GrownTwice(start, guarded, Code(), test + [Exact(JumpIfFalse(0))], body + back);
      Patch(start, test, body + back, jumpIfFalsePos, JumpIfFalse(0), JumpIfFalse(|instrs|));
      var exit := JumpIfFalse(|instrs|);
      assert test + [Exact(exit)] + (body + back) == test + [Exact(exit)] + body + back;
    }

    method CompileFor(s: Stmt)
      requires Valid() && s.For?
      modifies this
      ensures Valid() && Grown(old(Code()), Code(), ItemsS(s, |old(instrs)|, old(symbols)))
      ensures symbols == SymsS(s, old(symbols))
      ensures spans == old(spans) + SpansBelow(s, |old(instrs)|, old(symbols))
      ensures mentions == old(mentions) + MentionsS(s)
      decreases s, 2
    {
      ghost var start, init := Code(), ItemsO(s.init, |instrs|, symbols);
      CompileOptional(s.init);
      ghost var started, loop := Code(), ItemsLoop(s, |instrs|, symbols);
      CompileLoop(s);
      GrownTwice(start, started, Code(), init, loop);
    }

    method CompileOptional(s: Option<Stmt>)
      requires Valid()
      modifies this
      ensures Valid() && Grown(old(Code()), Code(), ItemsO(s, |old(instrs)|, old(symbols)))
      ensures symbols == SymsO(s, old(symbols))
      ensures spans == old(spans) + SpansO(s, |old(instrs)|, old(symbols))
      ensures mentions == old(mentions) + MentionsO(s)
      decreases s
    {
      if s.Some? {
        CompileStatement(s.value);
      }
    }

    /** The test, body and increment of a `for`, once it has been initialised. */
    method CompileLoop(s: Stmt)
      requires Valid() && s.For?
      modifies this
      ensures Valid() && Grown(old(Code()), Code(), ItemsLoop(s, |old(instrs)|, old(symbols)))
      ensures symbols == SymsO(s.increment, SymsS(s.forBody, old(symbols)))
      ensures spans == old(spans) + SpansLoop(s, |old(instrs)|, old(symbols))
      ensures mentions == old(mentions) + ((if s.test.Some? then MentionsE(s.test.value) else [])
                                           + (MentionsS(s.forBody) + MentionsO(s.increment)))
      decreases s, 1
    {
      ghost var start := Code();
      var loopStart := |instrs|;
      if s.test.Some? {
        ghost var test := ItemsE(s.test.value, symbols);
        var jumpIfFalsePos := CompileGuard(s.test.value);
        ghost var guarded, round := Code(), ItemsRound(s, |instrs|, symbols);
        CompileRound(s);
        CloseLoop(start, guarded, test, round, jumpIfFalsePos, loopStart);
      } else {
        ghost var round := ItemsRound(s, |instrs|, symbols);
        CompileRound(s);
        ghost var ran := Code();
        EmitExact(Jump(loopStart));
        GrownTwice(start, ran, Code(), round, [Exact(Jump(loopStart))]);
        assert [] + round + [Exact(Jump(loopStart))] == round + [Exact(Jump(loopStart))];
      }
    }

    method CompileRound(s: Stmt)
      requires Valid() && s.For?
      modifies this
      ensures Valid() && Grown(old(Code()), Code(), ItemsRound(s, |old(instrs)|, old(symbols)))
      ensures symbols == SymsO(s.increment, SymsS(s.forBody, old(symbols)))
      ensures spans == old(spans) + SpansRound(s, |old(instrs)|, old(symbols))
      ensures mentions == old(mentions) + (MentionsS(s.forBody) + MentionsO(s.increment))
      decreases s, 0
    {
      ghost var start, body := Code(), ItemsS(s.forBody, |instrs|, symbols);
      CompileStatement(s.forBody);
      ghost var ran, step := Code(), ItemsStep(s.increment, |instrs|, symbols);
      CompileIncrement(s.increment);
      GrownTwice(start, ran, Code(), body, step);
    }

    method CompileIncrement(s: Option<Stmt>)
      requires Valid()
      modifies this
      ensures Valid() && Grown(old(Code()), Code(), ItemsStep(s, |old(instrs)|, old(symbols)))
      ensures symbols == SymsO(s, old(symbols))
      ensures spans == old(spans) + SpansO(s, |old(instrs)|, old(symbols))
      ensures mentions == old(mentions) + MentionsO(s)
      decreases s
    {
      if s.Some? {
        ghost var start, items := Code(), ItemsS(s.value, |instrs|, symbols);
        CompileStatement(s.value);
        ghost var inner := Code();
        EmitExact(Pop); // removes the result of the increment
        GrownTwice(start, inner, Code(), items, [Exact(Pop)]);
      }
    }

    method CompileBlock(s: Stmt)
      requires Valid() && s.Block?
      modifies this
      ensures Valid() && Grown(old(Code()), Code(), ItemsS(s, |old(instrs)|, old(symbols)))
      ensures symbols == SymsS(s, old(symbols))
      ensures spans == old(spans) + SpansBelow(s, |old(instrs)|, old(symbols))
      ensures mentions == old(mentions) + MentionsS(s)
      decreases s, 0
    {
      var ss := s.statements;
      ghost var start, syms, at := Code(), symbols, |instrs|;
      var i := 0;
      while i < |ss|
        invariant i <= |ss| && Valid()
        invariant Grown(start, Code(), ItemsSs(ss[..i], at, syms))
        invariant symbols == SymsSs(ss[..i], syms)
        invariant spans == old(spans) + SpansSs(ss[..i], at, syms)
        invariant mentions == old(mentions) + MentionsSs(ss[..i])
      {
        ghost var before := Code();
        ghost var items := ItemsS(ss[i], |instrs|, symbols);
        CompileStatement(ss[i]);
        GrownTwice(start, before, Code(), ItemsSs(ss[..i], at, syms), items);
        assert ss[..i + 1][..i] == ss[..i];
        i := i + 1;
      }
      assert ss[..i] == ss;
    }
  }

  /** Compiles a whole tree, and records the instruction range of every node in it. */
  method CompilerCompile(ast: Stmt) returns (p: Program, spans: seq<Span>)
    ensures CompiledFrom(p, ast)
    ensures spans == SpansS(ast, 0, []) && SpanPlaces.AllOccupy(p, SpanPlaces.NodesS(ast, []), spans)
  {
    var compiler := new Compiler();
    compiler.CompileStatement(ast);
    ghost var compiled := compiler.Code();
    assert [] + MentionsS(ast) == MentionsS(ast) && [] + SpansS(ast, 0, []) == SpansS(ast, 0, []);
    compiler.Emit(Halt);
    p := Program(compiler.instrs, compiler.consts, compiler.vars);
    spans := compiler.spans;
    HoldsStable(compiled, p, 0, ItemsS(ast, 0, []));
    SpanPlaces.OccupyS(p, ast, 0, []);
  }
}
