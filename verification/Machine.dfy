// The virtual machine with its counted objects: every slot that refers to an object holds one of
// the references the object counts.
module Machine {
  import opened Ast
  import opened Values
  import opened Bytecode
  import Scopes
  import opened Ownership
  import opened Balance

  class Vm {
    const program: Program
    var pc: nat
    var stack: seq<Cell>
    var locals: seq<Cell>
    var env: Scopes.Chain<Cell>
    var snapshots: seq<Snapshot>
    var heap: Heap
    var out: seq<Value>
    /** The address of the next object. */
    var next: nat
    /** The text of every object ever made, by identifier. */
    ghost var texts: seq<string>

    ghost function Here(): Places
      reads this`stack, this`locals, this`env, this`snapshots
    {
      Places(stack, locals, env, snapshots)
    }

    ghost predicate Owns(extra: seq<Cell>)
      reads this`stack, this`locals, this`env, this`snapshots, this`heap, this`texts, this`next
    {
      next == |texts| && Balanced(heap, texts, Here(), extra)
    }

    /** The registers are 32 and the environment is one frame. */
    ghost predicate Formed()
      reads this`locals, this`env, this`snapshots
    {
      |locals| == REGISTERS && SingleFrame(env)
      && forall i :: 0 <= i < |snapshots| ==> |snapshots[i].locals| == REGISTERS
    }

    ghost function View(): State
      requires |locals| == REGISTERS
      reads this`pc, this`stack, this`locals, this`env, this`texts, this`out
    {
      State(pc, DenoteSeq(texts, stack), DenoteSeq(texts, locals), DenoteMap(texts, Scopes.Flat(env)), out)
    }

    constructor (program: Program)
      ensures Owns([]) && Formed() && this.program == program && snapshots == []
      ensures View() == State(0, [], seq(REGISTERS, _ => Nil), map[], [])
    {
      this.program := program;
      pc, stack, env, snapshots, heap, out, next := 0, [], Scopes.Scope([], Scopes.Nowhere), [], map[], [], 0;
      locals := seq(REGISTERS, _ => CNil);
      texts := [];
      new;
      NothingHeld(locals);
      assert DenoteSeq(texts, locals) == seq(REGISTERS, _ => Nil);
    }

    // ---- Objects ----

    method Retain(v: Cell)
      requires Live(heap, v)
      modifies this`heap
      ensures heap == Retained(old(heap), v)
    {
      if v.CObj? {
        heap := heap[v.id := heap[v.id].(refs := heap[v.id].refs + 1)];
      }
    }

    /** An object goes with its last reference. */
    method Release(v: Cell)
      requires Live(heap, v)
      modifies this`heap
      ensures heap == Released(old(heap), v)
    {
      if v.CObj? {
        var o := heap[v.id];
        heap := heap[v.id := o.(refs := o.refs - 1)];
        if heap[v.id].refs == 0 {
          heap := heap - {v.id};
        }
      }
    }

    /** Gives up a value in hand. */
    method Discard(v: Cell, ghost extra: seq<Cell>)
      requires Owns(extra + [v]) && |locals| == REGISTERS
      modifies this`heap
      ensures Owns(extra) && View() == old(View())
    {
      ReleaseBalances(heap, texts, Here(), extra, v);
      Release(v);
    }

    method NewString(chars: string, ghost extra: seq<Cell>) returns (v: Cell)
      requires Owns(extra) && |locals| == REGISTERS
      modifies this`heap, this`texts, this`next
      ensures Owns(extra + [v]) && View() == old(View()) && texts == old(texts) + [chars]
      ensures v == CObj(|old(texts)|)
      ensures forall x :: x in extra ==> Denote(texts, x) == Denote(old(texts), x)
    {
      CreateBalances(heap, texts, Here(), extra, chars);
      HeldIsKnown(heap, texts, Here(), extra);
      DenoteSeqGrows(texts, chars, stack);
      DenoteSeqGrows(texts, chars, locals);
      DenoteMapGrows(texts, chars, env);
      DenoteSeqGrows(texts, chars, extra);
      ghost var before := texts;
      heap := heap[next := Object(chars, 1)];
      v := CObj(next);
      next := next + 1;
      texts := texts + [chars];
      forall x | x in extra
        ensures Denote(texts, x) == Denote(before, x)
      {
        var i :| 0 <= i < |extra| && extra[i] == x;
        assert DenoteSeq(texts, extra)[i] == DenoteSeq(before, extra)[i];
      }
    }

    // ---- The value stack ----

    method Push(v: Cell, ghost extra: seq<Cell>)
      requires Owns(extra + [v]) && |locals| == REGISTERS
      modifies this`stack
      ensures Owns(extra) && View() == old(View()).(stack := old(View()).stack + [Denote(texts, v)])
    {
      StackGrows(heap, texts, Here(), extra, v);
      DenotePush(texts, stack, v);
      stack := stack + [v];
    }

    /** The caller takes over the reference; an empty stack yields nil. */
    method Pop(ghost extra: seq<Cell>) returns (v: Cell)
      requires Owns(extra) && |locals| == REGISTERS
      modifies this`stack
      ensures Owns(extra + [v]) && View() == old(View()).(stack := Rest(old(View()).stack))
      ensures Denote(texts, v) == Top(old(View()).stack)
    {
      DenoteTop(texts, stack);
      if |stack| == 0 {
        v := CNil;
        NothingInHand(heap, texts, Here(), extra, v);
      } else {
        StackTopMoves(heap, texts, Here(), extra);
        v := stack[|stack| - 1];
        stack := stack[..|stack| - 1];
      }
    }

    /** A further reference to the value on top. */
    method Peek(ghost extra: seq<Cell>) returns (v: Cell)
      requires Owns(extra) && |locals| == REGISTERS
      modifies this`heap
      ensures Owns(extra + [v]) && View() == old(View()) && Denote(texts, v) == Top(View().stack)
    {
      DenoteTop(texts, stack);
      if |stack| == 0 {
        v := CNil;
        NothingInHand(heap, texts, Here(), extra, v);
      } else {
        v := stack[|stack| - 1];
        StackTopBalances(heap, texts, Here(), extra);
        Retain(v);
      }
    }

    /** The text of a value that is in use. */
    method CharsOf(v: Cell) returns (s: string)
      requires HeapOk(heap, texts) && Live(heap, v) && v.CObj?
      ensures Denote(texts, v) == Str(s)
    {
      assert ObjectOk(heap, texts, v.id);
      s := heap[v.id].chars;
    }

    // ---- The environment ----

    method HasIn(c: Scopes.Chain<Cell>, name: string) returns (found: bool)
      ensures found == Scopes.Has(c, name)
      decreases c
    {
      if c.Nowhere? {
        return false;
      }
      ghost var index := Scopes.IndexOf(c.frame, name);
      var i := 0;
      while i < |c.frame|
        invariant i <= index
      {
        if c.frame[i].key == name {
          return true;
        }
        i := i + 1;
      }
      found := HasIn(c.parent, name);
    }

    /** The value comes with a reference of its own. */
    method GetIn(c: Scopes.Chain<Cell>, name: string) returns (v: Cell)
      requires HeapOk(heap, texts) && (name in Scopes.Flat(c) ==> Live(heap, Scopes.Flat(c)[name]))
      modifies this`heap
      ensures v == if name in Scopes.Flat(c) then Scopes.Flat(c)[name] else CNil
      ensures Live(old(heap), v) && heap == Retained(old(heap), v)
      decreases c
    {
      if c.Nowhere? {
        return CNil;
      }
      Scopes.FrameMapBinds(c.frame, name);
      ghost var index := Scopes.IndexOf(c.frame, name);
      var i := 0;
      while i < |c.frame|
        invariant i <= index && heap == old(heap)
      {
        if c.frame[i].key == name {
          v := c.frame[i].value;
          Retain(v);
          return;
        }
        i := i + 1;
      }
      v := GetIn(c.parent, name);
    }

    method SetIn(c: Scopes.Chain<Cell>, name: string, value: Cell) returns (r: Scopes.Chain<Cell>)
      requires HeapOk(heap, texts) && Covers(heap, c, value)
      modifies this`heap
      ensures r == Scopes.Set(c, name, value) && HeapOk(heap, texts) && Follows(old(heap), c, heap, r)
      decreases c
    {
      if c.Nowhere? {
        return c;
      }
      CoveredIsLive(heap, c, value);
      RetainedCounts(heap, texts, value);
      Retain(value);
      ghost var h := heap;
      var f := c.frame;
      ghost var index := Scopes.IndexOf(f, name);
      var i := 0;
      while i < |f|
        invariant i <= index && heap == h
      {
        if f[i].key == name {
          BindingReplaced(old(heap), texts, c, i, Scopes.Binding(name, value));
          Release(f[i].value);
          return Scopes.Scope(f[i := Scopes.Binding(name, value)], c.parent);
        }
        i := i + 1;
      }
      var inParent := HasIn(c.parent, name);
      if inParent {
        OuterCovered(old(heap), texts, c, value);
        var parent := SetIn(c.parent, name, value);
        OuterReplaced(old(heap), texts, c, value, heap, parent);
        Release(value);
        r := Scopes.Scope(f, parent);
      } else if |f| < Scopes.FRAME_SLOTS {
        BindingAdded(old(heap), c, Scopes.Binding(name, value));
        r := Scopes.Scope(f + [Scopes.Binding(name, value)], c.parent);
      } else {
        RetainedReleased(old(heap), texts, value);
        Release(value);
        r := c;
      }
    }

    method RemoveIn(c: Scopes.Chain<Cell>, name: string) returns (r: Scopes.Chain<Cell>)
      requires HeapOk(heap, texts) && Covers(heap, c, CNil)
      modifies this`heap
      ensures r == Scopes.Remove(c, name) && HeapOk(heap, texts) && Follows(old(heap), c, heap, r)
      decreases c
    {
      if c.Nowhere? {
        return c;
      }
      var f := c.frame;
      ghost var index := Scopes.IndexOf(f, name);
      var i := 0;
      while i < |f|
        invariant i <= index && heap == old(heap)
      {
        if f[i].key == name {
          BindingDropped(heap, texts, c, i);
          Release(f[i].value);
          if i < |f| - 1 {
            f := f[i := f[|f| - 1]];
          }
          f := f[..|f| - 1];
          return Scopes.Scope(f, c.parent);
        }
        i := i + 1;
      }
      forall id: nat
        ensures CountChain(c.parent, id) <= CountChain(c, id)
      {
      }
      var parent := RemoveIn(c.parent, name);
      r := Scopes.Scope(f, parent);
    }

    method EnvironmentSet(name: string, value: Cell, ghost extra: seq<Cell>)
      requires Owns(extra + [value]) && Formed()
      modifies this`heap, this`env
      ensures Owns(extra + [value]) && Formed()
      ensures View() == old(View()).(env := Bind(old(View()).env, name, Denote(texts, value)))
    {
      BindsAlike(texts, env, name, value);
      SingleFrameSet(env, name, value);
      ChainSet(name, value, extra);
    }

    /** The same in a chain of any depth. */
    method ChainSet(name: string, value: Cell, ghost extra: seq<Cell>)
      requires Owns(extra + [value])
      modifies this`heap, this`env
      ensures Owns(extra + [value]) && env == Scopes.Set(old(env), name, value)
    {
      ChainCovered(heap, texts, Here(), extra, value);
      var r := SetIn(env, name, value);
      ChainFollows(old(heap), heap, texts, Here(), extra + [value], r);
      env := r;
    }

    method EnvironmentGet(name: string, ghost extra: seq<Cell>) returns (v: Cell)
      requires Owns(extra) && |locals| == REGISTERS
      modifies this`heap
      ensures Owns(extra + [v]) && View() == old(View()) && Denote(texts, v) == Lookup(View().env, name)
    {
      if name in Scopes.Flat(env) {
        BoundIsLive(heap, texts, Here(), extra, name);
      }
      v := GetIn(env, name);
      RetainBalances(old(heap), texts, Here(), extra, v);
    }

    method EnvironmentRemove(name: string, ghost extra: seq<Cell>)
      requires Owns(extra) && Formed()
      modifies this`heap, this`env
      ensures Owns(extra) && Formed()
      ensures View() == old(View()).(env := old(View()).env - {name})
    {
      SingleFrameRemove(env, name);
      UnbindsAlike(texts, env, name);
      ChainRemove(name, extra);
    }

    method ChainRemove(name: string, ghost extra: seq<Cell>)
      requires Owns(extra)
      modifies this`heap, this`env
      ensures Owns(extra) && env == Scopes.Remove(old(env), name)
    {
      NothingInHand(heap, texts, Here(), extra, CNil);
      ChainCovered(heap, texts, Here(), extra, CNil);
      var r := RemoveIn(env, name);
      ChainFollows(old(heap), heap, texts, Here(), extra, r);
      env := r;
    }

    method FramePush(ghost extra: seq<Cell>)
      requires Owns(extra)
      modifies this`env
      ensures Owns(extra) && env == Scopes.Push(old(env))
    {
      NewFrameBalances(heap, texts, Here(), extra);
      env := Scopes.Scope([], env);
    }

    method FramePop(ghost extra: seq<Cell>)
      requires Owns(extra)
      modifies this`heap, this`env
      ensures Owns(extra) && env == Scopes.Pop(old(env))
    {
      if env.Nowhere? {
        return;
      }
      ghost var places := Here().(env := env.parent);
      ghost var cells := CellsOf(env.frame);
      FrameInHand(heap, texts, Here(), extra);
      assert cells[0..] == cells;
      var i := 0;
      while i < |env.frame|
        invariant env == old(env) && i <= |env.frame| && Balanced(heap, texts, places, extra + cells[i..])
      {
        FirstReleased(heap, texts, places, extra, cells[i..]);
        Release(env.frame[i].value);
        assert cells[i..][1..] == cells[i + 1..];
        i := i + 1;
      }
      assert extra + cells[i..] == extra;
      env := env.parent;
    }

    // ---- One instruction ----

    method LoadConstant(k: nat, ghost fmt: Format) returns (code: int)
      requires Owns([]) && Formed()
      modifies this`heap, this`texts, this`next, this`stack, this`pc
      ensures Owns([]) && Formed()
      ensures Agrees(code, Execute(program, fmt, LoadConst(k), old(View())), View())
    {
      if k >= |program.consts| {
        return 1;
      }
      var v := CNil;
      match program.consts[k] {
        case Num(n) =>
          v := CNum(n);
          NothingInHand(heap, texts, Here(), [], v);
        case Bool(b) =>
          v := CBool(b);
          NothingInHand(heap, texts, Here(), [], v);
        case Str(s) =>
          v := NewString(s, []);
        case Nil =>
          NothingInHand(heap, texts, Here(), [], v);
      }
      Push(v, []);
      pc := pc + 1;
      code := 0;
    }

    method LoadVariable(v: nat) returns (code: int)
      requires Owns([]) && Formed()
      modifies this`heap, this`stack, this`pc
      ensures Owns([]) && Formed() && Agrees(code, StepVariable(program, LoadVar(v), old(View())), View())
    {
      if v >= |program.vars| {
        return 1;
      }
      var value := EnvironmentGet(program.vars[v], []);
      Push(value, []);
      pc := pc + 1;
      code := 0;
    }

    method StoreVariable(v: nat) returns (code: int)
      requires Owns([]) && Formed()
      modifies this`heap, this`stack, this`env, this`pc
      ensures Owns([]) && Formed() && Agrees(code, StepVariable(program, StoreVar(v), old(View())), View())
    {
      if v >= |program.vars| {
        return 1;
      }
      ghost var v0 := View();
      var value := Pop([]);
      EnvironmentSet(program.vars[v], value, []);
      Discard(value, []);
      pc := pc + 1;
      code := 0;
      StoredIsStep(program, v, v0, View());
    }

    method LoadRegister(v: nat) returns (code: int)
      requires Owns([]) && Formed()
      modifies this`heap, this`stack, this`pc
      ensures Owns([]) && Formed() && Agrees(code, StepVariable(program, LoadLocal(v), old(View())), View())
    {
      if v >= REGISTERS {
        return 1;
      }
      SlotIsLive(heap, texts, Here(), [], v);
      RetainBalances(heap, texts, Here(), [], locals[v]);
      Retain(locals[v]);
      Push(locals[v], []);
      pc := pc + 1;
      code := 0;
    }

    method StoreRegister(v: nat) returns (code: int)
      requires Owns([]) && Formed()
      modifies this`heap, this`stack, this`locals, this`pc
      ensures Owns([]) && Formed() && Agrees(code, StepVariable(program, StoreLocal(v), old(View())), View())
    {
      if v >= REGISTERS {
        return 1;
      }
      var value := Pop([]);
      Overwrite(v, value, []);
      pc := pc + 1;
      code := 0;
    }

    /** The register's old reference goes, the new value's moves in. */
    method Overwrite(i: nat, v: Cell, ghost extra: seq<Cell>)
      requires Owns(extra + [v]) && i < |locals| == REGISTERS
      modifies this`heap, this`locals
      ensures Owns(extra) && locals == old(locals[i := v])
      ensures View() == old(View()).(locals := old(View()).locals[i := Denote(texts, v)])
    {
      SlotSwaps(heap, texts, Here(), extra, i, v);
      ReleaseBalances(heap, texts, Here().(locals := locals[i := v]), extra, locals[i]);
      DenoteSlot(texts, locals, i, v);
      Release(locals[i]);
      locals := locals[i := v];
    }

    /** Takes a variable out of the environment and clears the register of the same index. */
    method ReleaseVariable(v: nat) returns (code: int)
      requires Owns([]) && Formed()
      modifies this`heap, this`env, this`locals, this`pc
      ensures Owns([]) && Formed() && Agrees(code, StepVariable(program, Instr.Release(v), old(View())), View())
    {
      if v >= |program.vars| {
        return 1;
      }
      ghost var v0 := View();
      EnvironmentRemove(program.vars[v], []);
      if v < REGISTERS {
        NothingInHand(heap, texts, Here(), [], CNil);
        Overwrite(v, CNil, []);
      }
      pc := pc + 1;
      code := 0;
      ForgottenIsStep(program, v, v0, View());
    }

    /** What the machine takes for true. */
    method Holds(v: Cell) returns (b: bool)
      requires HeapOk(heap, texts) && Live(heap, v)
      ensures b == Truthy(Denote(texts, v))
    {
      match v {
        case CNum(n) => b := n != 0.0;
        case CBool(x) => b := x;
        case CNil => b := false;
        case CObj(_) =>
          var s := CharsOf(v);
          b := |s| > 0;
      }
    }

    method Complement()
      requires Owns([]) && Formed()
      modifies this`heap, this`stack, this`pc
      ensures Owns([]) && Formed() && Next(View()) == StepNegate(Not, old(View()))
    {
      var v := Pop([]);
      InHandIsLive(heap, texts, Here(), [] + [v], 0);
      var b := Holds(v);
      PushPlain(CBool(!b), [] + [v]);
      Discard(v, []);
      pc := pc + 1;
    }

    method Prefix(op: UnaryOp) returns (code: int)
      requires Owns([]) && Formed()
      modifies this`heap, this`stack, this`pc
      ensures Owns([]) && Formed() && Agrees(code, StepNegate(op, old(View())), View())
    {
      code := 0;
      if op.Not? {
        Complement();
      } else {
        code := Minus();
      }
    }

    method Minus() returns (code: int)
      requires Owns([]) && Formed()
      modifies this`heap, this`stack, this`pc
      ensures Owns([]) && Formed() && Agrees(code, StepNegate(Neg, old(View())), View())
    {
      ghost var v0 := View();
      var v := Pop([]);
      if v.CNum? {
        PushPlain(CNum(-v.n), [] + [v]);
        Discard(v, []);
        pc := pc + 1;
        NegatedIsStep(v0, v.n, View());
        code := 0;
      } else {
        Discard(v, []);
        UnnegatedIsFault(v0, View());
        code := 1;
      }
    }

    /** Pushes a value that is not an object. */
    method PushPlain(v: Cell, ghost extra: seq<Cell>)
      requires Owns(extra) && |locals| == REGISTERS && !v.CObj?
      modifies this`stack
      ensures Owns(extra) && View() == old(View()).(stack := old(View()).stack + [Denote(texts, v)])
    {
      NothingInHand(heap, texts, Here(), extra, v);
      Push(v, extra);
    }

    method Branch(goal: nat, ghost fmt: Format)
      requires Owns([]) && Formed()
      modifies this`heap, this`stack, this`pc
      ensures Owns([]) && Formed() && Next(View()) == Execute(program, fmt, JumpIfFalse(goal), old(View()))
    {
      var v := Pop([]);
      InHandIsLive(heap, texts, Here(), [] + [v], 0);
      var b := Holds(v);
      Discard(v, []);
      pc := if b then pc + 1 else goal;
    }

    method Shown(v: Cell) returns (w: Value)
      requires HeapOk(heap, texts) && Live(heap, v)
      ensures w == Denote(texts, v)
    {
      match v {
        case CNum(n) => w := Num(n);
        case CBool(b) => w := Bool(b);
        case CNil => w := Nil;
        case CObj(_) =>
          var s := CharsOf(v);
          w := Str(s);
      }
    }

    method Print(ghost fmt: Format)
      requires Owns([]) && Formed()
      modifies this`heap, this`out, this`pc
      ensures Owns([]) && Formed() && Next(View()) == Execute(program, fmt, PrintTop, old(View()))
    {
      var v := Peek([]);
      InHandIsLive(heap, texts, Here(), [] + [v], 0);
      var shown := Shown(v);
      Discard(v, []);
      out := out + [shown];
      pc := pc + 1;
    }

    // ---- Binary operators ----

    /** Both operands, the right one first, into the hand. */
    method PopTwo() returns (left: Cell, right: Cell)
      requires Owns([]) && Formed()
      modifies this`stack
      ensures Owns([] + [right] + [left]) && View() == old(View()).(stack := Rest(Rest(old(View()).stack)))
      ensures Denote(texts, right) == Top(old(View()).stack) && Denote(texts, left) == Top(Rest(old(View()).stack))
      ensures HeapOk(heap, texts) && Live(heap, left) && Live(heap, right)
    {
      right := Pop([]);
      left := Pop([] + [right]);
      InHandIsLive(heap, texts, Here(), [] + [right] + [left], 0);
      InHandIsLive(heap, texts, Here(), [] + [right] + [left], 1);
    }

    method GiveUp(left: Cell, right: Cell)
      requires Owns([] + [right] + [left]) && |locals| == REGISTERS
      modifies this`heap
      ensures Owns([]) && View() == old(View())
    {
      Discard(left, [] + [right]);
      Discard(right, []);
    }

    /** The result goes on the stack before the operands go. */
    method Finish(v: Cell, left: Cell, right: Cell)
      requires Owns([] + [right] + [left]) && |locals| == REGISTERS && !v.CObj?
      modifies this`heap, this`stack, this`pc
      ensures Owns([])
      ensures View() == old(View()).(pc := old(pc) + 1, stack := old(View()).stack + [Denote(texts, v)])
    {
      PushPlain(v, [] + [right] + [left]);
      GiveUp(left, right);
      pc := pc + 1;
    }

    method CharsOrNumber(fmt: Format, v: Cell) returns (s: Option<string>)
      requires HeapOk(heap, texts) && Live(heap, v)
      ensures s == if Printable(Denote(texts, v)) then Some(Chars(fmt, Denote(texts, v))) else None
    {
      if v.CObj? {
        var chars := CharsOf(v);
        s := Some(chars);
      } else if v.CNum? {
        s := Some(fmt(v.n));
      } else {
        s := None;
      }
    }

    method Add(fmt: Format) returns (code: int)
      requires Owns([]) && Formed()
      modifies this`heap, this`stack, this`pc, this`texts, this`next
      ensures Owns([]) && Formed() && Agrees(code, StepOperate(fmt, BinaryOp.Add, old(View())), View())
    {
      ghost var v0 := View();
      var left, right := PopTwo();
      if left.CNum? && right.CNum? {
        Finish(CNum(left.n + right.n), left, right);
        OperatedIsStep(fmt, BinaryOp.Add, v0, Num(left.n + right.n), View());
        return 0;
      }
      if left.CObj? || right.CObj? {
        var l := CharsOrNumber(fmt, left);
        var r := CharsOrNumber(fmt, right);
        if l.Some? && r.Some? {
          Concatenate(l.value + r.value, left, right);
          OperatedIsStep(fmt, BinaryOp.Add, v0, Str(l.value + r.value), View());
          return 0;
        }
      }
      GiveUp(left, right);
      RefusedIsFault(fmt, BinaryOp.Add, v0, View());
      code := 1;
    }

    method Concatenate(chars: string, left: Cell, right: Cell)
      requires Owns([] + [right] + [left]) && |locals| == REGISTERS
      modifies this`heap, this`stack, this`pc, this`texts, this`next
      ensures Owns([]) && View() == old(View()).(pc := old(pc) + 1, stack := old(View()).stack + [Str(chars)])
    {
      var v := NewString(chars, [] + [right] + [left]);
      Push(v, [] + [right] + [left]);
      GiveUp(left, right);
      pc := pc + 1;
    }

    method Calculate(fmt: Format, op: BinaryOp) returns (code: int)
      requires Owns([]) && Formed() && (op.Sub? || op.Mul? || op.Div?)
      modifies this`heap, this`stack, this`pc
      ensures Owns([]) && Formed() && Agrees(code, StepOperate(fmt, op, old(View())), View())
    {
      ghost var v0 := View();
      var left, right := PopTwo();
      if !left.CNum? || !right.CNum? || (op.Div? && right.n == 0.0) {
        GiveUp(left, right);
        RefusedIsFault(fmt, op, v0, View());
        return 1;
      }
      var result := 0.0;
      if op.Sub? {
        result := left.n - right.n;
      } else if op.Mul? {
        result := Product(left.n, right.n);
      } else {
        result := left.n / right.n;
      }
      Finish(CNum(result), left, right);
      OperatedIsStep(fmt, op, v0, Num(result), View());
      code := 0;
    }

    method SameValue(left: Cell, right: Cell) returns (equal: bool)
      requires HeapOk(heap, texts) && Live(heap, left) && Live(heap, right)
      ensures equal == (Denote(texts, left) == Denote(texts, right))
    {
      if left.CObj? && right.CObj? {
        var l := CharsOf(left);
        var r := CharsOf(right);
        equal := l == r;
      } else {
        equal := left == right;
      }
    }

    method Compare(fmt: Format, op: BinaryOp)
      requires Owns([]) && Formed() && (op.Eq? || op.Ne?)
      modifies this`heap, this`stack, this`pc
      ensures Owns([]) && Formed() && Agrees(0, StepOperate(fmt, op, old(View())), View())
    {
      ghost var v0 := View();
      var left, right := PopTwo();
      var equal := SameValue(left, right);
      Finish(CBool(equal == op.Eq?), left, right);
      OperatedIsStep(fmt, op, v0, Bool(equal == op.Eq?), View());
    }

    /** The number that stands in for a value in an ordering; the value itself is given up. */
    method AsNumber(v: Cell, ghost extra: seq<Cell>) returns (n: Cell)
      requires Owns(extra + [v]) && |locals| == REGISTERS
      modifies this`heap
      ensures Owns(extra + [n]) && View() == old(View()) && n == CNum(Magnitude(Denote(texts, v)))
    {
      if v.CNum? {
        return v;
      }
      var m := 0.0;
      if v.CObj? {
        assert (extra + [v])[|extra|] == v;
        InHandIsLive(heap, texts, Here(), extra + [v], |extra|);
        var s := CharsOf(v);
        m := |s| as real;
      } else if v.CBool? {
        m := if v.b then 1.0 else 0.0;
      }
      Discard(v, extra);
      n := CNum(m);
      NothingInHand(heap, texts, Here(), extra, n);
    }

    method Order(fmt: Format, op: BinaryOp)
      requires Owns([]) && Formed() && (op.Gt? || op.Lt? || op.Gte? || op.Lte?)
      modifies this`heap, this`stack, this`pc
      ensures Owns([]) && Formed() && Agrees(0, StepOperate(fmt, op, old(View())), View())
    {
      ghost var v0 := View();
      var left, right := PopTwo();
      var l := AsNumber(left, [] + [right]);
      Swapped(heap, texts, Here(), right, l);
      var r := AsNumber(right, [] + [l]);
      Swapped(heap, texts, Here(), l, r);
      var result :=
        if op.Gt? then l.n > r.n else if op.Lt? then l.n < r.n else if op.Gte? then l.n >= r.n else l.n <= r.n;
      Finish(CBool(result), l, r);
      OperatedIsStep(fmt, op, v0, Bool(result), View());
    }

    method Connect(fmt: Format, op: BinaryOp)
      requires Owns([]) && Formed() && (op.And? || op.Or?)
      modifies this`heap, this`stack, this`pc
      ensures Owns([]) && Formed() && Agrees(0, StepOperate(fmt, op, old(View())), View())
    {
      ghost var v0 := View();
      var left, right := PopTwo();
      var l := Holds(left);
      var r := Holds(right);
      var result := if op.And? then l && r else l || r;
      Finish(CBool(result), left, right);
      OperatedIsStep(fmt, op, v0, Bool(result), View());
    }

    // ---- Stepping ----

    method Operation(fmt: Format, op: BinaryOp) returns (code: int)
      requires Owns([]) && Formed()
      modifies this`heap, this`stack, this`pc, this`texts, this`next
      ensures Owns([]) && Formed() && Agrees(code, StepOperate(fmt, op, old(View())), View())
    {
      code := 0;
      match op {
        case Add => code := Add(fmt);
        case Sub => code := Calculate(fmt, op);
        case Mul => code := Calculate(fmt, op);
        case Div => code := Calculate(fmt, op);
        case Eq => Compare(fmt, op);
        case Ne => Compare(fmt, op);
        case And => Connect(fmt, op);
        case Or => Connect(fmt, op);
        case _ => Order(fmt, op);
      }
    }

    method Drop()
      requires Owns([]) && Formed()
      modifies this`heap, this`stack, this`pc
      ensures Owns([]) && Formed()
      ensures View() == old(View()).(pc := old(pc) + 1, stack := Rest(old(View()).stack))
    {
      var v := Pop([]);
      Discard(v, []);
      pc := pc + 1;
    }

    /** One step of the counting machine is one step of the machine on plain values, and every
        count is right again after it, also after an error return. */
    method Step(fmt: Format) returns (code: int)
      requires Owns([]) && Formed()
      modifies this`pc, this`stack, this`locals, this`env, this`heap, this`texts, this`next, this`out
      ensures Owns([]) && Formed() && Agrees(code, Bytecode.Step(program, fmt, old(View())), View())
    {
      code := 0;
      if pc >= |program.instrs| {
        return;
      }
      match program.instrs[pc] {
        case LoadConst(k) => code := LoadConstant(k, fmt);
        case LoadVar(v) => code := LoadVariable(v);
        case StoreVar(v) => code := StoreVariable(v);
        case LoadLocal(v) => code := LoadRegister(v);
        case StoreLocal(v) => code := StoreRegister(v);
        case Release(v) => code := ReleaseVariable(v);
        case Operate(op) => code := Operation(fmt, op);
        case Negate(op) => code := Prefix(op);
        case Jump(goal) => pc := goal;
        case JumpIfFalse(goal) => Branch(goal, fmt);
        case PrintTop => Print(fmt);
        case Pop => Drop();
        case CallFunction(_) => pc := pc + 1;
        case ReturnValue => pc := pc + 1;
        case Halt => code := -1;
      }
    }

    /** The execution loop, cut off after `limit` steps. */
    method ExecuteFor(fmt: Format, limit: nat) returns (code: int)
      requires Owns([]) && Formed()
      modifies this`pc, this`stack, this`locals, this`env, this`heap, this`texts, this`next, this`out
      ensures Owns([]) && Formed() && Agrees(code, Run(program, fmt, old(View()), limit), View())
    {
      ghost var v0 := View();
      var i := 0;
      code := 0;
      assert Run(program, fmt, v0, 0) == Next(v0);
      while i < limit
        invariant i <= limit && Owns([]) && Formed() && Run(program, fmt, v0, i) == Next(View())
      {
        ghost var v1 := View();
        code := Step(fmt);
        RunAppend(program, fmt, v0, i, v1, 1);
        RunAppend(program, fmt, v0, i, v1, limit - i);
        RunOne(program, fmt, v1, limit - i);
        if code != 0 {
          return;
        }
        i := i + 1;
      }
    }

    // ---- Snapshots ----

    method TakeSnapshot()
      requires Owns([]) && Formed()
      modifies this`heap, this`snapshots
      ensures Owns([]) && Formed() && View() == old(View())
      ensures snapshots == old(snapshots) + [Snapshot(pc, locals, true)]
    {
      var copy: seq<Cell> := [];
      var i := 0;
      while i < REGISTERS
        invariant i <= REGISTERS && copy == locals[..i] && Owns(copy) && snapshots == old(snapshots)
      {
        SlotIsLive(heap, texts, Here(), copy, i);
        RetainBalances(heap, texts, Here(), copy, locals[i]);
        Retain(locals[i]);
        copy := copy + [locals[i]];
        i := i + 1;
      }
      assert copy == locals;
      SnapshotStored(heap, texts, Here(), pc, copy);
      snapshots := snapshots + [Snapshot(pc, copy, true)];
    }

    method RestoreSnapshot(k: nat)
      requires Owns([]) && Formed() && k < |snapshots|
      modifies this`heap, this`locals, this`pc
      ensures Owns([]) && Formed()
      ensures if snapshots[k].valid then pc == snapshots[k].pc && locals == snapshots[k].locals
              else pc == old(pc) && locals == old(locals)
    {
      if !snapshots[k].valid {
        return;
      }
      pc := snapshots[k].pc;
      var i := 0;
      while i < REGISTERS
        invariant i <= REGISTERS == |locals| && locals[..i] == snapshots[k].locals[..i] && Owns([])
        invariant pc == snapshots[k].pc
      {
        SlotRestored(heap, texts, Here(), k, i);
        var v := snapshots[k].locals[i];
        Release(locals[i]);
        locals := locals[i := v];
        Retain(v);
        i := i + 1;
      }
      assert locals[..i] == locals && snapshots[k].locals[..i] == snapshots[k].locals;
    }

    method DestroySnapshot(k: nat)
      requires Owns([]) && Formed() && k < |snapshots|
      modifies this`heap, this`snapshots
      ensures Owns([]) && Formed() && View() == old(View())
      ensures snapshots == old(snapshots)[k := old(snapshots)[k].(valid := false)]
    {
      if !snapshots[k].valid {
        assert snapshots == snapshots[k := snapshots[k].(valid := false)];
        return;
      }
      ghost var cells := snapshots[k].locals;
      ghost var places := Here().(snapshots := snapshots[k := snapshots[k].(valid := false)]);
      SnapshotInHand(heap, texts, Here(), k);
      assert cells[0..] == cells;
      var i := 0;
      while i < REGISTERS
        invariant i <= REGISTERS && snapshots == old(snapshots) && Balanced(heap, texts, places, [] + cells[i..])
      {
        FirstReleased(heap, texts, places, [], cells[i..]);
        Release(snapshots[k].locals[i]);
        assert cells[i..][1..] == cells[i + 1..];
        i := i + 1;
      }
      assert [] + cells[i..] == [];
      snapshots := snapshots[k := snapshots[k].(valid := false)];
    }

    // ---- The end ----

    /** Gives up the registers, the stack and the frame. */
    method Destroy()
      requires Owns([]) && Formed()
      modifies this`heap, this`locals, this`stack, this`env
      ensures Balanced(heap, texts, Places([], [], Scopes.Nowhere, snapshots), [])
      ensures (forall k :: 0 <= k < |snapshots| ==> !snapshots[k].valid) ==> heap == map[]
    {
      ReleaseLocals();
      ReleaseStack();
      FramePop([]);
      if forall k :: 0 <= k < |snapshots| ==> !snapshots[k].valid {
        EmptyHeap(heap, texts, snapshots);
      }
    }

    method ReleaseLocals()
      requires Owns([])
      modifies this`heap, this`locals
      ensures Owns([]) && locals == []
    {
      ghost var cells := locals;
      ghost var places := Here().(locals := []);
      LocalsInHand(heap, texts, Here());
      assert cells[0..] == cells;
      var i := 0;
      while i < |locals|
        invariant locals == cells && i <= |locals| && Balanced(heap, texts, places, [] + cells[i..])
      {
        FirstReleased(heap, texts, places, [], cells[i..]);
        Release(locals[i]);
        assert cells[i..][1..] == cells[i + 1..];
        i := i + 1;
      }
      assert [] + cells[i..] == [];
      locals := [];
    }

    method ReleaseStack()
      requires Owns([])
      modifies this`heap, this`stack
      ensures Owns([]) && stack == []
    {
      ghost var cells := stack;
      ghost var places := Here().(stack := []);
      StackInHand(heap, texts, Here());
      assert cells[0..] == cells;
      var i := 0;
      while i < |stack|
        invariant stack == cells && i <= |stack| && Balanced(heap, texts, places, [] + cells[i..])
      {
        FirstReleased(heap, texts, places, [], cells[i..]);
        Release(stack[i]);
        assert cells[i..][1..] == cells[i + 1..];
        i := i + 1;
      }
      assert [] + cells[i..] == [];
      stack := [];
    }
  }
}
