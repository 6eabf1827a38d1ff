// The compiler, the machine and the interpreter together.
module Correctness {
  import opened Ast
  import opened Values
  import opened Bytecode
  import opened CodeShape
  import opened Interpreter
  import opened Programs
  import Divergence
  import Scoping

  /** A program that declares each name before mentioning it, or never, and always with the same
      storage class, and whose register names are among the first `REGISTERS` names mentioned. */
  ghost predicate WellScoped(ast: Stmt, regs: set<string>, all: set<string>) {
    var vars := FirstMentions(MentionsS(ast));
    && Scoping.OrderlyS(ast, {}, all, regs) && regs <= all && |all| <= MAX_SYMBOLS
    && |vars| <= FRAME_SLOTS && forall v :: REGISTERS <= v < |vars| ==> vars[v] !in regs
  }

  /** Compiled code halts with some output exactly when the interpreter finishes with it, and it
      does not halt exactly when the interpreter goes on for ever. */
  lemma CompilationPreservesMeaning(p: Program, fmt: Format, ast: Stmt, regs: set<string>, all: set<string>,
                                    out: seq<Value>)
    requires CompiledFrom(p, ast) && WellScoped(ast, regs, all)
    requires forall fuel: nat :: !ExecS(fmt, ast, map[], fuel).Outside?
    ensures Divergence.Halts(p, fmt, out) <==>
            exists fuel: nat :: ExecS(fmt, ast, map[], fuel).Done? && ExecS(fmt, ast, map[], fuel).out == out
  {
    assert Scoping.Tabulates([], {}, regs);
    Scoping.OrderlySettlesS(ast, [], {}, all, regs);
    Divergence.HaltsExactlyWhenInterpreterFinishes(p, fmt, regs, ast, out);
  }
}
