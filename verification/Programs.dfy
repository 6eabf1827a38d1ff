// What the compiler makes of a whole tree.
module Programs {
  import opened Ast
  import opened Bytecode
  import opened CodeShape

  // ---- The names a tree mentions, in the order the compiler meets them ----

  function MentionsE(e: Expr): seq<string> {
    match e
    case Ident(name, _, _) => [name]
    case Unary(_, operand) => MentionsE(operand)
    case Binary(l, _, r) => MentionsE(l) + MentionsE(r)
    case Call(callee, args) => MentionsEs(args) + [callee]
    case _ => []
  }

  function MentionsEs(es: seq<Expr>): seq<string> {
    if es == [] then [] else MentionsEs(es[..|es| - 1]) + MentionsE(es[|es| - 1])
  }

  function MentionsS(s: Stmt): seq<string> {
    match s
    case Let(name, value, _) => MentionsE(value) + [name]
    case Assign(name, source) => MentionsE(source) + [name]
    case Print(e) => MentionsE(e)
    case If(c, t, f) => MentionsE(c) + MentionsS(t) + MentionsO(f)
    case While(c, b) => MentionsE(c) + MentionsS(b)
    case For(init, test, increment, body) =>
      MentionsO(init) + ((if test.Some? then MentionsE(test.value) else []) + (MentionsS(body) + MentionsO(increment)))
    case Block(ss) => MentionsSs(ss)
    case Return(Some(e)) => MentionsE(e)
    case Bare(e) => MentionsE(e)
    case _ => []
  }

  function MentionsO(s: Option<Stmt>): seq<string> {
    if s.Some? then MentionsS(s.value) else []
  }

  function MentionsSs(ss: seq<Stmt>): seq<string> {
    if ss == [] then [] else MentionsSs(ss[..|ss| - 1]) + MentionsS(ss[|ss| - 1])
  }

  function AddName(names: seq<string>, name: string): seq<string> {
    if name in names then names else names + [name]
  }

  /** The mentions without repetitions, each name at its first place. */
  function FirstMentions(mentions: seq<string>): seq<string> {
    if mentions == [] then [] else AddName(FirstMentions(mentions[..|mentions| - 1]), mentions[|mentions| - 1])
  }

  /** `names` lists the mentions.  The quantifier keeps provers from unfolding the list where only
      the fact matters. */
  ghost predicate Lists(names: seq<string>, mentions: seq<string>) {
    forall ms :: ms == mentions ==> names == FirstMentions(ms)
  }

  lemma ListsSnoc(names: seq<string>, mentions: seq<string>, name: string)
    requires Lists(names, mentions)
    ensures Lists(AddName(names, name), mentions + [name])
  {
    assert names == FirstMentions(mentions);
    assert (mentions + [name])[..|mentions|] == mentions;
  }

  // ---- Whole programs ----

  /** The code of `ast` from address 0 and a stop after it, over tables that hold nothing twice. */
  ghost predicate CompiledFrom(p: Program, ast: Stmt) {
    && Holds(p, 0, ItemsS(ast, 0, []))
    && p.instrs[|ItemsS(ast, 0, [])|..] == [Halt]
    && Distinct(p.consts) && Distinct(p.vars)
    && p.vars == FirstMentions(MentionsS(ast))
  }
}
