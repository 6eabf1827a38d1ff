// Expressions as tokens: what the levels of the parser compute, a printer with the fewest
// parentheses, and the proof that the one undoes the other.
module Grammar {
  import opened Ast

  datatype Token =
    | TNumber(n: real)
    | TText(lexeme: string)
    | TTrue
    | TFalse
    | TName(name: string)
    | TNot
    | TOp(op: BinaryOp)
    | TLeft
    | TRight
    | TComma
    | TOther(kind: nat)   // any token that no expression uses
    | TError
    | TEnd

  /** The tokens from the current one on, and whether an error has been met. */
  datatype Cursor = At(rest: seq<Token>, failed: bool)

  predicate Begins(ts: seq<Token>, t: Token) {
    |ts| > 0 && ts[0] == t
  }

  /** A cursor that has just arrived at `rest`. */
  function Arrive(rest: seq<Token>, failed: bool): Cursor {
    At(rest, failed || Begins(rest, TError))
  }

  function Advance(s: Cursor): Cursor {
    if s.rest == [] then s else Arrive(s.rest[1..], s.failed)
  }

  function Expect(s: Cursor, t: Token): Cursor {
    if Begins(s.rest, t) then Advance(s) else s.(failed := true)
  }

  const TOP: nat := 6

  /** How loosely an operator binds. */
  function Level(op: BinaryOp): (k: nat)
    ensures 1 <= k <= TOP
  {
    match op
    case Mul => 1 case Div => 1
    case Add => 2 case Sub => 2
    case Gt => 3 case Lt => 3 case Gte => 3 case Lte => 3
    case Eq => 4 case Ne => 4
    case And => 5
    case Or => 6
  }

  predicate BeginsOperator(ts: seq<Token>, k: nat) {
    |ts| > 0 && ts[0].TOp? && Level(ts[0].op) == k
  }

  /** The quotes go, unless there is nothing between them. */
  function Unquoted(lexeme: string): string {
    if |lexeme| > 2 && lexeme[0] == '"' && lexeme[|lexeme| - 1] == '"' then lexeme[1..|lexeme| - 1] else lexeme
  }

  const FRESH: int := -1

  // ---- What the levels compute ----

  function ParseAt(k: nat, s: Cursor): (r: (Expr, Cursor))
    ensures |r.1.rest| <= |s.rest|
    decreases |s.rest|, k, 1
  {
    if k == 0 then ParseFactor(s)
    else
      var (e, s1) := ParseAt(k - 1, s);
      if e.Absent? then (Absent, s1) else ParseLoop(k, e, s1)
  }

  /** The operators of one level, to the left. */
  function ParseLoop(k: nat, e: Expr, s: Cursor): (r: (Expr, Cursor))
    requires k > 0
    ensures |r.1.rest| <= |s.rest|
    decreases |s.rest|, k, 0
  {
    if !BeginsOperator(s.rest, k) then (e, s)
    else
      var (right, s1) := ParseAt(k - 1, Advance(s));
      ParseLoop(k, Binary(e, s.rest[0].op, right), s1)
  }

  lemma {:induction false} LoopEnd(k: nat, e: Expr, s: Cursor)
    requires k > 0 && !BeginsOperator(s.rest, k)
    ensures ParseLoop(k, e, s) == (e, s)
  {
  }

  lemma FirstLevel(ts: seq<Token>)
    ensures BeginsOperator(ts, 1) <==> Begins(ts, TOp(Mul)) || Begins(ts, TOp(Div))
  {
  }

  lemma {:induction false} LoopStep(k: nat, e: Expr, s: Cursor)
    requires k > 0 && BeginsOperator(s.rest, k)
    ensures ParseLoop(k, e, s)
            == var (right, s1) := ParseAt(k - 1, Advance(s)); ParseLoop(k, Binary(e, s.rest[0].op, right), s1)
  {
  }

  function ParseFactor(s: Cursor): (r: (Expr, Cursor))
    ensures |r.1.rest| <= |s.rest|
    decreases |s.rest|, 0, 0
  {
    if s.rest == [] then (Absent, s)
    else
      match s.rest[0]
      case TNot =>
        var (operand, s1) := ParseFactor(Advance(s));
        (if operand.Absent? then Absent else Unary(Not, operand), s1)
      case TNumber(n) => (Number(n), Advance(s))
      case TText(lexeme) => (Text(Unquoted(lexeme)), Advance(s))
      case TTrue => (Boolean(true), Advance(s))
      case TFalse => (Boolean(false), Advance(s))
      case TName(name) =>
        var s1 := Advance(s);
        if Begins(s1.rest, TLeft) then
          var (arguments, s2) := ParseArguments(Advance(s1));
          (Call(name, arguments), Expect(s2, TRight))
        else (Ident(name, FRESH, false), s1)
      case TLeft =>
        var (e, s1) := ParseAt(TOP, Advance(s));
        (e, Expect(s1, TRight))
      case _ => (Absent, s)
  }

  function ParseArguments(s: Cursor): (r: (seq<Expr>, Cursor))
    ensures |r.1.rest| <= |s.rest|
    decreases |s.rest|, TOP + 1, 1
  {
    if Begins(s.rest, TRight) then ([], s)
    else
      var (first, s1) := ParseAt(TOP, s);
      ParseMore([first], s1)
  }

  function ParseMore(arguments: seq<Expr>, s: Cursor): (r: (seq<Expr>, Cursor))
    ensures |r.1.rest| <= |s.rest|
    decreases |s.rest|, TOP + 1, 0
  {
    if !Begins(s.rest, TComma) then (arguments, s)
    else
      var (next, s1) := ParseAt(TOP, Advance(s));
      ParseMore(arguments + [next], s1)
  }

  // ---- The printer ----

  function LevelOf(e: Expr): (k: nat)
    ensures k <= TOP
  {
    if e.Binary? then Level(e.op) else 0
  }

  /** Parentheses only where the level of the place asks for them. */
  function Show(e: Expr, k: nat): (ts: seq<Token>)
    decreases e, 1
  {
    if LevelOf(e) <= k then Bare(e) else [TLeft] + Bare(e) + [TRight]
  }

  function Bare(e: Expr): seq<Token>
    decreases e, 0
  {
    match e
    case Absent => []
    case Number(n) => [TNumber(n)]
    case Text(s) => [TText("\"" + s + "\"")]
    case Boolean(b) => [if b then TTrue else TFalse]
    case Ident(name, _, _) => [TName(name)]
    case Unary(_, operand) => [TNot] + Show(operand, 0)
    case Binary(l, op, r) => Show(l, Level(op)) + [TOp(op)] + Show(r, Level(op) - 1)
    case Call(f, arguments) => [TName(f), TLeft] + ShowArguments(arguments) + [TRight]
  }

  function ShowArguments(es: seq<Expr>): seq<Token>
    decreases es, 0
  {
    if es == [] then [] else Show(es[0], TOP) + ShowMore(es[1..])
  }

  function ShowMore(es: seq<Expr>): seq<Token>
    decreases es, 0
  {
    if es == [] then [] else [TComma] + Show(es[0], TOP) + ShowMore(es[1..])
  }

  /** Trees of numbers, texts, booleans, fresh identifiers, calls, `!` and the operators. */
  predicate Renderable(e: Expr) {
    match e
    case Absent => false
    case Number(_) => true
    case Text(_) => true
    case Boolean(_) => true
    case Ident(_, version, lastUse) => version == FRESH && !lastUse
    case Unary(op, operand) => op.Not? && Renderable(operand)
    case Binary(l, _, r) => Renderable(l) && Renderable(r)
    case Call(_, arguments) => forall i :: 0 <= i < |arguments| ==> Renderable(arguments[i])
  }

  predicate HasEmptyText(e: Expr) {
    match e
    case Text(s) => s == ""
    case Unary(_, operand) => HasEmptyText(operand)
    case Binary(l, _, r) => HasEmptyText(l) || HasEmptyText(r)
    case Call(_, arguments) => exists i :: 0 <= i < |arguments| && HasEmptyText(arguments[i])
    case _ => false
  }

  /** The tree with two quotes in place of each empty text. */
  function Requoted(e: Expr): Expr
    decreases e, 1
  {
    match e
    case Text(s) => if s == "" then Text("\"\"") else e
    case Unary(op, operand) => Unary(op, Requoted(operand))
    case Binary(l, op, r) => Binary(Requoted(l), op, Requoted(r))
    case Call(f, arguments) => Call(f, RequotedAll(arguments))
    case _ => e
  }

  function RequotedAll(es: seq<Expr>): (rs: seq<Expr>)
    ensures |rs| == |es|
    decreases es, 0
  {
    if es == [] then [] else [Requoted(es[0])] + RequotedAll(es[1..])
  }

  lemma {:induction false} RequotedKeepsExactly(e: Expr)
    ensures Requoted(e) == e <==> !HasEmptyText(e)
    decreases e, 1
  {
    match e
    case Unary(_, operand) => RequotedKeepsExactly(operand);
    case Binary(l, _, r) =>
      RequotedKeepsExactly(l);
      RequotedKeepsExactly(r);
    case Call(_, arguments) => RequotedAllKeepsExactly(arguments);
    case _ =>
  }

  lemma {:induction false} RequotedAllKeepsExactly(es: seq<Expr>)
    ensures RequotedAll(es) == es <==> forall i :: 0 <= i < |es| ==> !HasEmptyText(es[i])
    decreases es, 0
  {
    if es != [] {
      RequotedKeepsExactly(es[0]);
      RequotedAllKeepsExactly(es[1..]);
      assert es == [es[0]] + es[1..];
      assert RequotedAll(es)[0] == Requoted(es[0]) && RequotedAll(es)[1..] == RequotedAll(es[1..]);
      assert (forall i :: 0 <= i < |es| ==> !HasEmptyText(es[i]))
        <==> !HasEmptyText(es[0]) && forall i :: 0 <= i < |es[1..]| ==> !HasEmptyText(es[1..][i]) by {
        assert forall i :: 0 < i < |es| ==> es[i] == es[1..][i - 1];
      }
    }
  }

  /** Nothing that a level up to `k` would go on with. */
  predicate Stops(rest: seq<Token>, k: nat) {
    |rest| > 0 ==> rest[0] != TLeft && (rest[0].TOp? ==> Level(rest[0].op) > k)
  }

  // ---- Parsing undoes printing ----

  predicate Plainly(ts: seq<Token>) {
    |ts| > 0 && !ts[0].TError? && !ts[0].TRight?
  }

  lemma {:induction false} ShowBegins(e: Expr, k: nat)
    requires Renderable(e)
    ensures Plainly(Show(e, k)) && Plainly(Bare(e))
    decreases e
  {
    if e.Binary? {
      ShowBegins(e.left, Level(e.op));
    }
  }

  /** Going past one token to what follows it. */
  lemma Past(t: Token, ts: seq<Token>, failed: bool)
    ensures Advance(At([t] + ts, failed)) == Arrive(ts, failed) && Begins([t] + ts, t)
    ensures !Begins(ts, TError) ==> Arrive(ts, failed) == At(ts, failed)
  {
    assert ([t] + ts)[1..] == ts;
  }

  function Rank(e: Expr, k: nat): nat {
    if k >= LevelOf(e) then k else TOP + 1 + k
  }

  lemma LoopTakes(k: nat, left: Expr, op: BinaryOp, right: Expr, tail: seq<Token>, rest: seq<Token>, failed: bool)
    requires Level(op) == k && !Begins(tail, TError)
    requires ParseAt(k - 1, At(tail, failed)) == (right, Arrive(rest, failed))
    ensures ParseLoop(k, left, Arrive([TOp(op)] + tail, failed))
            == ParseLoop(k, Binary(left, op, right), Arrive(rest, failed))
  {
    Past(TOp(op), tail, failed);
  }

  lemma Regroup(a: seq<Token>, t: Token, b: seq<Token>, rest: seq<Token>)
    ensures a + [t] + b + rest == a + ([t] + (b + rest))
  {
  }

  /** What a level makes of a printed expression: it has the expression in hand and goes on with
      its own operators, if any follow. */
  lemma {:induction false} ShowThenLoop(e: Expr, k: nat, rest: seq<Token>, failed: bool)
    requires Renderable(e) && 1 <= k <= TOP && Stops(rest, k - 1)
    ensures ParseAt(k, At(Show(e, k) + rest, failed)) == ParseLoop(k, Requoted(e), Arrive(rest, failed))
    decreases e, Rank(e, k), 0
  {
    if LevelOf(e) == k {
      var tail := Show(e.right, k - 1) + rest;
      ShowBegins(e.right, k - 1);
      Regroup(Show(e.left, k), TOp(e.op), Show(e.right, k - 1), rest);
      ShowThenLoop(e.left, k, [TOp(e.op)] + tail, failed);
      ShowThenStop(e.right, k - 1, rest, failed);
      LoopTakes(k, Requoted(e.left), e.op, Requoted(e.right), tail, rest, failed);
    } else {
      ShowThenStop(e, k - 1, rest, failed);
    }
  }

  /** A printed expression with nothing to go on with after it is parsed back, and its tokens are
      all that is consumed. */
  lemma {:induction false} ShowThenStop(e: Expr, k: nat, rest: seq<Token>, failed: bool)
    requires Renderable(e) && k <= TOP && Stops(rest, k)
    ensures ParseAt(k, At(Show(e, k) + rest, failed)) == (Requoted(e), Arrive(rest, failed))
    decreases e, Rank(e, k), 1
  {
    if k > 0 {
      ShowThenLoop(e, k, rest, failed);
    } else if LevelOf(e) > 0 {
      Parenthesized(e, rest, failed);
    } else {
      FactorUndone(e, rest, failed);
    }
  }

  lemma {:induction false} Parenthesized(e: Expr, rest: seq<Token>, failed: bool)
    requires Renderable(e) && LevelOf(e) > 0
    ensures ParseFactor(At(Show(e, 0) + rest, failed)) == (Requoted(e), Arrive(rest, failed))
    decreases e, Rank(e, 0), 0
  {
    var inner := [TRight] + rest;
    ShowBegins(e, TOP);
    assert Show(e, 0) + rest == [TLeft] + (Show(e, TOP) + inner);
    Past(TLeft, Show(e, TOP) + inner, failed);
    ShowThenStop(e, TOP, inner, failed);
    Past(TRight, rest, failed);
  }

  lemma {:induction false} FactorUndone(e: Expr, rest: seq<Token>, failed: bool)
    requires Renderable(e) && LevelOf(e) == 0 && Stops(rest, 0)
    ensures ParseFactor(At(Bare(e) + rest, failed)) == (Requoted(e), Arrive(rest, failed))
    decreases e, 0, 0
  {
    match e
    case Unary(_, operand) => NotUndone(e, rest, failed);
    case Call(f, arguments) => CallUndone(f, arguments, rest, failed, e);
    case _ => AtomUndone(e, rest, failed);
  }

  lemma AtomUndone(e: Expr, rest: seq<Token>, failed: bool)
    requires Renderable(e) && (e.Number? || e.Text? || e.Boolean? || e.Ident?) && Stops(rest, 0)
    ensures ParseFactor(At(Bare(e) + rest, failed)) == (Requoted(e), Arrive(rest, failed))
  {
    assert Bare(e) + rest == [Bare(e)[0]] + rest;
    Past(Bare(e)[0], rest, failed);
    if e.Text? {
      var lexeme := "\"" + e.text + "\"";
      assert lexeme[1..|lexeme| - 1] == e.text;
      assert e.text == "" ==> lexeme == "\"\"";
    }
  }

  lemma {:induction false} NotUndone(e: Expr, rest: seq<Token>, failed: bool)
    requires Renderable(e) && e.Unary? && Stops(rest, 0)
    ensures ParseFactor(At(Bare(e) + rest, failed)) == (Requoted(e), Arrive(rest, failed))
    decreases e.operand, TOP * 2, 0
  {
    var tail := Show(e.operand, 0) + rest;
    ShowBegins(e.operand, 0);
    assert Bare(e) + rest == [TNot] + tail;
    Past(TNot, tail, failed);
    ShowThenStop(e.operand, 0, rest, failed);
  }

  lemma {:induction false} CallUndone(f: string, arguments: seq<Expr>, rest: seq<Token>, failed: bool, e: Expr)
    requires e == Call(f, arguments) && Renderable(e)
    ensures ParseFactor(At(Bare(e) + rest, failed)) == (Requoted(e), Arrive(rest, failed))
    decreases arguments, TOP + 1, 2
  {
    var inner := ShowArguments(arguments) + ([TRight] + rest);
    ArgumentsUndone(arguments, rest, failed);
    CallTakes(f, RequotedAll(arguments), inner, rest, failed);
    CallSplits(f, ShowArguments(arguments), rest);
  }

  lemma CallSplits(f: string, shown: seq<Token>, rest: seq<Token>)
    ensures [TName(f), TLeft] + shown + [TRight] + rest == [TName(f)] + ([TLeft] + (shown + ([TRight] + rest)))
  {
  }

  lemma CallTakes(f: string, arguments: seq<Expr>, inner: seq<Token>, rest: seq<Token>, failed: bool)
    requires !Begins(inner, TError)
    requires ParseArguments(At(inner, failed)) == (arguments, At([TRight] + rest, failed))
    ensures ParseFactor(At([TName(f)] + ([TLeft] + inner), failed)) == (Call(f, arguments), Arrive(rest, failed))
  {
    Past(TName(f), [TLeft] + inner, failed);
    Past(TLeft, inner, failed);
    Past(TRight, rest, failed);
  }

  lemma {:induction false} ArgumentsUndone(arguments: seq<Expr>, rest: seq<Token>, failed: bool)
    requires forall i :: 0 <= i < |arguments| ==> Renderable(arguments[i])
    ensures var inner := ShowArguments(arguments) + ([TRight] + rest);
            && !Begins(inner, TError)
            && ParseArguments(At(inner, failed)) == (RequotedAll(arguments), At([TRight] + rest, failed))
    decreases arguments, TOP + 1, 1
  {
    if arguments == [] {
      assert ShowArguments(arguments) + ([TRight] + rest) == [TRight] + rest;
    } else {
      var first, others := arguments[0], arguments[1..];
      var more := ShowMore(others) + [TRight] + rest;
      ShowBegins(first, TOP);
      assert ShowArguments(arguments) + ([TRight] + rest) == Show(first, TOP) + more;
      MoreStops(others, rest);
      ShowThenStop(first, TOP, more, failed);
      MoreUndone([Requoted(first)], others, rest, failed);
    }
  }

  lemma MoreStops(es: seq<Expr>, rest: seq<Token>)
    ensures Stops(ShowMore(es) + [TRight] + rest, TOP)
  {
  }

  lemma {:induction false} MoreUndone(done: seq<Expr>, es: seq<Expr>, rest: seq<Token>, failed: bool)
    requires forall i :: 0 <= i < |es| ==> Renderable(es[i])
    ensures ParseMore(done, Arrive(ShowMore(es) + [TRight] + rest, failed))
            == (done + RequotedAll(es), At([TRight] + rest, failed))
    decreases es, TOP + 1, 0
  {
    if es == [] {
      assert ShowMore(es) + [TRight] + rest == [TRight] + rest;
      assert done + RequotedAll(es) == done;
    } else {
      var more := ShowMore(es[1..]) + [TRight] + rest;
      ShowBegins(es[0], TOP);
      assert ShowMore(es) + [TRight] + rest == [TComma] + (Show(es[0], TOP) + more);
      Past(TComma, Show(es[0], TOP) + more, failed);
      MoreStops(es[1..], rest);
      ShowThenStop(es[0], TOP, more, failed);
      MoreUndone(done + [Requoted(es[0])], es[1..], rest, failed);
      assert done + [Requoted(es[0])] + RequotedAll(es[1..]) == done + RequotedAll(es);
    }
  }

  /** Parsing the rendering of a tree, where no operator and no parenthesis follows, leaves exactly
      what follows, and yields the tree with two quotes in place of each empty text. */
  lemma ParserRequotes(e: Expr, rest: seq<Token>, failed: bool)
    requires Renderable(e) && (|rest| > 0 ==> rest[0] != TLeft && !rest[0].TOp?)
    ensures ParseAt(TOP, At(Show(e, TOP) + rest, failed)) == (Requoted(e), Arrive(rest, failed))
  {
    ShowThenStop(e, TOP, rest, failed);
  }

  /** The tree itself comes back exactly if no text in it is empty. */
  lemma ParserUndoesPrinter(e: Expr, rest: seq<Token>, failed: bool)
    requires Renderable(e) && (|rest| > 0 ==> rest[0] != TLeft && !rest[0].TOp?)
    ensures ParseAt(TOP, At(Show(e, TOP) + rest, failed)) == (e, Arrive(rest, failed)) <==> !HasEmptyText(e)
  {
    ParserRequotes(e, rest, failed);
    RequotedKeepsExactly(e);
  }

  /** The smallest tree that does not. */
  lemma EmptyTextKeepsItsQuotes(rest: seq<Token>, failed: bool)
    requires |rest| > 0 ==> rest[0] != TLeft && !rest[0].TOp?
    ensures ParseAt(TOP, At(Show(Text(""), TOP) + rest, failed)) == (Text("\"\""), Arrive(rest, failed))
  {
    ParserRequotes(Text(""), rest, failed);
  }
}
