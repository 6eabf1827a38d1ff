// The recursive-descent expression parser: a cursor over the tokens of the lexer, one method for
// each level of precedence.
module Parser {
  import opened Ast
  import opened Grammar
  import opened Precedence

  class ExpressionParser {
    /** What the lexer delivers before it repeats the end of file for ever. */
    const tokens: seq<Token>
    /** Tokens taken from the lexer. */
    var taken: nat
    var current: Token
    var previous: Token
    var hadError: bool

    ghost predicate Valid()
      reads this
    {
      1 <= taken <= |tokens| + 1 && current == if taken <= |tokens| then tokens[taken - 1] else TEnd
    }

    ghost function Here(): Cursor
      requires Valid()
      reads this
    {
      At(tokens[taken - 1..], hadError)
    }

    constructor (tokens: seq<Token>)
      ensures this.tokens == tokens && Valid() && Here() == Arrive(tokens, false)
    {
      this.tokens := tokens;
      taken := 1;
      previous := TEnd;
      current := if |tokens| > 0 then tokens[0] else TEnd;
      hadError := |tokens| > 0 && tokens[0].TError?;
    }

    method Advance()
      requires Valid()
      modifies this`taken, this`current, this`previous, this`hadError
      ensures Valid() && Here() == Grammar.Advance(old(Here())) && previous == old(current)
    {
      previous := current;
      if taken < |tokens| {
        current := tokens[taken];
        taken := taken + 1;
      } else if taken == |tokens| {
        current := TEnd;
        taken := taken + 1;
      }
      if current.TError? {
        hadError := true;
      }
    }

    /** No token of the text is the end of file itself. */
    method Match(t: Token) returns (matched: bool)
      requires Valid() && t != TEnd
      modifies this`taken, this`current, this`previous, this`hadError
      ensures Valid() && matched == Begins(old(Here()).rest, t)
      ensures Here() == if matched then Grammar.Advance(old(Here())) else old(Here())
      ensures matched ==> previous == t && |Here().rest| < |old(Here()).rest|
    {
      matched := current == t;
      if matched {
        Advance();
      }
    }

    method MatchEither(a: BinaryOp, b: BinaryOp) returns (matched: bool)
      requires Valid()
      modifies this`taken, this`current, this`previous, this`hadError
      ensures Valid() && matched == (Begins(old(Here()).rest, TOp(a)) || Begins(old(Here()).rest, TOp(b)))
      ensures Here() == if matched then Grammar.Advance(old(Here())) else old(Here())
      ensures matched ==> previous == old(Here()).rest[0] && |Here().rest| < |old(Here()).rest|
    {
      matched := Match(TOp(a));
      if !matched {
        matched := Match(TOp(b));
      }
    }

    method MatchComparison() returns (matched: bool)
      requires Valid()
      modifies this`taken, this`current, this`previous, this`hadError
      ensures Valid() && matched == BeginsOperator(old(Here()).rest, 3)
      ensures Here() == if matched then Grammar.Advance(old(Here())) else old(Here())
      ensures matched ==> previous == old(Here()).rest[0] && |Here().rest| < |old(Here()).rest|
    {
      matched := MatchEither(Gt, Lt);
      if !matched {
        matched := MatchEither(Gte, Lte);
      }
    }

    method Consume(t: Token)
      requires Valid() && t != TEnd
      modifies this`taken, this`current, this`previous, this`hadError
      ensures Valid() && Here() == Expect(old(Here()), t)
    {
      var matched := Match(t);
      if !matched {
        hadError := true;
      }
    }

    method ParseFactor() returns (e: Expr)
      requires Valid()
      modifies this`taken, this`current, this`previous, this`hadError
      ensures Valid() && (e, Here()) == Grammar.ParseFactor(old(Here()))
      decreases |Here().rest|, 0, 0
    {
      var matched := Match(TNot);
      if matched {
        var operand := ParseFactor();
        return if operand.Absent? then Absent else Unary(Not, operand);
      }
      if current.TNumber? || current.TText? || current.TTrue? || current.TFalse? {
        e := ParseLiteral();
        return;
      }
      if current.TName? {
        Advance();
        var name := previous.name;
        matched := Match(TLeft);
        if matched {
          var arguments := ParseArguments();
          Consume(TRight);
          return Call(name, arguments);
        }
        return Ident(name, FRESH, false);
      }
      matched := Match(TLeft);
      if matched {
        e := ParseExpression();
        Consume(TRight);
        return;
      }
      e := Absent;
    }

    method ParseLiteral() returns (e: Expr)
      requires Valid() && (current.TNumber? || current.TText? || current.TTrue? || current.TFalse?)
      modifies this`taken, this`current, this`previous, this`hadError
      ensures Valid() && (e, Here()) == Grammar.ParseFactor(old(Here()))
    {
      Advance();
      match previous {
        case TNumber(n) => e := Number(n);
        case TText(lexeme) =>
          var text := lexeme;
          if |text| > 0 && text[0] == '"' {
            if |text| > 2 && text[|text| - 1] == '"' {
              text := text[1..|text| - 1];
            }
          }
          e := Text(text);
        case _ => e := Boolean(previous.TTrue?);
      }
    }

    method ParseArguments() returns (arguments: seq<Expr>)
      requires Valid()
      modifies this`taken, this`current, this`previous, this`hadError
      ensures Valid() && (arguments, Here()) == Grammar.ParseArguments(old(Here()))
      decreases |Here().rest|, TOP + 1, 1
    {
      arguments := [];
      ghost var s0 := Here();
      if current != TRight {
        var first := ParseExpression();
        arguments := [first];
        var more := Match(TComma);
        while more
          invariant Valid() && |Here().rest| <= |s0.rest|
          invariant more ==> |Here().rest| < |s0.rest|
          invariant Grammar.ParseArguments(s0) == if more then AfterComma(arguments, Here()) else (arguments, Here())
          decreases |Here().rest|, more
        {
          ghost var before := Here();
          var next := ParseExpression();
          arguments := arguments + [next];
          more := Match(TComma);
        }
      }
    }

    method ParseTerm() returns (e: Expr)
      requires Valid()
      modifies this`taken, this`current, this`previous, this`hadError
      ensures Valid() && (e, Here()) == ParseAt(1, old(Here()))
      decreases |Here().rest|, 1, 1
    {
      ghost var s0 := Here();
      e := ParseFactor();
      if e.Absent? {
        return;
      }
      while true
        invariant Valid() && |Here().rest| <= |s0.rest| && ParseAt(1, s0) == ParseLoop(1, e, Here())
        decreases |Here().rest|
      {
        ghost var here := Here();
        FirstLevel(here.rest);
        var matched := MatchEither(Mul, Div);
        if !matched {
          LoopEnd(1, e, here);
          return;
        }
        var op := previous.op;
        var right := ParseFactor();
        LoopStep(1, e, here);
        e := Binary(e, op, right);
      }
    }

    method ParseAdditive() returns (e: Expr)
      requires Valid()
      modifies this`taken, this`current, this`previous, this`hadError
      ensures Valid() && (e, Here()) == ParseAt(2, old(Here()))
      decreases |Here().rest|, 2, 1
    {
      ghost var s0 := Here();
      e := ParseTerm();
      if e.Absent? {
        return;
      }
      while true
        invariant Valid() && |Here().rest| <= |s0.rest| && ParseAt(2, s0) == ParseLoop(2, e, Here())
        decreases |Here().rest|
      {
        var matched := MatchEither(Add, Sub);
        if !matched {
          return;
        }
        var op := previous.op;
        var right := ParseTerm();
        e := Binary(e, op, right);
      }
    }

    method ParseComparison() returns (e: Expr)
      requires Valid()
      modifies this`taken, this`current, this`previous, this`hadError
      ensures Valid() && (e, Here()) == ParseAt(3, old(Here()))
      decreases |Here().rest|, 3, 1
    {
      ghost var s0 := Here();
      e := ParseAdditive();
      if e.Absent? {
        return;
      }
      while true
        invariant Valid() && |Here().rest| <= |s0.rest| && ParseAt(3, s0) == ParseLoop(3, e, Here())
        decreases |Here().rest|
      {
        var matched := MatchComparison();
        if !matched {
          return;
        }
        var op := previous.op;
        var right := ParseAdditive();
        e := Binary(e, op, right);
      }
    }

    method ParseEquality() returns (e: Expr)
      requires Valid()
      modifies this`taken, this`current, this`previous, this`hadError
      ensures Valid() && (e, Here()) == ParseAt(4, old(Here()))
      decreases |Here().rest|, 4, 1
    {
      ghost var s0 := Here();
      e := ParseComparison();
      if e.Absent? {
        return;
      }
      while true
        invariant Valid() && |Here().rest| <= |s0.rest| && ParseAt(4, s0) == ParseLoop(4, e, Here())
        decreases |Here().rest|
      {
        var matched := MatchEither(Eq, Ne);
        if !matched {
          return;
        }
        var op := previous.op;
        var right := ParseComparison();
        e := Binary(e, op, right);
      }
    }

    method ParseLogicalAnd() returns (e: Expr)
      requires Valid()
      modifies this`taken, this`current, this`previous, this`hadError
      ensures Valid() && (e, Here()) == ParseAt(5, old(Here()))
      decreases |Here().rest|, 5, 1
    {
      ghost var s0 := Here();
      e := ParseEquality();
      if e.Absent? {
        return;
      }
      while true
        invariant Valid() && |Here().rest| <= |s0.rest| && ParseAt(5, s0) == ParseLoop(5, e, Here())
        decreases |Here().rest|
      {
        var matched := Match(TOp(And));
        if !matched {
          return;
        }
        var op := previous.op;
        var right := ParseEquality();
        e := Binary(e, op, right);
      }
    }

    method ParseLogicalOr() returns (e: Expr)
      requires Valid()
      modifies this`taken, this`current, this`previous, this`hadError
      ensures Valid() && (e, Here()) == ParseAt(6, old(Here()))
      decreases |Here().rest|, 6, 1
    {
      ghost var s0 := Here();
      e := ParseLogicalAnd();
      if e.Absent? {
        return;
      }
      while true
        invariant Valid() && |Here().rest| <= |s0.rest| && ParseAt(6, s0) == ParseLoop(6, e, Here())
        decreases |Here().rest|
      {
        var matched := Match(TOp(Or));
        if !matched {
          return;
        }
        var op := previous.op;
        var right := ParseLogicalAnd();
        e := Binary(e, op, right);
      }
    }

    method ParseExpression() returns (e: Expr)
      requires Valid()
      modifies this`taken, this`current, this`previous, this`hadError
      ensures Valid() && (e, Here()) == ParseAt(TOP, old(Here()))
      ensures forall os, ops, rest ::
                Spells(old(Here()), os, ops, rest) ==> e == Grouped(os, ops) && Here() == Arrive(rest, old(hadError))
      decreases |Here().rest|, TOP + 1, 0
    {
      e := ParseLogicalOr();
      forall os, ops, rest | Spells(old(Here()), os, ops, rest)
        ensures e == Grouped(os, ops) && Here() == Arrive(rest, old(hadError))
      {
        RowIsRead(os, ops, rest, old(hadError));
      }
    }
  }

  /** The rest of an argument list once a comma has been taken. */
  function AfterComma(arguments: seq<Expr>, s: Cursor): (seq<Expr>, Cursor) {
    var (next, s1) := ParseAt(TOP, s);
    ParseMore(arguments + [next], s1)
  }
}
