// The lexer: a cursor over the source that skips blanks and comments and cuts off one token at a
// time.
module Lexer {
  datatype Kind =
    | LET | IF | ELSE | PRINT | WHILE | FOR | FUNCTION | RETURN | TRUE | FALSE
    | INT | FLOAT | BOOL | STRINGTYPE | VOID
    | IDENTIFIER | NUMBER | STRING
    | PLUS | MINUS | MULTIPLY | DIVIDE | ASSIGN | GT | LT | GTE | LTE | EQ | NE | AND | OR | NOT
    | LBRACE | RBRACE | LPAREN | RPAREN | SEMICOLON | COMMA | COLON | AT | EOF | ERROR

  /** A token with the text it stands for; an error stands for the text it could not use. */
  datatype Token = Token(kind: Kind, text: string, line: nat)

  const END: char := '\0'

  predicate IsAlpha(c: char) {
    'a' <= c <= 'z' || 'A' <= c <= 'Z' || c == '_'
  }

  predicate IsDigit(c: char) {
    '0' <= c <= '9'
  }

  predicate IsAlphanumeric(c: char) {
    IsAlpha(c) || IsDigit(c)
  }

  const KEYWORDS: map<string, Kind> := map[
    "let" := LET, "if" := IF, "else" := ELSE, "print" := PRINT, "while" := WHILE, "for" := FOR, "fn" := FUNCTION,
    "function" := FUNCTION, "return" := RETURN, "true" := TRUE, "false" := FALSE, "int" := INT, "float" := FLOAT,
    "bool" := BOOL, "string" := STRINGTYPE, "void" := VOID]

  function Newlines(s: string): nat {
    if s == "" then 0 else Newlines(s[..|s| - 1]) + if s[|s| - 1] == '\n' then 1 else 0
  }

  predicate Digits(s: string) {
    forall i :: 0 <= i < |s| ==> IsDigit(s[i])
  }

  predicate IsComment(s: string) {
    |s| >= 2 && s[0] == '/' && s[1] == '/' && forall i :: 0 <= i < |s| ==> s[i] != '\n'
  }

  /** Blanks and comments; a comment runs to the end of its line. */
  ghost predicate Trivia(s: string) {
    s == ""
    || (s[|s| - 1] in {' ', '\r', '\t', '\n'} && Trivia(s[..|s| - 1]))
    || exists i :: 0 <= i < |s| && IsComment(s[i..]) && Trivia(s[..i])
  }

  lemma TriviaBlank(s: string, c: char)
    requires Trivia(s) && c in {' ', '\r', '\t', '\n'}
    ensures Trivia(s + [c])
  {
    assert (s + [c])[..|s|] == s;
  }

  lemma TriviaComment(s: string, comment: string)
    requires Trivia(s) && IsComment(comment)
    ensures Trivia(s + comment)
  {
    assert (s + comment)[|s|..] == comment && (s + comment)[..|s|] == s;
  }

  // ---- Where the trivia ends ----

  ghost predicate HasNewline(source: string, i: int, j: int) {
    exists k :: i <= k < j && 0 <= k < |source| && source[k] == '\n'
  }

  /** Every slash that was skipped is on a line that has come to its end. */
  ghost predicate LinesEnd(source: string, begin: nat, here: nat) {
    forall i :: begin <= i < here <= |source| && source[i] == '/' ==>
      HasNewline(source, i, here) || CharAt(source, here) == '\n' || here == |source|
  }

  lemma BlankKeepsLines(source: string, begin: nat, here: nat)
    requires begin <= here < |source| && source[here] in {' ', '\r', '\t', '\n'} && LinesEnd(source, begin, here)
    ensures LinesEnd(source, begin, here + 1)
  {
    forall i | begin <= i < here + 1 && source[i] == '/'
      ensures HasNewline(source, i, here + 1)
    {
      if HasNewline(source, i, here) {
        var k :| i <= k < here && source[k] == '\n';
      } else {
        assert source[here] == '\n';
      }
    }
  }

  lemma LineEnded(source: string, begin: nat, here: nat, end: nat)
    requires begin <= here < end <= |source| && source[here] == '/'
    requires CharAt(source, end) == '\n' || end == |source|
    ensures LinesEnd(source, begin, end)
  {
  }

  lemma BlankSkipped(source: string, begin: nat, here: nat)
    requires begin <= here < |source| && source[here] in {' ', '\r', '\t', '\n'}
    requires Trivia(source[begin..here]) && LinesEnd(source, begin, here)
    ensures Trivia(source[begin..here + 1]) && LinesEnd(source, begin, here + 1)
  {
    TriviaBlank(source[begin..here], source[here]);
    assert source[begin..here + 1] == source[begin..here] + [source[here]];
    BlankKeepsLines(source, begin, here);
  }

  lemma CommentSkipped(source: string, begin: nat, here: nat, end: nat)
    requires begin <= here && here + 2 <= end <= |source| && source[here] == '/' && source[here + 1] == '/'
    requires (forall i :: here <= i < end ==> source[i] != '\n') && (CharAt(source, end) == '\n' || end == |source|)
    requires Trivia(source[begin..here])
    ensures IsComment(source[here..end]) && Trivia(source[begin..end]) && LinesEnd(source, begin, end)
  {
    assert IsComment(source[here..end]);
    TriviaComment(source[begin..here], source[here..end]);
    assert source[begin..end] == source[begin..here] + source[here..end];
    LineEnded(source, begin, here, end);
  }

  lemma {:induction false} TriviaStops(source: string, begin: nat, here: nat, e: nat)
    requires begin <= here < e <= |source| && LinesEnd(source, begin, here)
    requires source[here] !in {' ', '\r', '\t', '\n'} && !(source[here] == '/' && CharAt(source, here + 1) == '/')
    ensures !TriviaAt(source, begin, e)
    decreases e
  {
    var s := source[begin..e];
    assert s != "" && s[|s| - 1] == source[e - 1] && s[..|s| - 1] == source[begin..e - 1];
    if e - 1 > here {
      TriviaStops(source, begin, here, e - 1);
    }
    forall i | 0 <= i < |s| && IsComment(s[i..])
      ensures !Trivia(s[..i])
    {
      CommentAt(source, begin, e, i);
      if begin + i > here {
        TriviaStops(source, begin, here, begin + i);
      }
    }
  }

  lemma CommentAt(source: string, begin: nat, e: nat, i: nat)
    requires begin <= begin + i < e <= |source| && IsComment(source[begin..e][i..])
    ensures begin + i + 1 < e && source[begin + i] == '/' && source[begin + i + 1] == '/'
    ensures source[begin..e][..i] == source[begin..begin + i]
    ensures forall k :: begin + i <= k < e ==> source[k] != '\n'
  {
    var comment := source[begin..e][i..];
    assert forall k :: begin + i <= k < e ==> source[k] == comment[k - begin - i];
  }

  lemma TriviaGoesNoFarther(source: string, begin: nat, here: nat)
    requires begin <= here <= |source| && LinesEnd(source, begin, here)
    requires CharAt(source, here) !in {' ', '\r', '\t', '\n'}
    requires !(CharAt(source, here) == '/' && CharAt(source, here + 1) == '/')
    ensures NoMoreTrivia(source, begin, here)
  {
    forall e: nat | here < e <= |source|
      ensures !TriviaAt(source, begin, e)
    {
      TriviaStops(source, begin, here, e);
    }
  }

  predicate IsName(s: string) {
    |s| > 0 && IsAlpha(s[0]) && forall i :: 0 <= i < |s| ==> IsAlphanumeric(s[i])
  }

  /** Digits, and possibly a point and more digits. */
  ghost predicate IsNumber(s: string) {
    && |s| > 0
    && (Digits(s) || exists i :: 0 < i < |s| - 1 && s[i] == '.' && Digits(s[..i]) && Digits(s[i + 1..]))
  }

  /** Between two quotes, without a third. */
  predicate IsText(s: string) {
    |s| >= 2 && s[0] == '"' && s[|s| - 1] == '"' && forall i :: 0 < i < |s| - 1 ==> s[i] != '"'
  }

  const SYMBOLS: map<string, Kind> := map[
    "(" := LPAREN, ")" := RPAREN, "{" := LBRACE, "}" := RBRACE, ";" := SEMICOLON, "," := COMMA, ":" := COLON, "@" := AT,
    "+" := PLUS, "-" := MINUS, "*" := MULTIPLY, "/" := DIVIDE, "!" := NOT, "!=" := NE, "=" := ASSIGN, "==" := EQ,
    ">" := GT, ">=" := GTE, "<" := LT, "<=" := LTE, "&&" := AND, "||" := OR]

  /** A character that begins no token, half an operator, or a text without its closing quote. */
  predicate IsError(s: string, next: char) {
    || (&& |s| == 1 && !IsAlphanumeric(s[0]) && s !in SYMBOLS && s[0] != '"'
        && (s == "&" ==> next != '&') && (s == "|" ==> next != '|'))
    || (|s| > 0 && s[0] == '"' && next == END && forall i :: 0 < i < |s| ==> s[i] != '"')
  }

  /** The text is one of those the kind stands for. */
  ghost predicate Spells(kind: Kind, text: string, next: char) {
    if text in SYMBOLS then kind == SYMBOLS[text]
    else if IsName(text) then kind == if text in KEYWORDS then KEYWORDS[text] else IDENTIFIER
    else
      || (kind.NUMBER? && IsNumber(text))
      || (kind.STRING? && IsText(text))
      || (kind.ERROR? && IsError(text, next))
  }

  /** A text that is a token without an error. */
  ghost predicate TokenText(s: string) {
    s in SYMBOLS || IsName(s) || IsNumber(s) || IsText(s)
  }

  ghost predicate TokenAt(source: string, start: nat, end: nat) {
    start <= end <= |source| && TokenText(source[start..end])
  }

  /** No longer text from `start` on is a token. */
  ghost predicate NoLongerToken(source: string, start: nat, end: nat) {
    forall e :: end < e <= |source| ==> !TokenAt(source, start, e)
  }

  ghost predicate TriviaAt(source: string, begin: nat, end: nat) {
    begin <= end <= |source| && Trivia(source[begin..end])
  }

  /** Blanks and comments from `begin` on go no farther than `end`. */
  ghost predicate NoMoreTrivia(source: string, begin: nat, end: nat) {
    forall e :: end < e <= |source| ==> !TriviaAt(source, begin, e)
  }

  ghost predicate Reads(text: string, s: string) {
    s == text
  }

  /** The text is a whole token of the kind.  The quantifier keeps provers from unfolding what that
      means where it does not matter. */
  ghost predicate Whole(kind: Kind, text: string, next: char) {
    !kind.EOF? && forall s :: Reads(text, s) ==> Spells(kind, s, next)
  }

  lemma WholeIs(kind: Kind, text: string, next: char)
    ensures Whole(kind, text, next) <==> !kind.EOF? && Spells(kind, text, next)
  {
    assert Reads(text, text);
  }

  function CharAt(source: string, i: nat): char {
    if i < |source| then source[i] else END
  }

  /** All the blanks and comments from `begin`, and then the longest token there is, or the end. */
  ghost predicate CutOff(source: string, begin: nat, start: nat, end: nat, kind: Kind) {
    && begin <= start <= end <= |source| && TriviaAt(source, begin, start) && NoMoreTrivia(source, begin, start)
    && if kind.EOF? then start == |source|
       else start < end && Whole(kind, source[start..end], CharAt(source, end)) && NoLongerToken(source, start, end)
  }

  class Scanner {
    const source: string
    var start: nat
    var current: nat
    var line: nat

    ghost predicate Valid()
      reads this
    {
      && (forall i :: 0 <= i < |source| ==> source[i] != END)
      && current <= |source| && line == 1 + Newlines(source[..current])
    }

    constructor (source: string)
      requires forall i :: 0 <= i < |source| ==> source[i] != END
      ensures this.source == source && Valid() && current == 0
    {
      this.source := source;
      start, current, line := 0, 0, 1;
    }

    function Peek(): char
      requires current <= |source|
      reads this
    {
      CharAt(source, current)
    }

    function PeekNext(): char
      requires current <= |source|
      reads this
    {
      CharAt(source, current + 1)
    }

    /** One character; the line is counted by the caller, before. */
    method Advance() returns (c: char)
      requires current < |source|
      modifies this`current
      ensures current == old(current) + 1 && c == source[old(current)]
      ensures Newlines(source[..current]) == Newlines(source[..old(current)]) + if c == '\n' then 1 else 0
    {
      c := source[current];
      assert source[..current + 1][..current] == source[..current];
      current := current + 1;
    }

    method Match(expected: char) returns (matched: bool)
      requires Valid() && expected != END && expected != '\n'
      modifies this`current
      ensures Valid() && matched == (old(Peek()) == expected) && current == old(current) + if matched then 1 else 0
    {
      matched := Peek() == expected;
      if matched {
        var _ := Advance();
      }
    }

    method SkipWhitespace()
      requires Valid()
      modifies this`current, this`line
      ensures Valid() && current >= old(current) && Trivia(source[old(current)..current])
      ensures NoMoreTrivia(source, old(current), current)
      ensures Peek() !in {' ', '\r', '\t', '\n'} && !(Peek() == '/' && PeekNext() == '/')
    {
      ghost var begin := current;
      while true
        invariant Valid() && begin <= current && Trivia(source[begin..current])
        invariant LinesEnd(source, begin, current)
        decreases |source| - current
      {
        ghost var here := current;
        var c := Peek();
        if c in {' ', '\r', '\t', '\n'} {
          if c == '\n' {
            line := line + 1;
          }
          var _ := Advance();
          BlankSkipped(source, begin, here);
        } else if c == '/' && PeekNext() == '/' {
          SkipComment(begin);
        } else {
          TriviaGoesNoFarther(source, begin, current);
          return;
        }
      }
    }

    /** To the end of the line. */
    method SkipComment(ghost begin: nat)
      requires Valid() && Peek() == '/' && PeekNext() == '/'
      requires begin <= current && Trivia(source[begin..current])
      modifies this`current
      ensures Valid() && old(current) < current && IsComment(source[old(current)..current])
      ensures Trivia(source[begin..current]) && LinesEnd(source, begin, current)
      ensures Peek() == '\n' || Peek() == END
    {
      ghost var here := current;
      while Peek() != '\n' && Peek() != END
        invariant Valid() && here <= current && forall i :: here <= i < current ==> source[i] != '\n'
        invariant current < here + 2 ==> Peek() == '/'
        decreases |source| - current
      {
        var _ := Advance();
      }
      CommentSkipped(source, begin, here, current);
    }

    method KeywordInF(text: string) returns (kind: Kind)
      requires |text| > 0 && text[0] == 'f'
      ensures kind == if text in KEYWORDS then KEYWORDS[text] else IDENTIFIER
    {
      kind := IDENTIFIER;
      if text == "fn" {
        kind := FUNCTION;
      } else if text == "for" {
        kind := FOR;
      } else if text == "function" {
        kind := FUNCTION;
      } else if text == "false" {
        kind := FALSE;
      } else if text == "float" {
        kind := FLOAT;
      }
    }

    method IdentifierType(text: string) returns (kind: Kind)
      requires IsName(text)
      ensures kind == if text in KEYWORDS then KEYWORDS[text] else IDENTIFIER
    {
      kind := IDENTIFIER;
      match text[0] {
        case 'l' => if text == "let" { kind := LET; }
        case 'i' => if text == "if" { kind := IF; } else if text == "int" { kind := INT; }
        case 'e' => if text == "else" { kind := ELSE; }
        case 'p' => if text == "print" { kind := PRINT; }
        case 'w' => if text == "while" { kind := WHILE; }
        case 'f' => kind := KeywordInF(text);
        case 'r' => if text == "return" { kind := RETURN; }
        case 't' => if text == "true" { kind := TRUE; }
        case 'b' => if text == "bool" { kind := BOOL; }
        case 's' => if text == "string" { kind := STRINGTYPE; }
        case 'v' => if text == "void" { kind := VOID; }
        case _ =>
      }
    }

    method Identifier() returns (token: Token)
      requires Valid() && start + 1 == current && IsAlpha(source[start])
      modifies this`current
      ensures Valid() && CutHere(token)
    {
      while IsAlphanumeric(Peek())
        invariant Valid() && start < current && forall i :: start <= i < current ==> IsAlphanumeric(source[i])
        decreases |source| - current
      {
        var _ := Advance();
      }
      var kind := IdentifierType(source[start..current]);
      NameSpells(source[start..current], kind, Peek());
      NameIsLongest(source, start, current);
      token := Token(kind, source[start..current], line);
    }

    method Number() returns (token: Token)
      requires Valid() && start + 1 == current && IsDigit(source[start])
      modifies this`current
      ensures Valid() && CutHere(token)
    {
      SkipDigits();
      assert Digits(source[start..current]);
      ghost var point := current;
      if Peek() == '.' && IsDigit(PeekNext()) {
        var _ := Advance();
        SkipDigits();
        ghost var text := source[start..current];
        forall k | 0 <= k < |text| && k != point - start
          ensures IsDigit(text[k])
        {
          assert text[k] == source[start + k];
        }
        PointMakesNumber(text, point - start);
      }
      NumberSpells(source[start..current], Peek());
      NumberIsLongest(source, start, point, current);
      token := Token(NUMBER, source[start..current], line);
    }

    method SkipDigits()
      requires Valid()
      modifies this`current
      ensures Valid() && old(current) <= current && !IsDigit(Peek())
      ensures forall i :: old(current) <= i < current ==> IsDigit(source[i])
      ensures old(IsDigit(Peek())) ==> old(current) < current
    {
      while IsDigit(Peek())
        invariant Valid() && old(current) <= current && forall i :: old(current) <= i < current ==> IsDigit(source[i])
        invariant old(current) == current ==> Peek() == old(Peek())
        decreases |source| - current
      {
        var _ := Advance();
      }
    }

    method StringToken() returns (token: Token)
      requires Valid() && start + 1 == current && source[start] == '"'
      modifies this`current, this`line
      ensures Valid() && CutHere(token)
    {
      while Peek() != '"' && Peek() != END
        invariant Valid() && start < current && forall i :: start < i < current ==> source[i] != '"'
        decreases |source| - current
      {
        if Peek() == '\n' {
          line := line + 1;
        }
        var _ := Advance();
      }
      if Peek() == END {
        UnquotedSpells(source[start..current]);
        assert NoLongerToken(source, start, current);
        return Token(ERROR, source[start..current], line);
      }
      var _ := Advance();
      QuotedSpells(source[start..current], Peek());
      TextIsLongest(source, start, current);
      token := Token(STRING, source[start..current], line);
    }

    /** The token is the text between the start and the cursor, and knows the line it ends on. */
    ghost predicate Cut(token: Token)
      requires current <= |source|
      reads this
    {
      start <= current && token.text == source[start..current] && token.line == line
    }

    /** A whole token, with some text, and the longest. */
    ghost predicate CutHere(token: Token)
      requires current <= |source|
      reads this
    {
      && Cut(token) && start < current && Whole(token.kind, token.text, Peek())
      && NoLongerToken(source, start, current)
    }

    /** One token with the blanks and comments before it. */
    method NextToken() returns (token: Token)
      requires Valid()
      modifies this
      ensures Valid() && old(current) <= start <= current && Trivia(source[old(current)..start]) && Cut(token)
      ensures token.kind.EOF? <==> start == |source|
      ensures !token.kind.EOF? ==>
                current > start && Spells(token.kind, token.text, Peek()) && NoLongerToken(source, start, current)
      ensures NoMoreTrivia(source, old(current), start) && CutOff(source, old(current), start, current, token.kind)
    {
      SkipWhitespace();
      start := current;
      if Peek() == END {
        return Token(EOF, "", line);
      }
      token := Cutoff();
      WholeIs(token.kind, token.text, Peek());
    }

    /** The token that begins at the cursor. */
    method Cutoff() returns (token: Token)
      requires Valid() && start == current < |source| && Peek() != '\n'
      modifies this`current, this`line
      ensures Valid() && CutHere(token)
    {
      var c := Advance();
      if IsAlpha(c) {
        token := Identifier();
      } else if IsDigit(c) {
        token := Number();
      } else if c == '"' {
        token := StringToken();
      } else {
        token := Symbol(c);
      }
    }

    method Symbol(c: char) returns (token: Token)
      requires Valid() && start + 1 == current && c == source[start] && !IsAlphanumeric(c) && c != '"'
      modifies this`current
      ensures Valid() && CutHere(token)
    {
      var kind;
      if c in FIRSTS {
        kind := Compound(c);
      } else {
        kind := Single(c);
        SymbolSpells([c], kind, Peek());
        assert source[start..current] == [c];
        SymbolIsLongest(source, start, current);
      }
      token := Token(kind, source[start..current], line);
    }

    method Compound(c: char) returns (kind: Kind)
      requires Valid() && start + 1 == current && c == source[start] && c in FIRSTS
      modifies this`current
      ensures Valid() && start < current && Whole(kind, source[start..current], Peek())
      ensures NoLongerToken(source, start, current)
    {
      var two, one := Pair(c);
      kind := TwoOrOne(c, Second(c), two, one);
    }

    /** What an operator's first character stands for with its second, and without. */
    method Pair(c: char) returns (two: Kind, one: Kind)
      requires c in FIRSTS
      ensures Pairs(c, Second(c), two, one)
    {
      match c {
        case '!' => two, one := NE, NOT; NotPairs();
        case '=' => two, one := EQ, ASSIGN; EqualPairs();
        case '>' => two, one := GTE, GT; GreaterPairs();
        case '<' => two, one := LTE, LT; LessPairs();
        case '&' => two, one := AND, ERROR; AndPairs();
        case _ => two, one := OR, ERROR; OrPairs();
      }
    }

    method Single(c: char) returns (kind: Kind)
      ensures c !in FIRSTS ==> kind == if [c] in SYMBOLS then SYMBOLS[[c]] else ERROR
    {
      kind := ERROR;
      BracketTable();
      OperatorTable();
      match c {
        case '(' => kind := LPAREN;
        case ')' => kind := RPAREN;
        case '{' => kind := LBRACE;
        case '}' => kind := RBRACE;
        case ';' => kind := SEMICOLON;
        case ',' => kind := COMMA;
        case ':' => kind := COLON;
        case '@' => kind := AT;
        case '+' => kind := PLUS;
        case '-' => kind := MINUS;
        case '*' => kind := MULTIPLY;
        case '/' => kind := DIVIDE;
        case _ =>
          if c !in FIRSTS {
            OtherCharacter(c);
          }
      }
    }

    /** An operator of two characters if the second is there, else what the first is alone. */
    method TwoOrOne(c: char, second: char, two: Kind, one: Kind) returns (kind: Kind)
      requires Valid() && start + 1 == current && source[start] == c && Pairs(c, second, two, one)
      modifies this`current
      ensures Valid() && start < current && Whole(kind, source[start..current], Peek())
      ensures NoLongerToken(source, start, current)
    {
      var matched := Match(second);
      kind := if matched then two else one;
      assert source[start..current] == if matched then [c, second] else [c];
      OperatorCut(source, start, current, c, second, two, one, matched);
    }

    /** All the tokens.  What was skipped and what was cut off, laid end to end, is the source. */
    method Tokenize() returns (tokens: seq<Token>, ghost gaps: seq<string>)
      requires Valid() && current == 0
      modifies this
      ensures Valid() && current == |source| && |gaps| == |tokens| > 0 && Laid(gaps, tokens) == source
      ensures Laying(source, gaps, tokens)
      ensures forall k :: 0 <= k < |tokens| ==> (tokens[k].kind.EOF? <==> k == |tokens| - 1)
    {
      tokens, gaps := [], [];
      while true
        invariant Valid() && |gaps| == |tokens| && Laid(gaps, tokens) == source[..current]
        invariant Laying(source, gaps, tokens)
        invariant forall k :: 0 <= k < |tokens| ==> !tokens[k].kind.EOF?
        decreases |source| - current
      {
        ghost var before := current;
        var token := NextToken();
        ghost var gap := source[before..start];
        NextLaid(source, gaps, tokens, before, start, current, token);
        gaps, tokens := gaps + [gap], tokens + [token];
        if token.kind.EOF? {
          assert source[..current] == source;
          return;
        }
      }
    }
  }

  /** All blanks and comments were skipped and nothing else, each token is a whole one and the longest there,
      and knows the line it ends on. */
  ghost predicate Laying(source: string, gaps: seq<string>, tokens: seq<Token>)
    requires |gaps| == |tokens|
  {
    forall k :: 0 <= k < |tokens| ==> LaidAt(source, gaps, tokens, k)
  }

  ghost predicate LaidAt(source: string, gaps: seq<string>, tokens: seq<Token>, k: nat)
    requires |gaps| == |tokens| && k < |tokens|
  {
    var begin, end := |Laid(gaps[..k], tokens[..k])|, |Laid(gaps[..k + 1], tokens[..k + 1])|;
    && Trivia(gaps[k]) && tokens[k].line == 1 + Newlines(Laid(gaps[..k + 1], tokens[..k + 1]))
    && CutOff(source, begin, begin + |gaps[k]|, end, tokens[k].kind)
  }

  lemma LaidBefore(source: string, gaps: seq<string>, tokens: seq<Token>, gap: string, token: Token, k: nat)
    requires |gaps| == |tokens| && k < |tokens| && LaidAt(source, gaps, tokens, k)
    ensures LaidAt(source, gaps + [gap], tokens + [token], k)
  {
    var gaps', tokens' := gaps + [gap], tokens + [token];
    assert gaps'[..k + 1] == gaps[..k + 1] && tokens'[..k + 1] == tokens[..k + 1];
    assert gaps'[..k] == gaps[..k] && tokens'[..k] == tokens[..k];
  }

  lemma LaidLast(source: string, gaps: seq<string>, tokens: seq<Token>, gap: string, token: Token, begin: nat,
                 start: nat, end: nat)
    requires |gaps| == |tokens|
    requires Trivia(gap) && token.line == 1 + Newlines(Laid(gaps + [gap], tokens + [token]))
    requires begin == |Laid(gaps, tokens)| && start == begin + |gap| && end == |Laid(gaps + [gap], tokens + [token])|
    requires CutOff(source, begin, start, end, token.kind)
    ensures LaidAt(source, gaps + [gap], tokens + [token], |tokens|)
  {
    var gaps', tokens', k := gaps + [gap], tokens + [token], |tokens|;
    assert gaps'[..k + 1] == gaps' && tokens'[..k + 1] == tokens' && gaps'[..k] == gaps && tokens'[..k] == tokens;
  }

  lemma LayingGrows(source: string, gaps: seq<string>, tokens: seq<Token>, gap: string, token: Token, begin: nat,
                    start: nat, end: nat)
    requires |gaps| == |tokens| && Laying(source, gaps, tokens)
    requires Trivia(gap) && token.line == 1 + Newlines(Laid(gaps + [gap], tokens + [token]))
    requires begin == |Laid(gaps, tokens)| && start == begin + |gap| && end == |Laid(gaps + [gap], tokens + [token])|
    requires CutOff(source, begin, start, end, token.kind)
    ensures Laying(source, gaps + [gap], tokens + [token])
  {
    var gaps', tokens' := gaps + [gap], tokens + [token];
    forall k | 0 <= k < |tokens'|
      ensures LaidAt(source, gaps', tokens', k)
    {
      if k < |tokens| {
        LaidBefore(source, gaps, tokens, gap, token, k);
      } else {
        LaidLast(source, gaps, tokens, gap, token, begin, start, end);
      }
    }
  }

  /** Gaps and tokens in turn. */
  function Laid(gaps: seq<string>, tokens: seq<Token>): string
    requires |gaps| == |tokens|
  {
    if gaps == [] then ""
    else Laid(gaps[..|gaps| - 1], tokens[..|tokens| - 1]) + gaps[|gaps| - 1] + tokens[|tokens| - 1].text
  }

  lemma LaidGrows(gaps: seq<string>, tokens: seq<Token>, gap: string, token: Token)
    requires |gaps| == |tokens|
    ensures Laid(gaps + [gap], tokens + [token]) == Laid(gaps, tokens) + gap + token.text
  {
    assert (gaps + [gap])[..|gaps|] == gaps && (tokens + [token])[..|tokens|] == tokens;
  }

  lemma NextLaid(source: string, gaps: seq<string>, tokens: seq<Token>, before: nat, start: nat, end: nat,
                 token: Token)
    requires |gaps| == |tokens| && before <= start <= end <= |source|
    requires Laid(gaps, tokens) == source[..before] && Laying(source, gaps, tokens)
    requires CutOff(source, before, start, end, token.kind) && token.text == source[start..end]
    requires token.line == 1 + Newlines(source[..end])
    ensures var gap := source[before..start];
            && Laid(gaps + [gap], tokens + [token]) == source[..end]
            && Laying(source, gaps + [gap], tokens + [token])
  {
    var gap := source[before..start];
    LaidGrows(gaps, tokens, gap, token);
    TextParts(source, before, start, end);
    LayingGrows(source, gaps, tokens, gap, token, before, start, end);
  }

  lemma TextParts(s: string, a: nat, b: nat, c: nat)
    requires a <= b <= c <= |s|
    ensures s[..c] == s[..a] + s[a..b] + s[b..c]
  {
  }

  lemma ShapesDiffer(text: string)
    requires IsName(text)
    ensures text !in SYMBOLS
  {
  }

  lemma PointMakesNumber(text: string, i: nat)
    requires 0 < i < |text| - 1 && text[i] == '.' && forall k :: 0 <= k < |text| && k != i ==> IsDigit(text[k])
    ensures IsNumber(text)
  {
    assert Digits(text[..i]) && Digits(text[i + 1..]);
  }

  /** Characters that may begin an operator of two. */
  const FIRSTS: set<char> := {'!', '=', '>', '<', '&', '|'}

  function Second(c: char): char {
    if c == '&' || c == '|' then c else '='
  }

  lemma BracketTable()
    ensures ['('] in SYMBOLS && SYMBOLS[['(']] == LPAREN && [')'] in SYMBOLS && SYMBOLS[[')']] == RPAREN
    ensures ['{'] in SYMBOLS && SYMBOLS[['{']] == LBRACE && ['}'] in SYMBOLS && SYMBOLS[['}']] == RBRACE
    ensures [';'] in SYMBOLS && SYMBOLS[[';']] == SEMICOLON && [','] in SYMBOLS && SYMBOLS[[',']] == COMMA
    ensures [':'] in SYMBOLS && SYMBOLS[[':']] == COLON && ['@'] in SYMBOLS && SYMBOLS[['@']] == AT
  {
  }

  lemma OperatorTable()
    ensures ['+'] in SYMBOLS && SYMBOLS[['+']] == PLUS && ['-'] in SYMBOLS && SYMBOLS[['-']] == MINUS
    ensures ['*'] in SYMBOLS && SYMBOLS[['*']] == MULTIPLY && ['/'] in SYMBOLS && SYMBOLS[['/']] == DIVIDE
  {
  }

  lemma OtherCharacter(c: char)
    requires c !in FIRSTS && c !in {'(', ')', '{', '}', ';', ',', ':', '@', '+', '-', '*', '/'}
    ensures [c] !in SYMBOLS
  {
  }

  /** `c` may be followed by `second`, and is `one` without it. */
  ghost predicate Pairs(c: char, second: char, two: Kind, one: Kind) {
    && c in FIRSTS && second == Second(c) && [c, second] in SYMBOLS && two == SYMBOLS[[c, second]]
    && one == if [c] in SYMBOLS then SYMBOLS[[c]] else ERROR
  }

  lemma NotPairs()
    ensures Pairs('!', '=', NE, NOT)
  {
  }

  lemma EqualPairs()
    ensures Pairs('=', '=', EQ, ASSIGN)
  {
  }

  lemma GreaterPairs()
    ensures Pairs('>', '=', GTE, GT)
  {
  }

  lemma LessPairs()
    ensures Pairs('<', '=', LTE, LT)
  {
  }

  lemma AndPairs()
    ensures Pairs('&', '&', AND, ERROR)
  {
  }

  lemma OrPairs()
    ensures Pairs('|', '|', OR, ERROR)
  {
  }

  lemma SymbolSpells(text: string, kind: Kind, next: char)
    requires |text| > 0 && !IsAlphanumeric(text[0]) && text[0] != '"'
    requires |text| == 1 ==> kind == if text in SYMBOLS then SYMBOLS[text] else ERROR
    requires |text| == 2 ==> text in SYMBOLS && kind == SYMBOLS[text]
    requires |text| <= 2 && (|text| == 1 && text[0] in FIRSTS ==> next != Second(text[0]))
    ensures Whole(kind, text, next)
  {
    WholeIs(kind, text, next);
  }

  lemma PairSpells(c: char, second: char, two: Kind, one: Kind, next: char)
    requires Pairs(c, second, two, one)
    ensures Whole(two, [c, second], next)
  {
    SymbolSpells([c, second], two, next);
  }

  lemma HalfSpells(c: char, second: char, two: Kind, one: Kind, next: char)
    requires Pairs(c, second, two, one) && next != second
    ensures Whole(one, [c], next)
  {
    SymbolSpells([c], one, next);
  }

  lemma OperatorCut(source: string, start: nat, end: nat, c: char, second: char, two: Kind, one: Kind, matched: bool)
    requires start < end <= |source| && Pairs(c, second, two, one)
    requires source[start..end] == if matched then [c, second] else [c]
    requires !matched ==> CharAt(source, end) != second
    ensures Whole(if matched then two else one, source[start..end], CharAt(source, end))
    ensures NoLongerToken(source, start, end)
  {
    if matched {
      PairSpells(c, second, two, one, CharAt(source, end));
    } else {
      HalfSpells(c, second, two, one, CharAt(source, end));
    }
    assert source[start] == source[start..end][0];
    SymbolIsLongest(source, start, end);
  }

  lemma NameSpells(text: string, kind: Kind, next: char)
    requires IsName(text) && !IsAlphanumeric(next) && kind == if text in KEYWORDS then KEYWORDS[text] else IDENTIFIER
    ensures Whole(kind, text, next)
  {
    ShapesDiffer(text);
    WholeIs(kind, text, next);
  }

  lemma NumberSpells(text: string, next: char)
    requires IsNumber(text) && IsDigit(text[0]) && !IsDigit(next)
    ensures Whole(NUMBER, text, next)
  {
    WholeIs(NUMBER, text, next);
  }

  lemma QuotedSpells(text: string, next: char)
    requires IsText(text)
    ensures Whole(STRING, text, next)
  {
    WholeIs(STRING, text, next);
  }

  lemma UnquotedSpells(text: string)
    requires |text| > 0 && text[0] == '"' && forall i :: 0 < i < |text| ==> text[i] != '"'
    ensures Whole(ERROR, text, END)
  {
    WholeIs(ERROR, text, END);
  }

  // ---- Which token is the longest ----

  lemma SymbolShape(s: string)
    requires s in SYMBOLS
    ensures |s| > 0 && !IsAlphanumeric(s[0]) && s[0] != '"'
    ensures |s| == 1 || (|s| == 2 && s[0] in FIRSTS && s[1] == Second(s[0]))
  {
  }

  /** What a token is can be told from its first character. */
  lemma FirstTells(s: string)
    requires TokenText(s)
    ensures |s| > 0
    ensures if IsAlpha(s[0]) then IsName(s) else if IsDigit(s[0]) then IsNumber(s)
            else if s[0] == '"' then IsText(s) else s in SYMBOLS
  {
    if s in SYMBOLS {
      SymbolShape(s);
    } else if IsNumber(s) {
      NumberBegins(s);
    }
  }

  lemma NumberBegins(s: string)
    requires IsNumber(s)
    ensures IsDigit(s[0])
  {
    if !Digits(s) {
      var i :| 0 < i < |s| - 1 && s[i] == '.' && Digits(s[..i]) && Digits(s[i + 1..]);
      assert s[..i][0] == s[0];
    }
  }

  lemma NameIsLongest(source: string, start: nat, end: nat)
    requires start < end <= |source| && IsAlpha(source[start]) && !IsAlphanumeric(CharAt(source, end))
    ensures NoLongerToken(source, start, end)
  {
    forall e | end < e <= |source|
      ensures !TokenAt(source, start, e)
    {
      var s := source[start..e];
      assert s[0] == source[start] && s[end - start] == source[end];
      if TokenText(s) {
        FirstTells(s);
      }
    }
  }

  /** A number has no other characters than digits and one point with digits after it. */
  lemma NumberGoesOn(s: string, k: nat)
    requires IsNumber(s) && k < |s| && !IsDigit(s[k])
    ensures s[k] == '.' && k + 1 < |s| && IsDigit(s[k + 1]) && forall j :: 0 <= j < k ==> IsDigit(s[j])
  {
    var i :| 0 < i < |s| - 1 && s[i] == '.' && Digits(s[..i]) && Digits(s[i + 1..]);
    assert forall j :: 0 <= j < i ==> s[j] == s[..i][j];
    assert forall j :: i < j < |s| ==> s[j] == s[i + 1..][j - i - 1];
  }

  lemma NumberIsLongest(source: string, start: nat, point: nat, end: nat)
    requires start < point <= end <= |source| && IsDigit(source[start]) && !IsDigit(CharAt(source, end))
    requires if point < end then source[point] == '.'
             else !(CharAt(source, end) == '.' && IsDigit(CharAt(source, end + 1)))
    ensures NoLongerToken(source, start, end)
  {
    forall e | end < e <= |source|
      ensures !TokenAt(source, start, e)
    {
      var s := source[start..e];
      assert s[0] == source[start] && s[end - start] == source[end] && s[point - start] == source[point];
      assert end + 1 < e ==> s[end - start + 1] == source[end + 1];
      if TokenText(s) {
        FirstTells(s);
        NumberGoesOn(s, end - start);
      }
    }
  }

  lemma TextIsLongest(source: string, start: nat, end: nat)
    requires start + 1 < end <= |source| && source[start] == '"' && source[end - 1] == '"'
    ensures NoLongerToken(source, start, end)
  {
    forall e | end < e <= |source|
      ensures !TokenAt(source, start, e)
    {
      var s := source[start..e];
      assert s[0] == '"' && s[end - 1 - start] == '"';
      if TokenText(s) {
        FirstTells(s);
      }
    }
  }

  lemma SymbolIsLongest(source: string, start: nat, end: nat)
    requires start < end <= start + 2 && end <= |source| && !IsAlphanumeric(source[start]) && source[start] != '"'
    requires end == start + 1 && source[start] in FIRSTS ==> CharAt(source, end) != Second(source[start])
    ensures NoLongerToken(source, start, end)
  {
    forall e | end < e <= |source|
      ensures !TokenAt(source, start, e)
    {
      var s := source[start..e];
      assert s[0] == source[start] && s[end - start] == source[end];
      if TokenText(s) {
        FirstTells(s);
        SymbolShape(s);
      }
    }
  }
}
