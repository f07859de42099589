/** What the Pratt parser computes, as functions of the token stream and the index of the
    current token. The parser class (module Parsing) is proved to follow these step for
    step; the grouping and termination facts are proved about them (module
    ParserProperties).

    The token stream is a sequence of tokens; reading past its end yields an `EOF` token,
    as the lexer does once its input is exhausted. A parse result records the node built,
    the index of the current token afterwards, and the error list afterwards. */
module ParserSpec {
  import opened Wrappers
  import opened SwiftInt
  import opened Tokens
  import opened Ast

  /** Binding strengths, weakest first; `Rank` is the raw value the enumeration assigns. */
  datatype OperatorOrder = LOWEST | EQUALS | LESSGREATER | SUM | PRODUCT | PREFIX | CALL

  function Rank(o: OperatorOrder): (n: nat)
    ensures 1 <= n <= 7
    ensures n == 1 <==> o == LOWEST
  {
    match o
    case LOWEST => 1
    case EQUALS => 2
    case LESSGREATER => 3
    case SUM => 4
    case PRODUCT => 5
    case PREFIX => 6
    case CALL => 7
  }

  /** The precedence table: the binary operators and their binding strength. */
  const Precedences: map<TokenType, OperatorOrder> :=
    map[EQUAL := EQUALS, NOTEQUAL := EQUALS,
        GREATER := LESSGREATER, LESSTHAN := LESSGREATER,
        PLUS := SUM, MINUS := SUM,
        SLASH := PRODUCT, ASTERISK := PRODUCT]

  /** The precedence of a token kind: its entry in the table, LOWEST for kinds missing
      from it. */
  function PrecedenceOf(k: TokenType): OperatorOrder
  {
    match k
    case EQUAL => EQUALS
    case NOTEQUAL => EQUALS
    case GREATER => LESSGREATER
    case LESSTHAN => LESSGREATER
    case PLUS => SUM
    case MINUS => SUM
    case SLASH => PRODUCT
    case ASTERISK => PRODUCT
    case _ => LOWEST
  }

  /** PrecedenceOf is the lookup in the precedence table, with LOWEST as the default. */
  lemma PrecedenceIsTableLookup(k: TokenType)
    ensures PrecedenceOf(k) == (if k in Precedences then Precedences[k] else LOWEST)
  {
  }

  /** The kinds the parser registers a prefix rule for. */
  predicate HasPrefixRule(k: TokenType)
  {
    k == IDENT || k == INT || k == BANG || k == MINUS
  }

  /** The kinds the parser registers an infix rule for. */
  predicate HasInfixRule(k: TokenType)
  {
    k == PLUS || k == MINUS || k == SLASH || k == ASTERISK ||
    k == EQUAL || k == NOTEQUAL || k == LESSTHAN || k == GREATER
  }

  /** The token at index `i`; past the end of the stream, the end marker. */
  function At(toks: seq<Token>, i: nat): Token
  {
    if i < |toks| then toks[i] else Token(EOF, "")
  }

  /** Tokens left from index `i` on: the termination measure of every parsing loop. */
  function Rem(toks: seq<Token>, i: nat): nat
  {
    if i < |toks| then |toks| - i else 0
  }

  /** The result of a parse: the node, the index of the current token afterwards, and the
      parser's whole error list afterwards. Every parse function takes the error list it
      starts from, so that the list is threaded through as the parser's field is. */
  datatype Parsed<T> = Parsed(value: T, pos: nat, errors: seq<string>)

  function NoPrefixMessage(k: TokenType): string
  {
    "no prefix parse function for " + RawValue(k) + " found"
  }

  /** The message for a failed `expectPeek`; it names the kind actually found first and
      the kind expected second. */
  function PeekErrorMessage(expected: TokenType, found: TokenType): string
  {
    "expected next token to be " + RawValue(found) + ", got " + RawValue(expected) + " instead."
  }

  function IntegerErrorMessage(literal: string): string
  {
    "could not parse " + literal + " as integer"
  }

  /** The infix loop has stopped at `pos`: the next token is a semicolon, or it does not
      bind more tightly than `prec`. */
  predicate Stops(toks: seq<Token>, pos: nat, prec: OperatorOrder)
  {
    At(toks, pos + 1).kind == SEMICOLON || Rank(PrecedenceOf(At(toks, pos + 1).kind)) <= Rank(prec)
  }

  /** parseExpression with the current token at `pos`: a prefix rule for the current token,
      then the infix loop. Without a prefix rule, one error and no expression. */
  function ExpressionAt(toks: seq<Token>, pos: nat, prec: OperatorOrder, errs: seq<string>): (r: Parsed<Option<Expression>>)
    decreases Rem(toks, pos), 3
    ensures r.pos >= pos && errs <= r.errors
    ensures r.value.None? <==> !HasPrefixRule(At(toks, pos).kind)
    ensures r.value.None? ==> r.pos == pos && r.errors == errs + [NoPrefixMessage(At(toks, pos).kind)]
  {
    if !HasPrefixRule(At(toks, pos).kind) then
      Parsed(None, pos, errs + [NoPrefixMessage(At(toks, pos).kind)])
    else
      var left := PrefixRuleAt(toks, pos, errs);
      var rest := InfixLoopAt(toks, left.pos, prec, left.value, left.errors);
      Parsed(Some(rest.value), rest.pos, rest.errors)
  }

  /** The prefix rule registered for the current token's kind. */
  function PrefixRuleAt(toks: seq<Token>, pos: nat, errs: seq<string>): (r: Parsed<Expression>)
    requires HasPrefixRule(At(toks, pos).kind)
    decreases Rem(toks, pos), 2
    ensures r.pos >= pos && errs <= r.errors
    ensures At(toks, pos).kind == IDENT ==> r == Parsed(Identifier(At(toks, pos).literal), pos, errs)
    ensures At(toks, pos).kind == INT ==> r == IntegerLiteralAt(toks, pos, errs)
    ensures At(toks, pos).kind == BANG || At(toks, pos).kind == MINUS ==> r == PrefixAt(toks, pos, errs)
  {
    if At(toks, pos).kind == IDENT then Parsed(Identifier(At(toks, pos).literal), pos, errs)
    else if At(toks, pos).kind == INT then IntegerLiteralAt(toks, pos, errs)
    else PrefixAt(toks, pos, errs)
  }

  /** parseIntegerLiteral: the literal's value, or 0 and an error when it does not convert. */
  function IntegerLiteralAt(toks: seq<Token>, pos: nat, errs: seq<string>): (r: Parsed<Expression>)
    ensures r.pos == pos && r.value.IntegerLiteral?
    ensures r.errors == errs <==> ParseInt(At(toks, pos).literal).Some?
    ensures r.errors == errs ==> r.value.intValue == ParseInt(At(toks, pos).literal).value
    ensures r.errors != errs ==>
      r.value.intValue == 0 && r.errors == errs + [IntegerErrorMessage(At(toks, pos).literal)]
  {
    match ParseInt(At(toks, pos).literal)
    case Some(v) => Parsed(IntegerLiteral(v), pos, errs)
    case None => Parsed(IntegerLiteral(0), pos, errs + [IntegerErrorMessage(At(toks, pos).literal)])
  }

  /** parsePrefixExpression: the operator, and an operand parsed at PREFIX strength from
      the next token. */
  function PrefixAt(toks: seq<Token>, pos: nat, errs: seq<string>): (r: Parsed<Expression>)
    requires At(toks, pos).kind == BANG || At(toks, pos).kind == MINUS
    decreases Rem(toks, pos), 1
    ensures r.pos > pos && errs <= r.errors
    ensures r.value.PrefixExpression? && r.value.operatorLiteral == At(toks, pos).literal
  {
    var right := ExpressionAt(toks, pos + 1, PREFIX, errs);
    Parsed(PrefixExpression(At(toks, pos).literal, right.value), right.pos, right.errors)
  }

  /** parseInfixExpression with the operator current at `pos`: the right operand is parsed
      at the operator's own strength, so an operator of equal strength that follows is
      left for the caller. */
  function InfixAt(toks: seq<Token>, pos: nat, left: Expression, errs: seq<string>): (r: Parsed<Expression>)
    requires HasInfixRule(At(toks, pos).kind)
    decreases Rem(toks, pos), 1
    ensures r.pos > pos && errs <= r.errors
    ensures r.value.InfixExpression? && r.value.left == left
    ensures r.value.operatorLiteral == At(toks, pos).literal
  {
    var right := ExpressionAt(toks, pos + 1, PrecedenceOf(At(toks, pos).kind), errs);
    Parsed(InfixExpression(left, At(toks, pos).literal, right.value), right.pos, right.errors)
  }

  /** The loop of parseExpression, with `left` built so far and the current token at `pos`:
      while the next token is not a semicolon and binds more tightly than `prec`, fold it
      into `left` by its infix rule. */
  function InfixLoopAt(toks: seq<Token>, pos: nat, prec: OperatorOrder, left: Expression, errs: seq<string>): (r: Parsed<Expression>)
    decreases Rem(toks, pos), 0
    ensures r.pos >= pos && errs <= r.errors
    ensures r.pos == pos ==> r == Parsed(left, pos, errs)
  {
    var peek := At(toks, pos + 1);
    if peek.kind == SEMICOLON || Rank(PrecedenceOf(peek.kind)) <= Rank(prec) then
      Parsed(left, pos, errs)
    else if !HasInfixRule(peek.kind) then
      // every kind in the precedence table has an infix rule, so this exit is never taken
      assert false; Parsed(left, pos, errs)
    else
      var step := InfixAt(toks, pos + 1, left, errs);
      InfixLoopAt(toks, step.pos, prec, step.value, step.errors)
  }

  /** The infix loop ends where the next token stops it, with nothing added. */
  lemma InfixLoopEnd(toks: seq<Token>, pos: nat, prec: OperatorOrder, left: Expression, errs: seq<string>)
    requires Stops(toks, pos, prec)
    ensures InfixLoopAt(toks, pos, prec, left, errs) == Parsed(left, pos, errs)
  {
  }

  /** One turn of the infix loop: while the next token is not stopped, it is an operator
      with an infix rule, and the loop continues after that operator's right operand. */
  lemma InfixLoopTurn(toks: seq<Token>, pos: nat, prec: OperatorOrder, left: Expression, errs: seq<string>)
    requires !Stops(toks, pos, prec)
    ensures HasInfixRule(At(toks, pos + 1).kind)
    ensures var step := InfixAt(toks, pos + 1, left, errs);
      InfixLoopAt(toks, pos, prec, left, errs) == InfixLoopAt(toks, step.pos, prec, step.value, step.errors)
  {
  }

  /** The first index from `i` on holding a semicolon, if any. */
  function SemicolonFrom(toks: seq<Token>, i: nat): (r: Option<nat>)
    decreases Rem(toks, i)
    ensures r.Some? ==> i <= r.value < |toks| && toks[r.value].kind == SEMICOLON
    ensures r.Some? ==> forall j :: i <= j < r.value ==> toks[j].kind != SEMICOLON
    ensures r.None? <==> forall j :: i <= j < |toks| ==> toks[j].kind != SEMICOLON
  {
    if i >= |toks| then None
    else if toks[i].kind == SEMICOLON then Some(i)
    else SemicolonFrom(toks, i + 1)
  }

  /** parseExpressStatement: an expression at LOWEST strength, then past a semicolon if one
      follows. */
  function ExpressionStatementAt(toks: seq<Token>, pos: nat, errs: seq<string>): (r: Parsed<Statement>)
    ensures var e := ExpressionAt(toks, pos, LOWEST, errs);
      r.value == ExpressionStatement(e.value) && r.errors == e.errors &&
      (r.pos == e.pos || (r.pos == e.pos + 1 && At(toks, r.pos).kind == SEMICOLON))
    ensures var e := ExpressionAt(toks, pos, LOWEST, errs);
      r.pos == (if At(toks, e.pos + 1).kind == SEMICOLON then e.pos + 1 else e.pos)
  {
    var e := ExpressionAt(toks, pos, LOWEST, errs);
    var after := if At(toks, e.pos + 1).kind == SEMICOLON then e.pos + 1 else e.pos;
    Parsed(ExpressionStatement(e.value), after, e.errors)
  }

  /** parseReturnStatement: the tokens up to the next semicolon are skipped and no value is
      kept. Without a later semicolon the skip loop never ends: None. */
  function ReturnAt(toks: seq<Token>, pos: nat, errs: seq<string>): (r: Option<Parsed<Option<Statement>>>)
    ensures r.None? <==> SemicolonFrom(toks, pos + 1).None?
    ensures r.Some? ==> r.value.value == Some(ReturnStatement(None)) && r.value.errors == errs
    ensures r.Some? ==> r.value.pos > pos && At(toks, r.value.pos).kind == SEMICOLON
    ensures r.Some? ==> r.value.pos == SemicolonFrom(toks, pos + 1).value
  {
    match SemicolonFrom(toks, pos + 1)
    case None => None
    case Some(j) => Some(Parsed(Some(ReturnStatement(None)), j, errs))
  }

  /** parseLetStatement: an identifier and `=` must follow, each checked by expectPeek;
      then the tokens up to the next semicolon are skipped and no value is kept. */
  function LetAt(toks: seq<Token>, pos: nat, errs: seq<string>): (r: Option<Parsed<Option<Statement>>>)
    ensures At(toks, pos + 1).kind != IDENT ==>
      r == Some(Parsed(None, pos, errs + [PeekErrorMessage(IDENT, At(toks, pos + 1).kind)]))
    ensures At(toks, pos + 1).kind == IDENT && At(toks, pos + 2).kind != ASSIGN ==>
      r == Some(Parsed(None, pos + 1, errs + [PeekErrorMessage(ASSIGN, At(toks, pos + 2).kind)]))
    ensures r.Some? && r.value.value.Some? ==>
      r.value.value.value == LetStatement(At(toks, pos + 1).literal, None) && r.value.errors == errs &&
      r.value.pos > pos + 2 && At(toks, r.value.pos).kind == SEMICOLON
    ensures r.None? <==>
      At(toks, pos + 1).kind == IDENT && At(toks, pos + 2).kind == ASSIGN && SemicolonFrom(toks, pos + 2).None?
    ensures r.Some? && r.value.value.Some? ==> r.value.pos == SemicolonFrom(toks, pos + 2).value
  {
    if At(toks, pos + 1).kind != IDENT then
      Some(Parsed(None, pos, errs + [PeekErrorMessage(IDENT, At(toks, pos + 1).kind)]))
    else if At(toks, pos + 2).kind != ASSIGN then
      Some(Parsed(None, pos + 1, errs + [PeekErrorMessage(ASSIGN, At(toks, pos + 2).kind)]))
    else
      match SemicolonFrom(toks, pos + 2)
      case None => None
      case Some(j) => Some(Parsed(Some(LetStatement(At(toks, pos + 1).literal, None)), j, errs))
  }

  /** parseStatement: dispatch on the current token's kind. None when the statement's skip
      loop would not end. */
  function StatementAt(toks: seq<Token>, pos: nat, errs: seq<string>): (r: Option<Parsed<Option<Statement>>>)
    ensures r.Some? ==> r.value.pos >= pos && errs <= r.value.errors
    ensures r.None? ==> At(toks, pos).kind == LET || At(toks, pos).kind == RETURN
    ensures r.Some? && r.value.value.Some? && !r.value.value.value.ExpressionStatement? ==>
      r.value.value.value == LetStatement(At(toks, pos + 1).literal, None) ||
      r.value.value.value == ReturnStatement(None)
    ensures At(toks, pos).kind == LET ==> r == LetAt(toks, pos, errs)
    ensures At(toks, pos).kind == RETURN ==> r == ReturnAt(toks, pos, errs)
    ensures At(toks, pos).kind != LET && At(toks, pos).kind != RETURN ==>
      r == Some(Kept(ExpressionStatementAt(toks, pos, errs)))
  {
    if At(toks, pos).kind == LET then LetAt(toks, pos, errs)
    else if At(toks, pos).kind == RETURN then ReturnAt(toks, pos, errs)
    else
      Some(Kept(ExpressionStatementAt(toks, pos, errs)))
  }

  /** A parsed statement as a statement that may be nil. */
  function Kept(s: Parsed<Statement>): Parsed<Option<Statement>>
  {
    Parsed(Some(s.value), s.pos, s.errors)
  }

  /** parseProgram from the current token at `pos`, with the statements `done` collected so
      far: statements until the current token is EOF, each followed by one step forward;
      statements that came back nil are dropped. None when some statement's skip loop would
      not end. */
  function ProgramFrom(toks: seq<Token>, pos: nat, done: seq<Statement>, errs: seq<string>): (r: Option<Parsed<seq<Statement>>>)
    decreases Rem(toks, pos)
  {
    if At(toks, pos).kind == EOF then Some(Parsed(done, pos, errs))
    else
      match StatementAt(toks, pos, errs)
      case None => None
      case Some(s) =>
        ProgramFrom(toks, s.pos + 1, (if s.value.Some? then done + [s.value.value] else done), s.errors)
  }

  /** After a turn that parsed statement `s` and kept it when it was not nil, the rest of
      the program from the token after `s` is the program from `pos`. */
  lemma ProgramStep(toks: seq<Token>, pos: nat, done: seq<Statement>, errs: seq<string>,
                    s: Parsed<Option<Statement>>, kept: seq<Statement>)
    requires At(toks, pos).kind != EOF && StatementAt(toks, pos, errs) == Some(s)
    requires kept == if s.value.Some? then done + [s.value.value] else done
    ensures ProgramFrom(toks, s.pos + 1, kept, s.errors) == ProgramFrom(toks, pos, done, errs)
  {
  }

  /** A program that ends stops at an EOF token at or after `pos`, keeps the statements
      and errors it started with as a prefix of what it returns, and adds at most one
      statement per token. */
  lemma {:induction false} ProgramFromShape(toks: seq<Token>, pos: nat, done: seq<Statement>, errs: seq<string>)
    requires ProgramFrom(toks, pos, done, errs).Some?
    ensures var r := ProgramFrom(toks, pos, done, errs).value;
      r.pos >= pos && At(toks, r.pos).kind == EOF &&
      done <= r.value && errs <= r.errors && |r.value| <= |done| + Rem(toks, pos)
    decreases Rem(toks, pos)
  {
    if At(toks, pos).kind != EOF {
      var s := StatementAt(toks, pos, errs).value;
      var kept := if s.value.Some? then done + [s.value.value] else done;
      ProgramStep(toks, pos, done, errs, s, kept);
      ProgramFromShape(toks, s.pos + 1, kept, s.errors);
    }
  }

  /** parseProgram's loop ends at EOF with what it has collected. */
  lemma ProgramEnd(toks: seq<Token>, pos: nat, done: seq<Statement>, errs: seq<string>)
    requires At(toks, pos).kind == EOF
    ensures ProgramFrom(toks, pos, done, errs) == Some(Parsed(done, pos, errs))
  {
  }
}
