/** The parser as the interpreter builds it: an object holding a lexer, the current and
    the next token, and an append-only list of error messages, whose methods advance the
    cursor step by step. Every method is proved to do what the matching function of
    ParserSpec describes, starting from the index of the current token. */
module Parsing {
  import opened Wrappers
  import opened SwiftInt
  import opened Tokens
  import opened Ast
  import opened ParserSpec

  /** The lexer, seen from the parser: a fixed token stream read one token per call; past
      the end it keeps returning the end marker. */
  class Lexer {
    const tokens: seq<Token>
    var position: nat

    constructor(tokens: seq<Token>)
      ensures this.tokens == tokens && position == 0
    {
      this.tokens := tokens;
      position := 0;
    }

    method NextToken() returns (t: Token)
      modifies this
      ensures t == At(tokens, old(position)) && position == old(position) + 1
    {
      t := At(tokens, position);
      position := position + 1;
    }
  }

  class Parser {
    const lexer: Lexer
    var curToken: Token
    var peekToken: Token
    var errors: seq<string>
    /** The index of the current token in the lexer's stream. */
    ghost var pos: nat

    /** The current and next tokens are the two most recently read from the lexer. */
    ghost predicate Valid()
      reads this, lexer
    {
      lexer.position == pos + 2 &&
      curToken == At(lexer.tokens, pos) &&
      peekToken == At(lexer.tokens, pos + 1)
    }

    /** Reads the first two tokens; no errors yet. */
    constructor(l: Lexer)
      modifies l
      ensures lexer == l && Valid() && pos == old(l.position) && errors == []
    {
      lexer := l;
      new;
      pos := l.position;
      curToken := l.NextToken();
      peekToken := l.NextToken();
      errors := [];
    }

    /** The precedence of the next token. */
    function PeekPrecedence(): (p: OperatorOrder)
      reads this
      ensures Rank(p) > Rank(LOWEST) <==> HasInfixRule(peekToken.kind)
    {
      PrecedenceOf(peekToken.kind)
    }

    /** The precedence of the current token. */
    function CurPrecedence(): (p: OperatorOrder)
      reads this
      ensures Rank(p) > Rank(LOWEST) <==> HasInfixRule(curToken.kind)
    {
      PrecedenceOf(curToken.kind)
    }

    /** Moves the cursor one token forward. */
    method NextToken()
      requires Valid()
      modifies this, lexer
      ensures Valid() && pos == old(pos) + 1 && errors == old(errors)
      ensures curToken == old(peekToken)
    {
      curToken := peekToken;
      peekToken := lexer.NextToken();
      pos := pos + 1;
    }

    /** Parses statements until the current token is EOF, moving one token forward after
        each; statements that came back nil are dropped. */
    method ParseProgram() returns (program: Program)
      requires Valid() && ProgramFrom(lexer.tokens, pos, [], errors).Some?
      modifies this, lexer
      ensures Valid()
      ensures var r := ProgramFrom(lexer.tokens, old(pos), [], old(errors)).value;
        program == Program(r.value) && pos == r.pos && errors == r.errors
    {
      var statements: seq<Statement> := [];
      ghost var target := ProgramFrom(lexer.tokens, pos, statements, errors);
      while curToken.kind != EOF
        invariant Valid() && ProgramFrom(lexer.tokens, pos, statements, errors) == target
        decreases Rem(lexer.tokens, pos)
      {
        statements := ParseProgramTurn(statements);
      }
      ProgramEnd(lexer.tokens, pos, statements, errors);
      program := Program(statements);
    }

    /** One turn of the program loop: a statement, kept when it is not nil, then one token
        forward. What is left of the program is unchanged by the turn. */
    method ParseProgramTurn(done: seq<Statement>) returns (kept: seq<Statement>)
      requires Valid() && curToken.kind != EOF && ProgramFrom(lexer.tokens, pos, done, errors).Some?
      modifies this, lexer
      ensures Valid() && Rem(lexer.tokens, pos) < Rem(lexer.tokens, old(pos))
      ensures ProgramFrom(lexer.tokens, pos, kept, errors) == ProgramFrom(lexer.tokens, old(pos), done, old(errors))
    {
      ghost var before, errs := pos, errors;
      var stmt := ParseStatement();
      kept := if stmt.Some? then done + [stmt.value] else done;
      ProgramStep(lexer.tokens, before, done, errs, Parsed(stmt, pos, errors), kept);
      NextToken();
    }

    /** Dispatches on the current token's kind. */
    method ParseStatement() returns (s: Option<Statement>)
      requires Valid() && StatementAt(lexer.tokens, pos, errors).Some?
      modifies this, lexer
      ensures Valid()
      ensures var r := StatementAt(lexer.tokens, old(pos), old(errors)).value;
        s == r.value && pos == r.pos && errors == r.errors
    {
      if curToken.kind == LET {
        s := ParseLetStatement();
      } else if curToken.kind == RETURN {
        s := ParseReturnStatement();
      } else {
        var e := ParseExpressStatement();
        s := Some(e);
      }
    }

    /** An expression at LOWEST strength, then one step past a semicolon if one follows. */
    method ParseExpressStatement() returns (s: Statement)
      requires Valid()
      modifies this, lexer
      ensures Valid()
      ensures var r := ExpressionStatementAt(lexer.tokens, old(pos), old(errors));
        s == r.value && pos == r.pos && errors == r.errors
    {
      var e := ParseExpression(LOWEST);
      s := ExpressionStatement(e);
      if peekToken.kind == SEMICOLON {
        NextToken();
      }
    }

    /** Skips to the next semicolon; the statement keeps no value. */
    method ParseReturnStatement() returns (s: Option<Statement>)
      requires Valid() && ReturnAt(lexer.tokens, pos, errors).Some?
      modifies this, lexer
      ensures Valid()
      ensures var r := ReturnAt(lexer.tokens, old(pos), old(errors)).value;
        s == r.value && pos == r.pos && errors == r.errors
    {
      NextToken();
      SkipToSemicolon();
      s := Some(ReturnStatement(None));
    }

    /** An identifier and `=` must follow; then skips to the next semicolon. The statement
        keeps no value. */
    method ParseLetStatement() returns (s: Option<Statement>)
      requires Valid() && LetAt(lexer.tokens, pos, errors).Some?
      modifies this, lexer
      ensures Valid()
      ensures var r := LetAt(lexer.tokens, old(pos), old(errors)).value;
        s == r.value && pos == r.pos && errors == r.errors
    {
      var ok := ExpectPeek(IDENT);
      if !ok {
        return None;
      }
      var name := curToken.literal;
      ok := ExpectPeek(ASSIGN);
      if !ok {
        return None;
      }
      SkipToSemicolon();
      s := Some(LetStatement(name, None));
    }

    /** The skip loop of the let and return statements: moves forward until the current
        token is a semicolon. */
    method SkipToSemicolon()
      requires Valid() && SemicolonFrom(lexer.tokens, pos).Some?
      modifies this, lexer
      ensures Valid() && pos == old(SemicolonFrom(lexer.tokens, pos)).value && errors == old(errors)
    {
      ghost var target := SemicolonFrom(lexer.tokens, pos);
      while curToken.kind != SEMICOLON
        invariant Valid() && SemicolonFrom(lexer.tokens, pos) == target
        invariant errors == old(errors)
        decreases target.value - pos
      {
        NextToken();
      }
    }

    /** If the next token has kind `t`, moves onto it; otherwise records a peek error and
        stays put. */
    method ExpectPeek(t: TokenType) returns (ok: bool)
      requires Valid()
      modifies this, lexer
      ensures Valid()
      ensures ok <==> old(peekToken).kind == t
      ensures ok ==> pos == old(pos) + 1 && errors == old(errors)
      ensures !ok ==> pos == old(pos) && errors == old(errors) + [PeekErrorMessage(t, old(peekToken).kind)]
    {
      if peekToken.kind == t {
        NextToken();
        return true;
      } else {
        PeekError(t);
        return false;
      }
    }

    /** Records that the next token is not of kind `t`. */
    method PeekError(t: TokenType)
      modifies this
      ensures errors == old(errors) + [PeekErrorMessage(t, peekToken.kind)]
      ensures curToken == old(curToken) && peekToken == old(peekToken) && pos == old(pos)
    {
      errors := errors + [PeekErrorMessage(t, peekToken.kind)];
    }

    /** A prefix rule for the current token, then infix rules while the next token binds
        more tightly than `precedence`. */
    method ParseExpression(precedence: OperatorOrder) returns (e: Option<Expression>)
      requires Valid()
      modifies this, lexer
      decreases Rem(lexer.tokens, pos), 3
      ensures Valid()
      ensures var r := ExpressionAt(lexer.tokens, old(pos), precedence, old(errors));
        e == r.value && pos == r.pos && errors == r.errors
    {
      if !HasPrefixRule(curToken.kind) {
        NoPrefixParseFunctionError(curToken.kind);
        return None;
      }
      var leftExp := ParsePrefixRule();
      leftExp := ParseInfixLoop(precedence, leftExp);
      e := Some(leftExp);
    }

    /** The loop of parseExpression: while the next token is not a semicolon and binds more
        tightly than `precedence`, moves onto it and applies its infix rule. */
    method ParseInfixLoop(precedence: OperatorOrder, left: Expression) returns (e: Expression)
      requires Valid()
      modifies this, lexer
      decreases Rem(lexer.tokens, pos), 1
      ensures Valid()
      ensures var r := InfixLoopAt(lexer.tokens, old(pos), precedence, left, old(errors));
        e == r.value && pos == r.pos && errors == r.errors
    {
      ghost var target := InfixLoopAt(lexer.tokens, pos, precedence, left, errors);
      e := left;
      while peekToken.kind != SEMICOLON && Rank(precedence) < Rank(PeekPrecedence())
        invariant Valid() && pos >= old(pos)
        invariant InfixLoopAt(lexer.tokens, pos, precedence, e, errors) == target
        decreases Rem(lexer.tokens, pos)
      {
        if !HasInfixRule(peekToken.kind) {
          // every kind in the precedence table has an infix rule, so this exit is never taken
          assert false;
          return;
        }
        e := ParseInfixTurn(precedence, e);
      }
      InfixLoopEnd(lexer.tokens, pos, precedence, e, errors);
    }

    /** One turn of the infix loop: onto the operator in the next token, then its infix
        rule. What is left of the loop is unchanged by the turn. */
    method ParseInfixTurn(precedence: OperatorOrder, left: Expression) returns (e: Expression)
      requires Valid() && !Stops(lexer.tokens, pos, precedence)
      modifies this, lexer
      decreases Rem(lexer.tokens, pos), 0
      ensures Valid() && Rem(lexer.tokens, pos) < Rem(lexer.tokens, old(pos))
      ensures InfixLoopAt(lexer.tokens, pos, precedence, e, errors) ==
        InfixLoopAt(lexer.tokens, old(pos), precedence, left, old(errors))
    {
      InfixLoopTurn(lexer.tokens, pos, precedence, left, errors);
      assert pos + 1 < |lexer.tokens|;
      NextToken();
      e := ParseInfixExpression(left);
    }

    /** The prefix rule registered for the current token's kind. */
    method ParsePrefixRule() returns (e: Expression)
      requires Valid() && HasPrefixRule(curToken.kind)
      modifies this, lexer
      decreases Rem(lexer.tokens, pos), 2
      ensures Valid()
      ensures var r := PrefixRuleAt(lexer.tokens, old(pos), old(errors));
        e == r.value && pos == r.pos && errors == r.errors
    {
      if curToken.kind == IDENT {
        e := ParseIdentifier();
      } else if curToken.kind == INT {
        e := ParseIntegerLiteral();
      } else {
        e := ParsePrefixExpression();
      }
    }

    /** The current token's literal as an identifier. */
    method ParseIdentifier() returns (e: Expression)
      requires Valid()
      ensures curToken.kind == IDENT ==> e == PrefixRuleAt(lexer.tokens, pos, errors).value
      ensures e.Identifier? && e.name == curToken.literal
    {
      e := Identifier(curToken.literal);
    }

    /** The current token's literal converted to an integer; 0 and an error if it does not
        convert. */
    method ParseIntegerLiteral() returns (e: Expression)
      requires Valid()
      modifies this
      ensures Valid()
      ensures var r := IntegerLiteralAt(lexer.tokens, pos, old(errors));
        e == r.value && errors == r.errors
      ensures curToken == old(curToken) && peekToken == old(peekToken)
    {
      var v := ParseInt(curToken.literal);
      if v.Some? {
        e := IntegerLiteral(v.value);
      } else {
        errors := errors + [IntegerErrorMessage(curToken.literal)];
        e := IntegerLiteral(0);
      }
    }

    /** The operator, then its operand parsed at PREFIX strength. */
    method ParsePrefixExpression() returns (e: Expression)
      requires Valid() && (curToken.kind == BANG || curToken.kind == MINUS)
      modifies this, lexer
      decreases Rem(lexer.tokens, pos), 1
      ensures Valid()
      ensures var r := PrefixAt(lexer.tokens, old(pos), old(errors));
        e == r.value && pos == r.pos && errors == r.errors
    {
      var token := curToken;
      NextToken();
      var right := ParseExpression(PREFIX);
      e := PrefixExpression(token.literal, right);
    }

    /** With the operator current: its right operand parsed at the operator's own
        precedence. */
    method ParseInfixExpression(left: Expression) returns (e: Expression)
      requires Valid() && HasInfixRule(curToken.kind)
      modifies this, lexer
      decreases Rem(lexer.tokens, pos), 1
      ensures Valid()
      ensures var r := InfixAt(lexer.tokens, old(pos), left, old(errors));
        e == r.value && pos == r.pos && errors == r.errors
    {
      var token := curToken;
      var precedence := CurPrecedence();
      NextToken();
      var right := ParseExpression(precedence);
      e := InfixExpression(left, token.literal, right);
    }

    /** Records that the current token has no prefix rule. */
    method NoPrefixParseFunctionError(k: TokenType)
      modifies this
      ensures errors == old(errors) + [NoPrefixMessage(k)]
      ensures curToken == old(curToken) && peekToken == old(peekToken) && pos == old(pos)
    {
      errors := errors + [NoPrefixMessage(k)];
    }
  }
}
