/** What the parser's functions guarantee: which tokens stop the infix loop, how operators
    group (left to right among equals, tighter operators first, prefix operators tightest
    of all), what an integer literal parses to, when parsing a program ends, and what the
    evaluator makes of the statements the parser builds. */
module ParserProperties {
  import opened Wrappers
  import opened SwiftInt
  import opened Tokens
  import opened Ast
  import opened Objects
  import opened ParserSpec
  import opened Evaluator
  import EvaluatorProperties

  // ---------------------------------------------------------------------------------
  // The precedence table.
  // ---------------------------------------------------------------------------------

  /** Exactly the kinds with an infix rule rank above LOWEST, the strengths are ordered
      EQUALS < LESSGREATER < SUM < PRODUCT < PREFIX, and no binary operator binds as
      tightly as a prefix operator. */
  lemma PrecedenceTable(k: TokenType)
    ensures HasInfixRule(k) <==> Rank(PrecedenceOf(k)) > Rank(LOWEST)
    ensures Rank(PrecedenceOf(k)) < Rank(PREFIX)
    ensures Rank(LOWEST) < Rank(EQUALS) < Rank(LESSGREATER) < Rank(SUM) < Rank(PRODUCT) < Rank(PREFIX)
  {
  }

  /** A kind missing from the table (the end marker, a semicolon, a closing parenthesis)
      stops every infix loop, which then hands back its left expression untouched. */
  lemma UnlistedKindStops(toks: seq<Token>, pos: nat, prec: OperatorOrder, left: Expression, errs: seq<string>)
    requires At(toks, pos + 1).kind !in Precedences
    ensures Stops(toks, pos, prec)
    ensures InfixLoopAt(toks, pos, prec, left, errs) == Parsed(left, pos, errs)
  {
    PrecedenceIsTableLookup(At(toks, pos + 1).kind);
    InfixLoopEnd(toks, pos, prec, left, errs);
  }

  /** An expression parsed at PREFIX strength is never extended by an infix operator:
      the operand of `!` or `-` is exactly what the next token's prefix rule builds. */
  lemma PrefixOperandIsPrefixRule(toks: seq<Token>, pos: nat, errs: seq<string>)
    requires At(toks, pos).kind == BANG || At(toks, pos).kind == MINUS
    requires HasPrefixRule(At(toks, pos + 1).kind)
    ensures var operand := PrefixRuleAt(toks, pos + 1, errs);
      PrefixAt(toks, pos, errs) ==
        Parsed(PrefixExpression(At(toks, pos).literal, Some(operand.value)), operand.pos, operand.errors)
  {
    var operand := PrefixRuleAt(toks, pos + 1, errs);
    PrecedenceTable(At(toks, operand.pos + 1).kind);
    InfixLoopEnd(toks, operand.pos, PREFIX, operand.value, operand.errors);
  }

  // ---------------------------------------------------------------------------------
  // Operands and operator chains.
  // ---------------------------------------------------------------------------------

  /** A token that parses to a leaf on its own, without an error. */
  predicate IsAtom(t: Token)
  {
    t.kind == IDENT || (t.kind == INT && ParseInt(t.literal).Some?)
  }

  /** The leaf an atom parses to. */
  function AtomExpr(t: Token): Expression
    requires IsAtom(t)
  {
    if t.kind == IDENT then Identifier(t.literal) else IntegerLiteral(ParseInt(t.literal).value)
  }

  /** An atom the next token stops is parsed as that leaf alone, with no error. */
  lemma AtomAlone(toks: seq<Token>, pos: nat, prec: OperatorOrder, errs: seq<string>)
    requires IsAtom(At(toks, pos)) && Stops(toks, pos, prec)
    ensures ExpressionAt(toks, pos, prec, errs) == Parsed(Some(AtomExpr(At(toks, pos))), pos, errs)
  {
    InfixLoopEnd(toks, pos, prec, AtomExpr(At(toks, pos)), errs);
  }

  /** One binary operator and the atom to its right. */
  datatype Link = Link(op: Token, operand: Token)

  /** `links` is spelled out from index `pos + 1` on: operator, operand, operator, ... */
  predicate ChainAt(toks: seq<Token>, pos: nat, links: seq<Link>)
    decreases |links|
  {
    |links| == 0 ||
    (At(toks, pos + 1) == links[0].op && At(toks, pos + 2) == links[0].operand &&
     ChainAt(toks, pos + 2, links[1..]))
  }

  /** Every operator has an infix rule and binds more tightly than `prec`, every operand is
      an atom, and the operators never get stronger from left to right. */
  predicate FlatChain(links: seq<Link>, prec: OperatorOrder)
    decreases |links|
  {
    |links| == 0 ||
    (HasInfixRule(links[0].op.kind) && IsAtom(links[0].operand) &&
     Rank(PrecedenceOf(links[0].op.kind)) > Rank(prec) &&
     (|links| > 1 ==> Rank(PrecedenceOf(links[1].op.kind)) <= Rank(PrecedenceOf(links[0].op.kind))) &&
     FlatChain(links[1..], prec))
  }

  /** The left-nested tree `(((left op1 a1) op2 a2) ...)`. */
  function FoldLeft(left: Expression, links: seq<Link>, prec: OperatorOrder): Expression
    requires FlatChain(links, prec)
    decreases |links|
  {
    if |links| == 0 then left
    else FoldLeft(InfixExpression(left, links[0].op.literal, Some(AtomExpr(links[0].operand))), links[1..], prec)
  }

  /** `link` is spelled out after `pos`, its operator binds more tightly than `prec`, and
      the token after its atom stops the expression on the operator's right. */
  predicate LinkFits(toks: seq<Token>, pos: nat, prec: OperatorOrder, link: Link)
  {
    At(toks, pos + 1) == link.op && At(toks, pos + 2) == link.operand &&
    HasInfixRule(link.op.kind) && IsAtom(link.operand) &&
    Rank(PrecedenceOf(link.op.kind)) > Rank(prec) &&
    Stops(toks, pos + 2, PrecedenceOf(link.op.kind))
  }

  /** A flat chain is spelled out after `pos` and the token after it stops the loop. */
  predicate ChainFits(toks: seq<Token>, pos: nat, prec: OperatorOrder, links: seq<Link>)
  {
    ChainAt(toks, pos, links) && FlatChain(links, prec) && Stops(toks, pos + 2 * |links|, prec)
  }

  /** One turn of the infix loop over an operator and an atom that the token after it
      stops: the pair is folded into `left`. */
  lemma OneLink(toks: seq<Token>, pos: nat, prec: OperatorOrder, left: Expression, errs: seq<string>, link: Link)
    requires LinkFits(toks, pos, prec, link)
    ensures InfixLoopAt(toks, pos, prec, left, errs) ==
      InfixLoopAt(toks, pos + 2, prec, InfixExpression(left, link.op.literal, Some(AtomExpr(link.operand))), errs)
  {
    AtomAlone(toks, pos + 2, PrecedenceOf(link.op.kind), errs);
    InfixLoopTurn(toks, pos, prec, left, errs);
  }

  /** A flat chain minus its first link is a flat chain two tokens further on, and the
      first operator's atom is stopped by what follows it: the next operator, no stronger,
      or the terminator, weaker than every operator of the chain. */
  lemma ChainTail(toks: seq<Token>, pos: nat, prec: OperatorOrder, links: seq<Link>)
    requires |links| > 0 && ChainFits(toks, pos, prec, links)
    ensures LinkFits(toks, pos, prec, links[0]) && ChainFits(toks, pos + 2, prec, links[1..])
  {
    assert ChainAt(toks, pos + 2, links[1..]);
    if |links| > 1 {
      assert At(toks, pos + 3) == links[1].op;
    }
  }

  /** Operators of equal or falling strength group to the left: the infix loop folds
      each operator and its atom into the tree built so far, and stops after the last. */
  lemma {:induction false} FlatChainGroupsLeft(toks: seq<Token>, pos: nat, prec: OperatorOrder, left: Expression,
                                               errs: seq<string>, links: seq<Link>)
    requires ChainFits(toks, pos, prec, links)
    ensures InfixLoopAt(toks, pos, prec, left, errs) == Parsed(FoldLeft(left, links, prec), pos + 2 * |links|, errs)
    decreases |links|
  {
    if |links| == 0 {
      InfixLoopEnd(toks, pos, prec, left, errs);
    } else {
      var link := links[0];
      ChainTail(toks, pos, prec, links);
      OneLink(toks, pos, prec, left, errs, link);
      var next := InfixExpression(left, link.op.literal, Some(AtomExpr(link.operand)));
      FlatChainGroupsLeft(toks, pos + 2, prec, next, errs, links[1..]);
    }
  }

  /** An expression that starts with an atom is the infix loop run from that atom. */
  lemma ExpressionFromAtom(toks: seq<Token>, pos: nat, prec: OperatorOrder, errs: seq<string>)
    requires IsAtom(At(toks, pos))
    ensures var r := InfixLoopAt(toks, pos, prec, AtomExpr(At(toks, pos)), errs);
      ExpressionAt(toks, pos, prec, errs) == Parsed(Some(r.value), r.pos, r.errors)
  {
    assert PrefixRuleAt(toks, pos, errs) == Parsed(AtomExpr(At(toks, pos)), pos, errs);
  }

  /** An expression that starts with `!` or `-` and an atom is the infix loop run from
      the prefix expression over that atom. */
  lemma ExpressionFromPrefix(toks: seq<Token>, pos: nat, prec: OperatorOrder, errs: seq<string>)
    requires At(toks, pos).kind == BANG || At(toks, pos).kind == MINUS
    requires IsAtom(At(toks, pos + 1))
    ensures var negated := PrefixExpression(At(toks, pos).literal, Some(AtomExpr(At(toks, pos + 1))));
      var r := InfixLoopAt(toks, pos + 1, prec, negated, errs);
      ExpressionAt(toks, pos, prec, errs) == Parsed(Some(r.value), r.pos, r.errors)
  {
    var negated := PrefixExpression(At(toks, pos).literal, Some(AtomExpr(At(toks, pos + 1))));
    PrefixOperandIsPrefixRule(toks, pos, errs);
    assert PrefixRuleAt(toks, pos + 1, errs) == Parsed(AtomExpr(At(toks, pos + 1)), pos + 1, errs);
    assert PrefixRuleAt(toks, pos, errs) == Parsed(negated, pos + 1, errs);
  }

  /** An atom followed by a flat chain parses to the left-nested tree, with no error. */
  lemma AtomChainGroupsLeft(toks: seq<Token>, pos: nat, prec: OperatorOrder, errs: seq<string>, links: seq<Link>)
    requires IsAtom(At(toks, pos)) && ChainFits(toks, pos, prec, links)
    ensures ExpressionAt(toks, pos, prec, errs) ==
      Parsed(Some(FoldLeft(AtomExpr(At(toks, pos)), links, prec)), pos + 2 * |links|, errs)
  {
    ExpressionFromAtom(toks, pos, prec, errs);
    FlatChainGroupsLeft(toks, pos, prec, AtomExpr(At(toks, pos)), errs, links);
  }

  /** `-a * b` is `(-a) * b`: a prefix operator takes only the atom after it, and the
      chain that follows applies to the prefix expression as a whole. */
  lemma PrefixChainGroupsLeft(toks: seq<Token>, pos: nat, prec: OperatorOrder, errs: seq<string>, links: seq<Link>)
    requires At(toks, pos).kind == BANG || At(toks, pos).kind == MINUS
    requires IsAtom(At(toks, pos + 1)) && ChainFits(toks, pos + 1, prec, links)
    ensures ExpressionAt(toks, pos, prec, errs) ==
      Parsed(Some(FoldLeft(PrefixExpression(At(toks, pos).literal, Some(AtomExpr(At(toks, pos + 1)))), links, prec)),
             pos + 1 + 2 * |links|, errs)
  {
    ExpressionFromPrefix(toks, pos, prec, errs);
    FlatChainGroupsLeft(toks, pos + 1, prec, PrefixExpression(At(toks, pos).literal, Some(AtomExpr(At(toks, pos + 1)))), errs, links);
  }

  /** The right operand of the looser operator, parsed at that operator's strength, takes
      in the tighter operator and the atom after it. */
  lemma TighterRightOperand(toks: seq<Token>, pos: nat, errs: seq<string>)
    requires IsAtom(At(toks, pos + 2)) && IsAtom(At(toks, pos + 4))
    requires HasInfixRule(At(toks, pos + 1).kind) && HasInfixRule(At(toks, pos + 3).kind)
    requires Rank(PrecedenceOf(At(toks, pos + 1).kind)) < Rank(PrecedenceOf(At(toks, pos + 3).kind))
    requires Stops(toks, pos + 4, PrecedenceOf(At(toks, pos + 1).kind))
    ensures
      var b, c := AtomExpr(At(toks, pos + 2)), AtomExpr(At(toks, pos + 4));
      ExpressionAt(toks, pos + 2, PrecedenceOf(At(toks, pos + 1).kind), errs) ==
        Parsed(Some(InfixExpression(b, At(toks, pos + 3).literal, Some(c))), pos + 4, errs)
  {
    var b, c := AtomExpr(At(toks, pos + 2)), AtomExpr(At(toks, pos + 4));
    var prec := PrecedenceOf(At(toks, pos + 1).kind);
    ExpressionFromAtom(toks, pos + 2, prec, errs);
    OneLink(toks, pos + 2, prec, b, errs, Link(At(toks, pos + 3), At(toks, pos + 4)));
    InfixLoopEnd(toks, pos + 4, prec, InfixExpression(b, At(toks, pos + 3).literal, Some(c)), errs);
  }

  /** `a op1 b op2 c` where op2 binds more tightly than op1: op2 takes `b` first. */
  lemma TighterOperatorFirst(toks: seq<Token>, pos: nat, prec: OperatorOrder, errs: seq<string>)
    requires IsAtom(At(toks, pos)) && IsAtom(At(toks, pos + 2)) && IsAtom(At(toks, pos + 4))
    requires HasInfixRule(At(toks, pos + 1).kind) && HasInfixRule(At(toks, pos + 3).kind)
    requires Rank(prec) < Rank(PrecedenceOf(At(toks, pos + 1).kind)) < Rank(PrecedenceOf(At(toks, pos + 3).kind))
    requires Stops(toks, pos + 4, prec)
    ensures
      var a, b, c := AtomExpr(At(toks, pos)), AtomExpr(At(toks, pos + 2)), AtomExpr(At(toks, pos + 4));
      var op1, op2 := At(toks, pos + 1), At(toks, pos + 3);
      ExpressionAt(toks, pos, prec, errs) ==
        Parsed(Some(InfixExpression(a, op1.literal, Some(InfixExpression(b, op2.literal, Some(c))))), pos + 4, errs)
  {
    var a, b, c := AtomExpr(At(toks, pos)), AtomExpr(At(toks, pos + 2)), AtomExpr(At(toks, pos + 4));
    var op1, op2 := At(toks, pos + 1), At(toks, pos + 3);
    var right := InfixExpression(b, op2.literal, Some(c));
    TighterRightOperand(toks, pos, errs);
    assert InfixAt(toks, pos + 1, a, errs) == Parsed(InfixExpression(a, op1.literal, Some(right)), pos + 4, errs);
    // and the loop at `prec` folds op1 and then stops
    ExpressionFromAtom(toks, pos, prec, errs);
    InfixLoopTurn(toks, pos, prec, a, errs);
    InfixLoopEnd(toks, pos + 4, prec, InfixExpression(a, op1.literal, Some(right)), errs);
  }

  /** `a op1 b op2 c` where op2 binds no more tightly than op1: the two group to the left. */
  lemma EqualOrWeakerGroupsLeft(toks: seq<Token>, pos: nat, prec: OperatorOrder, errs: seq<string>)
    requires IsAtom(At(toks, pos)) && IsAtom(At(toks, pos + 2)) && IsAtom(At(toks, pos + 4))
    requires HasInfixRule(At(toks, pos + 1).kind) && HasInfixRule(At(toks, pos + 3).kind)
    requires Rank(prec) < Rank(PrecedenceOf(At(toks, pos + 3).kind)) <= Rank(PrecedenceOf(At(toks, pos + 1).kind))
    requires Stops(toks, pos + 4, prec)
    ensures
      var a, b, c := AtomExpr(At(toks, pos)), AtomExpr(At(toks, pos + 2)), AtomExpr(At(toks, pos + 4));
      var op1, op2 := At(toks, pos + 1), At(toks, pos + 3);
      ExpressionAt(toks, pos, prec, errs) ==
        Parsed(Some(InfixExpression(InfixExpression(a, op1.literal, Some(b)), op2.literal, Some(c))), pos + 4, errs)
  {
    var a, b := AtomExpr(At(toks, pos)), AtomExpr(At(toks, pos + 2));
    var op1, op2 := At(toks, pos + 1), At(toks, pos + 3);
    var ab := InfixExpression(a, op1.literal, Some(b));
    ExpressionFromAtom(toks, pos, prec, errs);
    OneLink(toks, pos, prec, a, errs, Link(op1, At(toks, pos + 2)));
    OneLink(toks, pos + 2, prec, ab, errs, Link(op2, At(toks, pos + 4)));
    InfixLoopEnd(toks, pos + 4, prec, InfixExpression(ab, op2.literal, Some(AtomExpr(At(toks, pos + 4)))), errs);
  }

  /** `a op1 b op2 c`: when op2 binds more tightly than op1 it takes `b` first,
      `a op1 (b op2 c)`; otherwise the two group to the left, `(a op1 b) op2 c`. */
  lemma TwoOperators(toks: seq<Token>, pos: nat, prec: OperatorOrder, errs: seq<string>)
    requires IsAtom(At(toks, pos)) && IsAtom(At(toks, pos + 2)) && IsAtom(At(toks, pos + 4))
    requires HasInfixRule(At(toks, pos + 1).kind) && HasInfixRule(At(toks, pos + 3).kind)
    requires Rank(PrecedenceOf(At(toks, pos + 1).kind)) > Rank(prec)
    requires Rank(PrecedenceOf(At(toks, pos + 3).kind)) > Rank(prec)
    requires Stops(toks, pos + 4, prec)
    ensures
      var a, b, c := AtomExpr(At(toks, pos)), AtomExpr(At(toks, pos + 2)), AtomExpr(At(toks, pos + 4));
      var op1, op2 := At(toks, pos + 1), At(toks, pos + 3);
      ExpressionAt(toks, pos, prec, errs) ==
        Parsed(Some(
          if Rank(PrecedenceOf(op2.kind)) > Rank(PrecedenceOf(op1.kind))
          then InfixExpression(a, op1.literal, Some(InfixExpression(b, op2.literal, Some(c))))
          else InfixExpression(InfixExpression(a, op1.literal, Some(b)), op2.literal, Some(c))),
          pos + 4, errs)
  {
    if Rank(PrecedenceOf(At(toks, pos + 3).kind)) > Rank(PrecedenceOf(At(toks, pos + 1).kind)) {
      TighterOperatorFirst(toks, pos, prec, errs);
    } else {
      EqualOrWeakerGroupsLeft(toks, pos, prec, errs);
    }
  }

  // ---------------------------------------------------------------------------------
  // Integer literals.
  // ---------------------------------------------------------------------------------

  /** The decimal spelling of a value in range parses to that value, with no error. */
  lemma DecimalLiteral(toks: seq<Token>, pos: nat, errs: seq<string>, n: nat)
    requires n <= MAX && At(toks, pos) == Token(INT, Decimal(n))
    ensures PrefixRuleAt(toks, pos, errs) == Parsed(IntegerLiteral(n), pos, errs)
  {
    ParseIntOfDecimal(n);
  }

  // ---------------------------------------------------------------------------------
  // When parsing a program ends.
  // ---------------------------------------------------------------------------------

  /** Every let and every return from `pos` on has a semicolon somewhere after it. */
  predicate SemicolonAfterEachSkip(toks: seq<Token>, pos: nat)
  {
    forall i :: pos <= i < |toks| && (toks[i].kind == LET || toks[i].kind == RETURN) ==>
      SemicolonFrom(toks, i + 1).Some?
  }

  /** A statement that starts at a token with a semicolon after it, when it is a let or a
      return, ends. */
  lemma StatementEnds(toks: seq<Token>, pos: nat, errs: seq<string>)
    requires SemicolonAfterEachSkip(toks, pos) && At(toks, pos).kind != EOF
    ensures StatementAt(toks, pos, errs).Some?
  {
    assert pos < |toks|;
    if toks[pos].kind == LET && At(toks, pos + 1).kind == IDENT {
      assert SemicolonFrom(toks, pos + 2) == SemicolonFrom(toks, pos + 1);
    }
  }

  /** When no let or return lacks a later semicolon, parsing the program ends. */
  lemma {:induction false} ProgramEnds(toks: seq<Token>, pos: nat, done: seq<Statement>, errs: seq<string>)
    requires SemicolonAfterEachSkip(toks, pos)
    ensures ProgramFrom(toks, pos, done, errs).Some?
    decreases Rem(toks, pos)
  {
    if At(toks, pos).kind != EOF {
      StatementEnds(toks, pos, errs);
      var s := StatementAt(toks, pos, errs).value;
      var kept := if s.value.Some? then done + [s.value.value] else done;
      ProgramEnds(toks, s.pos + 1, kept, s.errors);
      ProgramStep(toks, pos, done, errs, s, kept);
    }
  }

  /** In particular, parsing ends on every stream whose last token is a semicolon. */
  lemma ProgramEndsAtFinalSemicolon(toks: seq<Token>, pos: nat, done: seq<Statement>, errs: seq<string>)
    requires |toks| > 0 && toks[|toks| - 1].kind == SEMICOLON
    ensures ProgramFrom(toks, pos, done, errs).Some?
  {
    forall i | pos <= i < |toks| && (toks[i].kind == LET || toks[i].kind == RETURN)
      ensures SemicolonFrom(toks, i + 1).Some?
    {
      assert i + 1 <= |toks| - 1;
    }
    ProgramEnds(toks, pos, done, errs);
  }

  /** And a return with no semicolon anywhere after it makes parseProgram loop forever. */
  lemma ReturnWithoutSemicolonHangs(toks: seq<Token>, pos: nat, done: seq<Statement>, errs: seq<string>)
    requires At(toks, pos).kind == RETURN
    requires forall j :: pos < j < |toks| ==> toks[j].kind != SEMICOLON
    ensures ProgramFrom(toks, pos, done, errs).None?
  {
    assert SemicolonFrom(toks, pos + 1).None?;
  }

  // ---------------------------------------------------------------------------------
  // What the evaluator makes of parsed statements.
  // ---------------------------------------------------------------------------------

  /** The parser builds let and return statements without a value, so evaluating one of
      them traps on the missing value. */
  lemma ParsedLetAndReturnTrap(toks: seq<Token>, pos: nat, errs: seq<string>, env: Env)
    requires StatementAt(toks, pos, errs).Some? && StatementAt(toks, pos, errs).value.value.Some?
    requires !StatementAt(toks, pos, errs).value.value.value.ExpressionStatement?
    ensures EvalStatement(StatementAt(toks, pos, errs).value.value.value, env) == Trap
  {
  }

  /** The parser registers no prefix rule for parentheses, booleans or `if`: a statement
      that starts with one of them holds no expression, and evaluating it traps. */
  lemma UnregisteredPrefixTraps(toks: seq<Token>, pos: nat, errs: seq<string>, env: Env)
    requires !HasPrefixRule(At(toks, pos).kind)
    ensures ExpressionStatementAt(toks, pos, errs) ==
      Parsed(ExpressionStatement(None), if At(toks, pos + 1).kind == SEMICOLON then pos + 1 else pos,
             errs + [NoPrefixMessage(At(toks, pos).kind)])
    ensures EvalStatement(ExpressionStatementAt(toks, pos, errs).value, env) == Trap
  {
  }

  /** A prefix operator in front of such a token gets no operand, and evaluating it
      traps. */
  lemma UnregisteredOperandTraps(toks: seq<Token>, pos: nat, errs: seq<string>, env: Env)
    requires At(toks, pos).kind == BANG || At(toks, pos).kind == MINUS
    requires !HasPrefixRule(At(toks, pos + 1).kind)
    ensures PrefixAt(toks, pos, errs).value == PrefixExpression(At(toks, pos).literal, None)
    ensures EvalExpression(PrefixAt(toks, pos, errs).value, env) == Trap
  {
  }

  /** `true == true` parses to a program of three empty statements, one per token, and
      evaluating it traps on the first, where the interpreter's tests expect true. */
  lemma {:induction false} ExampleTrueEqualsTrueTraps(toks: seq<Token>, env: Env)
    requires toks == [Token(TRUE, "true"), Token(EQUAL, "=="), Token(TRUE, "true")]
    ensures ProgramFrom(toks, 0, [], []).Some?
    ensures var p := ProgramFrom(toks, 0, [], []).value;
      |p.value| == 3 && p.value[0] == ExpressionStatement(None) &&
      EvalProgram(Program(p.value), env) == Trap
  {
    var empty := ExpressionStatement(None);
    var e0 := [NoPrefixMessage(TRUE)];
    var e1 := e0 + [NoPrefixMessage(EQUAL)];
    var e2 := e1 + [NoPrefixMessage(TRUE)];
    EmptyStatement(toks, 0, [], empty, e0);
    EmptyStatement(toks, 1, e0, empty, e1);
    EmptyStatement(toks, 2, e1, empty, e2);
    ProgramEnd(toks, 3, [empty, empty, empty], e2);
    ProgramStep(toks, 2, [empty, empty], e1, Parsed(Some(empty), 2, e2), [empty, empty, empty]);
    ProgramStep(toks, 1, [empty], e0, Parsed(Some(empty), 1, e1), [empty, empty]);
    ProgramStep(toks, 0, [], [], Parsed(Some(empty), 0, e0), [empty]);
    assert ProgramFrom(toks, 0, [], []) == Some(Parsed([empty, empty, empty], 3, e2));
    assert EvalStatement(empty, env) == Trap;
  }

  /** A statement at a token with no prefix rule, not followed by a semicolon. */
  lemma EmptyStatement(toks: seq<Token>, pos: nat, errs: seq<string>, empty: Statement, after: seq<string>)
    requires !HasPrefixRule(At(toks, pos).kind) && At(toks, pos).kind != LET && At(toks, pos).kind != RETURN
    requires At(toks, pos + 1).kind != SEMICOLON
    requires empty == ExpressionStatement(None) && after == errs + [NoPrefixMessage(At(toks, pos).kind)]
    ensures StatementAt(toks, pos, errs) == Some(Parsed(Some(empty), pos, after))
  {
    UnregisteredPrefixTraps(toks, pos, errs, map[]);
  }

  // ---------------------------------------------------------------------------------
  // The interpreter's integer test programs.
  // ---------------------------------------------------------------------------------

  function IntToken(s: string): Token { Token(INT, s) }

  /** The test programs' literals are atoms with the values they spell. */
  lemma ExampleLiterals()
    ensures IsAtom(IntToken("2")) && AtomExpr(IntToken("2")) == IntegerLiteral(2)
    ensures IsAtom(IntToken("5")) && AtomExpr(IntToken("5")) == IntegerLiteral(5)
    ensures IsAtom(IntToken("10")) && AtomExpr(IntToken("10")) == IntegerLiteral(10)
    ensures IsAtom(IntToken("50")) && AtomExpr(IntToken("50")) == IntegerLiteral(50)
  {
    assert DigitsValue("1") == 1 && DigitsValue("5") == 5;
  }

  /** An infix node over two operands that evaluate to integers, without touching the
      environment, evaluates to the operator applied to those integers. */
  lemma EvalIntegerInfix(l: Expression, op: string, r: Expression, env: Env, a: Int64, b: Int64)
    requires EvalExpression(l, env) == Done(IntegerObj(a), env)
    requires EvalExpression(r, env) == Done(IntegerObj(b), env)
    ensures EvalExpression(InfixExpression(l, op, Some(r)), env) ==
      Completed(EvalInfixExpression(op, IntegerObj(a), IntegerObj(b)), env)
  {
  }

  /** The tokens of `50 / 2 * 2 + 10`. */
  function DivideMultiplyAddTokens(): seq<Token>
  {
    [IntToken("50"), Token(SLASH, "/"), IntToken("2"), Token(ASTERISK, "*"),
     IntToken("2"), Token(PLUS, "+"), IntToken("10")]
  }

  /** `50 / 2 * 2 + 10` after its first literal. */
  function DivideMultiplyAddLinks(): seq<Link>
  {
    [Link(Token(SLASH, "/"), IntToken("2")), Link(Token(ASTERISK, "*"), IntToken("2")),
     Link(Token(PLUS, "+"), IntToken("10"))]
  }

  /** The tokens of `50 / 2 * 2 + 10` are an atom and a flat chain, ended by the end of the
      stream, and the chain folds to `((50 / 2) * 2) + 10`. */
  lemma DivideMultiplyAddIsFlat(toks: seq<Token>)
    requires toks == DivideMultiplyAddTokens()
    ensures IsAtom(At(toks, 0)) && AtomExpr(At(toks, 0)) == IntegerLiteral(50)
    ensures ChainFits(toks, 0, LOWEST, DivideMultiplyAddLinks())
    ensures FoldLeft(IntegerLiteral(50), DivideMultiplyAddLinks(), LOWEST) == DivideMultiplyAdd()
  {
    ExampleLiterals();
    var links := DivideMultiplyAddLinks();
    assert ChainAt(toks, 0, links) by {
      assert ChainAt(toks, 6, links[3..]);
      assert ChainAt(toks, 4, links[2..]);
      assert ChainAt(toks, 2, links[1..]);
    }
    DivideMultiplyAddFolds();
  }

  /** Every operator of `50 / 2 * 2 + 10` has an infix rule, binds more tightly than
      LOWEST and no more tightly than the one before it. */
  lemma DivideMultiplyAddFlat()
    ensures FlatChain(DivideMultiplyAddLinks(), LOWEST)
  {
    ExampleLiterals();
    var links := DivideMultiplyAddLinks();
    assert FlatChain(links[3..], LOWEST);
    assert FlatChain(links[2..], LOWEST);
    assert FlatChain(links[1..], LOWEST);
  }

  /** The chain of `50 / 2 * 2 + 10` folds to `((50 / 2) * 2) + 10`. */
  lemma DivideMultiplyAddFolds()
    ensures FlatChain(DivideMultiplyAddLinks(), LOWEST)
    ensures FoldLeft(IntegerLiteral(50), DivideMultiplyAddLinks(), LOWEST) == DivideMultiplyAdd()
  {
    ExampleLiterals();
    DivideMultiplyAddFlat();
    var links := DivideMultiplyAddLinks();
    var e1 := InfixExpression(IntegerLiteral(50), "/", Some(IntegerLiteral(2)));
    var e2 := InfixExpression(e1, "*", Some(IntegerLiteral(2)));
    var e3 := InfixExpression(e2, "+", Some(IntegerLiteral(10)));
    assert FoldLeft(IntegerLiteral(50), links, LOWEST) == FoldLeft(e1, links[1..], LOWEST);
    assert FoldLeft(e1, links[1..], LOWEST) == FoldLeft(e2, links[2..], LOWEST);
    assert FoldLeft(e2, links[2..], LOWEST) == FoldLeft(e3, links[3..], LOWEST);
  }

  /** `50 / 2 * 2 + 10` parses as `((50 / 2) * 2) + 10`. */
  lemma ExampleDivideMultiplyAddParses(toks: seq<Token>)
    requires toks == DivideMultiplyAddTokens()
    ensures ExpressionAt(toks, 0, LOWEST, []) == Parsed(Some(DivideMultiplyAdd()), 6, [])
  {
    DivideMultiplyAddIsFlat(toks);
    AtomChainGroupsLeft(toks, 0, LOWEST, [], DivideMultiplyAddLinks());
  }

  function DivideMultiplyAdd(): Expression
  {
    InfixExpression(InfixExpression(InfixExpression(IntegerLiteral(50), "/", Some(IntegerLiteral(2))),
                                    "*", Some(IntegerLiteral(2))),
                    "+", Some(IntegerLiteral(10)))
  }

  /** `((50 / 2) * 2) + 10` evaluates to 60, as the interpreter's tests expect. */
  lemma ExampleDivideMultiplyAddValue()
    ensures EvalExpression(DivideMultiplyAdd(), map[]) == Done(IntegerObj(60), map[])
  {
    var e1 := InfixExpression(IntegerLiteral(50), "/", Some(IntegerLiteral(2)));
    var e2 := InfixExpression(e1, "*", Some(IntegerLiteral(2)));
    EvaluatorProperties.IntegerOperators(50, 2);
    assert TruncDiv(50, 2) == 25;
    EvalIntegerInfix(IntegerLiteral(50), "/", IntegerLiteral(2), map[], 50, 2);
    EvaluatorProperties.IntegerOperators(25, 2);
    EvalIntegerInfix(e1, "*", IntegerLiteral(2), map[], 25, 2);
    EvaluatorProperties.IntegerOperators(50, 10);
    EvalIntegerInfix(e2, "+", IntegerLiteral(10), map[], 50, 10);
  }

  function AddMultiply(): Expression
  {
    InfixExpression(IntegerLiteral(5), "+", Some(InfixExpression(IntegerLiteral(2), "*", Some(IntegerLiteral(10)))))
  }

  /** `5 + 2 * 10` parses as `5 + (2 * 10)`. */
  lemma ExampleAddMultiplyParses(toks: seq<Token>)
    requires toks == [IntToken("5"), Token(PLUS, "+"), IntToken("2"), Token(ASTERISK, "*"), IntToken("10")]
    ensures ExpressionAt(toks, 0, LOWEST, []) == Parsed(Some(AddMultiply()), 4, [])
  {
    ExampleLiterals();
    TwoOperators(toks, 0, LOWEST, []);
  }

  /** `5 + (2 * 10)` evaluates to 25, as the interpreter's tests expect. */
  lemma ExampleAddMultiplyValue()
    ensures EvalExpression(AddMultiply(), map[]) == Done(IntegerObj(25), map[])
  {
    var product := InfixExpression(IntegerLiteral(2), "*", Some(IntegerLiteral(10)));
    EvaluatorProperties.IntegerOperators(2, 10);
    EvalIntegerInfix(IntegerLiteral(2), "*", IntegerLiteral(10), map[], 2, 10);
    EvaluatorProperties.IntegerOperators(5, 20);
    EvalIntegerInfix(IntegerLiteral(5), "+", product, map[], 5, 20);
  }

  /** `-a * b` is `(-a) * b`. */
  lemma ExampleNegateMultiply(toks: seq<Token>)
    requires toks == [Token(MINUS, "-"), Token(IDENT, "a"), Token(ASTERISK, "*"), Token(IDENT, "b")]
    ensures ExpressionAt(toks, 0, LOWEST, []) ==
      Parsed(Some(InfixExpression(PrefixExpression("-", Some(Identifier("a"))), "*", Some(Identifier("b")))), 3, [])
  {
    var links := [Link(toks[2], toks[3])];
    assert ChainAt(toks, 1, links) by {
      assert ChainAt(toks, 3, links[1..]);
    }
    PrefixChainGroupsLeft(toks, 0, LOWEST, [], links);
    assert links[1..] == [];
  }
}
