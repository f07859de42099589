/** What the evaluator guarantees: errors short-circuit every composite rule, blocks and
    programs stop at the first signal, `let` binds and never unbinds, the operator tables
    behave as the interpreter's tests expect, and traps come only from missing operands or
    integer arithmetic. */
module EvaluatorProperties {
  import opened Wrappers
  import opened SwiftInt
  import opened Ast
  import opened Objects
  import opened Evaluator

  // ---------------------------------------------------------------------------------
  // Errors short-circuit: the erroneous operand's error is the result, the operator is
  // never applied and nothing after it is evaluated.
  // ---------------------------------------------------------------------------------

  lemma PrefixOperandError(op: string, right: Expression, env: Env)
    requires EvalExpression(right, env).Done? && EvalExpression(right, env).obj.ErrorObj?
    ensures EvalExpression(PrefixExpression(op, Some(right)), env) == EvalExpression(right, env)
  {
  }

  /** The left operand is checked first: its error wins, and the right operand is not
      even unwrapped, so a missing right operand does not trap. */
  lemma InfixLeftError(left: Expression, op: string, right: Option<Expression>, env: Env)
    requires EvalExpression(left, env).Done? && EvalExpression(left, env).obj.ErrorObj?
    ensures EvalExpression(InfixExpression(left, op, right), env) == EvalExpression(left, env)
  {
  }

  lemma InfixRightError(left: Expression, op: string, right: Expression, env: Env)
    requires EvalExpression(left, env).Done? && !EvalExpression(left, env).obj.ErrorObj?
    requires var env1 := EvalExpression(left, env).env;
      EvalExpression(right, env1).Done? && EvalExpression(right, env1).obj.ErrorObj?
    ensures EvalExpression(InfixExpression(left, op, Some(right)), env)
         == EvalExpression(right, EvalExpression(left, env).env)
  {
  }

  /** A non-error operand is handed to the operator, in the environment the operand
      left behind; the operator's trap is the expression's trap. */
  lemma PrefixOperandValue(op: string, right: Expression, env: Env)
    requires EvalExpression(right, env).Done? && !EvalExpression(right, env).obj.ErrorObj?
    ensures var Done(r, env1) := EvalExpression(right, env);
      EvalExpression(PrefixExpression(op, Some(right)), env) ==
        (match EvalPrefixExpression(op, r) case None => Trap case Some(v) => Done(v, env1))
  {
  }

  /** Two non-error operands, the right one evaluated in the environment the left one
      left behind, are handed to the operator. */
  lemma InfixOperandsValue(left: Expression, op: string, right: Expression, env: Env)
    requires EvalExpression(left, env).Done? && !EvalExpression(left, env).obj.ErrorObj?
    requires var env1 := EvalExpression(left, env).env;
      EvalExpression(right, env1).Done? && !EvalExpression(right, env1).obj.ErrorObj?
    ensures var Done(l, env1) := EvalExpression(left, env);
      var Done(r, env2) := EvalExpression(right, env1);
      EvalExpression(InfixExpression(left, op, Some(right)), env) ==
        (match EvalInfixExpression(op, l, r) case None => Trap case Some(v) => Done(v, env2))
  {
  }

  lemma IfConditionError(c: Expression, t: BlockStatement, f: Option<BlockStatement>, env: Env)
    requires EvalExpression(c, env).Done? && EvalExpression(c, env).obj.ErrorObj?
    ensures EvalExpression(IfExpression(c, t, f), env) == EvalExpression(c, env)
  {
  }

  /** An erroneous `let` value is returned and nothing is bound; an erroneous `return`
      value is returned unwrapped. */
  lemma LetAndReturnValueError(name: string, v: Expression, env: Env)
    requires EvalExpression(v, env).Done? && EvalExpression(v, env).obj.ErrorObj?
    ensures EvalStatement(LetStatement(name, Some(v)), env) == EvalExpression(v, env)
    ensures EvalStatement(ReturnStatement(Some(v)), env) == EvalExpression(v, env)
  {
  }

  // ---------------------------------------------------------------------------------
  // Prefix operators.
  // ---------------------------------------------------------------------------------

  /** `!!x` is the truthiness of `x` for every non-integer, and true for every integer. */
  lemma {:induction false} DoubleBang(o: Object)
    ensures EvalBangOperator(EvalBangOperator(o)) == NativeBool(o.IntegerObj? || IsTruthy(o))
  {
    var once := EvalBangOperator(o);
    assert !once.IntegerObj?;
  }

  /** `!` disagrees with `if` on zero: `!0` is false although `0` is falsy. */
  lemma BangOfZero()
    ensures EvalBangOperator(IntegerObj(0)) == FALSE && !IsTruthy(IntegerObj(0))
  {
  }

  /** Unary minus undoes itself on every integer whose negation fits. */
  lemma {:induction false} MinusInvolution(n: int)
    requires InRange(n) && n != MIN
    ensures EvalMinusPrefixOperator(IntegerObj(n)) == Some(IntegerObj(-n))
    ensures EvalMinusPrefixOperator(EvalMinusPrefixOperator(IntegerObj(n)).value) == Some(IntegerObj(n))
  {
    var once := EvalMinusPrefixOperator(IntegerObj(n));
    assert once.Some? && once.value.IntegerObj? && once.value.intValue == -n;
  }

  // ---------------------------------------------------------------------------------
  // Infix operators.
  // ---------------------------------------------------------------------------------

  /** Integer operators: exact arithmetic that traps when the result leaves 64 bits,
      division truncating toward zero and trapping on a zero divisor, and comparisons. */
  lemma IntegerOperators(a: Int64, b: Int64)
    ensures EvalInfixExpression("+", IntegerObj(a), IntegerObj(b)) ==
      (if InRange(a + b) then Some(IntegerObj(a + b)) else None)
    ensures EvalInfixExpression("-", IntegerObj(a), IntegerObj(b)) ==
      (if InRange(a - b) then Some(IntegerObj(a - b)) else None)
    ensures EvalInfixExpression("*", IntegerObj(a), IntegerObj(b)) ==
      (if InRange(a * b) then Some(IntegerObj(a * b)) else None)
    ensures b == 0 ==> EvalInfixExpression("/", IntegerObj(a), IntegerObj(b)) == None
    ensures b != 0 && InRange(TruncDiv(a, b)) ==>
      EvalInfixExpression("/", IntegerObj(a), IntegerObj(b)) == Some(IntegerObj(TruncDiv(a, b)))
    ensures b != 0 && !InRange(TruncDiv(a, b)) ==>
      EvalInfixExpression("/", IntegerObj(a), IntegerObj(b)) == None
    ensures EvalInfixExpression("<", IntegerObj(a), IntegerObj(b)) == Some(BooleanObj(a < b))
    ensures EvalInfixExpression(">", IntegerObj(a), IntegerObj(b)) == Some(BooleanObj(a > b))
    ensures EvalInfixExpression("==", IntegerObj(a), IntegerObj(b)) == Some(BooleanObj(a == b))
    ensures EvalInfixExpression("!=", IntegerObj(a), IntegerObj(b)) == Some(BooleanObj(a != b))
  {
  }

  /** The only 64-bit division that overflows is the smallest `Int` divided by -1. */
  lemma DivisionOverflow(a: Int64, b: Int64)
    requires b != 0
    ensures !InRange(TruncDiv(a, b)) <==> a == MIN && b == -1
    ensures EvalInfixExpression("/", IntegerObj(a), IntegerObj(b)) == None <==> a == MIN && b == -1
  {
    if Abs(b) >= 2 {
      DivByAtLeastTwo(Abs(a), Abs(b));
    } else if b == -1 {
      assert TruncDiv(a, b) == 0 - a as int;
    } else {
      assert TruncDiv(a, b) == a;
    }
  }

  /** Booleans compare with `==` and `!=` on their values. */
  lemma BooleanEquality(a: bool, b: bool)
    ensures EvalInfixExpression("==", BooleanObj(a), BooleanObj(b)) == Some(BooleanObj(a == b))
    ensures EvalInfixExpression("!=", BooleanObj(a), BooleanObj(b)) == Some(BooleanObj(a != b))
  {
  }

  // ---------------------------------------------------------------------------------
  // Conditionals.
  // ---------------------------------------------------------------------------------

  /** A truthy condition runs the consequence; a falsy one runs the alternative, or
      yields null when there is none. */
  lemma IfBranches(c: Expression, t: BlockStatement, f: Option<BlockStatement>, env: Env)
    requires EvalExpression(c, env).Done? && !EvalExpression(c, env).obj.ErrorObj?
    ensures var Done(cv, env1) := EvalExpression(c, env);
      EvalExpression(IfExpression(c, t, f), env) ==
        if IsTruthy(cv) then EvalBlockStatement(t, env1)
        else if f.Some? then EvalBlockStatement(f.value, env1)
        else Done(NullObj, env1)
  {
  }

  // ---------------------------------------------------------------------------------
  // Blocks and programs.
  // ---------------------------------------------------------------------------------

  lemma EmptyBlockAndProgram(env: Env)
    ensures EvalBlockStatement(BlockStatement([]), env) == Done(NullObj, env)
    ensures EvalProgram(Program([]), env) == Done(NullObj, env)
  {
  }

  /** Running `a + b` is running `a`, then, unless `a` ended on a signal or trapped,
      running `b` from where `a` left off. So nothing after a signal is evaluated, and a
      signal leaves the block still wrapped. */
  lemma {:induction false} BlockLoopAppend(a: seq<Statement>, b: seq<Statement>, env: Env, result: Object)
    requires !IsSignal(result)
    ensures BlockLoop(a + b, env, result) ==
      match BlockLoop(a, env, result)
      case Trap => Trap
      case Done(r, env1) => if IsSignal(r) then Done(r, env1) else BlockLoop(b, env1, r)
    decreases |a|
  {
    if |a| == 0 {
      assert a + b == b;
    } else {
      assert (a + b)[0] == a[0];
      assert (a + b)[1..] == a[1..] + b;
      match EvalStatement(a[0], env)
      case Trap =>
      case Done(r, env1) =>
        if !IsSignal(r) {
          BlockLoopAppend(a[1..], b, env1, r);
        }
    }
  }

  /** Unwraps a return signal, as a program does with the signal that stopped it. */
  function Unwrap(out: Outcome): Outcome
  {
    if out.Done? && out.obj.ReturnValueObj? then Done(out.obj.inner, out.env) else out
  }

  /** A program runs its statements exactly as a block does, and then unwraps the return
      signal that stopped it, if any; an error is handed back unchanged. */
  lemma {:induction false} ProgramIsUnwrappedBlock(ss: seq<Statement>, env: Env, result: Object)
    requires !IsSignal(result)
    ensures ProgramLoop(ss, env, result) == Unwrap(BlockLoop(ss, env, result))
    decreases |ss|
  {
    if |ss| > 0 {
      match EvalStatement(ss[0], env)
      case Trap =>
      case Done(r, env1) =>
        if !IsSignal(r) {
          ProgramIsUnwrappedBlock(ss[1..], env1, r);
        }
    }
  }

  /** Once a program's statements produce an error or a return, later statements are
      never evaluated: appending statements changes nothing. */
  lemma ProgramIgnoresRestAfterSignal(a: seq<Statement>, b: seq<Statement>, env: Env)
    requires BlockLoop(a, env, NullObj).Done? && IsSignal(BlockLoop(a, env, NullObj).obj)
    ensures EvalProgram(Program(a + b), env) == EvalProgram(Program(a), env)
    ensures EvalProgram(Program(a), env).Done?
    ensures BlockLoop(a, env, NullObj).obj.ReturnValueObj? ==>
      EvalProgram(Program(a), env).obj == BlockLoop(a, env, NullObj).obj.inner
    ensures BlockLoop(a, env, NullObj).obj.ErrorObj? ==>
      EvalProgram(Program(a), env).obj == BlockLoop(a, env, NullObj).obj
  {
    BlockLoopAppend(a, b, env, NullObj);
    ProgramIsUnwrappedBlock(a + b, env, NullObj);
    ProgramIsUnwrappedBlock(a, env, NullObj);
  }

  // ---------------------------------------------------------------------------------
  // The environment.
  // ---------------------------------------------------------------------------------

  /** `let` binds its value under its name, leaves every other binding alone and
      returns the value; a later lookup of the name finds it. */
  lemma LetBinds(name: string, v: Expression, env: Env)
    requires EvalExpression(v, env).Done? && !EvalExpression(v, env).obj.ErrorObj?
    ensures var Done(o, env1) := EvalExpression(v, env);
      && EvalStatement(LetStatement(name, Some(v)), env) == Done(o, env1[name := o])
      && EvalExpression(Identifier(name), env1[name := o]) == Done(o, env1[name := o])
      && (forall k :: k in env1 && k != name ==> k in env1[name := o] && env1[name := o][k] == env1[k])
  {
  }

  /** Looking up an unbound name is an error and changes nothing. */
  lemma UnboundIdentifier(name: string, env: Env)
    requires name !in env
    ensures EvalExpression(Identifier(name), env) == Done(ErrorObj("identifier not found: " + name), env)
  {
  }

  /** Bindings are created by `let` and never deleted: evaluation only adds names. */
  lemma {:induction false} ExpressionKeepsBindings(e: Expression, env: Env)
    ensures EvalExpression(e, env).Done? ==> env.Keys <= EvalExpression(e, env).env.Keys
    decreases ExpressionSize(e), 1
  {
    match e
    case PrefixExpression(_, right) =>
      if right.Some? {
        ExpressionKeepsBindings(right.value, env);
      }
    case InfixExpression(left, _, right) =>
      ExpressionKeepsBindings(left, env);
      if EvalExpression(left, env).Done? && right.Some? {
        ExpressionKeepsBindings(right.value, EvalExpression(left, env).env);
      }
    case IfExpression(_, _, _) =>
      IfKeepsBindings(e, env);
    case _ =>
  }

  lemma {:induction false} IfKeepsBindings(e: Expression, env: Env)
    requires e.IfExpression?
    ensures EvalIfExpression(e, env).Done? ==> env.Keys <= EvalIfExpression(e, env).env.Keys
    decreases ExpressionSize(e), 0
  {
    ExpressionKeepsBindings(e.condition, env);
    match EvalExpression(e.condition, env)
    case Trap =>
    case Done(_, env1) =>
      assert BlockSize(e.consequence) < ExpressionSize(e);
      assert e.alternative.Some? ==> BlockSize(e.alternative.value) < ExpressionSize(e);
      BlockLoopKeepsBindings(e.consequence.statements, env1, NullObj);
      if e.alternative.Some? {
        BlockLoopKeepsBindings(e.alternative.value.statements, env1, NullObj);
      }
  }

  lemma {:induction false} StatementKeepsBindings(s: Statement, env: Env)
    ensures EvalStatement(s, env).Done? ==> env.Keys <= EvalStatement(s, env).env.Keys
    decreases StatementSize(s), 0
  {
    match s
    case LetStatement(_, v) => if v.Some? { ExpressionKeepsBindings(v.value, env); }
    case ReturnStatement(v) => if v.Some? { ExpressionKeepsBindings(v.value, env); }
    case ExpressionStatement(v) => if v.Some? { ExpressionKeepsBindings(v.value, env); }
  }

  lemma {:induction false} BlockLoopKeepsBindings(ss: seq<Statement>, env: Env, result: Object)
    ensures BlockLoop(ss, env, result).Done? ==> env.Keys <= BlockLoop(ss, env, result).env.Keys
    decreases StatementsSize(ss), 1
  {
    if |ss| > 0 {
      StatementKeepsBindings(ss[0], env);
      match EvalStatement(ss[0], env)
      case Trap =>
      case Done(r, env1) =>
        BlockLoopKeepsBindings(ss[1..], env1, r);
    }
  }

  // ---------------------------------------------------------------------------------
  // Where traps come from.
  // ---------------------------------------------------------------------------------

  /** No operand is missing, and no operator that can trap (integer `+ - * /` and unary
      `-`) occurs. */
  predicate TrapFreeExpression(e: Expression)
  {
    match e
    case Identifier(_) => true
    case IntegerLiteral(_) => true
    case Boolean(_) => true
    case PrefixExpression(op, r) => op != "-" && r.Some? && TrapFreeExpression(r.value)
    case InfixExpression(l, op, r) =>
      !IsArithmeticOperator(op) && TrapFreeExpression(l) && r.Some? && TrapFreeExpression(r.value)
    case IfExpression(c, t, f) =>
      TrapFreeExpression(c) && TrapFreeStatements(t.statements)
      && (f.Some? ==> TrapFreeStatements(f.value.statements))
  }

  predicate TrapFreeStatements(ss: seq<Statement>)
  {
    forall i :: 0 <= i < |ss| ==> TrapFreeStatement(ss[i])
  }

  predicate TrapFreeStatement(s: Statement)
  {
    match s
    case LetStatement(_, v) => v.Some? && TrapFreeExpression(v.value)
    case ReturnStatement(v) => v.Some? && TrapFreeExpression(v.value)
    case ExpressionStatement(v) => v.Some? && TrapFreeExpression(v.value)
  }

  /** Evaluation traps only on a missing operand or on integer arithmetic. */
  lemma {:induction false} TrapFreeExpressionCompletes(e: Expression, env: Env)
    requires TrapFreeExpression(e)
    ensures EvalExpression(e, env).Done?
    decreases ExpressionSize(e), 1
  {
    match e
    case PrefixExpression(_, right) =>
      TrapFreeExpressionCompletes(right.value, env);
    case InfixExpression(left, _, right) =>
      TrapFreeExpressionCompletes(left, env);
      TrapFreeExpressionCompletes(right.value, EvalExpression(left, env).env);
    case IfExpression(_, _, _) =>
      TrapFreeIfCompletes(e, env);
    case _ =>
  }

  lemma {:induction false} TrapFreeIfCompletes(e: Expression, env: Env)
    requires e.IfExpression? && TrapFreeExpression(e)
    ensures EvalIfExpression(e, env).Done?
    decreases ExpressionSize(e), 0
  {
    TrapFreeExpressionCompletes(e.condition, env);
    var env1 := EvalExpression(e.condition, env).env;
    assert BlockSize(e.consequence) < ExpressionSize(e);
    assert e.alternative.Some? ==> BlockSize(e.alternative.value) < ExpressionSize(e);
    TrapFreeBlockLoopCompletes(e.consequence.statements, env1, NullObj);
    if e.alternative.Some? {
      TrapFreeBlockLoopCompletes(e.alternative.value.statements, env1, NullObj);
    }
  }

  lemma {:induction false} TrapFreeStatementCompletes(s: Statement, env: Env)
    requires TrapFreeStatement(s)
    ensures EvalStatement(s, env).Done?
    decreases StatementSize(s), 0
  {
    match s
    case LetStatement(_, v) => TrapFreeExpressionCompletes(v.value, env);
    case ReturnStatement(v) => TrapFreeExpressionCompletes(v.value, env);
    case ExpressionStatement(v) => TrapFreeExpressionCompletes(v.value, env);
  }

  lemma {:induction false} TrapFreeBlockLoopCompletes(ss: seq<Statement>, env: Env, result: Object)
    requires TrapFreeStatements(ss)
    ensures BlockLoop(ss, env, result).Done?
    decreases StatementsSize(ss), 1
  {
    if |ss| > 0 {
      assert TrapFreeStatement(ss[0]);
      TrapFreeStatementCompletes(ss[0], env);
      var Done(r, env1) := EvalStatement(ss[0], env);
      if !IsSignal(r) {
        assert TrapFreeStatements(ss[1..]) by {
          forall i | 0 <= i < |ss[1..]| ensures TrapFreeStatement(ss[1..][i]) {
            assert ss[1..][i] == ss[i + 1];
          }
        }
        TrapFreeBlockLoopCompletes(ss[1..], env1, r);
      }
    }
  }

  /** A statement whose value was never filled in traps when it is evaluated. */
  lemma MissingValueTraps(name: string, env: Env)
    ensures EvalStatement(LetStatement(name, None), env) == Trap
    ensures EvalStatement(ReturnStatement(None), env) == Trap
    ensures EvalStatement(ExpressionStatement(None), env) == Trap
  {
  }

  // ---------------------------------------------------------------------------------
  // The interpreter's test programs, as syntax trees.
  // ---------------------------------------------------------------------------------

  function Int(n: Int64): Expression { IntegerLiteral(n) }
  function Infix(l: Expression, op: string, r: Expression): Expression { InfixExpression(l, op, Some(r)) }
  function Stmt(e: Expression): Statement { ExpressionStatement(Some(e)) }

  /** -true; */
  lemma ExampleMinusTrue()
    ensures EvalProgram(Program([Stmt(PrefixExpression("-", Some(Boolean(true))))]), map[])
         == Done(ErrorObj("unknow operator: -BOOLEAN"), map[])
  {
  }

  /** !!5 */
  lemma ExampleDoubleBangFive()
    ensures EvalProgram(Program([Stmt(PrefixExpression("!", Some(PrefixExpression("!", Some(Int(5))))))]), map[])
         == Done(BooleanObj(true), map[])
  {
  }

  /** 5 + true; 5; */
  lemma ExampleTypeMismatchStops()
    ensures EvalProgram(Program([Stmt(Infix(Int(5), "+", Boolean(true))), Stmt(Int(5))]), map[])
         == Done(ErrorObj("type mismatch: INTEGER + BOOLEAN"), map[])
  {
    assert "type mismatch: " + "INTEGER" + " " + "+" + " " + "BOOLEAN" == "type mismatch: INTEGER + BOOLEAN";
    assert EvalInfixExpression("+", IntegerObj(5), BooleanObj(true))
        == Some(ErrorObj("type mismatch: INTEGER + BOOLEAN"));
    assert EvalStatement(Stmt(Infix(Int(5), "+", Boolean(true))), map[])
        == Done(ErrorObj("type mismatch: INTEGER + BOOLEAN"), map[]);
  }

  /** 5; true + false; 5 */
  lemma ExampleUnknownOperatorStops()
    ensures EvalProgram(Program([Stmt(Int(5)), Stmt(Infix(Boolean(true), "+", Boolean(false))), Stmt(Int(5))]), map[])
         == Done(ErrorObj("unknow operator: BOOLEAN + BOOLEAN"), map[])
  {
    assert "unknow operator: " + "BOOLEAN" + " " + "+" + " " + "BOOLEAN" == "unknow operator: BOOLEAN + BOOLEAN";
    assert EvalInfixExpression("+", BooleanObj(true), BooleanObj(false))
        == Some(ErrorObj("unknow operator: BOOLEAN + BOOLEAN"));
    assert EvalStatement(Stmt(Infix(Boolean(true), "+", Boolean(false))), map[])
        == Done(ErrorObj("unknow operator: BOOLEAN + BOOLEAN"), map[]);
  }

  /** if (false) { 10 } */
  lemma ExampleIfFalseWithoutElse()
    ensures EvalProgram(Program([Stmt(IfExpression(Boolean(false), BlockStatement([Stmt(Int(10))]), None))]), map[])
         == Done(NullObj, map[])
  {
  }

  /** if (1 > 2) { 10 } else { 20 } */
  lemma ExampleIfElse()
    ensures EvalProgram(Program([Stmt(IfExpression(Infix(Int(1), ">", Int(2)),
              BlockStatement([Stmt(Int(10))]), Some(BlockStatement([Stmt(Int(20))]))))]), map[])
         == Done(IntegerObj(20), map[])
  {
  }

  /** 9; return 2 * 5; 8; */
  lemma ExampleReturnStopsProgram()
    ensures EvalProgram(Program([Stmt(Int(9)), ReturnStatement(Some(Infix(Int(2), "*", Int(5)))), Stmt(Int(8))]), map[])
         == Done(IntegerObj(10), map[])
  {
  }

  /** if (10 > 1) { if (10 > 1) { return 10; } return 1; } */
  lemma ExampleNestedReturn()
    ensures EvalProgram(Program([Stmt(IfExpression(Infix(Int(10), ">", Int(1)), BlockStatement([
              Stmt(IfExpression(Infix(Int(10), ">", Int(1)), BlockStatement([ReturnStatement(Some(Int(10)))]), None)),
              ReturnStatement(Some(Int(1)))]), None))]), map[])
         == Done(IntegerObj(10), map[])
  {
    var ret := Done(ReturnValueObj(IntegerObj(10)), map[]);
    var cond := Infix(Int(10), ">", Int(1));
    assert EvalExpression(cond, map[]) == Done(TRUE, map[]);
    var inner := IfExpression(cond, BlockStatement([ReturnStatement(Some(Int(10)))]), None);
    assert EvalBlockStatement(BlockStatement([ReturnStatement(Some(Int(10)))]), map[]) == ret;
    assert EvalExpression(inner, map[]) == ret;
    assert BlockLoop([Stmt(inner), ReturnStatement(Some(Int(1)))], map[], NULL) == ret;
  }

  /** let a = 5; a * 2 */
  lemma ExampleLetThenUse()
    ensures EvalProgram(Program([LetStatement("a", Some(Int(5))), Stmt(Infix(Identifier("a"), "*", Int(2)))]), map[])
         == Done(IntegerObj(10), map["a" := IntegerObj(5)])
  {
  }
}
