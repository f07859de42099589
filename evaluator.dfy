/** The tree-walking evaluator. Each function mirrors one function of the interpreter.
    The environment the interpreter mutates through `env.set` is threaded through the
    calls as a map, and Swift's runtime traps (force-unwrapping a missing sub-expression,
    integer overflow, division by zero) end evaluation with `Trap`. */
module Evaluator {
  import opened Wrappers
  import opened SwiftInt
  import opened Ast
  import opened Objects

  /** The binding environment: identifier name to value. */
  type Env = map<string, Object>

  /** The result of evaluating a node: a value and the environment after it, or a trap
      (the interpreter process stops). */
  datatype Outcome = Done(obj: Object, env: Env) | Trap

  const TRUE: Object := BooleanObj(true)
  const FALSE: Object := BooleanObj(false)
  const NULL: Object := NullObj

  function NativeBool(b: bool): (o: Object)
    ensures o.BooleanObj? && o.boolValue == b
  {
    if b then TRUE else FALSE
  }

  /** The type-name test the interpreter uses is a test for the error kind. */
  predicate IsError(o: Object)
    ensures IsError(o) <==> o.ErrorObj?
  {
    TypeName(o) == "ERROR"
  }

  /** The values that make a block stop and hand them outward unchanged. */
  predicate IsSignal(o: Object)
  {
    TypeName(o) == "ERROR" || TypeName(o) == "RETURN_VALUE"
  }

  /** Truthiness as `if` sees it: null, false and the integer 0 are the only falsy
      values. */
  predicate IsTruthy(o: Object)
    ensures !IsTruthy(o) <==> o == NULL || o == FALSE || o == IntegerObj(0)
  {
    match o
    case NullObj => false
    case BooleanObj(b) => b
    case IntegerObj(n) => n != 0
    case _ => true
  }

  /** Turns a computed value, or a trap (None), into an outcome. */
  function Completed(r: Option<Object>, env: Env): Outcome
  {
    if r.None? then Trap else Done(r.value, env)
  }

  /** An identifier's value: the bound value, or the not-found error. */
  function EvalIdentifier(name: string, env: Env): Object
  {
    if name in env then env[name] else ErrorObj("identifier not found: " + name)
  }

  /** `!`: a boolean is negated, null gives true, and every other value gives false. */
  function EvalBangOperator(right: Object): (r: Object)
    ensures r.BooleanObj?
    ensures !right.IntegerObj? ==> r.boolValue == !IsTruthy(right)
    ensures right.IntegerObj? ==> r == FALSE
  {
    match right
    case BooleanObj(b) => if b then FALSE else TRUE
    case NullObj => TRUE
    case _ => FALSE
  }

  /** Unary `-`: defined on integers only; negating the smallest `Int` traps. */
  function EvalMinusPrefixOperator(right: Object): (r: Option<Object>)
    ensures r.None? <==> right == IntegerObj(MIN)
    ensures r.Some? && r.value.IntegerObj? ==> right.IntegerObj? && r.value.intValue + right.intValue == 0
    ensures r.Some? && !r.value.IntegerObj? ==> r.value == ErrorObj("unknow operator: -" + TypeName(right))
  {
    if TypeName(right) != "INTEGER" then Some(ErrorObj("unknow operator: -" + TypeName(right)))
    else CheckedInt(0 - right.intValue)
  }

  /** A prefix operator applied to its evaluated operand: `!` applies to every value, `-`
      to integers only, and any other operator is an error. */
  function EvalPrefixExpression(op: string, right: Object): (r: Option<Object>)
    ensures r.None? <==> op == "-" && right == IntegerObj(MIN)
    ensures r.Some? ==> (r.value.ErrorObj? <==> op != "!" && !(op == "-" && right.IntegerObj?))
    ensures op == "!" ==> r.Some? && r.value.BooleanObj?
    ensures op == "!" ==> r == Some(EvalBangOperator(right))
    ensures op == "-" ==> r == EvalMinusPrefixOperator(right)
    ensures op != "!" && op != "-" ==> r == Some(ErrorObj("unknow operator: " + op + " " + TypeName(right)))
  {
    if op == "!" then Some(EvalBangOperator(right))
    else if op == "-" then EvalMinusPrefixOperator(right)
    else Some(ErrorObj("unknow operator: " + op + " " + TypeName(right)))
  }

  /** An integer result, or a trap when it does not fit in 64 bits. */
  function CheckedInt(v: int): Option<Object>
  {
    if InRange(v) then Some(IntegerObj(v)) else None
  }

  predicate IsArithmeticOperator(op: string)
  {
    op == "+" || op == "-" || op == "*" || op == "/"
  }

  predicate IsComparisonOperator(op: string)
  {
    op == "<" || op == ">" || op == "==" || op == "!="
  }

  /** The operators the interpreter defines for a pair of operands. */
  predicate Supported(op: string, left: Object, right: Object)
  {
    || (left.IntegerObj? && right.IntegerObj? && (IsArithmeticOperator(op) || IsComparisonOperator(op)))
    || (left.BooleanObj? && right.BooleanObj? && (op == "==" || op == "!="))
  }

  function EvalIntegerExpression(op: string, left: Object, right: Object): (r: Option<Object>)
    requires left.IntegerObj? && right.IntegerObj?
    ensures r.None? ==> IsArithmeticOperator(op)
    ensures IsComparisonOperator(op) ==> r.Some? && r.value.BooleanObj?
    ensures IsArithmeticOperator(op) && r.Some? ==> r.value.IntegerObj?
    ensures !IsArithmeticOperator(op) && !IsComparisonOperator(op) ==> r.Some? && r.value.ErrorObj?
  {
    var a := left.intValue;
    var b := right.intValue;
    if op == "+" then CheckedInt(a + b)
    else if op == "-" then CheckedInt(a - b)
    else if op == "*" then CheckedInt(a * b)
    else if op == "/" then (if b == 0 then None else CheckedInt(TruncDiv(a, b)))
    else if op == "<" then Some(NativeBool(a < b))
    else if op == ">" then Some(NativeBool(a > b))
    else if op == "==" then Some(NativeBool(a == b))
    else if op == "!=" then Some(NativeBool(a != b))
    else Some(ErrorObj("unknow operator: " + TypeName(left) + " " + op + " " + TypeName(right)))
  }

  /** A binary operator applied to two evaluated operands: integers and booleans as the
      type rules allow, and an error naming the operand types otherwise. */
  function EvalInfixExpression(op: string, left: Object, right: Object): (r: Option<Object>)
    ensures r.None? ==> left.IntegerObj? && right.IntegerObj? && IsArithmeticOperator(op)
    ensures r.Some? ==> (r.value.ErrorObj? <==> !Supported(op, left, right))
    ensures r.Some? && r.value.ErrorObj? ==>
      r.value.message ==
        (if TypeName(left) != TypeName(right) then "type mismatch: " else "unknow operator: ")
        + TypeName(left) + " " + op + " " + TypeName(right)
  {
    if TypeName(left) == "INTEGER" && TypeName(right) == "INTEGER" then
      EvalIntegerExpression(op, left, right)
    else if TypeName(left) == "BOOLEAN" && TypeName(right) == "BOOLEAN" && op == "==" then
      Some(NativeBool(left.boolValue == right.boolValue))
    else if TypeName(left) == "BOOLEAN" && TypeName(right) == "BOOLEAN" && op == "!=" then
      Some(NativeBool(left.boolValue != right.boolValue))
    else if TypeName(left) != TypeName(right) then
      Some(ErrorObj("type mismatch: " + TypeName(left) + " " + op + " " + TypeName(right)))
    else
      Some(ErrorObj("unknow operator: " + TypeName(left) + " " + op + " " + TypeName(right)))
  }

  function EvalExpression(e: Expression, env: Env): Outcome
    decreases ExpressionSize(e), 1
  {
    match e
    case Identifier(name) => Done(EvalIdentifier(name, env), env)
    case IntegerLiteral(v) => Done(IntegerObj(v), env)
    case Boolean(b) => Done(NativeBool(b), env)
    case PrefixExpression(op, right) =>
      if right.None? then Trap
      else
        (match EvalExpression(right.value, env)
         case Trap => Trap
         case Done(r, env1) =>
           if IsError(r) then Done(r, env1) else Completed(EvalPrefixExpression(op, r), env1))
    case InfixExpression(left, op, right) =>
      (match EvalExpression(left, env)
       case Trap => Trap
       case Done(l, env1) =>
         if IsError(l) then Done(l, env1)
         else if right.None? then Trap
         else
           match EvalExpression(right.value, env1)
           case Trap => Trap
           case Done(r, env2) =>
             if IsError(r) then Done(r, env2) else Completed(EvalInfixExpression(op, l, r), env2))
    case IfExpression(_, _, _) => EvalIfExpression(e, env)
  }

  function EvalIfExpression(e: Expression, env: Env): Outcome
    requires e.IfExpression?
    decreases ExpressionSize(e), 0
  {
    match EvalExpression(e.condition, env)
    case Trap => Trap
    case Done(c, env1) =>
      if IsError(c) then Done(c, env1)
      else if IsTruthy(c) then EvalBlockStatement(e.consequence, env1)
      else if e.alternative.Some? then EvalBlockStatement(e.alternative.value, env1)
      else Done(NULL, env1)
  }

  function EvalStatement(s: Statement, env: Env): Outcome
    decreases StatementSize(s), 0
  {
    match s
    case ExpressionStatement(ex) =>
      if ex.None? then Trap else EvalExpression(ex.value, env)
    case ReturnStatement(v) =>
      if v.None? then Trap
      else
        (match EvalExpression(v.value, env)
         case Trap => Trap
         case Done(o, env1) => if IsError(o) then Done(o, env1) else Done(ReturnValueObj(o), env1))
    case LetStatement(name, v) =>
      if v.None? then Trap
      else
        match EvalExpression(v.value, env)
        case Trap => Trap
        case Done(o, env1) => if IsError(o) then Done(o, env1) else Done(o, env1[name := o])
  }

  function EvalBlockStatement(b: BlockStatement, env: Env): Outcome
    decreases BlockSize(b), 1
  {
    BlockLoop(b.statements, env, NULL)
  }

  /** The statement loop of a block: `result` holds the value of the last statement run. */
  function BlockLoop(ss: seq<Statement>, env: Env, result: Object): Outcome
    decreases StatementsSize(ss), 1
  {
    if |ss| == 0 then Done(result, env)
    else
      match EvalStatement(ss[0], env)
      case Trap => Trap
      case Done(r, env1) =>
        if TypeName(r) == "ERROR" || TypeName(r) == "RETURN_VALUE" then Done(r, env1)
        else BlockLoop(ss[1..], env1, r)
  }

  /** The statement loop of a program: as a block's, but a return signal is unwrapped. */
  function ProgramLoop(ss: seq<Statement>, env: Env, result: Object): Outcome
  {
    if |ss| == 0 then Done(result, env)
    else
      match EvalStatement(ss[0], env)
      case Trap => Trap
      case Done(r, env1) =>
        if r.ReturnValueObj? then Done(r.inner, env1)
        else if r.ErrorObj? then Done(r, env1)
        else ProgramLoop(ss[1..], env1, r)
  }

  function EvalProgram(p: Program, env: Env): Outcome
  {
    ProgramLoop(p.statements, env, NullObj)
  }

  /** The entry point: dispatch on the kind of node. */
  function EvalNode(node: Node, env: Env): Outcome
  {
    match node
    case ProgramNode(p) => EvalProgram(p, env)
    case StatementNode(s) => EvalStatement(s, env)
    case BlockNode(b) => EvalBlockStatement(b, env)
    case ExpressionNode(e) => EvalExpression(e, env)
  }

  /** The environment object the interpreter mutates in place. */
  class Environment {
    var store: Env

    constructor(initial: Env)
      ensures store == initial
    {
      store := initial;
    }

    function Get(name: string): (r: Option<Object>)
      reads this
      ensures r.Some? <==> name in store
      ensures EvalIdentifier(name, store) ==
        (if r.Some? then r.value else ErrorObj("identifier not found: " + name))
    {
      if name in store then Some(store[name]) else None
    }

    /** Binds `name` and returns the bound value. */
    method Set(name: string, obj: Object) returns (r: Object)
      modifies this
      ensures r == obj
      ensures store == old(store)[name := obj]
      ensures Get(name) == Some(obj)
      ensures forall m :: m != name ==> Get(m) == old(Get(m))
    {
      store := store[name := obj];
      r := obj;
    }
  }

  /** The program loop run against a shared, mutable environment, as a read-eval loop
      does: the result and the environment afterwards are those of EvalProgram. */
  method Run(p: Program, env: Environment) returns (result: Outcome)
    modifies env
    ensures result.Trap? <==> EvalProgram(p, old(env.store)).Trap?
    ensures result.Done? ==> result == EvalProgram(p, old(env.store)) && env.store == result.env
  {
    var r: Object := NullObj;
    var i := 0;
    while i < |p.statements|
      invariant 0 <= i <= |p.statements|
      invariant !r.ReturnValueObj? && !r.ErrorObj?
      invariant ProgramLoop(p.statements[i..], env.store, r) == EvalProgram(p, old(env.store))
    {
      assert p.statements[i..][1..] == p.statements[i + 1..];
      var step := EvalStatement(p.statements[i], env.store);
      if step.Trap? {
        return Trap;
      }
      env.store := step.env;
      r := step.obj;
      if r.ReturnValueObj? {
        return Done(r.inner, env.store);
      }
      if r.ErrorObj? {
        return Done(r, env.store);
      }
      i := i + 1;
    }
    result := Done(r, env.store);
  }
}
