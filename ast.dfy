/** The syntax tree the parser builds and the evaluator walks. Sub-expressions that the
    parser may fail to produce are optional, exactly where the tree's fields are optional;
    the tokens each node keeps only for rendering are left out. */
module Ast {
  import opened Wrappers
  import opened SwiftInt

  datatype Expression =
    | Identifier(name: string)
    | IntegerLiteral(intValue: Int64)
    | Boolean(boolValue: bool)
    | PrefixExpression(operatorLiteral: string, right: Option<Expression>)
    | InfixExpression(left: Expression, operatorLiteral: string, right: Option<Expression>)
    | IfExpression(condition: Expression, consequence: BlockStatement, alternative: Option<BlockStatement>)

  datatype BlockStatement = BlockStatement(statements: seq<Statement>)

  datatype Statement =
    | LetStatement(letName: string, value: Option<Expression>)
    | ReturnStatement(returnValue: Option<Expression>)
    | ExpressionStatement(expression: Option<Expression>)

  /** The root of a parse. */
  datatype Program = Program(statements: seq<Statement>)

  /** Any node the evaluator accepts. */
  datatype Node =
    | ProgramNode(program: Program)
    | StatementNode(statement: Statement)
    | BlockNode(block: BlockStatement)
    | ExpressionNode(expr: Expression)

  /** Node counts, used as termination measures for the evaluator's mutual recursion. */
  function ExpressionSize(e: Expression): nat
  {
    match e
    case Identifier(_) => 1
    case IntegerLiteral(_) => 1
    case Boolean(_) => 1
    case PrefixExpression(_, r) => 1 + (if r.Some? then ExpressionSize(r.value) else 0)
    case InfixExpression(l, _, r) => 1 + ExpressionSize(l) + (if r.Some? then ExpressionSize(r.value) else 0)
    case IfExpression(c, t, f) =>
      1 + ExpressionSize(c) + BlockSize(t) + (if f.Some? then BlockSize(f.value) else 0)
  }

  function BlockSize(b: BlockStatement): nat
  {
    1 + StatementsSize(b.statements)
  }

  function StatementsSize(ss: seq<Statement>): nat
  {
    if |ss| == 0 then 0 else StatementSize(ss[0]) + StatementsSize(ss[1..])
  }

  function StatementSize(s: Statement): nat
  {
    match s
    case LetStatement(_, v) => 1 + (if v.Some? then ExpressionSize(v.value) else 0)
    case ReturnStatement(v) => 1 + (if v.Some? then ExpressionSize(v.value) else 0)
    case ExpressionStatement(v) => 1 + (if v.Some? then ExpressionSize(v.value) else 0)
  }
}
