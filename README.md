# swiftmonkey core in Dafny

A model of the core of swiftmonkey, a Swift interpreter for the Monkey language. The model
covers three parts.

- **Token vocabulary** (`token.dfy`): the closed set of token kinds, their raw values, and
  the keyword table behind `lookupIdent`.
- **Pratt parser** (`parser_spec.dfy`, `parser.dfy`):
  - `parser_spec.dfy` describes what each parse routine computes, as functions of the token
    stream and the index of the current token. Each function returns the node, the
    position afterwards and the whole error list afterwards.
  - `parser.dfy` holds the `Parser` class, with the fields `curToken`, `peekToken` and
    `errors` that it updates in place. Every method is proved to do exactly what the
    matching function describes.
  - `parser_properties.dfy` proves what the functions guarantee:
    - which tokens stop the infix loop;
    - equal operators group to the left;
    - tighter operators take their operands first;
    - prefix operators take only the atom after them;
    - what an integer literal parses to;
    - when parsing a program ends;
    - `5 + 2 * 10` and `50 / 2 * 2 + 10` parse and evaluate to the values the
      interpreter's tests expect;
    - statements that start with a parenthesis, a boolean or `if`, and `!` or `-` in
      front of one, hold no expression, because the parser registers no prefix rule for
      them. Evaluating them traps. So the tests on such input, `true == true` among them,
      cannot pass as the source is written.
- **Tree-walking evaluator** (`evaluator.dfy`, `evaluator_properties.dfy`). It is modelled
  as total functions over the syntax tree (`ast.dfy`) and runtime objects (`object.dfy`).
  - The environment is threaded through as a map. The `Environment` class and `Run` show
    the same program loop against a shared, mutable environment.
  - Swift's runtime traps end evaluation with `Trap`. These are force-unwrapping a missing
    operand, `Int` overflow, and division by zero.
  - The properties cover:
    - how errors short-circuit;
    - blocks and programs stopping at the first error or return;
    - `let` binding and never unbinding;
    - the operator tables;
    - where traps can come from.

`swift_int.dfy` models Swift's 64-bit `Int` as the interpreter uses it:
- the range;
- division, which truncates toward zero;
- the failable `Int(String)` conversion that the parser applies to literals.

Behaviour kept as written in the source:
- **Peek error message.** The message of a failed `expectPeek` names the kind actually found
  where the expected kind belongs, and the expected kind where the found one belongs
  (`ParserSpec.PeekErrorMessage`).
- **`let` and `return` values.** Both statements skip to the next semicolon and keep no
  value, so evaluating a parsed `let` or `return` traps on the missing value.
- **Hang without a semicolon.** When no semicolon follows a `let` or `return`, the skip loop
  never ends. `ReturnAt`, `LetAt`, `StatementAt` and `ProgramFrom` return `None` for such a
  stream. The parser methods require a stream for which they return a parse.
- **Message spelling.** Error messages keep the source's spelling, "unknow operator".

## Model

| member | source | states |
|---|---|---|
| `Tokens.RawValue` | Sources/swiftmonkey/Token.swift:2-49 | the raw value each kind declares; RawValueInjective shows no two kinds share one |
| `Tokens.FromRawValue` | Sources/swiftmonkey/Token.swift:2-49 | the failable raw-value initialiser; RawValueRoundTrip shows it inverts RawValue on every kind |
| `Tokens.RawValueRoundTrip` | Sources/swiftmonkey/Token.swift:2-49 | the failable raw-value initialiser gives back every kind from its raw value |
| `Tokens.RawValueInjective` | Sources/swiftmonkey/Token.swift:2-49 | two kinds with the same raw value are the same kind |
| `Tokens.LookupIdent` | Sources/swiftmonkey/Token.swift:65-71 | the kind is IDENT or a keyword kind, and it differs from IDENT exactly when the word is in the keyword table |
| `Tokens.LookupIdentKeywords` | Sources/swiftmonkey/Token.swift:56-63 | each of the seven keyword spellings maps to its own kind |
| `Tokens.LookupIdentOther` | Sources/swiftmonkey/Token.swift:65-71 | every other word, including a keyword in other case, is an IDENT |
| `Tokens.KeywordsInjective` | Sources/swiftmonkey/Token.swift:56-63 | different spellings in the keyword table map to different kinds |
| `Tokens.KeywordsCoverKeywordKinds` | Sources/swiftmonkey/Token.swift:56-63 | every keyword kind is reached by some spelling |
| `SwiftInt.TruncDiv` | Sources/swiftmonkey/Evaluator.swift:143-144 | Swift's integer `/`: the magnitude is the quotient of the magnitudes, and a nonzero result is positive exactly when the operands' signs agree |
| `SwiftInt.TruncDivSigns` | Sources/swiftmonkey/Evaluator.swift:143-144 | truncating division is odd in each argument |
| `SwiftInt.ParseInt` | Sources/swiftmonkey/Parser.swift:194-201 | `Int(String)`: nil on the empty string; a non-empty digit string, leading zeros included, converts exactly when its value is at most `Int.max`, and gives the value of its digits |
| `SwiftInt.DecimalRoundTrip` | Sources/swiftmonkey/Parser.swift:194-201 | reading back the decimal spelling of a natural number gives the number |
| `SwiftInt.ParseIntOfDecimal` | Sources/swiftmonkey/Parser.swift:194-201 | `Int(String)` accepts the decimal spelling of every 64-bit value, signed when negative, and returns that value |
| `SwiftInt.ParseIntRejectsOverflow` | Sources/swiftmonkey/Parser.swift:194-201 | a digit string whose value exceeds `Int.max` gives nil |
| `Objects.TypeName` | Sources/swiftmonkey/Evaluator.swift:99-119 | the type name each kind of object reports; TypeNameDistinguishesKinds shows the names tell the kinds apart |
| `Objects.TypeNameDistinguishesKinds` | Sources/swiftmonkey/Evaluator.swift:99-119 | two objects report the same type name exactly when they are of the same kind, so the evaluator's type-name comparisons are kind tests |
| `Evaluator.NativeBool` | Sources/swiftmonkey/Evaluator.swift:26-28 | a native boolean becomes the boolean object holding that value |
| `Evaluator.IsError` | Sources/swiftmonkey/Evaluator.swift:202-204 | the type-name test holds exactly of error objects |
| `Evaluator.IsTruthy` | Sources/swiftmonkey/Evaluator.swift:189-200 | null, false and the integer 0 are exactly the falsy values |
| `Evaluator.EvalIdentifier` | Sources/swiftmonkey/Evaluator.swift:65-71 | the bound value, or the "identifier not found" error; Environment.Get states that it is built on the lookup, and LetBinds and UnboundIdentifier state both outcomes |
| `Evaluator.EvalBangOperator` | Sources/swiftmonkey/Evaluator.swift:165-175 | `!` always gives a boolean: the negated truthiness of any non-integer, and false for every integer |
| `Evaluator.EvalMinusPrefixOperator` | Sources/swiftmonkey/Evaluator.swift:157-163 | unary `-` traps exactly on `Int.min`; an integer result is the negation of the operand; any other result is the "-TYPE" error |
| `Evaluator.EvalPrefixExpression` | Sources/swiftmonkey/Evaluator.swift:122-131 | `!` gives EvalBangOperator of the operand and `-` gives EvalMinusPrefixOperator of it; any other operator gives "unknow operator: OP TYPE"; so it traps exactly on `-` applied to `Int.min`, errs exactly when the operator is neither `!` nor `-` on an integer, and `!` always gives a boolean |
| `Evaluator.EvalIntegerExpression` | Sources/swiftmonkey/Evaluator.swift:133-156 | only arithmetic operators can trap; comparisons give booleans; arithmetic gives integers; any other operator gives an error |
| `Evaluator.EvalInfixExpression` | Sources/swiftmonkey/Evaluator.swift:99-119 | traps only on integer arithmetic; the result is an error exactly when the operator is unsupported for the operand kinds; the message is "type mismatch" when the type names differ and "unknow operator" otherwise |
| `Evaluator.EvalExpression` | Sources/swiftmonkey/Evaluator.swift:15-63 | the expression cases of eval; the lemmas below state that errors short-circuit (PrefixOperandError, InfixLeftError, InfixRightError), that operands reach the operators (PrefixOperandValue, InfixOperandsValue), that no binding is removed (ExpressionKeepsBindings) and where traps come from (TrapFreeExpressionCompletes, MissingValueTraps) |
| `Evaluator.EvalIfExpression` | Sources/swiftmonkey/Evaluator.swift:177-187 | evalIfExpression; IfConditionError, IfBranches, IfKeepsBindings and TrapFreeIfCompletes state its outcomes |
| `Evaluator.EvalStatement` | Sources/swiftmonkey/Evaluator.swift:20-56 | the statement cases of eval; LetAndReturnValueError, LetBinds, MissingValueTraps, StatementKeepsBindings and TrapFreeStatementCompletes state its outcomes |
| `Evaluator.EvalBlockStatement` | Sources/swiftmonkey/Evaluator.swift:87-97 | evalBlockStatement, the block loop started from null; EmptyBlockAndProgram states the empty block |
| `Evaluator.BlockLoop` | Sources/swiftmonkey/Evaluator.swift:88-96 | the block loop; BlockLoopAppend states its sequencing and its stop at the first error or return, BlockLoopKeepsBindings and TrapFreeBlockLoopCompletes its invariants |
| `Evaluator.ProgramLoop` | Sources/swiftmonkey/Evaluator.swift:74-84 | the program loop; ProgramIsUnwrappedBlock ties it to the block loop, and ProgramIgnoresRestAfterSignal states its early returns |
| `Evaluator.EvalProgram` | Sources/swiftmonkey/Evaluator.swift:73-85 | eval(program:), the program loop started from null; Run is proved to compute it with a mutable environment |
| `Evaluator.EvalNode` | Sources/swiftmonkey/Evaluator.swift:15-19 | eval(node:) dispatches each kind of node to its evaluator; no property beyond that dispatch is stated |
| `Evaluator.Environment.Get` | Sources/swiftmonkey/Evaluator.swift:65-71 | a lookup finds a value exactly when the name is bound, and evalIdentifier is built on it: the found value, or the "identifier not found" error |
| `Evaluator.Environment.Set` | Sources/swiftmonkey/Evaluator.swift:52-56 | binding updates that one name and returns the bound value; a later Get of the name finds the value, and Get of every other name is unchanged |
| `Evaluator.Run` | Sources/swiftmonkey/Evaluator.swift:73-85 | the program loop run against a shared, mutable environment traps exactly when EvalProgram does, and otherwise gives its result and leaves its environment behind |
| `EvaluatorProperties.PrefixOperandError` | Sources/swiftmonkey/Evaluator.swift:29-33 | an erroneous operand's error is the prefix expression's result |
| `EvaluatorProperties.InfixLeftError` | Sources/swiftmonkey/Evaluator.swift:34-37 | an erroneous left operand is the result, and the right operand is never unwrapped |
| `EvaluatorProperties.InfixRightError` | Sources/swiftmonkey/Evaluator.swift:34-40 | an erroneous right operand, evaluated after the left, is the result |
| `EvaluatorProperties.PrefixOperandValue` | Sources/swiftmonkey/Evaluator.swift:29-33 | a non-error operand is handed to evalPrefixExpression, and its result or trap is the expression's, in the environment the operand left |
| `EvaluatorProperties.InfixOperandsValue` | Sources/swiftmonkey/Evaluator.swift:34-40 | two non-error operands, the right one evaluated in the environment the left one left, are handed to evalInfixExpression, whose result or trap is the expression's |
| `EvaluatorProperties.IfConditionError` | Sources/swiftmonkey/Evaluator.swift:177-179 | an erroneous condition is the result of the `if` |
| `EvaluatorProperties.LetAndReturnValueError` | Sources/swiftmonkey/Evaluator.swift:47-56 | an erroneous `let` value is returned and nothing is bound; an erroneous `return` value is returned unwrapped |
| `EvaluatorProperties.DoubleBang` | Sources/swiftmonkey/Evaluator.swift:165-175 | `!!x` is the truthiness of a non-integer `x`, and true for every integer |
| `EvaluatorProperties.BangOfZero` | Sources/swiftmonkey/Evaluator.swift:165-200 | `!0` is false although `0` is falsy for `if` |
| `EvaluatorProperties.MinusInvolution` | Sources/swiftmonkey/Evaluator.swift:157-163 | unary minus negates every integer other than `Int.min`, and applied twice gives the integer back |
| `EvaluatorProperties.IntegerOperators` | Sources/swiftmonkey/Evaluator.swift:133-156 | integer `+ - *` are exact and trap outside 64 bits; `/` truncates, traps on a zero divisor and traps when the quotient leaves 64 bits; the comparisons compare |
| `EvaluatorProperties.DivisionOverflow` | Sources/swiftmonkey/Evaluator.swift:143-144 | the only 64-bit division that overflows is `Int.min / -1`, and integer `/` traps exactly on that pair |
| `EvaluatorProperties.BooleanEquality` | Sources/swiftmonkey/Evaluator.swift:104-113 | booleans compare with `==` and `!=` on their values |
| `EvaluatorProperties.IfBranches` | Sources/swiftmonkey/Evaluator.swift:177-187 | a truthy condition runs the consequence; a falsy one runs the alternative, or gives null without one |
| `EvaluatorProperties.EmptyBlockAndProgram` | Sources/swiftmonkey/Evaluator.swift:73-97 | an empty block and an empty program give null and leave the environment alone |
| `EvaluatorProperties.BlockLoopAppend` | Sources/swiftmonkey/Evaluator.swift:87-97 | running `a + b` is running `a`, then running `b` from where `a` left off unless `a` trapped or ended on an error or return, which is handed on still wrapped |
| `EvaluatorProperties.ProgramIsUnwrappedBlock` | Sources/swiftmonkey/Evaluator.swift:73-97 | a program runs its statements as a block does and then unwraps the return value that stopped it |
| `EvaluatorProperties.ProgramIgnoresRestAfterSignal` | Sources/swiftmonkey/Evaluator.swift:73-85 | once the statements produce an error or a return, statements appended after them change nothing; the program gives the returned value unwrapped, or the error |
| `EvaluatorProperties.LetBinds` | Sources/swiftmonkey/Evaluator.swift:52-71 | `let` binds its value under its name, keeps every other binding and returns the value; a later lookup finds it |
| `EvaluatorProperties.UnboundIdentifier` | Sources/swiftmonkey/Evaluator.swift:65-71 | an unbound name gives the "identifier not found" error and changes nothing |
| `EvaluatorProperties.ExpressionKeepsBindings` | Sources/swiftmonkey/Evaluator.swift:15-63 | evaluating an expression never removes a binding |
| `EvaluatorProperties.IfKeepsBindings` | Sources/swiftmonkey/Evaluator.swift:177-187 | evaluating an `if` never removes a binding |
| `EvaluatorProperties.StatementKeepsBindings` | Sources/swiftmonkey/Evaluator.swift:47-56 | evaluating a statement never removes a binding |
| `EvaluatorProperties.BlockLoopKeepsBindings` | Sources/swiftmonkey/Evaluator.swift:87-97 | running a block's statements never removes a binding |
| `EvaluatorProperties.TrapFreeExpressionCompletes` | Sources/swiftmonkey/Evaluator.swift:15-63 | an expression with no missing operand, no integer arithmetic and no unary minus never traps |
| `EvaluatorProperties.TrapFreeIfCompletes` | Sources/swiftmonkey/Evaluator.swift:177-187 | such an `if` never traps |
| `EvaluatorProperties.TrapFreeStatementCompletes` | Sources/swiftmonkey/Evaluator.swift:20-56 | such a statement never traps |
| `EvaluatorProperties.TrapFreeBlockLoopCompletes` | Sources/swiftmonkey/Evaluator.swift:87-97 | a block of such statements never traps |
| `EvaluatorProperties.MissingValueTraps` | Sources/swiftmonkey/Evaluator.swift:20-56 | a `let`, `return` or expression statement without its expression traps on the force-unwrap |
| `EvaluatorProperties.ExampleMinusTrue` | Tests/swiftmonkeyTests/EvaluatorTests.swift:156 | `-true;` gives "unknow operator: -BOOLEAN" |
| `EvaluatorProperties.ExampleDoubleBangFive` | Tests/swiftmonkeyTests/EvaluatorTests.swift:122 | `!!5` gives true |
| `EvaluatorProperties.ExampleTypeMismatchStops` | Tests/swiftmonkeyTests/EvaluatorTests.swift:155 | `5 + true; 5;` gives "type mismatch: INTEGER + BOOLEAN" |
| `EvaluatorProperties.ExampleUnknownOperatorStops` | Tests/swiftmonkeyTests/EvaluatorTests.swift:158 | `5; true + false; 5` gives "unknow operator: BOOLEAN + BOOLEAN" |
| `EvaluatorProperties.ExampleIfFalseWithoutElse` | Tests/swiftmonkeyTests/EvaluatorTests.swift:99 | `if (false) { 10 }` gives null |
| `EvaluatorProperties.ExampleIfElse` | Tests/swiftmonkeyTests/EvaluatorTests.swift:103 | `if (1 > 2) { 10 } else { 20 }` gives 20 |
| `EvaluatorProperties.ExampleReturnStopsProgram` | Tests/swiftmonkeyTests/EvaluatorTests.swift:136 | `9; return 2 * 5; 8;` gives 10 |
| `EvaluatorProperties.ExampleNestedReturn` | Tests/swiftmonkeyTests/EvaluatorTests.swift:137-144 | the inner `return 10` of nested `if`s ends the whole program with 10 |
| `EvaluatorProperties.ExampleLetThenUse` | Sources/swiftmonkey/Evaluator.swift:52-71 | `let a = 5; a * 2` gives 10 and leaves `a` bound to 5 |
| `ParserSpec.Rank` | Sources/swiftmonkey/Parser.swift:13-21 | the raw values of the binding strengths run from 1 to 7, and 1 belongs to LOWEST alone |
| `ParserSpec.PrecedenceOf` | Sources/swiftmonkey/Parser.swift:39-54 | the precedence lookup behind peekPercedence and curPercedence; PrecedenceIsTableLookup shows it is the table entry with LOWEST as default |
| `ParserSpec.PrecedenceIsTableLookup` | Sources/swiftmonkey/Parser.swift:23-30 | the precedence of a kind is its entry in the precedence table, or LOWEST when it has none |
| `ParserSpec.ExpressionAt` | Sources/swiftmonkey/Parser.swift:173-188 | parseExpression never moves back and only appends errors; it builds nothing exactly when the current kind has no prefix rule, and then stays put with one "no prefix parse function" error |
| `ParserSpec.PrefixRuleAt` | Sources/swiftmonkey/Parser.swift:60-64 | the registered prefix rule never moves back and only appends errors; an identifier becomes a leaf without moving, INT goes to IntegerLiteralAt, and `!` and `-` go to PrefixAt |
| `ParserSpec.IntegerLiteralAt` | Sources/swiftmonkey/Parser.swift:194-202 | parseIntegerLiteral stays put; it adds no error exactly when `Int(String)` converts the literal, and then the value is the converted one; otherwise the value is 0 and one "could not parse" error is added |
| `ParserSpec.PrefixAt` | Sources/swiftmonkey/Parser.swift:204-211 | parsePrefixExpression moves forward and builds a prefix node holding the operator's literal |
| `ParserSpec.InfixAt` | Sources/swiftmonkey/Parser.swift:213-223 | parseInfixExpression moves forward and builds an infix node over the given left operand, holding the operator's literal |
| `ParserSpec.InfixLoopAt` | Sources/swiftmonkey/Parser.swift:179-186 | the infix loop never moves back and only appends errors; when it does not move it hands back its left expression unchanged |
| `ParserSpec.InfixLoopEnd` | Sources/swiftmonkey/Parser.swift:179 | when the next token is a semicolon or binds no more tightly, the loop adds nothing |
| `ParserSpec.InfixLoopTurn` | Sources/swiftmonkey/Parser.swift:179-186 | otherwise the next token has an infix rule, and the loop continues after that operator's right operand |
| `ParserSpec.SemicolonFrom` | Sources/swiftmonkey/Parser.swift:116-118 | the index found holds the first semicolon from the start index on; none is found exactly when none follows |
| `ParserSpec.ExpressionStatementAt` | Sources/swiftmonkey/Parser.swift:104-111 | an expression statement holds the expression parsed at LOWEST, with its errors, and steps onto the next token exactly when that token is a semicolon |
| `ParserSpec.ReturnAt` | Sources/swiftmonkey/Parser.swift:113-120 | parseReturnStatement ends exactly when a semicolon follows; it then stops on the first semicolon after the `return`, adds no error and keeps no value |
| `ParserSpec.LetAt` | Sources/swiftmonkey/Parser.swift:122-138 | a missing identifier or `=` gives nil with one peek error and the cursor where expectPeek left it; otherwise the statement keeps the name and no value and stops on the first semicolon from the `=` on; it fails to end exactly when the identifier and `=` are there and no semicolon follows |
| `ParserSpec.StatementAt` | Sources/swiftmonkey/Parser.swift:93-102 | `let` goes to LetAt, `return` to ReturnAt and every other kind to ExpressionStatementAt; so it never moves back, only appends errors, and only a `let` or `return` can fail to end |
| `ParserSpec.ProgramFrom` | Sources/swiftmonkey/Parser.swift:81-91 | parseProgram's loop; ProgramStep, ProgramFromShape and ProgramEnd state its turns, shape and exit, and ProgramEnds when it ends |
| `ParserSpec.ProgramStep` | Sources/swiftmonkey/Parser.swift:84-89 | one turn of parseProgram's loop leaves what remains of the program unchanged |
| `ParserSpec.ProgramFromShape` | Sources/swiftmonkey/Parser.swift:81-91 | a program that ends stops on EOF, keeps the statements and errors it started with as a prefix, and adds at most one statement per token |
| `ParserSpec.ProgramEnd` | Sources/swiftmonkey/Parser.swift:84 | at EOF the loop returns what it has collected |
| `Parsing.Parser.constructor` | Sources/swiftmonkey/Parser.swift:56-59 | the parser reads the lexer's next two tokens as current and next, with no errors |
| `Parsing.Parser.PeekPrecedence` | Sources/swiftmonkey/Parser.swift:39-46 | the next token binds above LOWEST exactly when it has an infix rule |
| `Parsing.Parser.CurPrecedence` | Sources/swiftmonkey/Parser.swift:47-54 | the current token binds above LOWEST exactly when it has an infix rule |
| `Parsing.Parser.NextToken` | Sources/swiftmonkey/Parser.swift:76-79 | the next token becomes current and the cursor moves one token forward; errors are unchanged |
| `Parsing.Parser.ParseProgram` | Sources/swiftmonkey/Parser.swift:81-91 | the program, cursor and errors afterwards are those ProgramFrom describes |
| `Parsing.Parser.ParseProgramTurn` | Sources/swiftmonkey/Parser.swift:85-88 | one turn of the loop moves forward and leaves what remains of the program unchanged |
| `Parsing.Parser.ParseStatement` | Sources/swiftmonkey/Parser.swift:93-102 | the statement, cursor and errors afterwards are those StatementAt describes |
| `Parsing.Parser.ParseExpressStatement` | Sources/swiftmonkey/Parser.swift:104-111 | as ExpressionStatementAt describes |
| `Parsing.Parser.ParseReturnStatement` | Sources/swiftmonkey/Parser.swift:113-120 | as ReturnAt describes |
| `Parsing.Parser.ParseLetStatement` | Sources/swiftmonkey/Parser.swift:122-138 | as LetAt describes |
| `Parsing.Parser.SkipToSemicolon` | Sources/swiftmonkey/Parser.swift:133-135 | the skip loop stops on the first semicolon from the current token on, with no new error |
| `Parsing.Parser.ExpectPeek` | Sources/swiftmonkey/Parser.swift:148-156 | succeeds exactly when the next token has the kind asked for, and then moves one token forward; otherwise it stays put and adds one peek error |
| `Parsing.Parser.PeekError` | Sources/swiftmonkey/Parser.swift:158-163 | appends the peek error message and changes nothing else |
| `Parsing.Parser.ParseExpression` | Sources/swiftmonkey/Parser.swift:173-188 | the expression, cursor and errors afterwards are those ExpressionAt describes |
| `Parsing.Parser.ParseInfixLoop` | Sources/swiftmonkey/Parser.swift:179-186 | as InfixLoopAt describes |
| `Parsing.Parser.ParseInfixTurn` | Sources/swiftmonkey/Parser.swift:184-185 | one turn of the loop moves forward and leaves what remains of the loop unchanged |
| `Parsing.Parser.ParsePrefixRule` | Sources/swiftmonkey/Parser.swift:174-178 | as PrefixRuleAt describes |
| `Parsing.Parser.ParseIdentifier` | Sources/swiftmonkey/Parser.swift:190-192 | an identifier leaf named by the current token's literal |
| `Parsing.Parser.ParseIntegerLiteral` | Sources/swiftmonkey/Parser.swift:194-202 | as IntegerLiteralAt describes; the tokens are not touched |
| `Parsing.Parser.ParsePrefixExpression` | Sources/swiftmonkey/Parser.swift:204-211 | as PrefixAt describes |
| `Parsing.Parser.ParseInfixExpression` | Sources/swiftmonkey/Parser.swift:213-223 | as InfixAt describes |
| `Parsing.Parser.NoPrefixParseFunctionError` | Sources/swiftmonkey/Parser.swift:226-229 | appends the "no prefix parse function" message and changes nothing else |
| `ParserProperties.PrecedenceTable` | Sources/swiftmonkey/Parser.swift:23-30 | exactly the kinds with an infix rule rank above LOWEST; no binary operator ranks as high as PREFIX; the strengths are ordered EQUALS < LESSGREATER < SUM < PRODUCT < PREFIX |
| `ParserProperties.UnlistedKindStops` | Sources/swiftmonkey/Parser.swift:39-46 | a next token missing from the precedence table stops every infix loop, which hands back its left expression |
| `ParserProperties.PrefixOperandIsPrefixRule` | Sources/swiftmonkey/Parser.swift:204-211 | the operand of `!` or `-` is exactly what the next token's prefix rule builds; no infix operator extends it |
| `ParserProperties.AtomAlone` | Sources/swiftmonkey/Parser.swift:173-188 | an identifier or convertible integer that the next token stops parses to that leaf alone, with no error |
| `ParserProperties.OneLink` | Sources/swiftmonkey/Parser.swift:179-186 | a turn of the loop over an operator and a lone atom folds the pair into the left expression |
| `ParserProperties.FlatChainGroupsLeft` | Sources/swiftmonkey/Parser.swift:179-186 | operators of equal or falling strength fold into a left-nested tree, and the loop stops after the last one |
| `ParserProperties.AtomChainGroupsLeft` | Sources/swiftmonkey/Parser.swift:173-188 | an atom followed by such a chain parses to the left-nested tree, with no error |
| `ParserProperties.PrefixChainGroupsLeft` | Sources/swiftmonkey/Parser.swift:204-211 | `-a op b ...` parses as `((-a) op b) ...` |
| `ParserProperties.TighterRightOperand` | Sources/swiftmonkey/Parser.swift:213-223 | the right operand of the looser operator, parsed at its strength, takes in the tighter operator after it |
| `ParserProperties.TighterOperatorFirst` | Sources/swiftmonkey/Parser.swift:213-223 | `a op1 b op2 c` with op2 tighter parses as `a op1 (b op2 c)` |
| `ParserProperties.EqualOrWeakerGroupsLeft` | Sources/swiftmonkey/Parser.swift:179-186 | `a op1 b op2 c` with op2 no tighter parses as `(a op1 b) op2 c` |
| `ParserProperties.TwoOperators` | Sources/swiftmonkey/Parser.swift:173-223 | `a op1 b op2 c` groups to the right exactly when op2 binds more tightly |
| `ParserProperties.DecimalLiteral` | Sources/swiftmonkey/Parser.swift:194-201 | an INT token spelling a value up to `Int.max` parses to that value, with no error |
| `ParserProperties.StatementEnds` | Sources/swiftmonkey/Parser.swift:93-138 | a statement ends when every `let` and `return` from it on has a later semicolon |
| `ParserProperties.ProgramEnds` | Sources/swiftmonkey/Parser.swift:81-91 | parseProgram ends when every `let` and `return` has a later semicolon |
| `ParserProperties.ProgramEndsAtFinalSemicolon` | Sources/swiftmonkey/Parser.swift:81-91 | in particular, it ends on every stream whose last token is a semicolon |
| `ParserProperties.ReturnWithoutSemicolonHangs` | Sources/swiftmonkey/Parser.swift:113-120 | a `return` with no semicolon after it makes parseProgram loop forever |
| `ParserProperties.ParsedLetAndReturnTrap` | Sources/swiftmonkey/Parser.swift:113-138 | a parsed `let` or `return` has no value, so evaluating it traps |
| `ParserProperties.UnregisteredPrefixTraps` | Sources/swiftmonkey/Parser.swift:173-177 | a statement starting with a kind that has no prefix rule (a parenthesis, a boolean, `if`) holds no expression and one error, and evaluating it traps |
| `ParserProperties.UnregisteredOperandTraps` | Sources/swiftmonkey/Parser.swift:204-211 | `!` or `-` before such a kind gets no operand, and evaluating it traps |
| `ParserProperties.ExampleTrueEqualsTrueTraps` | Tests/swiftmonkeyTests/EvaluatorTests.swift:67 | `true == true` parses to three empty statements, and evaluating the program traps where the test expects true |
| `ParserProperties.ExampleDivideMultiplyAddParses` | Tests/swiftmonkeyTests/EvaluatorTests.swift:48 | `50 / 2 * 2 + 10` parses as `((50 / 2) * 2) + 10` |
| `ParserProperties.ExampleDivideMultiplyAddValue` | Tests/swiftmonkeyTests/EvaluatorTests.swift:48 | and that tree evaluates to 60 |
| `ParserProperties.ExampleAddMultiplyParses` | Tests/swiftmonkeyTests/EvaluatorTests.swift:47 | `5 + 2 * 10` parses as `5 + (2 * 10)` |
| `ParserProperties.ExampleAddMultiplyValue` | Tests/swiftmonkeyTests/EvaluatorTests.swift:47 | and that tree evaluates to 25 |
| `ParserProperties.ExampleNegateMultiply` | Sources/swiftmonkey/Parser.swift:204-211 | `-a * b` parses as `(-a) * b` |

## Left out

- **The lexer's scanning of source text.** The lexer is not part of this model. The parser
  reads a fixed token sequence, one token per call, and reads EOF past its end.
- **The environment's chain of outer scopes.** The environment source is not part of this
  model. The environment is one flat map from names to objects.
- **The text forms of nodes and objects (`inspect`, `string`), and the tokens that AST nodes
  keep for them.** They are only used for rendering.
- **The prefix and infix closure registries (`registerPrefix`, `registerInfix`).** They are
  replaced by dispatch on the kinds registered in `Parser.swift:60-73`, through
  `HasPrefixRule` and `HasInfixRule`.
- **`isCurrentTokenType` and `isPeekTokenType`.** They appear as direct comparisons of token
  kinds.
- **The `default` branch of `eval` (`Evaluator.swift:60-61`).** Every node of the modelled
  syntax tree has a case of its own, so this branch is not modelled.
- **The shared `TRUE`, `FALSE` and `NULL` instances.** They are plain values, so identity and
  equality coincide.
- **Swift's runtime traps.** They are modelled as `Trap` (or `None` from an operator). The
  message Swift prints when it stops the process is not modelled.
- Parsing.Parser.ParseProgram: requires that ProgramFrom gives a parse, that is, that no
  `let` or `return` lacks a later semicolon. On other streams the source loops forever.
  `ReturnWithoutSemicolonHangs` and `ProgramEnds` state when that happens.
- Parsing.Parser.ParseProgramTurn: requires a parse, for the same reason.
- Parsing.Parser.ParseStatement: requires a parse, for the same reason.
- Parsing.Parser.ParseLetStatement: requires a parse, for the same reason.
- Parsing.Parser.ParseReturnStatement: requires a parse, for the same reason.
- Parsing.Parser.SkipToSemicolon: requires a later semicolon, for the same reason.
