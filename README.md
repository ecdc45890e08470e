# rlox front end and stack machine in Dafny

This project models the core of `rlox`, a small expression-language pipeline written in Rust:

- the character lexer (`src/lexer.rs`): a `Lexer` object whose cursor (`pos`, `row`, `col`) and
  token vector are updated in place by a left-to-right scan with one character of lookahead;
- the Pratt parser (`src/parser/parser.rs`, with the tree and error types of `src/parser/ast.rs`):
  precedence climbing over a fixed table of binding powers, a `let` statement layer and
  parenthesised sub-expressions, on a `Parser` object holding a cursor into the token vector;
- the stack machine (`interpret_chunk` and `interpret_binary_op` of `src/interpreter.rs`) that runs
  a `Chunk` of code words with an operand stack and an instruction index (`ip`);
- the instruction encoding (`src/compiler/op_code.rs`);
- the front end `Compiler::compile` (`src/compiler.rs`): lex, then parse the lexer's tokens,
  wrapping each stage's error.

Each stateful component is a class whose methods are proved equal to a reference definition made of
pure functions (`Lexer.ScanFrom`, `Parser.ExprAt` and its companions, `Interpreter.Run`); the
properties are then proved as lemmas about those functions.

Files:
`wrappers.dfy` (Option, Result), `lexer.dfy` (module `Lexer`), `syntax.dfy` (module `Syntax`: the
parser's token classes and `ast.rs`), `parser.dfy` (module `Parser`), `opcode.dfy` (module
`OpCodes`), `chunk.dfy` (module `Chunks`), `compiler.dfy` (module `Compiler`), `interpreter.dfy`
(module `Interpreter`).

The parser reads a classified token (`TokenClass`: delimiter, operator, atom, keyword) that
`src/lexer.rs` does not define; that lexer produces a flat `TokenType`. Module `Syntax` declares the
classified token, and `Compiler.ClassOf` maps each lexer token type onto its class. The map keeps
lexeme and position, and it is injective.

Behaviour of the code that the model keeps as written:

- **Numeric literals and columns.** `scan_num_lit` advances `pos` past a numeric literal but not
  `col`. Every token after a literal on the same line therefore reports a column that is too small.
  `Compiler.LexSum` shows this: the lexer reports the `;` of `1 + 2;` at column 3.
- **Top-level expressions.** A top-level expression stops before `;`, and `parse` then demands
  `EoF`. So `1 + 2;` is rejected with `ExpectedEoF` on the `;` (`Compiler.TrailingSemicolon`). The
  lexer never produces `let` or identifiers, so no input that contains `;` compiles
  (`Compiler.CompileAccepts`). The usual reading, in which `1 + 2 * 3;` evaluates to 7, is not what
  the code does; the model follows the code.
- **Grouping of chained operators.** The folding rule is "fold when the left binding power is at
  least the minimum", and the right operand is parsed at the right binding power. With left greater
  than right (star, slash, plus), chains of one operator group to the right: `a * b * c` is
  `a * (b * c)` and `a / b / c` is `a / (b / c)` (`Parser.ProductsAndQuotientsGroupRight`). A table
  with left greater than right conventionally means left associativity; with this fold rule these
  chains group to the right. The model follows the code.
- **Binary minus.** The pair (8.1, 11.0) for binary minus is preserved as written. `a - b - c` is
  `(a - b) - c`, and `a - b * c` is `(a - b) * c` (`Parser.MinusGroupsLeft`).
- **Variable instructions.** `interpret_chunk`'s instruction match has no arm for `SetVar` and
  `GetVar`. A run that reaches one ends in `Aborted(Unhandled(op))`.
- **Empty input.** The empty program reaches the `todo!()` of `parse_stmt` on the final `EoF`
  (`Compiler.EmptyInput`).

## Model

| member | source | states |
|---|---|---|
| Lexer.Lexer.constructor | src/lexer.rs:44-52 | a fresh lexer has no tokens and its cursor at position, row and column 0 |
| Lexer.Lexer.NewLine | src/lexer.rs:54-58 | `pos` and `row` go up by one, `col` goes back to 0, tokens unchanged |
| Lexer.Lexer.Advance | src/lexer.rs:60-63 | `pos` and `col` go up by the count; `row` and the tokens are unchanged |
| Lexer.Lexer.Peek | src/lexer.rs:65-75 | succeeds exactly when the cursor is inside the input, with the one character under it; otherwise `UnexpectedEndOfFile` |
| Lexer.Lexer.PeekAt | src/lexer.rs:77-87 | succeeds exactly when `at` is inside the input, with the one character there; otherwise `UnexpectedEndOfFile` at the cursor's row and column |
| Lexer.Lexer.PushToken | src/lexer.rs:99-108 | appends exactly one token with the cursor's row and column; earlier tokens and the cursor are unchanged |
| Lexer.Lexer.ScanDelimiter | src/lexer.rs:110-119 | `;`, `(` and `)` push one token of the matching type at the starting row and column, then advance `pos` and `col` by the lexeme's length; any other lexeme fails with `UnexpectedCharacter` and changes nothing |
| Lexer.Lexer.ScanBinaryOp | src/lexer.rs:121-131 | `+`, `-`, `/` and `*` push one token of the matching type at the starting row and column, then advance `pos` and `col`; any other lexeme fails and changes nothing |
| Lexer.Lexer.ScanNumLit | src/lexer.rs:133-164 | pushes the literal `input[pos..end]`, where `end` is where `NumLitEnd` stops, and moves `pos` to `end` with `row` and `col` unchanged; a second '.' fails with `InvalidNumericLit(".")` and changes nothing |
| Lexer.Lexer.Tokenize | src/lexer.rs:166-182 | the loop ends in exactly the state, and with exactly the error, that the reference scan `ScanFrom` gives from the lexer's starting state |
| Lexer.NumLitEnd | src/lexer.rs:137-156 | the end of the literal is never before its start and never past the input, and the character at the end is not a digit or '.' |
| Lexer.Step | src/lexer.rs:167-176 | every successful iteration of the `tokenize` loop strictly increases `pos`, so the scan terminates |
| Lexer.RunEnd | src/lexer.rs:137-140 | the maximal run of digits and dots that starts at `k`: every character before the end is a digit or '.', and the character at the end, if any, is not |
| Lexer.NumLitEndIsRunEnd | src/lexer.rs:133-156 | `scan_num_lit` stops exactly at the end of the maximal run of digits and dots, and fails exactly when that run holds more than one '.' |
| Lexer.NumLitLexeme | src/lexer.rs:158-160 | the lexeme pushed for a literal is a digit followed by digits and dots, with at most one dot |
| Lexer.StepEmits | src/lexer.rs:170-174 | one successful iteration pushes at most one token, never `EoF`, keeps the earlier tokens, pushes a lexeme equal to the text it passed over without blanks, and counts newlines into `row` |
| Lexer.ScanKeepsTokens | src/lexer.rs:99-108 | tokens already pushed are never modified, whatever the outcome of the scan |
| Lexer.ScanEndsWithEoF | src/lexer.rs:177-181 | a successful scan reaches the end of the input, and exactly the last token it pushes is `EoF`, with an empty lexeme, at the final row and column |
| Lexer.ScanWellFormed | src/lexer.rs:167-176 | every token a successful scan pushes agrees with its type, and every character it passes over is lexable |
| Lexer.ScanLexemes | src/lexer.rs:167-179 | the lexemes a successful scan pushes, put together, are the rest of the input without spaces and newlines; the final row is the starting row plus the newlines passed over |
| Lexer.Lexer.UnexpectedCharError | src/lexer.rs:89-97 | the error for a character no rule accepts, at the cursor's row and column; `Lexer.StepFails` proves it is returned exactly when no rule accepts the character, carrying that character and the cursor's row and column |
| Lexer.StepFails | src/lexer.rs:172-175 | an iteration fails with `UnexpectedCharacter` exactly when no rule accepts the character (carrying it), and with `InvalidNumericLit` only when the literal's run holds two dots; both carry the cursor's row and column, never `UnexpectedEndOfFile` |
| Lexer.ScanStopsAtFirstError | src/lexer.rs:167-177 | a failing scan stops at the first iteration that fails, with the cursor on the character where that iteration began |
| Lexer.ScanBeforeError | src/lexer.rs:167-177 | when a scan fails, the tokens for all text before the failing character are already pushed, and their lexemes are that text without blanks |
| Lexer.LexSucceeds | src/lexer.rs:166-181 | on success a fresh lexer ends with exactly one `EoF` token, last, with an empty lexeme and the row count of the input; every token agrees with its type; the lexemes put together give the input without spaces and newlines |
| Lexer.LexFails | src/lexer.rs:166-176 | a fresh lexer fails only on a character that no rule accepts and that occurs in the input, or with `InvalidNumericLit(".")` on input containing '.'; never with `UnexpectedEndOfFile` |
| Lexer.ScanWithoutDotsSucceeds | src/lexer.rs:167-176 | a scan over blanks, digits, delimiters and operators only never fails |
| Lexer.LexWithoutDotsSucceeds | src/lexer.rs:166-181 | every input made of blanks, digits, delimiters and operators lexes |
| Parser.InfixBp | src/parser/parser.rs:8-16 | exactly `*`, `/`, `-` and `+` have binding powers, scaled by ten; the right binding power of `-`, 110, is the largest of all |
| Parser.Parser.constructor | src/parser/parser.rs:24-26 | a fresh parser holds the token vector with its cursor at 0 |
| Parser.Parser.Peek | src/parser/parser.rs:29-34 | the token under the cursor exactly when there is one, otherwise `UnexpectedEndOfTokenStream` |
| Parser.Parser.Consume | src/parser/parser.rs:36-40 | returns the token under the cursor and moves the cursor by exactly one; at the end it fails with `UnexpectedEndOfTokenStream` and does not move |
| Parser.Parser.ConsumeExpecting | src/parser/parser.rs:42-51 | consumes like `consume`, and succeeds exactly when the token has the expected class; otherwise fails with `UnexpectedToken` carrying the token and `Some(expected)` |
| Parser.Parser.Recover | src/parser/parser.rs:53-61 | moves the cursor to the first token of the given class at or after it, without consuming it, or to the end; it never passes such a token |
| Parser.Parser.Parse | src/parser/parser.rs:64-71 | result and final cursor are those of the reference `ProgramAt` |
| Parser.Parser.ParseTokens | src/parser/parser.rs:73-79 | result and final cursor are those of `TokensAt`: an expression when the first token is an atom or operator, else a statement |
| Parser.Parser.ParseStmt | src/parser/parser.rs:82-90 | result and final cursor are those of `StmtAt` |
| Parser.Parser.ParseVariableAssignmentStmt | src/parser/parser.rs:92-100 | result and final cursor are those of `AssignmentAt` |
| Parser.Parser.ParseExpr | src/parser/parser.rs:103-162 | the primary and the binary-operator loop give the result and final cursor of `ExprAt` |
| Parser.Parser.ParseNumericLit | src/parser/parser.rs:164-169 | never fails; the leaf spans exactly its one token, and for a numeric-literal token it is well bound at every minimum binding power |
| Parser.Parser.ParseIdentifier | src/parser/parser.rs:171-176 | never fails; the leaf spans exactly its one token, and for an identifier token it is well bound at every minimum binding power |
| Parser.Parser.ParseUnaryExpr | src/parser/parser.rs:178-194 | result and final cursor are those of `UnaryAt` |
| Parser.Parser.ParseNestedExpr | src/parser/parser.rs:196-209 | result and final cursor are those of `NestedAt` |
| Parser.ExprAt | src/parser/parser.rs:103-104 | every successful `parse_expr` consumes at least one token, which makes the recursion terminate; the cursor never passes the end |
| Parser.ExprWellBound | src/parser/parser.rs:127-159 | every tree `parse_expr(m)` builds is well bound at `m`: each operator binds at least `m` to the left, and right operands were parsed at their operator's right binding power; parsing stops before a terminator, an operator without binding powers (`)`, `=`) or an operator binding less than `m` |
| Parser.InfixWellBound | src/parser/parser.rs:127-159 | the binary loop keeps the tree well bound, and stops only before a delimiter, an operator without binding powers (`)`, `=`) or an operator binding less than the minimum |
| Parser.UnaryWellBound | src/parser/parser.rs:178-194 | unary minus parses its operand at 110, so the operand is never a binary expression |
| Parser.NestedWellBound | src/parser/parser.rs:196-209 | a parenthesis holds a tree well bound at 0 |
| Parser.ExprYield | src/parser/parser.rs:103-162 | a parsed expression spans exactly the tokens it consumed, class by class, in order |
| Parser.InfixYield | src/parser/parser.rs:151-158 | each fold puts left operand, operator and right operand side by side in token order |
| Parser.UnaryYield | src/parser/parser.rs:178-194 | a unary expression spans its `-` and its operand |
| Parser.NestedYield | src/parser/parser.rs:196-209 | a parenthesised expression spans `(`, its contents and `)` |
| Parser.ExpressionYield | src/parser/parser.rs:103-162 | an expression tree contains only operands and operators, never a delimiter or keyword |
| Parser.ExprErrors | src/parser/parser.rs:103-162 | `parse_expr` fails only with `UnexpectedUnaryOperator` on an operator other than `-` and `(`, `UnexpectedToken(_, None)` on a delimiter or keyword, `ExpectedOpToken` on an operand or keyword, `UnclosedExpression` on a `(`, or `UnexpectedEndOfTokenStream`; each error carries a token of the input |
| Parser.LeadingOperatorRejected | src/parser/parser.rs:113-117 | a leading operator other than `-` and `(` always fails with `UnexpectedUnaryOperator` on that token, after consuming it |
| Parser.LeadingTokenRejected | src/parser/parser.rs:119-124 | a leading delimiter or keyword always fails with `UnexpectedToken(token, None)`, after consuming it |
| Parser.OperandAfterOperand | src/parser/parser.rs:136-140 | wherever the loop meets an operand or keyword it fails with `ExpectedOpToken` on that token, without consuming it |
| Parser.AdjacentOperandRejected | src/parser/parser.rs:104-140 | an operand followed directly by an operand or keyword fails with `ExpectedOpToken` on the second one |
| Parser.UnclosedRejected | src/parser/parser.rs:196-209 | a `(` whose contents parse but are followed by something other than `)` always fails with `UnclosedExpression` on the `(` |
| Parser.EndRejected | src/parser/parser.rs:104-128 | both the primary and the loop fail with `UnexpectedEndOfTokenStream` when no token is left |
| Parser.InfixErrors | src/parser/parser.rs:135-140 | the binary loop fails only with the errors above |
| Parser.UnaryErrors | src/parser/parser.rs:189 | a unary expression fails only with the errors above |
| Parser.NestedErrors | src/parser/parser.rs:196-209 | a parenthesis fails only with the errors above; a missing `)` gives `UnclosedExpression` with the opening `(` |
| Parser.AssignmentShape | src/parser/parser.rs:92-100 | an assignment is an identifier, `=` and a well-bound expression; the node records the identifier token and its lexeme |
| Parser.StmtShape | src/parser/parser.rs:82-100 | a statement is `let`, identifier, `=`, expression and `;`, in that order; the node's identifier is the identifier token's lexeme |
| Parser.StmtErrors | src/parser/parser.rs:82-100 | a statement fails with an expression error, with `NotImplemented` on a first token other than `let`, or with `UnexpectedToken` where the identifier, `=` or `;` was due |
| Parser.ParseAccepts | src/parser/parser.rs:64-79 | a successful parse ends on an `EoF`; a program starting with an operand or operator is one well-bound expression over operands and operators only; any other is one `let` statement |
| Parser.ExpressionProgram | src/parser/parser.rs:64-76 | the expression half of `ParseAccepts` |
| Parser.StatementProgram | src/parser/parser.rs:64-77 | the statement half of `ParseAccepts`: the first token is `let` |
| Parser.ExpressionOnly | src/parser/parser.rs:64-79 | on tokens without keywords and with `EoF` only last, a successful parse is one well-bound expression spanning every token but the last |
| Parser.ParseRejects | src/parser/parser.rs:64-71 | a failing parse fails with a statement or expression error, or with `ExpectedEoF` on a token of the input that is not `EoF` |
| Parser.TwoOperators | src/parser/parser.rs:143-158 | in `a o1 b o2 c`, `o2` goes into the right operand of `o1` exactly when its left binding power reaches `o1`'s right binding power; otherwise the tree groups to the left |
| Parser.ProductInsideSum | src/parser/parser.rs:8-16 | `1 + 2 * 3` groups as `1 + (2 * 3)` |
| Parser.ProductsAndQuotientsGroupRight | src/parser/parser.rs:10-11 | `a * b * c` groups as `a * (b * c)`, and `a / b / c` as `a / (b / c)` |
| Parser.MinusGroupsLeft | src/parser/parser.rs:12 | `a - b - c` groups as `(a - b) - c`, and `a - b * c` as `(a - b) * c` |
| Parser.UnaryBindsTightest | src/parser/parser.rs:188-189 | `-a o b` groups as `(-a) o b` for every infix operator |
| Parser.LetStatement | src/parser/parser.rs:92-100 | `let x = a;` is an assignment named by the identifier's lexeme |
| Parser.TrailingSemicolonRejected | src/parser/parser.rs:130-134 | `a o b;` is rejected with `ExpectedEoF` on the `;` |
| Parser.MissingOperand | src/parser/parser.rs:119-124 | `a o;` fails at the `;` with `UnexpectedToken(;, None)` |
| Parser.UnclosedParenthesis | src/parser/parser.rs:205-207 | `(a o b;` fails with `UnclosedExpression` carrying the `(` |
| Parser.AdjacentOperands | src/parser/parser.rs:136-140 | an operand directly after an operand fails with `ExpectedOpToken` on it |
| OpCodes.ToUsize | src/compiler/op_code.rs:29-32 | every instruction's word lies in 0..7 and `from_usize` decodes it back to the instruction |
| OpCodes.FromUsize | src/compiler/op_code.rs:15-27 | a word decodes to no instruction exactly when it is above 7 |
| OpCodes.DecodeEncode | src/compiler/op_code.rs:15-32 | decoding a word and encoding the result gives the word back |
| OpCodes.ToUsizeInjective | src/compiler/op_code.rs:1-12 | distinct instructions have distinct words |
| Compiler.ClassOfInjective | src/compiler.rs:29 | the map from lexer token types to parser classes is injective, so the parser sees every distinction the lexer made |
| Compiler.BridgeInjective | src/compiler.rs:29 | the parser's view of a token loses nothing: distinct lexer tokens are distinct parser tokens |
| Compiler.BridgeAll | src/compiler.rs:29 | the parser reads exactly the lexer's token vector, token by token |
| Compiler.Compile | src/compiler.rs:22-36 | `compile`: lex, then parse the lexer's tokens, wrapping each stage's error; what it promises is proved in `Compiler.CompileErrors` (the error paths) and `Compiler.CompileAccepts` (what compiles) |
| Compiler.CompileErrors | src/compiler.rs:22-36 | a lexer error `e` is returned as `LexerFailure(e)` without parsing; otherwise the parser runs on exactly the lexer's tokens; its error comes back as `ParserFailure(e)` and its tree unchanged |
| Compiler.BridgedClasses | src/compiler.rs:29 | the parser sees no keyword among the lexer's tokens, and `EoF` exactly where the lexer put one |
| Compiler.NoSemicolonInLexemes | src/lexer.rs:110-164 | a lexeme of a token other than `;` contains no ';' |
| Compiler.ParseLexed | src/compiler.rs:29-34 | on a token vector with `EoF` only last, a successful parse is one well-bound expression whose tokens are, class for class, all the tokens before the `EoF` |
| Compiler.ExpressionHasNoSemicolon | src/parser/parser.rs:130-134 | an expression's tokens are never `;` |
| Compiler.CompileAccepts | src/compiler.rs:22-36 | whatever compiles is one well-bound expression over all the lexer's tokens before `EoF`, and its input contains no ';' |
| Compiler.EmptyInput | src/parser/parser.rs:82-86 | the empty input reaches `todo!()` on the final `EoF` at row 0, column 0 |
| Compiler.LexSum | src/lexer.rs:158-161 | `1 + 2;` lexes to five tokens; the `;` is at column 3, the column of the `2`, and the `EoF` at column 4; both are two short, because the column is not advanced past a literal |
| Compiler.RejectedAtSemicolon | src/parser/parser.rs:64-71 | an input lexed as operand, operator, operand, `;`, `EoF` does not compile: `ExpectedEoF` on the `;` |
| Compiler.TrailingSemicolon | src/compiler.rs:22-36 | `compile("1 + 2;")` fails with `ExpectedEoF` on the `;` at row 0, column 3 |
| Interpreter.Quotient | src/interpreter.rs:94 | left / right is the number that, multiplied by a non-zero right operand, gives the left operand back |
| Interpreter.Arith | src/interpreter.rs:91-100 | exactly Add, Subtract, Multiply and Divide have an arithmetic result |
| Interpreter.StepAt | src/interpreter.rs:50-77 | an iteration that goes on moves `ip` forward, pops the instruction's operands and pushes one value, with the stack below untouched; one that stops fails with `ExpectedOperand` or with `InvalidOpCode` on the word (above 7), or aborts |
| Interpreter.Interpreter.constructor | src/interpreter.rs:30-35 | a fresh interpreter has an empty stack and `ip` 0 |
| Interpreter.Interpreter.Pop | src/interpreter.rs:89 | `Vec::pop`: the top value, which is removed, or None on an empty stack |
| Interpreter.Interpreter.InterpretChunk | src/interpreter.rs:47-85 | starting from an empty stack and `ip` 0, the loop returns exactly the outcome `Run(chunk, [], 0)` of the reference machine; a value is returned only once the code is exhausted, with that value the one item left on the stack |
| Interpreter.Interpreter.InterpretBinaryOp | src/interpreter.rs:87-108 | pops right then left; with fewer than two operands fails with `ExpectedOperand`, with a non-arithmetic instruction with `InvalidBinaryOperator`, otherwise pushes `left op right` on the stack below and moves `ip` by one |
| Interpreter.StepFollowsDepth | src/interpreter.rs:50-77 | every iteration keeps the stack-height account `Depth` unchanged, and an iteration that stops is one `Depth` rejects |
| Interpreter.NegateFollowsDepth | src/interpreter.rs:67-73 | `Negate` keeps the stack height |
| Interpreter.ArithFollowsDepth | src/interpreter.rs:74-76 | an arithmetic instruction lowers the stack height by one |
| Interpreter.RunFollowsDepth | src/interpreter.rs:79-84 | a run returns a value exactly when the code leaves one value on the stack, fails with `IncompleteExpression` exactly when it leaves several, and reaches `stack[0]` on an empty stack exactly when it leaves none |
| Interpreter.RunFailures | src/interpreter.rs:47-85 | a run fails only with runtime errors, never `InvalidBinaryOperator`, and an invalid word it reports is above 7 and occurs in the code |
| Interpreter.RunStep | src/interpreter.rs:50 | an iteration that goes on hands the rest of the run its stack and `ip` |
| Interpreter.RunConstant | src/interpreter.rs:61-66 | `Constant` pushes `constants[code[ip + 1]]` on the unchanged stack and moves `ip` by 2 |
| Interpreter.RunEnd | src/interpreter.rs:79-84 | when the code is exhausted the run ends by the residue check |
| Interpreter.RunNegate | src/interpreter.rs:67-73 | `Negate` replaces the top of the stack by its negation and moves `ip` by 1 |
| Interpreter.RunArith | src/interpreter.rs:87-107 | an arithmetic instruction replaces the top two values `left, right` by `left op right`, keeps the stack below and moves `ip` by 1 |
| Interpreter.OperandOrder | src/interpreter.rs:88-95 | two constants `a`, `b` and an arithmetic instruction compute `a op b`: Subtract gives `a - b` and Divide `a / b` |
| Interpreter.SumOfProduct | src/interpreter.rs:47-85 | the postfix code of `1 + 2 * 3` computes 7 |
| Interpreter.NegatedDifference | src/interpreter.rs:67-73 | the code of `-(3 - 1)` computes -2 |
| Interpreter.RuntimeFailures | src/interpreter.rs:51-68 | the word 9 fails with `InvalidOpCode(9)`; `Negate` on an empty stack and `Add` on one value fail with `ExpectedOperand` |
| Interpreter.FinishFailures | src/interpreter.rs:79-84 | code leaving two values fails with `IncompleteExpression`; empty code reaches `stack[0]` on an empty stack |
| Interpreter.Aborts | src/interpreter.rs:60-66 | a `Constant` without an index word or with an index past the pool, and `SetVar` and `GetVar`, abort the run |

## Left out

- `src/repl.rs` and `src/main.rs` (the read-print loop, prompt and exit commands) are not part of this model: they are terminal I/O.
- `Interpreter::interpret` and `Evaluator::eval` are left out. `interpret` passes the tree that `compile` returns where a `Chunk` is expected, so that code does not type-check, and `eval` only formats text. The model runs `interpret_chunk` on a given chunk instead.
- There is no bytecode emitter from tree to chunk in the code, so none is modelled. Nothing connects `Compiler.Compile` to `Interpreter.Run`.
- Floating point is not modelled. Machine values are mathematical reals. The source's `f64` arithmetic, negation and rounding are not modelled, and neither is its division by zero. `Interpreter.Quotient` takes `x / 0` to be 0 where IEEE arithmetic gives an infinity or NaN.
- `Value` (`OpCodes.Value`) is declared but unused. The source's machine does arithmetic on `Value` as if it were a number, so the model's stack and constant pool hold numbers only.
- Numeric literal values are not parsed. `AstNode.NumericLit` keeps the lexeme text instead of the `f64` that `parse().unwrap()` produces.
- The `f32` binding powers are scaled by ten to naturals. They are only ever compared, so the order is preserved.
- Panics are not modelled as panics.
  - `parse_stmt` reaches `todo!()` on a first token other than `let`. The model returns the extra error `NotImplemented(token)` there.
  - `interpret_chunk` indexes out of bounds when the constant index or the constant is missing, and when `stack[0]` is read on an empty stack. The model ends the run in `Aborted(...)` with the reason.
- `Parser.Parser.ParseUnaryExpr`: the source calls `infix_bp(op).unwrap()`, which panics for an operator without binding powers. The model's precondition rules that operator out instead. The parser calls it only with `-`.
- `SetVar` and `GetVar` execution and a variable environment are not modelled: the code has no match arm for them.
- Error-recovery parsing with error nodes is not modelled: the code fails on the first error. Its `recover` method is modelled on its own.
- The input is a sequence of ASCII characters. The UTF-8 byte-boundary behaviour of `input.get(pos..pos + 1)` on multi-byte characters is not modelled.
- `Chunk::new`, `Vec::with_capacity(1024)` and other allocation details carry no behaviour and are not modelled beyond `Chunks.EmptyChunk`.
