/**
 * The tokens the parser consumes and the tree it builds (src/parser/ast.rs).
 *
 * The parser imports a classified token (`TokenClass`: delimiter, operator, atom or keyword) from a
 * lexer revision that src/lexer.rs does not contain; it is declared here, with the same row/column
 * metadata as the lexer's tokens. The module `Compiler` maps the tokens of src/lexer.rs onto it.
 */
module Syntax {
  import opened Wrappers
  import Lexer

  datatype DelimToken = Semicolon | EoF

  datatype OpToken = LeftParen | RightParen | Plus | Min | Slash | Star | Eq

  datatype AtomToken = NumericLit | Identifier

  datatype KeywordToken = Let

  datatype TokenClass =
    | Delim(delim: DelimToken)
    | Op(op: OpToken)
    | Atom(atom: AtomToken)
    | Keyword(keyword: KeywordToken)

  datatype Token = Token(tokenClass: TokenClass, lexeme: string, meta: Lexer.TokenMeta)

  /**
   * The parser's errors. `NotImplemented` is not in the source's enum: it stands for the `todo!()`
   * that `parse_stmt` reaches on a statement other than `let`, which aborts the program there.
   */
  datatype ParserError =
    | UnexpectedEndOfTokenStream
    | ExpectedEoF(token: Token)
    | ExpectedExpression(token: Token)
    | ExpectedOpToken(token: Token)
    | UnclosedExpression(token: Token)
    | UnexpectedToken(token: Token, expected: Option<TokenClass>)
    | UnexpectedUnaryOperator(token: Token)
    | UnhandledToken(token: Token)
    | NotImplemented(token: Token)

  /**
   * The syntax tree. A numeric literal keeps the text of its lexeme as its value: the conversion to
   * a 64-bit float is not modelled.
   */
  datatype AstNode =
    | Empty
    | Stmt(token: Token, statement: AstNode)
    | VariableAssignmentStmt(token: Token, identifier: string, expression: AstNode)
    | Expr(token: Token, expr: AstNode)
    | BinaryExpr(token: Token, left: AstNode, right: AstNode)
    | UnaryExpr(token: Token, operand: AstNode)
    | NumericLit(token: Token, value: string)
    | VariableAccessExpr(token: Token, identifier: string)
}
