/** The syntax tree of NexusCompilerV2/src/AST/AST.h, built by both `TOK_*`
    parsers. Identifiers and literals keep the token they were read from. */
module Ast {
  import opened Wrappers
  import opened TokKinds

  datatype Expr =
    | Assignment(target: Token, value: Expr)
    | Increment(target: Token)
    | IdentExpr(name: Token)
    | IntLitExpr(lit: Token)
    | StrLitExpr(lit: Token)
    | CallExpr(callee: Token, arguments: seq<Expr>)
    | AssignExpr(target: Token, value: Expr)

  /** A `VarDecl` initializer and an `ExprStmt` expression are pointers that
      the printers allow to be null; `Return` holds an optional value. */
  datatype Stmt =
    | VarDecl(typ: Token, name: Token, initializer: Option<Expr>)
    | Return(value: Option<Expr>)
    | ExprStmt(expr: Option<Expr>)

  datatype Block = Block(statements: seq<Stmt>)

  datatype Parameter = Parameter(typ: Token, name: Token)

  /** The body is null for functions the V2 parser builds. */
  datatype Function = Function(name: Token, params: seq<Parameter>, body: Option<Block>)

  datatype Program = Program(functions: seq<Function>)
}
