/** What the V1 grammar builds for statements: expression statements end
    with `;`, and a block collects statements up to `}`. */
module V1StmtFacts {
  import opened TokenKinds
  import opened AstV1
  import opened V1Grammar
  import opened V1Facts

  /** A lone identifier is the whole expression. */
  lemma IdentifierExpression(ts: seq<Token>, j: nat)
    requires j < |ts| && Check(ts, j, Identifier) && EndsComparison(ts, j + 1) && !Check(ts, j + 1, OpAssign)
    ensures ExpressionAt(ts, j) == Done(IdentifierExpr(ts[j].lexeme), j + 1)
  {
    IdentifierComparison(ts, j);
    AssignmentStop(ts, j, IdentifierExpr(ts[j].lexeme), j + 1);
  }

  /** An expression followed by `;` or by anything else. */
  lemma ExprStmtUnfold(ts: seq<Token>, j: nat, e: Expr, k: nat)
    requires |ts| > 0 && j <= |ts| && ExpressionAt(ts, j) == Done(e, k)
    ensures Check(ts, k, DelimSemicolon) ==> ExprStmtAt(ts, j) == Done(ExprStmt(e), k + 1)
    ensures !Check(ts, k, DelimSemicolon) ==> ExprStmtAt(ts, j) == Failed(ConsumeFailed(ExprSemi, Peek(ts, k)))
  {
  }

  /** `x ;` read by `parseExprStmt`. */
  lemma IdentifierExprStmt(ts: seq<Token>, j: nat)
    requires j + 2 <= |ts| && ts[j].kind == Identifier && ts[j + 1].kind == DelimSemicolon
    ensures ExprStmtAt(ts, j) == Done(ExprStmt(IdentifierExpr(ts[j].lexeme)), j + 2)
  {
    IdentifierExpression(ts, j);
    ExprStmtUnfold(ts, j, IdentifierExpr(ts[j].lexeme), j + 1);
  }

  /** `x ;` is an expression statement. */
  lemma ExpressionStatement(ts: seq<Token>, j: nat)
    requires j + 2 <= |ts| && ts[j].kind == Identifier && ts[j + 1].kind == DelimSemicolon
    ensures StatementAt(ts, j) == Done(ExprStmt(IdentifierExpr(ts[j].lexeme)), j + 2)
  {
    assert !Check(ts, j, KwWhile) && !Check(ts, j, DelimLbrace);
    IdentifierExprStmt(ts, j);
  }

  /** `x }`: the statement lacks its `;`, and the error names the `}`. */
  lemma MissingSemicolon(ts: seq<Token>, j: nat)
    requires j + 2 <= |ts| && ts[j].kind == Identifier && ts[j + 1].kind == DelimRbrace
    ensures ExprStmtAt(ts, j) == Failed(ConsumeFailed(ExprSemi, ts[j + 1]))
  {
    IdentifierExpression(ts, j);
    ExprStmtUnfold(ts, j, IdentifierExpr(ts[j].lexeme), j + 1);
  }

  /** `{ x ; }` is a block of one expression statement. */
  lemma OneStatementBlock(ts: seq<Token>, j: nat)
    requires j + 4 <= |ts| && ts[j].kind == DelimLbrace && ts[j + 1].kind == Identifier
    requires ts[j + 2].kind == DelimSemicolon && ts[j + 3].kind == DelimRbrace
    ensures StatementAt(ts, j) == Done(Block([ExprStmt(IdentifierExpr(ts[j + 1].lexeme))]), j + 4)
  {
    var s := ExprStmt(IdentifierExpr(ts[j + 1].lexeme));
    ExpressionStatement(ts, j + 1);
    assert [] + [s] == [s];
    assert StmtsLoop(ts, [s], j + 3) == Done([s], j + 3);
    assert StmtsLoop(ts, [], j + 1) == Done([s], j + 3);
    assert BlockAt(ts, j) == Done(Block([s]), j + 4);
  }

  /** `{ }` as a statement. */
  lemma EmptyBlockStatement(ts: seq<Token>, j: nat)
    requires j + 2 <= |ts| && ts[j].kind == DelimLbrace && ts[j + 1].kind == DelimRbrace
    ensures StatementAt(ts, j) == Done(Block([]), j + 2)
  {
    assert StmtsLoop(ts, [], j + 1) == Done([], j + 1);
    assert BlockAt(ts, j) == Done(Block([]), j + 2);
  }
}
