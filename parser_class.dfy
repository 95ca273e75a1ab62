/** The `Parser` object of NexusCompiler/src/Parser/Parser.cpp: its cursor
    moves as the productions consume tokens, thrown `ParseError`s are `Err`
    results, and the `functions`, `statements`, `arguments` and `params`
    vectors are built by loops. Every method is proved to compute what the
    production function of `RecoveringParser` gives from the index it
    started at, and to leave the cursor where that function stops. */
module NexusParser {
  import opened Wrappers
  import opened TokKinds
  import opened Ast
  import opened ParseCursor
  import opened RecoveringParser
  import opened TokenCursor
  import opened SeqFacts

  /** One round of the statement loop of `parseBlock`, and its exit. */
  lemma StmtsRoundAt(ts: seq<Token>, i: nat, fix: bool)
    requires i <= |ts| && SafeEnd(ts)
    ensures Check(ts, i, RBrace) || IsAtEnd(ts, i) ==> StmtsFrom(ts, i, fix) == ([], i)
    ensures !Check(ts, i, RBrace) && !IsAtEnd(ts, i) ==> LookaheadSafe(ts, i)
    ensures !Check(ts, i, RBrace) && !IsAtEnd(ts, i) && StatementAt(ts, i, fix).Accept? ==>
      var (s, j) := (StatementAt(ts, i, fix).value, StatementAt(ts, i, fix).next);
      StmtsFrom(ts, i, fix) == ([s] + StmtsFrom(ts, j, fix).0, StmtsFrom(ts, j, fix).1)
    ensures !Check(ts, i, RBrace) && !IsAtEnd(ts, i) && StatementAt(ts, i, fix).Reject? ==>
      var at := StatementAt(ts, i, fix).at;
      i < SyncFrom(ts, at) && StmtsFrom(ts, i, fix) == StmtsFrom(ts, SyncFrom(ts, at), fix)
  {
    if !Check(ts, i, RBrace) && !IsAtEnd(ts, i) && StatementAt(ts, i, fix).Reject? {
      RecoveryAdvances(ts, i, StatementAt(ts, i, fix).at);
    }
  }

  /** One round of the loop of `parse`, and its exit. */
  lemma FunctionsRoundAt(ts: seq<Token>, i: nat, fix: bool)
    requires i <= |ts| && SafeEnd(ts)
    ensures IsAtEnd(ts, i) ==> FunctionsFrom(ts, i, fix) == []
    ensures !IsAtEnd(ts, i) && FunctionDeclAt(ts, i, fix).Accept? ==>
      var (f, j) := (FunctionDeclAt(ts, i, fix).value, FunctionDeclAt(ts, i, fix).next);
      FunctionsFrom(ts, i, fix) == [f] + FunctionsFrom(ts, j, fix)
    ensures !IsAtEnd(ts, i) && FunctionDeclAt(ts, i, fix).Reject? ==>
      var at := FunctionDeclAt(ts, i, fix).at;
      i < SyncFrom(ts, at) && FunctionsFrom(ts, i, fix) == FunctionsFrom(ts, SyncFrom(ts, at), fix)
  {
    if !IsAtEnd(ts, i) && FunctionDeclAt(ts, i, fix).Reject? {
      RecoveryAdvances(ts, i, FunctionDeclAt(ts, i, fix).at);
    }
  }

  class Parser {
    const cursor: Cursor
    /** How `parseExpression` treats `x = e`; `false` is the code as written. */
    const fix: bool

    constructor(tokens: seq<Token>, fix: bool)
      ensures fresh(cursor) && cursor.tokens == tokens && cursor.currentIndex == 0 && cursor.Valid()
      ensures this.fix == fix
    {
      cursor := new Cursor(tokens);
      this.fix := fix;
    }

    /** `parsePrimary`; the argument loop of a call is `ParseArguments`. */
    method ParsePrimary() returns (r: Result<Expr, ParseError>)
      requires cursor.Valid()
      modifies cursor
      ensures cursor.Valid()
      ensures Outcome(r, cursor.currentIndex) == PrimaryAt(cursor.tokens, old(cursor.currentIndex), fix)
      decreases |cursor.tokens| - cursor.currentIndex, 1
    {
      var tok := cursor.Consume();
      match tok.kind
      case Int => return Ok(IntLitExpr(tok));
      case String => return Ok(StrLitExpr(tok));
      case Identifier =>
        var call := cursor.Match(LParen);
        if !call {
          return Ok(IdentExpr(tok));
        }
        var empty := cursor.Match(RParen);
        if empty {
          return Ok(CallExpr(tok, []));
        }
        var args := ParseArguments();
        if args.Err? {
          return Err(args.error);
        }
        var rp :- cursor.Expect(RParen, Some(CallClose));
        return Ok(CallExpr(tok, args.value));
      case _ => return Err(ParseError(tok.line, tok.column, ExpectedExpression(tok)));
    }

    /** The `do … while (match(TOK_COMMA))` loop of a call's arguments. */
    method ParseArguments() returns (r: Result<seq<Expr>, ParseError>)
      requires cursor.Valid()
      modifies cursor
      ensures cursor.Valid()
      ensures Outcome(r, cursor.currentIndex) == ArgsAt(cursor.tokens, old(cursor.currentIndex), fix)
      decreases |cursor.tokens| - cursor.currentIndex, 3
    {
      var arguments := [];
      ghost var start := cursor.currentIndex;
      PrependNothing(ArgsAt(cursor.tokens, start, fix));
      while true
        invariant cursor.Valid() && start <= cursor.currentIndex
        invariant Prepend(arguments, ArgsAt(cursor.tokens, cursor.currentIndex, fix)) == ArgsAt(cursor.tokens, start, fix)
        decreases |cursor.tokens| - cursor.currentIndex
      {
        var e := ParseExpression();
        if e.Err? {
          return Err(e.error);
        }
        var more := cursor.Match(Comma);
        if !more {
          return Ok(arguments + [e.value]);
        }
        PrependTwice(arguments, [e.value], ArgsAt(cursor.tokens, cursor.currentIndex, fix));
        arguments := arguments + [e.value];
      }
    }

    /** `parseExpression`. */
    method ParseExpression() returns (r: Result<Expr, ParseError>)
      requires cursor.Valid()
      modifies cursor
      ensures cursor.Valid()
      ensures Outcome(r, cursor.currentIndex) == ExpressionAt(cursor.tokens, old(cursor.currentIndex), fix)
      decreases |cursor.tokens| - cursor.currentIndex, 2
    {
      var expr := ParsePrimary();
      if expr.Err? {
        return expr;
      }
      var inc := cursor.Match(TokKind.Increment);
      if inc {
        if expr.value.IdentExpr? {
          return Ok(Expr.Increment(expr.value.name));
        }
        return Err(ErrAt(cursor.tokens, cursor.currentIndex, IncrementTarget));
      }
      var assign := cursor.Match(Assign);
      if assign {
        var value := ParseExpression();
        if value.Err? {
          return value;
        }
        if expr.value.IdentExpr? {
          if fix {
            return Ok(Assignment(expr.value.name, value.value));
          }
          r := ParseAssignment();
          return;
        }
        return Err(ErrAt(cursor.tokens, cursor.currentIndex, AssignTarget));
      }
      return expr;
    }

    /** `parseAssignment`. */
    method ParseAssignment() returns (r: Result<Expr, ParseError>)
      requires cursor.Valid()
      modifies cursor
      ensures cursor.Valid()
      ensures Outcome(r, cursor.currentIndex) == AssignmentAt(cursor.tokens, old(cursor.currentIndex), fix)
      decreases |cursor.tokens| - cursor.currentIndex, 2
    {
      var expr := ParsePrimary();
      if expr.Err? {
        return expr;
      }
      var assign := cursor.Match(Assign);
      if assign {
        var value := ParseAssignment();
        if value.Err? {
          return value;
        }
        if expr.value.IdentExpr? {
          return Ok(AssignExpr(expr.value.name, value.value));
        }
        return Err(ErrAt(cursor.tokens, cursor.currentIndex, AssignExprTarget));
      }
      return expr;
    }
  
    /** `parseReturnStatement`, entered after `return` was matched. */
    method ParseReturnStatement() returns (r: Result<Stmt, ParseError>)
      requires cursor.Valid()
      modifies cursor
      ensures cursor.Valid()
      ensures Outcome(r, cursor.currentIndex) == ReturnAt(cursor.tokens, old(cursor.currentIndex), fix)
    {
      var semi := cursor.Match(Semi);
      if semi {
        return Ok(Stmt.Return(None));
      }
      var value :- ParseExpression();
      var _ :- cursor.Expect(Semi, Some(ReturnSemi));
      return Ok(Stmt.Return(Some(value)));
    }

    /** `parseVarDeclStatement`. */
    method ParseVarDeclStatement() returns (r: Result<Stmt, ParseError>)
      requires cursor.Valid()
      modifies cursor
      ensures cursor.Valid()
      ensures Outcome(r, cursor.currentIndex) == VarDeclAt(cursor.tokens, old(cursor.currentIndex), fix)
    {
      var typeTok :- cursor.Expect(Identifier, Some(DeclType));
      var nameTok :- cursor.Expect(Identifier, Some(DeclName));
      var _ :- cursor.Expect(Assign, Some(DeclAssign));
      var init :- ParseExpression();
      var _ :- cursor.Expect(Semi, Some(DeclSemi));
      return Ok(VarDecl(typeTok, nameTok, Some(init)));
    }

    /** `parseStatement`; the look-ahead `tokens[currentIndex + 1]` must be
        in range. */
    method ParseStatement() returns (r: Result<Stmt, ParseError>)
      requires cursor.Valid() && LookaheadSafe(cursor.tokens, cursor.currentIndex)
      modifies cursor
      ensures cursor.Valid()
      ensures Outcome(r, cursor.currentIndex) == StatementAt(cursor.tokens, old(cursor.currentIndex), fix)
    {
      var isReturn := cursor.Match(TokKind.Return);
      if isReturn {
        r := ParseReturnStatement();
        return;
      }
      if cursor.Check(Identifier) {
        var next := cursor.tokens[cursor.currentIndex + 1];
        if next.kind == Identifier {
          r := ParseVarDeclStatement();
          return;
        }
      }
      var expr :- ParseExpression();
      var _ :- cursor.Expect(Semi, Some(ExprSemi));
      return Ok(ExprStmt(Some(expr)));
    }

    /** The statement loop of `parseBlock`: a failing statement is dropped
        after `synchronize`. */
    method ParseStatements() returns (statements: seq<Stmt>)
      requires cursor.Valid() && SafeEnd(cursor.tokens)
      modifies cursor
      ensures cursor.Valid()
      ensures (statements, cursor.currentIndex) == StmtsFrom(cursor.tokens, old(cursor.currentIndex), fix)
    {
      statements := [];
      ghost var start := cursor.currentIndex;
      AppendEmpty(StmtsFrom(cursor.tokens, start, fix).0);
      while !cursor.Check(RBrace) && !cursor.IsAtEnd()
        invariant cursor.Valid() && start <= cursor.currentIndex
        invariant var rest := StmtsFrom(cursor.tokens, cursor.currentIndex, fix);
          (statements + rest.0, rest.1) == StmtsFrom(cursor.tokens, start, fix)
        decreases |cursor.tokens| - cursor.currentIndex
      {
        StmtsRoundAt(cursor.tokens, cursor.currentIndex, fix);
        var stmt := ParseStatement();
        if stmt.Ok? {
          ghost var rest := StmtsFrom(cursor.tokens, cursor.currentIndex, fix);
          AppendAssoc(statements, [stmt.value], rest.0);
          statements := statements + [stmt.value];
        } else {
          cursor.Synchronize();
        }
      }
      StmtsRoundAt(cursor.tokens, cursor.currentIndex, fix);
      AppendEmpty(statements);
    }

    /** `parseBlock`: `{`, the statement loop, `}`. */
    method ParseBlock() returns (r: Result<Block, ParseError>)
      requires cursor.Valid() && SafeEnd(cursor.tokens)
      modifies cursor
      ensures cursor.Valid()
      ensures Outcome(r, cursor.currentIndex) == BlockAt(cursor.tokens, old(cursor.currentIndex), fix)
    {
      var _ :- cursor.Expect(LBrace, Some(BlockOpen));
      var statements := ParseStatements();
      var _ :- cursor.Expect(RBrace, Some(BlockClose));
      return Ok(Block(statements));
    }

    /** `parseFunctionDecl`: the header, then the body block. */
    method ParseFunctionDecl() returns (r: Result<Function, ParseError>)
      requires cursor.Valid() && SafeEnd(cursor.tokens)
      modifies cursor
      ensures cursor.Valid()
      ensures Outcome(r, cursor.currentIndex) == FunctionDeclAt(cursor.tokens, old(cursor.currentIndex), fix)
    {
      var header :- ParseHeader(cursor);
      var body :- ParseBlock();
      return Ok(Function(header.0, header.1, Some(body)));
    }

    /** `parse`: a failing declaration is dropped after `synchronize`; it
        never fails and stops only at the end. */
    method Parse() returns (prog: Program)
      requires cursor.Valid() && SafeEnd(cursor.tokens)
      modifies cursor
      ensures cursor.Valid() && cursor.IsAtEnd()
      ensures prog.functions == FunctionsFrom(cursor.tokens, old(cursor.currentIndex), fix)
      ensures old(cursor.currentIndex) == 0 ==> prog == RecoveringParser.Parse(cursor.tokens, fix)
    {
      var functions := [];
      ghost var start := cursor.currentIndex;
      AppendEmpty(FunctionsFrom(cursor.tokens, start, fix));
      while !cursor.IsAtEnd()
        invariant cursor.Valid() && start <= cursor.currentIndex
        invariant functions + FunctionsFrom(cursor.tokens, cursor.currentIndex, fix) == FunctionsFrom(cursor.tokens, start, fix)
        decreases |cursor.tokens| - cursor.currentIndex
      {
        FunctionsRoundAt(cursor.tokens, cursor.currentIndex, fix);
        var func := ParseFunctionDecl();
        if func.Ok? {
          AppendAssoc(functions, [func.value], FunctionsFrom(cursor.tokens, cursor.currentIndex, fix));
          functions := functions + [func.value];
        } else {
          cursor.Synchronize();
        }
      }
      AppendEmpty(functions);
      return Program(functions);
    }
  }
}
