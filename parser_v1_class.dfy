/** The `Parser` object of NexusCompilerV1/src/Parsing/Parser.cpp: a token
    list and the `currentPos` cursor that the productions move. A thrown
    `ParseError` is an `Err` result. Every production is proved to return
    what the `V1Grammar` function of the same production gives from the
    position it started at, and to leave the cursor where that function
    stops. */
module V1Parser {
  import opened Wrappers
  import opened TokenKinds
  import opened AstV1
  import opened V1Grammar

  /** A method's result and the cursor it leaves, as a `Step`. */
  function StepOf<T>(r: Result<T, Message>, pos: nat): Step<T> {
    match r
    case Ok(v) => Done(v, pos)
    case Err(m) => Failed(m)
  }

  class Parser {
    const tokens: seq<Token>
    var currentPos: nat

    ghost predicate Valid()
      reads this
    {
      currentPos <= |tokens|
    }

    constructor(tokens: seq<Token>)
      ensures this.tokens == tokens && currentPos == 0 && Valid()
    {
      this.tokens := tokens;
      currentPos := 0;
    }

    /** `advance`. */
    method Advance() returns (t: Token)
      requires Valid() && (currentPos > 0 || !AtEnd(tokens, currentPos))
      modifies this
      ensures Valid() && (t, currentPos) == V1Grammar.Advance(tokens, old(currentPos))
    {
      if !AtEnd(tokens, currentPos) {
        currentPos := currentPos + 1;
      }
      t := tokens[currentPos - 1];
    }

    /** `match(kind)`. */
    method Match(k: TokenKind) returns (b: bool)
      requires Valid()
      modifies this
      ensures Valid() && b == Check(tokens, old(currentPos), k)
      ensures currentPos == MatchAt(tokens, old(currentPos), k)
    {
      b := Check(tokens, currentPos, k);
      if b {
        var _ := Advance();
      }
    }

    /** `consume(kind, msg)`. */
    method Consume(k: TokenKind, need: Need) returns (r: Result<Token, Message>)
      requires Valid() && |tokens| > 0
      modifies this
      ensures Valid() && StepOf(r, currentPos) == V1Grammar.Consume(tokens, old(currentPos), k, need)
    {
      if Check(tokens, currentPos, k) {
        var t := Advance();
        return Ok(t);
      }
      return Err(ConsumeFailed(need, Peek(tokens, currentPos)));
    }

    /** `parseType`. */
    method ParseType() returns (r: Result<Type, Message>)
      requires Valid() && |tokens| > 0
      modifies this
      ensures Valid() && StepOf(r, currentPos) == TypeAt(tokens, old(currentPos))
    {
      var m := Match(TypeI32);
      if m {
        return Ok(Named("i32"));
      }
      m := Match(TypeF64);
      if m {
        return Ok(Named("f64"));
      }
      m := Match(Identifier);
      if m {
        return Ok(Named(tokens[currentPos - 1].lexeme));
      }
      return Err(ExpectedType(Peek(tokens, currentPos)));
    }

    // ------------------------------------------------------- expressions

    /** `parseExpression`. */
    method ParseExpression() returns (r: Result<Expr, Message>)
      requires Valid() && |tokens| > 0
      modifies this
      ensures Valid() && StepOf(r, currentPos) == ExpressionAt(tokens, old(currentPos))
      decreases |tokens| - currentPos, 10
    {
      r := ParseAssignment();
    }

    /** `parseAssignment`. */
    method ParseAssignment() returns (r: Result<Expr, Message>)
      requires Valid() && |tokens| > 0
      modifies this
      ensures Valid() && StepOf(r, currentPos) == AssignmentAt(tokens, old(currentPos))
      decreases |tokens| - currentPos, 9
    {
      var expr := ParseComparison();
      if expr.Err? {
        return expr;
      }
      var assign := Match(OpAssign);
      if assign {
        var op := tokens[currentPos - 1];
        var value := ParseAssignment();
        if value.Err? {
          return value;
        }
        return Ok(Binary(Some(expr.value), op, value.value));
      }
      return expr;
    }

    /** `parseComparison`, reached through `parseLogical` and
        `parseEquality`, which only pass it on. The loop guard checks the
        operator before `advance` takes it, as `match` does. */
    method ParseComparison() returns (r: Result<Expr, Message>)
      requires Valid() && |tokens| > 0
      modifies this
      ensures Valid() && StepOf(r, currentPos) == ComparisonAt(tokens, old(currentPos))
      decreases |tokens| - currentPos, 8
    {
      ghost var start := currentPos;
      var left := ParseTerm();
      if left.Err? {
        return left;
      }
      var expr := left.value;
      while Check(tokens, currentPos, OpLt) || Check(tokens, currentPos, OpGt)
        invariant Valid() && start < currentPos
        invariant ComparisonLoop(tokens, expr, currentPos) == ComparisonAt(tokens, start)
        decreases |tokens| - currentPos
      {
        var op := Advance();
        var right := ParseTerm();
        if right.Err? {
          return right;
        }
        expr := Binary(Some(expr), op, right.value);
      }
      return Ok(expr);
    }

    /** `parseTerm`. */
    method ParseTerm() returns (r: Result<Expr, Message>)
      requires Valid() && |tokens| > 0
      modifies this
      ensures Valid() && StepOf(r, currentPos) == TermAt(tokens, old(currentPos))
      decreases |tokens| - currentPos, 7
    {
      ghost var start := currentPos;
      var left := ParseFactor();
      if left.Err? {
        return left;
      }
      var expr := left.value;
      while Check(tokens, currentPos, OpPlus) || Check(tokens, currentPos, OpMinus)
        invariant Valid() && start < currentPos
        invariant TermLoop(tokens, expr, currentPos) == TermAt(tokens, start)
        decreases |tokens| - currentPos
      {
        var op := Advance();
        var right := ParseFactor();
        if right.Err? {
          return right;
        }
        expr := Binary(Some(expr), op, right.value);
      }
      return Ok(expr);
    }

    /** `parseFactor`. */
    method ParseFactor() returns (r: Result<Expr, Message>)
      requires Valid() && |tokens| > 0
      modifies this
      ensures Valid() && StepOf(r, currentPos) == FactorAt(tokens, old(currentPos))
      decreases |tokens| - currentPos, 6
    {
      ghost var start := currentPos;
      var left := ParseUnary();
      if left.Err? {
        return left;
      }
      var expr := left.value;
      while Check(tokens, currentPos, OpMult) || Check(tokens, currentPos, OpDiv) || Check(tokens, currentPos, OpMod)
        invariant Valid() && start < currentPos
        invariant FactorLoop(tokens, expr, currentPos) == FactorAt(tokens, start)
        decreases |tokens| - currentPos
      {
        var op := Advance();
        var right := ParseUnary();
        if right.Err? {
          return right;
        }
        expr := Binary(Some(expr), op, right.value);
      }
      return Ok(expr);
    }

    /** `parseUnary`. */
    method ParseUnary() returns (r: Result<Expr, Message>)
      requires Valid() && |tokens| > 0
      modifies this
      ensures Valid() && StepOf(r, currentPos) == UnaryAt(tokens, old(currentPos))
      decreases |tokens| - currentPos, 5
    {
      var minus := Match(OpMinus);
      if minus {
        var op := tokens[currentPos - 1];
        var right := ParseUnary();
        if right.Err? {
          return right;
        }
        return Ok(Binary(None, op, right.value));
      }
      r := ParseCall();
    }

    /** `parseCall`: the postfix loop, whose `match` calls are a `check`
        followed by `advance`. */
    method ParseCall() returns (r: Result<Expr, Message>)
      requires Valid() && |tokens| > 0
      modifies this
      ensures Valid() && StepOf(r, currentPos) == CallAt(tokens, old(currentPos))
      decreases |tokens| - currentPos, 4
    {
      ghost var start := currentPos;
      var first := ParsePrimary();
      if first.Err? {
        return first;
      }
      var expr := first.value;
      while Check(tokens, currentPos, DelimLparen) || Check(tokens, currentPos, OpDot)
        invariant Valid() && start < currentPos
        invariant CallLoop(tokens, expr, currentPos) == CallAt(tokens, start)
        decreases |tokens| - currentPos
      {
        if Check(tokens, currentPos, DelimLparen) {
          var _ := Advance();
          var args := ParseArguments();
          if args.Err? {
            return Err(args.error);
          }
          expr := Call(expr, args.value);
        } else {
          var _ := Advance();
          var member := Consume(Identifier, MemberName);
          if member.Err? {
            return Err(member.error);
          }
          expr := MemberAccess(expr, member.value.lexeme);
        }
      }
      return Ok(expr);
    }

    /** The argument loop of calls and `new` after `(`, and the closing `)`. */
    method ParseArguments() returns (r: Result<seq<Expr>, Message>)
      requires Valid() && |tokens| > 0
      modifies this
      ensures Valid() && StepOf(r, currentPos) == ArgumentsAt(tokens, old(currentPos))
      decreases |tokens| - currentPos, 12
    {
      ghost var start := currentPos;
      var args := [];
      while !Check(tokens, currentPos, DelimRparen) && !AtEnd(tokens, currentPos)
        invariant Valid() && start <= currentPos
        invariant ArgsLoop(tokens, args, currentPos) == ArgsLoop(tokens, [], start)
        decreases |tokens| - currentPos
      {
        var a := ParseExpression();
        if a.Err? {
          return Err(a.error);
        }
        args := args + [a.value];
        if !Check(tokens, currentPos, DelimRparen) {
          var comma := Consume(DelimComma, ArgComma);
          if comma.Err? {
            return Err(comma.error);
          }
        }
      }
      var close := Consume(DelimRparen, ArgsClose);
      if close.Err? {
        return Err(close.error);
      }
      return Ok(args);
    }

    /** `parsePrimary`. */
    method ParsePrimary() returns (r: Result<Expr, Message>)
      requires Valid() && |tokens| > 0
      modifies this
      ensures Valid() && StepOf(r, currentPos) == PrimaryAt(tokens, old(currentPos))
      decreases |tokens| - currentPos, 3
    {
      if Check(tokens, currentPos, KwTrue) || Check(tokens, currentPos, LitInteger)
         || Check(tokens, currentPos, LitFloat) || Check(tokens, currentPos, LitString) {
        var t := Advance();
        return Ok(LiteralOf(t));
      }
      var id := Match(Identifier);
      if id {
        return Ok(IdentifierExpr(tokens[currentPos - 1].lexeme));
      }
      var isNew := Match(KwNew);
      if isNew {
        r := ParseNew();
        return;
      }
      var group := Match(DelimLparen);
      if group {
        r := ParseGroup();
        return;
      }
      return Err(ExpectedExpression(Peek(tokens, currentPos)));
    }
 
    /** The `new Type(args)` branch of `parsePrimary`, after `new`. */
    method ParseNew() returns (r: Result<Expr, Message>)
      requires Valid() && |tokens| > 0
      modifies this
      ensures Valid() && StepOf(r, currentPos) == NewAt(tokens, old(currentPos))
      decreases |tokens| - currentPos, 2
    {
      var t := ParseType();
      if t.Err? {
        return Err(t.error);
      }
      var open := Consume(DelimLparen, NewOpen);
      if open.Err? {
        return Err(open.error);
      }
      var args := ParseArguments();
      if args.Err? {
        return Err(args.error);
      }
      return Ok(New(t.value, args.value));
    }

    /** The `(e)` branch of `parsePrimary`, after `(`. */
    method ParseGroup() returns (r: Result<Expr, Message>)
      requires Valid() && |tokens| > 0
      modifies this
      ensures Valid() && StepOf(r, currentPos) == GroupAt(tokens, old(currentPos))
      decreases |tokens| - currentPos, 13
    {
      var e := ParseExpression();
      if e.Err? {
        return e;
      }
      var close := Consume(DelimRparen, GroupClose);
      if close.Err? {
        return Err(close.error);
      }
      return e;
    }
 
    // -------------------------------------------------------- statements

    /** `parseStatement`. */
    method ParseStatement() returns (r: Result<Stmt, Message>)
      requires Valid() && |tokens| > 0
      modifies this
      ensures Valid() && StepOf(r, currentPos) == StatementAt(tokens, old(currentPos))
      decreases |tokens| - currentPos, 2
    {
      var isWhile := Match(KwWhile);
      if isWhile {
        r := ParseWhileStmt();
      } else if Check(tokens, currentPos, DelimLbrace) {
        r := ParseBlockStmt();
      } else {
        r := ParseExprStmt();
      }
    }

    /** `parseBlockStmt`: statements until `}` or the end. */
    method ParseBlockStmt() returns (r: Result<Stmt, Message>)
      requires Valid() && |tokens| > 0
      modifies this
      ensures Valid() && StepOf(r, currentPos) == BlockAt(tokens, old(currentPos))
      decreases |tokens| - currentPos, 1
    {
      var open := Consume(DelimLbrace, BlockOpen);
      if open.Err? {
        return Err(open.error);
      }
      ghost var start := currentPos;
      var statements := [];
      while !Check(tokens, currentPos, DelimRbrace) && !AtEnd(tokens, currentPos)
        invariant Valid() && start <= currentPos
        invariant StmtsLoop(tokens, statements, currentPos) == StmtsLoop(tokens, [], start)
        decreases |tokens| - currentPos
      {
        var st := ParseStatement();
        if st.Err? {
          return st;
        }
        statements := statements + [st.value];
      }
      var close := Consume(DelimRbrace, BlockClose);
      if close.Err? {
        return Err(close.error);
      }
      return Ok(Block(statements));
    }

    /** `parseWhileStmt`, after `while`. */
    method ParseWhileStmt() returns (r: Result<Stmt, Message>)
      requires Valid() && |tokens| > 0
      modifies this
      ensures Valid() && StepOf(r, currentPos) == WhileAt(tokens, old(currentPos))
      decreases |tokens| - currentPos, 0
    {
      var open := Consume(DelimLparen, WhileOpen);
      if open.Err? {
        return Err(open.error);
      }
      var condition := ParseExpression();
      if condition.Err? {
        return Err(condition.error);
      }
      var close := Consume(DelimRparen, WhileClose);
      if close.Err? {
        return Err(close.error);
      }
      var body := ParseStatement();
      if body.Err? {
        return body;
      }
      return Ok(While(condition.value, body.value));
    }

    /** `parseExprStmt`. */
    method ParseExprStmt() returns (r: Result<Stmt, Message>)
      requires Valid() && |tokens| > 0
      modifies this
      ensures Valid() && StepOf(r, currentPos) == ExprStmtAt(tokens, old(currentPos))
    {
      var e := ParseExpression();
      if e.Err? {
        return Err(e.error);
      }
      var semi := Consume(DelimSemicolon, ExprSemi);
      if semi.Err? {
        return Err(semi.error);
      }
      return Ok(ExprStmt(e.value));
    }

    // ------------------------------------------------------ declarations

    /** `parseVarDecl`. */
    method ParseVarDecl() returns (r: Result<VarDecl, Message>)
      requires Valid() && |tokens| > 0
      modifies this
      ensures Valid() && StepOf(r, currentPos) == VarDeclAt(tokens, old(currentPos))
    {
      var name := Consume(Identifier, VarName);
      if name.Err? {
        return Err(name.error);
      }
      var colon := Consume(DelimColon, VarColon);
      if colon.Err? {
        return Err(colon.error);
      }
      var t := ParseType();
      if t.Err? {
        return Err(t.error);
      }
      var initializer := None;
      var assign := Match(OpAssign);
      if assign {
        var e := ParseExpression();
        if e.Err? {
          return Err(e.error);
        }
        initializer := Some(e.value);
      }
      var semi := Consume(DelimSemicolon, VarSemi);
      if semi.Err? {
        return Err(semi.error);
      }
      return Ok(VarDecl(false, name.value.lexeme, Some(t.value), initializer));
    }

    /** `parseMethodDecl`: the name, the parameter loop, the return type
        unless a constructor, and the body. */
    method ParseMethodDecl() returns (r: Result<MethodDecl, Message>)
      requires Valid() && |tokens| > 0
      modifies this
      ensures Valid() && StepOf(r, currentPos) == MethodDeclAt(tokens, old(currentPos))
    {
      var name := "";
      var isConstructor := Match(KwConstructor);
      if isConstructor {
        name := "Constructor";
      } else {
        var nameToken := Consume(Identifier, MethodName);
        if nameToken.Err? {
          return Err(nameToken.error);
        }
        name := nameToken.value.lexeme;
      }
      var open := Consume(DelimLparen, MethodOpen);
      if open.Err? {
        return Err(open.error);
      }
      ghost var start := currentPos;
      var params := [];
      while !Check(tokens, currentPos, DelimRparen) && !AtEnd(tokens, currentPos)
        invariant Valid() && start <= currentPos
        invariant ParamsLoop(tokens, params, currentPos) == ParamsLoop(tokens, [], start)
        decreases |tokens| - currentPos
      {
        var p := ParseParam();
        if p.Err? {
          return Err(p.error);
        }
        params := params + [p.value];
        if !Check(tokens, currentPos, DelimRparen) {
          var comma := Consume(DelimComma, ParamComma);
          if comma.Err? {
            return Err(comma.error);
          }
        }
      }
      r := ParseMethodTail(name, isConstructor, params);
    }

    /** One parameter of `parseMethodDecl`, `name : Type`. */
    method ParseParam() returns (r: Result<Param, Message>)
      requires Valid() && |tokens| > 0
      modifies this
      ensures Valid() && StepOf(r, currentPos) == ParamAt(tokens, old(currentPos))
    {
      var name := Consume(Identifier, ParamName);
      if name.Err? {
        return Err(name.error);
      }
      var colon := Consume(DelimColon, ParamColon);
      if colon.Err? {
        return Err(colon.error);
      }
      var t := ParseType();
      if t.Err? {
        return Err(t.error);
      }
      return Ok(Param(name.value.lexeme, t.value));
    }

    /** The rest of `parseMethodDecl` after its parameters. */
    method ParseMethodTail(name: string, isConstructor: bool, params: seq<Param>) returns (r: Result<MethodDecl, Message>)
      requires Valid() && |tokens| > 0
      modifies this
      ensures Valid() && StepOf(r, currentPos) == MethodTail(tokens, name, isConstructor, params, old(currentPos))
    {
      var close := Consume(DelimRparen, ParamsClose);
      if close.Err? {
        return Err(close.error);
      }
      var returnType := Named("");
      if !isConstructor {
        var arrow := Consume(OpArrow, ReturnArrow);
        if arrow.Err? {
          return Err(arrow.error);
        }
        var t := ParseType();
        if t.Err? {
          return Err(t.error);
        }
        returnType := t.value;
      }
      var body := ParseBlockStmt();
      if body.Err? {
        return Err(body.error);
      }
      return Ok(MethodDecl(true, isConstructor, name, params, returnType, body.value));
    }

    /** `parseClassDecl`, after `class`. A member starting with an
        identifier is told apart by the token after it: the cursor is saved,
        moved past the identifier, and restored before the member is
        parsed. */
    method ParseClassDecl() returns (r: Result<Decl, Message>)
      requires Valid() && |tokens| > 0
      modifies this
      ensures Valid() && StepOf(r, currentPos) == ClassDeclAt(tokens, old(currentPos))
    {
      var name := Consume(Identifier, ClassName);
      if name.Err? {
        return Err(name.error);
      }
      var open := Consume(DelimLbrace, ClassOpen);
      if open.Err? {
        return Err(open.error);
      }
      ghost var start := currentPos;
      var fields := [];
      var methods := [];
      while !Check(tokens, currentPos, DelimRbrace) && !AtEnd(tokens, currentPos)
        invariant Valid() && start <= currentPos
        invariant MembersLoop(tokens, fields, methods, currentPos) == MembersLoop(tokens, [], [], start)
        decreases |tokens| - currentPos
      {
        var isPublic := ParseVisibility();
        var m := ParseMember(isPublic);
        if m.Err? {
          return Err(m.error);
        }
        match m.value
        case FieldMember(f) => fields := fields + [f];
        case MethodMember(md) => methods := methods + [md];
      }
      var close := Consume(DelimRbrace, ClassClose);
      if close.Err? {
        return Err(close.error);
      }
      return Ok(ClassDecl(true, name.value.lexeme, fields, methods));
    }

    /** The optional `private` or `public` in front of a member. */
    method ParseVisibility() returns (isPublic: bool)
      requires Valid()
      modifies this
      ensures Valid() && (isPublic, currentPos) == Visibility(tokens, old(currentPos))
    {
      isPublic := true;
      var isPrivate := Match(KwPrivate);
      if isPrivate {
        isPublic := false;
      } else {
        var _ := Match(KwPublic);
      }
    }

    /** The body of the member loop of `parseClassDecl` after the
        visibility. */
    method ParseMember(isPublic: bool) returns (r: Result<Member, Message>)
      requires Valid() && |tokens| > 0
      modifies this
      ensures Valid() && StepOf(r, currentPos) == MemberAt(tokens, old(currentPos), isPublic)
    {
      if Check(tokens, currentPos, KwConstructor) {
        var md := ParseMethodDecl();
        if md.Err? {
          return Err(md.error);
        }
        return Ok(MethodMember(md.value.(isPublic := isPublic, isConstructor := true)));
      } else if Check(tokens, currentPos, Identifier) {
        var saved := currentPos;
        var _ := Advance();
        if Check(tokens, currentPos, DelimLparen) {
          currentPos := saved;
          var md := ParseMethodDecl();
          if md.Err? {
            return Err(md.error);
          }
          return Ok(MethodMember(md.value.(isPublic := isPublic)));
        } else {
          currentPos := saved;
          var f := ParseVarDecl();
          if f.Err? {
            return Err(f.error);
          }
          return Ok(FieldMember(f.value));
        }
      }
      return Err(ExpectedMember);
    }

    /** `parseSumTypeDecl`, after `Options`. */
    method ParseSumTypeDecl() returns (r: Result<Decl, Message>)
      requires Valid() && |tokens| > 0
      modifies this
      ensures Valid() && StepOf(r, currentPos) == SumTypeDeclAt(tokens, old(currentPos))
    {
      var name := Consume(Identifier, SumName);
      if name.Err? {
        return Err(name.error);
      }
      var open := Consume(DelimLbrace, SumOpen);
      if open.Err? {
        return Err(open.error);
      }
      ghost var start := currentPos;
      var variants := [];
      while !Check(tokens, currentPos, DelimRbrace) && !AtEnd(tokens, currentPos)
        invariant Valid() && start <= currentPos
        invariant VariantsLoop(tokens, variants, currentPos) == VariantsLoop(tokens, [], start)
        decreases |tokens| - currentPos
      {
        var v := ParseVariant();
        if v.Err? {
          return Err(v.error);
        }
        variants := variants + [v.value];
        if !Check(tokens, currentPos, DelimRbrace) {
          var _ := Match(DelimComma);
        }
      }
      var close := Consume(DelimRbrace, SumClose);
      if close.Err? {
        return Err(close.error);
      }
      return Ok(SumTypeDecl(name.value.lexeme, [], variants));
    }

    /** One variant of `parseSumTypeDecl`: a name and an optional `(Type)`. */
    method ParseVariant() returns (r: Result<Variant, Message>)
      requires Valid() && |tokens| > 0
      modifies this
      ensures Valid() && StepOf(r, currentPos) == VariantAt(tokens, old(currentPos))
    {
      var name := Consume(Identifier, VariantName);
      if name.Err? {
        return Err(name.error);
      }
      var payload := None;
      var open := Match(DelimLparen);
      if open {
        var t := ParseType();
        if t.Err? {
          return Err(t.error);
        }
        var close := Consume(DelimRparen, PayloadClose);
        if close.Err? {
          return Err(close.error);
        }
        payload := Some(t.value);
      }
      return Ok(Variant(name.value.lexeme, payload));
    }

    /** `parseDeclaration`: the `;` run, then `class`, `Options` or an
        error; `None` for the null it returns at the end. */
    method ParseDeclaration() returns (r: Result<Option<Decl>, Message>)
      requires Valid() && |tokens| > 0
      modifies this
      ensures Valid() && StepOf(r, currentPos) == DeclarationAt(tokens, old(currentPos))
    {
      SkipSemicolonRun();
      r := ParseDeclarationAfter();
    }

    /** `while (match(delim_semicolon)) {}`. */
    method SkipSemicolonRun()
      requires Valid()
      modifies this
      ensures Valid() && currentPos == SkipSemicolons(tokens, old(currentPos))
    {
      ghost var start := currentPos;
      var more := Match(DelimSemicolon);
      while more
        invariant Valid() && start <= currentPos
        invariant SkipSemicolons(tokens, currentPos) == SkipSemicolons(tokens, start)
        invariant !more ==> !Check(tokens, currentPos, DelimSemicolon)
        decreases |tokens| - currentPos, more
      {
        more := Match(DelimSemicolon);
      }
    }

    /** The rest of `parseDeclaration` once the `;` run is skipped. */
    method ParseDeclarationAfter() returns (r: Result<Option<Decl>, Message>)
      requires Valid() && |tokens| > 0
      modifies this
      ensures Valid() && StepOf(r, currentPos) == DeclarationAfter(tokens, old(currentPos))
    {
      if AtEnd(tokens, currentPos) {
        return Ok(None);
      }
      var isClass := Match(KwClass);
      if isClass {
        var d := ParseClassDecl();
        if d.Err? {
          return Err(d.error);
        }
        return Ok(Some(d.value));
      }
      var isSum := Match(KwOptions);
      if isSum {
        var d := ParseSumTypeDecl();
        if d.Err? {
          return Err(d.error);
        }
        return Ok(Some(d.value));
      }
      return Err(ExpectedDeclaration(Peek(tokens, currentPos)));
    }

    /** `parse`: declarations until the end; the first error is rethrown,
        so it ends the parse. */
    method Parse() returns (r: Result<Program, Message>)
      requires Valid()
      modifies this
      ensures Valid() && r == if |tokens| == 0 then Ok(Program([])) else
        match ParseLoop(tokens, [], old(currentPos))
        case Failed(m) => Err(m)
        case Done(p, _) => Ok(p)
    {
      if |tokens| == 0 {
        return Ok(Program([]));
      }
      ghost var start := currentPos;
      var declarations := [];
      while !AtEnd(tokens, currentPos)
        invariant Valid() && start <= currentPos
        invariant ParseLoop(tokens, declarations, currentPos) == ParseLoop(tokens, [], start)
        decreases |tokens| - currentPos
      {
        var d := ParseDeclaration();
        if d.Err? {
          return Err(d.error);
        }
        if d.value.Some? {
          declarations := declarations + [d.value.value];
        }
      }
      return Ok(Program(declarations));
    }
  }

  /** A fresh parser's `parse` is `V1Grammar.Parse`. */
  method ParseTokens(tokens: seq<Token>) returns (r: Result<Program, Message>)
    ensures r == V1Grammar.Parse(tokens)
  {
    var p := new Parser(tokens);
    r := p.Parse();
  }
}
