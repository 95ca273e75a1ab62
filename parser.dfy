/** The panic-mode recursive-descent parser of
    NexusCompiler/src/Parser/Parser.cpp. Each production is a function from a
    token index to `Parsed`: a thrown `ParseError` is a `Reject` carrying the
    index the cursor had reached. `parseBlock` and `parse` catch, run
    `synchronize` and carry on, so `Parse` itself never fails.

    `fix` selects how `parseExpression` treats `x = e`: as written
    (`fix == false`) it discards the `Assignment` it built and returns a
    fresh `parseAssignment()` over the tokens after `e`; with `fix == true`
    it returns that `Assignment`. */
module RecoveringParser {
  import opened Wrappers
  import opened TokKinds
  import opened Ast
  import opened SeqFacts
  import opened ParseCursor
  import DictTable

  /** The value-level facts every parsed expression satisfies: identifiers,
      literals and callees sit on tokens of the right kind. */
  predicate WellFormedExpr(e: Expr)
    decreases e
  {
    match e
    case Assignment(t, v) => t.kind == Identifier && WellFormedExpr(v)
    case Increment(t) => t.kind == Identifier
    case IdentExpr(t) => t.kind == Identifier
    case IntLitExpr(t) => t.kind == Int
    case StrLitExpr(t) => t.kind == String
    case CallExpr(c, args) => c.kind == Identifier && forall a :: a in args ==> WellFormedExpr(a)
    case AssignExpr(t, v) => t.kind == Identifier && WellFormedExpr(v)
  }

  /** The kinds `parsePrimary` accepts: an int or string literal, or an
      identifier. */
  predicate StartsPrimary(k: TokKind) {
    k == Int || k == String || k == Identifier
  }

  /** `parsePrimary`: consumes one token, then an optional call suffix. */
  function PrimaryAt(ts: seq<Token>, i: nat, fix: bool): (r: Parsed<Expr>)
    requires i <= |ts|
    ensures r.Accept? ==> i < r.next <= |ts| && WellFormedExpr(r.value)
    ensures r.Reject? ==> i <= r.at <= |ts|
    ensures r.Accept? && !r.value.CallExpr? ==> r.next == i + 1
    ensures PrimaryValue(r)
    ensures r.Accept? ==> i < |ts| && StartsPrimary(ts[i].kind)
    ensures i < |ts| && !StartsPrimary(ts[i].kind) ==>
      r == Reject(ParseError(ts[i].line, ts[i].column, ExpectedExpression(ts[i])), i + 1)
    decreases |ts| - i, 1
  {
    var (tok, j) := Consume(ts, i);
    match tok.kind
    case Int => Accept(IntLitExpr(tok), j)
    case String => Accept(StrLitExpr(tok), j)
    case Identifier =>
      if PeekAt(ts, j).kind != LParen then Accept(IdentExpr(tok), j)
      else if PeekAt(ts, j + 1).kind == RParen then Accept(CallExpr(tok, []), j + 2)
      else
        var args :- ArgsAt(ts, j + 1, fix);
        var rp :- ExpectAt(ts, args.1, RParen, Some(CallClose));
        Accept(CallExpr(tok, args.0), rp.1)
    case _ => Reject(ParseError(tok.line, tok.column, ExpectedExpression(tok)), j)
  }

  /** The argument loop of a call: expressions separated by commas. */
  function ArgsAt(ts: seq<Token>, i: nat, fix: bool): (r: Parsed<seq<Expr>>)
    requires i <= |ts|
    ensures r.Accept? ==> i < r.next <= |ts| && |r.value| > 0 && forall k :: 0 <= k < |r.value| ==> WellFormedExpr(r.value[k])
    ensures r.Reject? ==> i <= r.at <= |ts|
    decreases |ts| - i, 3
  {
    match ExpressionAt(ts, i, fix)
    case Reject(err, at) => Reject(err, at)
    case Accept(e, j) =>
      if PeekAt(ts, j).kind == Comma then Prepend([e], ArgsAt(ts, j + 1, fix))
      else Accept([e], j)
  }

  /** What `parsePrimary` can give: never an assignment or an increment. */
  predicate PrimaryValue(p: Parsed<Expr>) {
    p.Accept? ==> WellFormedExpr(p.value) && !p.value.Assignment? && !p.value.Increment? && !p.value.AssignExpr?
  }

  /** `parseExpression`: a primary, then what may follow it. */
  function ExpressionAt(ts: seq<Token>, i: nat, fix: bool): (r: Parsed<Expr>)
    requires i <= |ts|
    ensures r.Accept? ==> i < r.next <= |ts| && WellFormedExpr(r.value)
    ensures r.Reject? ==> i <= r.at <= |ts|
    ensures fix && r.Accept? ==> !r.value.AssignExpr?
    decreases |ts| - i, 2
  {
    ExpressionTail(ts, PrimaryAt(ts, i, fix), fix)
  }

  /** The rest of `parseExpression` after the primary's outcome `p`: a
      postfix `++`, or `=` and a right-hand side. */
  function ExpressionTail(ts: seq<Token>, p: Parsed<Expr>, fix: bool): (r: Parsed<Expr>)
    requires p.Pos() <= |ts| && PrimaryValue(p)
    ensures r.Accept? ==> p.Accept? && p.next <= r.next <= |ts| && WellFormedExpr(r.value)
    ensures r.Reject? ==> p.Pos() <= r.at <= |ts|
    ensures fix && r.Accept? ==> !r.value.AssignExpr?
    decreases |ts| - p.Pos(), 0
  {
    match p
    case Reject(err, at) => Reject(err, at)
    case Accept(e, j) =>
      if PeekAt(ts, j).kind == TokKind.Increment then
        if e.IdentExpr? then Accept(Expr.Increment(e.name), j + 1)
        else Reject(ErrAt(ts, j + 1, IncrementTarget), j + 1)
      else if PeekAt(ts, j).kind != Assign then Accept(e, j)
      else
        match ExpressionAt(ts, j + 1, fix)
        case Reject(err, at) => Reject(err, at)
        case Accept(v, k) =>
          if !e.IdentExpr? then Reject(ErrAt(ts, k, AssignTarget), k)
          else if fix then Accept(Assignment(e.name, v), k)
          else AssignmentAt(ts, k, fix)
  }

  /** `parseAssignment`: a primary, then optionally `=` and, right-recursively,
      another assignment. */
  function AssignmentAt(ts: seq<Token>, i: nat, fix: bool): (r: Parsed<Expr>)
    requires i <= |ts|
    ensures r.Accept? ==> i < r.next <= |ts| && WellFormedExpr(r.value)
    ensures r.Reject? ==> i <= r.at <= |ts|
    ensures r.Accept? ==> !r.value.Assignment? && !r.value.Increment?
    decreases |ts| - i, 2
  {
    AssignmentTail(ts, PrimaryAt(ts, i, fix), fix)
  }

  /** The rest of `parseAssignment` after the primary's outcome `p`. */
  function AssignmentTail(ts: seq<Token>, p: Parsed<Expr>, fix: bool): (r: Parsed<Expr>)
    requires p.Pos() <= |ts| && PrimaryValue(p)
    ensures r.Accept? ==> p.Accept? && p.next <= r.next <= |ts| && WellFormedExpr(r.value)
    ensures r.Reject? ==> p.Pos() <= r.at <= |ts|
    ensures r.Accept? ==> !r.value.Assignment? && !r.value.Increment?
    decreases |ts| - p.Pos(), 0
  {
    match p
    case Reject(err, at) => Reject(err, at)
    case Accept(e, j) =>
      if PeekAt(ts, j).kind != Assign then Accept(e, j)
      else
        match AssignmentAt(ts, j + 1, fix)
        case Reject(err, at) => Reject(err, at)
        case Accept(v, k) =>
          if e.IdentExpr? then Accept(AssignExpr(e.name, v), k)
          else Reject(ErrAt(ts, k, AssignExprTarget), k)
  }

  /** `parseReturnStatement`, entered after `return` was matched. */
  function ReturnAt(ts: seq<Token>, i: nat, fix: bool): (r: Parsed<Stmt>)
    requires i <= |ts|
    ensures r.Accept? ==> i < r.next <= |ts| && r.value.Return?
    ensures r.Reject? ==> i <= r.at <= |ts|
  {
    if PeekAt(ts, i).kind == Semi then Accept(Stmt.Return(None), i + 1)
    else
      var e :- ExpressionAt(ts, i, fix);
      var s :- ExpectAt(ts, e.1, Semi, Some(ReturnSemi));
      Accept(Stmt.Return(Some(e.0)), s.1)
  }

  /** `parseVarDeclStatement`: `type name = e ;`. */
  function VarDeclAt(ts: seq<Token>, i: nat, fix: bool): (r: Parsed<Stmt>)
    requires i <= |ts|
    ensures r.Accept? ==> i < r.next <= |ts| && r.value.VarDecl? && r.value.initializer.Some?
    ensures r.Accept? ==> i + 2 < |ts| && r.value.typ == ts[i] && r.value.name == ts[i + 1] && PeekAt(ts, i + 2).kind == Assign
    ensures r.Reject? ==> i <= r.at <= |ts|
  {
    var t :- ExpectAt(ts, i, Identifier, Some(DeclType));
    var n :- ExpectAt(ts, t.1, Identifier, Some(DeclName));
    var a :- ExpectAt(ts, n.1, Assign, Some(DeclAssign));
    var e :- ExpressionAt(ts, a.1, fix);
    var s :- ExpectAt(ts, e.1, Semi, Some(DeclSemi));
    Accept(VarDecl(t.0, n.0, Some(e.0)), s.1)
  }

  /** The unchecked `tokens[currentIndex + 1]` of `parseStatement` is in range. */
  predicate LookaheadSafe(ts: seq<Token>, i: nat) {
    Check(ts, i, Identifier) ==> i + 1 < |ts|
  }

  /** No identifier is the last token, so every look-ahead is in range. */
  predicate SafeEnd(ts: seq<Token>) {
    |ts| == 0 || ts[|ts| - 1].kind != Identifier
  }

  /** `parseStatement`: `return`, a declaration after two identifiers, or an
      expression statement. */
  function StatementAt(ts: seq<Token>, i: nat, fix: bool): (r: Parsed<Stmt>)
    requires i <= |ts| && LookaheadSafe(ts, i)
    ensures r.Accept? ==> i < r.next <= |ts|
    ensures r.Reject? ==> i <= r.at <= |ts|
    ensures r.Accept? && r.value.ExprStmt? ==> r.value.expr.Some? && PeekAt(ts, r.next - 1).kind == Semi
  {
    if PeekAt(ts, i).kind == TokKind.Return then ReturnAt(ts, i + 1, fix)
    else if Check(ts, i, Identifier) && ts[i + 1].kind == Identifier then VarDeclAt(ts, i, fix)
    else
      match ExpressionAt(ts, i, fix)
      case Reject(err, at) => Reject(err, at)
      case Accept(e, j) =>
        match ExpectAt(ts, j, Semi, Some(ExprSemi))
        case Reject(err, at) => Reject(err, at)
        case Accept(_, k) => Accept(ExprStmt(Some(e)), k)
  }

  /** The statement loop of `parseBlock` from `i`: the statements kept and the
      index where `}` or the end was reached. A failing statement is dropped
      and parsing resumes where `synchronize` stops. */
  function StmtsFrom(ts: seq<Token>, i: nat, fix: bool): (r: (seq<Stmt>, nat))
    requires i <= |ts| && SafeEnd(ts)
    ensures i <= r.1 <= |ts|
    ensures Check(ts, r.1, RBrace) || IsAtEnd(ts, r.1)
    decreases |ts| - i, 1
  {
    if Check(ts, i, RBrace) || IsAtEnd(ts, i) then ([], i)
    else StmtsRound(ts, i, fix)
  }

  /** One round of the statement loop, at a token that is neither `}` nor
      the end: the statement and the rounds after it, or, when it fails,
      the rounds after the resynchronisation point. */
  function StmtsRound(ts: seq<Token>, i: nat, fix: bool): (r: (seq<Stmt>, nat))
    requires i < |ts| && SafeEnd(ts) && !IsAtEnd(ts, i)
    ensures i <= r.1 <= |ts|
    ensures Check(ts, r.1, RBrace) || IsAtEnd(ts, r.1)
    decreases |ts| - i, 0
  {
    match StatementAt(ts, i, fix)
    case Accept(s, j) =>
      var rest := StmtsFrom(ts, j, fix);
      ([s] + rest.0, rest.1)
    case Reject(_, at) =>
      RecoveryAdvances(ts, i, at);
      StmtsFrom(ts, SyncFrom(ts, at), fix)
  }

  /** `parseBlock`: `{`, the statement loop, `}`. */
  function BlockAt(ts: seq<Token>, i: nat, fix: bool): (r: Parsed<Block>)
    requires i <= |ts| && SafeEnd(ts)
    ensures r.Accept? ==> i < r.next <= |ts| && PeekAt(ts, i).kind == LBrace && PeekAt(ts, r.next - 1).kind == RBrace
    ensures r.Reject? ==> i <= r.at <= |ts|
  {
    if PeekAt(ts, i).kind != LBrace then Reject(ErrAt(ts, i, BlockOpen), i)
    else
      var (stmts, j) := StmtsFrom(ts, i + 1, fix);
      if PeekAt(ts, j).kind != RBrace then Reject(ErrAt(ts, j, BlockClose), j)
      else Accept(Block(stmts), j + 1)
  }

  /** A function as `parse` can produce it: identifier name and parameters,
      and a body. */
  predicate WellFormedFunction(f: Function) {
    f.name.kind == Identifier && IdentParams(f.params) && f.body.Some?
  }

  /** `parseFunctionDecl`: a header, then a block. */
  function FunctionDeclAt(ts: seq<Token>, i: nat, fix: bool): (r: Parsed<Function>)
    requires i <= |ts| && SafeEnd(ts)
    ensures r.Accept? ==> i < r.next <= |ts| && WellFormedFunction(r.value)
    ensures r.Reject? ==> i <= r.at <= |ts|
  {
    match HeaderAt(ts, i)
    case Reject(e, at) => Reject(e, at)
    case Accept((name, params), j) =>
      match BlockAt(ts, j, fix)
      case Reject(e, at) => Reject(e, at)
      case Accept(b, k) => Accept(Function(name, params, Some(b)), k)
  }

  /** The loop of `parse` from `i`: a failing declaration is dropped and
      parsing resumes where `synchronize` stops. */
  function FunctionsFrom(ts: seq<Token>, i: nat, fix: bool): (fs: seq<Function>)
    requires i <= |ts| && SafeEnd(ts)
    ensures forall k :: 0 <= k < |fs| ==> WellFormedFunction(fs[k])
    decreases |ts| - i, 1
  {
    if IsAtEnd(ts, i) then [] else FunctionsRound(ts, i, fix)
  }

  /** One round of that loop, at a token that is not the end: the
      declaration and the rounds after it, or, when it fails, the rounds
      after the resynchronisation point. */
  function FunctionsRound(ts: seq<Token>, i: nat, fix: bool): (fs: seq<Function>)
    requires i < |ts| && SafeEnd(ts) && !IsAtEnd(ts, i)
    ensures forall k :: 0 <= k < |fs| ==> WellFormedFunction(fs[k])
    decreases |ts| - i, 0
  {
    match FunctionDeclAt(ts, i, fix)
    case Accept(f, j) => [f] + FunctionsFrom(ts, j, fix)
    case Reject(_, at) =>
      RecoveryAdvances(ts, i, at);
      FunctionsFrom(ts, SyncFrom(ts, at), fix)
  }

  /** `parse`. */
  function Parse(ts: seq<Token>, fix: bool): (p: Program)
    requires SafeEnd(ts)
    ensures forall k :: 0 <= k < |p.functions| ==> WellFormedFunction(p.functions[k])
  {
    Program(FunctionsFrom(ts, 0, fix))
  }

  // Statement dispatch and expressions

  /** `return ;` is a `Return` with no value. */
  lemma ReturnWithoutValue(ts: seq<Token>, i: nat, fix: bool)
    requires i + 1 < |ts| && ts[i].kind == TokKind.Return && ts[i + 1].kind == Semi
    ensures StatementAt(ts, i, fix) == Accept(Stmt.Return(None), i + 2)
  {
  }

  /** Two leading identifiers commit to a declaration, which needs `=` as
      its third token: anything else there is rejected with the `=`
      message, at that token. */
  lemma TwoIdentifiersDeclare(ts: seq<Token>, i: nat, fix: bool)
    requires i + 1 < |ts| && ts[i].kind == Identifier && ts[i + 1].kind == Identifier
    ensures StatementAt(ts, i, fix) == VarDeclAt(ts, i, fix)
    ensures PeekAt(ts, i + 2).kind != Assign ==>
      StatementAt(ts, i, fix) == Reject(ErrAt(ts, i + 2, DeclAssign), i + 2)
  {
  }

  /** A parsed `++` always sits right after the identifier it increments. */
  lemma IncrementFollowsIdentifier(ts: seq<Token>, i: nat, fix: bool)
    requires i <= |ts|
    requires ExpressionAt(ts, i, fix).Accept? && ExpressionAt(ts, i, fix).value.Increment?
    ensures i + 1 < |ts| && ts[i].kind == Identifier && ts[i + 1].kind == TokKind.Increment
    ensures ExpressionAt(ts, i, fix) == Accept(Expr.Increment(ts[i]), i + 2)
  {
    match PrimaryAt(ts, i, fix)
    case Accept(e, j) =>
      assert PeekAt(ts, j).kind == TokKind.Increment && e.IdentExpr?;
  }

  /** `++` after anything but a bare identifier is rejected just past it. */
  lemma IncrementAfterLiteralRejected(ts: seq<Token>, i: nat, fix: bool)
    requires i + 1 < |ts| && (ts[i].kind == Int || ts[i].kind == String) && ts[i + 1].kind == TokKind.Increment
    ensures ExpressionAt(ts, i, fix) == Reject(ErrAt(ts, i + 2, IncrementTarget), i + 2)
  {
  }

  /** The tokens of a chain `n0 = n1 = … = lit`. */
  function ChainTokens(names: seq<Token>, lit: Token): seq<Token> {
    if |names| == 0 then [lit] else [names[0], Token(Assign, "=", 0, 0)] + ChainTokens(names[1..], lit)
  }

  /** The right-nested tree of that chain. */
  function ChainExpr(names: seq<Token>, lit: Token): Expr {
    if |names| == 0 then IntLitExpr(lit) else AssignExpr(names[0], ChainExpr(names[1..], lit))
  }

  /** `parseAssignment` from `i` gives `e` and stops at `n`. */
  predicate AssignmentGives(ts: seq<Token>, i: nat, e: Expr, n: nat, fix: bool)
    requires i <= |ts|
  {
    AssignmentAt(ts, i, fix) == Accept(e, n)
  }

  /** `name =` in front of an assignment nests it under `name`. */
  lemma AssignmentCons(ts: seq<Token>, i: nat, name: Token, v: Expr, n: nat, fix: bool)
    requires i + 1 < |ts| && ts[i] == name && name.kind == Identifier && ts[i + 1].kind == Assign
    requires AssignmentGives(ts, i + 2, v, n, fix)
    ensures AssignmentGives(ts, i, AssignExpr(name, v), n, fix)
  {
    assert PrimaryAt(ts, i, fix) == Accept(IdentExpr(name), i + 1);
  }

  /** A literal not followed by `=` is the end of the chain. */
  lemma AssignmentLast(ts: seq<Token>, i: nat, lit: Token, fix: bool)
    requires i < |ts| && ts[i] == lit && lit.kind == Int && PeekAt(ts, i + 1).kind != Assign
    ensures AssignmentGives(ts, i, IntLitExpr(lit), i + 1, fix)
  {
  }

  /** `parseAssignment` nests a chain of assignments to the right. */
  lemma {:induction false} AssignmentRightAssociative(ts: seq<Token>, i: nat, names: seq<Token>, lit: Token, fix: bool)
    requires forall k :: 0 <= k < |names| ==> names[k].kind == Identifier
    requires lit.kind == Int && HoldsAt(ts, i, ChainTokens(names, lit))
    requires PeekAt(ts, i + |ChainTokens(names, lit)|).kind != Assign
    ensures |ChainTokens(names, lit)| == 2 * |names| + 1
    ensures AssignmentGives(ts, i, ChainExpr(names, lit), i + 2 * |names| + 1, fix)
    decreases |names|
  {
    var ct := ChainTokens(names, lit);
    if |names| == 0 {
      HoldsAtElems(ts, i, ct);
      assert ts[i] == ct[0];
      AssignmentLast(ts, i, lit, fix);
    } else {
      var w := [names[0], Token(Assign, "=", 0, 0)];
      var rest := ChainTokens(names[1..], lit);
      HoldsAtSplit(ts, i, w, rest);
      HoldsAtElems(ts, i, w);
      assert ts[i] == w[0] && ts[i + 1] == w[1];
      assert forall k :: 0 <= k < |names[1..]| ==> names[1..][k] == names[k + 1];
      AssignmentRightAssociative(ts, i + 2, names[1..], lit, fix);
      AssignmentCons(ts, i, names[0], ChainExpr(names[1..], lit), i + 2 * |names| + 1, fix);
    }
  }

  // The assignment statement, as written and as intended

  /** As written, `x = lit ;` is always rejected: the `Assignment` is
      discarded and `parseAssignment` then meets the `;`, consuming it, and
      reports it as `TOK_SEMI`. */
  lemma AssignmentStatementRejected(ts: seq<Token>, i: nat)
    requires i + 3 < |ts| && ts[i].kind == Identifier && ts[i + 1].kind == Assign
    requires ts[i + 2].kind == Int && ts[i + 3].kind == Semi
    ensures StatementAt(ts, i, false) ==
      Reject(ParseError(ts[i + 3].line, ts[i + 3].column, ExpectedExpression(ts[i + 3])), i + 4)
    ensures StatementAt(ts, i, false).err.message.Text() == "Expected expression, got TOK_SEMI\n"
  {
    AssignmentExpressionRejected(ts, i);
    assert DictTable.ToString(ts[i + 3]) == "TOK_SEMI\n";
  }

  /** The expression part of `AssignmentStatementRejected`. */
  lemma AssignmentExpressionRejected(ts: seq<Token>, i: nat)
    requires i + 3 < |ts| && ts[i].kind == Identifier && ts[i + 1].kind == Assign
    requires ts[i + 2].kind == Int && ts[i + 3].kind == Semi
    ensures ExpressionAt(ts, i, false) ==
      Reject(ParseError(ts[i + 3].line, ts[i + 3].column, ExpectedExpression(ts[i + 3])), i + 4)
  {
    var semi := Reject(ParseError(ts[i + 3].line, ts[i + 3].column, ExpectedExpression(ts[i + 3])), i + 4);
    assert PrimaryAt(ts, i, false) == Accept(IdentExpr(ts[i]), i + 1);
    assert PrimaryAt(ts, i + 2, false) == Accept(IntLitExpr(ts[i + 2]), i + 3);
    assert ExpressionAt(ts, i + 2, false) == Accept(IntLitExpr(ts[i + 2]), i + 3);
    assert PrimaryAt(ts, i + 3, false) == semi;
    assert AssignmentAt(ts, i + 3, false) == semi;
    assert ExpressionAt(ts, i, false) == semi;
  }

  /** As intended, `x = lit ;` is an expression statement holding the
      `Assignment`. */
  lemma AssignmentStatementIntended(ts: seq<Token>, i: nat)
    requires i + 3 < |ts| && ts[i].kind == Identifier && ts[i + 1].kind == Assign
    requires ts[i + 2].kind == Int && ts[i + 3].kind == Semi
    ensures StatementAt(ts, i, true) == Accept(ExprStmt(Some(Assignment(ts[i], IntLitExpr(ts[i + 2])))), i + 4)
  {
    assert PrimaryAt(ts, i, true) == Accept(IdentExpr(ts[i]), i + 1);
    assert ExpressionAt(ts, i + 2, true) == Accept(IntLitExpr(ts[i + 2]), i + 3);
    assert ExpressionAt(ts, i, true) == Accept(Assignment(ts[i], IntLitExpr(ts[i + 2])), i + 3);
  }

  // Round trip of programs written out token by token

  const ReturnTok := Token(TokKind.Return, "return", 0, 0)
  const SemiTok := Token(Semi, ";", 0, 0)
  const AssignTok := Token(Assign, "=", 0, 0)
  const IncrementTok := Token(TokKind.Increment, "++", 0, 0)
  const LBraceTok := Token(LBrace, "{", 0, 0)
  const RBraceTok := Token(RBrace, "}", 0, 0)

  /** A one-token expression: a literal or a bare identifier. */
  predicate Atom(e: Expr) {
    (e.IntLitExpr? && e.lit.kind == Int) || (e.StrLitExpr? && e.lit.kind == String) ||
    (e.IdentExpr? && e.name.kind == Identifier)
  }

  function AtomToken(e: Expr): Token
    requires Atom(e)
  {
    match e
    case IntLitExpr(t) => t
    case StrLitExpr(t) => t
    case IdentExpr(t) => t
  }

  /** The statements written out below: `return ;`, `return a ;`,
      `T x = a ;`, `x ++ ;`, `a ;` and, where assignment is parsed as
      intended, `x = a ;`, with `a` an atom. */
  predicate SimpleStmt(s: Stmt, fix: bool) {
    match s
    case Return(None) => true
    case Return(Some(a)) => Atom(a)
    case VarDecl(t, n, Some(a)) => t.kind == Identifier && n.kind == Identifier && Atom(a)
    case ExprStmt(Some(Increment(x))) => x.kind == Identifier
    case ExprStmt(Some(Assignment(x, a))) => fix && x.kind == Identifier && Atom(a)
    case ExprStmt(Some(a)) => Atom(a)
    case _ => false
  }

  function StmtTokens(s: Stmt, fix: bool): (ts: seq<Token>)
    requires SimpleStmt(s, fix)
    ensures |ts| >= 2 && ts[|ts| - 1] == SemiTok
    ensures ts[0].kind == TokKind.Return || StartsPrimary(ts[0].kind)
  {
    match s
    case Return(None) => [ReturnTok, SemiTok]
    case Return(Some(a)) => [ReturnTok, AtomToken(a), SemiTok]
    case VarDecl(t, n, Some(a)) => [t, n, AssignTok, AtomToken(a), SemiTok]
    case ExprStmt(Some(Increment(x))) => [x, IncrementTok, SemiTok]
    case ExprStmt(Some(Assignment(x, a))) => [x, AssignTok, AtomToken(a), SemiTok]
    case ExprStmt(Some(a)) => [AtomToken(a), SemiTok]
  }

  /** An atom followed by something that extends no expression is parsed
      as itself. */
  lemma AtomRoundTrip(ts: seq<Token>, i: nat, a: Expr, fix: bool)
    requires Atom(a) && i + 1 < |ts| && ts[i] == AtomToken(a) && ts[i + 1].kind == Semi
    ensures PrimaryAt(ts, i, fix) == Accept(a, i + 1)
    ensures ExpressionAt(ts, i, fix) == Accept(a, i + 1)
  {
  }

  /** `a ;` after `return` round trip. */
  lemma ReturnValueRoundTrip(ts: seq<Token>, i: nat, a: Expr, fix: bool)
    requires Atom(a) && i + 1 < |ts| && ts[i] == AtomToken(a) && ts[i + 1].kind == Semi
    ensures ReturnAt(ts, i, fix) == Accept(Stmt.Return(Some(a)), i + 2)
  {
    AtomRoundTrip(ts, i, a, fix);
  }

  /** `T x = a ;` round trip. */
  lemma VarDeclRoundTrip(ts: seq<Token>, i: nat, t: Token, n: Token, a: Expr, fix: bool)
    requires Atom(a) && i + 4 < |ts| && ts[i] == t && ts[i + 1] == n && t.kind == Identifier && n.kind == Identifier
    requires ts[i + 2].kind == Assign && ts[i + 3] == AtomToken(a) && ts[i + 4].kind == Semi
    ensures VarDeclAt(ts, i, fix) == Accept(VarDecl(t, n, Some(a)), i + 5)
  {
    AtomRoundTrip(ts, i + 3, a, fix);
  }

  /** `x ++` round trip. */
  lemma IncrementRoundTrip(ts: seq<Token>, i: nat, x: Token, fix: bool)
    requires i + 2 < |ts| && ts[i] == x && x.kind == Identifier && ts[i + 1].kind == TokKind.Increment
    ensures ExpressionAt(ts, i, fix) == Accept(Expr.Increment(x), i + 2)
  {
    assert PrimaryAt(ts, i, fix) == Accept(IdentExpr(x), i + 1);
  }

  /** `x = a`, followed by `;`, round trip where assignment is parsed as
      intended. */
  lemma AssignmentRoundTrip(ts: seq<Token>, i: nat, x: Token, a: Expr)
    requires Atom(a) && i + 3 < |ts| && ts[i] == x && x.kind == Identifier && ts[i + 1].kind == Assign
    requires ts[i + 2] == AtomToken(a) && ts[i + 3].kind == Semi
    ensures ExpressionAt(ts, i, true) == Accept(Assignment(x, a), i + 3)
  {
    AtomRoundTrip(ts, i + 2, a, true);
    assert PrimaryAt(ts, i, true) == Accept(IdentExpr(x), i + 1);
  }

  /** An expression statement whose expression ends just before `;`. */
  lemma ExprStmtAt(ts: seq<Token>, i: nat, e: Expr, fix: bool)
    requires i + 1 < |ts| && ts[i].kind != TokKind.Return && !(ts[i].kind == Identifier && ts[i + 1].kind == Identifier)
    requires ExpressionAt(ts, i, fix).Accept? && ExpressionAt(ts, i, fix).value == e
    requires ExpressionAt(ts, i, fix).next < |ts| && ts[ExpressionAt(ts, i, fix).next].kind == Semi
    ensures StatementAt(ts, i, fix) == Accept(ExprStmt(Some(e)), ExpressionAt(ts, i, fix).next + 1)
  {
  }

  /** Parsing a written-out `return` or declaration gives it back. */
  lemma ReturnOrDeclRoundTrip(ts: seq<Token>, i: nat, s: Stmt, fix: bool)
    requires SimpleStmt(s, fix) && !s.ExprStmt? && HoldsAt(ts, i, StmtTokens(s, fix))
    ensures LookaheadSafe(ts, i)
    ensures StatementAt(ts, i, fix) == Accept(s, i + |StmtTokens(s, fix)|)
  {
    match s
    case Return(None) =>
      HoldsAtElems(ts, i, [ReturnTok, SemiTok]);
      ReturnWithoutValue(ts, i, fix);
    case Return(Some(a)) =>
      HoldsAtElems(ts, i, [ReturnTok, AtomToken(a), SemiTok]);
      ReturnValueRoundTrip(ts, i + 1, a, fix);
    case VarDecl(t, n, Some(a)) =>
      var w := [t, n, AssignTok, AtomToken(a), SemiTok];
      HoldsAtElems(ts, i, w);
      assert ts[i + 2] == w[2] && ts[i + 3] == w[3] && ts[i + 4] == w[4];
      VarDeclRoundTrip(ts, i, t, n, a, fix);
      TwoIdentifiersDeclare(ts, i, fix);
  }

  /** `x ++ ;` round trip. */
  lemma IncrementStmtRoundTrip(ts: seq<Token>, i: nat, x: Token, fix: bool)
    requires x.kind == Identifier && HoldsAt(ts, i, [x, IncrementTok, SemiTok])
    ensures LookaheadSafe(ts, i)
    ensures StatementAt(ts, i, fix) == Accept(ExprStmt(Some(Expr.Increment(x))), i + 3)
  {
    var w := [x, IncrementTok, SemiTok];
    HoldsAtElems(ts, i, w);
    assert ts[i + 2] == w[2];
    IncrementRoundTrip(ts, i, x, fix);
    ExprStmtAt(ts, i, Expr.Increment(x), fix);
  }

  /** `x = a ;` round trip, where assignment is parsed as intended. */
  lemma AssignmentStmtRoundTrip(ts: seq<Token>, i: nat, x: Token, a: Expr)
    requires x.kind == Identifier && Atom(a) && HoldsAt(ts, i, [x, AssignTok, AtomToken(a), SemiTok])
    ensures LookaheadSafe(ts, i)
    ensures StatementAt(ts, i, true) == Accept(ExprStmt(Some(Assignment(x, a))), i + 4)
  {
    var w := [x, AssignTok, AtomToken(a), SemiTok];
    HoldsAtElems(ts, i, w);
    assert ts[i + 2] == w[2] && ts[i + 3] == w[3];
    AssignmentRoundTrip(ts, i, x, a);
    ExprStmtAt(ts, i, Assignment(x, a), true);
  }

  /** `a ;` round trip. */
  lemma AtomStmtRoundTrip(ts: seq<Token>, i: nat, a: Expr, fix: bool)
    requires Atom(a) && HoldsAt(ts, i, [AtomToken(a), SemiTok])
    ensures LookaheadSafe(ts, i)
    ensures StatementAt(ts, i, fix) == Accept(ExprStmt(Some(a)), i + 2)
  {
    HoldsAtElems(ts, i, [AtomToken(a), SemiTok]);
    AtomRoundTrip(ts, i, a, fix);
    ExprStmtAt(ts, i, a, fix);
  }

  /** Parsing a written-out expression statement gives it back. */
  lemma ExprStmtRoundTrip(ts: seq<Token>, i: nat, s: Stmt, fix: bool)
    requires SimpleStmt(s, fix) && s.ExprStmt? && HoldsAt(ts, i, StmtTokens(s, fix))
    ensures LookaheadSafe(ts, i)
    ensures StatementAt(ts, i, fix) == Accept(s, i + |StmtTokens(s, fix)|)
  {
    match s
    case ExprStmt(Some(Increment(x))) =>
      IncrementStmtRoundTrip(ts, i, x, fix);
    case ExprStmt(Some(Assignment(x, a))) =>
      AssignmentStmtRoundTrip(ts, i, x, a);
    case ExprStmt(Some(a)) =>
      AtomStmtRoundTrip(ts, i, a, fix);
  }

  /** Parsing a written-out statement gives it back. */
  lemma StmtRoundTrip(ts: seq<Token>, i: nat, s: Stmt, fix: bool)
    requires StmtHeld(ts, i, s, fix)
    ensures !Check(ts, i, RBrace) && !IsAtEnd(ts, i) && LookaheadSafe(ts, i)
    ensures StatementAt(ts, i, fix) == Accept(s, StmtEnd(i, s, fix))
  {
    if s.ExprStmt? {
      ExprStmtRoundTrip(ts, i, s, fix);
    } else {
      ReturnOrDeclRoundTrip(ts, i, s, fix);
    }
  }

  predicate SimpleStmts(ss: seq<Stmt>, fix: bool) decreases |ss| {
    |ss| == 0 || (SimpleStmt(ss[0], fix) && SimpleStmts(ss[1..], fix))
  }

  function StmtsTokens(ss: seq<Stmt>, fix: bool): seq<Token>
    requires SimpleStmts(ss, fix)
  {
    if |ss| == 0 then [] else StmtTokens(ss[0], fix) + StmtsTokens(ss[1..], fix)
  }

  /** `ts` holds the written-out statement `s` from `i` on. */
  ghost predicate StmtHeld(ts: seq<Token>, i: nat, s: Stmt, fix: bool) {
    SimpleStmt(s, fix) && HoldsAt(ts, i, StmtTokens(s, fix))
  }

  /** `ts` holds the written-out statements `ss` from `i` on. */
  ghost predicate StmtsHeld(ts: seq<Token>, i: nat, ss: seq<Stmt>, fix: bool) {
    SimpleStmts(ss, fix) && HoldsAt(ts, i, StmtsTokens(ss, fix))
  }

  /** The index after the written-out statement `s` from `i`. */
  function StmtEnd(i: nat, s: Stmt, fix: bool): nat
    requires SimpleStmt(s, fix)
  {
    i + |StmtTokens(s, fix)|
  }

  /** The index after the written-out statements `ss` from `i`. */
  function StmtsEnd(i: nat, ss: seq<Stmt>, fix: bool): nat
    requires SimpleStmts(ss, fix)
  {
    i + |StmtsTokens(ss, fix)|
  }

  /** Written-out statements split into the first one and the rest. */
  lemma StmtsSplit(ts: seq<Token>, i: nat, ss: seq<Stmt>, fix: bool)
    requires |ss| > 0 && StmtsHeld(ts, i, ss, fix)
    ensures StmtHeld(ts, i, ss[0], fix) && StmtEnd(i, ss[0], fix) <= |ts|
    ensures StmtsHeld(ts, StmtEnd(i, ss[0], fix), ss[1..], fix)
    ensures StmtsEnd(i, ss, fix) == StmtsEnd(StmtEnd(i, ss[0], fix), ss[1..], fix)
  {
    HoldsAtSplit(ts, i, StmtTokens(ss[0], fix), StmtsTokens(ss[1..], fix));
  }

  /** The statement loop from `i` keeps `ss` and stops at `n`. */
  predicate StmtsGive(ts: seq<Token>, i: nat, ss: seq<Stmt>, n: nat, fix: bool)
    requires i <= |ts| && SafeEnd(ts)
  {
    StmtsFrom(ts, i, fix) == (ss, n)
  }

  /** One round of the statement loop over a written-out statement: it is
      kept, in front of what the rounds after it give. */
  lemma StmtsCons(ts: seq<Token>, i: nat, ss: seq<Stmt>, n: nat, fix: bool)
    requires SafeEnd(ts) && |ss| > 0 && StmtHeld(ts, i, ss[0], fix) && StmtEnd(i, ss[0], fix) <= |ts|
    requires StmtsGive(ts, StmtEnd(i, ss[0], fix), ss[1..], n, fix)
    ensures i <= |ts| && StmtsGive(ts, i, ss, n, fix)
  {
    StmtRoundTrip(ts, i, ss[0], fix);
    assert [ss[0]] + ss[1..] == ss;
  }

  /** The statement loop gives back written-out statements, up to the `}`. */
  lemma {:induction false} StmtsRoundTrip(ts: seq<Token>, i: nat, ss: seq<Stmt>, fix: bool)
    requires SafeEnd(ts) && StmtsHeld(ts, i, ss, fix)
    requires StmtsEnd(i, ss, fix) < |ts| && ts[StmtsEnd(i, ss, fix)].kind == RBrace
    ensures StmtsGive(ts, i, ss, StmtsEnd(i, ss, fix), fix)
    decreases |ss|
  {
    if |ss| > 0 {
      StmtsSplit(ts, i, ss, fix);
      StmtsRoundTrip(ts, StmtEnd(i, ss[0], fix), ss[1..], fix);
      StmtsCons(ts, i, ss, StmtsEnd(i, ss, fix), fix);
    } else {
      assert Check(ts, i, RBrace);
    }
  }

  function BlockTokens(b: Block, fix: bool): seq<Token>
    requires SimpleStmts(b.statements, fix)
  {
    [LBraceTok] + StmtsTokens(b.statements, fix) + [RBraceTok]
  }

  /** Parsing a written-out block gives it back. */
  lemma BlockRoundTrip(ts: seq<Token>, i: nat, b: Block, fix: bool)
    requires SafeEnd(ts) && SimpleStmts(b.statements, fix) && HoldsAt(ts, i, BlockTokens(b, fix))
    ensures BlockAt(ts, i, fix) == Accept(b, i + |BlockTokens(b, fix)|)
  {
    var body := StmtsTokens(b.statements, fix);
    HoldsAtSplit(ts, i, [LBraceTok] + body, [RBraceTok]);
    HoldsAtSplit(ts, i, [LBraceTok], body);
    HoldsAtElems(ts, i, [LBraceTok]);
    var j := i + 1 + |body|;
    HoldsAtElems(ts, j, [RBraceTok]);
    StmtsRoundTrip(ts, i + 1, b.statements, fix);
  }

  /** The functions written out below. */
  predicate SimpleFunction(f: Function, fix: bool) {
    f.name.kind == Identifier && IdentParams(f.params) && f.body.Some? && SimpleStmts(f.body.value.statements, fix)
  }

  function FunctionTokens(f: Function, fix: bool): seq<Token>
    requires SimpleFunction(f, fix)
  {
    HeaderTokens(f.name, f.params) + BlockTokens(f.body.value, fix)
  }

  /** Parsing a written-out function gives it back. */
  lemma FunctionRoundTrip(ts: seq<Token>, i: nat, f: Function, fix: bool)
    requires SafeEnd(ts) && FunctionHeld(ts, i, f, fix)
    ensures !IsAtEnd(ts, i)
    ensures FunctionDeclAt(ts, i, fix) == Accept(f, FunctionEnd(i, f, fix))
  {
    FunctionPieces(ts, i, f, fix);
    FunctionFromPieces(ts, i, f.name, f.params, f.body.value, i + |HeaderTokens(f.name, f.params)|, fix);
  }

  /** A written-out header followed by a written-out block is parsed as
      that function. */
  lemma FunctionFromPieces(ts: seq<Token>, i: nat, name: Token, ps: seq<Parameter>, b: Block, j: nat, fix: bool)
    requires SafeEnd(ts) && name.kind == Identifier && IdentParams(ps) && SimpleStmts(b.statements, fix)
    requires HoldsAt(ts, i, HeaderTokens(name, ps)) && j == i + |HeaderTokens(name, ps)|
    requires HoldsAt(ts, j, BlockTokens(b, fix))
    ensures !IsAtEnd(ts, i) && FunctionDeclAt(ts, i, fix) == Accept(Function(name, ps, Some(b)), j + |BlockTokens(b, fix)|)
  {
    HeaderRoundTrip(ts, i, name, ps);
    BlockRoundTrip(ts, j, b, fix);
    FunctionDeclOf(ts, i, name, ps, b, j, j + |BlockTokens(b, fix)|, fix);
  }

  /** A written-out function is its header's tokens, then its block's. */
  lemma FunctionPieces(ts: seq<Token>, i: nat, f: Function, fix: bool)
    requires FunctionHeld(ts, i, f, fix)
    ensures HoldsAt(ts, i, HeaderTokens(f.name, f.params))
    ensures HoldsAt(ts, i + |HeaderTokens(f.name, f.params)|, BlockTokens(f.body.value, fix))
    ensures i + |HeaderTokens(f.name, f.params)| + |BlockTokens(f.body.value, fix)| == FunctionEnd(i, f, fix)
  {
    HoldsAtSplit(ts, i, HeaderTokens(f.name, f.params), BlockTokens(f.body.value, fix));
  }

  /** A declaration whose header and block parse is that function. */
  lemma FunctionDeclOf(ts: seq<Token>, i: nat, name: Token, ps: seq<Parameter>, b: Block, j: nat, k: nat, fix: bool)
    requires i <= |ts| && SafeEnd(ts)
    requires HeaderAt(ts, i) == Accept((name, ps), j)
    requires BlockAt(ts, j, fix) == Accept(b, k)
    ensures !IsAtEnd(ts, i) && FunctionDeclAt(ts, i, fix) == Accept(Function(name, ps, Some(b)), k)
  {
  }

  predicate SimpleFunctions(fs: seq<Function>, fix: bool) decreases |fs| {
    |fs| == 0 || (SimpleFunction(fs[0], fix) && SimpleFunctions(fs[1..], fix))
  }

  function FunctionsTokens(fs: seq<Function>, fix: bool): seq<Token>
    requires SimpleFunctions(fs, fix)
  {
    if |fs| == 0 then [] else FunctionTokens(fs[0], fix) + FunctionsTokens(fs[1..], fix)
  }

  /** `ts` holds the written-out function `f` from `i` on. */
  ghost predicate FunctionHeld(ts: seq<Token>, i: nat, f: Function, fix: bool) {
    SimpleFunction(f, fix) && HoldsAt(ts, i, FunctionTokens(f, fix))
  }

  /** `ts` holds the written-out functions `fs` from `i` on. */
  ghost predicate FunctionsHeld(ts: seq<Token>, i: nat, fs: seq<Function>, fix: bool) {
    SimpleFunctions(fs, fix) && HoldsAt(ts, i, FunctionsTokens(fs, fix))
  }

  /** The index after the written-out function `f` from `i`. */
  function FunctionEnd(i: nat, f: Function, fix: bool): nat
    requires SimpleFunction(f, fix)
  {
    i + |FunctionTokens(f, fix)|
  }

  /** The index after the written-out functions `fs` from `i`. */
  function FunctionsEnd(i: nat, fs: seq<Function>, fix: bool): nat
    requires SimpleFunctions(fs, fix)
  {
    i + |FunctionsTokens(fs, fix)|
  }

  /** Written-out functions split into the first one and the rest. */
  lemma FunctionsSplit(ts: seq<Token>, i: nat, fs: seq<Function>, fix: bool)
    requires |fs| > 0 && FunctionsHeld(ts, i, fs, fix)
    ensures FunctionHeld(ts, i, fs[0], fix) && FunctionEnd(i, fs[0], fix) <= |ts|
    ensures FunctionsHeld(ts, FunctionEnd(i, fs[0], fix), fs[1..], fix)
    ensures FunctionsEnd(i, fs, fix) == FunctionsEnd(FunctionEnd(i, fs[0], fix), fs[1..], fix)
  {
    HoldsAtSplit(ts, i, FunctionTokens(fs[0], fix), FunctionsTokens(fs[1..], fix));
  }

  /** The top-level loop from `i` keeps `fs`. */
  predicate FunctionsGive(ts: seq<Token>, i: nat, fs: seq<Function>, fix: bool)
    requires i <= |ts| && SafeEnd(ts)
  {
    FunctionsFrom(ts, i, fix) == fs
  }

  /** One round of the top-level loop over a written-out function: it is
      kept, in front of what the rounds after it give. */
  lemma FunctionsCons(ts: seq<Token>, i: nat, fs: seq<Function>, fix: bool)
    requires SafeEnd(ts) && |fs| > 0 && FunctionHeld(ts, i, fs[0], fix) && FunctionEnd(i, fs[0], fix) <= |ts|
    requires FunctionsGive(ts, FunctionEnd(i, fs[0], fix), fs[1..], fix)
    ensures i <= |ts| && FunctionsGive(ts, i, fs, fix)
  {
    FunctionRoundTrip(ts, i, fs[0], fix);
    FunctionsAfter(ts, i, fs[0], FunctionEnd(i, fs[0], fix), fs[1..], fix);
    assert [fs[0]] + fs[1..] == fs;
  }

  /** A declaration that parses is kept in front of the rounds after it. */
  lemma FunctionsAfter(ts: seq<Token>, i: nat, f: Function, j: nat, rest: seq<Function>, fix: bool)
    requires i <= |ts| && SafeEnd(ts) && !IsAtEnd(ts, i)
    requires FunctionDeclAt(ts, i, fix) == Accept(f, j) && FunctionsGive(ts, j, rest, fix)
    ensures FunctionsGive(ts, i, [f] + rest, fix)
  {
  }

  /** The top-level loop gives back written-out functions, up to the end. */
  lemma {:induction false} FunctionsRoundTrip(ts: seq<Token>, i: nat, fs: seq<Function>, fix: bool)
    requires SafeEnd(ts) && FunctionsHeld(ts, i, fs, fix) && IsAtEnd(ts, FunctionsEnd(i, fs, fix))
    ensures FunctionsGive(ts, i, fs, fix)
    decreases |fs|
  {
    if |fs| > 0 {
      FunctionsSplit(ts, i, fs, fix);
      FunctionsRoundTrip(ts, FunctionEnd(i, fs[0], fix), fs[1..], fix);
      FunctionsCons(ts, i, fs, fix);
    }
  }

  /** The tokens of a program, closed by the end-of-file token. */
  function ProgramTokens(p: Program, fix: bool): seq<Token>
    requires SimpleFunctions(p.functions, fix)
  {
    FunctionsTokens(p.functions, fix) + [EofToken]
  }

  /** Parsing a written-out program gives it back: with assignment as
      written, for programs without assignment statements; as intended,
      for programs with them too. */
  lemma ProgramRoundTrip(p: Program, fix: bool)
    requires SimpleFunctions(p.functions, fix)
    ensures SafeEnd(ProgramTokens(p, fix))
    ensures Parse(ProgramTokens(p, fix), fix) == p
  {
    var ts := ProgramTokens(p, fix);
    var body := FunctionsTokens(p.functions, fix);
    HoldsAtWhole([], body, [EofToken]);
    assert [] + body + [EofToken] == ts;
    FunctionsRoundTrip(ts, 0, p.functions, fix);
  }
}
