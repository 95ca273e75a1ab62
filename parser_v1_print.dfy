/** Declarations of the V1 tree written back out as tokens, and the round
    trip: the parser of NexusCompilerV1/src/Parsing/Parser.cpp reads a
    written-out program back to the same tree. Expressions are one-token
    atoms: identifiers and the literals `parsePrimary` accepts. */
module V1Printer {
  import opened Wrappers
  import opened TokenKinds
  import opened AstV1
  import opened V1Grammar
  import opened SeqFacts
  import V1Facts

  /** A token as written out; positions play no part in parsing. */
  function Tok(k: TokenKind, lexeme: string): Token {
    Token(k, lexeme, 0, 0)
  }

  const LBrace := Tok(DelimLbrace, "{")
  const RBrace := Tok(DelimRbrace, "}")
  const LParen := Tok(DelimLparen, "(")
  const RParen := Tok(DelimRparen, ")")
  const Semi := Tok(DelimSemicolon, ";")
  const Colon := Tok(DelimColon, ":")
  const Comma := Tok(DelimComma, ",")
  const Arrow := Tok(OpArrow, "->")
  const AssignTok := Tok(OpAssign, "=")
  const WhileTok := Tok(KwWhile, "while")
  const EofTok := Tok(Eof, "")
  const PrivateTok := Tok(KwPrivate, "private")
  const CtorTok := Tok(KwConstructor, "Constructor")
  const ClassTok := Tok(KwClass, "class")
  const OptionsTok := Tok(KwOptions, "Options")

  // ------------------------------------------------------------ expressions

  /** An expression of one token: an identifier, or a literal holding the
      value `LiteralExpr` decodes from its token. */
  predicate AtomOk(e: Expr) {
    e.IdentifierExpr?
    || (e.Literal? && e.token.kind in {KwTrue, LitInteger, LitFloat, LitString} && e.value == LiteralValue(e.token))
  }

  /** The token of an atom. */
  function AtomToken(e: Expr): (t: Token)
    ensures AtomOk(e) ==> t.kind in {Identifier, KwTrue, LitInteger, LitFloat, LitString}
  {
    match e
    case Literal(token, _) => token
    case IdentifierExpr(name) => Tok(Identifier, name)
    case _ => Tok(Identifier, "")
  }

  /** An atom is a primary expression of one token. */
  lemma AtomPrimary(ts: seq<Token>, j: nat, e: Expr)
    requires AtomOk(e) && j < |ts| && ts[j] == AtomToken(e)
    ensures PrimaryAt(ts, j) == Done(e, j + 1)
  {
    if e.IdentifierExpr? {
      assert Check(ts, j, Identifier);
    } else {
      assert LiteralOf(ts[j]) == e;
    }
  }

  /** An atom followed by neither `(` nor `.` is a whole unary expression. */
  lemma AtomUnary(ts: seq<Token>, j: nat, e: Expr)
    requires AtomOk(e) && j < |ts| && ts[j] == AtomToken(e)
    requires !Check(ts, j + 1, DelimLparen) && !Check(ts, j + 1, OpDot)
    ensures UnaryAt(ts, j) == Done(e, j + 1)
  {
    AtomPrimary(ts, j, e);
    assert CallLoop(ts, e, j + 1) == Done(e, j + 1);
  }

  /** An atom followed by `;` or `)` is a whole expression. */
  lemma AtomExpression(ts: seq<Token>, j: nat, e: Expr)
    requires AtomOk(e) && j + 1 < |ts| && ts[j] == AtomToken(e)
    requires ts[j + 1].kind == DelimSemicolon || ts[j + 1].kind == DelimRparen
    ensures ExpressionAt(ts, j) == Done(e, j + 1)
  {
    AtomComparison(ts, j, e);
    V1Facts.AssignmentStop(ts, j, e, j + 1);
  }

  /** An atom followed by `;` or `)` is a whole comparison: each binary
      level reads no operator after it. */
  lemma AtomComparison(ts: seq<Token>, j: nat, e: Expr)
    requires AtomOk(e) && j + 1 < |ts| && ts[j] == AtomToken(e)
    requires ts[j + 1].kind == DelimSemicolon || ts[j + 1].kind == DelimRparen
    ensures ComparisonAt(ts, j) == Done(e, j + 1) && !Check(ts, j + 1, OpAssign)
  {
    AtomUnary(ts, j, e);
    NoRoundsAfter(ts, j + 1);
    V1Facts.LevelFoldsLeft(ts, V1Facts.FactorLevel, j, e, j + 1, []);
    V1Facts.LevelFoldsLeft(ts, V1Facts.TermLevel, j, e, j + 1, []);
    V1Facts.LevelFoldsLeft(ts, V1Facts.ComparisonLevel, j, e, j + 1, []);
  }

  /** No binary level reads an operator at a `;` or a `)`. */
  lemma NoRoundsAfter(ts: seq<Token>, k: nat)
    requires k < |ts| && (ts[k].kind == DelimSemicolon || ts[k].kind == DelimRparen)
    ensures V1Facts.RoundsAt(ts, V1Facts.FactorLevel, k, [])
    ensures V1Facts.RoundsAt(ts, V1Facts.TermLevel, k, [])
    ensures V1Facts.RoundsAt(ts, V1Facts.ComparisonLevel, k, [])
    ensures !Check(ts, k, OpAssign)
  {
  }

  /** A type as `parseType` builds it: a name and nothing else. */
  predicate TypeOk(t: Type) {
    t == Named(t.name)
  }

  /** A type written as an identifier token. */
  function TypeToken(t: Type): Token {
    Tok(Identifier, t.name)
  }

  // ------------------------------------------------------------- statements

  /** Statements whose expressions are atoms. */
  predicate StmtOk(s: Stmt)
    decreases s, 1
  {
    match s
    case ExprStmt(e) => AtomOk(e)
    case While(c, body) => AtomOk(c) && StmtOk(body)
    case Block(ss) => StmtsOk(ss)
  }

  predicate StmtsOk(ss: seq<Stmt>)
    decreases ss, 0
  {
    ss == [] || (StmtOk(ss[0]) && StmtsOk(ss[1..]))
  }

  /** `e ;`, `while ( c ) body` and `{ … }`. */
  function StmtTokens(s: Stmt): (w: seq<Token>)
    ensures |w| >= 2
    ensures StmtOk(s) ==> w[0].kind in {Identifier, KwTrue, LitInteger, LitFloat, LitString, KwWhile, DelimLbrace}
    decreases s, 1
  {
    match s
    case ExprStmt(e) => [AtomToken(e), Semi]
    case While(c, body) => [WhileTok, LParen, AtomToken(c), RParen] + StmtTokens(body)
    case Block(ss) => [LBrace] + StmtsTokens(ss) + [RBrace]
  }

  function StmtsTokens(ss: seq<Stmt>): seq<Token>
    decreases ss, 0
  {
    if ss == [] then [] else StmtTokens(ss[0]) + StmtsTokens(ss[1..])
  }

  /** Where a statement written out from `j` ends. */
  function StmtEnd(j: nat, s: Stmt): nat {
    j + |StmtTokens(s)|
  }

  /** Where statements written out from `j` end. */
  function StmtsEnd(j: nat, ss: seq<Stmt>): nat {
    j + |StmtsTokens(ss)|
  }

  /** `parseStatement` reads `s` from `j` up to `k`, and `j` holds neither
      `}` nor the end, so the statement loop of a block takes it. */
  ghost predicate StmtRead(ts: seq<Token>, j: nat, s: Stmt, k: nat) {
    && j < k <= |ts| && ts[j].kind != DelimRbrace && ts[j].kind != Eof
    && StatementAt(ts, j) == Done(s, k)
  }

  /** `e ;` with an atom `e`. */
  lemma ExprStmtFromPieces(ts: seq<Token>, j: nat, e: Expr)
    requires AtomOk(e) && j + 1 < |ts| && ts[j] == AtomToken(e) && ts[j + 1].kind == DelimSemicolon
    ensures StmtRead(ts, j, ExprStmt(e), j + 2)
  {
    AtomExpression(ts, j, e);
    assert ExprStmtAt(ts, j) == Done(ExprStmt(e), j + 2);
  }

  /** `while ( c` and `)` written out from `j`. */
  ghost predicate WhileHeadAt(ts: seq<Token>, j: nat, c: Expr) {
    && AtomOk(c) && j + 4 <= |ts|
    && ts[j] == WhileTok && ts[j + 1] == LParen && ts[j + 2] == AtomToken(c) && ts[j + 3] == RParen
  }

  /** `while ( c ) body` with an atom `c`. */
  lemma WhileFromPieces(ts: seq<Token>, j: nat, c: Expr, body: Stmt, k: nat)
    requires WhileHeadAt(ts, j, c) && StmtRead(ts, j + 4, body, k)
    ensures StmtRead(ts, j, While(c, body), k)
  {
    WhileSteps(ts, j, c, body, k);
  }

  lemma WhileSteps(ts: seq<Token>, j: nat, c: Expr, body: Stmt, k: nat)
    requires AtomOk(c) && j + 4 <= |ts| && ts[j].kind == KwWhile && ts[j + 1].kind == DelimLparen
    requires ts[j + 2] == AtomToken(c) && ts[j + 3].kind == DelimRparen
    requires k <= |ts| && StatementAt(ts, j + 4) == Done(body, k)
    ensures StatementAt(ts, j) == Done(While(c, body), k)
  {
    AtomExpression(ts, j + 2, c);
    assert Consume(ts, j + 1, DelimLparen, WhileOpen) == Done(ts[j + 1], j + 2);
    assert Consume(ts, j + 3, DelimRparen, WhileClose) == Done(ts[j + 3], j + 4);
    assert WhileAt(ts, j + 1) == Done(While(c, body), k);
  }

  /** `{`, statements from `j + 1` up to `k`, then `}` at `k`. */
  ghost predicate BlockRead(ts: seq<Token>, j: nat, ss: seq<Stmt>, k: nat) {
    && j < k < |ts| && ts[j].kind == DelimLbrace && ts[k].kind == DelimRbrace
    && StmtsLoop(ts, [], j + 1) == Done(ss, k)
  }

  lemma BlockFromPieces(ts: seq<Token>, j: nat, ss: seq<Stmt>, k: nat)
    requires BlockRead(ts, j, ss, k)
    ensures BlockAt(ts, j) == Done(Block(ss), k + 1)
    ensures StmtRead(ts, j, Block(ss), k + 1)
  {
    BlockSteps(ts, j, ss, k);
  }

  lemma BlockSteps(ts: seq<Token>, j: nat, ss: seq<Stmt>, k: nat)
    requires j < k < |ts| && ts[j].kind == DelimLbrace && ts[k].kind == DelimRbrace
    requires StmtsLoop(ts, [], j + 1) == Done(ss, k)
    ensures BlockAt(ts, j) == Done(Block(ss), k + 1)
    ensures StatementAt(ts, j) == Done(Block(ss), k + 1)
  {
    assert Consume(ts, j, DelimLbrace, BlockOpen) == Done(ts[j], j + 1);
    assert Consume(ts, k, DelimRbrace, BlockClose) == Done(ts[k], k + 1);
    assert BlockAt(ts, j) == Done(Block(ss), k + 1);
  }

  /** A round of the statement loop at a statement that is not `}`. */
  lemma StmtsStep(ts: seq<Token>, j: nat, acc: seq<Stmt>, s: Stmt, k: nat)
    requires StmtRead(ts, j, s, k)
    ensures StmtsLoop(ts, acc, j) == StmtsLoop(ts, acc + [s], k)
  {
  }

  /** The statement loop stops at `}`. */
  lemma StmtsStop(ts: seq<Token>, j: nat, acc: seq<Stmt>)
    requires j < |ts| && ts[j].kind == DelimRbrace
    ensures StmtsLoop(ts, acc, j) == Done(acc, j)
  {
  }

  /** A written-out statement reads back as itself. */
  lemma {:induction false} StmtRoundTrip(ts: seq<Token>, j: nat, s: Stmt)
    requires StmtOk(s) && HoldsAt(ts, j, StmtTokens(s))
    ensures StmtRead(ts, j, s, StmtEnd(j, s))
    decreases s, 2
  {
    match s
    case ExprStmt(e) => ExprStmtRoundTrip(ts, j, e);
    case While(c, body) => WhileRoundTrip(ts, j, c, body);
    case Block(ss) => BlockRoundTrip(ts, j, ss);
  }

  lemma ExprStmtRoundTrip(ts: seq<Token>, j: nat, e: Expr)
    requires AtomOk(e) && HoldsAt(ts, j, StmtTokens(ExprStmt(e)))
    ensures StmtRead(ts, j, ExprStmt(e), StmtEnd(j, ExprStmt(e)))
  {
    var w := StmtTokens(ExprStmt(e));
    HoldsAtElems(ts, j, w);
    assert ts[j] == w[0] && ts[j + 1] == w[1];
    ExprStmtFromPieces(ts, j, e);
  }

  /** The written-out tokens of a `while` hold its head and its body. */
  lemma WhileLaidOut(ts: seq<Token>, j: nat, c: Expr, body: Stmt)
    requires AtomOk(c) && HoldsAt(ts, j, StmtTokens(While(c, body)))
    ensures WhileHeadAt(ts, j, c) && HoldsAt(ts, j + 4, StmtTokens(body))
    ensures StmtEnd(j, While(c, body)) == StmtEnd(j + 4, body)
  {
    var head := [WhileTok, LParen, AtomToken(c), RParen];
    HoldsAtSplit(ts, j, head, StmtTokens(body));
    HoldsAtElems(ts, j, head);
    assert ts[j] == head[0] && ts[j + 1] == head[1] && ts[j + 2] == head[2] && ts[j + 3] == head[3];
  }

  lemma {:induction false} WhileRoundTrip(ts: seq<Token>, j: nat, c: Expr, body: Stmt)
    requires AtomOk(c) && StmtOk(body) && HoldsAt(ts, j, StmtTokens(While(c, body)))
    ensures StmtRead(ts, j, While(c, body), StmtEnd(j, While(c, body)))
    decreases While(c, body), 1
  {
    WhileLaidOut(ts, j, c, body);
    StmtRoundTrip(ts, j + 4, body);
    WhileFromPieces(ts, j, c, body, StmtEnd(j + 4, body));
  }

  /** The written-out tokens of a block: `{`, the statements, `}`. */
  lemma BlockLaidOut(ts: seq<Token>, j: nat, ss: seq<Stmt>)
    requires HoldsAt(ts, j, StmtTokens(Block(ss)))
    ensures ts[j].kind == DelimLbrace && HoldsAt(ts, j + 1, StmtsTokens(ss))
    ensures j < StmtsEnd(j + 1, ss) < |ts| && ts[StmtsEnd(j + 1, ss)].kind == DelimRbrace
    ensures StmtEnd(j, Block(ss)) == StmtsEnd(j + 1, ss) + 1
  {
    var n := |StmtsTokens(ss)|;
    HoldsAtSplit(ts, j, [LBrace] + StmtsTokens(ss), [RBrace]);
    HoldsAtSplit(ts, j, [LBrace], StmtsTokens(ss));
    HoldsAtElems(ts, j, [LBrace]);
    HoldsAtElems(ts, j + 1 + n, [RBrace]);
  }

  /** The pieces of a written-out block that `parseBlockStmt` reads. */
  lemma {:induction false} BlockPieces(ts: seq<Token>, j: nat, ss: seq<Stmt>)
    requires StmtsOk(ss) && HoldsAt(ts, j, StmtTokens(Block(ss)))
    ensures BlockRead(ts, j, ss, StmtsEnd(j + 1, ss))
    ensures StmtEnd(j, Block(ss)) == StmtsEnd(j + 1, ss) + 1
    decreases ss, 2
  {
    BlockLaidOut(ts, j, ss);
    StmtsWhole(ts, j + 1, ss);
  }

  /** A written-out block reads back as itself. */
  lemma {:induction false} BlockRoundTrip(ts: seq<Token>, j: nat, ss: seq<Stmt>)
    requires StmtsOk(ss) && HoldsAt(ts, j, StmtTokens(Block(ss)))
    ensures BlockAt(ts, j) == Done(Block(ss), StmtEnd(j, Block(ss)))
    ensures StmtRead(ts, j, Block(ss), StmtEnd(j, Block(ss)))
    decreases ss, 3
  {
    BlockPieces(ts, j, ss);
    BlockFromPieces(ts, j, ss, StmtsEnd(j + 1, ss));
  }

  /** The statement loop over a block's statements, up to its `}`. */
  lemma {:induction false} StmtsWhole(ts: seq<Token>, s: nat, ss: seq<Stmt>)
    requires StmtsOk(ss) && HoldsAt(ts, s, StmtsTokens(ss))
    requires StmtsEnd(s, ss) < |ts| && ts[StmtsEnd(s, ss)].kind == DelimRbrace
    ensures StmtsLoop(ts, [], s) == Done(ss, StmtsEnd(s, ss))
    decreases ss, 1
  {
    AppendEmpty(ss);
    StmtsStop(ts, StmtsEnd(s, ss), ss);
    StmtsRoundTrip(ts, s, [], ss);
  }

  /** The tokens of a first statement and of the rest. */
  lemma StmtsSplit(ts: seq<Token>, j: nat, ss: seq<Stmt>)
    requires ss != [] && StmtsOk(ss) && HoldsAt(ts, j, StmtsTokens(ss))
    ensures StmtOk(ss[0]) && StmtsOk(ss[1..])
    ensures HoldsAt(ts, j, StmtTokens(ss[0]))
    ensures HoldsAt(ts, StmtEnd(j, ss[0]), StmtsTokens(ss[1..]))
    ensures StmtsEnd(j, ss) == StmtsEnd(StmtEnd(j, ss[0]), ss[1..])
  {
    HoldsAtSplit(ts, j, StmtTokens(ss[0]), StmtsTokens(ss[1..]));
  }

  /** The statement loop reads written-out statements in order. */
  lemma {:induction false} StmtsRoundTrip(ts: seq<Token>, j: nat, acc: seq<Stmt>, ss: seq<Stmt>)
    requires |ts| > 0 && StmtsOk(ss) && HoldsAt(ts, j, StmtsTokens(ss))
    ensures StmtsEnd(j, ss) <= |ts|
    ensures StmtsLoop(ts, acc, j) == StmtsLoop(ts, acc + ss, StmtsEnd(j, ss))
    decreases ss, 0
  {
    HoldsAtFits(ts, j, StmtsTokens(ss));
    if ss == [] {
      AppendEmpty(acc);
    } else {
      StmtsSplit(ts, j, ss);
      AppendHead(acc, ss);
      StmtRoundTrip(ts, j, ss[0]);
      StmtsStep(ts, j, acc, ss[0], StmtEnd(j, ss[0]));
      StmtsRoundTrip(ts, StmtEnd(j, ss[0]), acc + [ss[0]], ss[1..]);
    }
  }

  // ------------------------------------------------------------- parameters

  /** Parameters whose types are names. */
  predicate ParamsOk(ps: seq<Param>) {
    forall i :: 0 <= i < |ps| ==> TypeOk(ps[i].paramType)
  }

  /** `name : Type ,`: every parameter is followed by a comma, which the
      parameter loop also takes before `)`. */
  function ParamTokens(p: Param): seq<Token> {
    [Tok(Identifier, p.name), Colon, TypeToken(p.paramType), Comma]
  }

  function ParamsTokens(ps: seq<Param>): seq<Token> {
    if ps == [] then [] else ParamTokens(ps[0]) + ParamsTokens(ps[1..])
  }

  /** Where parameters written out from `j` end. */
  function ParamsEnd(j: nat, ps: seq<Param>): nat {
    j + |ParamsTokens(ps)|
  }

  /** A parameter written out from `j`, token by token. */
  ghost predicate ParamAtPos(ts: seq<Token>, j: nat, p: Param) {
    && j + 4 <= |ts| && TypeOk(p.paramType)
    && ts[j] == Tok(Identifier, p.name) && ts[j + 1] == Colon
    && ts[j + 2] == TypeToken(p.paramType) && ts[j + 3] == Comma
  }

  /** Written-out parameters: the first one token by token, and the rest. */
  lemma ParamsSplit(ts: seq<Token>, j: nat, ps: seq<Param>)
    requires ps != [] && ParamsOk(ps) && HoldsAt(ts, j, ParamsTokens(ps))
    ensures ParamAtPos(ts, j, ps[0]) && ParamsOk(ps[1..])
    ensures HoldsAt(ts, j + 4, ParamsTokens(ps[1..]))
    ensures ParamsEnd(j, ps) == ParamsEnd(j + 4, ps[1..])
  {
    var w := ParamTokens(ps[0]);
    HoldsAtSplit(ts, j, w, ParamsTokens(ps[1..]));
    HoldsAtElems(ts, j, w);
    assert ts[j] == w[0] && ts[j + 1] == w[1] && ts[j + 2] == w[2] && ts[j + 3] == w[3];
  }

  /** One round of the parameter loop over a written-out parameter. */
  lemma ParamStep(ts: seq<Token>, j: nat, acc: seq<Param>, p: Param)
    requires ParamAtPos(ts, j, p)
    ensures ParamsLoop(ts, acc, j) == ParamsLoop(ts, acc + [p], j + 4)
  {
    assert ParamAt(ts, j) == Done(p, j + 3);
    assert CommaUnlessClose(ts, j + 3, ParamComma) == Done(true, j + 4);
  }

  /** The parameter loop stops at `)`. */
  lemma ParamsStop(ts: seq<Token>, j: nat, acc: seq<Param>)
    requires j < |ts| && ts[j].kind == DelimRparen
    ensures ParamsLoop(ts, acc, j) == Done(acc, j)
  {
  }

  /** The parameter loop reads written-out parameters in order. */
  lemma {:induction false} ParamsRoundTrip(ts: seq<Token>, j: nat, acc: seq<Param>, ps: seq<Param>)
    requires |ts| > 0 && ParamsOk(ps) && HoldsAt(ts, j, ParamsTokens(ps))
    ensures ParamsEnd(j, ps) <= |ts|
    ensures ParamsLoop(ts, acc, j) == ParamsLoop(ts, acc + ps, ParamsEnd(j, ps))
    decreases ps
  {
    HoldsAtFits(ts, j, ParamsTokens(ps));
    if ps == [] {
      AppendEmpty(acc);
    } else {
      ParamsSplit(ts, j, ps);
      AppendHead(acc, ps);
      ParamStep(ts, j, acc, ps[0]);
      ParamsRoundTrip(ts, j + 4, acc + [ps[0]], ps[1..]);
    }
  }

  // ---------------------------------------------------------------- methods

  /** A method as `parseMethodDecl` builds it: a block body, named
      parameter and return types, and for a constructor the name
      `Constructor` and the default, nameless return type. */
  predicate MethodOk(m: MethodDecl) {
    && m.body.Block? && StmtOk(m.body) && ParamsOk(m.params)
    && (m.isConstructor ==> m.name == "Constructor" && m.returnType == Named(""))
    && (!m.isConstructor ==> TypeOk(m.returnType))
  }

  function NameToken(m: MethodDecl): Token {
    if m.isConstructor then CtorTok else Tok(Identifier, m.name)
  }

  /** `-> Type`, which a constructor leaves out. */
  function ReturnTokens(m: MethodDecl): seq<Token> {
    if m.isConstructor then [] else [Arrow, TypeToken(m.returnType)]
  }

  /** A method member: `private` in front of one that is not public, the
      name, the parameters in parentheses, the return type and the body. */
  function MethodTokens(m: MethodDecl): seq<Token> {
    (if m.isPublic then [] else [PrivateTok]) + [NameToken(m), LParen] + ParamsTokens(m.params)
    + [RParen] + ReturnTokens(m) + StmtTokens(m.body)
  }

  /** Where the parts of a method written out from `j` start: its name, its
      `)`, its body, and where it ends. */
  function NamePos(j: nat, m: MethodDecl): nat {
    j + (if m.isPublic then 0 else 1)
  }

  function ClosePos(j: nat, m: MethodDecl): nat {
    ParamsEnd(NamePos(j, m) + 2, m.params)
  }

  function MethodEnd(j: nat, m: MethodDecl): nat {
    TailEnd(ClosePos(j, m), m)
  }

  /** Where a method's tail written out from its `)` at `n` ends. */
  function TailEnd(n: nat, m: MethodDecl): nat {
    StmtEnd(n + 1 + |ReturnTokens(m)|, m.body)
  }

  /** A method written out from `j` on, part by part. */
  ghost predicate MethodAt(ts: seq<Token>, j: nat, m: MethodDecl) {
    && MethodOk(m) && MethodEnd(j, m) <= |ts|
    && (!m.isPublic ==> ts[j] == PrivateTok)
    && HeadAt(ts, j, m)
    && TailAt(ts, ClosePos(j, m), m)
  }

  /** The name, `(` and the parameters of a method written out from `j`,
      up to its `)`. */
  ghost predicate HeadAt(ts: seq<Token>, j: nat, m: MethodDecl) {
    && ParamsOk(m.params) && (m.isConstructor ==> m.name == "Constructor")
    && ClosePos(j, m) < |ts| && ts[ClosePos(j, m)] == RParen
    && ts[NamePos(j, m)] == NameToken(m) && ts[NamePos(j, m) + 1] == LParen
    && HoldsAt(ts, NamePos(j, m) + 2, ParamsTokens(m.params))
  }

  /** `)`, the return type and the body of a method written out from `n` on. */
  ghost predicate TailAt(ts: seq<Token>, n: nat, m: MethodDecl) {
    && n < |ts| && ts[n] == RParen
    && HoldsAt(ts, n + 1, ReturnTokens(m))
    && HoldsAt(ts, n + 1 + |ReturnTokens(m)|, StmtTokens(m.body))
  }

  /** The written-out tokens of a method hold its parts. */
  lemma MethodLaidOut(ts: seq<Token>, j: nat, m: MethodDecl)
    requires MethodOk(m) && HoldsAt(ts, j, MethodTokens(m))
    ensures MethodAt(ts, j, m)
  {
    var v := if m.isPublic then [] else [PrivateTok];
    var h := [NameToken(m), LParen];
    var ps := ParamsTokens(m.params);
    var r := ReturnTokens(m);
    HoldsAtSplit(ts, j, v + h + ps + [RParen] + r, StmtTokens(m.body));
    HoldsAtSplit(ts, j, v + h + ps + [RParen], r);
    HoldsAtSplit(ts, j, v + h + ps, [RParen]);
    HoldsAtSplit(ts, j, v + h, ps);
    HoldsAtSplit(ts, j, v, h);
    HoldsAtElems(ts, j, v);
    HoldsAtElems(ts, j + |v|, h);
    HoldsAtElems(ts, ClosePos(j, m), [RParen]);
    assert ts[j + |v|] == h[0] && ts[j + |v| + 1] == h[1];
  }

  lemma ReturnRoundTrip(ts: seq<Token>, j: nat, m: MethodDecl)
    requires |ts| > 0 && MethodOk(m) && HoldsAt(ts, j, ReturnTokens(m))
    ensures j + |ReturnTokens(m)| <= |ts|
    ensures ReturnTypeAt(ts, j, m.isConstructor) == Done(m.returnType, j + |ReturnTokens(m)|)
  {
    var w := ReturnTokens(m);
    HoldsAtElems(ts, j, w);
    if !m.isConstructor {
      assert ts[j] == w[0] && ts[j + 1] == w[1];
    }
  }

  /** The parameter list, read from its first parameter up to its `)`. */
  lemma ParamsWhole(ts: seq<Token>, s: nat, ps: seq<Param>, n: nat)
    requires ParamsOk(ps) && HoldsAt(ts, s, ParamsTokens(ps))
    requires n == ParamsEnd(s, ps) && n < |ts| && ts[n] == RParen
    ensures ParamsLoop(ts, [], s) == Done(ps, n)
  {
    AppendEmpty(ps);
    ParamsStop(ts, n, ps);
    ParamsRoundTrip(ts, s, [], ps);
  }

  /** What `parseMethodDecl` reads from the `)` at `n` on: the return type
      `rt` up to `k`, then the body up to `e`. */
  ghost predicate TailRead(ts: seq<Token>, n: nat, ctor: bool, rt: Type, k: nat, body: Stmt, e: nat) {
    && n < |ts| && ts[n].kind == DelimRparen
    && ReturnTypeAt(ts, n + 1, ctor) == Done(rt, k)
    && k <= |ts| && BlockAt(ts, k) == Done(body, e)
  }

  /** `parseMethodDecl`'s last step: `)`, the return type and the body. */
  lemma MethodTailFromPieces(ts: seq<Token>, n: nat, name: string, ctor: bool, ps: seq<Param>,
                             rt: Type, k: nat, body: Stmt, e: nat)
    requires TailRead(ts, n, ctor, rt, k, body, e)
    ensures MethodTail(ts, name, ctor, ps, n) == Done(MethodDecl(true, ctor, name, ps, rt, body), e)
  {
    ParamsCloseConsumed(ts, n);
    if ctor {
      CtorTailSteps(ts, n, name, ps, body, e);
    } else {
      ReturnPieces(ts, n + 1, rt, k);
      MethodTailSteps(ts, n, name, ps, rt, k, body, e);
    }
  }

  /** `)` as `parseMethodDecl` consumes it. */
  lemma ParamsCloseConsumed(ts: seq<Token>, n: nat)
    requires n < |ts| && ts[n].kind == DelimRparen
    ensures Consume(ts, n, DelimRparen, ParamsClose) == Done(ts[n], n + 1)
  {
  }

  /** The tail of a method: `)`, `-> Type` and the body. */
  lemma MethodTailSteps(ts: seq<Token>, n: nat, name: string, ps: seq<Param>,
                        rt: Type, k: nat, body: Stmt, e: nat)
    requires n + 2 <= |ts| && Consume(ts, n, DelimRparen, ParamsClose) == Done(ts[n], n + 1)
    requires Consume(ts, n + 1, OpArrow, ReturnArrow) == Done(ts[n + 1], n + 2)
    requires TypeAt(ts, n + 2) == Done(rt, k)
    requires k <= |ts| && BlockAt(ts, k) == Done(body, e)
    ensures MethodTail(ts, name, false, ps, n) == Done(MethodDecl(true, false, name, ps, rt, body), e)
  {
  }

  /** `-> Type` as `parseMethodDecl` reads it. */
  lemma ReturnPieces(ts: seq<Token>, p: nat, rt: Type, k: nat)
    requires |ts| > 0 && p <= |ts| && ReturnTypeAt(ts, p, false) == Done(rt, k)
    ensures p + 1 <= |ts| && Consume(ts, p, OpArrow, ReturnArrow) == Done(ts[p], p + 1)
    ensures TypeAt(ts, p + 1) == Done(rt, k)
  {
  }

  /** The tail of a constructor: `)` and the body, with no return type. */
  lemma CtorTailSteps(ts: seq<Token>, n: nat, name: string, ps: seq<Param>, body: Stmt, e: nat)
    requires n + 1 <= |ts| && Consume(ts, n, DelimRparen, ParamsClose) == Done(ts[n], n + 1)
    requires BlockAt(ts, n + 1) == Done(body, e)
    ensures MethodTail(ts, name, true, ps, n) == Done(MethodDecl(true, true, name, ps, Named(""), body), e)
  {
  }

  /** A method body: a block statement read by `parseBlockStmt`. */
  lemma BodyRoundTrip(ts: seq<Token>, k: nat, b: Stmt)
    requires b.Block? && StmtOk(b) && HoldsAt(ts, k, StmtTokens(b))
    ensures StmtEnd(k, b) <= |ts| && BlockAt(ts, k) == Done(b, StmtEnd(k, b))
  {
    BlockRoundTrip(ts, k, b.statements);
  }

  /** The pieces of a written-out tail that `parseMethodDecl` reads. */
  lemma TailPieces(ts: seq<Token>, n: nat, m: MethodDecl)
    requires MethodOk(m) && TailAt(ts, n, m)
    ensures TailRead(ts, n, m.isConstructor, m.returnType, n + 1 + |ReturnTokens(m)|, m.body, TailEnd(n, m))
  {
    assert ts[n].kind == DelimRparen;
    ReturnRoundTrip(ts, n + 1, m);
    BodyRoundTrip(ts, n + 1 + |ReturnTokens(m)|, m.body);
  }

  /** `)`, the return type and the body. */
  lemma TailRoundTrip(ts: seq<Token>, n: nat, m: MethodDecl)
    requires MethodOk(m) && TailAt(ts, n, m)
    ensures MethodTail(ts, m.name, m.isConstructor, m.params, n)
         == Done(m.(isPublic := true), TailEnd(n, m))
  {
    var k := n + 1 + |ReturnTokens(m)|;
    assert m.(isPublic := true) == MethodDecl(true, m.isConstructor, m.name, m.params, m.returnType, m.body);
    TailPieces(ts, n, m);
    MethodTailFromPieces(ts, n, m.name, m.isConstructor, m.params, m.returnType, k, m.body, TailEnd(n, m));
  }

  /** The tail of a method written out from `j`. */
  lemma MethodTailRoundTrip(ts: seq<Token>, j: nat, m: MethodDecl)
    requires MethodAt(ts, j, m)
    ensures MethodTail(ts, m.name, m.isConstructor, m.params, ClosePos(j, m))
         == Done(m.(isPublic := true), MethodEnd(j, m))
  {
    TailRoundTrip(ts, ClosePos(j, m), m);
  }

  /** The name of a method written out from `j`. */
  lemma MethodNameRoundTrip(ts: seq<Token>, j: nat, m: MethodDecl)
    requires HeadAt(ts, j, m)
    ensures MethodNameAt(ts, NamePos(j, m)) == Done((m.name, m.isConstructor), NamePos(j, m) + 1)
  {
  }

  /** The parameters of a method written out from `j`. */
  lemma MethodParamsRoundTrip(ts: seq<Token>, j: nat, m: MethodDecl)
    requires HeadAt(ts, j, m)
    ensures ParamsLoop(ts, [], NamePos(j, m) + 2) == Done(m.params, ClosePos(j, m))
  {
    ParamsWhole(ts, NamePos(j, m) + 2, m.params, ClosePos(j, m));
  }

  /** Where the `(` of a method written out from `j` sits. */
  lemma MethodOpenAt(ts: seq<Token>, j: nat, m: MethodDecl)
    requires HeadAt(ts, j, m)
    ensures NamePos(j, m) + 1 < |ts| && ts[NamePos(j, m) + 1].kind == DelimLparen
    ensures ClosePos(j, m) <= |ts|
  {
  }

  /** What `parseMethodDecl` reads before the `)` at `n`: the name at `q`,
      `(` and the parameters `ps`. */
  ghost predicate HeadRead(ts: seq<Token>, q: nat, name: string, ctor: bool, ps: seq<Param>, n: nat) {
    && q + 1 < |ts| && MethodNameAt(ts, q) == Done((name, ctor), q + 1)
    && ts[q + 1].kind == DelimLparen
    && n <= |ts| && ParamsLoop(ts, [], q + 2) == Done(ps, n)
  }

  /** `parseMethodDecl` from its pieces. */
  lemma MethodDeclFromPieces(ts: seq<Token>, q: nat, name: string, ctor: bool, ps: seq<Param>, n: nat)
    requires HeadRead(ts, q, name, ctor, ps, n)
    ensures MethodDeclAt(ts, q) == MethodTail(ts, name, ctor, ps, n)
  {
    MethodDeclSteps(ts, q, name, ctor, ps, n);
  }

  lemma MethodDeclSteps(ts: seq<Token>, q: nat, name: string, ctor: bool, ps: seq<Param>, n: nat)
    requires q + 1 < |ts| && MethodNameAt(ts, q) == Done((name, ctor), q + 1)
    requires ts[q + 1].kind == DelimLparen
    requires n <= |ts| && ParamsLoop(ts, [], q + 2) == Done(ps, n)
    ensures MethodDeclAt(ts, q) == MethodTail(ts, name, ctor, ps, n)
  {
    assert Consume(ts, q + 1, DelimLparen, MethodOpen) == Done(ts[q + 1], q + 2);
  }

  /** `parseMethodDecl` up to its `)`: the name, `(` and the parameters. */
  lemma MethodHeadRoundTrip(ts: seq<Token>, j: nat, m: MethodDecl)
    requires HeadAt(ts, j, m)
    ensures MethodDeclAt(ts, NamePos(j, m)) == MethodTail(ts, m.name, m.isConstructor, m.params, ClosePos(j, m))
  {
    MethodHeadPieces(ts, j, m);
    MethodDeclFromPieces(ts, NamePos(j, m), m.name, m.isConstructor, m.params, ClosePos(j, m));
  }

  /** The pieces `parseMethodDecl` reads before the `)`. */
  lemma MethodHeadPieces(ts: seq<Token>, j: nat, m: MethodDecl)
    requires HeadAt(ts, j, m)
    ensures HeadRead(ts, NamePos(j, m), m.name, m.isConstructor, m.params, ClosePos(j, m))
  {
    MethodOpenAt(ts, j, m);
    MethodNameRoundTrip(ts, j, m);
    MethodParamsRoundTrip(ts, j, m);
  }

  lemma MethodDeclRoundTrip(ts: seq<Token>, j: nat, m: MethodDecl)
    requires MethodAt(ts, j, m)
    ensures MethodDeclAt(ts, NamePos(j, m)) == Done(m.(isPublic := true), MethodEnd(j, m))
  {
    MethodHeadRoundTrip(ts, j, m);
    MethodTailRoundTrip(ts, j, m);
  }

  // ----------------------------------------------------------------- fields

  /** A field as `parseVarDecl` builds it: not global, a named type, and an
      atom, if any, as initial value. */
  predicate FieldOk(f: VarDecl) {
    && !f.isGlobal && f.varType.Some? && TypeOk(f.varType.value)
    && (f.initializer.Some? ==> AtomOk(f.initializer.value))
  }

  /** `name : Type [= e] ;`. */
  function FieldTokens(f: VarDecl): seq<Token> {
    [Tok(Identifier, f.name), Colon, TypeToken(f.varType.GetOr(Named("")))]
    + (if f.initializer.Some? then [AssignTok, AtomToken(f.initializer.value)] else [])
    + [Semi]
  }

  /** Where a field written out from `j` ends. */
  function FieldEnd(j: nat, f: VarDecl): nat {
    j + |FieldTokens(f)|
  }

  /** A field written out from `j`, token by token. */
  ghost predicate FieldAtPos(ts: seq<Token>, j: nat, f: VarDecl) {
    && FieldOk(f) && j + 4 <= FieldEnd(j, f) <= |ts|
    && ts[j] == Tok(Identifier, f.name) && ts[j + 1] == Colon && ts[j + 2] == TypeToken(f.varType.value)
    && (f.initializer.Some? ==>
          FieldEnd(j, f) == j + 6 && ts[j + 3] == AssignTok
          && ts[j + 4] == AtomToken(f.initializer.value) && ts[j + 5] == Semi)
    && (f.initializer.None? ==> FieldEnd(j, f) == j + 4 && ts[j + 3] == Semi)
  }

  /** The written-out tokens of a field hold its parts. */
  lemma FieldLaidOut(ts: seq<Token>, j: nat, f: VarDecl)
    requires FieldOk(f) && HoldsAt(ts, j, FieldTokens(f))
    ensures FieldAtPos(ts, j, f)
  {
    var w := FieldTokens(f);
    HoldsAtElems(ts, j, w);
    assert f.varType.GetOr(Named("")) == f.varType.value;
    assert ts[j] == w[0] && ts[j + 1] == w[1] && ts[j + 2] == w[2] && ts[j + 3] == w[3];
    if f.initializer.Some? {
      assert ts[j + 4] == w[4] && ts[j + 5] == w[5];
    }
  }

  /** `= e ;` with an atom `e`. */
  lemma InitializerRoundTrip(ts: seq<Token>, p: nat, e: Expr)
    requires AtomOk(e) && p + 2 < |ts| && ts[p].kind == OpAssign && ts[p + 1] == AtomToken(e)
    requires ts[p + 2].kind == DelimSemicolon
    ensures InitializerAt(ts, p) == Done(Some(e), p + 2)
  {
    AtomExpression(ts, p + 1, e);
  }

  /** `parseVarDecl` from its pieces: the name, `:`, the type, the
      initializer up to `n` and the `;` at `n`. */
  lemma VarDeclSteps(ts: seq<Token>, j: nat, name: string, t: Type, init: Option<Expr>, n: nat)
    requires j + 3 <= n < |ts| && ts[j].lexeme == name && VarConsumed(ts, j, n)
    requires TypeAt(ts, j + 2) == Done(t, j + 3) && InitializerAt(ts, j + 3) == Done(init, n)
    ensures VarDeclAt(ts, j) == Done(VarDecl(false, name, Some(t), init), n + 1)
  {
  }

  /** The tokens `parseVarDecl` consumes around the type and initializer. */
  ghost predicate VarConsumed(ts: seq<Token>, j: nat, n: nat) {
    && j + 1 < |ts| && n < |ts|
    && Consume(ts, j, Identifier, VarName) == Done(ts[j], j + 1)
    && Consume(ts, j + 1, DelimColon, VarColon) == Done(ts[j + 1], j + 2)
    && Consume(ts, n, DelimSemicolon, VarSemi) == Done(ts[n], n + 1)
  }

  lemma VarConsumes(ts: seq<Token>, j: nat, n: nat)
    requires j + 1 < n < |ts| && ts[j].kind == Identifier && ts[j + 1].kind == DelimColon
    requires ts[n].kind == DelimSemicolon
    ensures VarConsumed(ts, j, n)
  {
  }

  lemma VarDeclRoundTrip(ts: seq<Token>, j: nat, f: VarDecl)
    requires FieldAtPos(ts, j, f)
    ensures VarDeclAt(ts, j) == Done(f, FieldEnd(j, f))
  {
    assert f == VarDecl(false, f.name, Some(f.varType.value), f.initializer);
    VarConsumes(ts, j, FieldEnd(j, f) - 1);
    assert TypeAt(ts, j + 2) == Done(f.varType.value, j + 3);
    if f.initializer.Some? {
      InitializerRoundTrip(ts, j + 3, f.initializer.value);
      VarDeclSteps(ts, j, f.name, f.varType.value, f.initializer, j + 5);
    } else {
      assert InitializerAt(ts, j + 3) == Done(None, j + 3);
      VarDeclSteps(ts, j, f.name, f.varType.value, f.initializer, j + 3);
    }
  }

  // ---------------------------------------------------------------- members

  /** One round of the member loop at `j`: the visibility up to `q`, then
      the member `x` up to `k`. */
  ghost predicate MemberRead(ts: seq<Token>, j: nat, isPublic: bool, q: nat, x: Member, k: nat) {
    && j < |ts| && ts[j].kind != DelimRbrace && ts[j].kind != Eof
    && Visibility(ts, j) == (isPublic, q) && q <= |ts|
    && MemberAt(ts, q, isPublic) == Done(x, k)
  }

  /** A round of the member loop over a field. */
  lemma FieldRound(ts: seq<Token>, j: nat, fs: seq<VarDecl>, ms: seq<MethodDecl>, f: VarDecl, k: nat)
    requires MemberRead(ts, j, true, j, FieldMember(f), k)
    ensures MembersLoop(ts, fs, ms, j) == MembersLoop(ts, fs + [f], ms, k)
  {
  }

  /** A round of the member loop over a method. */
  lemma MethodRound(ts: seq<Token>, j: nat, fs: seq<VarDecl>, ms: seq<MethodDecl>, q: nat, m: MethodDecl, k: nat)
    requires MemberRead(ts, j, m.isPublic, q, MethodMember(m), k)
    ensures MembersLoop(ts, fs, ms, j) == MembersLoop(ts, fs, ms + [m], k)
  {
  }

  /** A field, which has no visibility, read as a member. */
  lemma FieldMemberAt(ts: seq<Token>, j: nat, f: VarDecl)
    requires FieldAtPos(ts, j, f)
    ensures MemberRead(ts, j, true, j, FieldMember(f), FieldEnd(j, f))
  {
    assert ts[j].kind == Identifier && ts[j + 1].kind == DelimColon;
    VarDeclRoundTrip(ts, j, f);
    FieldMemberSteps(ts, j, f, FieldEnd(j, f));
  }

  lemma FieldMemberSteps(ts: seq<Token>, j: nat, f: VarDecl, k: nat)
    requires j + 1 < |ts| && ts[j].kind == Identifier && ts[j + 1].kind == DelimColon
    requires k <= |ts| && VarDeclAt(ts, j) == Done(f, k)
    ensures MemberRead(ts, j, true, j, FieldMember(f), k)
  {
    assert Visibility(ts, j) == (true, j);
    assert MemberAt(ts, j, true) == Done(FieldMember(f), k);
  }

  /** One round of the member loop over a written-out field. */
  lemma FieldStep(ts: seq<Token>, j: nat, fs: seq<VarDecl>, ms: seq<MethodDecl>, f: VarDecl)
    requires FieldAtPos(ts, j, f)
    ensures MembersLoop(ts, fs, ms, j) == MembersLoop(ts, fs + [f], ms, FieldEnd(j, f))
  {
    FieldMemberAt(ts, j, f);
    FieldRound(ts, j, fs, ms, f, FieldEnd(j, f));
  }

  /** The name token and `(` of a method at `q`, and the method
      `parseMethodDecl` reads from there up to `k`. */
  ghost predicate MethodDeclRead(ts: seq<Token>, q: nat, m: MethodDecl, k: nat) {
    && q + 1 < |ts| && ts[q] == NameToken(m) && ts[q + 1].kind == DelimLparen
    && MethodDeclAt(ts, q) == Done(m.(isPublic := true), k)
  }

  /** A method read after its visibility is a method member. */
  lemma MethodMemberAt(ts: seq<Token>, q: nat, m: MethodDecl, k: nat)
    requires MethodDeclRead(ts, q, m, k)
    ensures MemberAt(ts, q, m.isPublic) == Done(MethodMember(m), k)
  {
    assert m.(isPublic := true).(isPublic := m.isPublic) == m;
    if m.isConstructor {
      CtorMemberSteps(ts, q, m.isPublic, m.(isPublic := true), k);
    } else {
      MethodMemberSteps(ts, q, m.isPublic, m.(isPublic := true), k);
    }
  }

  /** `parseMember` on a constructor read by `parseMethodDecl`. */
  lemma CtorMemberSteps(ts: seq<Token>, q: nat, isPublic: bool, md: MethodDecl, k: nat)
    requires q < |ts| && ts[q].kind == KwConstructor && md.isConstructor
    requires MethodDeclAt(ts, q) == Done(md, k)
    ensures MemberAt(ts, q, isPublic) == Done(MethodMember(md.(isPublic := isPublic)), k)
  {
  }

  /** `parseMember` on a named method read by `parseMethodDecl`. */
  lemma MethodMemberSteps(ts: seq<Token>, q: nat, isPublic: bool, md: MethodDecl, k: nat)
    requires q + 1 < |ts| && ts[q].kind == Identifier && ts[q + 1].kind == DelimLparen
    requires MethodDeclAt(ts, q) == Done(md, k)
    ensures MemberAt(ts, q, isPublic) == Done(MethodMember(md.(isPublic := isPublic)), k)
  {
  }

  /** The visibility in front of a written-out method. */
  lemma MethodVisibility(ts: seq<Token>, j: nat, m: MethodDecl)
    requires MethodAt(ts, j, m)
    ensures j < |ts| && ts[j].kind != DelimRbrace && ts[j].kind != Eof
    ensures Visibility(ts, j) == (m.isPublic, NamePos(j, m))
  {
  }

  /** A written-out method read as a member. */
  lemma MethodMemberRead(ts: seq<Token>, j: nat, m: MethodDecl)
    requires MethodAt(ts, j, m)
    ensures MemberRead(ts, j, m.isPublic, NamePos(j, m), MethodMember(m), MethodEnd(j, m))
  {
    MethodVisibility(ts, j, m);
    MethodDeclRoundTrip(ts, j, m);
    MethodOpenAt(ts, j, m);
    MethodMemberAt(ts, NamePos(j, m), m, MethodEnd(j, m));
  }

  /** One round of the member loop over a written-out method. */
  lemma MethodStep(ts: seq<Token>, j: nat, fs: seq<VarDecl>, ms: seq<MethodDecl>, m: MethodDecl)
    requires MethodAt(ts, j, m)
    ensures MembersLoop(ts, fs, ms, j) == MembersLoop(ts, fs, ms + [m], MethodEnd(j, m))
  {
    MethodMemberRead(ts, j, m);
    MethodRound(ts, j, fs, ms, NamePos(j, m), m, MethodEnd(j, m));
  }

  predicate FieldsOk(fs: seq<VarDecl>) {
    forall i :: 0 <= i < |fs| ==> FieldOk(fs[i])
  }

  predicate MethodsOk(ms: seq<MethodDecl>) {
    forall i :: 0 <= i < |ms| ==> MethodOk(ms[i])
  }

  function FieldsTokens(fs: seq<VarDecl>): seq<Token> {
    if fs == [] then [] else FieldTokens(fs[0]) + FieldsTokens(fs[1..])
  }

  function MethodsTokens(ms: seq<MethodDecl>): seq<Token> {
    if ms == [] then [] else MethodTokens(ms[0]) + MethodsTokens(ms[1..])
  }

  /** Fields written out in turn from `j` on, and where they end. */
  ghost predicate FieldsAt(ts: seq<Token>, j: nat, xs: seq<VarDecl>)
    decreases xs
  {
    if xs == [] then j <= |ts|
    else FieldAtPos(ts, j, xs[0]) && FieldsAt(ts, FieldEnd(j, xs[0]), xs[1..])
  }

  function FieldsEnd(j: nat, xs: seq<VarDecl>): nat
    decreases xs
  {
    if xs == [] then j else FieldsEnd(FieldEnd(j, xs[0]), xs[1..])
  }

  /** Methods written out in turn from `j` on, and where they end. */
  ghost predicate MethodsAt(ts: seq<Token>, j: nat, xs: seq<MethodDecl>)
    decreases xs
  {
    if xs == [] then j <= |ts|
    else MethodAt(ts, j, xs[0]) && MethodsAt(ts, MethodEnd(j, xs[0]), xs[1..])
  }

  function MethodsEnd(j: nat, xs: seq<MethodDecl>): nat
    decreases xs
  {
    if xs == [] then j else MethodsEnd(MethodEnd(j, xs[0]), xs[1..])
  }

  lemma {:induction false} FieldsLaidOut(ts: seq<Token>, j: nat, xs: seq<VarDecl>)
    requires FieldsOk(xs) && HoldsAt(ts, j, FieldsTokens(xs))
    ensures FieldsAt(ts, j, xs) && FieldsEnd(j, xs) == j + |FieldsTokens(xs)|
    decreases xs
  {
    if xs != [] {
      assert FieldOk(xs[0]);
      HoldsAtSplit(ts, j, FieldTokens(xs[0]), FieldsTokens(xs[1..]));
      FieldLaidOut(ts, j, xs[0]);
      FieldsLaidOut(ts, FieldEnd(j, xs[0]), xs[1..]);
    }
  }

  /** A method ends where its tokens do. */
  lemma MethodLength(j: nat, m: MethodDecl)
    ensures MethodEnd(j, m) == j + |MethodTokens(m)|
  {
  }

  lemma {:induction false} MethodsLength(j: nat, xs: seq<MethodDecl>)
    ensures MethodsEnd(j, xs) == j + |MethodsTokens(xs)|
    decreases xs
  {
    if xs != [] {
      MethodLength(j, xs[0]);
      MethodsLength(MethodEnd(j, xs[0]), xs[1..]);
    }
  }

  lemma {:induction false} MethodsLaidOut(ts: seq<Token>, j: nat, xs: seq<MethodDecl>)
    requires MethodsOk(xs) && HoldsAt(ts, j, MethodsTokens(xs))
    ensures MethodsAt(ts, j, xs)
    decreases xs
  {
    if xs != [] {
      var w := MethodTokens(xs[0]);
      assert MethodOk(xs[0]);
      assert MethodsTokens(xs) == w + MethodsTokens(xs[1..]);
      HoldsAtSplit(ts, j, w, MethodsTokens(xs[1..]));
      MethodLaidOut(ts, j, xs[0]);
      MethodLength(j, xs[0]);
      MethodsLaidOut(ts, MethodEnd(j, xs[0]), xs[1..]);
    }
  }

  lemma {:induction false} FieldsEndFits(ts: seq<Token>, j: nat, xs: seq<VarDecl>)
    requires FieldsAt(ts, j, xs)
    ensures j <= FieldsEnd(j, xs) <= |ts|
    decreases xs
  {
    if xs != [] {
      FieldsEndFits(ts, FieldEnd(j, xs[0]), xs[1..]);
    }
  }

  lemma {:induction false} MethodsEndFits(ts: seq<Token>, j: nat, xs: seq<MethodDecl>)
    requires MethodsAt(ts, j, xs)
    ensures j <= MethodsEnd(j, xs) <= |ts|
    decreases xs
  {
    if xs != [] {
      MethodsEndFits(ts, MethodEnd(j, xs[0]), xs[1..]);
    }
  }

  /** The member loop reads written-out fields in order. */
  lemma {:induction false} FieldsRoundTrip(ts: seq<Token>, j: nat, fs: seq<VarDecl>, ms: seq<MethodDecl>, xs: seq<VarDecl>)
    requires |ts| > 0 && FieldsAt(ts, j, xs) && FieldsEnd(j, xs) <= |ts|
    ensures MembersLoop(ts, fs, ms, j) == MembersLoop(ts, fs + xs, ms, FieldsEnd(j, xs))
    decreases xs, 1
  {
    if xs == [] {
      AppendEmpty(fs);
    } else {
      FieldsConsRoundTrip(ts, j, fs, ms, xs);
    }
  }

  lemma {:induction false} FieldsConsRoundTrip(ts: seq<Token>, j: nat, fs: seq<VarDecl>, ms: seq<MethodDecl>, xs: seq<VarDecl>)
    requires |ts| > 0 && xs != [] && FieldsAt(ts, j, xs) && FieldsEnd(j, xs) <= |ts|
    ensures MembersLoop(ts, fs, ms, j) == MembersLoop(ts, fs + xs, ms, FieldsEnd(j, xs))
    decreases xs, 0
  {
    AppendHead(fs, xs);
    FieldStep(ts, j, fs, ms, xs[0]);
    FieldsRoundTrip(ts, FieldEnd(j, xs[0]), fs + [xs[0]], ms, xs[1..]);
  }

  /** The member loop reads written-out methods in order. */
  lemma {:induction false} MethodsRoundTrip(ts: seq<Token>, j: nat, fs: seq<VarDecl>, ms: seq<MethodDecl>, xs: seq<MethodDecl>)
    requires |ts| > 0 && MethodsAt(ts, j, xs) && MethodsEnd(j, xs) <= |ts|
    ensures MembersLoop(ts, fs, ms, j) == MembersLoop(ts, fs, ms + xs, MethodsEnd(j, xs))
    decreases xs, 1
  {
    if xs == [] {
      AppendEmpty(ms);
    } else {
      MethodsConsRoundTrip(ts, j, fs, ms, xs);
    }
  }

  lemma {:induction false} MethodsConsRoundTrip(ts: seq<Token>, j: nat, fs: seq<VarDecl>, ms: seq<MethodDecl>, xs: seq<MethodDecl>)
    requires |ts| > 0 && xs != [] && MethodsAt(ts, j, xs) && MethodsEnd(j, xs) <= |ts|
    ensures MembersLoop(ts, fs, ms, j) == MembersLoop(ts, fs, ms + xs, MethodsEnd(j, xs))
    decreases xs, 0
  {
    AppendHead(ms, xs);
    MethodsEndFits(ts, MethodEnd(j, xs[0]), xs[1..]);
    MethodStep(ts, j, fs, ms, xs[0]);
    MethodsRoundTrip(ts, MethodEnd(j, xs[0]), fs, ms + [xs[0]], xs[1..]);
  }

  /** The member loop stops at `}`. */
  lemma MembersStop(ts: seq<Token>, j: nat, fs: seq<VarDecl>, ms: seq<MethodDecl>)
    requires j < |ts| && ts[j].kind == DelimRbrace
    ensures MembersLoop(ts, fs, ms, j) == Done((fs, ms), j)
  {
  }
}
