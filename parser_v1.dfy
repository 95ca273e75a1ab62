/** The precedence-ladder parser of NexusCompilerV1/src/Parsing/Parser.cpp,
    as functions over the token list and a position. Each production returns
    what it built and the position after it, or the `ParseError` it raises;
    a raised error aborts the whole parse, so no position is kept with it.

    The cursor is the one the source evidently intends: `isAtEnd` holds past
    the last token or on `eof`, and `peek` gives the last token at the end.
    As written, `isAtEnd` and `peek` call each other without end on every
    position inside the list; `IsAtEndAsWritten` below models that. */
module V1Grammar {
  import opened Wrappers
  import opened TokenKinds
  import opened AstV1
  import TokenV1

  /** The fixed text passed to `consume`. */
  datatype Need =
    | ClassName | ClassOpen | ClassClose
    | MethodName | MethodOpen | ParamName | ParamColon | ParamComma | ParamsClose | ReturnArrow
    | VarName | VarColon | VarSemi
    | SumName | SumOpen | VariantName | PayloadClose | SumClose
    | BlockOpen | BlockClose | WhileOpen | WhileClose | ExprSemi
    | ArgComma | ArgsClose | MemberName | NewOpen | GroupClose
  {
    function Text(): string {
      match this
      case ClassName => "Expected class name"
      case ClassOpen => "Expected '{' after class name"
      case ClassClose => "Expected '}' after class body"
      case MethodName => "Expected method name"
      case MethodOpen => "Expected '(' after method name"
      case ParamName => "Expected parameter name"
      case ParamColon => "Expected ':' after parameter name"
      case ParamComma => "Expected ',' between parameters"
      case ParamsClose => "Expected ')' after parameters"
      case ReturnArrow => "Expected '->' before return type"
      case VarName => "Expected variable name"
      case VarColon => "Expected ':' after variable name"
      case VarSemi => "Expected ';' after variable declaration"
      case SumName => "Expected sum type name"
      case SumOpen => "Expected '{' after sum type name"
      case VariantName => "Expected variant name"
      case PayloadClose => "Expected ')' after variant payload"
      case SumClose => "Expected '}' after sum type variants"
      case BlockOpen => "Expected '{'"
      case BlockClose => "Expected '}'"
      case WhileOpen => "Expected '(' after 'while'"
      case WhileClose => "Expected ')' after condition"
      case ExprSemi => "Expected ';' after expression"
      case ArgComma => "Expected ',' between arguments"
      case ArgsClose => "Expected ')' after arguments"
      case MemberName => "Expected member name after '.'"
      case NewOpen => "Expected '(' after type in 'new' expression"
      case GroupClose => "Expected ')' after expression"
    }
  }

  /** The message of a `ParseError`; `at` is the token `peek` gave. */
  datatype Message =
    | ConsumeFailed(need: Need, at: Token)
    | ExpectedDeclaration(at: Token)
    | ExpectedMember
    | ExpectedExpression(at: Token)
    | ExpectedType(at: Token)
  {
    function Text(): string {
      match this
      case ConsumeFailed(need, at) => need.Text() + " at " + TokenV1.ToString(at)
      case ExpectedDeclaration(at) => "Expected declaration at " + TokenV1.ToString(at)
      case ExpectedMember => "Expected field or method declaration"
      case ExpectedExpression(at) => "Expected expression at " + TokenV1.ToString(at)
      case ExpectedType(at) => "Expected type at " + TokenV1.ToString(at)
    }
  }

  /** A production's outcome: the value and the position after it, or the
      error it raised. */
  datatype Step<T> = Done(value: T, next: nat) | Failed(err: Message)

  // ---------------------------------------------------------------- cursor

  /** `isAtEnd`. */
  predicate AtEnd(ts: seq<Token>, pos: nat) {
    pos >= |ts| || ts[pos].kind == Eof
  }

  /** `peek`: the last token (the `eof` the lexer appends) at the end. */
  function Peek(ts: seq<Token>, pos: nat): (t: Token)
    requires |ts| > 0
    ensures AtEnd(ts, pos) ==> t == ts[|ts| - 1]
    ensures !AtEnd(ts, pos) ==> t == ts[pos] && t.kind != Eof
  {
    if AtEnd(ts, pos) then ts[|ts| - 1] else ts[pos]
  }

  /** `check(kind)`. */
  predicate Check(ts: seq<Token>, pos: nat, k: TokenKind) {
    !AtEnd(ts, pos) && ts[pos].kind == k
  }

  /** `advance`: one step unless at the end, returning the token stepped
      over; the source reads `tokens[currentPos - 1]`, so at the very first
      position it must not be at the end. */
  function Advance(ts: seq<Token>, pos: nat): (r: (Token, nat))
    requires pos <= |ts| && (pos > 0 || !AtEnd(ts, pos))
    ensures !AtEnd(ts, pos) ==> r == (ts[pos], pos + 1)
    ensures AtEnd(ts, pos) ==> r == (ts[pos - 1], pos)
  {
    var p := if AtEnd(ts, pos) then pos else pos + 1;
    (ts[p - 1], p)
  }

  /** `match(kind)`: the position after it. */
  function MatchAt(ts: seq<Token>, pos: nat, k: TokenKind): (p: nat)
    ensures p == if Check(ts, pos, k) then pos + 1 else pos
  {
    if Check(ts, pos, k) then pos + 1 else pos
  }

  /** `consume(kind, msg)`. */
  function Consume(ts: seq<Token>, pos: nat, k: TokenKind, need: Need): (r: Step<Token>)
    requires |ts| > 0
    ensures r.Done? ==> r.next == pos + 1 <= |ts|
  {
    if Check(ts, pos, k) then Done(ts[pos], pos + 1) else Failed(ConsumeFailed(need, Peek(ts, pos)))
  }

  /** `isAtEnd` as written: it calls `peek` inside the list, which calls
      `isAtEnd` again at the same position. `None` when `fuel` nested calls
      are not enough to answer. */
  function IsAtEndAsWritten(ts: seq<Token>, pos: nat, fuel: nat): Option<bool>
    decreases fuel
  {
    if fuel == 0 then None
    else if pos >= |ts| then Some(true)
    else
      match PeekAsWritten(ts, pos, fuel - 1)
      case None => None
      case Some(t) => Some(t.kind == Eof)
  }

  /** `peek` as written: it asks `isAtEnd` first. */
  function PeekAsWritten(ts: seq<Token>, pos: nat, fuel: nat): Option<Token>
    requires pos < |ts|
    decreases fuel
  {
    if fuel == 0 then None
    else
      match IsAtEndAsWritten(ts, pos, fuel - 1)
      case None => None
      case Some(true) => Some(ts[|ts| - 1])
      case Some(false) => Some(ts[pos])
  }

  /** As written, neither `isAtEnd` nor `peek` answers at a position inside
      the list, however deep the calls may go; so `parse` never returns on a
      non-empty token list. */
  lemma {:induction false} AsWrittenNeverAnswers(ts: seq<Token>, pos: nat, fuel: nat)
    requires pos < |ts|
    ensures IsAtEndAsWritten(ts, pos, fuel) == None
    ensures PeekAsWritten(ts, pos, fuel) == None
    decreases fuel
  {
    if fuel > 0 {
      AsWrittenNeverAnswers(ts, pos, fuel - 1);
    }
  }

  /** Past the list, as written and corrected agree: the end is reached. */
  lemma AsWrittenPastEnd(ts: seq<Token>, pos: nat, fuel: nat)
    requires pos >= |ts| && fuel > 0
    ensures IsAtEndAsWritten(ts, pos, fuel) == Some(AtEnd(ts, pos))
  {
  }

  // ----------------------------------------------------------- expressions

  /** `parseType`. */
  function TypeAt(ts: seq<Token>, pos: nat): (r: Step<Type>)
    requires |ts| > 0
    ensures r.Done? ==> r.next == pos + 1 <= |ts| && r.value.generics == [] && !r.value.isArray
    ensures r.Done? <==> Check(ts, pos, TypeI32) || Check(ts, pos, TypeF64) || Check(ts, pos, Identifier)
    ensures r.Failed? ==> r.err == ExpectedType(Peek(ts, pos))
  {
    if Check(ts, pos, TypeI32) then Done(Named("i32"), pos + 1)
    else if Check(ts, pos, TypeF64) then Done(Named("f64"), pos + 1)
    else if Check(ts, pos, Identifier) then Done(Named(ts[pos].lexeme), pos + 1)
    else Failed(ExpectedType(Peek(ts, pos)))
  }

  /** `parseExpression`. */
  function ExpressionAt(ts: seq<Token>, pos: nat): (r: Step<Expr>)
    requires |ts| > 0 && pos <= |ts|
    ensures r.Done? ==> pos < r.next <= |ts|
    decreases |ts| - pos, 10
  {
    AssignmentAt(ts, pos)
  }

  /** `parseAssignment`: a comparison, then, after `=`, an assignment to the
      right of it, whatever the left side is. */
  function AssignmentAt(ts: seq<Token>, pos: nat): (r: Step<Expr>)
    requires |ts| > 0 && pos <= |ts|
    ensures r.Done? ==> pos < r.next <= |ts|
    decreases |ts| - pos, 9
  {
    match ComparisonAt(ts, pos)
    case Failed(m) => Failed(m)
    case Done(left, j) =>
      if Check(ts, j, OpAssign) then
        match AssignmentAt(ts, j + 1)
        case Failed(m) => Failed(m)
        case Done(right, k) => Done(Binary(Some(left), ts[j], right), k)
      else Done(left, j)
  }

  /** `parseComparison` (and `parseLogical`, `parseEquality`, which only
      pass it through). */
  function ComparisonAt(ts: seq<Token>, pos: nat): (r: Step<Expr>)
    requires |ts| > 0 && pos <= |ts|
    ensures r.Done? ==> pos < r.next <= |ts|
    decreases |ts| - pos, 8
  {
    match TermAt(ts, pos)
    case Failed(m) => Failed(m)
    case Done(e, j) => ComparisonLoop(ts, e, j)
  }

  /** The `while (match(op_lt) || match(op_gt))` loop, from `j` with `left`
      built so far. */
  function ComparisonLoop(ts: seq<Token>, left: Expr, j: nat): (r: Step<Expr>)
    requires |ts| > 0 && j <= |ts|
    ensures r.Done? ==> j <= r.next <= |ts|
    decreases |ts| - j, 0
  {
    if Check(ts, j, OpLt) || Check(ts, j, OpGt) then
      match TermAt(ts, j + 1)
      case Failed(m) => Failed(m)
      case Done(right, k) => ComparisonLoop(ts, Binary(Some(left), ts[j], right), k)
    else Done(left, j)
  }

  /** `parseTerm`. */
  function TermAt(ts: seq<Token>, pos: nat): (r: Step<Expr>)
    requires |ts| > 0 && pos <= |ts|
    ensures r.Done? ==> pos < r.next <= |ts|
    decreases |ts| - pos, 7
  {
    match FactorAt(ts, pos)
    case Failed(m) => Failed(m)
    case Done(e, j) => TermLoop(ts, e, j)
  }

  /** The `while (match(op_plus) || match(op_minus))` loop. */
  function TermLoop(ts: seq<Token>, left: Expr, j: nat): (r: Step<Expr>)
    requires |ts| > 0 && j <= |ts|
    ensures r.Done? ==> j <= r.next <= |ts|
    decreases |ts| - j, 0
  {
    if Check(ts, j, OpPlus) || Check(ts, j, OpMinus) then
      match FactorAt(ts, j + 1)
      case Failed(m) => Failed(m)
      case Done(right, k) => TermLoop(ts, Binary(Some(left), ts[j], right), k)
    else Done(left, j)
  }

  /** `parseFactor`. */
  function FactorAt(ts: seq<Token>, pos: nat): (r: Step<Expr>)
    requires |ts| > 0 && pos <= |ts|
    ensures r.Done? ==> pos < r.next <= |ts|
    decreases |ts| - pos, 6
  {
    match UnaryAt(ts, pos)
    case Failed(m) => Failed(m)
    case Done(e, j) => FactorLoop(ts, e, j)
  }

  /** The `while (match(op_mult) || match(op_div) || match(op_mod))` loop. */
  function FactorLoop(ts: seq<Token>, left: Expr, j: nat): (r: Step<Expr>)
    requires |ts| > 0 && j <= |ts|
    ensures r.Done? ==> j <= r.next <= |ts|
    decreases |ts| - j, 0
  {
    if Check(ts, j, OpMult) || Check(ts, j, OpDiv) || Check(ts, j, OpMod) then
      match UnaryAt(ts, j + 1)
      case Failed(m) => Failed(m)
      case Done(right, k) => FactorLoop(ts, Binary(Some(left), ts[j], right), k)
    else Done(left, j)
  }

  /** `parseUnary`: a minus is a `BinaryExpr` with no left operand. */
  function UnaryAt(ts: seq<Token>, pos: nat): (r: Step<Expr>)
    requires |ts| > 0 && pos <= |ts|
    ensures r.Done? ==> pos < r.next <= |ts|
    decreases |ts| - pos, 5
  {
    if Check(ts, pos, OpMinus) then
      match UnaryAt(ts, pos + 1)
      case Failed(m) => Failed(m)
      case Done(right, k) => Done(Binary(None, ts[pos], right), k)
    else CallAt(ts, pos)
  }

  /** `parseCall`. */
  function CallAt(ts: seq<Token>, pos: nat): (r: Step<Expr>)
    requires |ts| > 0 && pos <= |ts|
    ensures r.Done? ==> pos < r.next <= |ts|
    decreases |ts| - pos, 4
  {
    match PrimaryAt(ts, pos)
    case Failed(m) => Failed(m)
    case Done(e, j) => CallLoop(ts, e, j)
  }

  /** The postfix loop of `parseCall`: `(args)` and `.member`, left to right. */
  function CallLoop(ts: seq<Token>, callee: Expr, j: nat): (r: Step<Expr>)
    requires |ts| > 0 && j <= |ts|
    ensures r.Done? ==> j <= r.next <= |ts|
    decreases |ts| - j, 0
  {
    if Check(ts, j, DelimLparen) then
      match ArgumentsAt(ts, j + 1)
      case Failed(m) => Failed(m)
      case Done(args, k) => CallLoop(ts, Call(callee, args), k)
    else if Check(ts, j, OpDot) then
      match Consume(ts, j + 1, Identifier, MemberName)
      case Failed(m) => Failed(m)
      case Done(member, k) => CallLoop(ts, MemberAccess(callee, member.lexeme), k)
    else Done(callee, j)
  }

  /** `if (!check(delim_rparen)) consume(delim_comma, msg)`: whether a
      comma was taken. */
  function CommaUnlessClose(ts: seq<Token>, k: nat, need: Need): (r: Step<bool>)
    requires |ts| > 0 && k <= |ts|
    ensures r.Done? ==> r.next == (if r.value then k + 1 else k) <= |ts|
    ensures r.Done? ==> (r.value <==> !Check(ts, k, DelimRparen))
    ensures r.Failed? ==> !Check(ts, k, DelimRparen) && !Check(ts, k, DelimComma)
  {
    if Check(ts, k, DelimRparen) then Done(false, k)
    else
      match Consume(ts, k, DelimComma, need)
      case Failed(m) => Failed(m)
      case Done(_, k2) => Done(true, k2)
  }

  /** The argument loop shared by calls and `new`, after `(`: an expression
      and, unless `)` follows, a `,`; until `)` or the end. */
  function ArgsLoop(ts: seq<Token>, args: seq<Expr>, j: nat): (r: Step<seq<Expr>>)
    requires |ts| > 0 && j <= |ts|
    ensures r.Done? ==> j <= r.next <= |ts| && (Check(ts, r.next, DelimRparen) || AtEnd(ts, r.next))
    decreases |ts| - j, 11
  {
    if Check(ts, j, DelimRparen) || AtEnd(ts, j) then Done(args, j)
    else
      match ExpressionAt(ts, j)
      case Failed(m) => Failed(m)
      case Done(a, k) =>
        match CommaUnlessClose(ts, k, ArgComma)
        case Failed(m) => Failed(m)
        case Done(_, k2) => ArgsLoop(ts, args + [a], k2)
  }

  /** The arguments after `(`, and the closing `)`. */
  function ArgumentsAt(ts: seq<Token>, j: nat): (r: Step<seq<Expr>>)
    requires |ts| > 0 && j <= |ts|
    ensures r.Done? ==> j < r.next <= |ts| && ts[r.next - 1].kind == DelimRparen
    decreases |ts| - j, 12
  {
    match ArgsLoop(ts, [], j)
    case Failed(m) => Failed(m)
    case Done(args, k) =>
      match Consume(ts, k, DelimRparen, ArgsClose)
      case Failed(m) => Failed(m)
      case Done(_, k2) => Done(args, k2)
  }

  /** `parsePrimary`. */
  function PrimaryAt(ts: seq<Token>, pos: nat): (r: Step<Expr>)
    requires |ts| > 0 && pos <= |ts|
    ensures r.Done? ==> pos < r.next <= |ts|
    decreases |ts| - pos, 3
  {
    if Check(ts, pos, KwTrue) || Check(ts, pos, LitInteger) || Check(ts, pos, LitFloat)
       || Check(ts, pos, LitString) then
      Done(LiteralOf(ts[pos]), pos + 1)
    else if Check(ts, pos, Identifier) then
      Done(IdentifierExpr(ts[pos].lexeme), pos + 1)
    else if Check(ts, pos, KwNew) then NewAt(ts, pos + 1)
    else if Check(ts, pos, DelimLparen) then GroupAt(ts, pos + 1)
    else Failed(ExpectedExpression(Peek(ts, pos)))
  }

  /** `new Type(args)`, after `new`. */
  function NewAt(ts: seq<Token>, pos: nat): (r: Step<Expr>)
    requires |ts| > 0 && pos <= |ts|
    ensures r.Done? ==> pos < r.next <= |ts| && r.value.New?
    decreases |ts| - pos, 2
  {
    match TypeAt(ts, pos)
    case Failed(m) => Failed(m)
    case Done(t, j) =>
      match Consume(ts, j, DelimLparen, NewOpen)
      case Failed(m) => Failed(m)
      case Done(_, k) =>
        match ArgumentsAt(ts, k)
        case Failed(m) => Failed(m)
        case Done(args, n) => Done(New(t, args), n)
  }

  /** `(e)`, after `(`: the inner expression itself, with no node of its own. */
  function GroupAt(ts: seq<Token>, pos: nat): (r: Step<Expr>)
    requires |ts| > 0 && pos <= |ts|
    ensures r.Done? ==> pos < r.next <= |ts|
    decreases |ts| - pos, 13
  {
    match ExpressionAt(ts, pos)
    case Failed(m) => Failed(m)
    case Done(e, j) =>
      match Consume(ts, j, DelimRparen, GroupClose)
      case Failed(m) => Failed(m)
      case Done(_, k) => Done(e, k)
  }

  // ------------------------------------------------------------ statements

  /** `parseStatement`: a `while` statement exactly after `while`, a block
      exactly at `{`, and an expression statement otherwise. */
  function StatementAt(ts: seq<Token>, pos: nat): (r: Step<Stmt>)
    requires |ts| > 0 && pos <= |ts|
    ensures r.Done? ==> pos < r.next <= |ts|
    ensures r.Done? ==> (r.value.While? <==> Check(ts, pos, KwWhile))
    ensures r.Done? ==> (r.value.Block? <==> Check(ts, pos, DelimLbrace))
    ensures r.Done? ==> (r.value.ExprStmt? <==> !Check(ts, pos, KwWhile) && !Check(ts, pos, DelimLbrace))
    decreases |ts| - pos, 2
  {
    if Check(ts, pos, KwWhile) then WhileAt(ts, pos + 1)
    else if Check(ts, pos, DelimLbrace) then BlockAt(ts, pos)
    else ExprStmtAt(ts, pos)
  }

  /** `parseWhileStmt`, after `while`. */
  function WhileAt(ts: seq<Token>, pos: nat): (r: Step<Stmt>)
    requires |ts| > 0 && pos <= |ts|
    ensures r.Done? ==> pos < r.next <= |ts| && r.value.While?
    decreases |ts| - pos, 0
  {
    match Consume(ts, pos, DelimLparen, WhileOpen)
    case Failed(m) => Failed(m)
    case Done(_, j) =>
      match ExpressionAt(ts, j)
      case Failed(m) => Failed(m)
      case Done(c, k) =>
        match Consume(ts, k, DelimRparen, WhileClose)
        case Failed(m) => Failed(m)
        case Done(_, n) =>
          match StatementAt(ts, n)
          case Failed(m) => Failed(m)
          case Done(body, q) => Done(While(c, body), q)
  }

  /** `parseBlockStmt`. */
  function BlockAt(ts: seq<Token>, pos: nat): (r: Step<Stmt>)
    requires |ts| > 0 && pos <= |ts|
    ensures r.Done? ==> pos < r.next <= |ts| && r.value.Block?
    ensures r.Done? ==> ts[pos].kind == DelimLbrace && ts[r.next - 1].kind == DelimRbrace
    decreases |ts| - pos, 1
  {
    match Consume(ts, pos, DelimLbrace, BlockOpen)
    case Failed(m) => Failed(m)
    case Done(_, j) =>
      match StmtsLoop(ts, [], j)
      case Failed(m) => Failed(m)
      case Done(ss, k) =>
        match Consume(ts, k, DelimRbrace, BlockClose)
        case Failed(m) => Failed(m)
        case Done(_, n) => Done(Block(ss), n)
  }

  /** The statement loop of `parseBlockStmt`: until `}` or the end. */
  function StmtsLoop(ts: seq<Token>, ss: seq<Stmt>, j: nat): (r: Step<seq<Stmt>>)
    requires |ts| > 0 && j <= |ts|
    ensures r.Done? ==> j <= r.next <= |ts| && (Check(ts, r.next, DelimRbrace) || AtEnd(ts, r.next))
    decreases |ts| - j, 3
  {
    if Check(ts, j, DelimRbrace) || AtEnd(ts, j) then Done(ss, j)
    else
      match StatementAt(ts, j)
      case Failed(m) => Failed(m)
      case Done(st, k) => StmtsLoop(ts, ss + [st], k)
  }

  /** `parseExprStmt`. */
  function ExprStmtAt(ts: seq<Token>, pos: nat): (r: Step<Stmt>)
    requires |ts| > 0 && pos <= |ts|
    ensures r.Done? ==> pos < r.next <= |ts| && r.value.ExprStmt? && ts[r.next - 1].kind == DelimSemicolon
  {
    match ExpressionAt(ts, pos)
    case Failed(m) => Failed(m)
    case Done(e, k) =>
      match Consume(ts, k, DelimSemicolon, ExprSemi)
      case Failed(m) => Failed(m)
      case Done(_, n) => Done(ExprStmt(e), n)
  }

  // ---------------------------------------------------------- declarations

  /** The optional `= e` of `parseVarDecl`. */
  function InitializerAt(ts: seq<Token>, pos: nat): (r: Step<Option<Expr>>)
    requires |ts| > 0 && pos <= |ts|
    ensures r.Done? ==> pos <= r.next <= |ts| && (r.value.Some? <==> Check(ts, pos, OpAssign))
  {
    if Check(ts, pos, OpAssign) then
      match ExpressionAt(ts, pos + 1)
      case Failed(m) => Failed(m)
      case Done(e, k) => Done(Some(e), k)
    else Done(None, pos)
  }

  /** `parseVarDecl`: `name : Type [= e] ;`. */
  function VarDeclAt(ts: seq<Token>, pos: nat): (r: Step<VarDecl>)
    requires |ts| > 0 && pos <= |ts|
    ensures r.Done? ==> pos + 4 <= r.next <= |ts| && ts[pos].kind == Identifier
    ensures r.Done? ==> r.value.name == ts[pos].lexeme && !r.value.isGlobal && r.value.varType.Some?
  {
    match Consume(ts, pos, Identifier, VarName)
    case Failed(m) => Failed(m)
    case Done(name, j) =>
      match Consume(ts, j, DelimColon, VarColon)
      case Failed(m) => Failed(m)
      case Done(_, k) =>
        match TypeAt(ts, k)
        case Failed(m) => Failed(m)
        case Done(t, n) =>
          match InitializerAt(ts, n)
          case Failed(m) => Failed(m)
          case Done(init, q) =>
            match Consume(ts, q, DelimSemicolon, VarSemi)
            case Failed(m) => Failed(m)
            case Done(_, e) => Done(VarDecl(false, name.lexeme, Some(t), init), e)
  }

  /** One parameter, `name : Type`. */
  function ParamAt(ts: seq<Token>, pos: nat): (r: Step<Param>)
    requires |ts| > 0 && pos <= |ts|
    ensures r.Done? ==> r.next == pos + 3 <= |ts| && r.value.name == ts[pos].lexeme
  {
    match Consume(ts, pos, Identifier, ParamName)
    case Failed(m) => Failed(m)
    case Done(name, j) =>
      match Consume(ts, j, DelimColon, ParamColon)
      case Failed(m) => Failed(m)
      case Done(_, k) =>
        match TypeAt(ts, k)
        case Failed(m) => Failed(m)
        case Done(t, n) => Done(Param(name.lexeme, t), n)
  }

  /** The parameter loop of `parseMethodDecl`, after `(`: until `)` or the end. */
  function ParamsLoop(ts: seq<Token>, ps: seq<Param>, j: nat): (r: Step<seq<Param>>)
    requires |ts| > 0 && j <= |ts|
    ensures r.Done? ==> j <= r.next <= |ts| && (Check(ts, r.next, DelimRparen) || AtEnd(ts, r.next))
    decreases |ts| - j
  {
    if Check(ts, j, DelimRparen) || AtEnd(ts, j) then Done(ps, j)
    else
      match ParamAt(ts, j)
      case Failed(m) => Failed(m)
      case Done(p, k) =>
        match CommaUnlessClose(ts, k, ParamComma)
        case Failed(m) => Failed(m)
        case Done(_, n) => ParamsLoop(ts, ps + [p], n)
  }

  /** The name of `parseMethodDecl`: `Constructor`, which flags a
      constructor, or an identifier. */
  function MethodNameAt(ts: seq<Token>, pos: nat): (r: Step<(string, bool)>)
    requires |ts| > 0 && pos <= |ts|
    ensures r.Done? ==> r.next == pos + 1 <= |ts|
    ensures r.Done? ==> (r.value.1 <==> Check(ts, pos, KwConstructor))
    ensures r.Done? && r.value.1 ==> r.value.0 == "Constructor"
    ensures r.Done? && !r.value.1 ==> r.value.0 == ts[pos].lexeme && ts[pos].kind == Identifier
  {
    if Check(ts, pos, KwConstructor) then Done(("Constructor", true), pos + 1)
    else
      match Consume(ts, pos, Identifier, MethodName)
      case Failed(m) => Failed(m)
      case Done(name, j) => Done((name.lexeme, false), j)
  }

  /** `-> Type` unless a constructor, whose return type stays the default,
      nameless one. */
  function ReturnTypeAt(ts: seq<Token>, pos: nat, isConstructor: bool): (r: Step<Type>)
    requires |ts| > 0 && pos <= |ts|
    ensures r.Done? ==> r.next == (if isConstructor then pos else pos + 2) <= |ts|
    ensures r.Done? && isConstructor ==> r.value == Named("")
  {
    if isConstructor then Done(Named(""), pos)
    else
      match Consume(ts, pos, OpArrow, ReturnArrow)
      case Failed(m) => Failed(m)
      case Done(_, j) => TypeAt(ts, j)
  }

  /** `parseMethodDecl`: the name, `(`, the parameters, `)`, the return
      type and the body block. */
  function MethodDeclAt(ts: seq<Token>, pos: nat): (r: Step<MethodDecl>)
    requires |ts| > 0 && pos <= |ts|
    ensures r.Done? ==> pos < r.next <= |ts| && r.value.isPublic && r.value.body.Block?
    ensures r.Done? ==> (r.value.isConstructor <==> Check(ts, pos, KwConstructor))
  {
    match MethodNameAt(ts, pos)
    case Failed(m) => Failed(m)
    case Done((name, isCtor), j) =>
      match Consume(ts, j, DelimLparen, MethodOpen)
      case Failed(m) => Failed(m)
      case Done(_, k) =>
        match ParamsLoop(ts, [], k)
        case Failed(m) => Failed(m)
        case Done(ps, n) => MethodTail(ts, name, isCtor, ps, n)
  }

  /** The rest of `parseMethodDecl` after the parameters. */
  function MethodTail(ts: seq<Token>, name: string, isCtor: bool, ps: seq<Param>, pos: nat): (r: Step<MethodDecl>)
    requires |ts| > 0 && pos <= |ts|
    ensures r.Done? ==> pos < r.next <= |ts| && r.value.isPublic && r.value.body.Block?
    ensures r.Done? ==> r.value.isConstructor == isCtor && r.value.name == name && r.value.params == ps
  {
    match Consume(ts, pos, DelimRparen, ParamsClose)
    case Failed(m) => Failed(m)
    case Done(_, j) =>
      match ReturnTypeAt(ts, j, isCtor)
      case Failed(m) => Failed(m)
      case Done(rt, k) =>
        match BlockAt(ts, k)
        case Failed(m) => Failed(m)
        case Done(body, n) => Done(MethodDecl(true, isCtor, name, ps, rt, body), n)
  }

  /** A class member. */
  datatype Member = FieldMember(field: VarDecl) | MethodMember(decl: MethodDecl)

  /** The optional `private`/`public` in front of a member: the flag and the
      position after it. */
  function Visibility(ts: seq<Token>, j: nat): (r: (bool, nat))
    ensures r.0 <==> !Check(ts, j, KwPrivate)
    ensures r.1 == if Check(ts, j, KwPrivate) || Check(ts, j, KwPublic) then j + 1 else j
  {
    if Check(ts, j, KwPrivate) then (false, j + 1)
    else if Check(ts, j, KwPublic) then (true, j + 1)
    else (true, j)
  }

  /** One member of `parseClassDecl` after its visibility: `Constructor`
      starts a constructor; an identifier followed by `(` starts a method
      and one followed by anything else a field, both parsed from the
      identifier again; the visibility is kept on methods only. */
  function MemberAt(ts: seq<Token>, q: nat, isPublic: bool): (r: Step<Member>)
    requires |ts| > 0 && q <= |ts|
    ensures r.Done? ==> q < r.next <= |ts|
    ensures r.Done? && r.value.MethodMember? ==> r.value.decl.isPublic == isPublic
    ensures r.Done? && r.value.MethodMember? ==> (r.value.decl.isConstructor <==> Check(ts, q, KwConstructor))
    ensures r.Done? && r.value.FieldMember? ==> Check(ts, q, Identifier) && !Check(ts, q + 1, DelimLparen)
    ensures r.Failed? && !Check(ts, q, KwConstructor) && !Check(ts, q, Identifier) ==> r.err == ExpectedMember
  {
    if Check(ts, q, KwConstructor) then
      match MethodDeclAt(ts, q)
      case Failed(m) => Failed(m)
      case Done(md, k) => Done(MethodMember(md.(isPublic := isPublic, isConstructor := true)), k)
    else if Check(ts, q, Identifier) then
      if Check(ts, q + 1, DelimLparen) then
        match MethodDeclAt(ts, q)
        case Failed(m) => Failed(m)
        case Done(md, k) => Done(MethodMember(md.(isPublic := isPublic)), k)
      else
        match VarDeclAt(ts, q)
        case Failed(m) => Failed(m)
        case Done(f, k) => Done(FieldMember(f), k)
    else Failed(ExpectedMember)
  }

  /** The member loop of `parseClassDecl`: until `}` or the end. */
  function MembersLoop(ts: seq<Token>, fields: seq<VarDecl>, methods: seq<MethodDecl>, j: nat)
    : (r: Step<(seq<VarDecl>, seq<MethodDecl>)>)
    requires |ts| > 0 && j <= |ts|
    ensures r.Done? ==> j <= r.next <= |ts| && (Check(ts, r.next, DelimRbrace) || AtEnd(ts, r.next))
    decreases |ts| - j
  {
    if Check(ts, j, DelimRbrace) || AtEnd(ts, j) then Done((fields, methods), j)
    else
      var (isPublic, q) := Visibility(ts, j);
      match MemberAt(ts, q, isPublic)
      case Failed(m) => Failed(m)
      case Done(FieldMember(f), k) => MembersLoop(ts, fields + [f], methods, k)
      case Done(MethodMember(md), k) => MembersLoop(ts, fields, methods + [md], k)
  }

  /** `parseClassDecl`, after `class`. */
  function ClassDeclAt(ts: seq<Token>, pos: nat): (r: Step<Decl>)
    requires |ts| > 0 && pos <= |ts|
    ensures r.Done? ==> pos < r.next <= |ts| && r.value.ClassDecl? && r.value.isPublic
    ensures r.Done? ==> r.value.name == ts[pos].lexeme && ts[pos].kind == Identifier
  {
    match Consume(ts, pos, Identifier, ClassName)
    case Failed(m) => Failed(m)
    case Done(name, j) =>
      match Consume(ts, j, DelimLbrace, ClassOpen)
      case Failed(m) => Failed(m)
      case Done(_, k) =>
        match MembersLoop(ts, [], [], k)
        case Failed(m) => Failed(m)
        case Done((fields, methods), n) =>
          match Consume(ts, n, DelimRbrace, ClassClose)
          case Failed(m) => Failed(m)
          case Done(_, q) => Done(ClassDecl(true, name.lexeme, fields, methods), q)
  }

  /** The optional `(Type)` payload of a variant. */
  function PayloadAt(ts: seq<Token>, pos: nat): (r: Step<Option<Type>>)
    requires |ts| > 0 && pos <= |ts|
    ensures r.Done? ==> pos <= r.next <= |ts| && (r.value.Some? <==> Check(ts, pos, DelimLparen))
  {
    if Check(ts, pos, DelimLparen) then
      match TypeAt(ts, pos + 1)
      case Failed(m) => Failed(m)
      case Done(t, k) =>
        match Consume(ts, k, DelimRparen, PayloadClose)
        case Failed(m) => Failed(m)
        case Done(_, n) => Done(Some(t), n)
    else Done(None, pos)
  }

  /** One variant: a name and its payload. */
  function VariantAt(ts: seq<Token>, pos: nat): (r: Step<Variant>)
    requires |ts| > 0 && pos <= |ts|
    ensures r.Done? ==> pos < r.next <= |ts| && r.value.name == ts[pos].lexeme
    ensures r.Done? ==> (r.value.payload.Some? <==> Check(ts, pos + 1, DelimLparen))
  {
    match Consume(ts, pos, Identifier, VariantName)
    case Failed(m) => Failed(m)
    case Done(name, j) =>
      match PayloadAt(ts, j)
      case Failed(m) => Failed(m)
      case Done(payload, k) => Done(Variant(name.lexeme, payload), k)
  }

  /** The variant loop of `parseSumTypeDecl`: an optional `,` after each
      variant not followed by `}`; until `}` or the end. */
  function VariantsLoop(ts: seq<Token>, vs: seq<Variant>, j: nat): (r: Step<seq<Variant>>)
    requires |ts| > 0 && j <= |ts|
    ensures r.Done? ==> j <= r.next <= |ts| && (Check(ts, r.next, DelimRbrace) || AtEnd(ts, r.next))
    decreases |ts| - j
  {
    if Check(ts, j, DelimRbrace) || AtEnd(ts, j) then Done(vs, j)
    else
      match VariantAt(ts, j)
      case Failed(m) => Failed(m)
      case Done(v, k) =>
        var n := if Check(ts, k, DelimRbrace) then k else MatchAt(ts, k, DelimComma);
        VariantsLoop(ts, vs + [v], n)
  }

  /** `parseSumTypeDecl`, after `Options`. */
  function SumTypeDeclAt(ts: seq<Token>, pos: nat): (r: Step<Decl>)
    requires |ts| > 0 && pos <= |ts|
    ensures r.Done? ==> pos < r.next <= |ts| && r.value.SumTypeDecl? && r.value.generics == []
    ensures r.Done? ==> r.value.name == ts[pos].lexeme && ts[pos].kind == Identifier
  {
    match Consume(ts, pos, Identifier, SumName)
    case Failed(m) => Failed(m)
    case Done(name, j) =>
      match Consume(ts, j, DelimLbrace, SumOpen)
      case Failed(m) => Failed(m)
      case Done(_, k) =>
        match VariantsLoop(ts, [], k)
        case Failed(m) => Failed(m)
        case Done(vs, n) =>
          match Consume(ts, n, DelimRbrace, SumClose)
          case Failed(m) => Failed(m)
          case Done(_, q) => Done(SumTypeDecl(name.lexeme, [], vs), q)
  }

  /** `while (match(delim_semicolon)) {}`. */
  function SkipSemicolons(ts: seq<Token>, pos: nat): (j: nat)
    requires pos <= |ts|
    ensures pos <= j <= |ts| && !Check(ts, j, DelimSemicolon)
    ensures forall k :: pos <= k < j ==> ts[k].kind == DelimSemicolon
    decreases |ts| - pos
  {
    if Check(ts, pos, DelimSemicolon) then SkipSemicolons(ts, pos + 1) else pos
  }

  /** `parseDeclaration`: `None` for the null it returns when the `;` run
      reaches the end. */
  function DeclarationAt(ts: seq<Token>, pos: nat): (r: Step<Option<Decl>>)
    requires |ts| > 0 && pos <= |ts|
    ensures r.Done? ==> pos <= r.next <= |ts|
    ensures r.Done? && !AtEnd(ts, pos) ==> pos < r.next
  {
    DeclarationAfter(ts, SkipSemicolons(ts, pos))
  }

  /** `parseDeclaration` once the `;` run is skipped. */
  function DeclarationAfter(ts: seq<Token>, j: nat): (r: Step<Option<Decl>>)
    requires |ts| > 0 && j <= |ts|
    ensures r.Done? ==> j <= r.next <= |ts| && (r.next == j <==> AtEnd(ts, j))
    ensures r.Done? && r.value.None? <==> AtEnd(ts, j)
    ensures r.Done? && r.value.Some? ==> (r.value.value.ClassDecl? <==> Check(ts, j, KwClass))
  {
    if AtEnd(ts, j) then Done(None, j)
    else if Check(ts, j, KwClass) then
      match ClassDeclAt(ts, j + 1)
      case Failed(m) => Failed(m)
      case Done(d, k) => Done(Some(d), k)
    else if Check(ts, j, KwOptions) then
      match SumTypeDeclAt(ts, j + 1)
      case Failed(m) => Failed(m)
      case Done(d, k) => Done(Some(d), k)
    else Failed(ExpectedDeclaration(Peek(ts, j)))
  }

  /** The loop of `parse` from `pos` with `decls` pushed so far; the first
      error ends it. */
  function ParseLoop(ts: seq<Token>, decls: seq<Decl>, pos: nat): (r: Step<Program>)
    requires |ts| > 0 && pos <= |ts|
    ensures r.Done? ==> pos <= r.next <= |ts| && AtEnd(ts, r.next)
    decreases |ts| - pos
  {
    if AtEnd(ts, pos) then Done(Program(decls), pos)
    else
      match DeclarationAt(ts, pos)
      case Failed(m) => Failed(m)
      case Done(d, j) => ParseLoop(ts, if d.Some? then decls + [d.value] else decls, j)
  }

  /** `parse`: the program, or the first `ParseError`, rethrown. An empty
      list is at its end at once. */
  function Parse(ts: seq<Token>): (r: Result<Program, Message>)
  {
    if |ts| == 0 then Ok(Program([]))
    else
      match ParseLoop(ts, [], 0)
      case Failed(m) => Err(m)
      case Done(p, _) => Ok(p)
  }
}
