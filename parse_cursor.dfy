/** The token cursor shared, line for line, by the NexusCompiler and
    NexusCompilerV2 parsers: a synthetic end-of-file token past the end,
    `expect` that raises a positioned error, the `synchronize` skip, and the
    function-header grammar both parse identically. */
module ParseCursor {
  import opened Wrappers
  import opened TokKinds
  import opened Ast
  import opened SeqFacts
  import DictTable

  /** The message a `ParseError` carries, by which `throw` raised it;
      `Text` is the string that `throw` builds. */
  datatype Message =
    | FunctionName | FunctionOpen | ParamType | ParamName | ParamsClose
    | CallClose | IncrementTarget | AssignTarget | AssignExprTarget | ReturnSemi
    | DeclType | DeclName | DeclAssign | DeclSemi | ExprSemi | BlockOpen | BlockClose
    | ExpectedExpression(got: Token)
    | ExpectedKind(expected: TokKind, got: Token)
  {
    function Text(): string {
      match this
      case FunctionName => "Expected function name at top level"
      case FunctionOpen => "Expected '(' after function name"
      case ParamType => "Expected parameter type"
      case ParamName => "Expected parameter name after type"
      case ParamsClose => "Expected ')' after parameter list"
      case CallClose => "Expected ')' after call arguments"
      case IncrementTarget => "++ can only follow an identifier"
      case AssignTarget => "Left side of = must be identifier"
      case AssignExprTarget => "Left-hand side of assignment must be an identifier"
      case ReturnSemi => "Expected ';' after return value"
      case DeclType => "Expected type in variable declaration"
      case DeclName => "Expected variable name"
      case DeclAssign => "Expected '=' after variable name"
      case DeclSemi => "Expected ';' after variable declaration"
      case ExprSemi => "Expected ';' after expression statement"
      case BlockOpen => "Expected `{` at start of block"
      case BlockClose => "Expected `}` to close the block"
      case ExpectedExpression(t) => "Expected expression, got " + DictTable.ToString(t)
      case ExpectedKind(k, t) =>
        "Expected : " + DictTable.ToString(Token(k, "", 0, 0)) + ", got : `" + t.word + "`"
    }
  }

  /** `ParseError(line, column, message)`. */
  datatype ParseError = ParseError(line: int, column: int, message: Message)

  /** The outcome of a production started at some index: its value and the
      index after it, or the error raised and the index the cursor had
      reached when it was raised (recovery resumes from there). */
  datatype Parsed<T> = Accept(value: T, next: nat) | Reject(err: ParseError, at: nat)
  {
    function Pos(): nat {
      if Accept? then next else at
    }

    predicate IsFailure() {
      Reject?
    }

    function PropagateFailure<U>(): Parsed<U>
      requires Reject?
    {
      Reject(err, at)
    }

    function Extract(): (T, nat)
      requires Accept?
    {
      (value, next)
    }
  }

  /** A production that may throw, read back as a `Parsed`: its value or
      error, and where it left the cursor. */
  function Outcome<T>(r: Result<T, ParseError>, pos: nat): Parsed<T> {
    if r.Ok? then Accept(r.value, pos) else Reject(r.error, pos)
  }

  /** The items a loop has collected so far, in front of what the rest of
      the loop gives. */
  function Prepend<T>(pre: seq<T>, r: Parsed<seq<T>>): Parsed<seq<T>> {
    if r.Accept? then Accept(pre + r.value, r.next) else r
  }

  lemma PrependNothing<T>(r: Parsed<seq<T>>)
    ensures Prepend([], r) == r
  {
    if r.Accept? {
      assert [] + r.value == r.value;
    }
  }

  lemma PrependTwice<T>(a: seq<T>, b: seq<T>, r: Parsed<seq<T>>)
    ensures Prepend(a, Prepend(b, r)) == Prepend(a + b, r)
  {
    if r.Accept? {
      assert a + (b + r.value) == a + b + r.value;
    }
  }

  /** The token `peek` and `consume` return past the end. */
  const EofToken := Token(Eof, "", 0, 0)

  /** `peek()` with the cursor at `i`. */
  function PeekAt(ts: seq<Token>, i: nat): (t: Token)
    ensures i < |ts| ==> t == ts[i]
    ensures i >= |ts| ==> t == EofToken
  {
    if i < |ts| then ts[i] else EofToken
  }

  /** `consume()`: the token under the cursor and the new index; past the
      end, the synthetic end-of-file token and no move. */
  function Consume(ts: seq<Token>, i: nat): (r: (Token, nat))
    requires i <= |ts|
    ensures r.0 == PeekAt(ts, i)
    ensures r.1 == if i < |ts| then i + 1 else i
  {
    if i < |ts| then (ts[i], i + 1) else (EofToken, i)
  }

  /** `isAtEnd()`. */
  predicate IsAtEnd(ts: seq<Token>, i: nat) {
    i >= |ts| || PeekAt(ts, i).kind == Eof
  }

  /** `check(k)`: never true at the end, even for `TOK_EOF`. */
  predicate Check(ts: seq<Token>, i: nat, k: TokKind) {
    !IsAtEnd(ts, i) && PeekAt(ts, i).kind == k
  }

  /** `match(k)`: the index after a successful match; unchanged otherwise. */
  function MatchAt(ts: seq<Token>, i: nat, k: TokKind): (j: nat)
    requires i <= |ts|
    ensures PeekAt(ts, i).kind == k ==> j == Consume(ts, i).1
    ensures PeekAt(ts, i).kind != k ==> j == i
  {
    if PeekAt(ts, i).kind == k then Consume(ts, i).1 else i
  }

  /** An error raised at the token under the cursor. */
  function ErrAt(ts: seq<Token>, i: nat, msg: Message): ParseError {
    ParseError(PeekAt(ts, i).line, PeekAt(ts, i).column, msg)
  }

  /** `expect(k, msg)`: consume a token of kind `k`, or raise at the current
      token with `msg`, or with the default message when `msg` is empty
      (`None`). */
  function ExpectAt(ts: seq<Token>, i: nat, k: TokKind, msg: Option<Message>): (r: Parsed<Token>)
    requires i <= |ts|
    ensures PeekAt(ts, i).kind == k <==> r.Accept?
    ensures r.Accept? ==> r.value == PeekAt(ts, i) && r.next == Consume(ts, i).1
    ensures r.Reject? ==> r.at == i && r.err.line == PeekAt(ts, i).line && r.err.column == PeekAt(ts, i).column
    ensures r.Reject? ==> r.err.message == if msg.Some? then msg.value else ExpectedKind(k, PeekAt(ts, i))
  {
    if PeekAt(ts, i).kind == k then Accept(PeekAt(ts, i), Consume(ts, i).1)
    else
      Reject(ErrAt(ts, i, if msg.None? then ExpectedKind(k, PeekAt(ts, i)) else msg.value), i)
  }

  /** A token `synchronize` stops before: `return` or `{`. */
  predicate IsSyncAnchor(k: TokKind) {
    k == TokKind.Return || k == LBrace
  }

  /** The loop of `synchronize` from `i`: skip to the end, past the first
      `;`, or up to the first `return` or `{`. */
  function SyncLoop(ts: seq<Token>, i: nat): (j: nat)
    requires i <= |ts|
    ensures i <= j <= |ts|
    decreases |ts| - i
  {
    if IsAtEnd(ts, i) then i
    else if ts[i].kind == Semi then i + 1
    else if IsSyncAnchor(ts[i].kind) then i
    else SyncLoop(ts, i + 1)
  }

  /** `synchronize`: consume one token, then run the skip loop. */
  function SyncFrom(ts: seq<Token>, i: nat): (j: nat)
    requires i <= |ts|
    ensures i <= j <= |ts|
    ensures i < |ts| ==> i < j
  {
    SyncLoop(ts, Consume(ts, i).1)
  }

  /** What `synchronize` skips and where it stops: every token it passes
      after the first is neither `;`, `return`, `{` nor end-of-file; it stops
      at the end, just past a `;`, or on a `return` or `{`. */
  lemma {:induction false} SyncLoopStops(ts: seq<Token>, i: nat)
    requires i <= |ts|
    ensures var j := SyncLoop(ts, i);
      (forall m :: i <= m < j && !(m == j - 1 && ts[m].kind == Semi) ==>
        ts[m].kind != Semi && !IsSyncAnchor(ts[m].kind) && ts[m].kind != Eof) &&
      (IsAtEnd(ts, j) || (j > i && ts[j - 1].kind == Semi) || IsSyncAnchor(ts[j].kind))
    decreases |ts| - i
  {
    if !IsAtEnd(ts, i) && ts[i].kind != Semi && !IsSyncAnchor(ts[i].kind) {
      SyncLoopStops(ts, i + 1);
    }
  }

  /** Recovery always makes progress: resuming from wherever an error left
      the cursor (not before `i`, which is not at the end), `synchronize`
      lands strictly after `i`. */
  lemma RecoveryAdvances(ts: seq<Token>, i: nat, at: nat)
    requires i <= at <= |ts| && !IsAtEnd(ts, i)
    ensures i < SyncFrom(ts, at)
  {
  }

  /** The parameter list loop: `type name` pairs separated by commas. */
  function ParamsAt(ts: seq<Token>, i: nat): (r: Parsed<seq<Parameter>>)
    requires i <= |ts|
    ensures r.Accept? ==> i < r.next <= |ts| && |r.value| > 0 && IdentParams(r.value)
    ensures r.Reject? ==> i <= r.at <= |ts|
    decreases |ts| - i
  {
    match ExpectAt(ts, i, Identifier, Some(ParamType))
    case Reject(err, at) => Reject(err, at)
    case Accept(t, j) =>
      match ExpectAt(ts, j, Identifier, Some(ParamName))
      case Reject(err, at) => Reject(err, at)
      case Accept(n, k) =>
        if PeekAt(ts, k).kind == Comma then Prepend([Parameter(t, n)], ParamsAt(ts, k + 1))
        else Accept([Parameter(t, n)], k)
  }

  /** The header of a function declaration: its name and parameters. */
  function HeaderAt(ts: seq<Token>, i: nat): (r: Parsed<(Token, seq<Parameter>)>)
    requires i <= |ts|
    ensures r.Accept? ==> i < r.next <= |ts| && r.value.0 == ts[i] && ts[i].kind == Identifier && IdentParams(r.value.1)
    ensures r.Reject? ==> i <= r.at <= |ts|
  {
    var n := ExpectAt(ts, i, Identifier, Some(FunctionName));
    if n.Reject? then Reject(n.err, n.at)
    else
      var lp := ExpectAt(ts, n.next, LParen, Some(FunctionOpen));
      if lp.Reject? then Reject(lp.err, lp.at)
      else if PeekAt(ts, lp.next).kind == RParen then Accept((n.value, []), lp.next + 1)
      else
        match ParamsAt(ts, lp.next)
        case Reject(e, at) => Reject(e, at)
        case Accept(ps, k) =>
          var rp := ExpectAt(ts, k, RParen, Some(ParamsClose));
          if rp.Reject? then Reject(rp.err, rp.at) else Accept((n.value, ps), rp.next)
  }

  /** The tokens of a parameter list: `type name` pairs joined by commas. */
  function ParamTokens(ps: seq<Parameter>): (ts: seq<Token>)
    ensures |ts| == if |ps| == 0 then 0 else 3 * |ps| - 1
  {
    if |ps| == 0 then []
    else if |ps| == 1 then [ps[0].typ, ps[0].name]
    else [ps[0].typ, ps[0].name, Token(Comma, ",", 0, 0)] + ParamTokens(ps[1..])
  }

  /** Every type and name token is an identifier. */
  predicate IdentParams(ps: seq<Parameter>) {
    forall k :: 0 <= k < |ps| ==> ps[k].typ.kind == Identifier && ps[k].name.kind == Identifier
  }

  /** The parameter loop from `i` gives `ps` and stops at `n`. */
  predicate ParamsGive(ts: seq<Token>, i: nat, ps: seq<Parameter>, n: nat)
    requires i <= |ts|
  {
    ParamsAt(ts, i) == Accept(ps, n)
  }

  /** A round of the parameter loop that meets a comma: the pair is kept in
      front of the pairs after the comma. */
  lemma ParamsCons(ts: seq<Token>, i: nat, p: Parameter, rest: seq<Parameter>, n: nat)
    requires i + 2 < |ts| && ts[i] == p.typ && ts[i + 1] == p.name && ts[i + 2].kind == Comma
    requires p.typ.kind == Identifier && p.name.kind == Identifier
    requires ParamsGive(ts, i + 3, rest, n)
    ensures ParamsGive(ts, i, [p] + rest, n)
  {
  }

  /** The last round of the parameter loop: a pair and no comma. */
  lemma ParamsLast(ts: seq<Token>, i: nat, p: Parameter)
    requires i + 1 < |ts| && ts[i] == p.typ && ts[i + 1] == p.name && PeekAt(ts, i + 2).kind != Comma
    requires p.typ.kind == Identifier && p.name.kind == Identifier
    ensures ParamsGive(ts, i, [p], i + 2)
  {
  }

  /** Parsing a written-out parameter list gives back the parameters. */
  lemma {:induction false} ParamsRoundTrip(ts: seq<Token>, i: nat, ps: seq<Parameter>)
    requires |ps| > 0 && IdentParams(ps) && HoldsAt(ts, i, ParamTokens(ps))
    requires PeekAt(ts, i + |ParamTokens(ps)|).kind != Comma
    ensures i < |ts| && ts[i].kind == Identifier
    ensures ParamsGive(ts, i, ps, i + |ParamTokens(ps)|)
    decreases |ps|
  {
    var head := Parameter(ps[0].typ, ps[0].name);
    if |ps| > 1 {
      var tail := ps[1..];
      var comma := Token(Comma, ",", 0, 0);
      var w := [ps[0].typ, ps[0].name, comma];
      HoldsAtSplit(ts, i, w, ParamTokens(tail));
      HoldsAtElems(ts, i, w);
      assert ts[i] == w[0] && ts[i + 1] == w[1] && ts[i + 2] == w[2];
      assert forall k :: 0 <= k < |tail| ==> tail[k] == ps[k + 1];
      ParamsRoundTrip(ts, i + 3, tail);
      ParamsCons(ts, i, head, tail, i + |ParamTokens(ps)|);
      assert [head] + tail == ps;
    } else {
      var w := [ps[0].typ, ps[0].name];
      HoldsAtElems(ts, i, w);
      assert ts[i] == w[0] && ts[i + 1] == w[1];
      ParamsLast(ts, i, head);
      assert [head] == ps;
    }
  }

  /** The tokens of a function header `name ( params )`. */
  function HeaderTokens(name: Token, ps: seq<Parameter>): seq<Token> {
    [name, Token(LParen, "(", 0, 0)] + ParamTokens(ps) + [Token(RParen, ")", 0, 0)]
  }

  /** Parsing a written-out header gives back its name and parameters. */
  lemma HeaderRoundTrip(ts: seq<Token>, i: nat, name: Token, ps: seq<Parameter>)
    requires name.kind == Identifier && IdentParams(ps) && HoldsAt(ts, i, HeaderTokens(name, ps))
    ensures HeaderAt(ts, i) == Accept((name, ps), i + |HeaderTokens(name, ps)|)
  {
    var pt := ParamTokens(ps);
    var lp, rp := Token(LParen, "(", 0, 0), Token(RParen, ")", 0, 0);
    var front := [name, lp] + pt;
    var j := i + |front|;
    HoldsAtSplit(ts, i, front, [rp]);
    HoldsAtSplit(ts, i, [name, lp], pt);
    HoldsAtElems(ts, i, [name, lp]);
    HoldsAtElems(ts, j, [rp]);
    assert ExpectAt(ts, i, Identifier, Some(FunctionName)) == Accept(name, i + 1);
    if |ps| > 0 {
      ParamsRoundTrip(ts, i + 2, ps);
    }
  }
}
