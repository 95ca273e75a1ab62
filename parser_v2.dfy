/** The skeleton `Parser` of NexusCompilerV2/src/Parser/Parser.cpp. Its
    cursor helpers and `synchronize` are those of `TokenCursor`;
    `parseFunctionDecl` reads only a header and returns a function with no
    body; and `parse` loops WHILE `isAtEnd()` holds, the reverse of the
    guard it needs. So a stream not at its end gives an empty program at
    once, and a stream at its end never gives a function. The loop with
    the intended guard, `!isAtEnd()`, is `ParseFromIntended`. */
module ParserV2 {
  import opened Wrappers
  import opened TokKinds
  import opened Ast
  import opened SeqFacts
  import opened ParseCursor
  import opened TokenCursor

  /** `parseFunctionDecl`: the header, then a `Function` whose body is null. */
  function FunctionDeclAt(ts: seq<Token>, i: nat): (r: Parsed<Function>)
    requires i <= |ts|
    ensures r.Accept? ==> i < r.next <= |ts| && r.value.name == ts[i] && r.value.body.None?
    ensures r.Reject? ==> i <= r.at <= |ts|
    ensures IsAtEnd(ts, i) ==> r == Reject(ErrAt(ts, i, FunctionName), i)
  {
    match HeaderAt(ts, i)
    case Reject(e, at) => Reject(e, at)
    case Accept((name, params), j) => Accept(Function(name, params, None), j)
  }

  /** The loop's result with `pre` in front, when the loop exits at all. */
  function Keep(pre: seq<Function>, r: Option<seq<Function>>): Option<seq<Function>> {
    if r.Some? then Some(pre + r.value) else None
  }

  /** The loop of `parse` from `i`: the functions it pushes when it exits,
      or `None` when a failing round leaves the cursor where it was, so
      that every later round is the same and the loop never exits. */
  function ParseFrom(ts: seq<Token>, i: nat): (r: Option<seq<Function>>)
    requires i <= |ts|
    ensures r.Some? ==> r.value == []
    decreases |ts| - i
  {
    if !IsAtEnd(ts, i) then Some([])
    else
      match FunctionDeclAt(ts, i)
      case Accept(f, j) =>
        // at the end no function name can be read
        assert false; None
      case Reject(_, at) =>
        var k := SyncFrom(ts, at);
        if k <= i then None else ParseFrom(ts, k)
  }

  /** `parse`: the program, or `None` for a run that never returns. */
  function Parse(ts: seq<Token>): (p: Option<Program>)
    ensures p.Some? ==> p.value.functions == []
  {
    var r := ParseFrom(ts, 0);
    if r.Some? then Some(Program(r.value)) else None
  }

  /** A stream whose first token is not `TOK_EOF` yields an empty program
      without any function being parsed. */
  lemma NotAtEndGivesEmpty(ts: seq<Token>)
    requires |ts| > 0 && ts[0].kind != Eof
    ensures Parse(ts) == Some(Program([]))
  {
  }

  /** An empty stream never leaves the loop: the declaration fails and
      `synchronize` cannot move. */
  lemma EmptyNeverExits()
    ensures Parse([]) == None
  {
    assert FunctionDeclAt([], 0).at == 0;
  }

  /** A stream made only of `TOK_EOF` tokens from `i` on never leaves the
      loop: every round fails, and `synchronize` only walks to the end. */
  lemma {:induction false} AllEofNeverExits(ts: seq<Token>, i: nat)
    requires i <= |ts| && forall k :: i <= k < |ts| ==> ts[k].kind == Eof
    ensures ParseFrom(ts, i) == None
    decreases |ts| - i
  {
    assert FunctionDeclAt(ts, i).at == i;
    if i < |ts| {
      assert SyncFrom(ts, i) == SyncLoop(ts, i + 1);
      assert IsAtEnd(ts, i + 1);
      AllEofNeverExits(ts, i + 1);
    }
  }

  /** `synchronize` can step over a `TOK_EOF` and stop before `return`,
      after which the loop exits with an empty program. */
  lemma EofThenReturnExits(eof: Token, ret: Token)
    requires eof.kind == Eof && ret.kind == TokKind.Return
    ensures Parse([eof, ret]) == Some(Program([]))
  {
    var ts := [eof, ret];
    assert FunctionDeclAt(ts, 0).at == 0;
    assert SyncLoop(ts, 1) == 1;
    assert SyncFrom(ts, 0) == 1;
    assert ParseFrom(ts, 1) == Some([]);
  }

  // ------------------------------------------- the loop with its intended guard

  /** The loop of `parse` as evidently intended, `while (!isAtEnd())`: each
      header read is pushed, and a failing round resumes after
      `synchronize`. Every round moves the cursor, so the loop always exits. */
  function ParseFromIntended(ts: seq<Token>, i: nat): (r: seq<Function>)
    requires i <= |ts|
    ensures forall k :: 0 <= k < |r| ==> r[k].body.None?
    ensures IsAtEnd(ts, i) ==> r == []
    decreases |ts| - i
  {
    if IsAtEnd(ts, i) then []
    else
      match FunctionDeclAt(ts, i)
      case Accept(f, j) => [f] + ParseFromIntended(ts, j)
      case Reject(_, at) => ParseFromIntended(ts, SyncFrom(ts, at))
  }

  /** `parse` with the intended guard: the program of every header read. */
  function ParseIntended(ts: seq<Token>): (p: Program)
    ensures IsAtEnd(ts, 0) ==> p.functions == []
  {
    Program(ParseFromIntended(ts, 0))
  }

  /** Bodiless functions whose headers can be written out. */
  predicate HeadersOk(fs: seq<Function>) {
    forall k :: 0 <= k < |fs| ==> fs[k].name.kind == Identifier && IdentParams(fs[k].params) && fs[k].body.None?
  }

  /** The headers of `fs`, one after the other. */
  function HeadersTokens(fs: seq<Function>): seq<Token> {
    if fs == [] then [] else HeaderTokens(fs[0].name, fs[0].params) + HeadersTokens(fs[1..])
  }

  /** With the intended guard, written-out headers closed by the end of the
      stream (a `TOK_EOF` or nothing) at `e` read back as the same functions. */
  lemma {:induction false} HeadersRoundTrip(ts: seq<Token>, i: nat, fs: seq<Function>, e: nat)
    requires HeadersOk(fs) && HoldsAt(ts, i, HeadersTokens(fs)) && e == i + |HeadersTokens(fs)| && IsAtEnd(ts, e)
    ensures ParseFromIntended(ts, i) == fs
    decreases |fs|
  {
    HoldsAtFits(ts, i, HeadersTokens(fs));
    if fs != [] {
      var n := i + |HeaderTokens(fs[0].name, fs[0].params)|;
      HeadersCons(ts, i, fs, n, e);
      HeadersRoundTrip(ts, n, fs[1..], e);
      HeaderStep(ts, i, fs[0], n);
      assert fs == [fs[0]] + fs[1..];
    }
  }

  /** Helper: the first header is held at `i`, the others from `n` on. */
  lemma HeadersCons(ts: seq<Token>, i: nat, fs: seq<Function>, n: nat, e: nat)
    requires fs != [] && HeadersOk(fs) && HoldsAt(ts, i, HeadersTokens(fs)) && e == i + |HeadersTokens(fs)|
    requires n == i + |HeaderTokens(fs[0].name, fs[0].params)|
    ensures HoldsAt(ts, i, HeaderTokens(fs[0].name, fs[0].params)) && HoldsAt(ts, n, HeadersTokens(fs[1..]))
    ensures HeadersOk(fs[1..]) && e == n + |HeadersTokens(fs[1..])|
  {
    HoldsAtSplit(ts, i, HeaderTokens(fs[0].name, fs[0].params), HeadersTokens(fs[1..]));
    assert forall k :: 0 <= k < |fs[1..]| ==> fs[1..][k] == fs[k + 1];
  }

  /** Helper: one round of the intended loop reads a written-out header
      ending at `n`. */
  lemma HeaderStep(ts: seq<Token>, i: nat, f: Function, n: nat)
    requires f.name.kind == Identifier && IdentParams(f.params) && f.body.None?
    requires HoldsAt(ts, i, HeaderTokens(f.name, f.params)) && n == i + |HeaderTokens(f.name, f.params)|
    ensures n <= |ts| && ParseFromIntended(ts, i) == [f] + ParseFromIntended(ts, n)
  {
    HoldsAtElems(ts, i, HeaderTokens(f.name, f.params));
    assert ts[i] == f.name;
    assert f == Function(f.name, f.params, None);
    FunctionDeclRoundTrip(ts, i, f.name, f.params);
    IntendedAccepts(ts, i, f, n);
  }

  /** Helper: a round of the intended loop that reads a header keeps it. */
  lemma IntendedAccepts(ts: seq<Token>, i: nat, f: Function, n: nat)
    requires i < |ts| && ts[i].kind == Identifier && FunctionDeclAt(ts, i) == Accept(f, n)
    ensures n <= |ts| && ParseFromIntended(ts, i) == [f] + ParseFromIntended(ts, n)
  {
  }

  /** The guard as written loses every header: headers closed by the end
      of the stream give an empty program, where the intended loop gives
      them all. */
  lemma AsWrittenDropsHeaders(ts: seq<Token>, fs: seq<Function>)
    requires fs != [] && HeadersOk(fs) && HoldsAt(ts, 0, HeadersTokens(fs)) && IsAtEnd(ts, |HeadersTokens(fs)|)
    ensures Parse(ts) == Some(Program([]))
    ensures ParseIntended(ts) == Program(fs) && ParseIntended(ts) != Parse(ts).value
  {
    HeadersRoundTrip(ts, 0, fs, |HeadersTokens(fs)|);
    assert HeadersTokens(fs)[0] == fs[0].name;
    NotAtEndGivesEmpty(ts);
  }

  /** A written-out header is read back as a function with no body. */
  lemma FunctionDeclRoundTrip(ts: seq<Token>, i: nat, name: Token, ps: seq<Parameter>)
    requires name.kind == Identifier && IdentParams(ps) && HoldsAt(ts, i, HeaderTokens(name, ps))
    ensures FunctionDeclAt(ts, i) == Accept(Function(name, ps, None), i + |HeaderTokens(name, ps)|)
  {
    HeaderRoundTrip(ts, i, name, ps);
  }

  class Parser {
    const cursor: Cursor

    constructor(tokens: seq<Token>)
      ensures fresh(cursor) && cursor.tokens == tokens && cursor.currentIndex == 0 && cursor.Valid()
    {
      cursor := new Cursor(tokens);
    }

    /** `parseFunctionDecl`. */
    method ParseFunctionDecl() returns (r: Result<Function, ParseError>)
      requires cursor.Valid()
      modifies cursor
      ensures cursor.Valid()
      ensures Outcome(r, cursor.currentIndex) == FunctionDeclAt(cursor.tokens, old(cursor.currentIndex))
    {
      var header :- ParseHeader(cursor);
      return Ok(Function(header.0, header.1, None));
    }

    /** `parse`, returning `None` where the source would loop forever. */
    method Parse() returns (p: Option<Program>)
      requires cursor.Valid()
      modifies cursor
      ensures cursor.Valid()
      ensures var r := ParseFrom(cursor.tokens, old(cursor.currentIndex));
        p == if r.Some? then Some(Program(r.value)) else None
    {
      var functions := [];
      ghost var start := cursor.currentIndex;
      if ParseFrom(cursor.tokens, start).Some? {
        assert [] + ParseFrom(cursor.tokens, start).value == ParseFrom(cursor.tokens, start).value;
      }
      while cursor.IsAtEnd()
        invariant cursor.Valid()
        invariant Keep(functions, ParseFrom(cursor.tokens, cursor.currentIndex)) == ParseFrom(cursor.tokens, start)
        decreases |cursor.tokens| - cursor.currentIndex
      {
        var before := cursor.currentIndex;
        var func := ParseFunctionDecl();
        if func.Ok? {
          // at the end no function name can be read
          assert false;
        } else {
          cursor.Synchronize();
          if cursor.currentIndex <= before {
            return None;
          }
        }
      }
      return Some(Program(functions));
    }
  }
}
