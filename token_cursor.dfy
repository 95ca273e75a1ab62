/** The cursor object of both `TOK_*` parsers: the token vector and
    `currentIndex`, with `peek`, `consume`, `match`, `check`, `expect`,
    `isAtEnd` and `synchronize`, whose text is the same in
    NexusCompiler/src/Parser/Parser.cpp and
    NexusCompilerV2/src/Parser/Parser.cpp. Each method is proved against the
    function over `(tokens, index)` that it implements. */
module TokenCursor {
  import opened Wrappers
  import opened TokKinds
  import opened ParseCursor
  import opened Ast

  class Cursor {
    const tokens: seq<Token>
    var currentIndex: nat

    ghost predicate Valid()
      reads this
    {
      currentIndex <= |tokens|
    }

    constructor(t: seq<Token>)
      ensures tokens == t && currentIndex == 0 && Valid()
    {
      tokens := t;
      currentIndex := 0;
    }

    /** `peek()`. */
    function Peek(): (t: Token)
      reads this
      ensures t == PeekAt(tokens, currentIndex)
    {
      if currentIndex >= |tokens| then EofToken else tokens[currentIndex]
    }

    /** `isAtEnd()`. */
    predicate IsAtEnd()
      reads this
      ensures IsAtEnd() == ParseCursor.IsAtEnd(tokens, currentIndex)
    {
      currentIndex >= |tokens| || Peek().kind == Eof
    }

    /** `check(kind)`. */
    predicate Check(kind: TokKind)
      reads this
      ensures Check(kind) == ParseCursor.Check(tokens, currentIndex, kind)
    {
      !IsAtEnd() && Peek().kind == kind
    }

    /** `consume()`. */
    method Consume() returns (t: Token)
      requires Valid()
      modifies this
      ensures Valid() && (t, currentIndex) == ParseCursor.Consume(tokens, old(currentIndex))
    {
      if currentIndex >= |tokens| {
        return EofToken;
      }
      t := tokens[currentIndex];
      currentIndex := currentIndex + 1;
    }

    /** `match(k)`. */
    method Match(k: TokKind) returns (b: bool)
      requires Valid()
      modifies this
      ensures Valid() && b == (PeekAt(tokens, old(currentIndex)).kind == k)
      ensures currentIndex == MatchAt(tokens, old(currentIndex), k)
    {
      if Peek().kind == k {
        var _ := Consume();
        return true;
      }
      return false;
    }

    /** `expect(kind, errorMsg)`, with an empty message as `None`. */
    method Expect(kind: TokKind, errorMsg: Option<Message>) returns (r: Result<Token, ParseError>)
      requires Valid()
      modifies this
      ensures Valid() && Outcome(r, currentIndex) == ExpectAt(tokens, old(currentIndex), kind, errorMsg)
    {
      if Peek().kind == kind {
        var t := Consume();
        return Ok(t);
      }
      var msg := ExpectedKind(kind, Peek());
      return Err(ParseError(Peek().line, Peek().column, if errorMsg.None? then msg else errorMsg.value));
    }

    /** `synchronize()`. */
    method Synchronize()
      requires Valid()
      modifies this
      ensures Valid() && currentIndex == SyncFrom(tokens, old(currentIndex))
    {
      var _ := Consume();
      while !IsAtEnd()
        invariant Valid() && SyncLoop(tokens, currentIndex) == SyncFrom(tokens, old(currentIndex))
        decreases |tokens| - currentIndex
      {
        if Peek().kind == Semi {
          var _ := Consume();
          return;
        }
        if Peek().kind == TokKind.Return || Peek().kind == LBrace {
          return;
        }
        var _ := Consume();
      }
    }
  }

  /** The `do … while (match(TOK_COMMA))` loop of `parseFunctionDecl`. */
  method ParseParameters(c: Cursor) returns (r: Result<seq<Parameter>, ParseError>)
    requires c.Valid()
    modifies c
    ensures c.Valid()
    ensures Outcome(r, c.currentIndex) == ParamsAt(c.tokens, old(c.currentIndex))
  {
    var params := [];
    ghost var start := c.currentIndex;
    PrependNothing(ParamsAt(c.tokens, start));
    while true
      invariant c.Valid() && start <= c.currentIndex
      invariant Prepend(params, ParamsAt(c.tokens, c.currentIndex)) == ParamsAt(c.tokens, start)
      decreases |c.tokens| - c.currentIndex
    {
      var typeToken := c.Expect(Identifier, Some(ParamType));
      if typeToken.Err? {
        return Err(typeToken.error);
      }
      var nameToken := c.Expect(Identifier, Some(ParamName));
      if nameToken.Err? {
        return Err(nameToken.error);
      }
      var p := Parameter(typeToken.value, nameToken.value);
      var more := c.Match(Comma);
      if !more {
        return Ok(params + [p]);
      }
      PrependTwice(params, [p], ParamsAt(c.tokens, c.currentIndex));
      params := params + [p];
    }
  }

  /** The header part of `parseFunctionDecl`, the same in both parsers:
      the name, `(`, the parameters unless `)` follows at once, `)`. */
  method ParseHeader(c: Cursor) returns (r: Result<(Token, seq<Parameter>), ParseError>)
    requires c.Valid()
    modifies c
    ensures c.Valid()
    ensures Outcome(r, c.currentIndex) == HeaderAt(c.tokens, old(c.currentIndex))
  {
    var nameToken :- c.Expect(Identifier, Some(FunctionName));
    var _ :- c.Expect(LParen, Some(FunctionOpen));
    var closed := c.Match(RParen);
    if closed {
      return Ok((nameToken, []));
    }
    var params :- ParseParameters(c);
    var _ :- c.Expect(RParen, Some(ParamsClose));
    return Ok((nameToken, params));
  }
}
