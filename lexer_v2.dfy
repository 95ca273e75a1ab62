/** The early `TOK_*` lexer of NexusCompilerV2: single-character symbols, a
    `+` branch that looks one character too far, words that are always
    identifiers, and an end-of-file token only where '\0' is read. */
module LexerV2 {
  import opened Wrappers
  import opened CType
  import opened Scanning
  import opened TokKinds
  import opened SeqFacts

  /** What one pass of the loop body yields from the position `q` reached
      after skipping whitespace: an optional token (kind and text), the
      position whose line and column it reports, and the position after it. */
  datatype Scan = Scan(tok: Option<(TokKind, string)>, mark: nat, next: nat)

  /** `isIdentifierStart`. */
  predicate IsIdentifierStart(c: char) {
    IsAlpha(c) || c == '_'
  }

  /** `isIdentifierChar`. */
  predicate IsIdentifierChar(c: char) {
    IsAlnum(c) || c == '_'
  }

  /** The string loop: the first '"' from `p`, or the end. Unlike the other
      lexers, an embedded '\0' does not stop it. */
  function QuoteEnd(src: string, p: nat): (q: nat)
    requires p <= |src|
    ensures p <= q <= |src|
    ensures forall i :: p <= i < q ==> src[i] != '"'
    ensures q < |src| ==> src[q] == '"'
    decreases |src| - p
  {
    if p < |src| && src[p] != '"' then QuoteEnd(src, p + 1) else p
  }

  /** The single-character symbols `( ) { } = ;`. */
  function Symbol(c: char): Option<TokKind> {
    match c
    case '(' => Some(LParen)
    case ')' => Some(RParen)
    case '{' => Some(LBrace)
    case '}' => Some(RBrace)
    case '=' => Some(Assign)
    case ';' => Some(Semi)
    case _ => None
  }

  /** The `+` branch as written: after consuming the `+` it tests
      `peeknext()`, the character two places after the `+`. */
  function PlusAsWritten(src: string, q: nat): (s: Scan)
    requires q < |src| && src[q] == '+'
    ensures q < s.next <= |src|
  {
    if Peek(src, q + 2) == '+' then Scan(Some((Increment, "++")), q + 2, q + 2)
    else Scan(None, q + 1, q + 1)
  }

  /** The `+` branch as evidently intended: test `peek()`, the character
      right after the `+`. */
  function PlusIntended(src: string, q: nat): (s: Scan)
    requires q < |src| && src[q] == '+'
    ensures q < s.next <= |src|
  {
    if Peek(src, q + 1) == '+' then Scan(Some((Increment, "++")), q + 2, q + 2)
    else Scan(None, q + 1, q + 1)
  }

  /** One pass of the `Tokenize` loop body from `q`, which may be the end of
      the text; `fixPlus` selects the intended `+` branch. */
  function ScanOne(src: string, q: nat, fixPlus: bool): (s: Scan)
    requires q <= |src|
    ensures s.mark <= s.next <= |src|
    ensures q < |src| ==> q < s.next
    ensures q == |src| ==> s.next == q
  {
    var c := Peek(src, q);
    if Symbol(c).Some? then Scan(Some((Symbol(c).value, [c])), q + 1, q + 1)
    else if c == '+' then (if fixPlus then PlusIntended(src, q) else PlusAsWritten(src, q))
    else if IsIdentifierStart(c) then
      var e := WordEnd(src, q);
      Scan(Some((Identifier, src[q..e])), e, e)
    else if c == '"' then
      var e := QuoteEnd(src, q + 1);
      Scan(Some((String, src[q + 1..e])), e, if e < |src| then e + 1 else e)
    else if IsDigit(c) then
      var e := DigitsEnd(src, q);
      Scan(Some((Int, src[q..e])), e, e)
    else if c == '\0' then
      var n := if q < |src| then q + 1 else q;
      Scan(Some((Eof, "<EOF>")), n, n)
    else Scan(Some((Unknown, "<UNKNOWN>")), q, q + 1)
  }

  /** `makeToken`: the token reports the cursor at `p`. */
  function TokenAt(src: string, kind: TokKind, word: string, p: nat): Token
    requires p <= |src|
  {
    Token(kind, word, LineCol(src, p).0, LineCol(src, p).1)
  }

  function Emit(src: string, s: Scan): seq<Token>
    requires s.mark <= |src|
  {
    if s.tok.Some? then [TokenAt(src, s.tok.value.0, s.tok.value.1, s.mark)] else []
  }

  /** The tokens `Tokenize` pushes from position `p` on. The loop runs while
      the cursor is inside the text and does not stop after skipping
      whitespace, so nothing is appended after it. */
  function LexFrom(src: string, p: nat, fixPlus: bool): (ts: seq<Token>)
    requires p <= |src|
    decreases |src| - p
  {
    if p == |src| then []
    else
      var s := ScanOne(src, SkipSpaces(src, p), fixPlus);
      Emit(src, s) + LexFrom(src, s.next, fixPlus)
  }

  lemma LexFromStep(src: string, p: nat, fixPlus: bool)
    requires p < |src|
    ensures var s := ScanOne(src, SkipSpaces(src, p), fixPlus);
      LexFrom(src, p, fixPlus) == Emit(src, s) + LexFrom(src, s.next, fixPlus)
  {
  }

  /** `Lexer(src).Tokenize()` as written. */
  function Lex(src: string): seq<Token> {
    LexFrom(src, 0, false)
  }

  /** Every word is `TOK_IDENTIFIER`, keywords included: a maximal
      `[A-Za-z0-9_]` run from a letter or '_'. */
  lemma WordsAreIdentifiers(src: string, q: nat, fixPlus: bool)
    requires q < |src| && IsIdentifierStart(src[q])
    ensures var s := ScanOne(src, q, fixPlus);
      s.tok == Some((Identifier, src[q..s.next])) && s.mark == s.next &&
      (forall i :: q <= i < s.next ==> IsIdentifierChar(src[i])) && !IsIdentifierChar(Peek(src, s.next))
  {
  }

  /** `return` and `i32` are identifiers, not keywords. */
  lemma ReturnIsIdentifier()
    ensures ScanOne("return", 0, false).tok == Some((Identifier, "return"))
    ensures ScanOne("i32", 0, false).tok == Some((Identifier, "i32"))
  {
    var r, t := "return", "i32";
    assert WordEnd(r, 6) == 6;
    assert r[0..6] == r;
    assert WordEnd(t, 3) == 3;
    assert t[0..3] == t;
  }

  /** A number is a maximal digit run and is always `TOK_INT`. */
  lemma DigitRunIsInt(src: string, q: nat, fixPlus: bool)
    requires q < |src| && IsDigit(src[q])
    ensures var s := ScanOne(src, q, fixPlus);
      s.tok == Some((Int, src[q..s.next])) && q < s.next &&
      (forall i :: q <= i < s.next ==> IsDigit(src[i])) && !IsDigit(Peek(src, s.next))
  {
  }

  /** Each of `( ) { } = ;` is one token of its own kind; any other
      character no branch handles is `TOK_UNKNOWN` with the text
      `"<UNKNOWN>"`, reported at the position before it. */
  lemma SymbolsAndUnknown(src: string, q: nat, fixPlus: bool)
    requires q < |src| && !IsSpace(src[q])
    ensures src[q] in "(){}=;" ==>
      ScanOne(src, q, fixPlus) == Scan(Some((Symbol(src[q]).value, [src[q]])), q + 1, q + 1)
    ensures src[q] !in "(){}=;+\"\0" && !IsAlnum(src[q]) && src[q] != '_' ==>
      ScanOne(src, q, fixPlus) == Scan(Some((Unknown, "<UNKNOWN>")), q, q + 1)
  {
  }

  /** A string is the raw text between the quotes; unterminated, it runs to
      the end of the text. */
  lemma StringToken(src: string, q: nat, fixPlus: bool)
    requires q < |src| && src[q] == '"'
    ensures var s := ScanOne(src, q, fixPlus);
      s.tok.Some? && s.tok.value.0 == String &&
      var e := q + 1 + |s.tok.value.1|;
      e <= |src| && s.tok.value.1 == src[q + 1..e] &&
      (forall i :: q < i < e ==> src[i] != '"') &&
      (if e < |src| then src[e] == '"' && s.next == e + 1 else s.next == e)
  {
  }

  /** A '\0' under the cursor, an embedded one or the end of the text
      reached by skipping trailing whitespace, yields `TOK_EOF`. */
  lemma NulIsEof(src: string, q: nat, fixPlus: bool)
    requires q <= |src| && Peek(src, q) == '\0'
    ensures ScanOne(src, q, fixPlus).tok == Some((Eof, "<EOF>"))
  {
  }

  /** Empty input yields no token at all. */
  lemma EmptyInputNoTokens()
    ensures Lex("") == []
  {
  }

  /** `TOK_EOF` is only ever produced where a '\0' is read: so text without
      '\0' that ends in a non-space character gets no `TOK_EOF` at all. */
  lemma {:induction false} NoEofWithoutNul(src: string, p: nat, fixPlus: bool)
    requires p <= |src| && (forall i :: 0 <= i < |src| ==> src[i] != '\0')
    requires |src| > 0 ==> !IsSpace(src[|src| - 1])
    ensures forall t :: t in LexFrom(src, p, fixPlus) ==> t.kind != Eof
    decreases |src| - p
  {
    if p < |src| {
      var q := SkipSpaces(src, p);
      var s := ScanOne(src, q, fixPlus);
      NoEofWithoutNul(src, s.next, fixPlus);
      LexFromStep(src, p, fixPlus);
    }
  }

  lemma NoEofAfterNonSpace(src: string)
    requires forall i :: 0 <= i < |src| ==> src[i] != '\0'
    requires |src| > 0 ==> !IsSpace(src[|src| - 1])
    ensures forall t :: t in Lex(src) ==> t.kind != Eof
  {
    NoEofWithoutNul(src, 0, false);
  }

  /** As written, a `+` that is not followed, two places on, by another `+`
      yields no token; in particular `++` before a third character drops. */
  lemma PlusPairDropped(src: string, q: nat)
    requires q + 1 < |src| && src[q] == '+' && src[q + 1] == '+' && Peek(src, q + 2) != '+' && Peek(src, q + 3) != '+'
    ensures ScanOne(src, q, false) == Scan(None, q + 1, q + 1)
    ensures ScanOne(src, q + 1, false) == Scan(None, q + 2, q + 2)
  {
  }

  /** `x++;` lexes to the identifier and the semicolon only. */
  lemma IncrementLost()
    ensures Lex("x++;") == [Token(Identifier, "x", 1, 2), Token(Semi, ";", 1, 5)]
  {
    var src := "x++;";
    assert WordEnd(src, 1) == 1;
    assert src[0..1] == "x";
    assert ScanOne(src, 0, false) == Scan(Some((Identifier, "x")), 1, 1);
    PlusPairDropped(src, 1);
    assert ScanOne(src, 3, false) == Scan(Some((Semi, ";")), 4, 4);
    assert LexFrom(src, 3, false) == [Token(Semi, ";", 1, 5)];
    assert LexFrom(src, 2, false) == LexFrom(src, 3, false);
    assert LexFrom(src, 1, false) == LexFrom(src, 2, false);
  }

  /** With the intended test, `++` is always one `TOK_INCREMENT`. */
  lemma IncrementIntended(src: string, q: nat)
    requires q + 1 < |src| && src[q] == '+' && src[q + 1] == '+'
    ensures ScanOne(src, q, true) == Scan(Some((Increment, "++")), q + 2, q + 2)
  {
  }

  /** With the intended test, a single `+` before a non-`+` yields nothing,
      exactly as the source leaves the binary `+` unimplemented. */
  lemma LonePlusDropped(src: string, q: nat)
    requires q < |src| && src[q] == '+' && Peek(src, q + 1) != '+'
    ensures ScanOne(src, q, true) == Scan(None, q + 1, q + 1)
  {
  }

  class Lexer {
    const codeFile: string
    var pos: nat
    var line: nat
    var col: nat

    /** The cursor is within the text and its line and column are those
        reached by consuming the text before it. */
    ghost predicate Valid()
      reads this
    {
      pos <= |codeFile| && (line, col) == LineCol(codeFile, pos)
    }

    constructor(f: string)
      ensures codeFile == f && pos == 0 && Valid()
    {
      codeFile := f;
      pos := 0;
      line := 1;
      col := 1;
    }

    function PeekChar(): char
      reads this
    {
      Peek(codeFile, pos)
    }

    function PeekNextChar(): char
      reads this
    {
      Peek(codeFile, pos + 1)
    }

    /** `next`: consume one character; at the end return '\0' and stay. A
        newline moves to column 1 of the next line. */
    method Next() returns (c: char)
      requires Valid()
      modifies this
      ensures Valid()
      ensures c == Peek(codeFile, old(pos))
      ensures pos == if old(pos) < |codeFile| then old(pos) + 1 else old(pos)
      ensures old(pos) >= |codeFile| ==> line == old(line) && col == old(col)
      ensures old(pos) < |codeFile| && c == '\n' ==> line == old(line) + 1 && col == 1
      ensures old(pos) < |codeFile| && c != '\n' ==> line == old(line) && col == old(col) + 1
    {
      if pos >= |codeFile| {
        return '\0';
      }
      c := codeFile[pos];
      pos := pos + 1;
      if c == '\n' {
        line := line + 1;
        col := 0;
      }
      col := col + 1;
    }

    function MakeToken(k: TokKind, spelling: string): (t: Token)
      reads this
      requires Valid()
      ensures t == TokenAt(codeFile, k, spelling, pos)
    {
      Token(k, spelling, line, col)
    }

    method SkipWhitespace()
      requires Valid()
      modifies this
      ensures Valid() && pos == SkipSpaces(codeFile, old(pos))
    {
      while IsSpace(PeekChar())
        invariant Valid() && old(pos) <= pos
        invariant SkipSpaces(codeFile, old(pos)) == SkipSpaces(codeFile, pos)
        decreases |codeFile| - pos
      {
        var _ := Next();
      }
    }

    /** The identifier branch: accumulate characters while they may
        continue an identifier. */
    method ScanWord() returns (t: Token)
      requires Valid()
      modifies this
      ensures Valid()
      ensures var e := WordEnd(codeFile, old(pos));
        pos == e && t == TokenAt(codeFile, Identifier, codeFile[old(pos)..e], e)
    {
      var currentWord := "";
      while IsIdentifierChar(PeekChar())
        invariant Valid() && old(pos) <= pos
        invariant currentWord == codeFile[old(pos)..pos]
        invariant WordEnd(codeFile, old(pos)) == WordEnd(codeFile, pos)
        decreases |codeFile| - pos
      {
        var c := Next();
        currentWord := currentWord + [c];
      }
      t := MakeToken(Identifier, currentWord);
    }

    /** The string branch from the opening quote. */
    method ScanString() returns (t: Token)
      requires Valid() && pos < |codeFile|
      modifies this
      ensures Valid()
      ensures var e := QuoteEnd(codeFile, old(pos) + 1);
        pos == (if e < |codeFile| then e + 1 else e) &&
        t == TokenAt(codeFile, String, codeFile[old(pos) + 1..e], e)
    {
      var currentWord := "";
      var _ := Next();
      ghost var start := pos;
      while pos < |codeFile| && PeekChar() != '"'
        invariant Valid() && start <= pos
        invariant currentWord == codeFile[start..pos]
        invariant QuoteEnd(codeFile, start) == QuoteEnd(codeFile, pos)
        decreases |codeFile| - pos
      {
        var c := Next();
        currentWord := currentWord + [c];
      }
      t := MakeToken(String, currentWord);
      var _ := Next();
    }

    /** The number branch: a do-while over digits. */
    method ScanDigits() returns (t: Token)
      requires Valid() && pos < |codeFile| && IsDigit(codeFile[pos])
      modifies this
      ensures Valid()
      ensures var e := DigitsEnd(codeFile, old(pos));
        pos == e && t == TokenAt(codeFile, Int, codeFile[old(pos)..e], e)
    {
      var c := Next();
      var currentWord := [c];
      while IsDigit(PeekChar())
        invariant Valid() && old(pos) < pos
        invariant currentWord == codeFile[old(pos)..pos]
        invariant DigitsEnd(codeFile, old(pos)) == DigitsEnd(codeFile, pos)
        decreases |codeFile| - pos
      {
        c := Next();
        currentWord := currentWord + [c];
      }
      t := MakeToken(Int, currentWord);
    }

    /** One pass of the loop body after `skipWhitespace`, as written. */
    method ScanToken() returns (tok: Option<Token>)
      requires Valid()
      modifies this
      ensures Valid()
      ensures var s := ScanOne(codeFile, old(pos), false);
        pos == s.next && Emit(codeFile, s) == if tok.Some? then [tok.value] else []
    {
      var c := PeekChar();
      if Symbol(c).Some? {
        var _ := Next();
        return Some(MakeToken(Symbol(c).value, [c]));
      }
      if c == '+' {
        var _ := Next();
        if PeekNextChar() == '+' {
          var _ := Next();
          return Some(MakeToken(Increment, "++"));
        }
        return None;
      }
      if IsIdentifierStart(c) {
        var t := ScanWord();
        return Some(t);
      }
      if c == '"' {
        var t := ScanString();
        return Some(t);
      }
      if IsDigit(c) {
        var t := ScanDigits();
        return Some(t);
      }
      if c == '\0' {
        var _ := Next();
        return Some(MakeToken(Eof, "<EOF>"));
      }
      var t := MakeToken(Unknown, "<UNKNOWN>");
      var _ := Next();
      return Some(t);
    }

    /** `Tokenize`: the token list from the cursor on. */
    method Tokenize() returns (lstTokens: seq<Token>)
      requires Valid()
      modifies this
      ensures Valid() && pos == |codeFile|
      ensures lstTokens == LexFrom(codeFile, old(pos), false)
    {
      lstTokens := [];
      ghost var all := LexFrom(codeFile, pos, false);
      while pos < |codeFile|
        invariant Valid() && old(pos) <= pos
        invariant all == lstTokens + LexFrom(codeFile, pos, false)
        decreases |codeFile| - pos
      {
        ghost var before := pos;
        ghost var prefix := lstTokens;
        LexFromStep(codeFile, before, false);
        SkipWhitespace();
        var tok := ScanToken();
        ghost var emitted := if tok.Some? then [tok.value] else [];
        if tok.Some? {
          lstTokens := lstTokens + [tok.value];
        }
        assert lstTokens == prefix + emitted;
        AppendAssoc(prefix, emitted, LexFrom(codeFile, pos, false));
      }
    }
  }
}
