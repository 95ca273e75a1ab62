/** The reduced lexer of NexusCompiler/src/Tokenizing: the V1 vocabulary with
    a smaller operator set, no `//` token, and numbers that take one '.'
    whether or not a digit follows it. */
module LexerShort {
  import opened Wrappers
  import opened CType
  import opened Scanning
  import opened TokenKinds
  import opened SeqFacts

  /** What one scan from a non-space position yields: an optional token
      (kind and lexeme), the position whose line and column the token
      reports (`mark`), and the position after it. */
  datatype Scan = Scan(tok: Option<(TokenKind, string)>, mark: nat, next: nat)

  /** The number loop: digits, and one '.' while no '.' was taken, with no
      look-ahead. Returns the end and whether a '.' was taken. */
  function NumberEnd(src: string, p: nat, hasDot: bool): (r: (nat, bool))
    requires p <= |src|
    ensures p <= r.0 <= |src|
    ensures hasDot ==> r.1
    ensures !IsDigit(Peek(src, r.0)) && !(Peek(src, r.0) == '.' && !r.1)
    decreases |src| - p
  {
    if IsDigit(Peek(src, p)) then NumberEnd(src, p + 1, hasDot)
    else if Peek(src, p) == '.' && !hasDot then NumberEnd(src, p + 1, true)
    else (p, hasDot)
  }

  /** No '.' in `src[a..b]`. */
  predicate NoDot(src: string, a: nat, b: nat)
    requires a <= b <= |src|
  {
    forall i :: a <= i < b ==> src[i] != '.'
  }

  /** Every character of `src[a..b]` is a digit or a '.', and at most one is a '.'. */
  predicate DigitsAndOneDot(src: string, a: nat, b: nat)
    requires a <= b <= |src|
  {
    (forall i :: a <= i < b ==> IsDigit(src[i]) || src[i] == '.') &&
    (forall i :: a <= i < b && src[i] == '.' ==> NoDot(src, i + 1, b))
  }

  /** A number lexeme is digits with at most one '.', and the scan reports a
      '.' exactly when the lexeme holds one. */
  lemma {:induction false} NumberLexeme(src: string, p: nat, hasDot: bool)
    requires p <= |src|
    ensures var r := NumberEnd(src, p, hasDot);
      DigitsAndOneDot(src, p, r.0) && (hasDot ==> NoDot(src, p, r.0)) &&
      (r.1 <==> hasDot || !NoDot(src, p, r.0))
    decreases |src| - p
  {
    if IsDigit(Peek(src, p)) {
      NumberLexeme(src, p + 1, hasDot);
    } else if Peek(src, p) == '.' && !hasDot {
      NumberLexeme(src, p + 1, true);
    }
  }

  /** The `switch` on the current character `c`, with `d` the character
      after it. */
  function Punct(c: char, d: char): (r: (TokenKind, string))
    ensures 1 <= |r.1| <= 2 && r.1[0] == c
    ensures |r.1| == 2 ==> r.1[1] == d
  {
    match c
    case '&' => if d == '=' then (OpAndEqual, "&=") else (Unknown, "&")
    case '=' => if d == '>' then (DelimArrow, "=>") else (OpAssign, "=")
    case '<' => if d == '-' then (OpMove, "<-") else (OpLt, "<")
    case '-' => if d == '>' then (OpArrow, "->") else (OpMinus, "-")
    case '+' => (OpPlus, "+")
    case '*' => (OpMult, "*")
    case '/' => (OpDiv, "/")
    case '%' => (OpMod, "%")
    case '(' => (DelimLparen, "(")
    case ')' => (DelimRparen, ")")
    case '{' => (DelimLbrace, "{")
    case '}' => (DelimRbrace, "}")
    case ';' => (DelimSemicolon, ";")
    case ',' => (DelimComma, ",")
    case ':' => (DelimColon, ":")
    case _ => (Unknown, [c])
  }

  /** The cases `& = < -` build their token after consuming the first
      character; every other case before consuming anything. */
  function MarkOffset(c: char): (n: nat)
    ensures n <= 1
  {
    if c == '&' || c == '=' || c == '<' || c == '-' then 1 else 0
  }

  /** One pass of the `tokenize` loop body from a non-space position `q`. */
  function ScanOne(src: string, q: nat): (s: Scan)
    requires q < |src|
    ensures q < s.next <= |src| && s.mark <= s.next
  {
    var c := src[q];
    var d := Peek(src, q + 1);
    if c == '/' && d == '!' then
      var e := BlockCommentEnd(src, q + 2);
      Scan(None, e, e)
    else if c == '/' && d == '*' then
      var e := Until(src, q + 2, '\n');
      Scan(None, e, e)
    else if IsAlpha(c) || c == '_' then
      var e := WordEnd(src, q);
      var id := src[q..e];
      Scan(Some((GetKindFromSpelling(id).GetOr(Identifier), id)), e, e)
    else if IsDigit(c) || (c == '.' && IsDigit(d)) then
      var r := NumberEnd(src, q, false);
      Scan(Some((if r.1 then LitFloat else LitInteger, src[q..r.0])), r.0, r.0)
    else if c == '"' then
      var e := Until(src, q + 1, '"');
      var n := if Peek(src, e) == '"' then e + 1 else e;
      Scan(Some((LitString, src[q + 1..e])), n, n)
    else
      var r := Punct(c, d);
      Scan(Some(r), q + MarkOffset(c), q + |r.1|)
  }

  /** The column `makeToken` records, `col - lexeme.size()` in `size_t`
      arithmetic. The lexeme may already have been moved into the token's
      parameter when the size is read, since C++ leaves the order of those
      two argument evaluations open; `movedFirst` is the compiler's choice. */
  function ReportedColumn(col: nat, lexeme: string, movedFirst: bool): nat {
    if movedFirst then col else (col - |lexeme|) % 0x1_0000_0000_0000_0000
  }

  /** `makeToken` with the cursor at `p`. */
  function TokenAt(src: string, kind: TokenKind, lexeme: string, p: nat, movedFirst: bool): Token
    requires p <= |src|
  {
    Token(kind, lexeme, LineCol(src, p).0, ReportedColumn(LineCol(src, p).1, lexeme, movedFirst))
  }

  /** The tokens one scan contributes: none for a comment. */
  function Emit(src: string, s: Scan, movedFirst: bool): seq<Token>
    requires s.mark <= |src|
  {
    if s.tok.Some? then [TokenAt(src, s.tok.value.0, s.tok.value.1, s.mark, movedFirst)] else []
  }

  /** The tokens `tokenize` pushes from position `p` on, `eof` included. */
  function LexFrom(src: string, p: nat, movedFirst: bool): (ts: seq<Token>)
    requires p <= |src|
    decreases |src| - p
  {
    var q := SkipSpaces(src, p);
    if q == |src| then [TokenAt(src, Eof, "<EOF>", q, movedFirst)]
    else
      var s := ScanOne(src, q);
      Emit(src, s, movedFirst) + LexFrom(src, s.next, movedFirst)
  }

  lemma LexFromStep(src: string, p: nat, movedFirst: bool)
    requires p <= |src| && SkipSpaces(src, p) < |src|
    ensures var s := ScanOne(src, SkipSpaces(src, p));
      LexFrom(src, p, movedFirst) == Emit(src, s, movedFirst) + LexFrom(src, s.next, movedFirst)
  {
  }

  lemma LexFromEnd(src: string, p: nat, movedFirst: bool)
    requires p <= |src| && SkipSpaces(src, p) == |src|
    ensures LexFrom(src, p, movedFirst) == [TokenAt(src, Eof, "<EOF>", |src|, movedFirst)]
  {
  }

  /** `Lexer(src).tokenize()`. */
  function Lex(src: string, movedFirst: bool): seq<Token> {
    LexFrom(src, 0, movedFirst)
  }

  /** No pass of the loop body yields `eof`. */
  lemma ScanNeverEof(src: string, q: nat)
    requires q < |src|
    ensures ScanOne(src, q).tok.Some? ==> ScanOne(src, q).tok.value.0 != Eof
  {
  }

  /** `tokenize` ends with exactly one `eof` token, on the last line of the
      text, and no other token is `eof`. */
  lemma {:induction false} LexFromEndsWithEof(src: string, p: nat, movedFirst: bool)
    requires p <= |src|
    ensures var ts := LexFrom(src, p, movedFirst);
      |ts| >= 1 && ts[|ts| - 1] == TokenAt(src, Eof, "<EOF>", |src|, movedFirst) &&
      forall i :: 0 <= i < |ts| - 1 ==> ts[i].kind != Eof
    decreases |src| - p
  {
    var q := SkipSpaces(src, p);
    if q < |src| {
      var s := ScanOne(src, q);
      ScanNeverEof(src, q);
      LexFromEndsWithEof(src, s.next, movedFirst);
      assert LexFrom(src, p, movedFirst) == Emit(src, s, movedFirst) + LexFrom(src, s.next, movedFirst);
    }
  }

  lemma LexEndsWithEof(src: string, movedFirst: bool)
    ensures var ts := Lex(src, movedFirst);
      |ts| >= 1 && ts[|ts| - 1].kind == Eof && ts[|ts| - 1].lexeme == "<EOF>" &&
      ts[|ts| - 1].line == LineCol(src, |src|).0 &&
      forall i :: 0 <= i < |ts| - 1 ==> ts[i].kind != Eof
  {
    LexFromEndsWithEof(src, 0, movedFirst);
  }

  /** A number is digits with at most one '.', which is taken even when no
      digit follows it; it is a float exactly when it holds a '.'. A '.'
      starts a number only before a digit. */
  lemma NumberToken(src: string, q: nat)
    requires q < |src| && (IsDigit(src[q]) || (src[q] == '.' && IsDigit(Peek(src, q + 1))))
    ensures var s := ScanOne(src, q);
      s.tok.Some? && s.tok.value.1 == src[q..s.next] && DigitsAndOneDot(src, q, s.next) &&
      (s.tok.value.0 == LitFloat <==> !NoDot(src, q, s.next)) &&
      (s.tok.value.0 == LitInteger <==> NoDot(src, q, s.next)) &&
      !IsDigit(Peek(src, s.next)) && !(Peek(src, s.next) == '.' && NoDot(src, q, s.next))
  {
    NumberLexeme(src, q, false);
  }

  /** `1.` is the float literal "1.". */
  lemma TrailingDotIsFloat()
    ensures ScanOne("1.", 0) == Scan(Some((LitFloat, "1.")), 2, 2)
  {
    var src := "1.";
    assert IsDigit(src[0]) && src[1] == '.';
    assert NumberEnd(src, 2, true) == (2, true);
    assert NumberEnd(src, 1, false) == (2, true);
    assert NumberEnd(src, 0, false) == (2, true);
    assert src[0..2] == src;
  }

  /** A '.' not followed by a digit is not a number but an `unknown` token. */
  lemma LoneDotIsUnknown(src: string, q: nat)
    requires q < |src| && src[q] == '.' && !IsDigit(Peek(src, q + 1))
    ensures ScanOne(src, q) == Scan(Some((Unknown, ".")), q, q + 1)
  {
  }

  /** A '/' that opens no comment is always `op_div`: there is no `//` token. */
  lemma SlashIsDivision(src: string, q: nat)
    requires q < |src| && src[q] == '/' && Peek(src, q + 1) != '!' && Peek(src, q + 1) != '*'
    ensures ScanOne(src, q) == Scan(Some((OpDiv, "/")), q, q + 1)
  {
  }

  /** The two-character tokens and their kinds. */
  const TwoCharOps: map<string, TokenKind> := map["&=" := OpAndEqual, "=>" := DelimArrow, "<-" := OpMove, "->" := OpArrow]

  /** The operator and delimiter branches yield a two-character token exactly
      when one of `&= => <- ->` is at the cursor. */
  lemma TwoCharTokensExactly(src: string, q: nat)
    requires q + 1 < |src| && !IsAlnum(src[q]) && src[q] != '_' && src[q] != '"' && src[q] != '.'
    requires !(src[q] == '/' && (src[q + 1] == '!' || src[q + 1] == '*'))
    ensures var s := ScanOne(src, q);
      s.tok.Some? &&
      (s.next == q + 2 <==> src[q..q + 2] in TwoCharOps) &&
      (s.next == q + 2 ==> s.tok.value == (TwoCharOps[src[q..q + 2]], src[q..q + 2]))
  {
    var c, d := src[q], src[q + 1];
    assert src[q..q + 2] == [c, d];
  }

  /** `==` lexes as two `op_assign` tokens. */
  lemma DoubleEqualsIsTwoAssigns(src: string, q: nat)
    requires q + 1 < |src| && src[q] == '=' && src[q + 1] == '=' && Peek(src, q + 2) != '>'
    ensures ScanOne(src, q) == Scan(Some((OpAssign, "=")), q + 1, q + 1)
    ensures ScanOne(src, q + 1) == Scan(Some((OpAssign, "=")), q + 2, q + 2)
  {
  }

  /** `>`, `!` and any other character the switch does not list become an
      `unknown` token carrying that character. */
  lemma UnlistedCharacterIsUnknown(src: string, q: nat)
    requires q < |src| && !IsSpace(src[q]) && !IsAlnum(src[q])
    requires src[q] !in "_\"&=<-+*/%(){};,:" && !(src[q] == '.' && IsDigit(Peek(src, q + 1)))
    ensures ScanOne(src, q) == Scan(Some((Unknown, [src[q]])), q, q + 1)
  {
  }

  /** Identifiers and keywords: a maximal `[A-Za-z0-9_]` run from a letter
      or '_', classified by the keyword lookup. */
  lemma WordToken(src: string, q: nat)
    requires q < |src| && (IsAlpha(src[q]) || src[q] == '_')
    ensures var s := ScanOne(src, q);
      s.tok.Some? && s.tok.value.1 == src[q..s.next] &&
      (forall i :: q <= i < s.next ==> IsWordChar(src[i])) && !IsWordChar(Peek(src, s.next)) &&
      (s.tok.value.1 in KeywordSpellings ==> s.tok.value.0 == KeywordSpellings[s.tok.value.1]) &&
      (s.tok.value.1 !in KeywordSpellings ==> s.tok.value.0 == Identifier)
  {
  }

  /** A string lexeme drops the quotes and is the raw text between them; at
      the end of the text (or an embedded '\0') the string closes silently. */
  lemma StringToken(src: string, q: nat)
    requires q < |src| && src[q] == '"'
    ensures var s := ScanOne(src, q);
      s.tok.Some? && s.tok.value.0 == LitString &&
      var e := q + 1 + |s.tok.value.1|;
      e <= |src| && s.tok.value.1 == src[q + 1..e] &&
      (forall i :: q < i < e ==> src[i] != '"' && src[i] != '\0') &&
      (if e < |src| && src[e] == '"' then s.next == e + 1 else s.next == e && Peek(src, e) == '\0')
  {
  }

  class Lexer {
    const source: string
    /** Whether the compiler moves the lexeme before reading its size in
        `makeToken`. */
    const movedFirst: bool
    var pos: nat
    var line: nat
    var col: nat

    /** The cursor is within the text and its line and column are those
        reached by consuming the text before it. */
    ghost predicate Valid()
      reads this
    {
      pos <= |source| && (line, col) == LineCol(source, pos)
    }

    constructor(src: string, moved: bool)
      ensures source == src && movedFirst == moved && pos == 0 && Valid()
    {
      source := src;
      movedFirst := moved;
      pos := 0;
      line := 1;
      col := 1;
    }

    function PeekChar(): char
      reads this
    {
      Peek(source, pos)
    }

    function PeekNext(): char
      reads this
    {
      Peek(source, pos + 1)
    }

    /** `advance`: consume one character, never moving past the end. */
    method Advance() returns (c: char)
      requires Valid()
      modifies this
      ensures Valid()
      ensures c == Peek(source, old(pos))
      ensures pos == if old(pos) < |source| then old(pos) + 1 else old(pos)
      ensures c == '\n' ==> line == old(line) + 1 && col == 1
      ensures old(pos) < |source| && c != '\n' ==> line == old(line) && col == old(col) + 1
    {
      if pos >= |source| {
        return '\0';
      }
      c := source[pos];
      pos := pos + 1;
      if c == '\n' {
        line := line + 1;
        col := 1;
      } else {
        col := col + 1;
      }
    }

    function MakeToken(kind: TokenKind, lexeme: string): (t: Token)
      reads this
      requires Valid()
      ensures t == TokenAt(source, kind, lexeme, pos, movedFirst)
    {
      Token(kind, lexeme, line, ReportedColumn(col, lexeme, movedFirst))
    }

    method SkipWhitespace()
      requires Valid()
      modifies this
      ensures Valid() && pos == SkipSpaces(source, old(pos))
    {
      while IsSpace(PeekChar())
        invariant Valid() && old(pos) <= pos
        invariant SkipSpaces(source, old(pos)) == SkipSpaces(source, pos)
        decreases |source| - pos
      {
        var _ := Advance();
      }
    }

    /** The body loop of a `/!` comment. */
    method SkipBlockComment()
      requires Valid()
      modifies this
      ensures Valid() && pos == BlockCommentEnd(source, old(pos))
    {
      while PeekChar() != '\0'
        invariant Valid() && old(pos) <= pos
        invariant BlockCommentEnd(source, old(pos)) == BlockCommentEnd(source, pos)
        decreases |source| - pos
      {
        if PeekChar() == '!' && PeekNext() == '/' {
          var _ := Advance();
          var _ := Advance();
          return;
        }
        var _ := Advance();
      }
    }

    /** Advance until `stop` or '\0' is under the cursor. */
    method SkipUntil(stop: char)
      requires Valid()
      modifies this
      ensures Valid() && pos == Until(source, old(pos), stop)
    {
      while PeekChar() != stop && PeekChar() != '\0'
        invariant Valid() && old(pos) <= pos
        invariant Until(source, old(pos), stop) == Until(source, pos, stop)
        decreases |source| - pos
      {
        var _ := Advance();
      }
    }

    method SkipWord()
      requires Valid()
      modifies this
      ensures Valid() && pos == WordEnd(source, old(pos))
    {
      while IsAlnum(PeekChar()) || PeekChar() == '_'
        invariant Valid() && old(pos) <= pos
        invariant WordEnd(source, old(pos)) == WordEnd(source, pos)
        decreases |source| - pos
      {
        var _ := Advance();
      }
    }

    method SkipNumber() returns (hasDot: bool)
      requires Valid()
      modifies this
      ensures Valid() && (pos, hasDot) == NumberEnd(source, old(pos), false)
    {
      hasDot := false;
      while true
        invariant Valid() && old(pos) <= pos
        invariant NumberEnd(source, old(pos), false) == NumberEnd(source, pos, hasDot)
        decreases |source| - pos
      {
        var p := PeekChar();
        if IsDigit(p) {
          var _ := Advance();
          continue;
        }
        if p == '.' && !hasDot {
          hasDot := true;
          var _ := Advance();
          continue;
        }
        break;
      }
    }

    /** The `switch`: the two-character cases build their token between
        the two advances, the single-character cases before advancing. */
    method ScanPunct() returns (t: Token)
      requires Valid() && pos < |source|
      modifies this
      ensures Valid()
      ensures var c := old(source[pos]); var r := Punct(c, Peek(source, old(pos) + 1));
        pos == old(pos) + |r.1| && t == TokenAt(source, r.0, r.1, old(pos) + MarkOffset(c), movedFirst)
    {
      var c := PeekChar();
      if c == '&' || c == '=' || c == '<' || c == '-' {
        var _ := Advance();
        var d := PeekChar();
        var r := Punct(c, d);
        t := MakeToken(r.0, r.1);
        if |r.1| == 2 {
          var _ := Advance();
        }
        return;
      }
      var r := Punct(c, PeekNext());
      t := MakeToken(r.0, r.1);
      var _ := Advance();
    }

    /** An identifier or keyword. */
    method ScanWord() returns (t: Token)
      requires Valid()
      modifies this
      ensures Valid()
      ensures var e := WordEnd(source, old(pos)); var id := source[old(pos)..e];
        pos == e && t == TokenAt(source, GetKindFromSpelling(id).GetOr(Identifier), id, e, movedFirst)
    {
      var start := pos;
      SkipWord();
      var id := source[start..pos];
      var kw := GetKindFromSpelling(id);
      if kw.Some? {
        return MakeToken(kw.value, id);
      } else {
        return MakeToken(Identifier, id);
      }
    }

    /** A number literal. */
    method ScanNumber() returns (t: Token)
      requires Valid()
      modifies this
      ensures Valid()
      ensures var r := NumberEnd(source, old(pos), false);
        pos == r.0 && t == TokenAt(source, if r.1 then LitFloat else LitInteger, source[old(pos)..r.0], r.0, movedFirst)
    {
      var start := pos;
      var hasDot := SkipNumber();
      var num := source[start..pos];
      var kind := if hasDot then LitFloat else LitInteger;
      return MakeToken(kind, num);
    }

    /** A string literal from its opening quote. */
    method ScanString() returns (t: Token)
      requires Valid() && pos < |source|
      modifies this
      ensures Valid()
      ensures var e := Until(source, old(pos) + 1, '"');
        pos == (if Peek(source, e) == '"' then e + 1 else e) &&
        t == TokenAt(source, LitString, source[old(pos) + 1..e], pos, movedFirst)
    {
      var _ := Advance();
      var start := pos;
      SkipUntil('"');
      var str := source[start..pos];
      if PeekChar() == '"' {
        var _ := Advance();
      }
      return MakeToken(LitString, str);
    }

    /** One pass of the loop body, from a non-space character. */
    method ScanToken() returns (tok: Option<Token>)
      requires Valid() && pos < |source| && !IsSpace(source[pos])
      modifies this
      ensures Valid()
      ensures var s := ScanOne(source, old(pos));
        pos == s.next && Emit(source, s, movedFirst) == if tok.Some? then [tok.value] else []
    {
      var c := PeekChar();
      if c == '/' {
        var next := PeekNext();
        if next == '!' {
          var _ := Advance();
          var _ := Advance();
          SkipBlockComment();
          return None;
        } else if next == '*' {
          var _ := Advance();
          var _ := Advance();
          SkipUntil('\n');
          return None;
        }
      }
      if IsAlpha(c) || c == '_' {
        var t := ScanWord();
        return Some(t);
      }
      if IsDigit(c) || (c == '.' && IsDigit(PeekNext())) {
        var t := ScanNumber();
        return Some(t);
      }
      if c == '"' {
        var t := ScanString();
        return Some(t);
      }
      var t := ScanPunct();
      return Some(t);
    }

    /** `tokenize`: the token list from the cursor on, ending in `eof`. */
    method Tokenize() returns (tokens: seq<Token>)
      requires Valid()
      modifies this
      ensures Valid() && pos == |source|
      ensures tokens == LexFrom(source, old(pos), movedFirst)
    {
      tokens := [];
      ghost var all := LexFrom(source, pos, movedFirst);
      while pos < |source|
        invariant Valid() && old(pos) <= pos
        invariant all == tokens + LexFrom(source, pos, movedFirst)
        decreases |source| - pos
      {
        ghost var before := pos;
        ghost var prefix := tokens;
        ghost var rest := LexFrom(source, before, movedFirst);
        SkipWhitespace();
        if pos >= |source| {
          LexFromEnd(source, before, movedFirst);
          break;
        }
        LexFromStep(source, before, movedFirst);
        var tok := ScanToken();
        ghost var emitted := if tok.Some? then [tok.value] else [];
        assert rest == emitted + LexFrom(source, pos, movedFirst);
        if tok.Some? {
          tokens := tokens + [tok.value];
        }
        assert tokens == prefix + emitted;
        AppendAssoc(prefix, emitted, LexFrom(source, pos, movedFirst));
      }
      LexFromEnd(source, pos, movedFirst);
      tokens := tokens + [MakeToken(Eof, "<EOF>")];
    }
  }
}
