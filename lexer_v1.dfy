/** The V1 lexer (NexusCompilerV1/src/Tokenizing): maximal munch over the
    49-kind vocabulary, `/!…!/` block comments and slash-star line comments. */
module LexerV1 {
  import opened Wrappers
  import opened CType
  import opened Scanning
  import opened TokenKinds
  import opened SeqFacts

  /** What one scan from a non-space position yields: an optional token
      (kind and lexeme) and the position after it. */
  datatype Scan = Scan(tok: Option<(TokenKind, string)>, next: nat)

  /** The number loop: digits, and one '.' only while no '.' was taken and a
      digit follows it. Returns the end and whether a '.' was taken. */
  function NumberEnd(src: string, p: nat, hasDot: bool): (r: (nat, bool))
    requires p <= |src|
    ensures p <= r.0 <= |src|
    ensures hasDot ==> r.1
    ensures !IsDigit(Peek(src, r.0))
    ensures !(Peek(src, r.0) == '.' && !r.1 && IsDigit(Peek(src, r.0 + 1)))
    decreases |src| - p
  {
    if IsDigit(Peek(src, p)) then NumberEnd(src, p + 1, hasDot)
    else if Peek(src, p) == '.' && !hasDot && IsDigit(Peek(src, p + 1)) then NumberEnd(src, p + 1, true)
    else (p, hasDot)
  }

  /** No '.' in `src[a..b]`. */
  predicate NoDot(src: string, a: nat, b: nat)
    requires a <= b <= |src|
  {
    forall i :: a <= i < b ==> src[i] != '.'
  }

  /** At most one '.' in `src[a..b]`. */
  predicate AtMostOneDot(src: string, a: nat, b: nat)
    requires a <= b <= |src|
  {
    forall i :: a <= i < b && src[i] == '.' ==> NoDot(src, i + 1, b)
  }

  /** Each character of `src[a..b]` is a digit, or a '.' with a digit after it. */
  predicate NumberChars(src: string, a: nat, b: nat)
    requires a <= b <= |src|
  {
    forall i :: a <= i < b ==> IsDigit(src[i]) || (src[i] == '.' && i + 1 < b && IsDigit(src[i + 1]))
  }

  /** The lexeme of a number holds digits and '.'s that each precede a digit. */
  lemma {:induction false} NumberLexemeChars(src: string, p: nat, hasDot: bool)
    requires p <= |src|
    ensures NumberChars(src, p, NumberEnd(src, p, hasDot).0)
    decreases |src| - p
  {
    var e := NumberEnd(src, p, hasDot).0;
    if IsDigit(Peek(src, p)) {
      NumberLexemeChars(src, p + 1, hasDot);
    } else if Peek(src, p) == '.' && !hasDot && IsDigit(Peek(src, p + 1)) {
      NumberLexemeChars(src, p + 1, true);
      assert e > p + 1;
    }
  }

  /** A number takes at most one '.', none after one was already taken, and
      reports a '.' exactly when its lexeme holds one. */
  lemma {:induction false} NumberLexemeDots(src: string, p: nat, hasDot: bool)
    requires p <= |src|
    ensures var r := NumberEnd(src, p, hasDot);
      AtMostOneDot(src, p, r.0) && (hasDot ==> NoDot(src, p, r.0)) && (r.1 <==> hasDot || !NoDot(src, p, r.0))
    decreases |src| - p
  {
    if IsDigit(Peek(src, p)) {
      NumberLexemeDots(src, p + 1, hasDot);
    } else if Peek(src, p) == '.' && !hasDot && IsDigit(Peek(src, p + 1)) {
      NumberLexemeDots(src, p + 1, true);
    }
  }

  /** The operator and delimiter branches: the token for character `c`
      followed by `d`. Two-character operators are tried before their
      one-character prefixes. */
  function Punct(c: char, d: char): (r: (TokenKind, string))
    ensures 1 <= |r.1| <= 2 && r.1[0] == c
    ensures |r.1| == 2 ==> r.1[1] == d && d != '\0'
  {
    match c
    case '(' => (DelimLparen, "(")
    case ')' => (DelimRparen, ")")
    case '{' => (DelimLbrace, "{")
    case '}' => (DelimRbrace, "}")
    case ';' => (DelimSemicolon, ";")
    case ',' => (DelimComma, ",")
    case ':' => (DelimColon, ":")
    case '.' => (OpDot, ".")
    case '*' => (OpMult, "*")
    case '/' => (OpDiv, "/")
    case '%' => (OpMod, "%")
    case '&' => if d == '=' then (OpAndEqual, "&=") else (Unknown, "&")
    case '=' => if d == '>' then (DelimArrow, "=>") else if d == '=' then (OpEq, "==") else (OpAssign, "=")
    case '<' => if d == '-' then (OpMove, "<-") else if d == '=' then (OpLe, "<=") else (OpLt, "<")
    case '>' => if d == '=' then (OpGe, ">=") else (OpGt, ">")
    case '-' => if d == '>' then (OpArrow, "->") else (OpMinus, "-")
    case '+' => if d == '+' then (OpPlus, "++") else (OpPlus, "+")
    case '!' => if d == '=' then (OpNeq, "!=") else (Unknown, "!")
    case _ => (Unknown, [c])
  }

  /** One pass of the `tokenize` loop body from a non-space position `q`. */
  function ScanOne(src: string, q: nat): (s: Scan)
    requires q < |src|
    ensures q < s.next <= |src|
  {
    var c := src[q];
    var d := Peek(src, q + 1);
    if c == '/' && d == '!' then Scan(None, BlockCommentEnd(src, q + 2))
    else if c == '/' && d == '*' then Scan(None, Until(src, q + 2, '\n'))
    else if c == '/' && d == '/' then Scan(Some((OpIntDiv, "//")), q + 2)
    else if IsAlpha(c) || c == '_' then
      var e := WordEnd(src, q);
      var id := src[q..e];
      Scan(Some((GetKindFromSpelling(id).GetOr(Identifier), id)), e)
    else if IsDigit(c) || (c == '.' && IsDigit(d)) then
      var r := NumberEnd(src, q, false);
      Scan(Some((if r.1 then LitFloat else LitInteger, src[q..r.0])), r.0)
    else if c == '"' then
      var e := Until(src, q + 1, '"');
      Scan(Some((LitString, src[q + 1..e])), if Peek(src, e) == '"' then e + 1 else e)
    else
      var r := Punct(c, d);
      Scan(Some(r), q + |r.1|)
  }

  /** `makeToken`: the token carries the cursor position after its lexeme. */
  function TokenAt(src: string, kind: TokenKind, lexeme: string, p: nat): Token
    requires p <= |src|
  {
    Token(kind, lexeme, LineCol(src, p).0, LineCol(src, p).1)
  }

  /** The tokens `tokenize` pushes from position `p` on, `eof` included. */
  function LexFrom(src: string, p: nat): (ts: seq<Token>)
    requires p <= |src|
    decreases |src| - p
  {
    var q := SkipSpaces(src, p);
    if q == |src| then [TokenAt(src, Eof, "<EOF>", q)]
    else
      var s := ScanOne(src, q);
      Emit(src, s) + LexFrom(src, s.next)
  }

  /** The tokens one scan contributes: none for a comment. */
  function Emit(src: string, s: Scan): seq<Token>
    requires s.next <= |src|
  {
    if s.tok.Some? then [TokenAt(src, s.tok.value.0, s.tok.value.1, s.next)] else []
  }

  lemma LexFromStep(src: string, p: nat)
    requires p <= |src| && SkipSpaces(src, p) < |src|
    ensures var s := ScanOne(src, SkipSpaces(src, p));
      LexFrom(src, p) == Emit(src, s) + LexFrom(src, s.next)
  {
  }

  lemma LexFromEnd(src: string, p: nat)
    requires p <= |src| && SkipSpaces(src, p) == |src|
    ensures LexFrom(src, p) == [TokenAt(src, Eof, "<EOF>", |src|)]
  {
  }

  /** `Lexer(src).tokenize()`. */
  function Lex(src: string): seq<Token> {
    LexFrom(src, 0)
  }

  /** No scan yields `eof`: neither the keyword lookup nor the operator
      branches produce it. */
  lemma ScanNeverEof(src: string, q: nat)
    requires q < |src|
    ensures ScanOne(src, q).tok.Some? ==> ScanOne(src, q).tok.value.0 != Eof
  {
  }

  /** `tokenize` ends with exactly one `eof` token, placed at the end of the
      text, and no other token is `eof`. */
  lemma {:induction false} LexFromEndsWithEof(src: string, p: nat)
    requires p <= |src|
    ensures var ts := LexFrom(src, p);
      |ts| >= 1 && ts[|ts| - 1] == TokenAt(src, Eof, "<EOF>", |src|) &&
      forall i :: 0 <= i < |ts| - 1 ==> ts[i].kind != Eof
    decreases |src| - p
  {
    var q := SkipSpaces(src, p);
    if q < |src| {
      var s := ScanOne(src, q);
      ScanNeverEof(src, q);
      LexFromEndsWithEof(src, s.next);
      assert LexFrom(src, p) == Emit(src, s) + LexFrom(src, s.next);
    }
  }

  lemma LexEndsWithEof(src: string)
    ensures var ts := Lex(src);
      |ts| >= 1 && ts[|ts| - 1].kind == Eof && ts[|ts| - 1].lexeme == "<EOF>" &&
      (ts[|ts| - 1].line, ts[|ts| - 1].column) == LineCol(src, |src|) &&
      forall i :: 0 <= i < |ts| - 1 ==> ts[i].kind != Eof
  {
    LexFromEndsWithEof(src, 0);
  }

  /** Text of only whitespace lexes to the lone `eof` token. */
  lemma BlankTextIsEof(src: string)
    requires forall i :: 0 <= i < |src| ==> IsSpace(src[i])
    ensures Lex(src) == [TokenAt(src, Eof, "<EOF>", |src|)]
  {
  }

  /** An identifier is a maximal `[A-Za-z0-9_]` run from a letter or '_';
      it takes the keyword kind when its spelling is listed, else `identifier`. */
  lemma WordToken(src: string, q: nat)
    requires q < |src| && (IsAlpha(src[q]) || src[q] == '_')
    ensures var s := ScanOne(src, q);
      s.tok.Some? && s.tok.value.1 == src[q..s.next] &&
      (forall i :: q <= i < s.next ==> IsWordChar(src[i])) && !IsWordChar(Peek(src, s.next)) &&
      (s.tok.value.1 in KeywordSpellings ==> s.tok.value.0 == KeywordSpellings[s.tok.value.1]) &&
      (s.tok.value.1 !in KeywordSpellings ==> s.tok.value.0 == Identifier)
  {
  }

  /** A number is digits with at most one '.', taken only before a digit; it
      is a float exactly when it holds a '.', and stops where no digit and no
      such '.' follows. */
  lemma NumberToken(src: string, q: nat)
    requires q < |src| && (IsDigit(src[q]) || (src[q] == '.' && IsDigit(Peek(src, q + 1))))
    ensures var s := ScanOne(src, q);
      s.tok.Some? && s.tok.value.1 == src[q..s.next] &&
      NumberChars(src, q, s.next) && AtMostOneDot(src, q, s.next) &&
      (s.tok.value.0 == LitFloat <==> !NoDot(src, q, s.next)) &&
      (s.tok.value.0 == LitInteger <==> NoDot(src, q, s.next)) &&
      !IsDigit(Peek(src, s.next)) &&
      !(Peek(src, s.next) == '.' && NoDot(src, q, s.next) && IsDigit(Peek(src, s.next + 1)))
  {
    NumberLexemeChars(src, q, false);
    NumberLexemeDots(src, q, false);
  }

  /** A string lexeme is the raw text between the quotes; an unterminated
      string runs to the end of the text (or to an embedded '\0'). */
  lemma StringToken(src: string, q: nat)
    requires q < |src| && src[q] == '"'
    ensures var s := ScanOne(src, q);
      s.tok.Some? && s.tok.value.0 == LitString &&
      var e := q + 1 + |s.tok.value.1|;
      e <= |src| && s.tok.value.1 == src[q + 1..e] &&
      (forall i :: q < i < e ==> src[i] != '"' && src[i] != '\0') &&
      (if e < |src| && src[e] == '"' then s.next == e + 1 else s.next == e && Peek(src, e) == '\0')
  {
  }

  /** The two-character operators and their kinds. */
  const TwoCharOps: map<string, TokenKind> := map[
    "//" := OpIntDiv, "&=" := OpAndEqual, "=>" := DelimArrow, "==" := OpEq, "<-" := OpMove,
    "<=" := OpLe, ">=" := OpGe, "->" := OpArrow, "!=" := OpNeq, "++" := OpPlus]

  /** Maximal munch: a two-character operator is always one token, never its
      one-character prefix followed by the rest. */
  lemma MaximalMunch(src: string, q: nat)
    requires q + 1 < |src| && src[q..q + 2] in TwoCharOps
    ensures ScanOne(src, q) == Scan(Some((TwoCharOps[src[q..q + 2]], src[q..q + 2])), q + 2)
  {
    var c, d := src[q], src[q + 1];
    assert src[q..q + 2] == [c, d];
  }

  /** A lone '&' or '!', and any character no branch recognises, is an
      `unknown` token carrying that one character. */
  lemma UnknownCharacter(src: string, q: nat)
    requires q < |src|
    requires var c, d := src[q], Peek(src, q + 1);
      (c == '&' && d != '=') || (c == '!' && d != '=') ||
      (!IsSpace(c) && !IsAlnum(c) && c !in "_\"(){};,:.*/%&=<>-+!")
    ensures ScanOne(src, q) == Scan(Some((Unknown, [src[q]])), q + 1)
  {
  }

  /** `/!` comments (through the first `!/`, or to the end) and slash-star
      comments (up to, not including, the next newline) yield no token. */
  lemma CommentsYieldNoToken(src: string, q: nat)
    requires q + 1 < |src| && src[q] == '/' && (src[q + 1] == '!' || src[q + 1] == '*')
    ensures ScanOne(src, q).tok.None?
    ensures src[q + 1] == '!' ==> ScanOne(src, q).next == BlockCommentEnd(src, q + 2)
    ensures src[q + 1] == '*' ==> var e := ScanOne(src, q).next;
      (forall i :: q + 2 <= i < e ==> src[i] != '\n') && (e == |src| || src[e] == '\n' || src[e] == '\0')
  {
  }

  class Lexer {
    const source: string
    var pos: nat
    var line: nat
    var col: nat

    /** The cursor is within the text and its line and column are those
        reached by consuming the text before it. */
    ghost predicate Valid()
      reads this
    {
      pos <= |source| && (line, col) == LineCol(source, pos)
    }

    constructor(src: string)
      ensures source == src && pos == 0 && Valid()
    {
      source := src;
      pos := 0;
      line := 1;
      col := 1;
    }

    function PeekChar(): char
      reads this
    {
      Peek(source, pos)
    }

    function PeekNext(): char
      reads this
    {
      Peek(source, pos + 1)
    }

    /** `advance`: consume one character, never moving past the end. */
    method Advance() returns (c: char)
      requires Valid()
      modifies this
      ensures Valid()
      ensures c == Peek(source, old(pos))
      ensures pos == if old(pos) < |source| then old(pos) + 1 else old(pos)
      ensures c == '\n' ==> line == old(line) + 1 && col == 1
      ensures old(pos) < |source| && c != '\n' ==> line == old(line) && col == old(col) + 1
    {
      if pos >= |source| {
        return '\0';
      }
      c := source[pos];
      pos := pos + 1;
      if c == '\n' {
        line := line + 1;
        col := 1;
      } else {
        col := col + 1;
      }
    }

    function MakeToken(kind: TokenKind, lexeme: string): (t: Token)
      reads this
      requires Valid()
      ensures t == TokenAt(source, kind, lexeme, pos)
    {
      Token(kind, lexeme, line, col)
    }

    method SkipWhitespace()
      requires Valid()
      modifies this
      ensures Valid() && pos == SkipSpaces(source, old(pos))
    {
      while IsSpace(PeekChar())
        invariant Valid() && old(pos) <= pos
        invariant SkipSpaces(source, old(pos)) == SkipSpaces(source, pos)
        decreases |source| - pos
      {
        var _ := Advance();
      }
    }

    /** The body loop of a `/!` comment. */
    method SkipBlockComment()
      requires Valid()
      modifies this
      ensures Valid() && pos == BlockCommentEnd(source, old(pos))
    {
      while PeekChar() != '\0'
        invariant Valid() && old(pos) <= pos
        invariant BlockCommentEnd(source, old(pos)) == BlockCommentEnd(source, pos)
        decreases |source| - pos
      {
        if PeekChar() == '!' && PeekNext() == '/' {
          var _ := Advance();
          var _ := Advance();
          return;
        }
        var _ := Advance();
      }
    }

    /** Advance until `stop` or '\0' is under the cursor. */
    method SkipUntil(stop: char)
      requires Valid()
      modifies this
      ensures Valid() && pos == Until(source, old(pos), stop)
    {
      while PeekChar() != stop && PeekChar() != '\0'
        invariant Valid() && old(pos) <= pos
        invariant Until(source, old(pos), stop) == Until(source, pos, stop)
        decreases |source| - pos
      {
        var _ := Advance();
      }
    }

    method SkipWord()
      requires Valid()
      modifies this
      ensures Valid() && pos == WordEnd(source, old(pos))
    {
      while IsAlnum(PeekChar()) || PeekChar() == '_'
        invariant Valid() && old(pos) <= pos
        invariant WordEnd(source, old(pos)) == WordEnd(source, pos)
        decreases |source| - pos
      {
        var _ := Advance();
      }
    }

    method SkipNumber() returns (hasDot: bool)
      requires Valid()
      modifies this
      ensures Valid() && (pos, hasDot) == NumberEnd(source, old(pos), false)
    {
      hasDot := false;
      while true
        invariant Valid() && old(pos) <= pos
        invariant NumberEnd(source, old(pos), false) == NumberEnd(source, pos, hasDot)
        decreases |source| - pos
      {
        var p := PeekChar();
        if IsDigit(p) {
          var _ := Advance();
          continue;
        }
        if p == '.' && !hasDot && IsDigit(PeekNext()) {
          hasDot := true;
          var _ := Advance();
          continue;
        }
        break;
      }
    }

    /** The operator and delimiter branches, tried in the source's order. */
    method ScanPunct() returns (t: Token)
      requires Valid() && pos < |source|
      modifies this
      ensures Valid()
      ensures var r := Punct(old(source[pos]), Peek(source, old(pos) + 1));
        pos == old(pos) + |r.1| && t == TokenAt(source, r.0, r.1, pos)
    {
      var c := Advance();
      if c == '(' { return MakeToken(DelimLparen, "("); }
      if c == ')' { return MakeToken(DelimRparen, ")"); }
      if c == '{' { return MakeToken(DelimLbrace, "{"); }
      if c == '}' { return MakeToken(DelimRbrace, "}"); }
      if c == ';' { return MakeToken(DelimSemicolon, ";"); }
      if c == ',' { return MakeToken(DelimComma, ","); }
      if c == ':' { return MakeToken(DelimColon, ":"); }
      if c == '.' { return MakeToken(OpDot, "."); }
      if c == '*' { return MakeToken(OpMult, "*"); }
      if c == '/' { return MakeToken(OpDiv, "/"); }
      if c == '%' { return MakeToken(OpMod, "%"); }
      var d := PeekChar();
      if c == '&' {
        if d == '=' { var _ := Advance(); return MakeToken(OpAndEqual, "&="); }
        return MakeToken(Unknown, "&");
      }
      if c == '=' {
        if d == '>' { var _ := Advance(); return MakeToken(DelimArrow, "=>"); }
        if d == '=' { var _ := Advance(); return MakeToken(OpEq, "=="); }
        return MakeToken(OpAssign, "=");
      }
      if c == '<' {
        if d == '-' { var _ := Advance(); return MakeToken(OpMove, "<-"); }
        if d == '=' { var _ := Advance(); return MakeToken(OpLe, "<="); }
        return MakeToken(OpLt, "<");
      }
      if c == '>' {
        if d == '=' { var _ := Advance(); return MakeToken(OpGe, ">="); }
        return MakeToken(OpGt, ">");
      }
      if c == '-' {
        if d == '>' { var _ := Advance(); return MakeToken(OpArrow, "->"); }
        return MakeToken(OpMinus, "-");
      }
      if c == '+' {
        if d == '+' { var _ := Advance(); return MakeToken(OpPlus, "++"); }
        return MakeToken(OpPlus, "+");
      }
      if c == '!' {
        if d == '=' { var _ := Advance(); return MakeToken(OpNeq, "!="); }
        return MakeToken(Unknown, "!");
      }
      return MakeToken(Unknown, [c]);
    }

    /** An identifier or keyword. */
    method ScanWord() returns (t: Token)
      requires Valid()
      modifies this
      ensures Valid()
      ensures var e := WordEnd(source, old(pos)); var id := source[old(pos)..e];
        pos == e && t == TokenAt(source, GetKindFromSpelling(id).GetOr(Identifier), id, e)
    {
      var start := pos;
      SkipWord();
      var id := source[start..pos];
      var kw := GetKindFromSpelling(id);
      if kw.Some? {
        return MakeToken(kw.value, id);
      } else {
        return MakeToken(Identifier, id);
      }
    }

    /** A number literal. */
    method ScanNumber() returns (t: Token)
      requires Valid()
      modifies this
      ensures Valid()
      ensures var r := NumberEnd(source, old(pos), false);
        pos == r.0 && t == TokenAt(source, if r.1 then LitFloat else LitInteger, source[old(pos)..r.0], r.0)
    {
      var start := pos;
      var hasDot := SkipNumber();
      var num := source[start..pos];
      var kind := if hasDot then LitFloat else LitInteger;
      return MakeToken(kind, num);
    }

    /** A string literal from its opening quote. */
    method ScanString() returns (t: Token)
      requires Valid() && pos < |source|
      modifies this
      ensures Valid()
      ensures var e := Until(source, old(pos) + 1, '"');
        pos == (if Peek(source, e) == '"' then e + 1 else e) &&
        t == TokenAt(source, LitString, source[old(pos) + 1..e], pos)
    {
      var _ := Advance();
      var start := pos;
      SkipUntil('"');
      var str := source[start..pos];
      if PeekChar() == '"' {
        var _ := Advance();
      }
      return MakeToken(LitString, str);
    }

    /** One pass of the loop body, from a non-space character. */
    method ScanToken() returns (tok: Option<Token>)
      requires Valid() && pos < |source| && !IsSpace(source[pos])
      modifies this
      ensures Valid()
      ensures var s := ScanOne(source, old(pos));
        pos == s.next && Emit(source, s) == if tok.Some? then [tok.value] else []
    {
      var start := pos;
      var c := PeekChar();
      if c == '/' {
        var next := PeekNext();
        if next == '!' {
          var _ := Advance();
          var _ := Advance();
          SkipBlockComment();
          return None;
        } else if next == '*' {
          var _ := Advance();
          var _ := Advance();
          SkipUntil('\n');
          return None;
        } else if next == '/' {
          var _ := Advance();
          var _ := Advance();
          return Some(MakeToken(OpIntDiv, "//"));
        }
      }
      if IsAlpha(c) || c == '_' {
        var t := ScanWord();
        return Some(t);
      }
      if IsDigit(c) || (c == '.' && IsDigit(PeekNext())) {
        var t := ScanNumber();
        return Some(t);
      }
      if c == '"' {
        var t := ScanString();
        return Some(t);
      }
      var t := ScanPunct();
      return Some(t);
    }

    /** `tokenize`: the token list from the cursor on, ending in `eof`. */
    method Tokenize() returns (tokens: seq<Token>)
      requires Valid()
      modifies this
      ensures Valid() && pos == |source|
      ensures tokens == LexFrom(source, old(pos))
    {
      tokens := [];
      ghost var all := LexFrom(source, pos);
      while pos < |source|
        invariant Valid() && old(pos) <= pos
        invariant all == tokens + LexFrom(source, pos)
        decreases |source| - pos
      {
        ghost var before := pos;
        ghost var prefix := tokens;
        ghost var rest := LexFrom(source, before);
        SkipWhitespace();
        if pos >= |source| {
          LexFromEnd(source, before);
          break;
        }
        LexFromStep(source, before);
        var tok := ScanToken();
        ghost var emitted := if tok.Some? then [tok.value] else [];
        assert rest == emitted + LexFrom(source, pos);
        if tok.Some? {
          tokens := tokens + [tok.value];
        }
        assert tokens == prefix + emitted;
        AppendAssoc(prefix, emitted, LexFrom(source, pos));
      }
      LexFromEnd(source, pos);
      tokens := tokens + [MakeToken(Eof, "<EOF>")];
    }
  }
}
