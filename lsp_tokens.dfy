/** The semantic-token scanner of the Nexus language server, LSP/server.js:
    the character classes it tests, the lexeme that starts at each offset,
    the line and column of an offset, and the relative five-integer
    encoding of section "Semantic Tokens" of the Language Server Protocol
    3.16 specification. */
module SemanticTokens {
  import opened Wrappers
  import opened CType

  // Indices into the legend the server announces.
  const KeywordType: nat := 0
  const TypeType: nat := 1
  const FunctionType: nat := 2
  const VariableType: nat := 3
  const NumberType: nat := 4
  const StringType: nat := 5
  const CommentType: nat := 6
  const OperatorType: nat := 7
  const PunctuationType: nat := 8

  const Keywords: seq<string> := [
    "sum", "class", "implement", "global", "Constructor", "Factory",
    "if", "else", "for", "while", "return", "match", "new",
    "self", "Sequential", "true", "false", "public", "private", "protected", "+", "-", "#"
  ]

  const Types: seq<string> := [
    "i32", "i64", "i16", "i8", "i4",
    "u32", "u64", "u16", "u8",
    "f32", "f64", "bool", "string", "void", "char"
  ]

  const BuiltinFunctions: seq<string> := ["printf", "warnf", "Math.Random"]

  // ------------------------------------------------------ character classes

  /** JavaScript's `\s`: the ASCII white space characters and the Unicode
      space separators, line and paragraph separators and the byte order
      mark. */
  predicate IsJsSpace(c: char) {
    c == '\t' || c == '\n' || c == '\U{000B}' || c == '\U{000C}' || c == '\r' || c == ' ' ||
    c == '\U{00A0}' || c == '\U{1680}' || ('\U{2000}' <= c <= '\U{200A}') ||
    c == '\U{2028}' || c == '\U{2029}' || c == '\U{202F}' || c == '\U{205F}' ||
    c == '\U{3000}' || c == '\U{FEFF}'
  }

  /** `[0-9.eE+-]`: what a number runs over. */
  predicate IsNumberChar(c: char) {
    IsDigit(c) || c == '.' || c == 'e' || c == 'E' || c == '+' || c == '-'
  }

  /** `[a-zA-Z_]`: what a word starts with. */
  predicate IsWordStart(c: char) {
    IsAlpha(c) || c == '_'
  }

  /** `[a-zA-Z0-9_.]`: what a word runs over. */
  predicate IsWordBody(c: char) {
    IsWordChar(c) || c == '.'
  }

  predicate IsOperator(c: char) {
    c in "+-*/%=<>!&|"
  }

  predicate IsPunctuation(c: char) {
    c in "(){}[],.;:"
  }

  /** The legend index of a word: a keyword, then a listed or capitalised
      type, then a built-in function, else a variable. */
  function WordKind(word: string): (kind: nat)
    ensures kind <= VariableType
  {
    if word in Keywords then KeywordType
    else if word in Types || (|word| > 0 && 'A' <= word[0] <= 'Z') then TypeType
    else if word in BuiltinFunctions then FunctionType
    else VariableType
  }

  /** The capitalisation test comes before the built-in list, so only the
      two lower-case built-ins are ever highlighted as functions. */
  lemma FunctionWords(word: string)
    ensures WordKind(word) == FunctionType <==> word == "printf" || word == "warnf"
  {
  }

  /** `Math.Random`, listed as a built-in, is highlighted as a type. */
  lemma MathRandomIsType()
    ensures "Math.Random" in BuiltinFunctions && WordKind("Math.Random") == TypeType
  {
  }

  /** A keyword is highlighted as one whatever its case, and a capitalised
      word that is no keyword is a type. */
  lemma CapitalisedWords(word: string)
    requires |word| > 0 && 'A' <= word[0] <= 'Z'
    ensures WordKind(word) == KeywordType <==> word in ["Constructor", "Factory", "Sequential"]
    ensures WordKind(word) != KeywordType ==> WordKind(word) == TypeType
  {
  }

  // ---------------------------------------------------------------- lexemes

  /** `text.startsWith(pat, k)`. */
  predicate At(text: string, k: nat, pat: string) {
    k + |pat| <= |text| && text[k..k + |pat|] == pat
  }

  /** `text.indexOf(pat, from)`: the first occurrence at or after `from`,
      or -1. */
  function IndexOf(text: string, pat: string, from: nat): (r: int)
    requires |pat| > 0
    ensures r == -1 || (from <= r && At(text, r, pat))
    ensures forall k :: from <= k && (r == -1 || k < r) ==> !At(text, k, pat)
    decreases |text| - from
  {
    if from + |pat| > |text| then -1
    else if At(text, from, pat) then from
    else IndexOf(text, pat, from + 1)
  }

  /** The string loop from `end`: it stops at the end of the text or at a
      quote whose predecessor is no backslash. */
  function StringEnd(text: string, end: nat): (r: nat)
    requires 1 <= end <= |text|
    ensures end <= r <= |text|
    ensures r < |text| ==> text[r] == '"' && text[r - 1] != '\\'
    ensures forall k :: end <= k < r ==> text[k] != '"' || text[k - 1] == '\\'
    decreases |text| - end
  {
    if end < |text| && (text[end] != '"' || text[end - 1] == '\\') then StringEnd(text, end + 1)
    else end
  }

  /** The number loop from `i`: the longest run of `[0-9.eE+-]`. */
  function NumberEnd(text: string, i: nat): (r: nat)
    requires i <= |text|
    ensures i <= r <= |text|
    ensures forall k :: i <= k < r ==> IsNumberChar(text[k])
    ensures r < |text| ==> !IsNumberChar(text[r])
    decreases |text| - i
  {
    if i < |text| && IsNumberChar(text[i]) then NumberEnd(text, i + 1) else i
  }

  /** The word loop from `i`: the longest run of `[a-zA-Z0-9_.]`. */
  function WordEnd(text: string, i: nat): (r: nat)
    requires i <= |text|
    ensures i <= r <= |text|
    ensures forall k :: i <= k < r ==> IsWordBody(text[k])
    ensures r < |text| ==> !IsWordBody(text[r])
    decreases |text| - i
  {
    if i < |text| && IsWordBody(text[i]) then WordEnd(text, i + 1) else i
  }

  /** One turn of the scan loop at `pos`: where it continues, and the
      legend index of the token it pushes, if any. */
  datatype Lexeme = Lexeme(end: nat, kind: Option<nat>)

  function Scan(text: string, pos: nat): (l: Lexeme)
    requires pos < |text|
    ensures pos < l.end <= |text|
  {
    var c := text[pos];
    if c == '\n' then Lexeme(pos + 1, None)
    else if IsJsSpace(c) then Lexeme(pos + 1, None)
    else if At(text, pos, "/*") then
      var nl := IndexOf(text, "\n", pos);
      assert nl != -1 ==> text[nl] == '\n' by {
        if nl != -1 {
          assert text[nl..nl + 1][0] == '\n';
        }
      }
      Lexeme(if nl == -1 then |text| else nl, Some(CommentType))
    else if At(text, pos, "/!") then
      var close := IndexOf(text, "!/", pos + 2);
      Lexeme(if close == -1 then |text| else close + 2, Some(CommentType))
    else if c == '"' then
      var e := StringEnd(text, pos + 1);
      Lexeme(if e < |text| then e + 1 else e, Some(StringType))
    else if IsDigit(c) then Lexeme(NumberEnd(text, pos), Some(NumberType))
    else if IsWordStart(c) then
      var e := WordEnd(text, pos);
      Lexeme(e, Some(WordKind(text[pos..e])))
    else if IsOperator(c) then Lexeme(pos + 1, Some(OperatorType))
    else if IsPunctuation(c) then Lexeme(pos + 1, Some(PunctuationType))
    else Lexeme(pos + 1, None)
  }

  /** A token as offsets: where it starts, how long it is, its legend
      index. */
  datatype Span = Span(start: nat, length: nat, kind: nat)

  /** The tokens the scan pushes from `pos` on, in order; each is inside the
      text, non-empty, and ends before the next one starts. */
  function Spans(text: string, pos: nat): (r: seq<Span>)
    requires pos <= |text|
    ensures forall k :: 0 <= k < |r| ==> pos <= r[k].start && 0 < r[k].length && r[k].start + r[k].length <= |text|
    ensures forall k :: 0 <= k < |r| ==> r[k].kind <= PunctuationType
    ensures forall i, j :: 0 <= i < j < |r| ==> r[i].start + r[i].length <= r[j].start
    decreases |text| - pos
  {
    if pos == |text| then []
    else
      var l := Scan(text, pos);
      match l.kind
      case None => Spans(text, l.end)
      case Some(kind) => [Span(pos, l.end - pos, kind)] + Spans(text, l.end)
  }

  /** What a single token holds, kind by kind. */
  predicate SpanShape(text: string, s: Span)
    requires s.start + s.length <= |text| && 0 < s.length
  {
    var end := s.start + s.length;
    s.kind <= PunctuationType &&
    (s.kind == CommentType ==>
       (At(text, s.start, "/*") && (forall k :: s.start <= k < end ==> text[k] != '\n') &&
        (end == |text| || text[end] == '\n')) ||
       (At(text, s.start, "/!") && (end == |text| || (s.start + 4 <= end && At(text, end - 2, "!/"))))) &&
    (s.kind == StringType ==> text[s.start] == '"') &&
    (s.kind == NumberType ==>
       IsDigit(text[s.start]) && (forall k :: s.start <= k < end ==> IsNumberChar(text[k])) &&
       (end == |text| || !IsNumberChar(text[end]))) &&
    (s.kind <= VariableType ==>
       IsWordStart(text[s.start]) && (forall k :: s.start <= k < end ==> IsWordBody(text[k])) &&
       (end == |text| || !IsWordBody(text[end])) && s.kind == WordKind(text[s.start..end])) &&
    (s.kind == OperatorType ==> s.length == 1 && IsOperator(text[s.start])) &&
    (s.kind == PunctuationType ==> s.length == 1 && IsPunctuation(text[s.start]))
  }

  /** The token a turn of the loop pushes has the shape its kind calls for. */
  lemma ScanShape(text: string, pos: nat)
    requires pos < |text| && Scan(text, pos).kind.Some?
    ensures var l := Scan(text, pos); SpanShape(text, Span(pos, l.end - pos, l.kind.value))
  {
    var c := text[pos];
    if c != '\n' && !IsJsSpace(c) && At(text, pos, "/*") {
      var nl := IndexOf(text, "\n", pos);
      var end := if nl == -1 then |text| else nl;
      forall k | pos <= k < end
        ensures text[k] != '\n'
      {
        assert !At(text, k, "\n");
        assert text[k..k + 1] == [text[k]];
      }
      if nl != -1 {
        assert text[nl..nl + 1][0] == '\n';
      }
    }
  }

  /** Every token of the scan has the shape its kind calls for. */
  lemma {:induction false} SpansShape(text: string, pos: nat)
    requires pos <= |text|
    ensures var r := Spans(text, pos); forall k :: 0 <= k < |r| ==> SpanShape(text, r[k])
    decreases |text| - pos
  {
    if pos < |text| {
      var l := Scan(text, pos);
      SpansShape(text, l.end);
      if l.kind.Some? {
        ScanShape(text, pos);
        var r := Spans(text, pos);
        assert r == [Span(pos, l.end - pos, l.kind.value)] + Spans(text, l.end);
        forall k | 0 <= k < |r|
          ensures SpanShape(text, r[k])
        {
          if k > 0 {
            assert r[k] == Spans(text, l.end)[k - 1];
          }
        }
      }
    }
  }

  /** `1-2` is one number token: the number loop takes `+` and `-` with the
      digits. */
  lemma NumberTakesSigns()
    ensures Spans("1-2", 0) == [Span(0, 3, NumberType)]
  {
    assert NumberEnd("1-2", 3) == 3;
    assert NumberEnd("1-2", 2) == 3;
    assert NumberEnd("1-2", 1) == 3;
    assert NumberEnd("1-2", 0) == 3;
  }

  /** The search for the end of a `/!` comment starts after the opener, so
      `/!/` opens a comment that runs to the end of the text. */
  lemma BangCommentNeedsItsOwnCloser()
    ensures Spans("/!/ x", 0) == [Span(0, 5, CommentType)]
  {
    assert |"/!/ x"| == 5;
    assert IndexOf("/!/ x", "!/", 4) == -1;
    assert "/!/ x"[3..5][0] == ' ';
    assert IndexOf("/!/ x", "!/", 3) == -1;
    assert "/!/ x"[2..4][0] == '/';
    assert IndexOf("/!/ x", "!/", 2) == -1;
  }

  // -------------------------------------------------------------- positions

  /** A zero-based line and column. */
  datatype Pos = Pos(line: nat, col: nat)

  /** A line feed starts the next line; any other character is one column. */
  function Next(p: Pos, c: char): Pos {
    if c == '\n' then Pos(p.line + 1, 0) else Pos(p.line, p.col + 1)
  }

  /** `getEndPosition` from `p` over the characters from `i` to `j`. */
  function Walk(text: string, i: nat, j: nat, p: Pos): Pos
    requires i <= j <= |text|
    decreases j - i
  {
    if i == j then p else Walk(text, i + 1, j, Next(p, text[i]))
  }

  /** The line and column of offset `i`. */
  function Position(text: string, i: nat): Pos
    requires i <= |text|
  {
    Walk(text, 0, i, Pos(0, 0))
  }

  /** `p` comes strictly before `q`. */
  predicate Before(p: Pos, q: Pos) {
    p.line < q.line || (p.line == q.line && p.col < q.col)
  }

  lemma {:induction false} WalkSplit(text: string, i: nat, m: nat, j: nat, p: Pos)
    requires i <= m <= j <= |text|
    ensures Walk(text, i, j, p) == Walk(text, m, j, Walk(text, i, m, p))
    decreases m - i
  {
    if i < m {
      WalkSplit(text, i + 1, m, j, Next(p, text[i]));
    }
  }

  /** Over characters that are no line feed, the walk stays on its line. */
  lemma {:induction false} WalkFlat(text: string, i: nat, j: nat, p: Pos)
    requires i <= j <= |text|
    requires forall k :: i <= k < j ==> text[k] != '\n'
    ensures Walk(text, i, j, p) == Pos(p.line, p.col + (j - i))
    decreases j - i
  {
    if i < j {
      WalkFlat(text, i + 1, j, Next(p, text[i]));
    }
  }

  /** Every character moves the walk forward. */
  lemma {:induction false} WalkAdvances(text: string, i: nat, j: nat, p: Pos)
    requires i < j <= |text|
    ensures Before(p, Walk(text, i, j, p))
    decreases j - i
  {
    if i + 1 < j {
      WalkAdvances(text, i + 1, j, Next(p, text[i]));
    }
  }

  /** The position of `j` is the walk from the position of `i`. */
  lemma PositionAfter(text: string, i: nat, j: nat)
    requires i <= j <= |text|
    ensures Position(text, j) == Walk(text, i, j, Position(text, i))
  {
    WalkSplit(text, 0, i, j, Pos(0, 0));
  }

  /** Over a run without line feeds the column grows by the run's length. */
  lemma PositionFlat(text: string, i: nat, j: nat)
    requires i <= j <= |text|
    requires forall k :: i <= k < j ==> text[k] != '\n'
    ensures Position(text, j) == Pos(Position(text, i).line, Position(text, i).col + (j - i))
  {
    PositionAfter(text, i, j);
    WalkFlat(text, i, j, Position(text, i));
  }

  /** Later offsets have later positions. */
  lemma PositionIncreasing(text: string, i: nat, j: nat)
    requires i < j <= |text|
    ensures Before(Position(text, i), Position(text, j))
  {
    PositionAfter(text, i, j);
    WalkAdvances(text, i, j, Position(text, i));
  }

  // --------------------------------------------------------------- encoding

  /** A token as the protocol sees it: absolute line and start character,
      length, legend index. */
  datatype SemToken = SemToken(line: int, col: int, length: int, kind: int)

  /** The spans with their line and column. */
  function Placed(text: string, spans: seq<Span>): (ts: seq<SemToken>)
    requires forall k :: 0 <= k < |spans| ==> spans[k].start <= |text|
    ensures |ts| == |spans|
    ensures forall k :: 0 <= k < |ts| ==>
      ts[k] == SemToken(Position(text, spans[k].start).line, Position(text, spans[k].start).col, spans[k].length, spans[k].kind)
  {
    if spans == [] then []
    else
      var p := Position(text, spans[0].start);
      [SemToken(p.line, p.col, spans[0].length, spans[0].kind)] + Placed(text, spans[1..])
  }

  /** The five integers `pushToken` appends for `t`: its line less the
      previous token's line, its start less the previous start when on the
      same line (else the start itself), length, type and no modifiers. */
  function Record(t: SemToken, lastLine: int, lastCol: int): (r: seq<int>)
    ensures |r| == 5
  {
    var lineDelta := t.line - lastLine;
    [lineDelta, if lineDelta == 0 then t.col - lastCol else t.col, t.length, t.kind, 0]
  }

  /** `pushToken` over a token list. */
  function Encode(ts: seq<SemToken>, lastLine: int, lastCol: int): (data: seq<int>)
    ensures |data| == 5 * |ts|
  {
    if ts == [] then []
    else Record(ts[0], lastLine, lastCol) + Encode(ts[1..], ts[0].line, ts[0].col)
  }

  /** Record `k` of the encoding is token `k` relative to token `k - 1`
      (to the start for the first). */
  lemma {:induction false} EncodeAt(ts: seq<SemToken>, lastLine: int, lastCol: int, k: nat, j: nat)
    requires k < |ts| && j < 5
    ensures Encode(ts, lastLine, lastCol)[5 * k + j] ==
      (if k == 0 then Record(ts[0], lastLine, lastCol) else Record(ts[k], ts[k - 1].line, ts[k - 1].col))[j]
  {
    if k > 0 {
      var rest := Encode(ts[1..], ts[0].line, ts[0].col);
      assert Encode(ts, lastLine, lastCol)[5 * k + j] == rest[5 * (k - 1) + j];
      EncodeAt(ts[1..], ts[0].line, ts[0].col, k - 1, j);
      assert ts[1..][k - 1] == ts[k];
      if k > 1 {
        assert ts[1..][k - 2] == ts[k - 1];
      }
    }
  }

  /** The client's reading of the encoding. */
  function Decode(data: seq<int>, lastLine: int, lastCol: int): (ts: seq<SemToken>)
    requires |data| % 5 == 0
    ensures 5 * |ts| == |data|
    decreases |data|
  {
    if data == [] then []
    else
      var line := lastLine + data[0];
      var col := if data[0] == 0 then lastCol + data[1] else data[1];
      [SemToken(line, col, data[2], data[3])] + Decode(data[5..], line, col)
  }

  /** The client recovers every token from the relative encoding. */
  lemma {:induction false} DecodeEncode(ts: seq<SemToken>, lastLine: int, lastCol: int)
    ensures Decode(Encode(ts, lastLine, lastCol), lastLine, lastCol) == ts
  {
    if ts != [] {
      var t := ts[0];
      var data := Encode(ts, lastLine, lastCol);
      DecodeEncode(ts[1..], t.line, t.col);
      assert data[5..] == Encode(ts[1..], t.line, t.col);
      assert data[..5] == Record(t, lastLine, lastCol);
    }
  }

  /** The tokens are in strictly increasing position, the first not
      before (`line`, `col`), none at a negative column. */
  predicate Increasing(ts: seq<SemToken>, line: int, col: int) {
    (forall k :: 0 <= k < |ts| ==> 0 <= ts[k].col) &&
    (|ts| > 0 ==> ts[0].line > line || (ts[0].line == line && ts[0].col >= col)) &&
    forall k :: 0 <= k < |ts| - 1 ==>
      ts[k].line < ts[k + 1].line || (ts[k].line == ts[k + 1].line && ts[k].col < ts[k + 1].col)
  }

  /** Over increasing tokens no delta of record `k` is negative, and after
      the first record the two deltas are not both zero; the record carries
      the token's length and type and modifier 0. */
  lemma RecordFields(ts: seq<SemToken>, line: int, col: int, k: nat)
    requires Increasing(ts, line, col) && k < |ts|
    ensures var data := Encode(ts, line, col);
      data[5 * k] >= 0 && data[5 * k + 1] >= 0 && (k > 0 ==> data[5 * k] > 0 || data[5 * k + 1] > 0) &&
      data[5 * k + 2] == ts[k].length && data[5 * k + 3] == ts[k].kind && data[5 * k + 4] == 0
  {
    EncodeAt(ts, line, col, k, 0);
    EncodeAt(ts, line, col, k, 1);
    EncodeAt(ts, line, col, k, 2);
    EncodeAt(ts, line, col, k, 3);
    EncodeAt(ts, line, col, k, 4);
    if k > 0 {
      assert ts[(k - 1) + 1] == ts[k];
    }
  }

  // --------------------------------------------------------------- handler

  /** The tokens of a document, placed. */
  function Tokens(text: string): seq<SemToken> {
    Placed(text, Spans(text, 0))
  }

  /** The `data` array the semantic-tokens handler answers with. */
  function Highlight(text: string): seq<int> {
    Encode(Tokens(text), 0, 0)
  }

  /** The tokens of a document come in strictly increasing position. */
  lemma TokensIncreasing(text: string)
    ensures Increasing(Tokens(text), 0, 0)
  {
    var spans := Spans(text, 0);
    var ts := Tokens(text);
    forall k | 0 <= k < |ts| - 1
      ensures ts[k].line < ts[k + 1].line || (ts[k].line == ts[k + 1].line && ts[k].col < ts[k + 1].col)
    {
      PositionIncreasing(text, spans[k].start, spans[k + 1].start);
    }
  }

  /** The handler's answer is a whole number of five-integer records,
      none with a negative delta nor two zero deltas after the first, each
      with a non-empty length, a legend index and no modifiers. */
  lemma HighlightRecords(text: string)
    ensures var data := Highlight(text);
      |data| % 5 == 0 &&
      forall k :: 0 <= k < |data| / 5 ==>
        data[5 * k] >= 0 && data[5 * k + 1] >= 0 && (k > 0 ==> data[5 * k] > 0 || data[5 * k + 1] > 0) &&
        1 <= data[5 * k + 2] && 0 <= data[5 * k + 3] <= PunctuationType && data[5 * k + 4] == 0
  {
    var spans := Spans(text, 0);
    var ts := Tokens(text);
    var data := Highlight(text);
    assert |data| == 5 * |ts|;
    assert |data| / 5 == |ts|;
    TokensIncreasing(text);
    forall k | 0 <= k < |data| / 5
      ensures data[5 * k] >= 0 && data[5 * k + 1] >= 0 && (k > 0 ==> data[5 * k] > 0 || data[5 * k + 1] > 0)
      ensures 1 <= data[5 * k + 2] && 0 <= data[5 * k + 3] <= PunctuationType && data[5 * k + 4] == 0
    {
      RecordFields(ts, 0, 0, k);
      assert ts[k].length == spans[k].length && ts[k].kind == spans[k].kind;
    }
  }

  /** Reading the answer back gives each token of the scan, in the order of
      the text, at the line and column of its first character. */
  lemma HighlightDecodes(text: string)
    ensures var spans := Spans(text, 0); var ts := Decode(Highlight(text), 0, 0);
      |ts| == |spans| &&
      forall k :: 0 <= k < |ts| ==>
        ts[k].line == Position(text, spans[k].start).line && ts[k].col == Position(text, spans[k].start).col &&
        ts[k].length == spans[k].length && ts[k].kind == spans[k].kind
  {
    DecodeEncode(Tokens(text), 0, 0);
  }

  /** The tokens a turn that stops at `end` leaves ahead of `rest`: the
      lexeme's token if it has a kind, else none. */
  function Prefixed(pos: nat, end: nat, kind: Option<nat>, rest: seq<Span>): (r: seq<Span>)
    requires pos <= end
    ensures |r| == if kind.None? then |rest| else |rest| + 1
  {
    if kind.None? then rest else [Span(pos, end - pos, kind.value)] + rest
  }

  /** One turn of the loop, as offsets: the tokens from `pos` are the
      lexeme's token, if it has one, followed by the tokens from where the
      turn stops. */
  lemma SpansUnfold(text: string, pos: nat)
    requires pos < |text|
    ensures var l := Scan(text, pos); Spans(text, pos) == Prefixed(pos, l.end, l.kind, Spans(text, l.end))
  {
    var l := Scan(text, pos);
    var rest := Spans(text, l.end);
    if l.kind.None? {
      assert Spans(text, pos) == rest;
    } else {
      assert Spans(text, pos) == [Span(pos, l.end - pos, l.kind.value)] + rest;
    }
  }

  /** The encoding of a token list headed by `s`, at (`line`, `col`), is
      its record followed by the encoding of the rest from `s`. */
  lemma EncodeCons(text: string, spans: seq<Span>, s: Span, rest: seq<Span>, line: nat, col: nat, lastLine: int, lastCol: int)
    requires s.start <= |text| && forall k :: 0 <= k < |rest| ==> rest[k].start <= |text|
    requires spans == [s] + rest && Pos(line, col) == Position(text, s.start)
    ensures Encode(Placed(text, spans), lastLine, lastCol) ==
      Record(SemToken(line, col, s.length, s.kind), lastLine, lastCol) + Encode(Placed(text, rest), line, col)
  {
    var t := SemToken(line, col, s.length, s.kind);
    assert spans[1..] == rest;
    assert Placed(text, spans) == [t] + Placed(text, rest);
    assert ([t] + Placed(text, rest))[1..] == Placed(text, rest);
  }

  /** Where the scan loop is: `line` and `col` are the position of `pos`,
      and the records still to push after `data`, from the last token
      pushed, complete the answer. */
  predicate ScanState(text: string, pos: nat, line: nat, col: nat, data: seq<int>, lastLine: int, lastCol: int) {
    pos <= |text| && Pos(line, col) == Position(text, pos) &&
    data + Encode(Placed(text, Spans(text, pos)), lastLine, lastCol) == Highlight(text)
  }

  /** What one turn of the loop does from (`pos`, `line`, `col`, `data`,
      `lastLine`, `lastCol`): it moves to the end of the lexeme at `pos`
      and its position, and pushes the lexeme's token, if it has one, at
      (`line`, `col`). */
  predicate Moved(text: string, pos: nat, line: nat, col: nat, data: seq<int>, lastLine: int, lastCol: int,
                  pos': nat, line': nat, col': nat, data': seq<int>, lastLine': int, lastCol': int)
    requires pos < |text|
  {
    var l := Scan(text, pos);
    pos' == l.end && Pos(line', col') == Position(text, pos') &&
    match l.kind
    case None => data' == data && lastLine' == lastLine && lastCol' == lastCol
    case Some(kind) =>
      data' == data + Record(SemToken(line, col, pos' - pos, kind), lastLine, lastCol) &&
      lastLine' == line && lastCol' == col
  }

  /** A turn keeps the scan state. */
  lemma ScanStep(text: string, pos: nat, line: nat, col: nat, data: seq<int>, lastLine: int, lastCol: int,
                 pos': nat, line': nat, col': nat, data': seq<int>, lastLine': int, lastCol': int)
    requires ScanState(text, pos, line, col, data, lastLine, lastCol) && pos < |text|
    requires Moved(text, pos, line, col, data, lastLine, lastCol, pos', line', col', data', lastLine', lastCol')
    ensures ScanState(text, pos', line', col', data', lastLine', lastCol')
  {
    var l := Scan(text, pos);
    SpansUnfold(text, pos);
    StateStep(text, pos, l.end, l.kind, line, col, data, lastLine, lastCol, line', col', data', lastLine', lastCol');
  }

  /** The scan state after a turn that stops at `end` and pushes a token
      of `kind`, if any. */
  lemma StateStep(text: string, pos: nat, end: nat, kind: Option<nat>, line: nat, col: nat, data: seq<int>, lastLine: int, lastCol: int,
                  line': nat, col': nat, data': seq<int>, lastLine': int, lastCol': int)
    requires ScanState(text, pos, line, col, data, lastLine, lastCol) && pos < end <= |text|
    requires Spans(text, pos) == Prefixed(pos, end, kind, Spans(text, end))
    requires Pos(line', col') == Position(text, end)
    requires kind.None? ==> data' == data && lastLine' == lastLine && lastCol' == lastCol
    requires kind.Some? ==> data' == data + Record(SemToken(line, col, end - pos, kind.value), lastLine, lastCol) && lastLine' == line && lastCol' == col
    ensures ScanState(text, end, line', col', data', lastLine', lastCol')
  {
    RestStep(text, pos, end, kind, Spans(text, pos), Spans(text, end), line, col, data, lastLine, lastCol, Highlight(text));
  }

  /** The records still to push, one turn on, for any token lists and any
      answer `whole`. */
  lemma RestStep(text: string, pos: nat, end: nat, kind: Option<nat>, spans: seq<Span>, rest: seq<Span>,
                 line: nat, col: nat, data: seq<int>, lastLine: int, lastCol: int, whole: seq<int>)
    requires pos <= end && pos <= |text| && forall k :: 0 <= k < |rest| ==> rest[k].start <= |text|
    requires Pos(line, col) == Position(text, pos)
    requires spans == Prefixed(pos, end, kind, rest)
    requires data + Encode(Placed(text, spans), lastLine, lastCol) == whole
    ensures if kind.None? then data + Encode(Placed(text, rest), lastLine, lastCol) == whole
      else data + Record(SemToken(line, col, end - pos, kind.value), lastLine, lastCol) + Encode(Placed(text, rest), line, col) == whole
  {
    if kind.Some? {
      var s := Span(pos, end - pos, kind.value);
      EncodeCons(text, spans, s, rest, line, col, lastLine, lastCol);
      Prepend(data, Encode(Placed(text, spans), lastLine, lastCol),
              Record(SemToken(line, col, end - pos, kind.value), lastLine, lastCol), Encode(Placed(text, rest), line, col), whole);
    }
  }

  lemma Prepend(data: seq<int>, all: seq<int>, r: seq<int>, tail: seq<int>, whole: seq<int>)
    requires data + all == whole && all == r + tail
    ensures data + r + tail == whole
  {
    assert data + (r + tail) == data + r + tail;
  }

  /** The lexeme at a letter or underscore is the word there. */
  lemma ScanWord(text: string, pos: nat)
    requires pos < |text| && IsWordStart(text[pos])
    ensures var e := WordEnd(text, pos); Scan(text, pos) == Lexeme(e, Some(WordKind(text[pos..e])))
  {
    var c := text[pos];
    assert c != '\n' && !IsJsSpace(c) && c != '"' && !IsDigit(c);
    NotAt(text, pos, "/*");
    NotAt(text, pos, "/!");
  }

  /** The lexeme at a quote is the string there. */
  lemma ScanString(text: string, pos: nat)
    requires pos < |text| && text[pos] == '"'
    ensures var e := StringEnd(text, pos + 1); Scan(text, pos) == Lexeme(if e < |text| then e + 1 else e, Some(StringType))
  {
    assert !IsJsSpace(text[pos]);
    NotAt(text, pos, "/*");
    NotAt(text, pos, "/!");
  }

  /** The lexeme at a digit is the number there. */
  lemma ScanNumber(text: string, pos: nat)
    requires pos < |text| && IsDigit(text[pos])
    ensures Scan(text, pos) == Lexeme(NumberEnd(text, pos), Some(NumberType))
  {
    var c := text[pos];
    assert c != '\n' && !IsJsSpace(c) && c != '"';
    NotAt(text, pos, "/*");
    NotAt(text, pos, "/!");
  }

  /** A text does not start with `pat` at `k` when its character there is
      not `pat`'s first. */
  lemma NotAt(text: string, k: nat, pat: string)
    requires k < |text| && |pat| > 0 && text[k] != pat[0]
    ensures !At(text, k, pat)
  {
    if k + |pat| <= |text| {
      assert text[k..k + |pat|][0] == text[k];
    }
  }
}
