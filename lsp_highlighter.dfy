/** The semantic-tokens request handler of LSP/server.js. The handler keeps
    its scan state in local variables that its two helper closures,
    `getEndPosition` and `pushToken`, read and update; here that state is
    the fields of a `Highlighter` and the closures are its methods. */
module Highlighting {
  import opened Wrappers
  import opened CType
  import opened SemanticTokens

  class Highlighter {
    const text: string
    var pos: nat
    var line: nat
    var col: nat
    var lastLine: nat
    var lastCol: nat
    var data: seq<int>

    /** The scan state is where the scan of `text` is: `line` and `col`
        are the position of `pos`, and what is left to push, from the last
        token pushed, completes the answer. */
    ghost predicate Consistent()
      reads this
    {
      ScanState(text, pos, line, col, data, lastLine, lastCol)
    }

    constructor(text: string)
      ensures this.text == text && Consistent()
    {
      this.text := text;
      pos := 0;
      line := 0;
      col := 0;
      lastLine := 0;
      lastCol := 0;
      data := [];
    }

    /** `getEndPosition`: the line and column reached by walking from the
        current ones over the characters from `startPos` to `endPos`. */
    method GetEndPosition(startPos: nat, endPos: nat) returns (p: Pos)
      requires startPos <= endPos <= |text|
      ensures p == Walk(text, startPos, endPos, Pos(line, col))
    {
      var currentLine := line;
      var currentCol := col;
      var i := startPos;
      while i < endPos
        invariant startPos <= i <= endPos
        invariant Walk(text, i, endPos, Pos(currentLine, currentCol)) == Walk(text, startPos, endPos, Pos(line, col))
      {
        if text[i] == '\n' {
          currentLine := currentLine + 1;
          currentCol := 0;
        } else {
          currentCol := currentCol + 1;
        }
        i := i + 1;
      }
      p := Pos(currentLine, currentCol);
    }

    /** `pushToken`: the token's record, relative to the last token, and
        the token becomes the last. */
    method PushToken(tokenLine: nat, tokenCol: nat, length: nat, tokenType: nat)
      modifies this
      ensures data == old(data) + Record(SemToken(tokenLine, tokenCol, length, tokenType), old(lastLine), old(lastCol))
      ensures lastLine == tokenLine && lastCol == tokenCol
      ensures pos == old(pos) && line == old(line) && col == old(col)
    {
      var lineDelta := tokenLine - lastLine;
      var colDelta := if lineDelta == 0 then tokenCol - lastCol else tokenCol;
      data := data + [lineDelta, colDelta, length, tokenType, 0];
      lastLine := tokenLine;
      lastCol := tokenCol;
    }

    /** The scan loop: it answers with the encoding of every token of the
        text. */
    method Run()
      requires Consistent()
      modifies this
      ensures data == Highlight(text)
    {
      while pos < |text|
        invariant Consistent()
        decreases |text| - pos
      {
        Turn();
      }
      assert Spans(text, pos) == [];
    }

    /** One turn of the scan loop. */
    method Turn()
      requires Consistent() && pos < |text|
      modifies this
      ensures Consistent() && old(pos) < pos
    {
      var ch := text[pos];
      if ch == '\n' {
        NewLine();
      } else if IsJsSpace(ch) {
        SkipChar();
      } else if At(text, pos, "/*") {
        LineComment();
      } else if At(text, pos, "/!") {
        BlockComment();
      } else if ch == '"' {
        StringToken();
      } else if IsDigit(ch) {
        NumberToken();
      } else if IsWordStart(ch) {
        WordToken();
      } else if IsOperator(ch) {
        SingleToken(OperatorType);
      } else if IsPunctuation(ch) {
        SingleToken(PunctuationType);
      } else {
        SkipChar();
      }
      ScanStep(text, old(pos), old(line), old(col), old(data), old(lastLine), old(lastCol), pos, line, col, data, lastLine, lastCol);
    }

    /** A line feed: the next line. */
    method NewLine()
      requires pos < |text| && Pos(line, col) == Position(text, pos) && text[pos] == '\n'
      modifies this
      ensures Moved(text, old(pos), old(line), old(col), old(data), old(lastLine), old(lastCol), pos, line, col, data, lastLine, lastCol)
    {
      PositionAfter(text, pos, pos + 1);
      line := line + 1;
      col := 0;
      pos := pos + 1;
    }

    /** White space or a character of no token: one column on. */
    method SkipChar()
      requires pos < |text| && Pos(line, col) == Position(text, pos) && text[pos] != '\n' && Scan(text, pos) == Lexeme(pos + 1, None)
      modifies this
      ensures Moved(text, old(pos), old(line), old(col), old(data), old(lastLine), old(lastCol), pos, line, col, data, lastLine, lastCol)
    {
      PositionAfter(text, pos, pos + 1);
      col := col + 1;
      pos := pos + 1;
    }

    /** An operator or a punctuation character: a one-character token. */
    method SingleToken(tokenType: nat)
      requires pos < |text| && Pos(line, col) == Position(text, pos) && text[pos] != '\n' && Scan(text, pos) == Lexeme(pos + 1, Some(tokenType))
      modifies this
      ensures Moved(text, old(pos), old(line), old(col), old(data), old(lastLine), old(lastCol), pos, line, col, data, lastLine, lastCol)
    {
      PositionAfter(text, pos, pos + 1);
      PushToken(line, col, 1, tokenType);
      col := col + 1;
      pos := pos + 1;
    }

    /** A slash-star comment: up to the next line feed. */
    method LineComment()
      requires pos < |text| && Pos(line, col) == Position(text, pos) && At(text, pos, "/*")
      modifies this
      ensures Moved(text, old(pos), old(line), old(col), old(data), old(lastLine), old(lastCol), pos, line, col, data, lastLine, lastCol)
    {
      ScanShape(text, pos);
      var end := IndexOf(text, "\n", pos);
      if end == -1 {
        end := |text|;
      }
      var length := end - pos;
      PositionFlat(text, pos, end);
      PushToken(line, col, length, CommentType);
      pos := end;
      col := col + length;
    }

    /** A `/!` comment: through the next `!/`, or to the end. */
    method BlockComment()
      requires pos < |text| && Pos(line, col) == Position(text, pos) && At(text, pos, "/!")
      modifies this
      ensures Moved(text, old(pos), old(line), old(col), old(data), old(lastLine), old(lastCol), pos, line, col, data, lastLine, lastCol)
    {
      var end := IndexOf(text, "!/", pos + 2);
      if end == -1 {
        end := |text|;
      } else {
        end := end + 2;
      }
      PushToken(line, col, end - pos, CommentType);
      var endPos := GetEndPosition(pos, end);
      PositionAfter(text, pos, end);
      line := endPos.line;
      col := endPos.col;
      pos := end;
    }

    /** A string: through the first quote with no backslash before it, or
        to the end. */
    method StringToken()
      requires pos < |text| && Pos(line, col) == Position(text, pos) && text[pos] == '"'
      modifies this
      ensures Moved(text, old(pos), old(line), old(col), old(data), old(lastLine), old(lastCol), pos, line, col, data, lastLine, lastCol)
    {
      ScanString(text, pos);
      var end := SkipString(pos + 1);
      if end < |text| {
        end := end + 1;
      }
      PushToken(line, col, end - pos, StringType);
      var endPos := GetEndPosition(pos, end);
      PositionAfter(text, pos, end);
      line := endPos.line;
      col := endPos.col;
      pos := end;
    }

    /** The string loop: from `end` to the closing quote or the end. */
    method SkipString(from: nat) returns (end: nat)
      requires 1 <= from <= |text|
      ensures end == StringEnd(text, from)
    {
      end := from;
      while end < |text| && (text[end] != '"' || text[end - 1] == '\\')
        invariant from <= end <= |text|
        invariant StringEnd(text, end) == StringEnd(text, from)
      {
        end := end + 1;
      }
    }

    /** A number: the run of `[0-9.eE+-]` from a digit. */
    method NumberToken()
      requires pos < |text| && Pos(line, col) == Position(text, pos) && IsDigit(text[pos])
      modifies this
      ensures Moved(text, old(pos), old(line), old(col), old(data), old(lastLine), old(lastCol), pos, line, col, data, lastLine, lastCol)
    {
      ScanNumber(text, pos);
      var start := pos;
      var startLine := line;
      var startCol := col;
      while pos < |text| && IsNumberChar(text[pos])
        invariant start <= pos <= |text|
        invariant NumberEnd(text, pos) == NumberEnd(text, start)
        invariant line == old(line) && col == old(col) && data == old(data) && lastLine == old(lastLine) && lastCol == old(lastCol)
      {
        pos := pos + 1;
      }
      var length := pos - start;
      PositionFlat(text, start, pos);
      PushToken(startLine, startCol, length, NumberType);
      col := col + length;
    }

    /** A word: the run of `[a-zA-Z0-9_.]` from a letter or underscore,
        typed by `WordKind`. */
    method WordToken()
      requires pos < |text| && Pos(line, col) == Position(text, pos) && IsWordStart(text[pos])
      modifies this
      ensures Moved(text, old(pos), old(line), old(col), old(data), old(lastLine), old(lastCol), pos, line, col, data, lastLine, lastCol)
    {
      ScanWord(text, pos);
      var start := pos;
      var startLine := line;
      var startCol := col;
      while pos < |text| && IsWordBody(text[pos])
        invariant start <= pos <= |text|
        invariant WordEnd(text, pos) == WordEnd(text, start)
        invariant line == old(line) && col == old(col) && data == old(data) && lastLine == old(lastLine) && lastCol == old(lastCol)
      {
        pos := pos + 1;
      }
      assert pos == WordEnd(text, start);
      var word := text[start..pos];
      var length := |word|;
      var tokenType := WordKind(word);
      PositionFlat(text, start, pos);
      PushToken(startLine, startCol, length, tokenType);
      col := col + length;
    }
  }

  /** The semantic-tokens request: no data for a document the server does
      not hold, else the encoding of the document's tokens. */
  method SemanticTokensOf(doc: Option<string>) returns (data: seq<int>)
    ensures doc.None? ==> data == []
    ensures doc.Some? ==> data == Highlight(doc.value)
  {
    if doc.None? {
      return [];
    }
    var h := new Highlighter(doc.value);
    h.Run();
    data := h.data;
  }
}
