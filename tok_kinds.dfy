/** The `TOK_*` vocabulary of the V2 front end and of the NexusCompiler parser.
    V2 declares fifteen kinds; the NexusCompiler dictionary has no comment kind
    but adds `TOK_COMMA`, so the datatype holds the union of both. */
module TokKinds {
  import opened Wrappers

  datatype TokKind =
    | Identifier | Return | Int | String
    | Assign | Increment | Move
    | LParen | RParen | LBrace | RBrace | Comma | Semi
    | Comment | Eof | Unknown

  /** A token of this vocabulary: its kind, its text and a 1-based position. */
  datatype Token = Token(kind: TokKind, word: string, line: int, column: int)

  /** One table row: the kind's printed name and its fixed spelling, if any. */
  datatype TokInfo = TokInfo(typing: string, spelling: Option<string>)

  /** The enumerator's identifier. */
  function KindName(k: TokKind): string {
    match k
    case Identifier => "TOK_IDENTIFIER" case Return => "TOK_RETURN"
    case Int => "TOK_INT" case String => "TOK_STRING"
    case Assign => "TOK_ASSIGN" case Increment => "TOK_INCREMENT" case Move => "TOK_MOVE"
    case LParen => "TOK_LPAREN" case RParen => "TOK_RPAREN"
    case LBrace => "TOK_LBRACE" case RBrace => "TOK_RBRACE"
    case Comma => "TOK_COMMA" case Semi => "TOK_SEMI"
    case Comment => "TOK_COMMENT" case Eof => "TOK_EOF" case Unknown => "TOK_UNKNOWN"
  }

  /** The keyword map shared by both dictionaries' `getKindFromSpelling`. */
  const KeywordSpellings: map<string, TokKind> := map["i32" := Identifier, "return" := Return]

  /** `TokenTable::getKindFromSpelling`: an exact lookup in a two-entry map. */
  function GetKindFromSpelling(s: string): (r: Option<TokKind>)
    ensures r.Some? ==> r.value == Identifier || r.value == Return
  {
    if s in KeywordSpellings then Some(KeywordSpellings[s]) else None
  }

  /** Exactly two spellings are found, and `i32` is not a kind of its own. */
  lemma LookupExactly(s: string)
    ensures GetKindFromSpelling(s) == Some(Identifier) <==> s == "i32"
    ensures GetKindFromSpelling(s) == Some(Return) <==> s == "return"
    ensures GetKindFromSpelling(s).None? <==> s != "i32" && s != "return"
  {
  }
}
