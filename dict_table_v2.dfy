/** The V2 dictionary: a fifteen-row table in the order of V2's `TokenKind`
    enumeration (which has a comment kind and no comma kind). */
module DictTableV2 {
  import opened Wrappers
  import opened TokKinds

  /** The kind's integer value in V2's enumeration. */
  function Ord(k: TokKind): (n: nat)
    requires k != Comma
    ensures n < 15
  {
    match k
    case Identifier => 0 case Return => 1 case Int => 2 case String => 3
    case Assign => 4 case Increment => 5 case Move => 6 case LParen => 7
    case RParen => 8 case LBrace => 9 case RBrace => 10 case Semi => 11
    case Comment => 12 case Eof => 13 case Unknown => 14
  }

  /** `TokenTable::table[i]`. */
  function Row(i: nat): TokInfo
    requires i < 15
  {
    match i
    case 0 => TokInfo("TOK_IDENTIFIER", None)
    case 1 => TokInfo("TOK_RETURN", Some("return"))
    case 2 => TokInfo("TOK_INT", None)
    case 3 => TokInfo("TOK_STRING", None)
    case 4 => TokInfo("TOK_ASSIGN", Some("="))
    case 5 => TokInfo("TOK_INCREMENT", Some("++"))
    case 6 => TokInfo("TOK_MOVE", Some("<-"))
    case 7 => TokInfo("TOK_LPAREN", Some("("))
    case 8 => TokInfo("TOK_RPAREN", Some(")"))
    case 9 => TokInfo("TOK_LBRACE", Some("{"))
    case 10 => TokInfo("TOK_LBRACE", Some("}"))
    case 11 => TokInfo("TOK_SEMI", Some(";"))
    case 12 => TokInfo("TOK_COMMENT", None)
    case 13 => TokInfo("TOK_EOF", Some("<EOF>"))
    case _ => TokInfo("TOK_UNKNOWN", Some("<UNKNOWN>"))
  }

  /** `TokenTable::getInfo`. */
  function GetInfo(k: TokKind): TokInfo
    requires k != Comma
  {
    Row(Ord(k))
  }

  /** One row per kind in enum order: each row is named after its kind,
      except the right brace's, which repeats the left brace's name. */
  lemma RowNames(k: TokKind)
    requires k != Comma
    ensures k != RBrace ==> GetInfo(k).typing == KindName(k)
    ensures GetInfo(RBrace) == TokInfo("TOK_LBRACE", Some("}"))
  {
    match k
    case Identifier => case Return => case Int => case String =>
    case Assign => case Increment => case Move => case LParen =>
    case RParen => case LBrace => case RBrace => case Semi =>
    case Comment => case Eof => case Unknown =>
  }

  /** The spelled rows are exactly those of fixed-text kinds. */
  lemma SpellingMissingExactly(k: TokKind)
    requires k != Comma
    ensures GetInfo(k).spelling.None? <==> k in {Identifier, Int, String, Comment}
  {
    match k
    case Identifier => case Return => case Int => case String =>
    case Assign => case Increment => case Move => case LParen =>
    case RParen => case LBrace => case RBrace => case Semi =>
    case Comment => case Eof => case Unknown =>
  }

  /** The lookup is not the inverse of the table: `i32` maps to the
      identifier kind, whose row has no spelling; `return` round-trips. */
  lemma LookupAgainstTable()
    ensures GetKindFromSpelling("i32") == Some(Identifier) && GetInfo(Identifier).spelling.None?
    ensures GetInfo(GetKindFromSpelling("return").value).spelling == Some("return")
  {
    LookupExactly("i32");
    LookupExactly("return");
  }
}
