/** The NexusCompiler dictionary: a fifteen-row table in the order
    IDENTIFIER, RETURN, INT, STRING, ASSIGN, INCREMENT, MOVE, LPAREN, RPAREN,
    LBRACE, RBRACE, COMMA, SEMI, EOF, UNKNOWN, and a fixed label per kind. */
module DictTable {
  import opened Wrappers
  import opened TokKinds

  /** The kind's integer value in this dictionary's enumeration. */
  function Ord(k: TokKind): (n: nat)
    requires k != Comment
    ensures n < 15
  {
    match k
    case Identifier => 0 case Return => 1 case Int => 2 case String => 3
    case Assign => 4 case Increment => 5 case Move => 6 case LParen => 7
    case RParen => 8 case LBrace => 9 case RBrace => 10 case Comma => 11
    case Semi => 12 case Eof => 13 case Unknown => 14
  }

  /** `TokenTable::table[i]`. */
  function Row(i: nat): TokInfo
    requires i < 15
  {
    match i
    case 0 => TokInfo("TOK_IDENTIFIER", None)
    case 1 => TokInfo("TOK_RETURN", Some("return"))
    case 2 => TokInfo("TOK_INT", None)
    case 3 => TokInfo("TOK_STRING", None)
    case 4 => TokInfo("TOK_ASSIGN", Some("="))
    case 5 => TokInfo("TOK_INCREMENT", Some("++"))
    case 6 => TokInfo("TOK_MOVE", Some("<-"))
    case 7 => TokInfo("TOK_LPAREN", Some("("))
    case 8 => TokInfo("TOK_RPAREN", Some(")"))
    case 9 => TokInfo("TOK_LBRACE", Some("{"))
    case 10 => TokInfo("TOK_LBRACE", Some("}"))
    case 11 => TokInfo("TOK_COMMA", Some(","))
    case 12 => TokInfo("TOK_SEMI", Some(";"))
    case 13 => TokInfo("TOK_EOF", Some("<EOF>"))
    case _ => TokInfo("TOK_UNKNOWN", Some("<UNKNOWN>"))
  }

  /** `TokenTable::getInfo`. */
  function GetInfo(k: TokKind): TokInfo
    requires k != Comment
  {
    Row(Ord(k))
  }

  /** Every row but the right brace's is named after its kind; that one
      repeats the left brace's name while keeping its own spelling. */
  lemma RowNames(k: TokKind)
    requires k != Comment
    ensures k != RBrace ==> GetInfo(k).typing == KindName(k)
    ensures GetInfo(RBrace).typing == GetInfo(LBrace).typing == "TOK_LBRACE"
    ensures GetInfo(RBrace).spelling == Some("}") != GetInfo(LBrace).spelling
  {
    match k
    case Identifier => case Return => case Int => case String =>
    case Assign => case Increment => case Move => case LParen =>
    case RParen => case LBrace => case RBrace => case Comma =>
    case Semi => case Eof => case Unknown =>
  }

  /** Only the kinds whose text varies lack a spelling. */
  lemma SpellingMissingExactly(k: TokKind)
    requires k != Comment
    ensures GetInfo(k).spelling.None? <==> k == Identifier || k == Int || k == String
  {
    match k
    case Identifier => case Return => case Int => case String =>
    case Assign => case Increment => case Move => case LParen =>
    case RParen => case LBrace => case RBrace => case Comma =>
    case Semi => case Eof => case Unknown =>
  }

  /** The lookup inverts the table only for `return`: `i32` maps to the
      identifier kind, whose row has no spelling. */
  lemma LookupAgainstTable()
    ensures GetInfo(GetKindFromSpelling("return").value).spelling == Some("return")
    ensures GetKindFromSpelling("i32") == Some(Identifier) && GetInfo(Identifier).spelling.None?
  {
    LookupExactly("return");
    LookupExactly("i32");
  }

  /** `Token::toString`: a label chosen by the kind alone. A kind outside this
      dictionary's enumeration takes the default branch. */
  function ToString(t: Token): (s: string)
    ensures |s| > 0
  {
    match t.kind
    case Identifier => "TOK_IDENTIFIER  "
    case Return => "TOK_RETURN  "
    case Int => "TOK_INT  "
    case String => "TOK_STRING  "
    case Assign => "TOK_ASSIGN  "
    case Increment => "TOK_INCREMENT  "
    case Move => "TOK_MOVE  "
    case LParen => "TOK_LPAREN  "
    case RParen => "TOK_RPAREN  "
    case LBrace => "\nTOK_LBRACE\n"
    case RBrace => "TOK_RBRACE\n"
    case Comma => "TOK_COMMA  "
    case Semi => "TOK_SEMI\n"
    case Eof => "TOK_EOF\n\n"
    case Unknown => "TOK_UNKNOWN  "
    case Comment => "??? (invalid kind)"
  }

  /** Layout characters of the labels. */
  predicate IsLayout(c: char) { c == ' ' || c == '\n' }

  /** Where the kind's name starts in its label: only the left brace's label
      opens with a newline. */
  function NameOffset(k: TokKind): nat {
    if k == LBrace then 1 else 0
  }

  /** A text made of layout, a name and at least one more layout character
      shows the name between layout. */
  lemma Surrounded(s: string, pre: string, n: string, post: string)
    requires s == pre + n + post && |post| > 0
    requires forall i :: 0 <= i < |pre| ==> IsLayout(pre[i])
    requires forall i :: 0 <= i < |post| ==> IsLayout(post[i])
    ensures |pre| + |n| < |s| && s[|pre|..|pre| + |n|] == n
    ensures forall i :: 0 <= i < |pre| ==> IsLayout(s[i])
    ensures forall i :: |pre| + |n| <= i < |s| ==> IsLayout(s[i])
  {
    assert forall i :: 0 <= i < |pre| ==> s[i] == pre[i];
    assert forall i :: |pre| + |n| <= i < |s| ==> s[i] == post[i - |pre| - |n|];
  }

  /** Every label is the kind's name surrounded by layout only, and ends in a
      space or a newline, so consecutive labels stay apart. */
  lemma ToStringIsKindName(t: Token)
    requires t.kind != Comment
    ensures var s, o, n := ToString(t), NameOffset(t.kind), KindName(t.kind);
      o + |n| < |s| && s[o..o + |n|] == n &&
      (forall i :: 0 <= i < o ==> IsLayout(s[i])) &&
      (forall i :: o + |n| <= i < |s| ==> IsLayout(s[i]))
  {
    var s, n := ToString(t), KindName(t.kind);
    var pre := if t.kind == LBrace then "\n" else "";
    var post := s[|pre| + |n|..];
    assert s == pre + n + post by {
      match t.kind
      case Identifier => case Return => case Int => case String =>
      case Assign => case Increment => case Move => case LParen =>
      case RParen => case LBrace => case RBrace => case Comma =>
      case Semi => case Eof => case Unknown =>
    }
    assert |post| > 0 && forall i :: 0 <= i < |post| ==> IsLayout(post[i]) by {
      match t.kind
      case Identifier => case Return => case Int => case String =>
      case Assign => case Increment => case Move => case LParen =>
      case RParen => case LBrace => case RBrace => case Comma =>
      case Semi => case Eof => case Unknown =>
    }
    Surrounded(s, pre, n, post);
  }

  /** The right brace prints under its own name, unlike its table row. */
  lemma RBraceLabelDiffersFromRow(t: Token)
    requires t.kind == RBrace
    ensures ToString(t) == KindName(RBrace) + "\n"
    ensures GetInfo(RBrace).typing != KindName(RBrace)
  {
  }
}
