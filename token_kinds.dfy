/** The token vocabulary shared by the V1 compiler and the NexusCompiler
    tokenizer: both Token.h files declare the same 49-member `TokenKind`
    enumeration, the same `TokenInfo` record and the same `Token` class. */
module TokenKinds {
  import opened Wrappers
  import opened CType

  datatype TokenKind =
    | KwPrivate | KwPublic | KwClass | KwMatch | KwConstructor | KwOptions
    | KwSome | KwNone | KwSelf | KwNew | KwWhile | KwTrue
    | TypeI32 | TypeF64 | TypeName
    | Identifier
    | LitInteger | LitFloat | LitString | LitBool
    | OpAssign | OpMove | OpArrow | OpPlus | OpMinus | OpMult | OpDiv | OpIntDiv
    | OpMod | OpDot | OpAndEqual
    | OpEq | OpNeq | OpLt | OpGt | OpLe | OpGe
    | DelimLbrace | DelimRbrace | DelimLparen | DelimRparen | DelimSemicolon
    | DelimComma | DelimColon | DelimArrow
    | Comment | Whitespace | Eof | Unknown

  const NumTokens: nat := 49

  /** `static_cast<uint16_t>(kind)`: the enumerator's integer value. */
  function Ord(k: TokenKind): (n: nat)
    ensures n < NumTokens
  {
    match k
    case KwPrivate => 0 case KwPublic => 1 case KwClass => 2 case KwMatch => 3
    case KwConstructor => 4 case KwOptions => 5 case KwSome => 6 case KwNone => 7
    case KwSelf => 8 case KwNew => 9 case KwWhile => 10 case KwTrue => 11
    case TypeI32 => 12 case TypeF64 => 13 case TypeName => 14
    case Identifier => 15
    case LitInteger => 16 case LitFloat => 17 case LitString => 18 case LitBool => 19
    case OpAssign => 20 case OpMove => 21 case OpArrow => 22 case OpPlus => 23
    case OpMinus => 24 case OpMult => 25 case OpDiv => 26 case OpIntDiv => 27
    case OpMod => 28 case OpDot => 29 case OpAndEqual => 30
    case OpEq => 31 case OpNeq => 32 case OpLt => 33 case OpGt => 34 case OpLe => 35
    case OpGe => 36
    case DelimLbrace => 37 case DelimRbrace => 38 case DelimLparen => 39
    case DelimRparen => 40 case DelimSemicolon => 41 case DelimComma => 42
    case DelimColon => 43 case DelimArrow => 44
    case Comment => 45 case Whitespace => 46 case Eof => 47 case Unknown => 48
  }

  /** The enumerator with a given value. */
  function FromOrd(n: nat): TokenKind
    requires n < NumTokens
  {
    match n
    case 0 => KwPrivate case 1 => KwPublic case 2 => KwClass case 3 => KwMatch
    case 4 => KwConstructor case 5 => KwOptions case 6 => KwSome case 7 => KwNone
    case 8 => KwSelf case 9 => KwNew case 10 => KwWhile case 11 => KwTrue
    case 12 => TypeI32 case 13 => TypeF64 case 14 => TypeName case 15 => Identifier
    case 16 => LitInteger case 17 => LitFloat case 18 => LitString case 19 => LitBool
    case 20 => OpAssign case 21 => OpMove case 22 => OpArrow case 23 => OpPlus
    case 24 => OpMinus case 25 => OpMult case 26 => OpDiv case 27 => OpIntDiv
    case 28 => OpMod case 29 => OpDot case 30 => OpAndEqual case 31 => OpEq
    case 32 => OpNeq case 33 => OpLt case 34 => OpGt case 35 => OpLe
    case 36 => OpGe case 37 => DelimLbrace case 38 => DelimRbrace case 39 => DelimLparen
    case 40 => DelimRparen case 41 => DelimSemicolon case 42 => DelimComma case 43 => DelimColon
    case 44 => DelimArrow case 45 => Comment case 46 => Whitespace case 47 => Eof
    case _ => Unknown
  }

  /** Ord and FromOrd are inverse: the enumeration has exactly 49 distinct values. */
  lemma FromOrdOrd(k: TokenKind)
    ensures FromOrd(Ord(k)) == k
  {
    if Ord(k) < 17 {
      FromOrdOrdOn0(k);
    } else if Ord(k) < 33 {
      FromOrdOrdOn1(k);
    } else {
      FromOrdOrdOn2(k);
    }
  }

  lemma FromOrdOrdOn0(k: TokenKind)
    requires Ord(k) < 17
    ensures FromOrd(Ord(k)) == k
  {
    match k
    case KwPrivate => case KwPublic => case KwClass => case KwMatch => case KwConstructor => case KwOptions =>
    case KwSome => case KwNone => case KwSelf => case KwNew => case KwWhile => case KwTrue =>
    case TypeI32 => case TypeF64 => case TypeName => case Identifier => case LitInteger =>
    case _ =>
  }

  lemma FromOrdOrdOn1(k: TokenKind)
    requires 17 <= Ord(k) < 33
    ensures FromOrd(Ord(k)) == k
  {
    match k
    case LitFloat => case LitString => case LitBool => case OpAssign => case OpMove => case OpArrow =>
    case OpPlus => case OpMinus => case OpMult => case OpDiv => case OpIntDiv => case OpMod =>
    case OpDot => case OpAndEqual => case OpEq => case OpNeq =>
    case _ =>
  }

  lemma FromOrdOrdOn2(k: TokenKind)
    requires 33 <= Ord(k) < 49
    ensures FromOrd(Ord(k)) == k
  {
    match k
    case OpLt => case OpGt => case OpLe => case OpGe => case DelimLbrace => case DelimRbrace =>
    case DelimLparen => case DelimRparen => case DelimSemicolon => case DelimComma => case DelimColon => case DelimArrow =>
    case Comment => case Whitespace => case Eof => case Unknown =>
    case _ =>
  }

  lemma OrdFromOrd(n: nat)
    requires n < NumTokens
    ensures Ord(FromOrd(n)) == n
  {
  }

  lemma OrdInjective(a: TokenKind, b: TokenKind)
    requires Ord(a) == Ord(b)
    ensures a == b
  {
    FromOrdOrd(a);
    FromOrdOrd(b);
  }

  /** The enumerator's identifier as written in the enum declaration. */
  function EnumName(k: TokenKind): string {
    match k
    case KwPrivate => "kw_private" case KwPublic => "kw_public" case KwClass => "kw_class"
    case KwMatch => "kw_match" case KwConstructor => "kw_Constructor"
    case KwOptions => "kw_Options" case KwSome => "kw_Some" case KwNone => "kw_None"
    case KwSelf => "kw_self" case KwNew => "kw_new" case KwWhile => "kw_while"
    case KwTrue => "kw_true"
    case TypeI32 => "type_i32" case TypeF64 => "type_f64" case TypeName => "type_name"
    case Identifier => "identifier"
    case LitInteger => "lit_integer" case LitFloat => "lit_float"
    case LitString => "lit_string" case LitBool => "lit_bool"
    case OpAssign => "op_assign" case OpMove => "op_move" case OpArrow => "op_arrow"
    case OpPlus => "op_plus" case OpMinus => "op_minus" case OpMult => "op_mult"
    case OpDiv => "op_div" case OpIntDiv => "op_int_div" case OpMod => "op_mod"
    case OpDot => "op_dot" case OpAndEqual => "op_and_equal"
    case OpEq => "op_eq" case OpNeq => "op_neq" case OpLt => "op_lt" case OpGt => "op_gt"
    case OpLe => "op_le" case OpGe => "op_ge"
    case DelimLbrace => "delim_lbrace" case DelimRbrace => "delim_rbrace"
    case DelimLparen => "delim_lparen" case DelimRparen => "delim_rparen"
    case DelimSemicolon => "delim_semicolon" case DelimComma => "delim_comma"
    case DelimColon => "delim_colon" case DelimArrow => "delim_arrow"
    case Comment => "comment" case Whitespace => "whitespace" case Eof => "eof"
    case Unknown => "unknown"
  }

  /** The categories of the enum's section comments. */
  predicate IsKeywordKind(k: TokenKind) { Ord(k) <= 11 }
  predicate IsTypeKind(k: TokenKind) { 12 <= Ord(k) <= 14 }
  predicate IsLiteralKind(k: TokenKind) { 16 <= Ord(k) <= 19 }
  predicate IsOperatorKind(k: TokenKind) { 20 <= Ord(k) <= 36 }
  predicate IsDelimiterKind(k: TokenKind) { 37 <= Ord(k) <= 44 }

  /** One row of the static token table. A C null pointer is `None`. */
  datatype TokenInfo = TokenInfo(
    name: Option<string>,
    spelling: Option<string>,
    precedence: int,
    isLeftAssociative: bool,
    isKeyword: bool,
    isOperator: bool,
    isDelimiter: bool,
    isLiteral: bool)

  /** A zero-initialised row: what a static array holds past its initialisers. */
  const ZeroInfo := TokenInfo(None, None, 0, false, false, false, false, false)

  /** A token: immutable once constructed; the C++ getters return these fields. */
  datatype Token = Token(kind: TokenKind, lexeme: string, line: nat, column: nat)

  /** `Token::getName` given the token's table row. */
  function NameOrUnnamed(info: TokenInfo): (s: string)
    ensures info.name.Some? ==> s == info.name.value
    ensures info.name.None? ==> s == "<unnamed_token>"
  {
    info.name.GetOr("<unnamed_token>")
  }

  /** `Token::getNameSafe` given the token's table row and kind. */
  function NameSafe(info: TokenInfo, k: TokenKind): string {
    if info.name.Some? then info.name.value
    else "<missing_name kind=" + NatToString(Ord(k)) + ">"
  }

  /** `Token::toString`: `name 'lexeme' at line:column`. */
  function Describe(name: string, t: Token): string {
    name + " '" + t.lexeme + "' at " + NatToString(t.line) + ":" + NatToString(t.column)
  }

  /** The position suffix of a description determines the line and column:
      digits never contain ':', so `line:column` splits in one way only. */
  lemma PositionSuffixInjective(l1: nat, c1: nat, l2: nat, c2: nat)
    requires NatToString(l1) + ":" + NatToString(c1) == NatToString(l2) + ":" + NatToString(c2)
    ensures l1 == l2 && c1 == c2
  {
    DigitsThenSeparator(NatToString(l1), NatToString(c1), NatToString(l2), NatToString(c2), ':');
    NatToStringInjective(l1, l2);
    NatToStringInjective(c1, c2);
  }

  /** The keyword map of `TokenTable::getKindFromSpelling`: both token tables
      of this vocabulary declare the same fourteen entries. */
  const KeywordSpellings: map<string, TokenKind> := map[
    "private" := KwPrivate,
    "public" := KwPublic,
    "class" := KwClass,
    "match" := KwMatch,
    "Constructor" := KwConstructor,
    "Options" := KwOptions,
    "Some" := KwSome,
    "None" := KwNone,
    "self" := KwSelf,
    "new" := KwNew,
    "while" := KwWhile,
    "true" := KwTrue,
    "i32" := TypeI32,
    "f64" := TypeF64
  ]

  /** `TokenTable::getKindFromSpelling`: an exact, case-sensitive lookup. */
  function GetKindFromSpelling(s: string): (r: Option<TokenKind>)
    ensures r.Some? ==> (IsKeywordKind(r.value) || r.value == TypeI32 || r.value == TypeF64)
  {
    if s in KeywordSpellings then Some(KeywordSpellings[s]) else None
  }
}
