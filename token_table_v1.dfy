/** The V1 static token table: one row per `TokenKind`, in enum order. */
module TokenTableV1 {
  import opened Wrappers
  import opened TokenKinds

  /** `TokenTable::table`: the initialiser at index `i`. */
  function Row(i: nat): TokenInfo
    requires i < NumTokens
  {
    match i
    case 0 => TokenInfo(Some("kw_private"), Some("private"), 0, true, true, false, false, false)
    case 1 => TokenInfo(Some("kw_public"), Some("public"), 0, true, true, false, false, false)
    case 2 => TokenInfo(Some("kw_class"), Some("class"), 0, true, true, false, false, false)
    case 3 => TokenInfo(Some("kw_match"), Some("match"), 0, true, true, false, false, false)
    case 4 => TokenInfo(Some("kw_Constructor"), Some("Constructor"), 0, true, true, false, false, false)
    case 5 => TokenInfo(Some("kw_Options"), Some("Options"), 0, true, true, false, false, false)
    case 6 => TokenInfo(Some("kw_Some"), Some("Some"), 0, true, true, false, false, false)
    case 7 => TokenInfo(Some("kw_None"), Some("None"), 0, true, true, false, false, false)
    case 8 => TokenInfo(Some("kw_self"), Some("self"), 0, true, true, false, false, false)
    case 9 => TokenInfo(Some("kw_new"), Some("new"), 0, true, true, false, false, false)
    case 10 => TokenInfo(Some("kw_while"), Some("while"), 0, true, true, false, false, false)
    case 11 => TokenInfo(Some("kw_true"), Some("true"), 0, true, true, false, false, false)
    case 12 => TokenInfo(Some("type_i32"), Some("i32"), 0, true, true, false, false, false)
    case 13 => TokenInfo(Some("type_f64"), Some("f64"), 0, true, true, false, false, false)
    case 14 => TokenInfo(Some("type_name"), None, 0, true, true, false, false, false)
    case 15 => TokenInfo(Some("identifier"), None, 0, true, false, false, false, false)
    case 16 => TokenInfo(Some("lit_integer"), None, 0, true, false, false, false, true)
    case 17 => TokenInfo(Some("lit_float"), None, 0, true, false, false, false, true)
    case 18 => TokenInfo(Some("lit_string"), None, 0, true, false, false, false, true)
    case 19 => TokenInfo(Some("lit_bool"), None, 0, true, false, false, false, true)
    case 20 => TokenInfo(Some("op_assign"), Some("="), 10, true, false, true, false, false)
    case 21 => TokenInfo(Some("op_move"), Some("<-"), 10, true, false, true, false, false)
    case 22 => TokenInfo(Some("op_arrow"), Some("->"), 10, true, false, true, false, false)
    case 23 => TokenInfo(Some("op_plus"), Some("+"), 7, true, false, true, false, false)
    case 24 => TokenInfo(Some("op_minus"), Some("-"), 7, true, false, true, false, false)
    case 25 => TokenInfo(Some("op_mult"), Some("*"), 8, true, false, true, false, false)
    case 26 => TokenInfo(Some("op_div"), Some("/"), 8, true, false, true, false, false)
    case 27 => TokenInfo(Some("op_int_div"), Some("//"), 8, true, false, true, false, false)
    case 28 => TokenInfo(Some("op_mod"), Some("%"), 8, true, false, true, false, false)
    case 29 => TokenInfo(Some("op_dot"), Some("."), 16, true, false, true, false, false)
    case 30 => TokenInfo(Some("op_and_equal"), Some("&="), 10, true, false, true, false, false)
    case 31 => TokenInfo(Some("op_eq"), Some("=="), 6, true, false, true, false, false)
    case 32 => TokenInfo(Some("op_neq"), Some("!="), 6, true, false, true, false, false)
    case 33 => TokenInfo(Some("op_lt"), Some("<"), 6, true, false, true, false, false)
    case 34 => TokenInfo(Some("op_gt"), Some(">"), 6, true, false, true, false, false)
    case 35 => TokenInfo(Some("op_le"), Some("<="), 6, true, false, true, false, false)
    case 36 => TokenInfo(Some("op_ge"), Some(">="), 6, true, false, true, false, false)
    case 37 => TokenInfo(Some("delim_lbrace"), Some("{"), 0, true, false, false, true, false)
    case 38 => TokenInfo(Some("delim_rbrace"), Some("}"), 0, true, false, false, true, false)
    case 39 => TokenInfo(Some("delim_lparen"), Some("("), 0, true, false, false, true, false)
    case 40 => TokenInfo(Some("delim_rparen"), Some(")"), 0, true, false, false, true, false)
    case 41 => TokenInfo(Some("delim_semicolon"), Some(";"), 0, true, false, false, true, false)
    case 42 => TokenInfo(Some("delim_comma"), Some(","), 0, true, false, false, true, false)
    case 43 => TokenInfo(Some("delim_colon"), Some(":"), 0, true, false, false, true, false)
    case 44 => TokenInfo(Some("delim_arrow"), Some("=>"), 0, true, false, false, true, false)
    case 45 => TokenInfo(Some("comment"), None, 0, true, false, false, false, false)
    case 46 => TokenInfo(Some("whitespace"), None, 0, true, false, false, false, false)
    case 47 => TokenInfo(Some("eof"), Some("<EOF>"), 0, true, false, false, false, false)
    case _ => TokenInfo(Some("unknown"), Some("<UNKNOWN>"), 0, true, false, false, false, false)
  }

  /** `TokenTable::getInfo`: the row at the kind's integer value. */
  function GetInfo(k: TokenKind): (info: TokenInfo)
    ensures info.isLeftAssociative
  {
    Row(Ord(k))
  }

  /** Every row is named after its own enumerator, so the table is in enum order. */
  lemma NamesAreEnumNames(k: TokenKind)
    ensures GetInfo(k).name == Some(EnumName(k))
  {
    if Ord(k) < 25 {
      NamesAreEnumNamesOn0(k);
    } else {
      NamesAreEnumNamesOn1(k);
    }
  }

  lemma NamesAreEnumNamesOn0(k: TokenKind)
    requires Ord(k) < 25
    ensures GetInfo(k).name == Some(EnumName(k))
  {
    match k
    case KwPrivate => case KwPublic => case KwClass => case KwMatch => case KwConstructor => case KwOptions =>
    case KwSome => case KwNone => case KwSelf => case KwNew => case KwWhile => case KwTrue =>
    case TypeI32 => case TypeF64 => case TypeName => case Identifier => case LitInteger => case LitFloat =>
    case LitString => case LitBool => case OpAssign => case OpMove => case OpArrow => case OpPlus =>
    case OpMinus =>
    case _ =>
  }

  lemma NamesAreEnumNamesOn1(k: TokenKind)
    requires 25 <= Ord(k) < 49
    ensures GetInfo(k).name == Some(EnumName(k))
  {
    match k
    case OpMult => case OpDiv => case OpIntDiv => case OpMod => case OpDot => case OpAndEqual =>
    case OpEq => case OpNeq => case OpLt => case OpGt => case OpLe => case OpGe =>
    case DelimLbrace => case DelimRbrace => case DelimLparen => case DelimRparen => case DelimSemicolon => case DelimComma =>
    case DelimColon => case DelimArrow => case Comment => case Whitespace => case Eof => case Unknown =>
    case _ =>
  }

  /** The classification flags follow the enum's sections: keywords and type
      names, operators, delimiters and literals, and nothing else. */
  lemma FlagsFollowSections(k: TokenKind)
    ensures GetInfo(k).isKeyword <==> IsKeywordKind(k) || IsTypeKind(k)
    ensures GetInfo(k).isOperator <==> IsOperatorKind(k)
    ensures GetInfo(k).isDelimiter <==> IsDelimiterKind(k)
    ensures GetInfo(k).isLiteral <==> IsLiteralKind(k)
  {
    if Ord(k) < 25 {
      FlagsFollowSectionsOn0(k);
    } else {
      FlagsFollowSectionsOn1(k);
    }
  }

  lemma FlagsFollowSectionsOn0(k: TokenKind)
    requires Ord(k) < 25
    ensures GetInfo(k).isKeyword <==> IsKeywordKind(k) || IsTypeKind(k)
    ensures GetInfo(k).isOperator <==> IsOperatorKind(k)
    ensures GetInfo(k).isDelimiter <==> IsDelimiterKind(k)
    ensures GetInfo(k).isLiteral <==> IsLiteralKind(k)
  {
    match k
    case KwPrivate => case KwPublic => case KwClass => case KwMatch => case KwConstructor => case KwOptions =>
    case KwSome => case KwNone => case KwSelf => case KwNew => case KwWhile => case KwTrue =>
    case TypeI32 => case TypeF64 => case TypeName => case Identifier => case LitInteger => case LitFloat =>
    case LitString => case LitBool => case OpAssign => case OpMove => case OpArrow => case OpPlus =>
    case OpMinus =>
    case _ =>
  }

  lemma FlagsFollowSectionsOn1(k: TokenKind)
    requires 25 <= Ord(k) < 49
    ensures GetInfo(k).isKeyword <==> IsKeywordKind(k) || IsTypeKind(k)
    ensures GetInfo(k).isOperator <==> IsOperatorKind(k)
    ensures GetInfo(k).isDelimiter <==> IsDelimiterKind(k)
    ensures GetInfo(k).isLiteral <==> IsLiteralKind(k)
  {
    match k
    case OpMult => case OpDiv => case OpIntDiv => case OpMod => case OpDot => case OpAndEqual =>
    case OpEq => case OpNeq => case OpLt => case OpGt => case OpLe => case OpGe =>
    case DelimLbrace => case DelimRbrace => case DelimLparen => case DelimRparen => case DelimSemicolon => case DelimComma =>
    case DelimColon => case DelimArrow => case Comment => case Whitespace => case Eof => case Unknown =>
    case _ =>
  }

  /** The binding powers the table assigns, grouped by operator family. */
  function BindingPower(k: TokenKind): int {
    match k
    case OpAssign | OpMove | OpArrow | OpAndEqual => 10
    case OpPlus | OpMinus => 7
    case OpMult | OpDiv | OpIntDiv | OpMod => 8
    case OpDot => 16
    case OpEq | OpNeq | OpLt | OpGt | OpLe | OpGe => 6
    case _ => 0
  }

  /** Only operators bind, at the powers of their family. */
  lemma PrecedenceIsBindingPower(k: TokenKind)
    ensures GetInfo(k).precedence == BindingPower(k)
    ensures GetInfo(k).precedence != 0 ==> IsOperatorKind(k)
  {
    if Ord(k) < 20 {
      PrecedenceIsBindingPowerOn0(k);
    } else if Ord(k) < 30 {
      PrecedenceIsBindingPowerOn1(k);
    } else if Ord(k) < 40 {
      PrecedenceIsBindingPowerOn2(k);
    } else {
      PrecedenceIsBindingPowerOn3(k);
    }
  }

  lemma PrecedenceIsBindingPowerOn0(k: TokenKind)
    requires Ord(k) < 20
    ensures GetInfo(k).precedence == BindingPower(k)
    ensures GetInfo(k).precedence != 0 ==> IsOperatorKind(k)
  {
    match k
    case KwPrivate => case KwPublic => case KwClass => case KwMatch => case KwConstructor => case KwOptions =>
    case KwSome => case KwNone => case KwSelf => case KwNew => case KwWhile => case KwTrue =>
    case TypeI32 => case TypeF64 => case TypeName => case Identifier => case LitInteger => case LitFloat =>
    case LitString => case LitBool =>
    case _ =>
  }

  lemma PrecedenceIsBindingPowerOn1(k: TokenKind)
    requires 20 <= Ord(k) < 30
    ensures GetInfo(k).precedence == BindingPower(k)
    ensures GetInfo(k).precedence != 0 ==> IsOperatorKind(k)
  {
    match k
    case OpAssign => case OpMove => case OpArrow => case OpPlus => case OpMinus => case OpMult =>
    case OpDiv => case OpIntDiv => case OpMod => case OpDot =>
    case _ =>
  }

  lemma PrecedenceIsBindingPowerOn2(k: TokenKind)
    requires 30 <= Ord(k) < 40
    ensures GetInfo(k).precedence == BindingPower(k)
    ensures GetInfo(k).precedence != 0 ==> IsOperatorKind(k)
  {
    match k
    case OpAndEqual => case OpEq => case OpNeq => case OpLt => case OpGt => case OpLe =>
    case OpGe => case DelimLbrace => case DelimRbrace => case DelimLparen =>
    case _ =>
  }

  lemma PrecedenceIsBindingPowerOn3(k: TokenKind)
    requires 40 <= Ord(k) < 49
    ensures GetInfo(k).precedence == BindingPower(k)
    ensures GetInfo(k).precedence != 0 ==> IsOperatorKind(k)
  {
    match k
    case DelimRparen => case DelimSemicolon => case DelimComma => case DelimColon => case DelimArrow => case Comment =>
    case Whitespace => case Eof => case Unknown =>
    case _ =>
  }

  /** The kinds whose row has no spelling are those whose text varies. */
  lemma SpellingMissingExactly(k: TokenKind)
    ensures GetInfo(k).spelling.None? <==>
      k in {TypeName, Identifier, LitInteger, LitFloat, LitString, LitBool, Comment, Whitespace}
  {
    if Ord(k) < 25 {
      SpellingMissingExactlyOn0(k);
    } else {
      SpellingMissingExactlyOn1(k);
    }
  }

  lemma SpellingMissingExactlyOn0(k: TokenKind)
    requires Ord(k) < 25
    ensures GetInfo(k).spelling.None? <==>
      k in {TypeName, Identifier, LitInteger, LitFloat, LitString, LitBool, Comment, Whitespace}
  {
    match k
    case KwPrivate => case KwPublic => case KwClass => case KwMatch => case KwConstructor => case KwOptions =>
    case KwSome => case KwNone => case KwSelf => case KwNew => case KwWhile => case KwTrue =>
    case TypeI32 => case TypeF64 => case TypeName => case Identifier => case LitInteger => case LitFloat =>
    case LitString => case LitBool => case OpAssign => case OpMove => case OpArrow => case OpPlus =>
    case OpMinus =>
    case _ =>
  }

  lemma SpellingMissingExactlyOn1(k: TokenKind)
    requires 25 <= Ord(k) < 49
    ensures GetInfo(k).spelling.None? <==>
      k in {TypeName, Identifier, LitInteger, LitFloat, LitString, LitBool, Comment, Whitespace}
  {
    match k
    case OpMult => case OpDiv => case OpIntDiv => case OpMod => case OpDot => case OpAndEqual =>
    case OpEq => case OpNeq => case OpLt => case OpGt => case OpLe => case OpGe =>
    case DelimLbrace => case DelimRbrace => case DelimLparen => case DelimRparen => case DelimSemicolon => case DelimComma =>
    case DelimColon => case DelimArrow => case Comment => case Whitespace => case Eof => case Unknown =>
    case _ =>
  }

  /** Every successful lookup names a keyword row spelled as the lookup key. */
  lemma LookupIsSpelledInTable(s: string)
    ensures GetKindFromSpelling(s).Some? ==>
      GetInfo(GetKindFromSpelling(s).value).isKeyword &&
      GetInfo(GetKindFromSpelling(s).value).spelling == Some(s)
  {
  }

  /** Every spelled keyword row is found by the lookup. */
  lemma TableKeywordsAreLookedUp(k: TokenKind)
    ensures GetInfo(k).isKeyword && GetInfo(k).spelling.Some? ==>
      GetKindFromSpelling(GetInfo(k).spelling.value) == Some(k)
  {
    if Ord(k) < 5 {
      TableKeywordsAreLookedUpOn0(k);
    } else if Ord(k) < 10 {
      TableKeywordsAreLookedUpOn1(k);
    } else if Ord(k) < 15 {
      TableKeywordsAreLookedUpOn2(k);
    } else {
      TableKeywordsAreLookedUpOn3(k);
    }
  }

  lemma TableKeywordsAreLookedUpOn0(k: TokenKind)
    requires Ord(k) < 5
    ensures GetInfo(k).isKeyword && GetInfo(k).spelling.Some? ==>
      GetKindFromSpelling(GetInfo(k).spelling.value) == Some(k)
  {
    match k
    case KwPrivate => case KwPublic => case KwClass => case KwMatch => case KwConstructor =>
    case _ =>
  }

  lemma TableKeywordsAreLookedUpOn1(k: TokenKind)
    requires 5 <= Ord(k) < 10
    ensures GetInfo(k).isKeyword && GetInfo(k).spelling.Some? ==>
      GetKindFromSpelling(GetInfo(k).spelling.value) == Some(k)
  {
    match k
    case KwOptions => case KwSome => case KwNone => case KwSelf => case KwNew =>
    case _ =>
  }

  lemma TableKeywordsAreLookedUpOn2(k: TokenKind)
    requires 10 <= Ord(k) < 15
    ensures GetInfo(k).isKeyword && GetInfo(k).spelling.Some? ==>
      GetKindFromSpelling(GetInfo(k).spelling.value) == Some(k)
  {
    match k
    case KwWhile => case KwTrue => case TypeI32 => case TypeF64 => case TypeName =>
    case _ =>
  }

  lemma TableKeywordsAreLookedUpOn3(k: TokenKind)
    requires 15 <= Ord(k) < 49
    ensures GetInfo(k).isKeyword && GetInfo(k).spelling.Some? ==>
      GetKindFromSpelling(GetInfo(k).spelling.value) == Some(k)
  {
    match k
    case Identifier => case LitInteger => case LitFloat => case LitString => case LitBool => case OpAssign =>
    case OpMove => case OpArrow => case OpPlus => case OpMinus => case OpMult => case OpDiv =>
    case OpIntDiv => case OpMod => case OpDot => case OpAndEqual => case OpEq => case OpNeq =>
    case OpLt => case OpGt => case OpLe => case OpGe => case DelimLbrace => case DelimRbrace =>
    case DelimLparen => case DelimRparen => case DelimSemicolon => case DelimComma => case DelimColon => case DelimArrow =>
    case Comment => case Whitespace => case Eof => case Unknown =>
    case _ =>
  }

  /** The keyword lookup and the table agree in both directions: a spelling
      maps to `k` exactly when `k` is a keyword row spelled that way. */
  lemma KeywordLookupMatchesTable(s: string, k: TokenKind)
    ensures GetKindFromSpelling(s) == Some(k) <==> GetInfo(k).isKeyword && GetInfo(k).spelling == Some(s)
  {
    LookupIsSpelledInTable(s);
    TableKeywordsAreLookedUp(k);
  }
}
