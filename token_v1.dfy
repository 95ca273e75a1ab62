/** The V1 `Token` class: name lookups and formatting through the complete table. */
module TokenV1 {
  import opened Wrappers
  import opened CType
  import opened TokenKinds
  import Table = TokenTableV1

  /** `Token::getName`. */
  function GetName(t: Token): (s: string)
    ensures s == EnumName(t.kind)
  {
    Table.NamesAreEnumNames(t.kind);
    NameOrUnnamed(Table.GetInfo(t.kind))
  }

  /** `Token::getNameSafe`: with every row named, the fallback is never taken. */
  function GetNameSafe(t: Token): (s: string)
    ensures s == GetName(t)
  {
    Table.NamesAreEnumNames(t.kind);
    NameSafe(Table.GetInfo(t.kind), t.kind)
  }

  /** `Token::isKeyword`. */
  function IsKeyword(t: Token): (b: bool)
    ensures b <==> IsKeywordKind(t.kind) || IsTypeKind(t.kind)
  {
    Table.FlagsFollowSections(t.kind);
    Table.GetInfo(t.kind).isKeyword
  }

  /** `Token::isOperator`. */
  function IsOperator(t: Token): (b: bool)
    ensures b <==> IsOperatorKind(t.kind)
  {
    Table.FlagsFollowSections(t.kind);
    Table.GetInfo(t.kind).isOperator
  }

  /** `Token::getPrecedence`. */
  function GetPrecedence(t: Token): (p: int)
    ensures p == Table.BindingPower(t.kind)
    ensures p != 0 ==> IsOperator(t)
  {
    Table.PrecedenceIsBindingPower(t.kind);
    Table.GetInfo(t.kind).precedence
  }

  /** `Token::toString`. */
  function ToString(t: Token): (s: string)
    ensures s == EnumName(t.kind) + " '" + t.lexeme + "' at " + NatToString(t.line) + ":" + NatToString(t.column)
  {
    Describe(GetNameSafe(t), t)
  }

  /** Two tokens of the same kind and text that print alike sit at the same position. */
  lemma ToStringDeterminesPosition(t1: Token, t2: Token)
    requires t1.kind == t2.kind && t1.lexeme == t2.lexeme
    requires ToString(t1) == ToString(t2)
    ensures t1 == t2
  {
    var prefix := EnumName(t1.kind) + " '" + t1.lexeme + "' at ";
    var s1 := NatToString(t1.line) + ":" + NatToString(t1.column);
    var s2 := NatToString(t2.line) + ":" + NatToString(t2.column);
    assert ToString(t1) == prefix + s1;
    assert ToString(t2) == prefix + s2;
    assert s1 == ToString(t1)[|prefix|..] == s2;
    PositionSuffixInjective(t1.line, t1.column, t2.line, t2.column);
  }
}
