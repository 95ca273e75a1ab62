/** The NexusCompiler `Token` class: the same formatting as V1, read through the
    shifted table, so the last five kinds report placeholder names. */
module TokenShort {
  import opened Wrappers
  import opened CType
  import opened TokenKinds
  import Table = TokenTableShort

  /** `Token::getName`. */
  function GetName(t: Token): string {
    NameOrUnnamed(Table.GetInfo(t.kind))
  }

  /** `Token::getNameSafe`. */
  function GetNameSafe(t: Token): string {
    NameSafe(Table.GetInfo(t.kind), t.kind)
  }

  /** `Token::isKeyword`. */
  function IsKeyword(t: Token): bool {
    Table.GetInfo(t.kind).isKeyword
  }

  /** `Token::isOperator`. */
  function IsOperator(t: Token): bool {
    Table.GetInfo(t.kind).isOperator
  }

  /** `Token::getPrecedence`. */
  function GetPrecedence(t: Token): int {
    Table.GetInfo(t.kind).precedence
  }

  /** `Token::toString`. */
  function ToString(t: Token): string {
    Describe(GetNameSafe(t), t)
  }

  /** The kinds without an initialiser of their own. */
  predicate Unnamed(k: TokenKind) {
    k in {DelimArrow, Comment, Whitespace, Eof, Unknown}
  }

  /** `getName` falls back to the placeholder exactly for the last five kinds. */
  lemma UnnamedTokens(t: Token)
    ensures Unnamed(t.kind) ==> GetName(t) == "<unnamed_token>"
    ensures !Unnamed(t.kind) ==> Table.GetInfo(t.kind).name.Some? && GetName(t) == Table.GetInfo(t.kind).name.value
    ensures Unnamed(t.kind) ==> GetNameSafe(t) == "<missing_name kind=" + NatToString(Ord(t.kind)) + ">"
  {
    Table.ZeroedExactly(t.kind);
  }

  /** The safe name of an unnamed kind still tells the kinds apart. */
  lemma {:induction false} MissingNamesDistinct(a: Token, b: Token)
    requires Unnamed(a.kind) && Unnamed(b.kind)
    requires GetNameSafe(a) == GetNameSafe(b)
    ensures a.kind == b.kind
  {
    UnnamedTokens(a);
    UnnamedTokens(b);
    var p := "<missing_name kind=";
    var da, db := NatToString(Ord(a.kind)), NatToString(Ord(b.kind));
    assert GetNameSafe(a) == p + (da + [ '>' ] + []);
    assert GetNameSafe(b) == p + (db + [ '>' ] + []);
    assert da + ['>'] + [] == GetNameSafe(a)[|p|..] == db + ['>'] + [];
    DigitsThenSeparator(da, [], db, [], '>');
    NatToStringInjective(Ord(a.kind), Ord(b.kind));
    OrdInjective(a.kind, b.kind);
  }
}
