/** The NexusCompiler static token table. Its initialiser list has 44 rows for
    the 49 kinds: the rows for `op_neq` … `op_ge` were never written, so every
    later row sits five places early and the last five slots are zero-filled. */
module TokenTableShort {
  import opened Wrappers
  import opened TokenKinds
  import V1 = TokenTableV1

  /** The number of initialisers in `TokenTable::table`. */
  const InitialisedRows: nat := 44

  /** `TokenTable::table[i]`: the i-th initialiser, or a zeroed row past them. */
  function Row(i: nat): TokenInfo {
    match i
    case 0 => TokenInfo(Some("kw_private"), Some("private"), 0, true, true, false, false, false)
    case 1 => TokenInfo(Some("kw_public"), Some("public"), 0, true, true, false, false, false)
    case 2 => TokenInfo(Some("kw_class"), Some("class"), 0, true, true, false, false, false)
    case 3 => TokenInfo(Some("kw_match"), Some("match"), 0, true, true, false, false, false)
    case 4 => TokenInfo(Some("kw_Constructor"), Some("Constructor"), 0, true, true, false, false, false)
    case 5 => TokenInfo(Some("kw_Options"), Some("Options"), 0, true, true, false, false, false)
    case 6 => TokenInfo(Some("kw_Some"), Some("Some"), 0, true, true, false, false, false)
    case 7 => TokenInfo(Some("kw_None"), Some("None"), 0, true, true, false, false, false)
    case 8 => TokenInfo(Some("kw_self"), Some("self"), 0, true, true, false, false, false)
    case 9 => TokenInfo(Some("kw_new"), Some("new"), 0, true, true, false, false, false)
    case 10 => TokenInfo(Some("kw_while"), Some("while"), 0, true, true, false, false, false)
    case 11 => TokenInfo(Some("kw_true"), Some("true"), 0, true, true, false, false, false)
    case 12 => TokenInfo(Some("type_i32"), Some("i32"), 0, true, true, false, false, false)
    case 13 => TokenInfo(Some("type_f64"), Some("f64"), 0, true, true, false, false, false)
    case 14 => TokenInfo(Some("type_name"), None, 0, true, true, false, false, false)
    case 15 => TokenInfo(Some("identifier"), None, 0, true, false, false, false, false)
    case 16 => TokenInfo(Some("lit_integer"), None, 0, true, false, false, false, true)
    case 17 => TokenInfo(Some("lit_float"), None, 0, true, false, false, false, true)
    case 18 => TokenInfo(Some("lit_string"), None, 0, true, false, false, false, true)
    case 19 => TokenInfo(Some("lit_bool"), None, 0, true, false, false, false, true)
    case 20 => TokenInfo(Some("op_assign"), Some("="), 10, true, false, true, false, false)
    case 21 => TokenInfo(Some("op_move"), Some("<-"), 10, true, false, true, false, false)
    case 22 => TokenInfo(Some("op_arrow"), Some("->"), 10, true, false, true, false, false)
    case 23 => TokenInfo(Some("op_plus"), Some("+"), 7, true, false, true, false, false)
    case 24 => TokenInfo(Some("op_minus"), Some("-"), 7, true, false, true, false, false)
    case 25 => TokenInfo(Some("op_mult"), Some("*"), 8, true, false, true, false, false)
    case 26 => TokenInfo(Some("op_div"), Some("/"), 8, true, false, true, false, false)
    case 27 => TokenInfo(Some("op_int_div"), Some("//"), 8, true, false, true, false, false)
    case 28 => TokenInfo(Some("op_mod"), Some("%"), 8, true, false, true, false, false)
    case 29 => TokenInfo(Some("op_dot"), Some("."), 16, true, false, true, false, false)
    case 30 => TokenInfo(Some("op_and_equal"), Some("&="), 10, true, false, true, false, false)
    case 31 => TokenInfo(Some("op_eq"), Some("=="), 6, true, false, true, false, false)
    case 32 => TokenInfo(Some("delim_lbrace"), Some("{"), 0, true, false, false, true, false)
    case 33 => TokenInfo(Some("delim_rbrace"), Some("}"), 0, true, false, false, true, false)
    case 34 => TokenInfo(Some("delim_lparen"), Some("("), 0, true, false, false, true, false)
    case 35 => TokenInfo(Some("delim_rparen"), Some(")"), 0, true, false, false, true, false)
    case 36 => TokenInfo(Some("delim_semicolon"), Some(";"), 0, true, false, false, true, false)
    case 37 => TokenInfo(Some("delim_comma"), Some(","), 0, true, false, false, true, false)
    case 38 => TokenInfo(Some("delim_colon"), Some(":"), 0, true, false, false, true, false)
    case 39 => TokenInfo(Some("delim_arrow"), Some("=>"), 0, true, false, false, true, false)
    case 40 => TokenInfo(Some("comment"), None, 0, true, false, false, false, false)
    case 41 => TokenInfo(Some("whitespace"), None, 0, true, false, false, false, false)
    case 42 => TokenInfo(Some("eof"), Some("<EOF>"), 0, true, false, false, false, false)
    case 43 => TokenInfo(Some("unknown"), Some("<UNKNOWN>"), 0, true, false, false, false, false)
    case _ => ZeroInfo
  }

  /** `TokenTable::getInfo`: the row at the kind's integer value. */
  function GetInfo(k: TokenKind): (info: TokenInfo)
    ensures Ord(k) >= InitialisedRows ==> info == ZeroInfo
  {
    Row(Ord(k))
  }

  lemma RowsAgreeOn0(i: nat)
    requires i < 16
    ensures Row(i) == V1.Row(i)
  {
    if i == 0 {
    } else if i == 1 {
    } else if i == 2 {
    } else if i == 3 {
    } else if i == 4 {
    } else if i == 5 {
    } else if i == 6 {
    } else if i == 7 {
    } else if i == 8 {
    } else if i == 9 {
    } else if i == 10 {
    } else if i == 11 {
    } else if i == 12 {
    } else if i == 13 {
    } else if i == 14 {
    } else if i == 15 {
    }
  }

  lemma RowsAgreeOn1(i: nat)
    requires 16 <= i < 32
    ensures Row(i) == V1.Row(i)
  {
    if i == 16 {
    } else if i == 17 {
    } else if i == 18 {
    } else if i == 19 {
    } else if i == 20 {
    } else if i == 21 {
    } else if i == 22 {
    } else if i == 23 {
    } else if i == 24 {
    } else if i == 25 {
    } else if i == 26 {
    } else if i == 27 {
    } else if i == 28 {
    } else if i == 29 {
    } else if i == 30 {
    } else if i == 31 {
    }
  }

  lemma RowsShifted(i: nat)
    requires 32 <= i < InitialisedRows
    ensures Row(i) == V1.Row(i + 5)
  {
    if i == 32 {
    } else if i == 33 {
    } else if i == 34 {
    } else if i == 35 {
    } else if i == 36 {
    } else if i == 37 {
    } else if i == 38 {
    } else if i == 39 {
    } else if i == 40 {
    } else if i == 41 {
    } else if i == 42 {
    } else if i == 43 {
    }
  }

  /** Up to `op_eq` the rows are those of the complete table. */
  lemma AgreesBelowOpNeq(k: TokenKind)
    requires Ord(k) < 32
    ensures GetInfo(k) == V1.GetInfo(k)
  {
    if Ord(k) < 16 {
      RowsAgreeOn0(Ord(k));
    } else {
      RowsAgreeOn1(Ord(k));
    }
  }

  /** From `op_neq` on, each slot holds the complete table's row five kinds later. */
  lemma ShiftedFromOpNeq(k: TokenKind)
    requires 32 <= Ord(k) < InitialisedRows
    ensures GetInfo(k) == V1.GetInfo(FromOrd(Ord(k) + 5))
  {
    RowsShifted(Ord(k));
    OrdFromOrd(Ord(k) + 5);
  }

  /** Two instances of the shift. */
  lemma ShiftExamples()
    ensures GetInfo(OpNeq).name == Some("delim_lbrace")
    ensures GetInfo(DelimLbrace).name == Some("delim_comma")
  {
    ShiftedFromOpNeq(OpNeq);
    ShiftedFromOpNeq(DelimLbrace);
    OrdFromOrd(37);
    OrdFromOrd(42);
    V1.NamesAreEnumNames(FromOrd(37));
    V1.NamesAreEnumNames(FromOrd(42));
  }

  /** Exactly the last five kinds have no row of their own. */
  lemma {:induction false} ZeroedExactly(k: TokenKind)
    ensures GetInfo(k) == ZeroInfo <==> k in {DelimArrow, Comment, Whitespace, Eof, Unknown}
    ensures GetInfo(k).name.None? <==> k in {DelimArrow, Comment, Whitespace, Eof, Unknown}
  {
    if Ord(k) < 32 {
      AgreesBelowOpNeq(k);
      V1.NamesAreEnumNames(k);
    } else if Ord(k) < InitialisedRows {
      ShiftedFromOpNeq(k);
      OrdFromOrd(Ord(k) + 5);
      V1.NamesAreEnumNames(FromOrd(Ord(k) + 5));
    }
    assert Ord(k) >= 44 <==> k in {DelimArrow, Comment, Whitespace, Eof, Unknown} by {
      FromOrdOrd(k);
    }
  }

  /** The keyword rows all lie before the shift, so the lookup agrees with
      this table as it does with the complete one. */
  lemma KeywordLookupMatchesTable(s: string, k: TokenKind)
    ensures GetKindFromSpelling(s) == Some(k) <==> GetInfo(k).isKeyword && GetInfo(k).spelling == Some(s)
  {
    V1.KeywordLookupMatchesTable(s, k);
    V1.FlagsFollowSections(k);
    if Ord(k) < 32 {
      AgreesBelowOpNeq(k);
    } else if Ord(k) < InitialisedRows {
      ShiftedFromOpNeq(k);
      OrdFromOrd(Ord(k) + 5);
      V1.FlagsFollowSections(FromOrd(Ord(k) + 5));
    }
  }
}
