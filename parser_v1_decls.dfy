/** What the V1 grammar builds for declarations: the member dispatch of a
    class body, fields without visibility, constructors without a return
    type, sum-type variants, and the declaration loop of `parse`. */
module V1DeclFacts {
  import opened Wrappers
  import opened TokenKinds
  import opened AstV1
  import opened V1Grammar
  import SeqFacts

  /** A `Block` with no statements, `{ }`, at `j`. */
  lemma EmptyBlock(ts: seq<Token>, j: nat)
    requires j + 2 <= |ts| && ts[j].kind == DelimLbrace && ts[j + 1].kind == DelimRbrace
    ensures BlockAt(ts, j) == Done(Block([]), j + 2)
  {
    assert StmtsLoop(ts, [], j + 1) == Done([], j + 1);
  }

  /** An empty parameter list, `( )`, at `j` after a method's name. */
  lemma NoParameters(ts: seq<Token>, j: nat)
    requires j + 2 <= |ts| && ts[j].kind == DelimLparen && ts[j + 1].kind == DelimRparen
    ensures Consume(ts, j, DelimLparen, MethodOpen).Done?
    ensures ParamsLoop(ts, [], j + 1) == Done([], j + 1)
  {
  }

  /** `name : T ;` read by `parseVarDecl`. */
  lemma FieldDecl(ts: seq<Token>, q: nat)
    requires q + 4 <= |ts| && ts[q].kind == Identifier && ts[q + 1].kind == DelimColon
    requires ts[q + 2].kind == Identifier && ts[q + 3].kind == DelimSemicolon
    ensures VarDeclAt(ts, q) == Done(VarDecl(false, ts[q].lexeme, Some(Named(ts[q + 2].lexeme)), None), q + 4)
  {
    assert TypeAt(ts, q + 2) == Done(Named(ts[q + 2].lexeme), q + 3);
    assert InitializerAt(ts, q + 3) == Done(None, q + 3);
  }

  /** `name : T ;` is a field, whatever visibility stood in front of it:
      fields keep none, and carry no initializer. */
  lemma FieldMemberShape(ts: seq<Token>, q: nat, isPublic: bool)
    requires q + 4 <= |ts| && ts[q].kind == Identifier && ts[q + 1].kind == DelimColon
    requires ts[q + 2].kind == Identifier && ts[q + 3].kind == DelimSemicolon
    ensures MemberAt(ts, q, isPublic)
         == Done(FieldMember(VarDecl(false, ts[q].lexeme, Some(Named(ts[q + 2].lexeme)), None)), q + 4)
  {
    assert !Check(ts, q, KwConstructor) && Check(ts, q, Identifier) && !Check(ts, q + 1, DelimLparen);
    FieldDecl(ts, q);
  }

  /** A missing `;` after a field: the error names the token found instead. */
  lemma FieldWithoutSemicolon(ts: seq<Token>, q: nat)
    requires q + 4 <= |ts| && ts[q].kind == Identifier && ts[q + 1].kind == DelimColon
    requires ts[q + 2].kind == Identifier && ts[q + 3].kind == DelimRbrace
    ensures VarDeclAt(ts, q) == Failed(ConsumeFailed(VarSemi, ts[q + 3]))
  {
    assert TypeAt(ts, q + 2) == Done(Named(ts[q + 2].lexeme), q + 3);
    assert InitializerAt(ts, q + 3) == Done(None, q + 3);
  }

  /** `name ( ) -> T { }` read by `parseMethodDecl`. */
  lemma PlainMethodDecl(ts: seq<Token>, q: nat)
    requires q + 7 <= |ts| && ts[q].kind == Identifier && ts[q + 1].kind == DelimLparen
    requires ts[q + 2].kind == DelimRparen && ts[q + 3].kind == OpArrow && ts[q + 4].kind == Identifier
    requires ts[q + 5].kind == DelimLbrace && ts[q + 6].kind == DelimRbrace
    ensures MethodDeclAt(ts, q) == Done(MethodDecl(true, false, ts[q].lexeme, [], Named(ts[q + 4].lexeme), Block([])), q + 7)
  {
    assert MethodNameAt(ts, q) == Done((ts[q].lexeme, false), q + 1);
    NoParameters(ts, q + 1);
    PlainMethodTail(ts, ts[q].lexeme, q + 2);
  }

  /** `) -> T { }` after a method's parameters. */
  lemma PlainMethodTail(ts: seq<Token>, name: string, j: nat)
    requires j + 5 <= |ts| && ts[j].kind == DelimRparen && ts[j + 1].kind == OpArrow && ts[j + 2].kind == Identifier
    requires ts[j + 3].kind == DelimLbrace && ts[j + 4].kind == DelimRbrace
    ensures MethodTail(ts, name, false, [], j) == Done(MethodDecl(true, false, name, [], Named(ts[j + 2].lexeme), Block([])), j + 5)
  {
    assert Consume(ts, j, DelimRparen, ParamsClose) == Done(ts[j], j + 1);
    assert ReturnTypeAt(ts, j + 1, false) == Done(Named(ts[j + 2].lexeme), j + 3);
    EmptyBlock(ts, j + 3);
  }

  /** `name ( ) -> T { }` is a method, with the visibility in front of it. */
  lemma MethodMemberShape(ts: seq<Token>, q: nat, isPublic: bool)
    requires q + 7 <= |ts| && ts[q].kind == Identifier && ts[q + 1].kind == DelimLparen
    requires ts[q + 2].kind == DelimRparen && ts[q + 3].kind == OpArrow && ts[q + 4].kind == Identifier
    requires ts[q + 5].kind == DelimLbrace && ts[q + 6].kind == DelimRbrace
    ensures MemberAt(ts, q, isPublic)
         == Done(MethodMember(MethodDecl(isPublic, false, ts[q].lexeme, [], Named(ts[q + 4].lexeme), Block([]))), q + 7)
  {
    PlainMethodDecl(ts, q);
  }

  /** `Constructor ( ) { }` is a constructor: no `->`, and a nameless
      return type. */
  lemma ConstructorMemberShape(ts: seq<Token>, q: nat, isPublic: bool)
    requires q + 5 <= |ts| && ts[q].kind == KwConstructor && ts[q + 1].kind == DelimLparen
    requires ts[q + 2].kind == DelimRparen && ts[q + 3].kind == DelimLbrace && ts[q + 4].kind == DelimRbrace
    ensures MemberAt(ts, q, isPublic)
         == Done(MethodMember(MethodDecl(isPublic, true, "Constructor", [], Named(""), Block([]))), q + 5)
  {
    NoParameters(ts, q + 1);
    EmptyBlock(ts, q + 3);
    assert MethodTail(ts, "Constructor", true, [], q + 2)
        == Done(MethodDecl(true, true, "Constructor", [], Named(""), Block([])), q + 5);
  }

  /** A member that starts with neither `Constructor` nor an identifier is
      an error with a fixed message. */
  lemma StrayMember(ts: seq<Token>, q: nat, isPublic: bool)
    requires q < |ts| && ts[q].kind != Eof && ts[q].kind != KwConstructor && ts[q].kind != Identifier
    ensures MemberAt(ts, q, isPublic) == Failed(ExpectedMember)
  {
    assert !Check(ts, q, KwConstructor) && !Check(ts, q, Identifier);
  }

  /** `private` in front of a method makes it private; the method is parsed
      from the token after it. */
  lemma PrivateMethod(ts: seq<Token>, j: nat)
    requires j + 8 <= |ts| && ts[j].kind == KwPrivate && ts[j + 1].kind == Identifier
    requires ts[j + 2].kind == DelimLparen && ts[j + 3].kind == DelimRparen && ts[j + 4].kind == OpArrow
    requires ts[j + 5].kind == Identifier && ts[j + 6].kind == DelimLbrace && ts[j + 7].kind == DelimRbrace
    ensures Visibility(ts, j) == (false, j + 1)
    ensures MemberAt(ts, j + 1, false)
         == Done(MethodMember(MethodDecl(false, false, ts[j + 1].lexeme, [], Named(ts[j + 5].lexeme), Block([]))), j + 8)
  {
    MethodMemberShape(ts, j + 1, false);
  }

  /** `class C { }` is a public class with no members. */
  lemma EmptyClass(ts: seq<Token>, j: nat)
    requires j + 3 <= |ts| && ts[j].kind == Identifier && ts[j + 1].kind == DelimLbrace
    requires ts[j + 2].kind == DelimRbrace
    ensures ClassDeclAt(ts, j) == Done(ClassDecl(true, ts[j].lexeme, [], []), j + 3)
  {
    assert MembersLoop(ts, [], [], j + 2) == Done(([], []), j + 2);
  }

  /** A variant with no payload. */
  lemma PlainVariant(ts: seq<Token>, j: nat)
    requires j + 1 < |ts| && ts[j].kind == Identifier && ts[j + 1].kind != DelimLparen
    ensures VariantAt(ts, j) == Done(Variant(ts[j].lexeme, None), j + 1)
  {
    assert PayloadAt(ts, j + 1) == Done(None, j + 1);
  }

  /** A variant with a payload, `name ( T )`. */
  lemma PayloadVariant(ts: seq<Token>, j: nat)
    requires j + 4 <= |ts| && ts[j].kind == Identifier && ts[j + 1].kind == DelimLparen
    requires ts[j + 2].kind == Identifier && ts[j + 3].kind == DelimRparen
    ensures VariantAt(ts, j) == Done(Variant(ts[j].lexeme, Some(Named(ts[j + 2].lexeme))), j + 4)
  {
    assert TypeAt(ts, j + 2) == Done(Named(ts[j + 2].lexeme), j + 3);
    assert PayloadAt(ts, j + 1) == Done(Some(Named(ts[j + 2].lexeme)), j + 4);
  }

  /** A round of the variant loop over `name ,`. */
  lemma PlainVariantThenComma(ts: seq<Token>, vs: seq<Variant>, j: nat)
    requires j + 2 < |ts| && ts[j].kind == Identifier && ts[j + 1].kind == DelimComma
    ensures VariantsLoop(ts, vs, j) == VariantsLoop(ts, vs + [Variant(ts[j].lexeme, None)], j + 2)
  {
    PlainVariant(ts, j);
  }

  /** The last round of the variant loop, over `name ( T ) }`. */
  lemma PayloadVariantThenClose(ts: seq<Token>, vs: seq<Variant>, j: nat)
    requires j + 5 <= |ts| && ts[j].kind == Identifier && ts[j + 1].kind == DelimLparen
    requires ts[j + 2].kind == Identifier && ts[j + 3].kind == DelimRparen && ts[j + 4].kind == DelimRbrace
    ensures VariantsLoop(ts, vs, j) == Done(vs + [Variant(ts[j].lexeme, Some(Named(ts[j + 2].lexeme)))], j + 4)
  {
    PayloadVariant(ts, j);
  }

  /** `Options S { A , B ( T ) }`: the comma is optional and a payload is
      a type in parentheses. */
  lemma TwoVariants(ts: seq<Token>, j: nat)
    requires j + 9 <= |ts| && ts[j].kind == Identifier && ts[j + 1].kind == DelimLbrace
    requires ts[j + 2].kind == Identifier && ts[j + 3].kind == DelimComma
    requires ts[j + 4].kind == Identifier && ts[j + 5].kind == DelimLparen
    requires ts[j + 6].kind == Identifier && ts[j + 7].kind == DelimRparen && ts[j + 8].kind == DelimRbrace
    ensures SumTypeDeclAt(ts, j)
         == Done(SumTypeDecl(ts[j].lexeme, [], [Variant(ts[j + 2].lexeme, None),
                                                Variant(ts[j + 4].lexeme, Some(Named(ts[j + 6].lexeme)))]), j + 9)
  {
    assert Consume(ts, j, Identifier, SumName) == Done(ts[j], j + 1);
    assert Consume(ts, j + 1, DelimLbrace, SumOpen) == Done(ts[j + 1], j + 2);
    TwoVariantsLoop(ts, j + 2);
  }

  /** The variant loop of `TwoVariants`. */
  lemma TwoVariantsLoop(ts: seq<Token>, j: nat)
    requires j + 7 <= |ts| && ts[j].kind == Identifier && ts[j + 1].kind == DelimComma
    requires ts[j + 2].kind == Identifier && ts[j + 3].kind == DelimLparen
    requires ts[j + 4].kind == Identifier && ts[j + 5].kind == DelimRparen && ts[j + 6].kind == DelimRbrace
    ensures VariantsLoop(ts, [], j)
         == Done([Variant(ts[j].lexeme, None), Variant(ts[j + 2].lexeme, Some(Named(ts[j + 4].lexeme)))], j + 6)
  {
    var a := Variant(ts[j].lexeme, None);
    var b := Variant(ts[j + 2].lexeme, Some(Named(ts[j + 4].lexeme)));
    PlainVariantThenComma(ts, [], j);
    assert [] + [a] == [a];
    PayloadVariantThenClose(ts, [a], j + 2);
    assert [a] + [b] == [a, b];
  }

  /** `parseDeclaration` skips exactly the `;` run in front of it. */
  lemma {:induction false} SkipsSemicolonRun(ts: seq<Token>, pos: nat, e: nat)
    requires pos <= e <= |ts| && !Check(ts, e, DelimSemicolon)
    requires forall k :: pos <= k < e ==> ts[k].kind == DelimSemicolon
    ensures SkipSemicolons(ts, pos) == e
    decreases e - pos
  {
    if pos < e {
      SkipsSemicolonRun(ts, pos + 1, e);
    }
  }

  /** `r` with `pre` in front of its declarations. */
  function Prefixed(pre: seq<Decl>, r: Step<Program>): Step<Program> {
    match r
    case Done(p, k) => Done(Program(pre + p.declarations), k)
    case Failed(m) => Failed(m)
  }

  /** The declarations already pushed stay in front, in order; the outcome
      of the rest does not depend on them, and an error is the same error. */
  lemma {:induction false} ParseLoopKeepsPrefix(ts: seq<Token>, decls: seq<Decl>, pos: nat)
    requires |ts| > 0 && pos <= |ts|
    ensures ParseLoop(ts, decls, pos) == Prefixed(decls, ParseLoop(ts, [], pos))
    decreases |ts| - pos
  {
    if AtEnd(ts, pos) {
      assert decls + [] == decls;
    } else {
      var r := DeclarationAt(ts, pos);
      if r.Done? && r.value.Some? {
        var d := r.value.value;
        assert ParseLoop(ts, decls, pos) == ParseLoop(ts, decls + [d], r.next);
        assert ParseLoop(ts, [], pos) == ParseLoop(ts, [] + [d], r.next);
        ParseLoopKeepsPrefix(ts, decls + [d], r.next);
        assert [] + [d] == [d];
        ParseLoopKeepsPrefix(ts, [d], r.next);
        var rest := ParseLoop(ts, [], r.next);
        if rest.Done? {
          SeqFacts.AppendAssoc(decls, [d], rest.value.declarations);
        }
      } else if r.Done? {
        assert ParseLoop(ts, decls, pos) == Done(Program(decls), r.next);
        assert decls + [] == decls;
      }
    }
  }

  /** A list of `;` and a final `eof` is an empty program. */
  lemma SemicolonsOnly(ts: seq<Token>)
    requires |ts| > 0 && ts[|ts| - 1].kind == Eof
    requires forall k :: 0 <= k < |ts| - 1 ==> ts[k].kind == DelimSemicolon
    ensures Parse(ts) == Ok(Program([]))
  {
    var e := |ts| - 1;
    SkipsSemicolonRun(ts, 0, e);
    if 0 < e {
      assert DeclarationAt(ts, 0) == Done(None, e);
      assert ParseLoop(ts, [], e) == Done(Program([]), e);
    }
  }

  /** Anything at the top level other than `;`, `class` or `Options` is an
      error that ends the whole parse. */
  lemma StrayTopLevelToken(ts: seq<Token>)
    requires |ts| > 0 && ts[0].kind !in {Eof, DelimSemicolon, KwClass, KwOptions}
    ensures Parse(ts) == Err(ExpectedDeclaration(ts[0]))
  {
    assert SkipSemicolons(ts, 0) == 0;
  }

  /** `class C { } eof` parses to the one class. */
  lemma OneEmptyClass(ts: seq<Token>)
    requires |ts| == 5 && ts[0].kind == KwClass && ts[1].kind == Identifier
    requires ts[2].kind == DelimLbrace && ts[3].kind == DelimRbrace && ts[4].kind == Eof
    ensures Parse(ts) == Ok(Program([ClassDecl(true, ts[1].lexeme, [], [])]))
  {
    var c := ClassDecl(true, ts[1].lexeme, [], []);
    EmptyClass(ts, 1);
    assert SkipSemicolons(ts, 0) == 0;
    assert DeclarationAt(ts, 0) == Done(Some(c), 4);
    assert [] + [c] == [c];
    assert ParseLoop(ts, [c], 4) == Done(Program([c]), 4);
  }
}
