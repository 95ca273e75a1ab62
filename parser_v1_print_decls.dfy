/** Sum types, classes and whole programs of the V1 tree written back out
    as tokens, and the round trip: `parse` of
    NexusCompilerV1/src/Parsing/Parser.cpp reads a written-out program back
    to the same tree. Builds on the statements, parameters, methods and
    fields of `V1Printer`. */
module V1DeclPrinter {
  import opened Wrappers
  import opened TokenKinds
  import opened AstV1
  import opened V1Grammar
  import opened SeqFacts
  import opened V1Printer

  // --------------------------------------------------------------- variants

  /** A variant whose payload, if any, is a named type. */
  predicate VariantOk(v: Variant) {
    v.payload.Some? ==> TypeOk(v.payload.value)
  }

  predicate VariantsOk(vs: seq<Variant>) {
    forall i :: 0 <= i < |vs| ==> VariantOk(vs[i])
  }

  /** `Name [(Type)] ,`: the loop takes a `,` after every variant, the last
      one included. */
  function VariantTokens(v: Variant): (w: seq<Token>)
    ensures 2 <= |w| <= 5
  {
    [Tok(Identifier, v.name)]
    + (if v.payload.Some? then [LParen, TypeToken(v.payload.value), RParen] else [])
    + [Comma]
  }

  function VariantsTokens(vs: seq<Variant>): seq<Token> {
    if vs == [] then [] else VariantTokens(vs[0]) + VariantsTokens(vs[1..])
  }

  /** Where a variant written out from `j` ends, after its `,`. */
  function VariantEnd(j: nat, v: Variant): nat {
    j + |VariantTokens(v)|
  }

  /** Where variants written out from `j` end. */
  function VariantsEnd(j: nat, vs: seq<Variant>): nat {
    j + |VariantsTokens(vs)|
  }

  /** A variant written out from `j`, token by token. */
  ghost predicate VariantAtPos(ts: seq<Token>, j: nat, v: Variant) {
    && VariantOk(v) && j + 2 <= VariantEnd(j, v) <= |ts|
    && ts[j] == Tok(Identifier, v.name) && ts[VariantEnd(j, v) - 1] == Comma
    && (v.payload.Some? ==>
          VariantEnd(j, v) == j + 5 && ts[j + 1] == LParen
          && ts[j + 2] == TypeToken(v.payload.value) && ts[j + 3] == RParen)
    && (v.payload.None? ==> VariantEnd(j, v) == j + 2)
  }

  /** Written-out variants: the first one token by token, and the rest. */
  lemma VariantsSplit(ts: seq<Token>, j: nat, vs: seq<Variant>)
    requires vs != [] && VariantsOk(vs) && HoldsAt(ts, j, VariantsTokens(vs))
    ensures VariantAtPos(ts, j, vs[0]) && VariantsOk(vs[1..])
    ensures HoldsAt(ts, VariantEnd(j, vs[0]), VariantsTokens(vs[1..]))
    ensures VariantsEnd(j, vs) == VariantsEnd(VariantEnd(j, vs[0]), vs[1..])
  {
    var w := VariantTokens(vs[0]);
    HoldsAtSplit(ts, j, w, VariantsTokens(vs[1..]));
    HoldsAtElems(ts, j, w);
    assert ts[j] == w[0] && ts[j + |w| - 1] == w[|w| - 1];
    if vs[0].payload.Some? {
      assert ts[j + 1] == w[1] && ts[j + 2] == w[2] && ts[j + 3] == w[3];
    }
  }

  /** `parseSumTypeDecl`'s variant with a payload, read back up to its `,`. */
  lemma PayloadVariantRead(ts: seq<Token>, j: nat, v: Variant)
    requires VariantAtPos(ts, j, v) && v.payload.Some?
    ensures VariantAt(ts, j) == Done(v, j + 4) && ts[j].kind == Identifier && ts[j + 4] == Comma
  {
    assert v == Variant(ts[j].lexeme, v.payload);
    assert Consume(ts, j, Identifier, VariantName) == Done(ts[j], j + 1);
    assert TypeAt(ts, j + 2) == Done(v.payload.value, j + 3);
    assert Consume(ts, j + 3, DelimRparen, PayloadClose) == Done(ts[j + 3], j + 4);
    assert PayloadAt(ts, j + 1) == Done(v.payload, j + 4);
  }

  /** `parseSumTypeDecl`'s variant without a payload, read back up to its
      `,`. */
  lemma PlainVariantRead(ts: seq<Token>, j: nat, v: Variant)
    requires VariantAtPos(ts, j, v) && v.payload.None?
    ensures VariantAt(ts, j) == Done(v, j + 1) && ts[j].kind == Identifier && ts[j + 1] == Comma
  {
    assert v == Variant(ts[j].lexeme, None);
    assert Consume(ts, j, Identifier, VariantName) == Done(ts[j], j + 1);
    assert PayloadAt(ts, j + 1) == Done(None, j + 1);
  }

  /** One round of the variant loop, from its pieces. */
  lemma VariantsRound(ts: seq<Token>, j: nat, acc: seq<Variant>, v: Variant, k: nat)
    requires j < k < |ts| && ts[j].kind == Identifier
    requires VariantAt(ts, j) == Done(v, k) && ts[k] == Comma
    ensures VariantsLoop(ts, acc, j) == VariantsLoop(ts, acc + [v], k + 1)
  {
    assert MatchAt(ts, k, DelimComma) == k + 1;
  }

  /** One round of the variant loop over a written-out variant. */
  lemma VariantStep(ts: seq<Token>, j: nat, acc: seq<Variant>, v: Variant)
    requires VariantAtPos(ts, j, v)
    ensures VariantsLoop(ts, acc, j) == VariantsLoop(ts, acc + [v], VariantEnd(j, v))
  {
    if v.payload.Some? {
      PayloadVariantRead(ts, j, v);
      VariantsRound(ts, j, acc, v, j + 4);
    } else {
      PlainVariantRead(ts, j, v);
      VariantsRound(ts, j, acc, v, j + 1);
    }
  }

  /** The variant loop stops at `}`. */
  lemma VariantsStop(ts: seq<Token>, j: nat, acc: seq<Variant>)
    requires j < |ts| && ts[j].kind == DelimRbrace
    ensures VariantsLoop(ts, acc, j) == Done(acc, j)
  {
  }

  /** The variant loop reads written-out variants in order. */
  lemma {:induction false} VariantsRoundTrip(ts: seq<Token>, j: nat, acc: seq<Variant>, vs: seq<Variant>)
    requires |ts| > 0 && VariantsOk(vs) && HoldsAt(ts, j, VariantsTokens(vs))
    ensures VariantsEnd(j, vs) <= |ts|
    ensures VariantsLoop(ts, acc, j) == VariantsLoop(ts, acc + vs, VariantsEnd(j, vs))
    decreases vs, 1
  {
    HoldsAtFits(ts, j, VariantsTokens(vs));
    if vs == [] {
      AppendEmpty(acc);
    } else {
      VariantsConsRoundTrip(ts, j, acc, vs);
    }
  }

  lemma {:induction false} VariantsConsRoundTrip(ts: seq<Token>, j: nat, acc: seq<Variant>, vs: seq<Variant>)
    requires |ts| > 0 && vs != [] && VariantsOk(vs) && HoldsAt(ts, j, VariantsTokens(vs))
    requires VariantsEnd(j, vs) <= |ts|
    ensures VariantsLoop(ts, acc, j) == VariantsLoop(ts, acc + vs, VariantsEnd(j, vs))
    decreases vs, 0
  {
    VariantsSplit(ts, j, vs);
    AppendHead(acc, vs);
    VariantStep(ts, j, acc, vs[0]);
    VariantsRoundTrip(ts, VariantEnd(j, vs[0]), acc + [vs[0]], vs[1..]);
  }

  /** The variant list, read from its first variant up to its `}`. */
  lemma VariantsWhole(ts: seq<Token>, s: nat, vs: seq<Variant>, e: nat)
    requires VariantsOk(vs) && HoldsAt(ts, s, VariantsTokens(vs))
    requires e == VariantsEnd(s, vs) && e < |ts| && ts[e] == RBrace
    ensures VariantsLoop(ts, [], s) == Done(vs, e)
  {
    AppendEmpty(vs);
    VariantsStop(ts, e, vs);
    VariantsRoundTrip(ts, s, [], vs);
  }

  // -------------------------------------------------------------- sum types

  /** A sum type as `parseSumTypeDecl` builds it: no generics. */
  predicate SumOk(d: Decl) {
    d.SumTypeDecl? && d.generics == [] && VariantsOk(d.variants)
  }

  /** `Options Name { variants }`. */
  function SumTokens(d: Decl): (w: seq<Token>)
    requires d.SumTypeDecl?
    ensures |w| >= 4 && w[0] == OptionsTok
  {
    [OptionsTok, Tok(Identifier, d.name), LBrace] + VariantsTokens(d.variants) + [RBrace]
  }

  /** Where the `}` of a sum type written out from `j` sits. */
  function SumCloseAt(j: nat, d: Decl): nat
    requires d.SumTypeDecl?
  {
    VariantsEnd(j + 3, d.variants)
  }

  /** The written-out tokens of a sum type hold its parts. */
  lemma SumLaidOut(ts: seq<Token>, j: nat, d: Decl)
    requires d.SumTypeDecl? && HoldsAt(ts, j, SumTokens(d))
    ensures SumCloseAt(j, d) < |ts| && j + |SumTokens(d)| == SumCloseAt(j, d) + 1
    ensures ts[j] == OptionsTok && ts[j + 1] == Tok(Identifier, d.name) && ts[j + 2] == LBrace
    ensures HoldsAt(ts, j + 3, VariantsTokens(d.variants))
    ensures ts[SumCloseAt(j, d)] == RBrace
  {
    var h := [OptionsTok, Tok(Identifier, d.name), LBrace];
    var w := VariantsTokens(d.variants);
    HoldsAtSplit(ts, j, h + w, [RBrace]);
    HoldsAtSplit(ts, j, h, w);
    HoldsAtElems(ts, j, h);
    HoldsAtElems(ts, j + 3 + |w|, [RBrace]);
    assert ts[j] == h[0] && ts[j + 1] == h[1] && ts[j + 2] == h[2];
  }

  /** `Name {`, a variant list and its `}`, as `parseSumTypeDecl` reads
      them after `Options`. */
  ghost predicate SumRead(ts: seq<Token>, j: nat, name: string, vs: seq<Variant>, e: nat) {
    && j + 1 < |ts| && ts[j] == Tok(Identifier, name) && ts[j + 1].kind == DelimLbrace
    && e < |ts| && VariantsLoop(ts, [], j + 2) == Done(vs, e) && ts[e].kind == DelimRbrace
  }

  /** `parseSumTypeDecl` from its pieces. */
  lemma SumFromPieces(ts: seq<Token>, j: nat, name: string, vs: seq<Variant>, e: nat)
    requires SumRead(ts, j, name, vs, e)
    ensures SumTypeDeclAt(ts, j) == Done(SumTypeDecl(name, [], vs), e + 1)
  {
    assert Consume(ts, j, Identifier, SumName) == Done(ts[j], j + 1);
    assert Consume(ts, j + 1, DelimLbrace, SumOpen) == Done(ts[j + 1], j + 2);
    assert Consume(ts, e, DelimRbrace, SumClose) == Done(ts[e], e + 1);
  }

  /** The pieces of a written-out sum type. */
  lemma SumPieces(ts: seq<Token>, j: nat, d: Decl)
    requires SumOk(d) && HoldsAt(ts, j, SumTokens(d))
    ensures j + |SumTokens(d)| == SumCloseAt(j, d) + 1 && ts[j] == OptionsTok
    ensures SumRead(ts, j + 1, d.name, d.variants, SumCloseAt(j, d))
  {
    SumLaidOut(ts, j, d);
    VariantsWhole(ts, j + 3, d.variants, SumCloseAt(j, d));
  }

  /** A written-out sum type reads back, after `Options`, as itself. */
  lemma SumRoundTrip(ts: seq<Token>, j: nat, d: Decl)
    requires SumOk(d) && HoldsAt(ts, j, SumTokens(d))
    ensures j + |SumTokens(d)| <= |ts| && ts[j] == OptionsTok
    ensures SumTypeDeclAt(ts, j + 1) == Done(d, j + |SumTokens(d)|)
  {
    assert d == SumTypeDecl(d.name, [], d.variants);
    SumPieces(ts, j, d);
    SumFromPieces(ts, j + 1, d.name, d.variants, SumCloseAt(j, d));
  }

  // ---------------------------------------------------------------- classes

  /** A class as `parseClassDecl` builds it: public, with fields and
      methods the member loop reads. */
  predicate ClassOk(d: Decl) {
    d.ClassDecl? && d.isPublic && FieldsOk(d.fields) && MethodsOk(d.methods)
  }

  /** `class Name { fields methods }`: the tree keeps fields and methods
      apart, so the fields come first. */
  function ClassTokens(d: Decl): (w: seq<Token>)
    requires d.ClassDecl?
    ensures |w| >= 4 && w[0] == ClassTok
  {
    [ClassTok, Tok(Identifier, d.name), LBrace] + FieldsTokens(d.fields) + MethodsTokens(d.methods) + [RBrace]
  }

  /** Where the methods of a class written out from `j` start, and where
      its `}` sits. */
  function MethodsStart(j: nat, d: Decl): nat
    requires d.ClassDecl?
  {
    j + 3 + |FieldsTokens(d.fields)|
  }

  function ClassCloseAt(j: nat, d: Decl): nat
    requires d.ClassDecl?
  {
    MethodsStart(j, d) + |MethodsTokens(d.methods)|
  }

  /** The written-out tokens of a class hold its parts. */
  lemma ClassLaidOut(ts: seq<Token>, j: nat, d: Decl)
    requires d.ClassDecl? && HoldsAt(ts, j, ClassTokens(d))
    ensures ClassCloseAt(j, d) < |ts| && j + |ClassTokens(d)| == ClassCloseAt(j, d) + 1
    ensures ts[j] == ClassTok && ts[j + 1] == Tok(Identifier, d.name) && ts[j + 2] == LBrace
    ensures HoldsAt(ts, j + 3, FieldsTokens(d.fields))
    ensures HoldsAt(ts, MethodsStart(j, d), MethodsTokens(d.methods))
    ensures ts[ClassCloseAt(j, d)] == RBrace
  {
    var h := [ClassTok, Tok(Identifier, d.name), LBrace];
    var f := FieldsTokens(d.fields);
    var m := MethodsTokens(d.methods);
    HoldsAtSplit(ts, j, h + f + m, [RBrace]);
    HoldsAtSplit(ts, j, h + f, m);
    HoldsAtSplit(ts, j, h, f);
    HoldsAtElems(ts, j, h);
    HoldsAtElems(ts, j + 3 + |f| + |m|, [RBrace]);
    assert ts[j] == h[0] && ts[j + 1] == h[1] && ts[j + 2] == h[2];
  }

  /** A public class written out from `j`: its name, `{`, its fields and
      its methods in turn, and `}`. */
  ghost predicate ClassAt(ts: seq<Token>, j: nat, d: Decl) {
    && d.ClassDecl? && d.isPublic && ClassCloseAt(j, d) < |ts|
    && ts[j + 1] == Tok(Identifier, d.name) && ts[j + 2] == LBrace
    && FieldsAt(ts, j + 3, d.fields) && FieldsEnd(j + 3, d.fields) == MethodsStart(j, d)
    && MethodsAt(ts, MethodsStart(j, d), d.methods)
    && MethodsEnd(MethodsStart(j, d), d.methods) == ClassCloseAt(j, d)
    && ts[ClassCloseAt(j, d)] == RBrace
  }

  /** `Name {`, the members and `}`, as `parseClassDecl` reads them after
      `class`. */
  ghost predicate ClassRead(ts: seq<Token>, j: nat, name: string, fs: seq<VarDecl>, ms: seq<MethodDecl>, e: nat) {
    && j + 1 < |ts| && ts[j] == Tok(Identifier, name) && ts[j + 1].kind == DelimLbrace
    && e < |ts| && MembersLoop(ts, [], [], j + 2) == Done((fs, ms), e) && ts[e].kind == DelimRbrace
  }

  /** `parseClassDecl` from its pieces. */
  lemma ClassFromPieces(ts: seq<Token>, j: nat, name: string, fs: seq<VarDecl>, ms: seq<MethodDecl>, e: nat)
    requires ClassConsumed(ts, j, e) && name == ts[j].lexeme
    requires MembersLoop(ts, [], [], j + 2) == Done((fs, ms), e)
    ensures ClassDeclAt(ts, j) == Done(ClassDecl(true, name, fs, ms), e + 1)
  {
    ClassOverMembers(ts, j);
    ClassClosed(ts, name, MembersLoop(ts, [], [], j + 2), fs, ms, e);
  }

  /** What `parseClassDecl` makes of a given members result `r`, after the name and `{`. */
  ghost function ClassWith(ts: seq<Token>, name: string, r: Step<(seq<VarDecl>, seq<MethodDecl>)>): Step<Decl>
    requires |ts| > 0 && (r.Done? ==> r.next <= |ts|)
  {
    match r
    case Failed(m) => Failed(m)
    case Done((fields, methods), n) =>
      match Consume(ts, n, DelimRbrace, ClassClose)
      case Failed(m) => Failed(m)
      case Done(_, q) => Done(ClassDecl(true, name, fields, methods), q)
  }

  /** Once the name and `{` are consumed, a class declaration is `ClassWith` of its members loop. */
  lemma ClassOverMembers(ts: seq<Token>, j: nat)
    requires j + 1 < |ts|
    requires Consume(ts, j, Identifier, ClassName) == Done(ts[j], j + 1)
    requires Consume(ts, j + 1, DelimLbrace, ClassOpen) == Done(ts[j + 1], j + 2)
    ensures ClassDeclAt(ts, j) == ClassWith(ts, ts[j].lexeme, MembersLoop(ts, [], [], j + 2))
  {
  }

  /** A members result followed by `}` closes the class. */
  lemma ClassClosed(ts: seq<Token>, name: string, r: Step<(seq<VarDecl>, seq<MethodDecl>)>,
                    fs: seq<VarDecl>, ms: seq<MethodDecl>, e: nat)
    requires e < |ts| && r == Done((fs, ms), e)
    requires Consume(ts, e, DelimRbrace, ClassClose) == Done(ts[e], e + 1)
    ensures ClassWith(ts, name, r) == Done(ClassDecl(true, name, fs, ms), e + 1)
  {
  }

  /** The tokens `parseClassDecl` consumes around the members. */
  ghost predicate ClassConsumed(ts: seq<Token>, j: nat, e: nat) {
    && j + 1 < |ts| && e < |ts|
    && Consume(ts, j, Identifier, ClassName) == Done(ts[j], j + 1)
    && Consume(ts, j + 1, DelimLbrace, ClassOpen) == Done(ts[j + 1], j + 2)
    && Consume(ts, e, DelimRbrace, ClassClose) == Done(ts[e], e + 1)
  }

  /** The tokens `parseClassDecl` consumes around the members. */
  lemma ClassConsumes(ts: seq<Token>, j: nat, name: string, fs: seq<VarDecl>, ms: seq<MethodDecl>, e: nat)
    requires ClassRead(ts, j, name, fs, ms, e)
    ensures ClassConsumed(ts, j, e)
  {
    ClassHead(ts, j, name);
    ClassEnd(ts, e);
  }

  /** `}` as `parseClassDecl` consumes it. */
  lemma ClassEnd(ts: seq<Token>, e: nat)
    requires e < |ts| && ts[e].kind == DelimRbrace
    ensures Consume(ts, e, DelimRbrace, ClassClose) == Done(ts[e], e + 1)
  {
  }

  /** `Name {` as `parseClassDecl` consumes them. */
  lemma ClassHead(ts: seq<Token>, j: nat, name: string)
    requires j + 1 < |ts| && ts[j] == Tok(Identifier, name) && ts[j + 1].kind == DelimLbrace
    ensures Consume(ts, j, Identifier, ClassName) == Done(ts[j], j + 1)
    ensures Consume(ts, j + 1, DelimLbrace, ClassOpen) == Done(ts[j + 1], j + 2)
  {
  }

  /** The member loop over fields, then methods, laid out in turn, up to
      `}`. */
  lemma MembersAtWhole(ts: seq<Token>, s: nat, fs: seq<VarDecl>, ms: seq<MethodDecl>, k: nat, e: nat)
    requires |ts| > 0 && FieldsAt(ts, s, fs) && FieldsEnd(s, fs) == k
    requires MethodsAt(ts, k, ms) && MethodsEnd(k, ms) == e && e < |ts| && ts[e] == RBrace
    ensures MembersLoop(ts, [], [], s) == Done((fs, ms), e)
  {
    MethodsEndFits(ts, k, ms);
    FieldsAtWhole(ts, s, fs, k);
    MethodsAtWhole(ts, k, fs, ms, e);
  }

  lemma FieldsAtWhole(ts: seq<Token>, s: nat, fs: seq<VarDecl>, k: nat)
    requires |ts| > 0 && FieldsAt(ts, s, fs) && k == FieldsEnd(s, fs) && k <= |ts|
    ensures MembersLoop(ts, [], [], s) == MembersLoop(ts, fs, [], k)
  {
    FieldsRoundTrip(ts, s, [], [], fs);
    AppendEmpty(fs);
  }

  lemma MethodsAtWhole(ts: seq<Token>, k: nat, fs: seq<VarDecl>, ms: seq<MethodDecl>, e: nat)
    requires |ts| > 0 && MethodsAt(ts, k, ms) && e == MethodsEnd(k, ms) && e < |ts| && ts[e] == RBrace
    ensures MembersLoop(ts, fs, [], k) == Done((fs, ms), e)
  {
    MethodsRoundTrip(ts, k, fs, [], ms);
    AppendEmpty(ms);
    MembersStop(ts, e, fs, ms);
  }

  /** The fields and methods of a written-out class, laid out in turn. */
  lemma ClassFromLayout(ts: seq<Token>, j: nat, d: Decl)
    requires ClassOk(d) && ClassCloseAt(j, d) < |ts|
    requires ts[j + 1] == Tok(Identifier, d.name) && ts[j + 2] == LBrace
    requires HoldsAt(ts, j + 3, FieldsTokens(d.fields))
    requires HoldsAt(ts, MethodsStart(j, d), MethodsTokens(d.methods))
    requires ts[ClassCloseAt(j, d)] == RBrace
    ensures ClassAt(ts, j, d)
  {
    FieldsLaidOut(ts, j + 3, d.fields);
    MethodsLaidOut(ts, MethodsStart(j, d), d.methods);
    MethodsLength(MethodsStart(j, d), d.methods);
  }

  /** The pieces of a class laid out in turn. */
  lemma ClassPieces(ts: seq<Token>, j: nat, d: Decl)
    requires ClassAt(ts, j, d)
    ensures ClassRead(ts, j + 1, d.name, d.fields, d.methods, ClassCloseAt(j, d))
  {
    MembersAtWhole(ts, j + 3, d.fields, d.methods, MethodsStart(j, d), ClassCloseAt(j, d));
  }

  /** `parseClassDecl` over fields and methods laid out in turn. */
  lemma ClassFromAt(ts: seq<Token>, j: nat, d: Decl)
    requires ClassAt(ts, j, d)
    ensures ClassDeclAt(ts, j + 1) == Done(d, ClassCloseAt(j, d) + 1)
  {
    assert d == ClassDecl(true, d.name, d.fields, d.methods);
    ClassPieces(ts, j, d);
    ClassConsumes(ts, j + 1, d.name, d.fields, d.methods, ClassCloseAt(j, d));
    ClassFromPieces(ts, j + 1, d.name, d.fields, d.methods, ClassCloseAt(j, d));
  }

  /** A written-out class reads back, after `class`, as itself. */
  lemma ClassRoundTrip(ts: seq<Token>, j: nat, d: Decl)
    requires ClassOk(d) && HoldsAt(ts, j, ClassTokens(d))
    ensures j + |ClassTokens(d)| <= |ts| && ts[j] == ClassTok
    ensures ClassDeclAt(ts, j + 1) == Done(d, j + |ClassTokens(d)|)
  {
    ClassLaidOut(ts, j, d);
    ClassFromLayout(ts, j, d);
    ClassFromAt(ts, j, d);
  }

  // ----------------------------------------------------------- declarations

  predicate DeclOk(d: Decl) {
    ClassOk(d) || SumOk(d)
  }

  predicate DeclsOk(ds: seq<Decl>) {
    forall i :: 0 <= i < |ds| ==> DeclOk(ds[i])
  }

  function DeclTokens(d: Decl): seq<Token> {
    if d.ClassDecl? then ClassTokens(d) else SumTokens(d)
  }

  function DeclsTokens(ds: seq<Decl>): seq<Token> {
    if ds == [] then [] else DeclTokens(ds[0]) + DeclsTokens(ds[1..])
  }

  /** `parseDeclaration` reads a declaration from `j` to `k`. */
  ghost predicate DeclRead(ts: seq<Token>, j: nat, d: Decl, k: nat) {
    j < k <= |ts| && !AtEnd(ts, j) && DeclarationAt(ts, j) == Done(Some(d), k)
  }

  /** `parseDeclaration` from its pieces: no `;` to skip, then `class`. */
  lemma ClassDeclaration(ts: seq<Token>, j: nat, d: Decl, k: nat)
    requires j < k
    requires k <= |ts|
    requires ts[j] == ClassTok
    requires ClassDeclAt(ts, j + 1) == Done(d, k)
    ensures DeclRead(ts, j, d, k)
  {
    NoSemicolons(ts, j);
    ClassAfter(ts, j, d, k);
  }

  lemma ClassAfter(ts: seq<Token>, j: nat, d: Decl, k: nat)
    requires j < |ts| && ts[j] == ClassTok && ClassDeclAt(ts, j + 1) == Done(d, k)
    ensures DeclarationAfter(ts, j) == Done(Some(d), k)
  {
  }

  /** `parseDeclaration` from its pieces: no `;` to skip, then `Options`. */
  lemma SumDeclaration(ts: seq<Token>, j: nat, d: Decl, k: nat)
    requires j < k <= |ts| && ts[j] == OptionsTok && SumTypeDeclAt(ts, j + 1) == Done(d, k)
    ensures DeclRead(ts, j, d, k)
  {
    NoSemicolons(ts, j);
    SumAfter(ts, j, d, k);
  }

  lemma SumAfter(ts: seq<Token>, j: nat, d: Decl, k: nat)
    requires j < |ts| && ts[j] == OptionsTok && SumTypeDeclAt(ts, j + 1) == Done(d, k)
    ensures DeclarationAfter(ts, j) == Done(Some(d), k)
  {
  }

  /** No `;` to skip before a declaration's keyword. */
  lemma NoSemicolons(ts: seq<Token>, j: nat)
    requires j < |ts| && ts[j].kind != DelimSemicolon
    ensures DeclarationAt(ts, j) == DeclarationAfter(ts, j)
  {
    assert SkipSemicolons(ts, j) == j;
  }

  /** `parseDeclaration` reads a written-out declaration back. */
  lemma DeclarationRoundTrip(ts: seq<Token>, j: nat, d: Decl)
    requires DeclAt(ts, j, d)
    ensures DeclRead(ts, j, d, DeclEnd(j, d))
  {
    if d.ClassDecl? {
      assert ClassOk(d) && DeclTokens(d) == ClassTokens(d);
      ClassDeclRoundTrip(ts, j, d);
    } else {
      assert SumOk(d) && DeclTokens(d) == SumTokens(d);
      SumDeclRoundTrip(ts, j, d);
    }
  }

  lemma ClassDeclRoundTrip(ts: seq<Token>, j: nat, d: Decl)
    requires ClassOk(d) && HoldsAt(ts, j, ClassTokens(d))
    ensures DeclRead(ts, j, d, j + |ClassTokens(d)|)
  {
    ClassRoundTrip(ts, j, d);
    ClassDeclaration(ts, j, d, j + |ClassTokens(d)|);
  }

  lemma SumDeclRoundTrip(ts: seq<Token>, j: nat, d: Decl)
    requires SumOk(d) && HoldsAt(ts, j, SumTokens(d))
    ensures DeclRead(ts, j, d, j + |SumTokens(d)|)
  {
    SumRoundTrip(ts, j, d);
    SumDeclaration(ts, j, d, j + |SumTokens(d)|);
  }

  /** One round of `parse`'s loop, from its pieces. */
  lemma ParseRound(ts: seq<Token>, j: nat, acc: seq<Decl>, d: Decl, k: nat)
    requires DeclRead(ts, j, d, k)
    ensures ParseLoop(ts, acc, j) == ParseLoop(ts, acc + [d], k)
  {
  }

  /** One round of `parse`'s loop over a written-out declaration. */
  lemma DeclStep(ts: seq<Token>, j: nat, acc: seq<Decl>, d: Decl)
    requires DeclAt(ts, j, d)
    ensures DeclEnd(j, d) <= |ts| && ParseLoop(ts, acc, j) == ParseLoop(ts, acc + [d], DeclEnd(j, d))
  {
    DeclarationRoundTrip(ts, j, d);
    ParseRound(ts, j, acc, d, DeclEnd(j, d));
  }

  /** Declarations written out in turn from `j` on, and where they end. */
  ghost predicate DeclsAt(ts: seq<Token>, j: nat, xs: seq<Decl>)
    decreases xs
  {
    if xs == [] then j <= |ts|
    else DeclAt(ts, j, xs[0]) && DeclsAt(ts, DeclEnd(j, xs[0]), xs[1..])
  }

  /** Where a declaration written out from `j` ends. */
  function DeclEnd(j: nat, d: Decl): nat {
    j + |DeclTokens(d)|
  }

  /** A declaration written out from `j` on. */
  ghost predicate DeclAt(ts: seq<Token>, j: nat, d: Decl) {
    DeclOk(d) && HoldsAt(ts, j, DeclTokens(d))
  }

  function DeclsEnd(j: nat, xs: seq<Decl>): nat
    decreases xs
  {
    if xs == [] then j else DeclsEnd(DeclEnd(j, xs[0]), xs[1..])
  }

  /** The written-out tokens of declarations hold each in turn. */
  lemma {:induction false} DeclsLaidOut(ts: seq<Token>, j: nat, xs: seq<Decl>)
    requires DeclsOk(xs) && HoldsAt(ts, j, DeclsTokens(xs))
    ensures DeclsAt(ts, j, xs)
    decreases xs
  {
    if xs == [] {
      HoldsAtFits(ts, j, []);
    } else {
      assert DeclOk(xs[0]) && DeclsOk(xs[1..]);
      HoldsAtSplit(ts, j, DeclTokens(xs[0]), DeclsTokens(xs[1..]));
      DeclsLaidOut(ts, DeclEnd(j, xs[0]), xs[1..]);
    }
  }

  lemma {:induction false} DeclsLength(j: nat, xs: seq<Decl>)
    ensures DeclsEnd(j, xs) == j + |DeclsTokens(xs)|
    decreases xs
  {
    if xs != [] {
      DeclsLength(DeclEnd(j, xs[0]), xs[1..]);
    }
  }

  lemma {:induction false} DeclsEndFits(ts: seq<Token>, j: nat, xs: seq<Decl>)
    requires DeclsAt(ts, j, xs)
    ensures j <= DeclsEnd(j, xs) <= |ts|
    decreases xs
  {
    if xs != [] {
      HoldsAtFits(ts, j, DeclTokens(xs[0]));
      DeclsEndFits(ts, DeclEnd(j, xs[0]), xs[1..]);
    }
  }

  /** `parse`'s loop reads written-out declarations in order. */
  lemma {:induction false} DeclsRoundTrip(ts: seq<Token>, j: nat, acc: seq<Decl>, ds: seq<Decl>)
    requires |ts| > 0 && DeclsAt(ts, j, ds)
    ensures DeclsEnd(j, ds) <= |ts|
    ensures ParseLoop(ts, acc, j) == ParseLoop(ts, acc + ds, DeclsEnd(j, ds))
    decreases ds, 1
  {
    DeclsEndFits(ts, j, ds);
    if ds == [] {
      AppendEmpty(acc);
    } else {
      DeclsConsRoundTrip(ts, j, acc, ds);
    }
  }

  lemma {:induction false} DeclsConsRoundTrip(ts: seq<Token>, j: nat, acc: seq<Decl>, ds: seq<Decl>)
    requires |ts| > 0 && ds != [] && DeclsAt(ts, j, ds) && DeclsEnd(j, ds) <= |ts|
    ensures ParseLoop(ts, acc, j) == ParseLoop(ts, acc + ds, DeclsEnd(j, ds))
    decreases ds, 0
  {
    AppendHead(acc, ds);
    DeclStep(ts, j, acc, ds[0]);
    DeclsRoundTrip(ts, DeclEnd(j, ds[0]), acc + [ds[0]], ds[1..]);
  }

  // --------------------------------------------------------------- programs

  predicate ProgramOk(p: Program) {
    DeclsOk(p.declarations)
  }

  /** A program written out as the lexer hands it over: its declarations,
      then `Eof`. */
  function ProgramTokens(p: Program): (ts: seq<Token>)
    ensures |ts| > 0 && ts[|ts| - 1].kind == Eof
  {
    DeclsTokens(p.declarations) + [EofTok]
  }

  /** `parse` reads a written-out program back to the same tree. */
  lemma ProgramRoundTrip(p: Program)
    requires ProgramOk(p)
    ensures Parse(ProgramTokens(p)) == Ok(p)
  {
    var w := DeclsTokens(p.declarations);
    var ts := ProgramTokens(p);
    HoldsAtWhole([], w, [EofTok]);
    assert [] + w + [EofTok] == ts;
    DeclsLaidOut(ts, 0, p.declarations);
    DeclsLength(0, p.declarations);
    ProgramLoop(ts, p.declarations, |w|);
  }

  /** `parse` over written-out declarations followed by `Eof`. */
  lemma ProgramLoop(ts: seq<Token>, ds: seq<Decl>, e: nat)
    requires |ts| > 0 && DeclsAt(ts, 0, ds) && DeclsEnd(0, ds) == e && e < |ts| && ts[e].kind == Eof
    ensures Parse(ts) == Ok(Program(ds))
  {
    DeclsRoundTrip(ts, 0, [], ds);
    AppendEmpty(ds);
  }
}
