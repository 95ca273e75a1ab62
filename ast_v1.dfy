/** The tree built by the V1 parser (NexusCompilerV1/src/Parsing/AST.h), as
    values, and the value decoding of `LiteralExpr`'s constructor
    (NexusCompilerV1/src/Parsing/AST.cpp). Only the node kinds the parser
    builds are listed. */
module AstV1 {
  import opened Wrappers
  import opened CType
  import opened TokenKinds

  const Int64Min: int := -0x8000_0000_0000_0000
  const Int64Max: int := 0x7FFF_FFFF_FFFF_FFFF

  /** `Type`: the parser sets only the name. */
  datatype Type = Type(name: string, generics: seq<Type>, isArray: bool)

  /** A `Type` holding only a name, as `parseType` builds it. */
  function Named(name: string): Type {
    Type(name, [], false)
  }

  /** `std::variant<int64_t, double, std::string, bool>`; a `double` keeps
      the lexeme it was decoded from. */
  datatype Value = IntValue(i: int) | FloatValue(text: string) | StrValue(s: string) | BoolValue(b: bool)

  datatype Expr =
    | Literal(token: Token, value: Value)
    | IdentifierExpr(name: string)
      /** `left` is null for a unary minus. */
    | Binary(left: Option<Expr>, op: Token, right: Expr)
    | MemberAccess(object: Expr, member: string)
    | Call(callee: Expr, args: seq<Expr>)
    | New(newType: Type, args: seq<Expr>)

  datatype Stmt =
    | ExprStmt(expr: Expr)
    | While(condition: Expr, body: Stmt)
    | Block(statements: seq<Stmt>)

  datatype Param = Param(name: string, paramType: Type)

  datatype VarDecl = VarDecl(isGlobal: bool, name: string, varType: Option<Type>, initializer: Option<Expr>)

  datatype MethodDecl = MethodDecl(isPublic: bool, isConstructor: bool, name: string,
                                   params: seq<Param>, returnType: Type, body: Stmt)

  datatype Variant = Variant(name: string, payload: Option<Type>)

  datatype Decl =
    | ClassDecl(isPublic: bool, name: string, fields: seq<VarDecl>, methods: seq<MethodDecl>)
    | SumTypeDecl(name: string, generics: seq<string>, variants: seq<Variant>)

  datatype Program = Program(declarations: seq<Decl>)

  /** The index after the white space that starts at `i`. */
  function SpacesEnd(s: string, i: nat): (j: nat)
    requires i <= |s|
    ensures i <= j <= |s| && (j < |s| ==> !IsSpace(s[j]))
    ensures forall k :: i <= k < j ==> IsSpace(s[k])
    decreases |s| - i
  {
    if i < |s| && IsSpace(s[i]) then SpacesEnd(s, i + 1) else i
  }

  /** `std::stoll(s)` in base 10: white space, an optional sign and the
      longest run of digits; `None` where it throws, that is when no digit
      follows or the value is outside `int64_t`. */
  function StoLL(s: string): (r: Option<int>)
    ensures r.Some? ==> Int64Min <= r.value <= Int64Max
  {
    var i := SpacesEnd(s, 0);
    var neg := i < |s| && s[i] == '-';
    var rest := if i < |s| && (s[i] == '-' || s[i] == '+') then s[i + 1..] else s[i..];
    var digits := rest[..DigitPrefixLength(rest)];
    if digits == [] then None
    else
      var v: int := DecimalValue(digits);
      var n := if neg then -v else v;
      if Int64Min <= n <= Int64Max then Some(n) else None
  }

  /** The `value` that `LiteralExpr(t)` stores. */
  function LiteralValue(t: Token): Value {
    match t.kind
    case LitInteger => IntValue(StoLL(t.lexeme).GetOr(0))
    case LitFloat => FloatValue(t.lexeme)
    case LitString => StrValue(t.lexeme)
    case KwTrue => BoolValue(t.lexeme == "true")
    case LitBool => BoolValue(t.lexeme == "true")
    case _ => StrValue(t.lexeme)
  }

  /** `LiteralExpr(t)`: the token is kept unchanged beside its value. */
  function LiteralOf(t: Token): (e: Expr)
    ensures e.Literal? && e.token == t
  {
    Literal(t, LiteralValue(t))
  }

  /** A run of digits with nothing else decodes to its decimal value when
      that fits in `int64_t`, and fails when it does not. */
  lemma DigitsDecode(s: string)
    requires |s| > 0 && AllDigits(s)
    ensures DecimalValue(s) <= Int64Max ==> StoLL(s) == Some(DecimalValue(s))
    ensures DecimalValue(s) > Int64Max ==> StoLL(s) == None
  {
    DigitsParse(s);
  }

  /** An integer literal too large for `int64_t` keeps the value 0. */
  lemma OverflowDecodesToZero(s: string)
    requires |s| > 0 && AllDigits(s) && DecimalValue(s) > Int64Max
    ensures LiteralValue(Token(LitInteger, s, 0, 0)) == IntValue(0)
  {
    DigitsDecode(s);
  }

  /** `stoll` on a run of digits reads the whole run. */
  lemma DigitsParse(s: string)
    requires |s| > 0 && AllDigits(s)
    ensures var i := SpacesEnd(s, 0); i == 0 && s[i] != '-' && s[i] != '+'
    ensures s[0..] == s && s[..DigitPrefixLength(s)] == s
  {
    assert !IsSpace(s[0]);
    DigitPrefixLengthOfRun(s, []);
    assert s + [] == s;
  }

  /** Decoding gives back every non-negative `int64_t` from its decimal
      spelling. */
  lemma DecodeRoundTrip(n: nat)
    requires n <= Int64Max
    ensures StoLL(NatToString(n)) == Some(n)
    ensures LiteralValue(Token(LitInteger, NatToString(n), 0, 0)) == IntValue(n)
  {
    NatToStringRoundTrip(n);
    DigitsDecode(NatToString(n));
  }

  /** A minus sign and digits decode to the negated value, down to the
      least `int64_t`. */
  lemma NegativeDecode(s: string)
    requires |s| > 0 && AllDigits(s) && DecimalValue(s) <= -Int64Min
    ensures StoLL("-" + s) == Some(-(DecimalValue(s) as int))
  {
    var t := "-" + s;
    assert t[0] == '-' && !IsSpace(t[0]);
    assert SpacesEnd(t, 0) == 0;
    assert t[1..] == s;
    DigitPrefixLengthOfRun(s, []);
    assert s + [] == s;
    assert s[..DigitPrefixLength(s)] == s;
  }

  /** White space in front is skipped and whatever follows the digits is
      ignored. */
  lemma LeadingSpaceTrailingText()
    ensures StoLL(" 12x") == Some(12)
  {
    var s := " 12x";
    assert SpacesEnd(s, 1) == 1;
    assert s[1..] == "12x";
    assert DigitPrefixLength("12x") == 2 by {
      assert "12x"[1..] == "2x" && "2x"[1..] == "x";
    }
    assert "12x"[..2] == "12";
    assert DecimalValue("12") == 12 by {
      assert "12"[..1] == "1" && "1"[..0] == "";
    }
  }

  /** No digit at all: `stoll` throws and the value is 0. */
  lemma NoDigitsDecodeToZero(s: string)
    requires forall k :: 0 <= k < |s| ==> !IsDigit(s[k])
    ensures StoLL(s) == None
    ensures LiteralValue(Token(LitInteger, s, 0, 0)) == IntValue(0)
  {
    var i := SpacesEnd(s, 0);
    var rest := if i < |s| && (s[i] == '-' || s[i] == '+') then s[i + 1..] else s[i..];
    assert DigitPrefixLength(rest) == 0 by {
      if |rest| > 0 { assert rest[0] in s; }
    }
  }

  /** A boolean literal is true exactly for the text `true`. */
  lemma BoolDecode(t: Token)
    requires t.kind == KwTrue || t.kind == LitBool
    ensures LiteralValue(t).BoolValue? && (LiteralValue(t).b <==> t.lexeme == "true")
  {
  }

  /** A string literal, and a token of any kind without a decoding of its
      own, stores its lexeme unchanged. */
  lemma OtherKindsKeepLexeme(t: Token)
    requires t.kind !in {LitInteger, LitFloat, KwTrue, LitBool}
    ensures LiteralValue(t) == StrValue(t.lexeme)
  {
  }
}
