/** What the V1 grammar builds for given token shapes: left folding of the
    binary ladders, right nesting of `=`, precedence, unary minus and the
    postfix chain. */
module V1Facts {
  import opened Wrappers
  import opened TokenKinds
  import opened AstV1
  import opened V1Grammar

  /** No postfix or multiplicative operator at `k`: a factor ends there. */
  predicate EndsFactor(ts: seq<Token>, k: nat) {
    !Check(ts, k, OpMult) && !Check(ts, k, OpDiv) && !Check(ts, k, OpMod)
    && !Check(ts, k, DelimLparen) && !Check(ts, k, OpDot)
  }

  /** Nor an additive one: a term ends there. */
  predicate EndsTerm(ts: seq<Token>, k: nat) {
    EndsFactor(ts, k) && !Check(ts, k, OpPlus) && !Check(ts, k, OpMinus)
  }

  /** Nor `<` or `>`: a comparison ends there. */
  predicate EndsComparison(ts: seq<Token>, k: nat) {
    EndsTerm(ts, k) && !Check(ts, k, OpLt) && !Check(ts, k, OpGt)
  }

  /** Pairs `op x` from `j` up to `e`, each operator `op` or `op2` and each
      operand an identifier. */
  predicate Run(ts: seq<Token>, j: nat, e: nat, op: TokenKind, op2: TokenKind)
    decreases e - j
  {
    j == e || (j + 2 <= e <= |ts| && (ts[j].kind == op || ts[j].kind == op2) && ts[j + 1].kind == Identifier
               && Run(ts, j + 2, e, op, op2))
  }

  /** The left-nested tree `((left op1 x1) op2 x2) …` of the pairs from `j`
      up to `e`. */
  function LeftNested(left: Expr, ts: seq<Token>, j: nat, e: nat): Expr
    requires j <= e <= |ts|
    decreases e - j
  {
    if j + 2 > e then left
    else LeftNested(Binary(Some(left), ts[j], IdentifierExpr(ts[j + 1].lexeme)), ts, j + 2, e)
  }

  /** The right-nested tree `x0 op1 (x1 op2 (…))` of the identifier at `j`
      and the pairs after it up to `e`. */
  function RightNested(ts: seq<Token>, j: nat, e: nat): Expr
    requires j < e <= |ts|
    decreases e - j
  {
    if j + 3 > e then IdentifierExpr(ts[j].lexeme)
    else Binary(Some(IdentifierExpr(ts[j].lexeme)), ts[j + 1], RightNested(ts, j + 2, e))
  }

  /** An identifier followed by no postfix or multiplicative operator is a
      whole factor. */
  lemma IdentifierFactor(ts: seq<Token>, j: nat)
    requires |ts| > 0 && j < |ts| && Check(ts, j, Identifier) && EndsFactor(ts, j + 1)
    ensures UnaryAt(ts, j) == Done(IdentifierExpr(ts[j].lexeme), j + 1)
    ensures FactorAt(ts, j) == Done(IdentifierExpr(ts[j].lexeme), j + 1)
  {
    var x := IdentifierExpr(ts[j].lexeme);
    assert PrimaryAt(ts, j) == Done(x, j + 1);
    assert CallLoop(ts, x, j + 1) == Done(x, j + 1);
    assert CallAt(ts, j) == Done(x, j + 1);
    assert FactorLoop(ts, x, j + 1) == Done(x, j + 1);
  }

  /** An identifier followed by no operator of the ladder is a whole
      comparison. */
  lemma IdentifierComparison(ts: seq<Token>, j: nat)
    requires |ts| > 0 && j < |ts| && Check(ts, j, Identifier) && EndsComparison(ts, j + 1)
    ensures ComparisonAt(ts, j) == Done(IdentifierExpr(ts[j].lexeme), j + 1)
  {
    var x := IdentifierExpr(ts[j].lexeme);
    IdentifierFactor(ts, j);
    assert TermLoop(ts, x, j + 1) == Done(x, j + 1);
    assert TermAt(ts, j) == Done(x, j + 1);
    assert ComparisonLoop(ts, x, j + 1) == Done(x, j + 1);
  }

  /** Helper: one round of the `+`/`-` loop over an identifier operand. */
  lemma TermLoopStep(ts: seq<Token>, left: Expr, j: nat)
    requires j + 1 < |ts| && (ts[j].kind == OpPlus || ts[j].kind == OpMinus) && ts[j + 1].kind == Identifier
    requires EndsFactor(ts, j + 2)
    ensures TermLoop(ts, left, j) == TermLoop(ts, Binary(Some(left), ts[j], IdentifierExpr(ts[j + 1].lexeme)), j + 2)
  {
    IdentifierFactor(ts, j + 1);
  }

  /** The first position of a run ends a factor. */
  lemma RunStartEndsFactor(ts: seq<Token>, j: nat, e: nat, op: TokenKind, op2: TokenKind)
    requires Run(ts, j, e, op, op2) && EndsComparison(ts, e)
    requires op in {OpPlus, OpMinus, OpAssign} && op2 in {OpPlus, OpMinus, OpAssign}
    ensures EndsFactor(ts, j)
  {
    if j != e {
      assert ts[j].kind == op || ts[j].kind == op2;
    }
  }

  /** Helper: a term is its first factor followed by the `+`/`-` loop. */
  lemma TermUnfold(ts: seq<Token>, j: nat, x: Expr, k: nat)
    requires |ts| > 0 && j <= |ts| && FactorAt(ts, j) == Done(x, k)
    ensures TermAt(ts, j) == TermLoop(ts, x, k)
  {
  }

  /** The `+`/`-` loop folds a run of identifier operands to the left. */
  lemma {:induction false} TermLoopFoldsIdentifiers(ts: seq<Token>, left: Expr, j: nat, e: nat)
    requires |ts| > 0 && j <= e <= |ts| && Run(ts, j, e, OpPlus, OpMinus) && EndsComparison(ts, e)
    ensures TermLoop(ts, left, j) == Done(LeftNested(left, ts, j, e), e)
    decreases e - j
  {
    if j < e {
      var next := Binary(Some(left), ts[j], IdentifierExpr(ts[j + 1].lexeme));
      RunStartEndsFactor(ts, j + 2, e, OpPlus, OpMinus);
      TermLoopStep(ts, left, j);
      TermLoopFoldsIdentifiers(ts, next, j + 2, e);
    } else {
      assert TermLoop(ts, left, j) == Done(left, j);
    }
  }

  /** `x0 op1 x1 … opn xn` with additive operators is a left-nested term. */
  lemma TermFoldsLeft(ts: seq<Token>, j: nat, e: nat)
    requires j < e <= |ts| && ts[j].kind == Identifier && Run(ts, j + 1, e, OpPlus, OpMinus)
    requires EndsComparison(ts, e)
    ensures TermAt(ts, j) == Done(LeftNested(IdentifierExpr(ts[j].lexeme), ts, j + 1, e), e)
  {
    RunStartEndsFactor(ts, j + 1, e, OpPlus, OpMinus);
    IdentifierFactor(ts, j);
    TermUnfold(ts, j, IdentifierExpr(ts[j].lexeme), j + 1);
    TermLoopFoldsIdentifiers(ts, IdentifierExpr(ts[j].lexeme), j + 1, e);
  }

  /** `a - b - c` is `(a - b) - c`. */
  lemma SubtractionAssociatesLeft(ts: seq<Token>)
    requires |ts| == 6 && ts[0].kind == Identifier && ts[2].kind == Identifier && ts[4].kind == Identifier
    requires ts[1].kind == OpMinus && ts[3].kind == OpMinus && ts[5].kind == DelimSemicolon
    ensures TermAt(ts, 0)
         == Done(Binary(Some(Binary(Some(IdentifierExpr(ts[0].lexeme)), ts[1], IdentifierExpr(ts[2].lexeme))),
                        ts[3], IdentifierExpr(ts[4].lexeme)), 5)
  {
    assert Run(ts, 5, 5, OpPlus, OpMinus);
    assert Run(ts, 1, 5, OpPlus, OpMinus);
    TermFoldsLeft(ts, 0, 5);
  }

  /** Helper: an assignment whose comparison is followed by `=`. */
  lemma AssignmentUnfold(ts: seq<Token>, j: nat, x: Expr, k: nat, y: Expr, m: nat)
    requires |ts| > 0 && j <= |ts| && ComparisonAt(ts, j) == Done(x, k) && Check(ts, k, OpAssign)
    requires AssignmentAt(ts, k + 1) == Done(y, m)
    ensures AssignmentAt(ts, j) == Done(Binary(Some(x), ts[k], y), m)
  {
  }

  /** An assignment whose comparison is not followed by `=` is that comparison. */
  lemma AssignmentStop(ts: seq<Token>, j: nat, x: Expr, k: nat)
    requires |ts| > 0 && j <= |ts| && ComparisonAt(ts, j) == Done(x, k) && !Check(ts, k, OpAssign)
    ensures AssignmentAt(ts, j) == Done(x, k)
  {
  }

  /** `x0 = x1 = … = xn` nests to the right, whatever the left operands are. */
  lemma {:induction false} AssignmentNestsRight(ts: seq<Token>, j: nat, e: nat)
    requires j < e <= |ts| && ts[j].kind == Identifier && Run(ts, j + 1, e, OpAssign, OpAssign)
    requires EndsComparison(ts, e) && !Check(ts, e, OpAssign)
    ensures AssignmentAt(ts, j) == Done(RightNested(ts, j, e), e)
    decreases e - j
  {
    var x := IdentifierExpr(ts[j].lexeme);
    if j + 1 < e {
      assert ts[j + 1].kind == OpAssign;
      IdentifierComparison(ts, j);
      AssignmentNestsRight(ts, j + 2, e);
      AssignmentUnfold(ts, j, x, j + 1, RightNested(ts, j + 2, e), e);
    } else {
      IdentifierComparison(ts, j);
      AssignmentStop(ts, j, x, j + 1);
    }
  }

  /** `a = b = c` is `a = (b = c)`. */
  lemma AssignmentAssociatesRight(ts: seq<Token>)
    requires |ts| == 6 && ts[0].kind == Identifier && ts[2].kind == Identifier && ts[4].kind == Identifier
    requires ts[1].kind == OpAssign && ts[3].kind == OpAssign && ts[5].kind == DelimSemicolon
    ensures ExpressionAt(ts, 0)
         == Done(Binary(Some(IdentifierExpr(ts[0].lexeme)), ts[1],
                        Binary(Some(IdentifierExpr(ts[2].lexeme)), ts[3], IdentifierExpr(ts[4].lexeme))), 5)
  {
    assert Run(ts, 5, 5, OpAssign, OpAssign);
    assert Run(ts, 1, 5, OpAssign, OpAssign);
    AssignmentNestsRight(ts, 0, 5);
  }

  /** An identifier followed by no postfix operator is a whole unary
      expression. */
  lemma IdentifierUnary(ts: seq<Token>, j: nat)
    requires j < |ts| && Check(ts, j, Identifier) && !Check(ts, j + 1, DelimLparen) && !Check(ts, j + 1, OpDot)
    ensures UnaryAt(ts, j) == Done(IdentifierExpr(ts[j].lexeme), j + 1)
  {
    var x := IdentifierExpr(ts[j].lexeme);
    assert PrimaryAt(ts, j) == Done(x, j + 1);
    assert CallLoop(ts, x, j + 1) == Done(x, j + 1);
  }

  /** Helper: a factor is its first unary expression followed by the `*`/`/`/`%` loop. */
  lemma FactorUnfold(ts: seq<Token>, j: nat, x: Expr, k: nat)
    requires |ts| > 0 && j <= |ts| && UnaryAt(ts, j) == Done(x, k)
    ensures FactorAt(ts, j) == FactorLoop(ts, x, k)
  {
  }

  /** Helper: one round of the `*`/`/`/`%` loop over a given right operand. */
  lemma FactorLoopStep(ts: seq<Token>, left: Expr, j: nat, y: Expr, k: nat)
    requires j < |ts| && (Check(ts, j, OpMult) || Check(ts, j, OpDiv) || Check(ts, j, OpMod))
    requires UnaryAt(ts, j + 1) == Done(y, k)
    ensures FactorLoop(ts, left, j) == FactorLoop(ts, Binary(Some(left), ts[j], y), k)
  {
  }

  /** Helper: one round of the `+`/`-` loop over a given right operand. */
  lemma TermLoopStepWith(ts: seq<Token>, left: Expr, j: nat, y: Expr, k: nat)
    requires j < |ts| && (Check(ts, j, OpPlus) || Check(ts, j, OpMinus))
    requires FactorAt(ts, j + 1) == Done(y, k)
    ensures TermLoop(ts, left, j) == TermLoop(ts, Binary(Some(left), ts[j], y), k)
  {
  }

  /** `b * c` followed by no further operator of the ladder is one factor. */
  lemma ProductFactor(ts: seq<Token>, j: nat)
    requires j + 3 <= |ts| && ts[j].kind == Identifier && ts[j + 1].kind == OpMult && ts[j + 2].kind == Identifier
    requires EndsFactor(ts, j + 3)
    ensures FactorAt(ts, j)
         == Done(Binary(Some(IdentifierExpr(ts[j].lexeme)), ts[j + 1], IdentifierExpr(ts[j + 2].lexeme)), j + 3)
  {
    var b, c := IdentifierExpr(ts[j].lexeme), IdentifierExpr(ts[j + 2].lexeme);
    var bc := Binary(Some(b), ts[j + 1], c);
    IdentifierUnary(ts, j);
    FactorUnfold(ts, j, b, j + 1);
    IdentifierUnary(ts, j + 2);
    FactorLoopStep(ts, b, j + 1, c, j + 3);
    assert FactorLoop(ts, bc, j + 3) == Done(bc, j + 3);
  }

  /** `a + b * c` is `a + (b * c)`: `*` binds tighter than `+`. */
  lemma MultiplicationBindsTighter(ts: seq<Token>, j: nat)
    requires j + 5 <= |ts|
    requires ts[j].kind == Identifier && ts[j + 1].kind == OpPlus && ts[j + 2].kind == Identifier
    requires ts[j + 3].kind == OpMult && ts[j + 4].kind == Identifier && EndsTerm(ts, j + 5)
    ensures TermAt(ts, j)
         == Done(Binary(Some(IdentifierExpr(ts[j].lexeme)), ts[j + 1],
                        Binary(Some(IdentifierExpr(ts[j + 2].lexeme)), ts[j + 3],
                               IdentifierExpr(ts[j + 4].lexeme))), j + 5)
  {
    var a := IdentifierExpr(ts[j].lexeme);
    var bc := Binary(Some(IdentifierExpr(ts[j + 2].lexeme)), ts[j + 3], IdentifierExpr(ts[j + 4].lexeme));
    IdentifierFactor(ts, j);
    TermUnfold(ts, j, a, j + 1);
    ProductFactor(ts, j + 2);
    TermLoopStepWith(ts, a, j + 1, bc, j + 5);
    assert TermLoop(ts, Binary(Some(a), ts[j + 1], bc), j + 5) == Done(Binary(Some(a), ts[j + 1], bc), j + 5);
  }

  /** A leading minus is a `BinaryExpr` with no left operand. */
  lemma UnaryMinusHasNoLeft(ts: seq<Token>, j: nat)
    requires j + 2 <= |ts| && ts[j].kind == OpMinus && ts[j + 1].kind == Identifier && EndsFactor(ts, j + 2)
    ensures UnaryAt(ts, j) == Done(Binary(None, ts[j], IdentifierExpr(ts[j + 1].lexeme)), j + 2)
  {
    IdentifierFactor(ts, j + 1);
  }

  /** `()` after a callee: a call with no arguments. */
  lemma EmptyCallStep(ts: seq<Token>, callee: Expr, j: nat)
    requires j + 1 < |ts| && ts[j].kind == DelimLparen && ts[j + 1].kind == DelimRparen
    ensures CallLoop(ts, callee, j) == CallLoop(ts, Call(callee, []), j + 2)
  {
    assert ArgsLoop(ts, [], j + 1) == Done([], j + 1);
    assert ArgumentsAt(ts, j + 1) == Done([], j + 2);
  }

  /** `.name` after an expression: a member access. */
  lemma MemberStep(ts: seq<Token>, target: Expr, j: nat)
    requires j + 1 < |ts| && ts[j].kind == OpDot && ts[j + 1].kind == Identifier
    ensures CallLoop(ts, target, j) == CallLoop(ts, MemberAccess(target, ts[j + 1].lexeme), j + 2)
  {
  }

  /** `f().g` is a member access on a call: the postfix forms chain left to
      right. */
  lemma PostfixChainsLeftToRight(ts: seq<Token>, j: nat)
    requires j + 5 <= |ts|
    requires ts[j].kind == Identifier && ts[j + 1].kind == DelimLparen && ts[j + 2].kind == DelimRparen
    requires ts[j + 3].kind == OpDot && ts[j + 4].kind == Identifier
    requires !Check(ts, j + 5, DelimLparen) && !Check(ts, j + 5, OpDot)
    ensures CallAt(ts, j) == Done(MemberAccess(Call(IdentifierExpr(ts[j].lexeme), []), ts[j + 4].lexeme), j + 5)
  {
    var f := IdentifierExpr(ts[j].lexeme);
    var access := MemberAccess(Call(f, []), ts[j + 4].lexeme);
    assert PrimaryAt(ts, j) == Done(f, j + 1);
    EmptyCallStep(ts, f, j + 1);
    MemberStep(ts, Call(f, []), j + 3);
    assert CallLoop(ts, access, j + 5) == Done(access, j + 5);
  }

  // ------------------------------------------------ the binary loops in general

  /** The three left-folding ladders of `parseComparison`, `parseTerm` and
      `parseFactor`. */
  datatype Level = ComparisonLevel | TermLevel | FactorLevel

  /** The operators one round of the level's loop matches. */
  predicate IsLevelOp(ts: seq<Token>, lv: Level, j: nat) {
    match lv
    case ComparisonLevel => Check(ts, j, OpLt) || Check(ts, j, OpGt)
    case TermLevel => Check(ts, j, OpPlus) || Check(ts, j, OpMinus)
    case FactorLevel => Check(ts, j, OpMult) || Check(ts, j, OpDiv) || Check(ts, j, OpMod)
  }

  /** The production that parses one operand of the level. */
  function Operand(ts: seq<Token>, lv: Level, j: nat): Step<Expr>
    requires |ts| > 0 && j <= |ts|
  {
    match lv
    case ComparisonLevel => TermAt(ts, j)
    case TermLevel => FactorAt(ts, j)
    case FactorLevel => UnaryAt(ts, j)
  }

  /** The level's loop, from `j` with `left` built so far. */
  function Loop(ts: seq<Token>, lv: Level, left: Expr, j: nat): Step<Expr>
    requires |ts| > 0 && j <= |ts|
  {
    match lv
    case ComparisonLevel => ComparisonLoop(ts, left, j)
    case TermLevel => TermLoop(ts, left, j)
    case FactorLevel => FactorLoop(ts, left, j)
  }

  /** The level's production: its first operand, then its loop. */
  function LevelAt(ts: seq<Token>, lv: Level, j: nat): Step<Expr>
    requires |ts| > 0 && j <= |ts|
  {
    match lv
    case ComparisonLevel => ComparisonAt(ts, j)
    case TermLevel => TermAt(ts, j)
    case FactorLevel => FactorAt(ts, j)
  }

  /** One round of a loop: the operator, the operand parsed after it and the
      position after that operand. */
  datatype Round = Round(op: Token, operand: Expr, next: nat)

  /** `left` folded to the left with the rounds: `((left op1 y1) op2 y2) …`. */
  function FoldLeft(left: Expr, rs: seq<Round>): Expr
    decreases |rs|
  {
    if rs == [] then left else FoldLeft(Binary(Some(left), rs[0].op, rs[0].operand), rs[1..])
  }

  /** The position after the last round; `j` when there is none. */
  function RoundsEnd(j: nat, rs: seq<Round>): nat
    decreases |rs|
  {
    if rs == [] then j else RoundsEnd(rs[0].next, rs[1..])
  }

  /** From `j`, the tokens hold exactly the rounds `rs` of the level's loop:
      each starts with one of its operators, followed by an operand that
      parses, and no operator of the level follows the last. */
  predicate RoundsAt(ts: seq<Token>, lv: Level, j: nat, rs: seq<Round>)
    requires |ts| > 0 && j <= |ts|
    decreases |rs|
  {
    if rs == [] then !IsLevelOp(ts, lv, j)
    else
      IsLevelOp(ts, lv, j) && ts[j] == rs[0].op && Operand(ts, lv, j + 1) == Done(rs[0].operand, rs[0].next)
      && rs[0].next <= |ts| && RoundsAt(ts, lv, rs[0].next, rs[1..])
  }

  /** One round of the loop: the operand after the operator is folded into
      `left`. */
  lemma LoopStep(ts: seq<Token>, lv: Level, left: Expr, j: nat)
    requires |ts| > 0 && j <= |ts| && IsLevelOp(ts, lv, j)
    ensures Operand(ts, lv, j + 1).Failed? ==> Loop(ts, lv, left, j) == Failed(Operand(ts, lv, j + 1).err)
    ensures Operand(ts, lv, j + 1).Done? ==>
      var y, k := Operand(ts, lv, j + 1).value, Operand(ts, lv, j + 1).next;
      k <= |ts| && Loop(ts, lv, left, j) == Loop(ts, lv, Binary(Some(left), ts[j], y), k)
  {
  }

  /** Each of the three loops folds the rounds it meets to the left. */
  lemma {:induction false} LoopFoldsLeft(ts: seq<Token>, lv: Level, left: Expr, j: nat, rs: seq<Round>)
    requires |ts| > 0 && j <= |ts| && RoundsAt(ts, lv, j, rs)
    ensures Loop(ts, lv, left, j) == Done(FoldLeft(left, rs), RoundsEnd(j, rs))
    decreases |rs|
  {
    if rs != [] {
      LoopStep(ts, lv, left, j);
      LoopFoldsLeft(ts, lv, Binary(Some(left), rs[0].op, rs[0].operand), rs[0].next, rs[1..]);
    } else {
      assert Loop(ts, lv, left, j) == Done(left, j);
    }
  }

  /** Conversely, every value a loop returns is such a left fold: the rounds
      it read are returned. */
  lemma {:induction false} LoopReadsRounds(ts: seq<Token>, lv: Level, left: Expr, j: nat) returns (rs: seq<Round>)
    requires |ts| > 0 && j <= |ts| && Loop(ts, lv, left, j).Done?
    ensures RoundsAt(ts, lv, j, rs)
    ensures Loop(ts, lv, left, j) == Done(FoldLeft(left, rs), RoundsEnd(j, rs))
    decreases |ts| - j
  {
    if IsLevelOp(ts, lv, j) {
      LoopStep(ts, lv, left, j);
      var y, k := Operand(ts, lv, j + 1).value, Operand(ts, lv, j + 1).next;
      assert j + 1 <= k by {
        match lv
        case ComparisonLevel =>
        case TermLevel =>
        case FactorLevel =>
      }
      var rest := LoopReadsRounds(ts, lv, Binary(Some(left), ts[j], y), k);
      rs := [Round(ts[j], y, k)] + rest;
      assert rs[1..] == rest;
    } else {
      rs := [];
      assert Loop(ts, lv, left, j) == Done(left, j);
    }
  }

  /** A whole level: its first operand folded to the left with the rounds
      after it. */
  lemma LevelFoldsLeft(ts: seq<Token>, lv: Level, j: nat, x: Expr, k: nat, rs: seq<Round>)
    requires |ts| > 0 && j <= |ts| && Operand(ts, lv, j) == Done(x, k) && k <= |ts|
    requires RoundsAt(ts, lv, k, rs)
    ensures LevelAt(ts, lv, j) == Done(FoldLeft(x, rs), RoundsEnd(k, rs))
  {
    LoopFoldsLeft(ts, lv, x, k, rs);
    assert LevelAt(ts, lv, j) == Loop(ts, lv, x, k);
  }

  /** Conversely, every value a level returns is its first operand folded
      to the left with the rounds after it. */
  lemma LevelReadsRounds(ts: seq<Token>, lv: Level, j: nat) returns (x: Expr, k: nat, rs: seq<Round>)
    requires |ts| > 0 && j <= |ts| && LevelAt(ts, lv, j).Done?
    ensures Operand(ts, lv, j) == Done(x, k) && k <= |ts| && RoundsAt(ts, lv, k, rs)
    ensures LevelAt(ts, lv, j) == Done(FoldLeft(x, rs), RoundsEnd(k, rs))
  {
    x, k := Operand(ts, lv, j).value, Operand(ts, lv, j).next;
    assert LevelAt(ts, lv, j) == Loop(ts, lv, x, k);
    rs := LoopReadsRounds(ts, lv, x, k);
  }

  /** `<` and `>` fold to the left over any operands that parse as terms. */
  lemma ComparisonLoopFoldsLeft(ts: seq<Token>, left: Expr, j: nat, rs: seq<Round>)
    requires |ts| > 0 && j <= |ts| && RoundsAt(ts, ComparisonLevel, j, rs)
    ensures ComparisonLoop(ts, left, j) == Done(FoldLeft(left, rs), RoundsEnd(j, rs))
  {
    LoopFoldsLeft(ts, ComparisonLevel, left, j, rs);
  }

  /** `+` and `-` fold to the left over any operands that parse as factors. */
  lemma TermLoopFoldsLeft(ts: seq<Token>, left: Expr, j: nat, rs: seq<Round>)
    requires |ts| > 0 && j <= |ts| && RoundsAt(ts, TermLevel, j, rs)
    ensures TermLoop(ts, left, j) == Done(FoldLeft(left, rs), RoundsEnd(j, rs))
  {
    LoopFoldsLeft(ts, TermLevel, left, j, rs);
  }

  /** `*`, `/` and `%` fold to the left over any operands that parse as unary
      expressions. */
  lemma FactorLoopFoldsLeft(ts: seq<Token>, left: Expr, j: nat, rs: seq<Round>)
    requires |ts| > 0 && j <= |ts| && RoundsAt(ts, FactorLevel, j, rs)
    ensures FactorLoop(ts, left, j) == Done(FoldLeft(left, rs), RoundsEnd(j, rs))
  {
    LoopFoldsLeft(ts, FactorLevel, left, j, rs);
  }

  // ------------------------------------------------------------ unary minus

  /** A minus before a unary expression `y` is `BinaryExpr(null, -, y)`. */
  lemma UnaryMinus(ts: seq<Token>, j: nat, y: Expr, k: nat)
    requires j < |ts| && Check(ts, j, OpMinus) && UnaryAt(ts, j + 1) == Done(y, k)
    ensures UnaryAt(ts, j) == Done(Binary(None, ts[j], y), k)
  {
  }

  /** `n` minus signs from `j` wrapped around `y`, the outermost first. */
  function Negated(ts: seq<Token>, j: nat, n: nat, y: Expr): Expr
    requires j + n <= |ts|
    decreases n
  {
    if n == 0 then y else Binary(None, ts[j], Negated(ts, j + 1, n - 1, y))
  }

  /** The `n` tokens from `j` on are all minus signs. */
  ghost predicate MinusesAt(ts: seq<Token>, j: nat, n: nat)
    decreases n
  {
    n == 0 || (Check(ts, j, OpMinus) && MinusesAt(ts, j + 1, n - 1))
  }

  /** A run of `n` minus signs, then a call expression `y`: `y` under `n`
      null-left nodes, the first sign outermost. */
  lemma {:induction false} MinusRun(ts: seq<Token>, j: nat, n: nat, e: nat, y: Expr, k: nat)
    requires |ts| > 0 && e == j + n && e <= |ts| && MinusesAt(ts, j, n)
    requires !Check(ts, e, OpMinus) && CallAt(ts, e) == Done(y, k)
    ensures UnaryAt(ts, j) == Done(Negated(ts, j, n, y), k)
    decreases n
  {
    if n > 0 {
      MinusStep(ts, j, n - 1, y);
      MinusRun(ts, j + 1, n - 1, e, y, k);
      MinusWrap(ts, j, n - 1, y, k);
    } else {
      NoMinusRun(ts, j, y, k);
    }
  }

  /** Helper: the empty run is the call expression itself. */
  lemma NoMinusRun(ts: seq<Token>, j: nat, y: Expr, k: nat)
    requires |ts| > 0 && j <= |ts| && !Check(ts, j, OpMinus) && CallAt(ts, j) == Done(y, k)
    ensures UnaryAt(ts, j) == Done(Negated(ts, j, 0, y), k)
  {
    UnaryCall(ts, j);
  }

  /** Without a minus, a unary expression is a call expression. */
  lemma UnaryCall(ts: seq<Token>, j: nat)
    requires |ts| > 0 && j <= |ts| && !Check(ts, j, OpMinus)
    ensures UnaryAt(ts, j) == CallAt(ts, j)
  {
  }

  /** Conversely, every unary expression is such a run around a call
      expression `y` ending at `k`; the length of the run is returned. */
  lemma {:induction false} UnaryReadsMinusRun(ts: seq<Token>, j: nat) returns (n: nat, y: Expr, k: nat)
    requires |ts| > 0 && j <= |ts| && UnaryAt(ts, j).Done?
    ensures j + n <= |ts| && MinusesAt(ts, j, n) && !Check(ts, j + n, OpMinus)
    ensures CallAt(ts, j + n) == Done(y, k) && UnaryAt(ts, j) == Done(Negated(ts, j, n, y), k)
    decreases |ts| - j
  {
    if Check(ts, j, OpMinus) {
      UnaryMinusDone(ts, j);
      var m;
      m, y, k := UnaryReadsMinusRun(ts, j + 1);
      n := m + 1;
      MinusWrap(ts, j, m, y, k);
    } else {
      UnaryCall(ts, j);
      var c := CallAt(ts, j);
      n, y, k := 0, c.value, c.next;
      assert j + n == j && c == Done(y, k);
    }
  }

  /** Helper: a minus sign in front of a run that reads as a unary expression adds one node. */
  lemma MinusWrap(ts: seq<Token>, j: nat, m: nat, y: Expr, k: nat)
    requires j + 1 + m <= |ts| && Check(ts, j, OpMinus) && MinusesAt(ts, j + 1, m)
    requires UnaryAt(ts, j + 1) == Done(Negated(ts, j + 1, m, y), k)
    ensures MinusesAt(ts, j, m + 1) && UnaryAt(ts, j) == Done(Negated(ts, j, m + 1, y), k)
  {
    MinusStep(ts, j, m, y);
    UnaryMinus(ts, j, Negated(ts, j + 1, m, y), k);
  }

  /** A unary expression that starts with a minus wraps the one after it. */
  lemma UnaryMinusDone(ts: seq<Token>, j: nat)
    requires |ts| > 0 && j <= |ts| && Check(ts, j, OpMinus) && UnaryAt(ts, j).Done?
    ensures UnaryAt(ts, j + 1).Done?
  {
  }

  /** One more minus sign in front of a run. */
  lemma MinusStep(ts: seq<Token>, j: nat, m: nat, y: Expr)
    requires j + 1 + m <= |ts|
    ensures MinusesAt(ts, j, m + 1) <==> Check(ts, j, OpMinus) && MinusesAt(ts, j + 1, m)
    ensures Negated(ts, j, m + 1, y) == Binary(None, ts[j], Negated(ts, j + 1, m, y))
  {
  }

  // ------------------------------------------------------------- primaries

  /** `parsePrimary` tries its alternatives in the source's order: `true`,
      an integer, a float or a string literal (a `lit_bool` is none of
      them), an identifier, `new`, and a parenthesised expression; any other
      token raises an error that names it. */
  lemma PrimaryAlternatives(ts: seq<Token>, pos: nat)
    requires |ts| > 0 && pos <= |ts|
    ensures Check(ts, pos, KwTrue) || Check(ts, pos, LitInteger) || Check(ts, pos, LitFloat) || Check(ts, pos, LitString)
      ==> PrimaryAt(ts, pos) == Done(LiteralOf(ts[pos]), pos + 1)
    ensures Check(ts, pos, Identifier) ==> PrimaryAt(ts, pos) == Done(IdentifierExpr(ts[pos].lexeme), pos + 1)
    ensures Check(ts, pos, KwNew) ==> PrimaryAt(ts, pos) == NewAt(ts, pos + 1)
    ensures Check(ts, pos, DelimLparen) ==> PrimaryAt(ts, pos) == GroupAt(ts, pos + 1)
    ensures !Check(ts, pos, KwTrue) && !Check(ts, pos, LitInteger) && !Check(ts, pos, LitFloat)
      && !Check(ts, pos, LitString) && !Check(ts, pos, Identifier) && !Check(ts, pos, KwNew)
      && !Check(ts, pos, DelimLparen)
      ==> PrimaryAt(ts, pos) == Failed(ExpectedExpression(Peek(ts, pos)))
  {
  }

  /** A parenthesised expression is the inner expression itself, with the
      `)` after it consumed. */
  lemma GroupIsInner(ts: seq<Token>, pos: nat)
    requires |ts| > 0 && pos <= |ts| && GroupAt(ts, pos).Done?
    ensures pos < GroupAt(ts, pos).next && ts[GroupAt(ts, pos).next - 1].kind == DelimRparen
    ensures ExpressionAt(ts, pos) == Done(GroupAt(ts, pos).value, GroupAt(ts, pos).next - 1)
  {
  }
}
