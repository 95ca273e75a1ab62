/** The lowering of NexusCompiler/src/CodeGen/CodeGen.cpp as functions of
    the generator's state. Each `codegen` overload becomes a function from
    a state and a tree to what it returns (`None` for a null pointer) and
    the state after it; the class in codegen_class.dfy runs the same steps
    in place and is proved to reach the same state. LLVM's objects are the
    abstract IR of `LlvmIr`: the insertion block is a sequence of
    instructions, and an instruction's result is named by its index. */
module Lowering {
  import opened Wrappers
  import opened CType
  import opened TokKinds
  import opened Ast
  import opened LlvmIr
  import opened FormatText

  /** The generator's state: the symbol table `namedValues`, the module's
      functions, its global strings, the instructions of the insertion
      block, and the messages written by `logErrorV`, in order. */
  datatype Gen = Gen(named: map<string, VarInfo>, functions: seq<FunctionIR>, globals: seq<string>, block: seq<Inst>, errors: seq<string>)

  /** What an overload returns (`None` for a null pointer) and the state
      after it. */
  datatype Lowered<T> = Lowered(value: Option<T>, gen: Gen)

  /** `logErrorV`: the message joins the log. */
  function Log(g: Gen, msg: string): Gen {
    g.(errors := g.errors + [msg])
  }

  /** An `IRBuilder` `Create*` call: the instruction is appended to the
      insertion block and its result is the value. */
  function Emit(g: Gen, inst: Inst): Lowered<Value> {
    Lowered(Some(InstResult(|g.block|)), g.(block := g.block + [inst]))
  }

  function Bind(g: Gen, name: string, info: VarInfo): Gen {
    g.(named := g.named[name := info])
  }

  /** `h` is `g` with instructions, globals and messages appended, none of
      the new instructions a terminator, and the same symbol table and
      module. */
  predicate Extends(g: Gen, h: Gen) {
    h.named == g.named && h.functions == g.functions &&
    g.block <= h.block && g.globals <= h.globals && g.errors <= h.errors &&
    forall k :: |g.block| <= k < |h.block| ==> !IsTerminator(h.block[k])
  }

  /** `h` has at least one message more than `g`. */
  predicate Logged(g: Gen, h: Gen) {
    |h.errors| > |g.errors|
  }

  // ------------------------------------------------------- expressions

  /** `std::stoll` accepts the literal: decimal digits, below 2 to the 63. */
  predicate IsDecimal(w: string) {
    |w| > 0 && AllDigits(w) && DecimalValue(w) < 0x8000_0000_0000_0000
  }

  /** `ConstantInt::get(i32, v)`: the low 32 bits of `v`. */
  function Int32Bits(v: nat): (b: nat)
    ensures b < 0x1_0000_0000
    ensures v < 0x1_0000_0000 ==> b == v
  {
    v % 0x1_0000_0000
  }

  /** The trees `codegen` can lower without undefined behaviour: every
      integer literal it evaluates is one `std::stoll` reads. */
  predicate LowerableExpr(e: Expr)
    decreases e
  {
    match e
    case IntLitExpr(lit) => IsDecimal(lit.word)
    case Assignment(_, v) => LowerableExpr(v)
    case CallExpr(_, args) => forall k :: 0 <= k < |args| ==> LowerableExpr(args[k])
    case _ => true
  }

  /** `codegen(const Expression &)`. Lowering an expression leaves the
      symbol table and the module alone and only appends; it returns null
      exactly when it logs a message. */
  function LowerExpr(g: Gen, e: Expr): (r: Lowered<Value>)
    requires LowerableExpr(e)
    ensures Extends(g, r.gen)
    ensures r.value.None? <==> Logged(g, r.gen)
    decreases e, 2
  {
    match e
    case IdentExpr(name) => LowerIdent(g, name)
    case IntLitExpr(lit) => Lowered(Some(ConstInt(I32, Int32Bits(DecimalValue(lit.word)))), g)
    case StrLitExpr(lit) => Lowered(Some(GlobalString(|g.globals|)), g.(globals := g.globals + [lit.word]))
    case CallExpr(callee, args) => LowerCall(g, NormaliseFunctionName(callee.word), args)
    case Assignment(target, value) => LowerAssignment(g, target, value)
    case Increment(target) => LowerIncrement(g, target)
    case AssignExpr(_, _) => Lowered(None, Log(g, "Unknown expression type"))
  }

  /** An identifier: the load of its slot. */
  function LowerIdent(g: Gen, name: Token): (r: Lowered<Value>)
    ensures Extends(g, r.gen)
    ensures r.value.None? <==> Logged(g, r.gen)
  {
    match Lookup(g.named, name.word)
    case None => Lowered(None, Log(g, "Unknown variable"))
    case Some(v) => Emit(g, Load(v.ty, v.slot, name.word + "_load"))
  }

  /** A call of the function named `name` (already normalised). */
  function LowerCall(g: Gen, name: string, args: seq<Expr>): (r: Lowered<Value>)
    requires forall k :: 0 <= k < |args| ==> LowerableExpr(args[k])
    ensures Extends(g, r.gen)
    ensures r.value.None? <==> Logged(g, r.gen)
    decreases args, |args| + 1
  {
    if name == "printf" && |args| == 1 && args[0].StrLitExpr? then
      LowerPrintf(g, args[0].lit.word)
    else
      match Find(g.functions, name)
      case None => Lowered(None, Log(g, "Unknown function: " + name))
      case Some(k) =>
        if !g.functions[k].isVarArg && |g.functions[k].params| != |args| then
          Lowered(None, Log(g, "Incorrect # arguments"))
        else
          var a := LowerArgs(g, args, 0, []);
          if a.value.None? then Lowered(None, a.gen)
          else Emit(a.gen, Call(name, a.value.value))
  }

  /** An assignment: the value, then its store into the target's slot. */
  function LowerAssignment(g: Gen, target: Token, value: Expr): (r: Lowered<Value>)
    requires LowerableExpr(value)
    ensures Extends(g, r.gen)
    ensures r.value.None? <==> Logged(g, r.gen)
    decreases value, 3
  {
    match Lookup(g.named, target.word)
    case None => Lowered(None, Log(g, "Cannot assign to unknown variable"))
    case Some(v) =>
      var r := LowerExpr(g, value);
      if r.value.None? then r
      else Lowered(r.value, Emit(r.gen, Store(r.value.value, v.slot)).gen)
  }

  /** `x++`: load, add one, store the sum. */
  function LowerIncrement(g: Gen, target: Token): (r: Lowered<Value>)
    ensures Extends(g, r.gen)
    ensures r.value.None? <==> Logged(g, r.gen)
  {
    match Lookup(g.named, target.word)
    case None => Lowered(None, Log(g, "Unknown variable in ++"))
    case Some(v) =>
      var cur := Emit(g, Load(v.ty, v.slot, "load_inc"));
      var add := Emit(cur.gen, Add(cur.value.value, ConstInt(v.ty, 1)));
      Lowered(add.value, Emit(add.gen, Store(add.value.value, v.slot)).gen)
  }

  /** The argument loop of a call from index `i`, `acc` holding the values
      so far: it stops at the first argument that fails. */
  function LowerArgs(g: Gen, args: seq<Expr>, i: nat, acc: seq<Value>): (r: Lowered<seq<Value>>)
    requires i <= |args| && forall k :: 0 <= k < |args| ==> LowerableExpr(args[k])
    ensures Extends(g, r.gen)
    ensures r.value.None? <==> Logged(g, r.gen)
    ensures r.value.Some? ==> |r.value.value| == |acc| + |args| - i && acc <= r.value.value
    decreases args, |args| - i
  {
    if i == |args| then Lowered(Some(acc), g)
    else
      var r := LowerExpr(g, args[i]);
      if r.value.None? then Lowered(None, r.gen)
      else LowerArgs(r.gen, args, i + 1, acc + [r.value.value])
  }

  /** The interpolating path of a `printf` call on one string literal: the
      format global, then a load per placeholder, then the call. */
  function LowerPrintf(g: Gen, raw: string): (r: Lowered<Value>)
    ensures Extends(g, r.gen)
    ensures r.value.None? <==> Logged(g, r.gen)
  {
    var fmt := FormatString(ExpandedText(raw, 0, g.named));
    var g1 := g.(globals := g.globals + [fmt]);
    if Find(g1.functions, "printf").None? then Lowered(None, Log(g1, "printf not declared"))
    else
      var loads := LoadNames(g1, PlaceholderNames(raw, 0), 0, [GlobalString(|g.globals|)]);
      if loads.value.None? then Lowered(None, loads.gen)
      else Emit(loads.gen, Call("printf", loads.value.value))
  }

  /** The loads of the placeholder variables from index `i`: it fails at
      the first name that is not bound, and succeeds exactly when all are. */
  function LoadNames(g: Gen, names: seq<string>, i: nat, acc: seq<Value>): (r: Lowered<seq<Value>>)
    requires i <= |names|
    ensures Extends(g, r.gen)
    ensures r.value.None? <==> Logged(g, r.gen)
    ensures r.gen.globals == g.globals
    ensures r.value.Some? <==> forall k :: i <= k < |names| ==> names[k] in g.named
    ensures r.value.Some? ==> |r.value.value| == |acc| + |names| - i && acc <= r.value.value
    ensures r.value.None? ==> |r.gen.errors| == |g.errors| + 1
    decreases |names| - i
  {
    if i == |names| then Lowered(Some(acc), g)
    else
      match Lookup(g.named, names[i])
      case None => Lowered(None, Log(g, "Undefined variable in format string: " + names[i]))
      case Some(v) =>
        var l := Emit(g, Load(v.ty, v.slot, names[i] + "_load"));
        LoadNames(l.gen, names, i + 1, acc + [l.value.value])
  }

  /** A name that is not bound fails with "Unknown variable"; a bound one
      is loaded from its slot. */
  lemma IdentifierLoads(g: Gen, name: Token)
    ensures var r := LowerExpr(g, IdentExpr(name));
      if name.word in g.named then
        r.value == Some(InstResult(|g.block|)) &&
        r.gen == g.(block := g.block + [Load(g.named[name.word].ty, g.named[name.word].slot, name.word + "_load")])
      else r == Lowered(None, Log(g, "Unknown variable"))
  {
  }

  /** An integer literal is an `i32` constant of its low 32 bits and
      emits nothing. */
  lemma IntegerLiteralTruncates(g: Gen, lit: Token)
    requires IsDecimal(lit.word)
    ensures var r := LowerExpr(g, IntLitExpr(lit));
      r.gen == g && r.value.Some? && r.value.value.ty == I32 &&
      r.value.value.bits < 0x1_0000_0000 && r.value.value.bits % 0x1_0000_0000 == DecimalValue(lit.word) % 0x1_0000_0000
  {
  }

  /** Assigning to a bound name stores the value into its slot and yields
      it; a value that fails stores nothing. */
  lemma AssignmentStores(g: Gen, target: Token, value: Expr)
    requires LowerableExpr(value) && target.word in g.named
    ensures var r := LowerExpr(g, Assignment(target, value)); var v := LowerExpr(g, value);
      r.value == v.value &&
      (v.value.Some? ==> r.gen.block == v.gen.block + [Store(v.value.value, g.named[target.word].slot)]) &&
      (v.value.None? ==> r.gen == v.gen)
  {
  }

  /** `x++` on a bound `x`: a load, an add of one of its type, and a store
      of the sum, which is the value. */
  lemma IncrementAddsOne(g: Gen, target: Token)
    requires target.word in g.named
    ensures var r := LowerExpr(g, Expr.Increment(target)); var v := g.named[target.word]; var n := |g.block|;
      r.value == Some(InstResult(n + 1)) && r.gen.errors == g.errors &&
      r.gen.block == g.block + [Load(v.ty, v.slot, "load_inc"), Add(InstResult(n), ConstInt(v.ty, 1)), Store(InstResult(n + 1), v.slot)]
  {
    var v := g.named[target.word];
    var cur := Emit(g, Load(v.ty, v.slot, "load_inc"));
    var add := Emit(cur.gen, Add(cur.value.value, ConstInt(v.ty, 1)));
    var done := Emit(add.gen, Store(add.value.value, v.slot)).gen;
    assert LowerIncrement(g, target) == Lowered(add.value, done);
    assert LowerExpr(g, Expr.Increment(target)) == LowerIncrement(g, target);
  }

  /** An assignment expression node is not lowered. */
  lemma AssignExprRejected(g: Gen, target: Token, value: Expr)
    ensures LowerExpr(g, AssignExpr(target, value)) == Lowered(None, Log(g, "Unknown expression type"))
  {
  }

  /** A fixed-arity function given another number of arguments. */
  predicate WrongArity(f: FunctionIR, n: nat) {
    !f.isVarArg && |f.params| != n
  }

  /** The block ends in a call of `callee` on `n` values. */
  predicate LastCall(block: seq<Inst>, callee: string, n: nat) {
    |block| > 0 && block[|block| - 1].Call? && block[|block| - 1].callee == callee && |block[|block| - 1].args| == n
  }

  /** A call outside the interpolating path: an undeclared callee fails, a
      fixed-arity callee given the wrong number of arguments fails before
      any argument is lowered, and a call that succeeds passes one value
      per argument. */
  lemma CallChecksCallee(g: Gen, callee: Token, args: seq<Expr>)
    requires forall k :: 0 <= k < |args| ==> LowerableExpr(args[k])
    requires var name := NormaliseFunctionName(callee.word); !(name == "printf" && |args| == 1 && args[0].StrLitExpr?)
    ensures var name := NormaliseFunctionName(callee.word); var r := LowerExpr(g, CallExpr(callee, args));
      (Find(g.functions, name).None? ==> r == Lowered(None, Log(g, "Unknown function: " + name))) &&
      (Find(g.functions, name).Some? && WrongArity(g.functions[Find(g.functions, name).value], |args|) ==>
         r == Lowered(None, Log(g, "Incorrect # arguments"))) &&
      (r.value.Some? ==>
         Find(g.functions, name).Some? && |r.gen.block| > 0 && LastCall(r.gen.block, name, |args|))
  {
  }

  /** The interpolating `printf` path succeeds exactly when `printf` is
      declared and every placeholder names a bound variable. It adds the
      format built from the literal as a global and ends in a call of
      `printf` on that global and one load per placeholder. */
  lemma PrintfInterpolates(g: Gen, raw: string)
    ensures var r := LowerPrintf(g, raw); var names := PlaceholderNames(raw, 0);
      (r.value.Some? <==> Find(g.functions, "printf").Some? && forall k :: 0 <= k < |names| ==> names[k] in g.named) &&
      r.gen.globals == g.globals + [FormatString(ExpandedText(raw, 0, g.named))] &&
      (r.value.Some? ==>
         LastCall(r.gen.block, "printf", 1 + |names|) && r.gen.block[|r.gen.block| - 1].args[0] == GlobalString(|g.globals|))
  {
    var fmt := FormatString(ExpandedText(raw, 0, g.named));
    var g1 := g.(globals := g.globals + [fmt]);
    if Find(g1.functions, "printf").Some? {
      var loads := LoadNames(g1, PlaceholderNames(raw, 0), 0, [GlobalString(|g.globals|)]);
      if loads.value.Some? {
        assert [GlobalString(|g.globals|)] <= loads.value.value;
      }
    }
  }

  /** `Printf("...")` and `printf("...")` on one string literal take the
      interpolating path. */
  lemma PrintfLiteralInterpolates(g: Gen, callee: Token, lit: Token)
    requires callee.word == "Printf" || callee.word == "printf"
    ensures LowerExpr(g, CallExpr(callee, [StrLitExpr(lit)])) == LowerPrintf(g, lit.word)
  {
  }

  // -------------------------------------------------------- statements

  /** The statements `codegen` can lower without undefined behaviour: an
      expression statement holds an expression, and every expression is
      lowerable. */
  predicate LowerableStmt(s: Stmt) {
    match s
    case VarDecl(_, _, init) => init.Some? ==> LowerableExpr(init.value)
    case ExprStmt(e) => e.Some? && LowerableExpr(e.value)
    case Return(v) => v.Some? ==> LowerableExpr(v.value)
  }

  /** At most one of the instructions `h` appends to `g`'s block is a
      terminator, and only as the last one. */
  predicate EndsAtTerminator(g: Gen, h: Gen) {
    g.block <= h.block &&
    forall k :: |g.block| <= k < |h.block| - 1 ==> !IsTerminator(h.block[k])
  }

  /** `codegen(const Statement &)`. Only a declaration changes the symbol
      table, and then only at its own name; only a return ends the block. */
  function LowerStmt(g: Gen, s: Stmt): (h: Gen)
    requires LowerableStmt(s)
    ensures h.functions == g.functions && g.globals <= h.globals && g.errors <= h.errors
    ensures EndsAtTerminator(g, h)
    ensures !s.VarDecl? ==> h.named == g.named
    ensures s.VarDecl? ==> forall n :: n != s.name.word ==> Lookup(h.named, n) == Lookup(g.named, n)
    ensures !s.Return? ==> forall k :: |g.block| <= k < |h.block| ==> !IsTerminator(h.block[k])
  {
    match s
    case VarDecl(typ, name, init) =>
      (match GetLlvmType(typ.word)
       case None => Log(Log(g, "Unknown type: " + typ.word), "Unknown type in var decl")
       case Some(ty) =>
         var slot := Emit(g, Alloca(ty, name.word));
         var info := VarInfo(slot.value.value, ty);
         if init.None? then Bind(slot.gen, name.word, info)
         else
           var r := LowerExpr(slot.gen, init.value);
           if r.value.None? then r.gen
           else Bind(Emit(r.gen, Store(r.value.value, info.slot)).gen, name.word, info))
    case ExprStmt(e) => LowerExpr(g, e.value).gen
    case Return(v) =>
      if v.None? then Emit(g, RetVoid).gen
      else
        var r := LowerExpr(g, v.value);
        if r.value.None? then r.gen else Emit(r.gen, Ret(r.value.value)).gen
  }

  /** A declaration of known type allocates a slot; the name is bound to
      it when there is no initializer or the initializer's value is
      stored, and stays as it was when the initializer fails. A declaration
      of unknown type logs two messages and emits nothing. */
  lemma VarDeclBinds(g: Gen, typ: Token, name: Token, init: Option<Expr>)
    requires init.Some? ==> LowerableExpr(init.value)
    ensures var h := LowerStmt(g, VarDecl(typ, name, init));
      match GetLlvmType(typ.word)
      case None =>
        h == Log(Log(g, "Unknown type: " + typ.word), "Unknown type in var decl")
      case Some(ty) =>
        |h.block| > |g.block| && h.block[|g.block|] == Alloca(ty, name.word) &&
        (|h.errors| == |g.errors| ==> h.named == g.named[name.word := VarInfo(InstResult(|g.block|), ty)]) &&
        (|h.errors| != |g.errors| ==> h.named == g.named)
  {
    match GetLlvmType(typ.word)
    case None =>
    case Some(ty) =>
      var slot := Emit(g, Alloca(ty, name.word));
      if init.Some? {
        var r := LowerExpr(slot.gen, init.value);
        assert slot.gen.block <= r.gen.block;
      }
  }

  /** A return whose value lowers, or a bare return, ends the block. */
  lemma ReturnEndsBlock(g: Gen, value: Option<Expr>)
    requires value.Some? ==> LowerableExpr(value.value)
    requires value.Some? ==> LowerExpr(g, value.value).value.Some?
    ensures Terminated(LowerStmt(g, Stmt.Return(value)).block)
  {
  }

  /** Once the block has a terminator, no further statement is lowered. */
  lemma TerminatedBlockStops(g: Gen, ss: seq<Stmt>, i: nat)
    requires i <= |ss| && forall k :: 0 <= k < |ss| ==> LowerableStmt(ss[k])
    requires Terminated(g.block)
    ensures LowerStmts(g, ss, i) == g
  {
  }

  /** The loop of `codegen(const Block &)` from statement `i`: it stops
      before the first statement once the insertion block has a
      terminator. */
  function LowerStmts(g: Gen, ss: seq<Stmt>, i: nat): (h: Gen)
    requires i <= |ss| && forall k :: 0 <= k < |ss| ==> LowerableStmt(ss[k])
    ensures h.functions == g.functions && g.globals <= h.globals && g.errors <= h.errors
    decreases |ss| - i
  {
    if i == |ss| || Terminated(g.block) then g
    else LowerStmts(LowerStmt(g, ss[i]), ss, i + 1)
  }

  /** However many statements run, the block they build holds one
      terminator at most, and only at its end: statements after a return
      are not lowered. */
  lemma {:induction false} StmtsEndAtTerminator(g: Gen, ss: seq<Stmt>, i: nat)
    requires i <= |ss| && forall k :: 0 <= k < |ss| ==> LowerableStmt(ss[k])
    ensures EndsAtTerminator(g, LowerStmts(g, ss, i))
    decreases |ss| - i
  {
    if i < |ss| && !Terminated(g.block) {
      var g1 := LowerStmt(g, ss[i]);
      StmtsEndAtTerminator(g1, ss, i + 1);
      var h := LowerStmts(g1, ss, i + 1);
      if Terminated(g1.block) {
        assert h == g1;
      } else {
        assert g.block <= g1.block <= h.block;
        forall k | |g.block| <= k < |h.block| - 1
          ensures !IsTerminator(h.block[k])
        {
          if k < |g1.block| {
            assert h.block[k] == g1.block[k];
            if k == |g1.block| - 1 {
              assert !IsTerminator(g1.block[k]);
            }
          }
        }
      }
    }
  }

  // --------------------------------------------------------- functions

  /** The parameter loop of `codegen(const Function &)` from index `i`:
      the type of each parameter, stopping at the first unknown one, whose
      message it logs. */
  function ParamTypes(g: Gen, ps: seq<Parameter>, i: nat, acc: seq<LlvmType>): (r: Lowered<seq<LlvmType>>)
    requires i <= |ps|
    ensures r.value.Some? <==> forall k :: i <= k < |ps| ==> GetLlvmType(ps[k].typ.word).Some?
    ensures r.value.Some? ==> r.gen == g && |r.value.value| == |acc| + |ps| - i && acc <= r.value.value
    ensures r.value.Some? ==> forall k :: i <= k < |ps| ==> r.value.value[|acc| + k - i] == GetLlvmType(ps[k].typ.word).value
    ensures r.value.None? ==> r.gen.named == g.named && r.gen.functions == g.functions && r.gen.block == g.block
    ensures r.value.None? ==> r.gen.globals == g.globals && |r.gen.errors| == |g.errors| + 1 && g.errors <= r.gen.errors
    decreases |ps| - i
  {
    if i == |ps| then Lowered(Some(acc), g)
    else
      match GetLlvmType(ps[i].typ.word)
      case None => Lowered(None, Log(g, "Unknown type: " + ps[i].typ.word))
      case Some(t) => ParamTypes(g, ps, i + 1, acc + [t])
  }

  /** The declaration a function definition fills: the module's function
      of that name, or a new one returning `i32` appended to the module. */
  function Declare(fs: seq<FunctionIR>, name: string, types: seq<LlvmType>): (r: seq<FunctionIR>)
    ensures Find(r, name).Some? && fs <= r
    ensures |r| == |fs| + 1 <==> Find(fs, name).None?
    ensures |r| != |fs| + 1 ==> r == fs
    ensures |r| == |fs| + 1 ==> r[|fs|] == FunctionIR(name, I32, types, false, [])
  {
    if Find(fs, name).Some? then fs else fs + [FunctionIR(name, I32, types, false, [])]
  }

  /** The loop over the declaration's arguments from `k`: a slot for each,
      named after the parameter at the same position, the argument stored
      into it and the name bound to it. */
  function BindParams(g: Gen, types: seq<LlvmType>, ps: seq<Parameter>, k: nat): (h: Gen)
    requires k <= |types| <= |ps|
    ensures h.functions == g.functions && h.globals == g.globals && h.errors == g.errors
    ensures g.block <= h.block && |h.block| == |g.block| + 2 * (|types| - k)
    ensures forall j :: |g.block| <= j < |h.block| ==> !IsTerminator(h.block[j])
    ensures h.named.Keys == g.named.Keys + set j | k <= j < |types| :: ps[j].name.word
    decreases |types| - k
  {
    if k == |types| then g
    else
      var slot := Emit(g, Alloca(types[k], ps[k].name.word));
      var stored := Emit(slot.gen, Store(Argument(k), slot.value.value)).gen;
      BindParams(Bind(stored, ps[k].name.word, VarInfo(slot.value.value, types[k])), types, ps, k + 1)
  }

  /** The definitions `codegen` can lower without undefined behaviour: a
      body, and lowerable statements in it. */
  predicate LowerableFunction(f: Function) {
    f.body.Some? && forall k :: 0 <= k < |f.body.value.statements| ==> LowerableStmt(f.body.value.statements[k])
  }

  /** The argument loop reads `func.params` at every position of the
      declaration it finds: that declaration has no more parameters than
      `func` names. */
  predicate ParamsCovered(fs: seq<FunctionIR>, func: Function) {
    match Find(fs, NormaliseFunctionName(func.name.word))
    case None => true
    case Some(k) => |fs[k].params| <= |func.params|
  }

  /** `eraseFromParent`: the function at `k` leaves the module. */
  function Erase(fs: seq<FunctionIR>, k: nat): (r: seq<FunctionIR>)
    requires k < |fs|
    ensures |r| == |fs| - 1
    ensures forall j :: 0 <= j < |r| ==> r[j] == (if j < k then fs[j] else fs[j + 1])
  {
    fs[..k] + fs[k + 1..]
  }

  /** The `ret i32 0` added when the body leaves the block open. */
  function Finish(g: Gen): Gen {
    if Terminated(g.block) then g else Emit(g, Ret(ConstInt(I32, 0))).gen
  }

  /** Whether a `codegen` of a definition or of a program returned a
      function (or `true`), and the state after it. */
  datatype Outcome = Outcome(ok: bool, gen: Gen)

  /** `codegen(const Function &)`. `broken` stands for `verifyFunction`,
      whose checks are LLVM's: it says whether the finished function is
      rejected. */
  function LowerFunction(g: Gen, func: Function, broken: FunctionIR -> bool): (r: Outcome)
    requires LowerableFunction(func) && ParamsCovered(g.functions, func)
  {
    var name := NormaliseFunctionName(func.name.word);
    var pt := ParamTypes(g, func.params, 0, []);
    if pt.value.None? then Outcome(false, pt.gen)
    else
      var declared := Declare(g.functions, name, pt.value.value);
      var k := Find(declared, name).value;
      Commit(LowerBody(g.(functions := declared), k, func), k, broken)
  }

  /** The body of a definition whose declaration is at `k`: a fresh entry
      block and symbol table, the arguments bound, the statements lowered
      and the block closed. */
  function LowerBody(g: Gen, k: nat, func: Function): (h: Gen)
    requires k < |g.functions| && |g.functions[k].params| <= |func.params| && LowerableFunction(func)
    ensures h.functions == g.functions && g.globals <= h.globals && g.errors <= h.errors
  {
    var entry := g.(named := map[], block := []);
    Finish(LowerStmts(BindParams(entry, g.functions[k].params, func.params, 0), func.body.value.statements, 0))
  }

  /** The end of `codegen(const Function &)`: the block becomes the last
      block of the function at `k`, which `broken` keeps or erases. */
  function Commit(g: Gen, k: nat, broken: FunctionIR -> bool): (r: Outcome)
    requires k < |g.functions|
    ensures r.gen.named == g.named && r.gen.block == g.block && r.gen.globals == g.globals && r.gen.errors == g.errors
    ensures r.ok ==> |r.gen.functions| == |g.functions| && r.gen.functions[k].blocks == g.functions[k].blocks + [g.block]
    ensures r.ok ==> forall j :: 0 <= j < |g.functions| && j != k ==> r.gen.functions[j] == g.functions[j]
    ensures !r.ok ==> r.gen.functions == Erase(g.functions, k)
  {
    var f := g.functions[k].(blocks := g.functions[k].blocks + [g.block]);
    if broken(f) then Outcome(false, g.(functions := Erase(g.functions, k)))
    else Outcome(true, g.(functions := g.functions[k := f]))
  }

  /** A basic block as LLVM requires it: it ends in a terminator and has no
      other. */
  predicate WellTerminated(b: seq<Inst>) {
    Terminated(b) && forall k :: 0 <= k < |b| - 1 ==> !IsTerminator(b[k])
  }

  /** Every block of every function of the module is well terminated. */
  predicate ModuleWellTerminated(fs: seq<FunctionIR>) {
    forall j, b :: 0 <= j < |fs| && 0 <= b < |fs[j].blocks| ==> WellTerminated(fs[j].blocks[b])
  }

  /** A function without its body. */
  function Declaration(f: FunctionIR): FunctionIR {
    f.(blocks := [])
  }

  /** A parameter of unknown type fails the definition before anything is
      declared or emitted; only its message is logged. */
  lemma UnknownParamTypeFails(g: Gen, func: Function, broken: FunctionIR -> bool, k: nat)
    requires LowerableFunction(func) && ParamsCovered(g.functions, func)
    requires k < |func.params| && GetLlvmType(func.params[k].typ.word).None?
    ensures var r := LowerFunction(g, func, broken);
      !r.ok && r.gen.functions == g.functions && r.gen.block == g.block && |r.gen.errors| == |g.errors| + 1
  {
  }

  /** The definition's entry block is well terminated: the body's own
      return, or the `ret i32 0` added when it has none. */
  lemma FunctionEndsWithTerminator(g: Gen, func: Function, broken: FunctionIR -> bool)
    requires LowerableFunction(func) && ParamsCovered(g.functions, func)
    ensures var r := LowerFunction(g, func, broken);
      WellTerminated(r.gen.block) || (!r.ok && r.gen.functions == g.functions)
  {
    var name := NormaliseFunctionName(func.name.word);
    var pt := ParamTypes(g, func.params, 0, []);
    if pt.value.Some? {
      var declared := Declare(g.functions, name, pt.value.value);
      var k := Find(declared, name).value;
      var entry := g.(functions := declared, named := map[], block := []);
      BodyEndsWithTerminator(BindParams(entry, declared[k].params, func.params, 0), func.body.value.statements);
    }
  }

  /** Statements lowered into a block without a terminator, then
      `Finish`, leave a well terminated block. */
  lemma BodyEndsWithTerminator(bound: Gen, ss: seq<Stmt>)
    requires forall k :: 0 <= k < |ss| ==> LowerableStmt(ss[k])
    requires forall j :: 0 <= j < |bound.block| ==> !IsTerminator(bound.block[j])
    ensures WellTerminated(Finish(LowerStmts(bound, ss, 0)).block)
  {
    var body := LowerStmts(bound, ss, 0);
    StmtsEndAtTerminator(bound, ss, 0);
    OnlyLastTerminates(bound.block, body.block);
    FinishTerminates(body);
  }

  lemma OnlyLastTerminates(a: seq<Inst>, b: seq<Inst>)
    requires a <= b && forall j :: 0 <= j < |a| ==> !IsTerminator(a[j])
    requires forall j :: |a| <= j < |b| - 1 ==> !IsTerminator(b[j])
    ensures forall j :: 0 <= j < |b| - 1 ==> !IsTerminator(b[j])
  {
    forall j | 0 <= j < |b| - 1
      ensures !IsTerminator(b[j])
    {
      if j < |a| {
        assert b[j] == a[j];
      }
    }
  }

  lemma FinishTerminates(body: Gen)
    requires forall j :: 0 <= j < |body.block| - 1 ==> !IsTerminator(body.block[j])
    ensures WellTerminated(Finish(body).block)
  {
    if !Terminated(body.block) {
      var ended := Emit(body, Ret(ConstInt(I32, 0))).gen;
      assert forall j :: 0 <= j < |ended.block| - 1 ==> ended.block[j] == body.block[j];
    }
  }

  /** A definition that is not rejected is in the module under its
      normalised name, its new block last; the declarations already in the
      module keep their signatures, and a new one returns `i32` and takes
      one parameter per parameter of the definition. */
  lemma FunctionDeclared(g: Gen, func: Function, broken: FunctionIR -> bool)
    requires LowerableFunction(func) && ParamsCovered(g.functions, func)
    ensures var r := LowerFunction(g, func, broken); var name := NormaliseFunctionName(func.name.word);
      r.ok ==>
        |r.gen.functions| == |g.functions| + (if Find(g.functions, name).None? then 1 else 0) &&
        (forall j :: 0 <= j < |g.functions| ==> Declaration(r.gen.functions[j]) == Declaration(g.functions[j])) &&
        (Find(g.functions, name).None? ==>
           var f := r.gen.functions[|g.functions|];
           f.name == name && f.ret == I32 && |f.params| == |func.params| && !f.isVarArg) &&
        Find(r.gen.functions, name).Some? &&
        var f := r.gen.functions[Find(r.gen.functions, name).value];
        |f.blocks| > 0 && f.blocks[|f.blocks| - 1] == r.gen.block
  {
    var r := LowerFunction(g, func, broken);
    var name := NormaliseFunctionName(func.name.word);
    var pt := ParamTypes(g, func.params, 0, []);
    if r.ok {
      var declared := Declare(g.functions, name, pt.value.value);
      var k := Find(declared, name).value;
      FindByNames(declared, r.gen.functions, name);
    }
  }

  /** Lowering a definition keeps every block of the module well
      terminated, whether the function is kept or erased. */
  lemma FunctionKeepsModuleWellTerminated(g: Gen, func: Function, broken: FunctionIR -> bool)
    requires LowerableFunction(func) && ParamsCovered(g.functions, func)
    requires ModuleWellTerminated(g.functions)
    ensures ModuleWellTerminated(LowerFunction(g, func, broken).gen.functions)
  {
    var r := LowerFunction(g, func, broken);
    var name := NormaliseFunctionName(func.name.word);
    var pt := ParamTypes(g, func.params, 0, []);
    if pt.value.Some? {
      FunctionEndsWithTerminator(g, func, broken);
      var declared := Declare(g.functions, name, pt.value.value);
      var k := Find(declared, name).value;
      assert ModuleWellTerminated(declared);
      var f := declared[k].(blocks := declared[k].blocks + [r.gen.block]);
      if broken(f) {
        ModuleErase(declared, k);
      } else {
        ModuleAppendBlock(declared, k, r.gen.block);
      }
    }
  }

  lemma ModuleErase(fs: seq<FunctionIR>, k: nat)
    requires k < |fs| && ModuleWellTerminated(fs)
    ensures ModuleWellTerminated(Erase(fs, k))
  {
    var r := Erase(fs, k);
    forall j, b | 0 <= j < |r| && 0 <= b < |r[j].blocks|
      ensures WellTerminated(r[j].blocks[b])
    {
      if j >= k {
        assert r[j] == fs[j + 1];
      }
    }
  }

  lemma ModuleAppendBlock(fs: seq<FunctionIR>, k: nat, block: seq<Inst>)
    requires k < |fs| && ModuleWellTerminated(fs) && WellTerminated(block)
    ensures ModuleWellTerminated(fs[k := fs[k].(blocks := fs[k].blocks + [block])])
  {
    var r := fs[k := fs[k].(blocks := fs[k].blocks + [block])];
    forall j, b | 0 <= j < |r| && 0 <= b < |r[j].blocks|
      ensures WellTerminated(r[j].blocks[b])
    {
      if j == k && b < |fs[k].blocks| {
        assert r[j].blocks[b] == fs[k].blocks[b];
      }
    }
  }

  /** With a verifier that accepts everything, a definition fails only on
      a parameter type: messages logged by its statements do not fail it. */
  lemma StatementErrorsDoNotFail(g: Gen, func: Function, broken: FunctionIR -> bool)
    requires LowerableFunction(func) && ParamsCovered(g.functions, func)
    requires forall k :: 0 <= k < |func.params| ==> GetLlvmType(func.params[k].typ.word).Some?
    requires forall f :: !broken(f)
    ensures LowerFunction(g, func, broken).ok
  {
    var name := NormaliseFunctionName(func.name.word);
    var pt := ParamTypes(g, func.params, 0, []);
    assert pt.value.Some?;
    var declared := Declare(g.functions, name, pt.value.value);
    var k := Find(declared, name).value;
    var body := LowerBody(g.(functions := declared), k, func);
    assert !broken(body.functions[k].(blocks := body.functions[k].blocks + [body.block]));
  }

  // ----------------------------------------------------------- program

  /** The variadic `printf` declaration `generate` adds first. */
  const PrintfDecl := FunctionIR("printf", I32, [Ptr], true, [])

  /** `arity` gives each function of the module its parameter count under
      its name, and names only functions of the module. */
  predicate ArityTable(fs: seq<FunctionIR>, arity: map<string, nat>) {
    (forall j :: 0 <= j < |fs| ==> fs[j].name in arity && arity[fs[j].name] == |fs[j].params|) &&
    (forall n :: n in arity ==> Find(fs, n).Some?)
  }

  /** The arities once definition `f` is declared: a new name takes its
      parameter count. */
  function Noted(arity: map<string, nat>, f: Function): map<string, nat> {
    var n := NormaliseFunctionName(f.name.word);
    if n in arity then arity else arity[n := |f.params|]
  }

  /** From definition `i` on, when the module's arities start as `arity`,
      each definition finds a declaration with no more parameters than it
      names. */
  predicate AritiesCovered(arity: map<string, nat>, fs: seq<Function>, i: nat)
    requires i <= |fs|
    decreases |fs| - i
  {
    i == |fs| ||
    ((NormaliseFunctionName(fs[i].name.word) in arity ==> arity[NormaliseFunctionName(fs[i].name.word)] <= |fs[i].params|) &&
     AritiesCovered(Noted(arity, fs[i]), fs, i + 1))
  }

  lemma ArityCovers(fs: seq<FunctionIR>, arity: map<string, nat>, func: Function)
    requires ArityTable(fs, arity)
    requires NormaliseFunctionName(func.name.word) in arity ==> arity[NormaliseFunctionName(func.name.word)] <= |func.params|
    ensures ParamsCovered(fs, func)
  {
  }

  /** A definition that is not rejected keeps the arity table exact. */
  lemma ArityAfterFunction(g: Gen, func: Function, broken: FunctionIR -> bool, arity: map<string, nat>)
    requires LowerableFunction(func) && ParamsCovered(g.functions, func)
    requires ArityTable(g.functions, arity)
    ensures var r := LowerFunction(g, func, broken);
      r.ok ==> ArityTable(r.gen.functions, Noted(arity, func))
  {
    var r := LowerFunction(g, func, broken);
    if r.ok {
      FunctionDeclared(g, func, broken);
      ArityOfDeclared(g.functions, r.gen.functions, NormaliseFunctionName(func.name.word), |func.params|, arity);
    }
  }

  /** The arity table after a module grows by at most the declaration of
      `name` with `count` parameters, the other signatures unchanged. */
  lemma ArityOfDeclared(before: seq<FunctionIR>, after: seq<FunctionIR>, name: string, count: nat, arity: map<string, nat>)
    requires ArityTable(before, arity)
    requires |after| == |before| + (if Find(before, name).None? then 1 else 0)
    requires forall j :: 0 <= j < |before| ==> Declaration(after[j]) == Declaration(before[j])
    requires Find(before, name).None? ==> after[|before|].name == name && |after[|before|].params| == count
    requires Find(after, name).Some?
    ensures ArityTable(after, if name in arity then arity else arity[name := count])
  {
    ArityCountsOfDeclared(before, after, name, count, arity);
    ArityNamesOfDeclared(before, after, name, count, arity);
  }

  lemma ArityCountsOfDeclared(before: seq<FunctionIR>, after: seq<FunctionIR>, name: string, count: nat, arity: map<string, nat>)
    requires ArityTable(before, arity)
    requires |after| == |before| + (if Find(before, name).None? then 1 else 0)
    requires forall j :: 0 <= j < |before| ==> Declaration(after[j]) == Declaration(before[j])
    requires Find(before, name).None? ==> after[|before|].name == name && |after[|before|].params| == count
    ensures var noted := if name in arity then arity else arity[name := count];
      forall j :: 0 <= j < |after| ==> after[j].name in noted && noted[after[j].name] == |after[j].params|
  {
    var noted := if name in arity then arity else arity[name := count];
    assert name in arity <==> Find(before, name).Some?;
    forall j | 0 <= j < |after|
      ensures after[j].name in noted && noted[after[j].name] == |after[j].params|
    {
      if j < |before| {
        assert Declaration(after[j]) == Declaration(before[j]);
        assert after[j].name == before[j].name && after[j].params == before[j].params;
        assert before[j].name in arity;
      } else {
        assert j == |before| && name !in arity;
      }
    }
  }

  lemma ArityNamesOfDeclared(before: seq<FunctionIR>, after: seq<FunctionIR>, name: string, count: nat, arity: map<string, nat>)
    requires ArityTable(before, arity)
    requires |after| >= |before|
    requires forall j :: 0 <= j < |before| ==> Declaration(after[j]) == Declaration(before[j])
    requires Find(after, name).Some?
    ensures var noted := if name in arity then arity else arity[name := count];
      forall n :: n in noted ==> Find(after, n).Some?
  {
    var noted := if name in arity then arity else arity[name := count];
    forall n | n in noted
      ensures Find(after, n).Some?
    {
      if n in arity {
        var k := Find(before, n).value;
        assert Declaration(after[k]) == Declaration(before[k]);
        assert after[k].name == n;
      }
    }
  }

  /** The loop of `generate` over the definitions from `i`: it stops at
      the first one that fails. `arity` is the module's arity table. */
  function LowerFunctions(g: Gen, fs: seq<Function>, i: nat, broken: FunctionIR -> bool, ghost arity: map<string, nat>): (r: Outcome)
    requires i <= |fs| && forall k :: 0 <= k < |fs| ==> LowerableFunction(fs[k])
    requires ArityTable(g.functions, arity) && AritiesCovered(arity, fs, i)
    decreases |fs| - i
  {
    if i == |fs| then Outcome(true, g)
    else
      ArityCovers(g.functions, arity, fs[i]);
      var o := LowerFunction(g, fs[i], broken);
      if !o.ok then o
      else
        ArityAfterFunction(g, fs[i], broken, arity);
        LowerFunctions(o.gen, fs, i + 1, broken, Noted(arity, fs[i]))
  }

  /** `generate` on a fresh generator: the symbol table cleared, `printf`
      declared, every definition lowered in order, then the output file
      written; `writable` says whether it could be opened. */
  function Generate(g: Gen, p: Program, broken: FunctionIR -> bool, writable: bool): (r: Outcome)
    requires g.functions == []
    requires forall k :: 0 <= k < |p.functions| ==> LowerableFunction(p.functions[k])
    requires AritiesCovered(map["printf" := 1], p.functions, 0)
  {
    StartArity(g.functions);
    var start := g.(named := map[], functions := g.functions + [PrintfDecl]);
    var o := LowerFunctions(start, p.functions, 0, broken, map["printf" := 1]);
    if !o.ok then o else Outcome(writable, o.gen)
  }

  /** Right after `printf` is declared, the arity table holds it alone. */
  lemma StartArity(fs: seq<FunctionIR>)
    requires fs == []
    ensures ArityTable(fs + [PrintfDecl], map["printf" := 1])
    ensures ModuleWellTerminated(fs + [PrintfDecl])
  {
    assert fs + [PrintfDecl] == [PrintfDecl];
    assert Find([PrintfDecl], "printf") == Some(0);
  }

  /** The definitions from `i` on, lowered without a failure, leave every
      block of the module well terminated. */
  lemma {:induction false} FunctionsKeepModule(g: Gen, fs: seq<Function>, i: nat, broken: FunctionIR -> bool, arity: map<string, nat>)
    requires i <= |fs| && forall k :: 0 <= k < |fs| ==> LowerableFunction(fs[k])
    requires ArityTable(g.functions, arity) && AritiesCovered(arity, fs, i)
    requires ModuleWellTerminated(g.functions)
    ensures var r := LowerFunctions(g, fs, i, broken, arity);
      r.ok ==> ModuleWellTerminated(r.gen.functions)
    decreases |fs| - i
  {
    if i < |fs| {
      ArityCovers(g.functions, arity, fs[i]);
      var o := LowerFunction(g, fs[i], broken);
      if o.ok {
        FunctionStep(g, fs[i], broken, arity);
        FunctionsKeepModule(o.gen, fs, i + 1, broken, Noted(arity, fs[i]));
      }
    }
  }

  /** ... and leave the signatures of the functions already declared
      alone. */
  lemma {:induction false} FunctionsKeepDeclarations(g: Gen, fs: seq<Function>, i: nat, broken: FunctionIR -> bool, arity: map<string, nat>)
    requires i <= |fs| && forall k :: 0 <= k < |fs| ==> LowerableFunction(fs[k])
    requires ArityTable(g.functions, arity) && AritiesCovered(arity, fs, i)
    requires ModuleWellTerminated(g.functions)
    ensures var r := LowerFunctions(g, fs, i, broken, arity);
      r.ok ==>
        |r.gen.functions| >= |g.functions| &&
        forall j :: 0 <= j < |g.functions| ==> Declaration(r.gen.functions[j]) == Declaration(g.functions[j])
    decreases |fs| - i
  {
    if i < |fs| {
      ArityCovers(g.functions, arity, fs[i]);
      var o := LowerFunction(g, fs[i], broken);
      if o.ok {
        FunctionStep(g, fs[i], broken, arity);
        FunctionsKeepDeclarations(o.gen, fs, i + 1, broken, Noted(arity, fs[i]));
      }
    }
  }

  /** ... and keep every name of the arity table declared. */
  lemma {:induction false} FunctionsKeepNames(g: Gen, fs: seq<Function>, i: nat, broken: FunctionIR -> bool, arity: map<string, nat>)
    requires i <= |fs| && forall k :: 0 <= k < |fs| ==> LowerableFunction(fs[k])
    requires ArityTable(g.functions, arity) && AritiesCovered(arity, fs, i)
    requires ModuleWellTerminated(g.functions)
    ensures var r := LowerFunctions(g, fs, i, broken, arity);
      r.ok ==> forall n :: n in arity ==> Find(r.gen.functions, n).Some?
    decreases |fs| - i
  {
    if i < |fs| {
      ArityCovers(g.functions, arity, fs[i]);
      var o := LowerFunction(g, fs[i], broken);
      if o.ok {
        FunctionStep(g, fs[i], broken, arity);
        FunctionsKeepNames(o.gen, fs, i + 1, broken, Noted(arity, fs[i]));
      }
    }
  }

  /** ... and declare every one of those definitions under its normalised
      name. */
  lemma {:induction false} FunctionsDeclareNames(g: Gen, fs: seq<Function>, i: nat, broken: FunctionIR -> bool, arity: map<string, nat>)
    requires i <= |fs| && forall k :: 0 <= k < |fs| ==> LowerableFunction(fs[k])
    requires ArityTable(g.functions, arity) && AritiesCovered(arity, fs, i)
    requires ModuleWellTerminated(g.functions)
    ensures var r := LowerFunctions(g, fs, i, broken, arity);
      r.ok ==> forall k :: i <= k < |fs| ==> Find(r.gen.functions, NormaliseFunctionName(fs[k].name.word)).Some?
    decreases |fs| - i
  {
    if i < |fs| {
      ArityCovers(g.functions, arity, fs[i]);
      var o := LowerFunction(g, fs[i], broken);
      if o.ok {
        ArityAfterFunction(g, fs[i], broken, arity);
        FunctionKeepsModuleWellTerminated(g, fs[i], broken);
        var noted := Noted(arity, fs[i]);
        FunctionsKeepNames(o.gen, fs, i + 1, broken, noted);
        FunctionsDeclareNames(o.gen, fs, i + 1, broken, noted);
        var r := LowerFunctions(o.gen, fs, i + 1, broken, noted);
        assert LowerFunctions(g, fs, i, broken, arity) == r;
        if r.ok {
          NamesFromTable(r.gen.functions, noted, fs, i);
        }
      }
    }
  }

  lemma NamesFromTable(fns: seq<FunctionIR>, noted: map<string, nat>, fs: seq<Function>, i: nat)
    requires i < |fs| && NormaliseFunctionName(fs[i].name.word) in noted
    requires forall n :: n in noted ==> Find(fns, n).Some?
    requires forall k :: i + 1 <= k < |fs| ==> Find(fns, NormaliseFunctionName(fs[k].name.word)).Some?
    ensures forall k :: i <= k < |fs| ==> Find(fns, NormaliseFunctionName(fs[k].name.word)).Some?
  {
  }

  /** One definition that is not rejected: what the lemmas above carry
      from one definition to the next. */
  lemma FunctionStep(g: Gen, func: Function, broken: FunctionIR -> bool, arity: map<string, nat>)
    requires LowerableFunction(func) && ParamsCovered(g.functions, func)
    requires ArityTable(g.functions, arity) && ModuleWellTerminated(g.functions)
    ensures var o := LowerFunction(g, func, broken); var noted := Noted(arity, func);
      o.ok ==>
        ArityTable(o.gen.functions, noted) && ModuleWellTerminated(o.gen.functions) &&
        |o.gen.functions| >= |g.functions| &&
        (forall j :: 0 <= j < |g.functions| ==> Declaration(o.gen.functions[j]) == Declaration(g.functions[j])) &&
        NormaliseFunctionName(func.name.word) in noted && (forall n :: n in arity ==> n in noted)
  {
    ArityAfterFunction(g, func, broken, arity);
    FunctionDeclared(g, func, broken);
    FunctionKeepsModuleWellTerminated(g, func, broken);
  }

  /** A successful `generate` had its output file open and keeps the
      `printf` declaration first. */
  lemma GenerateKeepsPrintf(g: Gen, p: Program, broken: FunctionIR -> bool, writable: bool)
    requires g.functions == []
    requires forall k :: 0 <= k < |p.functions| ==> LowerableFunction(p.functions[k])
    requires AritiesCovered(map["printf" := 1], p.functions, 0)
    ensures var r := Generate(g, p, broken, writable);
      r.ok ==> writable && |r.gen.functions| > 0 && Declaration(r.gen.functions[0]) == PrintfDecl
  {
    StartArity(g.functions);
    var start := g.(named := map[], functions := g.functions + [PrintfDecl]);
    FunctionsKeepDeclarations(start, p.functions, 0, broken, map["printf" := 1]);
  }

  /** After a successful `generate` every block of the module is well
      terminated. */
  lemma GenerateWellTerminated(g: Gen, p: Program, broken: FunctionIR -> bool, writable: bool)
    requires g.functions == []
    requires forall k :: 0 <= k < |p.functions| ==> LowerableFunction(p.functions[k])
    requires AritiesCovered(map["printf" := 1], p.functions, 0)
    ensures var r := Generate(g, p, broken, writable);
      r.ok ==> ModuleWellTerminated(r.gen.functions)
  {
    StartArity(g.functions);
    var start := g.(named := map[], functions := g.functions + [PrintfDecl]);
    FunctionsKeepModule(start, p.functions, 0, broken, map["printf" := 1]);
  }

  /** After a successful `generate` every definition of the program is in
      the module under its normalised name. */
  lemma GenerateDeclaresAll(g: Gen, p: Program, broken: FunctionIR -> bool, writable: bool)
    requires g.functions == []
    requires forall k :: 0 <= k < |p.functions| ==> LowerableFunction(p.functions[k])
    requires AritiesCovered(map["printf" := 1], p.functions, 0)
    ensures var r := Generate(g, p, broken, writable);
      r.ok ==> forall k :: 0 <= k < |p.functions| ==> Find(r.gen.functions, NormaliseFunctionName(p.functions[k].name.word)).Some?
  {
    StartArity(g.functions);
    var start := g.(named := map[], functions := g.functions + [PrintfDecl]);
    FunctionsDeclareNames(start, p.functions, 0, broken, map["printf" := 1]);
  }

  /** `generate` fails when the output file cannot be opened. */
  lemma UnopenedOutputFails(g: Gen, p: Program, broken: FunctionIR -> bool)
    requires g.functions == []
    requires forall k :: 0 <= k < |p.functions| ==> LowerableFunction(p.functions[k])
    requires AritiesCovered(map["printf" := 1], p.functions, 0)
    ensures !Generate(g, p, broken, false).ok
  {
  }
}
