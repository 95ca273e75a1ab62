/** The `CodeGenerator` class of NexusCompiler/src/CodeGen/CodeGen.cpp: the
    symbol table, the module and the insertion point are fields its
    `codegen` overloads update in place. Each method is proved to leave
    the state the matching function of `Lowering` computes from the state
    before it, and to return what that function returns. */
module CodeGen {
  import opened Wrappers
  import opened CType
  import opened TokKinds
  import opened Ast
  import opened LlvmIr
  import opened FormatText
  import opened Lowering

  class CodeGenerator {
    var namedValues: map<string, VarInfo>
    var functions: seq<FunctionIR>
    var globals: seq<string>
    var block: seq<Inst>
    var errors: seq<string>
    /** `llvm::verifyFunction`: whether a finished function is rejected. */
    const broken: FunctionIR -> bool

    ghost function State(): Gen
      reads this
    {
      Gen(namedValues, functions, globals, block, errors)
    }

    /** A generator over an empty module. */
    constructor(broken: FunctionIR -> bool)
      ensures State() == Gen(map[], [], [], [], []) && this.broken == broken
    {
      namedValues := map[];
      functions := [];
      globals := [];
      block := [];
      errors := [];
      this.broken := broken;
    }

    /** `logErrorV`. */
    method LogError(msg: string)
      modifies this
      ensures State() == Log(old(State()), msg)
    {
      errors := errors + [msg];
    }

    /** An `IRBuilder` `Create*` call at the insertion point. */
    method Insert(inst: Inst) returns (v: Value)
      modifies this
      ensures Lowered(Some(v), State()) == Emit(old(State()), inst)
    {
      v := InstResult(|block|);
      block := block + [inst];
    }

    /** `getLLVMType`. */
    method GetLlvmTypeOf(typeId: Token) returns (ty: Option<LlvmType>)
      modifies this
      ensures ty == GetLlvmType(typeId.word)
      ensures State() == if ty.None? then Log(old(State()), "Unknown type: " + typeId.word) else old(State())
    {
      ty := GetLlvmType(typeId.word);
      if ty.None? {
        LogError("Unknown type: " + typeId.word);
      }
    }

    /** `codegen(const Expression &)`. */
    method CodegenExpr(e: Expr) returns (v: Option<Value>)
      requires LowerableExpr(e)
      modifies this
      ensures Lowered(v, State()) == LowerExpr(old(State()), e)
      decreases e, 2
    {
      match e
      case IdentExpr(name) =>
        if name.word !in namedValues {
          LogError("Unknown variable");
          return None;
        }
        var info := namedValues[name.word];
        var load := Insert(Load(info.ty, info.slot, name.word + "_load"));
        v := Some(load);
      case IntLitExpr(lit) =>
        v := Some(ConstInt(I32, Int32Bits(DecimalValue(lit.word))));
      case StrLitExpr(lit) =>
        v := Some(GlobalString(|globals|));
        globals := globals + [lit.word];
      case CallExpr(callee, args) =>
        v := CodegenCall(NormaliseFunctionName(callee.word), args);
      case Assignment(target, value) =>
        v := CodegenAssignment(target, value);
      case Increment(target) =>
        v := CodegenIncrement(target);
      case AssignExpr(_, _) =>
        LogError("Unknown expression type");
        v := None;
    }

    /** The call branch, `name` already normalised. */
    method CodegenCall(name: string, args: seq<Expr>) returns (v: Option<Value>)
      requires forall k :: 0 <= k < |args| ==> LowerableExpr(args[k])
      modifies this
      ensures Lowered(v, State()) == LowerCall(old(State()), name, args)
      decreases args, |args| + 1
    {
      if name == "printf" && |args| == 1 && args[0].StrLitExpr? {
        v := CodegenPrintf(args[0].lit.word);
        return;
      }
      var k := Find(functions, name);
      if k.None? {
        LogError("Unknown function: " + name);
        return None;
      }
      var callee := functions[k.value];
      if !callee.isVarArg && |callee.params| != |args| {
        LogError("Incorrect # arguments");
        return None;
      }
      ghost var start := State();
      var argsV: seq<Value> := [];
      var i := 0;
      while i < |args|
        invariant 0 <= i <= |args|
        invariant LowerArgs(State(), args, i, argsV) == LowerArgs(start, args, 0, [])
      {
        var a := CodegenExpr(args[i]);
        if a.None? {
          return None;
        }
        argsV := argsV + [a.value];
        i := i + 1;
      }
      var call := Insert(Call(name, argsV));
      v := Some(call);
    }

    /** The interpolating `printf` branch. */
    method CodegenPrintf(raw: string) returns (v: Option<Value>)
      modifies this
      ensures Lowered(v, State()) == LowerPrintf(old(State()), raw)
    {
      var fmt, names := ExpandInterpolation(raw, namedValues);
      if fmt == [] || fmt[|fmt| - 1] != '\n' {
        fmt := fmt + "\n";
      }
      fmt := ReplaceHexColors(fmt);
      fmt := fmt + Reset;
      var fmtPtr := GlobalString(|globals|);
      globals := globals + [fmt];
      if Find(functions, "printf").None? {
        LogError("printf not declared");
        return None;
      }
      var argsV := LoadPlaceholders(names, [fmtPtr]);
      if argsV.None? {
        return None;
      }
      var call := Insert(Call("printf", argsV.value));
      v := Some(call);
    }

    /** The loads of the placeholder variables, after the arguments in
        `acc`. */
    method LoadPlaceholders(names: seq<string>, acc: seq<Value>) returns (args: Option<seq<Value>>)
      modifies this
      ensures Lowered(args, State()) == LoadNames(old(State()), names, 0, acc)
    {
      var argsV := acc;
      var i := 0;
      while i < |names|
        invariant 0 <= i <= |names|
        invariant LoadNames(State(), names, i, argsV) == LoadNames(old(State()), names, 0, acc)
      {
        var vn := names[i];
        if vn !in namedValues {
          LogError("Undefined variable in format string: " + vn);
          return None;
        }
        var load := Insert(Load(namedValues[vn].ty, namedValues[vn].slot, vn + "_load"));
        argsV := argsV + [load];
        i := i + 1;
      }
      args := Some(argsV);
    }

    /** The assignment branch. */
    method CodegenAssignment(target: Token, value: Expr) returns (v: Option<Value>)
      requires LowerableExpr(value)
      modifies this
      ensures Lowered(v, State()) == LowerAssignment(old(State()), target, value)
      decreases value, 3
    {
      if target.word !in namedValues {
        LogError("Cannot assign to unknown variable");
        return None;
      }
      var slot := namedValues[target.word].slot;
      v := CodegenExpr(value);
      if v.None? {
        return;
      }
      var store := Insert(Store(v.value, slot));
    }

    /** The increment branch. */
    method CodegenIncrement(target: Token) returns (v: Option<Value>)
      modifies this
      ensures Lowered(v, State()) == LowerIncrement(old(State()), target)
    {
      if target.word !in namedValues {
        LogError("Unknown variable in ++");
        return None;
      }
      var info := namedValues[target.word];
      var cur := Insert(Load(info.ty, info.slot, "load_inc"));
      var add := Insert(Add(cur, ConstInt(info.ty, 1)));
      var store := Insert(Store(add, info.slot));
      v := Some(add);
    }

    /** `codegen(const Statement &)`. Its result is not used by any caller
        and is not modelled. */
    method CodegenStmt(s: Stmt)
      requires LowerableStmt(s)
      modifies this
      ensures State() == LowerStmt(old(State()), s)
    {
      match s
      case VarDecl(typ, name, init) =>
        var ty := GetLlvmTypeOf(typ);
        if ty.None? {
          LogError("Unknown type in var decl");
          return;
        }
        var slot := Insert(Alloca(ty.value, name.word));
        if init.Some? {
          var initVal := CodegenExpr(init.value);
          if initVal.None? {
            return;
          }
          var store := Insert(Store(initVal.value, slot));
        }
        namedValues := namedValues[name.word := VarInfo(slot, ty.value)];
      case ExprStmt(e) =>
        var ignored := CodegenExpr(e.value);
      case Return(value) =>
        if value.Some? {
          var rv := CodegenExpr(value.value);
          if rv.None? {
            return;
          }
          var ret := Insert(Ret(rv.value));
        } else {
          var ret := Insert(RetVoid);
        }
    }

    /** `codegen(const Block &)`. */
    method CodegenBlock(b: Block)
      requires forall k :: 0 <= k < |b.statements| ==> LowerableStmt(b.statements[k])
      modifies this
      ensures State() == LowerStmts(old(State()), b.statements, 0)
    {
      var i := 0;
      while i < |b.statements|
        invariant 0 <= i <= |b.statements|
        invariant LowerStmts(State(), b.statements, i) == LowerStmts(old(State()), b.statements, 0)
      {
        if Terminated(block) {
          break;
        }
        CodegenStmt(b.statements[i]);
        i := i + 1;
      }
    }

    /** `codegen(const Function &)`: whether it returned the function. */
    method CodegenFunction(func: Function) returns (ok: bool)
      requires LowerableFunction(func) && ParamsCovered(functions, func)
      modifies this
      ensures Outcome(ok, State()) == LowerFunction(old(State()), func, broken)
    {
      var fname := NormaliseFunctionName(func.name.word);
      var paramTypes := TypeParams(func.params);
      if paramTypes.None? {
        return false;
      }
      var k := DeclareFunction(fname, paramTypes.value);
      DefineBody(k, func);
      ok := CommitFunction(k);
    }

    /** The declaration a definition fills: found by name, or appended. */
    method DeclareFunction(name: string, types: seq<LlvmType>) returns (k: nat)
      modifies this
      ensures State() == old(State()).(functions := Declare(old(functions), name, types))
      ensures Find(functions, name) == Some(k)
    {
      var found := Find(functions, name);
      if found.None? {
        functions := functions + [FunctionIR(name, I32, types, false, [])];
        found := Some(|functions| - 1);
      }
      k := found.value;
    }

    /** The parameter loop of `codegen(const Function &)`. */
    method TypeParams(ps: seq<Parameter>) returns (types: Option<seq<LlvmType>>)
      modifies this
      ensures Lowered(types, State()) == ParamTypes(old(State()), ps, 0, [])
    {
      var acc: seq<LlvmType> := [];
      var i := 0;
      while i < |ps|
        invariant 0 <= i <= |ps|
        invariant State() == old(State())
        invariant ParamTypes(State(), ps, i, acc) == ParamTypes(old(State()), ps, 0, [])
      {
        var t := GetLlvmTypeOf(ps[i].typ);
        if t.None? {
          return None;
        }
        acc := acc + [t.value];
        i := i + 1;
      }
      types := Some(acc);
    }

    /** The entry block of the declaration at `k`: arguments bound, body
        lowered, and `ret i32 0` added when the body leaves it open. */
    method DefineBody(k: nat, func: Function)
      requires k < |functions| && |functions[k].params| <= |func.params| && LowerableFunction(func)
      modifies this
      ensures State() == LowerBody(old(State()), k, func)
    {
      block := [];
      namedValues := map[];
      BindArguments(functions[k].params, func.params);
      CodegenBlock(func.body.value);
      if !Terminated(block) {
        var ret := Insert(Ret(ConstInt(I32, 0)));
      }
    }

    /** The argument loop: a slot per argument, the argument stored in it
        and the parameter's name bound to it. */
    method BindArguments(types: seq<LlvmType>, ps: seq<Parameter>)
      requires |types| <= |ps|
      modifies this
      ensures State() == BindParams(old(State()), types, ps, 0)
    {
      var idx := 0;
      while idx < |types|
        invariant 0 <= idx <= |types|
        invariant BindParams(State(), types, ps, idx) == BindParams(old(State()), types, ps, 0)
      {
        var name := ps[idx].name.word;
        var slot := Insert(Alloca(types[idx], name));
        var store := Insert(Store(Argument(idx), slot));
        namedValues := namedValues[name := VarInfo(slot, types[idx])];
        idx := idx + 1;
      }
    }

    /** The block joins the function at `k`; `verifyFunction` decides
        whether it stays in the module. */
    method CommitFunction(k: nat) returns (ok: bool)
      requires k < |functions|
      modifies this
      ensures Outcome(ok, State()) == Commit(old(State()), k, broken)
    {
      var done := functions[k].(blocks := functions[k].blocks + [block]);
      if broken(done) {
        functions := Erase(functions, k);
        return false;
      }
      functions := functions[k := done];
      ok := true;
    }

    /** `generate`: `writable` says whether the output file could be
        opened. */
    method Generate(p: Program, writable: bool) returns (ok: bool)
      requires functions == []
      requires forall k :: 0 <= k < |p.functions| ==> LowerableFunction(p.functions[k])
      requires AritiesCovered(map["printf" := 1], p.functions, 0)
      modifies this
      ensures Outcome(ok, State()) == Lowering.Generate(old(State()), p, broken, writable)
    {
      StartArity(functions);
      namedValues := map[];
      functions := functions + [PrintfDecl];
      ok := CodegenFunctions(p.functions, map["printf" := 1]);
      if ok {
        ok := writable;
      }
    }

    /** The loop of `generate` over the program's definitions, stopping at
        the first one rejected; `arity` is the table of parameter counts. */
    method CodegenFunctions(fs: seq<Function>, ghost arity: map<string, nat>) returns (ok: bool)
      requires forall k :: 0 <= k < |fs| ==> LowerableFunction(fs[k])
      requires ArityTable(functions, arity) && AritiesCovered(arity, fs, 0)
      modifies this
      ensures Outcome(ok, State()) == LowerFunctions(old(State()), fs, 0, broken, arity)
    {
      ghost var noted := arity;
      var i := 0;
      while i < |fs|
        invariant 0 <= i <= |fs|
        invariant ArityTable(functions, noted) && AritiesCovered(noted, fs, i)
        invariant LowerFunctions(State(), fs, i, broken, noted) == LowerFunctions(old(State()), fs, 0, broken, arity)
      {
        ArityCovers(functions, noted, fs[i]);
        ghost var before := State();
        var fok := CodegenFunction(fs[i]);
        if !fok {
          return false;
        }
        ArityAfterFunction(before, fs[i], broken, noted);
        noted := Noted(noted, fs[i]);
        i := i + 1;
      }
      ok := true;
    }
  }
}
