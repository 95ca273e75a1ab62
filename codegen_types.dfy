/** The abstract IR the code generator of NexusCompiler/src/CodeGen/CodeGen.cpp
    builds in place of LLVM's: types, values, instructions and functions, the
    symbol table entry, and the two name tables (`normaliseFunctionName` and
    `getLLVMType`). */
module LlvmIr {
  import opened Wrappers

  /** The LLVM types the generator can meet: the six `getLLVMType` yields
      and the opaque pointer of `printf`'s format parameter. */
  datatype LlvmType = I1 | I32 | I64 | Float | Double | Void | Ptr

  predicate IsInteger(t: LlvmType) {
    t == I1 || t == I32 || t == I64
  }

  /** A value an instruction can use: an integer constant of a type (its bits
      as an unsigned number below 2 to the width), a global string (by its
      index among the module's globals), the result of the instruction at
      an index of the current block, or a function argument. */
  datatype Value =
    | ConstInt(ty: LlvmType, bits: nat)
    | GlobalString(global: nat)
    | InstResult(index: nat)
    | Argument(index: nat)

  datatype Inst =
    | Alloca(ty: LlvmType, name: string)
    | Store(value: Value, slot: Value)
    | Load(ty: LlvmType, slot: Value, name: string)
    | Add(lhs: Value, rhs: Value)
    | Call(callee: string, args: seq<Value>)
    | Ret(value: Value)
    | RetVoid

  predicate IsTerminator(i: Inst) {
    i.Ret? || i.RetVoid?
  }

  /** `getTerminator()` of the insertion block: whether its last
      instruction is a terminator. */
  predicate Terminated(block: seq<Inst>) {
    |block| > 0 && IsTerminator(block[|block| - 1])
  }

  /** A function of the module: its signature and its basic blocks. */
  datatype FunctionIR = FunctionIR(name: string, ret: LlvmType, params: seq<LlvmType>, isVarArg: bool, blocks: seq<seq<Inst>>)

  /** A `namedValues` entry: the variable's stack slot and its type. */
  datatype VarInfo = VarInfo(slot: Value, ty: LlvmType)

  /** A `namedValues.find`: the entry of `name`, if bound. */
  function Lookup(env: map<string, VarInfo>, name: string): (r: Option<VarInfo>)
    ensures r.Some? <==> name in env
    ensures r.Some? ==> r.value == env[name]
  {
    if name in env then Some(env[name]) else None
  }

  /** `Module::getFunction`: the index of the function with that name. */
  function Find(fs: seq<FunctionIR>, name: string): (r: Option<nat>)
    ensures r.Some? ==> r.value < |fs| && fs[r.value].name == name
    ensures r.Some? ==> forall k :: r.value < k < |fs| ==> fs[k].name != name
    ensures r.None? ==> forall k :: 0 <= k < |fs| ==> fs[k].name != name
  {
    if fs == [] then None
    else if fs[|fs| - 1].name == name then Some(|fs| - 1)
    else Find(fs[..|fs| - 1], name)
  }

  /** The search reads names only: two modules whose functions have the
      same names, position by position, give the same answer. */
  lemma {:induction false} FindByNames(a: seq<FunctionIR>, b: seq<FunctionIR>, name: string)
    requires |a| == |b| && forall k :: 0 <= k < |a| ==> a[k].name == b[k].name
    ensures Find(a, name) == Find(b, name)
    decreases |a|
  {
    if a != [] {
      FindByNames(a[..|a| - 1], b[..|b| - 1], name);
    }
  }

  /** `normaliseFunctionName`: the two capitalised entry points get C's
      spelling; every other name is kept. */
  function NormaliseFunctionName(name: string): (r: string)
    ensures name != "Main" && name != "Printf" ==> r == name
  {
    if name == "Main" then "main"
    else if name == "Printf" then "printf"
    else name
  }

  /** Normalising twice changes nothing more, and exactly two spellings
      reach `main` and `printf`. */
  lemma NormaliseIdempotent(name: string)
    ensures NormaliseFunctionName(NormaliseFunctionName(name)) == NormaliseFunctionName(name)
    ensures NormaliseFunctionName(name) == "main" <==> name == "Main" || name == "main"
    ensures NormaliseFunctionName(name) == "printf" <==> name == "Printf" || name == "printf"
  {
  }

  /** `getLLVMType`: the type a spelling names, `None` where the source logs
      "Unknown type" and returns null. */
  function GetLlvmType(t: string): (r: Option<LlvmType>)
    ensures r.Some? ==> r.value != Ptr
  {
    if t == "i32" || t == "int" || t == "integer" then Some(I32)
    else if t == "i64" || t == "long" then Some(I64)
    else if t == "void" then Some(Void)
    else if t == "bool" then Some(I1)
    else if t == "f32" || t == "float" then Some(Float)
    else if t == "f64" || t == "double" then Some(Double)
    else None
  }

  /** The preferred spelling of each type a program can name. */
  function Spelling(ty: LlvmType): string
    requires ty != Ptr
  {
    match ty
    case I1 => "bool"
    case I32 => "i32"
    case I64 => "i64"
    case Float => "f32"
    case Double => "f64"
    case Void => "void"
  }

  /** Every type but the pointer has a spelling, and reading it back gives
      the type; no two of them share one. */
  lemma SpellingRoundTrip(ty: LlvmType)
    requires ty != Ptr
    ensures GetLlvmType(Spelling(ty)) == Some(ty)
  {
  }

  /** The spellings of each type, in both directions. */
  lemma TypeSpellings(t: string)
    ensures GetLlvmType(t) == Some(I32) <==> t == "i32" || t == "int" || t == "integer"
    ensures GetLlvmType(t) == Some(I64) <==> t == "i64" || t == "long"
    ensures GetLlvmType(t) == Some(Float) <==> t == "f32" || t == "float"
    ensures GetLlvmType(t) == Some(Double) <==> t == "f64" || t == "double"
    ensures GetLlvmType(t).None? <==> t !in ["i32", "int", "integer", "i64", "long", "void", "bool", "f32", "float", "f64", "double"]
  {
  }

  /** The conversions `expandInterpolation` writes. */
  const Conversions: seq<string> := ["%d", "%lld", "%f", "%lf", "%p"]

  /** Which of `Conversions` a placeholder gets when its variable has
      entry `info`, or none. */
  function ConversionIndex(info: Option<VarInfo>): (k: nat)
    ensures k < 5
  {
    match info
    case None => 0
    case Some(v) =>
      if v.ty == I64 then 1
      else if IsInteger(v.ty) then 0
      else if v.ty == Float then 2
      else if v.ty == Double then 3
      else 4
  }

  /** The `printf` conversion `expandInterpolation` writes for a placeholder
      whose variable has entry `info`, or none. */
  function Specifier(info: Option<VarInfo>): (r: string)
  {
    Conversions[ConversionIndex(info)]
  }

  /** 64-bit integers print with `%lld`, the other integers and unbound
      names with `%d`, the floating types with `%f` and `%lf`, and anything
      else as a pointer. */
  lemma SpecifierChoice(info: Option<VarInfo>)
    ensures Specifier(info) == "%d" <==> info.None? || info.value.ty == I1 || info.value.ty == I32
    ensures Specifier(info) == "%lld" <==> info.Some? && info.value.ty == I64
    ensures Specifier(info) == "%p" <==> info.Some? && (info.value.ty == Void || info.value.ty == Ptr)
  {
  }
}
