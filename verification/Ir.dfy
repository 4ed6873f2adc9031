/** The part of a module the instrumentation passes look at. */
module Ir {
  import opened Text
  import opened Metadata

  datatype Type = BytePointer | Void | Other

  /** `Prog` registers are the program's own values; `Temp` registers are values a pass creates. */
  datatype Register = Prog(n: nat) | Temp(site: int, slot: nat)

  datatype Operand =
    | Number(n: int)
    | Name(text: string)
    | NullPointer
    | Argument(index: nat, ty: Type)
    | Result(reg: Register, ty: Type)

  datatype Signature = Signature(parameters: seq<Type>, variadic: bool, result: Type)

  datatype Callee = Direct(name: string, sig: Signature) | Indirect(pointer: Operand, sig: Signature)

  datatype Instr =
    | Call(dst: Option<Register>, callee: Callee, args: seq<Operand>,
           site: Option<seq<Node>>, tags: Option<seq<Node>>)
    | Cast(def: Register, source: Operand)
    | Phi(def: Register, incoming: seq<(nat, Operand)>)
    | Op(dst: Option<Register>, code: string, args: seq<Operand>)
    | Jump(target: nat)
    | Branch(condition: Operand, yes: nat, no: nat)
    | Return(value: Option<Operand>)

  type Block = seq<Instr>

  /** A function without blocks is a declaration. */
  datatype Function = Function(name: string, sig: Signature, blocks: seq<Block>)

  class Module {
    var functions: seq<Function>

    constructor (functions: seq<Function>)
      ensures this.functions == functions
    {
      this.functions := functions;
    }
  }

  const ADD_TAG := "__CRAB_intrinsic_add_tag"
  const SET_MODIFIED := "sea_dsa_set_modified"
  const LOG_INIT := "clam_prov_logging_init"
  const LOG_BUFFER := "clam_prov_logging_buffer"
  const LOG_SHUTDOWN := "clam_prov_logging_shutdown"
  const MAIN := "main"
  const WRAPPER_PREFIX := "clam_prov_sink"

  predicate IsIntrinsic(name: string) {
    name == ADD_TAG || name == SET_MODIFIED
  }

  predicate IsLogger(name: string) {
    name == LOG_INIT || name == LOG_BUFFER || name == LOG_SHUTDOWN
  }

  predicate IsWrapperName(name: string) {
    StartsWith(name, WRAPPER_PREFIX)
  }

  predicate IsDirectCall(i: Instr) {
    i.Call? && i.callee.Direct?
  }

  /** A call to one of the analysis' intrinsics whose result nobody reads. */
  predicate IsIntrinsicCall(i: Instr) {
    IsDirectCall(i) && i.dst.None? && IsIntrinsic(i.callee.name)
  }

  predicate IsLoggerCall(i: Instr) {
    IsDirectCall(i) && i.dst.None? && IsLogger(i.callee.name)
  }

  /** A block and an index into it. */
  type Position = (nat, nat)

  predicate IsPosition(blocks: seq<Block>, p: Position) {
    p.0 < |blocks| && p.1 < |blocks[p.0]|
  }

  function InstrAt(blocks: seq<Block>, p: Position): Instr
    requires IsPosition(blocks, p)
  {
    blocks[p.0][p.1]
  }

  function Find(fs: seq<Function>, name: string): Option<Function> {
    if fs == [] then None
    else if fs[0].name == name then Some(fs[0])
    else Find(fs[1..], name)
  }

  /** The identifier of a direct call that carries call-site metadata. */
  function SiteOf(i: Instr): Option<int> {
    if IsDirectCall(i) then GetSiteId(i.site) else None
  }

  const SET_MODIFIED_SIG := Signature([BytePointer], false, Void)
  const ADD_TAG_SIG := Signature([BytePointer, Other], false, Void)

  /** `CreateBitOrPointerCast` to `i8*` builds an instruction unless the value is a constant or has the type already. */
  predicate NeedsCast(o: Operand) {
    (o.Argument? || o.Result?) && o.ty != BytePointer
  }

  function CastOperand(o: Operand, reg: Register): Operand {
    if NeedsCast(o) then Result(reg, BytePointer) else o
  }

  function CastCode(o: Operand, reg: Register): seq<Instr> {
    if NeedsCast(o) then [Cast(reg, o)] else []
  }

  function SetModifiedCall(o: Operand): Instr {
    Call(None, Direct(SET_MODIFIED, SET_MODIFIED_SIG), [o], None, None)
  }
}
