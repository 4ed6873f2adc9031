/**
 Execution of a module, one instruction at a time.  Memory, arithmetic and the functions a module only
 declares are answered by an environment that sees everything they were asked before, so a
 statement for every environment covers every memory and every answer of the outside world.  External
 functions answer and return: one that calls back into the module, or starts a thread in it, is not covered.
 A register that has not been written reads as zero; `AcceptedModules` says when the tool leaves such a read behind.
 */
module Semantics {
  import opened Text
  import opened Ir

  datatype Value = Num(n: int) | Str(s: string)

  datatype Query = Operation(code: string, operands: seq<Value>) | External(name: string, arguments: seq<Value>)

  /** `answer` gives results; `target` is the function a code pointer stands for. */
  datatype Environment = Environment(answer: (Query, seq<Query>) -> Value, target: Value -> string)

  datatype Event =
    | Enter(fn: string, args: seq<Value>, site: Option<int>)
    | Leave(fn: string, result: Value, site: Option<int>)
    | Logger(fn: string, args: seq<Value>)

  type Registers = map<Register, Value>

  /** An activation: `entry` holds the registers as they were when the block was entered, for its phis. */
  datatype Frame = Frame(fn: string, args: seq<Value>, block: nat, pc: nat, prev: nat,
                         entry: Registers, regs: Registers, ret: Option<Register>, site: Option<int>)

  datatype Stack = Empty | Push(top: Frame, rest: Stack)

  datatype State = State(stack: Stack, world: seq<Query>, trace: seq<Event>, result: Option<Value>)

  function Read(regs: Registers, r: Register): Value {
    if r in regs then regs[r] else Num(0)
  }

  function Eval(args: seq<Value>, regs: Registers, o: Operand): Value {
    match o
    case Number(n) => Num(n)
    case Name(text) => Str(text)
    case NullPointer => Num(0)
    case Argument(index, _) => if index < |args| then args[index] else Num(0)
    case Result(reg, _) => Read(regs, reg)
  }

  function EvalAll(args: seq<Value>, regs: Registers, os: seq<Operand>): (vs: seq<Value>)
    ensures |vs| == |os|
  {
    seq(|os|, i requires 0 <= i < |os| => Eval(args, regs, os[i]))
  }

  function Incoming(incoming: seq<(nat, Operand)>, prev: nat): Operand {
    if incoming == [] then Number(0)
    else if incoming[0].0 == prev then incoming[0].1
    else Incoming(incoming[1..], prev)
  }

  function Assign(regs: Registers, dst: Option<Register>, v: Value): Registers {
    if dst.Some? then regs[dst.value := v] else regs
  }

  /** The frame after an instruction that falls through with result `v`. */
  function Advance(fr: Frame, dst: Option<Register>, v: Value): Frame {
    fr.(regs := Assign(fr.regs, dst, v), pc := fr.pc + 1)
  }

  function GoTo(fr: Frame, target: nat): Frame {
    fr.(prev := fr.block, block := target, pc := 0, entry := fr.regs)
  }

  /** The callers once the callee has returned `v`. */
  function Resume(callers: Stack, dst: Option<Register>, v: Value): Stack {
    match callers
    case Empty => Empty
    case Push(fr, rest) => Push(Advance(fr, dst, v), rest)
  }

  function FetchFrom(f: Option<Function>, fr: Frame): Option<Instr> {
    if f.Some? && fr.block < |f.value.blocks| && fr.pc < |f.value.blocks[fr.block]|
    then Some(f.value.blocks[fr.block][fr.pc])
    else None
  }

  function Fetch(fs: seq<Function>, fr: Frame): Option<Instr> {
    FetchFrom(Find(fs, fr.fn), fr)
  }

  function NewFrame(fn: string, args: seq<Value>, ret: Option<Register>, site: Option<int>): Frame {
    Frame(fn, args, 0, 0, 0, map[], map[], ret, site)
  }

  function CalleeName(env: Environment, fr: Frame, callee: Callee): string {
    match callee
    case Direct(name, _) => name
    case Indirect(pointer, _) => env.target(Eval(fr.args, fr.regs, pointer))
  }

  /** What a function hands back: nothing, modelled as zero, when it is void. */
  function Handed(sig: Signature, v: Value): Value {
    if sig.result.Void? then Num(0) else v
  }

  /** A call that is neither to an intrinsic nor to the logger; a callee the module does not know is stuck. */
  function ExecCall(fs: seq<Function>, env: Environment, i: Instr, s: State): State
    requires i.Call? && s.stack.Push?
  {
    var fr := s.stack.top;
    var name := CalleeName(env, fr, i.callee);
    var args := EvalAll(fr.args, fr.regs, i.args);
    match Find(fs, name)
    case None => s
    case Some(f) =>
      var entered := s.trace + [Enter(name, args, SiteOf(i))];
      if f.blocks == [] then
        var q := External(name, args);
        var v := Handed(f.sig, env.answer(q, s.world));
        s.(stack := Push(Advance(fr, i.dst, v), s.stack.rest), world := s.world + [q],
           trace := entered + [Leave(name, v, SiteOf(i))])
      else
        s.(stack := Push(NewFrame(name, args, i.dst, SiteOf(i)), s.stack), trace := entered)
  }

  function ExecReturn(fs: seq<Function>, i: Instr, s: State): State
    requires i.Return? && s.stack.Push?
  {
    var fr := s.stack.top;
    match Find(fs, fr.fn)
    case None => s
    case Some(f) =>
      var v := Handed(f.sig, if i.value.Some? then Eval(fr.args, fr.regs, i.value.value) else Num(0));
      s.(stack := Resume(s.stack.rest, fr.ret, v),
         trace := s.trace + [Leave(fr.fn, v, fr.site)],
         result := if s.stack.rest.Empty? then Some(v) else s.result)
  }

  function Exec(fs: seq<Function>, env: Environment, i: Instr, s: State): State
    requires s.stack.Push?
  {
    var fr := s.stack.top;
    if IsIntrinsicCall(i) then
      s.(stack := Push(Advance(fr, None, Num(0)), s.stack.rest))
    else if IsLoggerCall(i) then
      s.(stack := Push(Advance(fr, None, Num(0)), s.stack.rest),
         trace := s.trace + [Logger(i.callee.name, EvalAll(fr.args, fr.regs, i.args))])
    else
      match i
      case Call(_, _, _, _, _) => ExecCall(fs, env, i, s)
      case Cast(dst, source) =>
        s.(stack := Push(Advance(fr, Some(dst), Eval(fr.args, fr.regs, source)), s.stack.rest))
      case Phi(dst, incoming) =>
        s.(stack := Push(Advance(fr, Some(dst), Eval(fr.args, fr.entry, Incoming(incoming, fr.prev))), s.stack.rest))
      case Op(out, code, args) =>
        var q := Operation(code, EvalAll(fr.args, fr.regs, args));
        s.(stack := Push(Advance(fr, out, env.answer(q, s.world)), s.stack.rest), world := s.world + [q])
      case Jump(target) =>
        s.(stack := Push(GoTo(fr, target), s.stack.rest))
      case Branch(condition, yes, no) =>
        var target := if Eval(fr.args, fr.regs, condition) == Num(0) then no else yes;
        s.(stack := Push(GoTo(fr, target), s.stack.rest))
      case Return(_) => ExecReturn(fs, i, s)
  }

  /** One step; a finished or stuck run stays where it is. */
  function Step(fs: seq<Function>, env: Environment, s: State): State {
    if s.stack.Empty? then s
    else
      match Fetch(fs, s.stack.top)
      case None => s
      case Some(i) => Exec(fs, env, i, s)
  }

  function Run(fs: seq<Function>, env: Environment, s: State, n: nat): State {
    if n == 0 then s else Step(fs, env, Run(fs, env, s, n - 1))
  }

  function Start(entry: string, args: seq<Value>): State {
    State(Push(NewFrame(entry, args, None, None), Empty), [], [], None)
  }

  /** What a run shows apart from its instrumentation: logger calls and wrapper activations are dropped. */
  datatype Observation = Observation(events: seq<Event>, world: seq<Query>, result: Option<Value>)

  predicate IsProgramEvent(e: Event) {
    !e.Logger? && !IsWrapperName(e.fn)
  }

  function ProgramEvents(trace: seq<Event>): seq<Event> {
    if trace == [] then []
    else
      ProgramEvents(trace[..|trace| - 1]) +
      if IsProgramEvent(trace[|trace| - 1]) then [trace[|trace| - 1]] else []
  }

  function Observe(s: State): Observation {
    Observation(ProgramEvents(s.trace), s.world, s.result)
  }

  ghost predicate Reaches(fs: seq<Function>, env: Environment, entry: string, args: seq<Value>, o: Observation) {
    exists n: nat :: Observe(Run(fs, env, Start(entry, args), n)) == o
  }

  /**
   Two modules run alike when they show the same observations, prefix for prefix: the calls with their arguments,
   results and call-site ids, everything asked of the environment, and whether and with what the run ends.
   */
  ghost predicate SameRuns(fs: seq<Function>, gs: seq<Function>, env: Environment, entry: string, args: seq<Value>) {
    forall o: Observation :: Reaches(fs, env, entry, args, o) <==> Reaches(gs, env, entry, args, o)
  }

  lemma ProgramEventsSnoc(trace: seq<Event>, e: Event)
    ensures ProgramEvents(trace + [e]) == ProgramEvents(trace) + if IsProgramEvent(e) then [e] else []
  {
    assert (trace + [e])[..|trace|] == trace;
  }
}
