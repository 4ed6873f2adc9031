/**
 Everything the passes insert besides wrappers is extra: calls to the analysis' intrinsics, calls to the logger and
 casts into fresh registers.  A module runs like the module without its extra instructions.
 */
module Erasure {
  import opened Text
  import opened Metadata
  import opened Ir
  import opened Semantics

  predicate IsExtra(i: Instr) {
    IsIntrinsicCall(i) || IsLoggerCall(i) || (i.Cast? && i.def.Temp?)
  }

  /** The instruction without analysis results. */
  function Clean(i: Instr): Instr {
    if i.Call? then i.(tags := None) else i
  }

  function EraseBlock(b: Block): Block {
    if b == [] then []
    else EraseBlock(b[..|b| - 1]) + if IsExtra(b[|b| - 1]) then [] else [Clean(b[|b| - 1])]
  }

  function EraseFunction(f: Function): (g: Function)
    ensures g.name == f.name && g.sig == f.sig && |g.blocks| == |f.blocks|
  {
    f.(blocks := seq(|f.blocks|, k requires 0 <= k < |f.blocks| => EraseBlock(f.blocks[k])))
  }

  function Erase(fs: seq<Function>): seq<Function> {
    seq(|fs|, k requires 0 <= k < |fs| => EraseFunction(fs[k]))
  }

  predicate IsProgramOperand(o: Operand) {
    o.Result? ==> o.reg.Prog?
  }

  predicate AllProgramOperands(os: seq<Operand>) {
    forall k :: 0 <= k < |os| ==> IsProgramOperand(os[k])
  }

  /** An instruction of the program proper reads and writes the program's registers only. */
  predicate IsProgramInstr(i: Instr) {
    match i
    case Call(dst, callee, args, _, _) =>
      && (dst.Some? ==> dst.value.Prog?)
      && (callee.Indirect? ==> IsProgramOperand(callee.pointer))
      && AllProgramOperands(args)
    case Cast(def, source) => def.Prog? && IsProgramOperand(source)
    case Phi(def, incoming) => def.Prog? && forall k :: 0 <= k < |incoming| ==> IsProgramOperand(incoming[k].1)
    case Op(dst, _, args) => (dst.Some? ==> dst.value.Prog?) && AllProgramOperands(args)
    case Jump(_) => true
    case Branch(condition, _, _) => IsProgramOperand(condition)
    case Return(value) => value.Some? ==> IsProgramOperand(value.value)
  }

  /** No program instruction touches a register a pass created. */
  ghost predicate Separated(fs: seq<Function>) {
    forall f, k, j :: f in fs && 0 <= k < |f.blocks| && 0 <= j < |f.blocks[k]| ==>
      IsExtra(f.blocks[k][j]) || IsProgramInstr(f.blocks[k][j])
  }

  // ---- Erased code ----

  lemma {:induction false} FindErased(fs: seq<Function>, name: string)
    ensures Find(Erase(fs), name) ==
            match Find(fs, name) case None => None case Some(f) => Some(EraseFunction(f))
    ensures Find(fs, name).Some? ==> Find(fs, name).value in fs && Find(fs, name).value.name == name
  {
    if fs != [] && fs[0].name != name {
      assert Erase(fs)[1..] == Erase(fs[1..]);
      FindErased(fs[1..], name);
    }
  }

  lemma EraseStep(b: Block, n: nat)
    requires n < |b|
    ensures EraseBlock(b[..n + 1]) == EraseBlock(b[..n]) + if IsExtra(b[n]) then [] else [Clean(b[n])]
  {
    assert b[..n + 1][..n] == b[..n];
  }

  lemma {:induction false} EraseConcat(a: Block, b: Block)
    ensures EraseBlock(a + b) == EraseBlock(a) + EraseBlock(b)
  {
    hide IsExtra;
    if b == [] {
      assert a + b == a;
    } else {
      assert (a + b)[..|a + b| - 1] == a + b[..|b| - 1];
      EraseConcat(a, b[..|b| - 1]);
    }
  }

  lemma {:induction false} EraseExtra(b: Block)
    requires forall k :: 0 <= k < |b| ==> IsExtra(b[k])
    ensures EraseBlock(b) == []
  {
    hide IsExtra;
    if b != [] {
      EraseExtra(b[..|b| - 1]);
    }
  }

  lemma EraseOne(i: Instr)
    ensures EraseBlock([i]) == if IsExtra(i) then [] else [Clean(i)]
  {
    hide IsExtra;
    assert [i][..0] == [];
  }

  /** A kept instruction is found in the erased block after as many instructions as were kept before it. */
  lemma {:induction false} ErasedAt(b: Block, n: nat)
    requires n <= |b|
    ensures |EraseBlock(b[..n])| <= |EraseBlock(b)|
    ensures n < |b| && !IsExtra(b[n]) ==>
              |EraseBlock(b[..n])| < |EraseBlock(b)| && EraseBlock(b)[|EraseBlock(b[..n])|] == Clean(b[n])
    decreases |b|
  {
    if n == |b| {
      assert b[..n] == b;
    } else {
      var c := b[..|b| - 1];
      if n == |b| - 1 {
        assert b[..n] == c;
      } else {
        assert c[..n] == b[..n];
        ErasedAt(c, n);
      }
    }
  }

  // ---- The simulation relation ----

  ghost predicate Agree(regs1: Registers, regs2: Registers) {
    forall n :: Read(regs1, Prog(n)) == Read(regs2, Prog(n))
  }

  function BlockOf(fs: seq<Function>, fr: Frame): Option<Block> {
    match Find(fs, fr.fn)
    case None => None
    case Some(f) => if fr.block < |f.blocks| then Some(f.blocks[fr.block]) else None
  }

  ghost predicate SamePlace(fs: seq<Function>, f1: Frame, f2: Frame) {
    match BlockOf(fs, f2)
    case None => true
    case Some(b) => f2.pc <= |b| && f1.pc == |EraseBlock(b[..f2.pc])|
  }

  ghost predicate FrameRel(fs: seq<Function>, f1: Frame, f2: Frame) {
    && f1 == f2.(pc := f1.pc, entry := f1.entry, regs := f1.regs)
    && Agree(f1.regs, f2.regs) && Agree(f1.entry, f2.entry)
    && (f2.ret.Some? ==> f2.ret.value.Prog?)
    && SamePlace(fs, f1, f2)
  }

  /** A suspended activation waits at an instruction that is kept. */
  ghost predicate Suspended(fs: seq<Function>, fr: Frame) {
    var b := BlockOf(fs, fr);
    b.Some? && fr.pc < |b.value| && !IsExtra(b.value[fr.pc])
  }

  ghost predicate CallersRel(fs: seq<Function>, s1: Stack, s2: Stack) {
    match s2
    case Empty => s1.Empty?
    case Push(f2, rest2) =>
      s1.Push? && FrameRel(fs, s1.top, f2) && Suspended(fs, f2) && CallersRel(fs, s1.rest, rest2)
  }

  ghost predicate Rel(fs: seq<Function>, s1: State, s2: State) {
    && s1.world == s2.world && s1.result == s2.result
    && ProgramEvents(s1.trace) == ProgramEvents(s2.trace)
    && StackRel(fs, s1.stack, s2.stack)
  }

  ghost predicate StackRel(fs: seq<Function>, s1: Stack, s2: Stack) {
    && (s1.Empty? <==> s2.Empty?)
    && (s2.Push? ==> FrameRel(fs, s1.top, s2.top) && CallersRel(fs, s1.rest, s2.rest))
  }

  // ---- One step ----

  lemma AgreeAssign(regs1: Registers, regs2: Registers, dst: Option<Register>, v: Value)
    requires Agree(regs1, regs2)
    ensures Agree(Assign(regs1, dst, v), Assign(regs2, dst, v))
    ensures dst.Some? && dst.value.Temp? ==> Agree(regs1, Assign(regs2, dst, v))
  {
  }

  lemma EvalAgree(args: seq<Value>, regs1: Registers, regs2: Registers, os: seq<Operand>)
    requires Agree(regs1, regs2) && AllProgramOperands(os)
    ensures EvalAll(args, regs1, os) == EvalAll(args, regs2, os)
  {
    forall k | 0 <= k < |os|
      ensures Eval(args, regs1, os[k]) == Eval(args, regs2, os[k])
    {
      assert IsProgramOperand(os[k]);
    }
  }

  lemma {:induction false} IncomingIsProgram(incoming: seq<(nat, Operand)>, prev: nat)
    requires forall k :: 0 <= k < |incoming| ==> IsProgramOperand(incoming[k].1)
    ensures IsProgramOperand(Incoming(incoming, prev))
  {
    if incoming != [] && incoming[0].0 != prev {
      IncomingIsProgram(incoming[1..], prev);
    }
  }

  lemma SamePlaceNext(fs: seq<Function>, f1: Frame, f2: Frame, g1: Frame, g2: Frame)
    requires SamePlace(fs, f1, f2) && Suspended(fs, f2)
    requires g1.pc == f1.pc + 1 && g2.pc == f2.pc + 1 && g2.fn == f2.fn && g2.block == f2.block
    ensures SamePlace(fs, g1, g2)
  {
    EraseStep(BlockOf(fs, f2).value, f2.pc);
  }

  lemma AdvanceRel(fs: seq<Function>, f1: Frame, f2: Frame, dst: Option<Register>, v: Value)
    requires FrameRel(fs, f1, f2) && Suspended(fs, f2)
    ensures FrameRel(fs, Advance(f1, dst, v), Advance(f2, dst, v))
  {
    AgreeAssign(f1.regs, f2.regs, dst, v);
    SamePlaceNext(fs, f1, f2, Advance(f1, dst, v), Advance(f2, dst, v));
  }

  lemma FreshBlock(fs: seq<Function>, f1: Frame, f2: Frame)
    requires f1.pc == 0 && f2.pc == 0
    ensures SamePlace(fs, f1, f2)
  {
  }

  lemma ExtraStep(fs: seq<Function>, env: Environment, s1: State, s2: State)
    requires Rel(fs, s1, s2) && s2.stack.Push?
    requires Fetch(fs, s2.stack.top).Some? && IsExtra(Fetch(fs, s2.stack.top).value)
    ensures Rel(fs, s1, Step(fs, env, s2))
    ensures var t := Step(fs, env, s2).stack;
            t.Push? && t.top == s2.stack.top.(pc := s2.stack.top.pc + 1, regs := t.top.regs)
  {
    hide CallersRel;
    hide EvalAll;
    hide ExecCall;
    hide ExecReturn;
    hide ProgramEvents;
    hide IsWrapperName;
    var f1, f2 := s1.stack.top, s2.stack.top;
    var i := Fetch(fs, f2).value;
    var t2 := Step(fs, env, s2);
    EraseStep(BlockOf(fs, f2).value, f2.pc);
    assert SamePlace(fs, f1, t2.stack.top);
    if i.Cast? {
      AgreeAssign(f1.regs, f2.regs, Some(i.def), Eval(f2.args, f2.regs, i.source));
    } else if IsLoggerCall(i) && !IsIntrinsicCall(i) {
      ProgramEventsSnoc(s2.trace, Logger(i.callee.name, EvalAll(f2.args, f2.regs, i.args)));
    }
  }

  lemma ErasedFetch(fs: seq<Function>, f1: Frame, f2: Frame)
    requires FrameRel(fs, f1, f2)
    ensures Fetch(fs, f2).Some? && !IsExtra(Fetch(fs, f2).value) ==>
              Fetch(Erase(fs), f1) == Some(Clean(Fetch(fs, f2).value))
    ensures Fetch(fs, f2).None? ==> Fetch(Erase(fs), f1).None?
  {
    FindErased(fs, f2.fn);
    var b := BlockOf(fs, f2);
    if b.Some? {
      ErasedAt(b.value, f2.pc);
      assert f2.pc == |b.value| ==> b.value[..f2.pc] == b.value;
    }
  }

  /** Both runs make the same call. */
  lemma SameCall(fs: seq<Function>, env: Environment, i: Instr, s1: Stack, s2: Stack)
    requires StackRel(fs, s1, s2) && s2.Push? && i.Call? && IsProgramInstr(i)
    ensures s1.Push? && CalleeName(env, s1.top, i.callee) == CalleeName(env, s2.top, i.callee)
    ensures EvalAll(s1.top.args, s1.top.regs, i.args) == EvalAll(s2.top.args, s2.top.regs, i.args)
  {
    EvalAgree(s2.top.args, s1.top.regs, s2.top.regs, i.args);
  }

  lemma AdvanceTop(fs: seq<Function>, s1: Stack, s2: Stack, dst: Option<Register>, v: Value)
    requires StackRel(fs, s1, s2) && s2.Push? && Suspended(fs, s2.top)
    ensures StackRel(fs, Push(Advance(s1.top, dst, v), s1.rest), Push(Advance(s2.top, dst, v), s2.rest))
  {
    AdvanceRel(fs, s1.top, s2.top, dst, v);
  }

  lemma PushTop(fs: seq<Function>, s1: Stack, s2: Stack, fn: string, args: seq<Value>, i: Instr)
    requires StackRel(fs, s1, s2) && s2.Push? && Suspended(fs, s2.top) && i.Call? && IsProgramInstr(i)
    ensures var g := NewFrame(fn, args, i.dst, SiteOf(i)); StackRel(fs, Push(g, s1), Push(g, s2))
  {
    var g := NewFrame(fn, args, i.dst, SiteOf(i));
    FreshBlock(fs, g, g);
  }

  lemma CallStep(fs: seq<Function>, env: Environment, i: Instr, s1: State, s2: State)
    requires Rel(fs, s1, s2) && s2.stack.Push? && Suspended(fs, s2.stack.top)
    requires i.Call? && IsProgramInstr(i)
    ensures Rel(fs, ExecCall(Erase(fs), env, Clean(i), s1), ExecCall(fs, env, i, s2))
  {
    hide GetSiteId;
    hide StackRel;
    hide Suspended;
    hide EraseFunction;
    hide EvalAll;
    hide Erase;
    hide IsProgramInstr;
    hide CalleeName;
    hide Find;
    hide ProgramEvents;
    hide IsProgramEvent;
    hide Handed;
    hide NewFrame;
    hide Advance;
    var f2 := s2.stack.top;
    SameCall(fs, env, i, s1.stack, s2.stack);
    var name := CalleeName(env, f2, i.callee);
    var args := EvalAll(f2.args, f2.regs, i.args);
    var enter := Enter(name, args, SiteOf(i));
    FindErased(fs, name);
    ProgramEventsSnoc(s1.trace, enter);
    ProgramEventsSnoc(s2.trace, enter);
    if Find(fs, name).Some? {
      var f := Find(fs, name).value;
      if f.blocks == [] {
        var v := Handed(f.sig, env.answer(External(name, args), s2.world));
        ProgramEventsSnoc(s1.trace + [enter], Leave(name, v, SiteOf(i)));
        ProgramEventsSnoc(s2.trace + [enter], Leave(name, v, SiteOf(i)));
        AdvanceTop(fs, s1.stack, s2.stack, i.dst, v);
      } else {
        PushTop(fs, s1.stack, s2.stack, name, args, i);
      }
    }
  }

  lemma ResumeRel(fs: seq<Function>, c1: Stack, c2: Stack, dst: Option<Register>, v: Value)
    requires CallersRel(fs, c1, c2)
    ensures c2.Empty? ==> c1.Empty?
    ensures c2.Push? ==>
              var r1, r2 := Resume(c1, dst, v), Resume(c2, dst, v);
              r1.Push? && r2.Push? && FrameRel(fs, r1.top, r2.top) && CallersRel(fs, r1.rest, r2.rest)
  {
    if c2.Push? {
      AdvanceRel(fs, c1.top, c2.top, dst, v);
    }
  }

  lemma ReturnedValue(i: Instr, f1: Frame, f2: Frame)
    requires i.Return? && IsProgramInstr(i) && Agree(f1.regs, f2.regs) && f1.args == f2.args && i.value.Some?
    ensures Eval(f1.args, f1.regs, i.value.value) == Eval(f2.args, f2.regs, i.value.value)
  {
  }

  lemma FrameParts(fs: seq<Function>, s1: Stack, s2: Stack)
    requires StackRel(fs, s1, s2) && s2.Push?
    ensures s1.Push? && s1.top == s2.top.(pc := s1.top.pc, entry := s1.top.entry, regs := s1.top.regs)
    ensures Agree(s1.top.regs, s2.top.regs) && CallersRel(fs, s1.rest, s2.rest)
    ensures s1.rest.Empty? <==> s2.rest.Empty?
  {
  }

  lemma ResumeStack(fs: seq<Function>, c1: Stack, c2: Stack, dst: Option<Register>, v: Value)
    requires CallersRel(fs, c1, c2)
    ensures StackRel(fs, Resume(c1, dst, v), Resume(c2, dst, v))
  {
    hide FrameRel;
    hide Advance;
    ResumeRel(fs, c1, c2, dst, v);
  }

  lemma ReturnStep(fs: seq<Function>, env: Environment, i: Instr, s1: State, s2: State)
    requires Rel(fs, s1, s2) && s2.stack.Push?
    requires i.Return? && IsProgramInstr(i)
    ensures Rel(fs, ExecReturn(Erase(fs), i, s1), ExecReturn(fs, i, s2))
  {
    hide StackRel;
    hide CallersRel;
    hide Agree;
    hide Erase;
    hide EraseFunction;
    hide Find;
    hide Eval;
    hide Handed;
    hide Resume;
    hide ProgramEvents;
    hide IsProgramEvent;
    hide IsProgramInstr;
    FrameParts(fs, s1.stack, s2.stack);
    var f1, f2 := s1.stack.top, s2.stack.top;
    FindErased(fs, f2.fn);
    if Find(fs, f2.fn).Some? {
      var sig := Find(fs, f2.fn).value.sig;
      if i.value.Some? {
        ReturnedValue(i, f1, f2);
      }
      var v := Handed(sig, if i.value.Some? then Eval(f2.args, f2.regs, i.value.value) else Num(0));
      ProgramEventsSnoc(s1.trace, Leave(f2.fn, v, f2.site));
      ProgramEventsSnoc(s2.trace, Leave(f2.fn, v, f2.site));
      ResumeStack(fs, s1.stack.rest, s2.stack.rest, f2.ret, v);
    }
  }

  lemma LocalStep(fs: seq<Function>, env: Environment, i: Instr, s1: State, s2: State)
    requires Rel(fs, s1, s2) && s2.stack.Push? && Suspended(fs, s2.stack.top)
    requires !i.Call? && !i.Return? && IsProgramInstr(i)
    ensures Rel(fs, Exec(Erase(fs), env, i, s1), Exec(fs, env, i, s2))
  {
    hide SamePlace;
    hide CallersRel;
    hide EvalAll;
    hide Erase;
    hide Suspended;
    hide Incoming;
    hide Find;
    hide ProgramEvents;
    var f1, f2 := s1.stack.top, s2.stack.top;
    match i
    case Cast(def, source) =>
      AdvanceRel(fs, f1, f2, Some(def), Eval(f2.args, f2.regs, source));
    case Phi(def, incoming) =>
      IncomingIsProgram(incoming, f2.prev);
      AdvanceRel(fs, f1, f2, Some(def), Eval(f2.args, f2.entry, Incoming(incoming, f2.prev)));
    case Op(dst, code, args) =>
      EvalAgree(f2.args, f1.regs, f2.regs, args);
      AdvanceRel(fs, f1, f2, dst, env.answer(Operation(code, EvalAll(f2.args, f2.regs, args)), s2.world));
    case Jump(target) =>
      FreshBlock(fs, GoTo(f1, target), GoTo(f2, target));
    case Branch(condition, yes, no) =>
      FreshBlock(fs, GoTo(f1, yes), GoTo(f2, yes));
      FreshBlock(fs, GoTo(f1, no), GoTo(f2, no));
  }

  /** A kept instruction is matched by one step of the erased module; so is having nothing left to do. */
  lemma KeptStep(fs: seq<Function>, env: Environment, s1: State, s2: State)
    requires Separated(fs) && Rel(fs, s1, s2)
    requires s2.stack.Push? && Fetch(fs, s2.stack.top).Some? ==> !IsExtra(Fetch(fs, s2.stack.top).value)
    ensures Rel(fs, Step(Erase(fs), env, s1), Step(fs, env, s2))
  {
    hide Erase;
    hide ExecCall;
    hide ExecReturn;
    hide IsProgramInstr;
    hide ProgramEvents;
    hide Find;
    if s2.stack.Push? {
      var f2 := s2.stack.top;
      ErasedFetch(fs, s1.stack.top, f2);
      if Fetch(fs, f2).Some? {
        var i := Fetch(fs, f2).value;
        FindErased(fs, f2.fn);
        var f := Find(fs, f2.fn).value;
        assert f in fs && f.blocks[f2.block][f2.pc] == i;
        if i.Call? {
          CallStep(fs, env, i, s1, s2);
        } else if i.Return? {
          ReturnStep(fs, env, i, s1, s2);
        } else {
          LocalStep(fs, env, i, s1, s2);
        }
      }
    }
  }

  // ---- Whole runs ----

  predicate AtExtra(fs: seq<Function>, s: State) {
    s.stack.Push? && Fetch(fs, s.stack.top).Some? && IsExtra(Fetch(fs, s.stack.top).value)
  }

  /** Every state of the module's run is a state of the erased run, seen through the relation. */
  lemma {:induction false} RunErased(fs: seq<Function>, env: Environment, s: State, n: nat) returns (k: nat)
    requires Separated(fs) && Rel(fs, s, s)
    ensures k <= n && Rel(fs, Run(Erase(fs), env, s, k), Run(fs, env, s, n))
  {
    hide Exec;
    hide StackRel;
    hide Fetch;
    hide IsExtra;
    hide Separated;
    if n == 0 {
      k := 0;
    } else {
      k := RunErased(fs, env, s, n - 1);
      var s2 := Run(fs, env, s, n - 1);
      if AtExtra(fs, s2) {
        ExtraStep(fs, env, Run(Erase(fs), env, s, k), s2);
      } else {
        KeptStep(fs, env, Run(Erase(fs), env, s, k), s2);
        k := k + 1;
      }
    }
  }

  /** Extra instructions fall through, so a run gets past them before its block ends. */
  lemma {:induction false} SkipExtra(fs: seq<Function>, env: Environment, s: State, s1: State, n: nat)
      returns (m: nat)
    requires Separated(fs) && Rel(fs, s1, Run(fs, env, s, n))
    ensures m >= n && Rel(fs, s1, Run(fs, env, s, m)) && !AtExtra(fs, Run(fs, env, s, m))
    decreases var s2 := Run(fs, env, s, n);
              if AtExtra(fs, s2) then |BlockOf(fs, s2.stack.top).value| - s2.stack.top.pc else 0
  {
    hide Exec;
    hide FrameRel;
    hide CallersRel;
    var s2 := Run(fs, env, s, n);
    m := n;
    if AtExtra(fs, s2) {
      ExtraStep(fs, env, s1, s2);
      m := SkipExtra(fs, env, s, s1, n + 1);
    }
  }

  lemma {:induction false} RunRestored(fs: seq<Function>, env: Environment, s: State, k: nat) returns (n: nat)
    requires Separated(fs) && Rel(fs, s, s)
    ensures n >= k && Rel(fs, Run(Erase(fs), env, s, k), Run(fs, env, s, n))
  {
    hide Exec;
    hide StackRel;
    hide Fetch;
    hide IsExtra;
    hide Separated;
    if k == 0 {
      n := 0;
    } else {
      n := RunRestored(fs, env, s, k - 1);
      var s1 := Run(Erase(fs), env, s, k - 1);
      n := SkipExtra(fs, env, s, s1, n);
      KeptStep(fs, env, s1, Run(fs, env, s, n));
      n := n + 1;
    }
  }

  /** A module whose program instructions keep to the program's registers runs like its erasure. */
  lemma ErasureSound(fs: seq<Function>, env: Environment, entry: string, args: seq<Value>)
    requires Separated(fs)
    ensures SameRuns(fs, Erase(fs), env, entry, args)
  {
    var s := Start(entry, args);
    FreshBlock(fs, s.stack.top, s.stack.top);
    assert Rel(fs, s, s);
    forall o: Observation
      ensures Reaches(fs, env, entry, args, o) <==> Reaches(Erase(fs), env, entry, args, o)
    {
      if Reaches(fs, env, entry, args, o) {
        var n: nat :| Observe(Run(fs, env, s, n)) == o;
        var k := RunErased(fs, env, s, n);
        assert Observe(Run(Erase(fs), env, s, k)) == o;
      }
      if Reaches(Erase(fs), env, entry, args, o) {
        var k: nat :| Observe(Run(Erase(fs), env, s, k)) == o;
        var n := RunRestored(fs, env, s, k);
        assert Observe(Run(fs, env, s, n)) == o;
      }
    }
  }

  /** Modules with the same erasure run alike. */
  lemma SameErasureSameRuns(fs: seq<Function>, gs: seq<Function>, env: Environment, entry: string, args: seq<Value>)
    requires Separated(fs) && Separated(gs) && Erase(fs) == Erase(gs)
    ensures SameRuns(fs, gs, env, entry, args)
  {
    ErasureSound(fs, env, entry, args);
    ErasureSound(gs, env, entry, args);
  }
}
