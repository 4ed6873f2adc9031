/**
 Redirecting a direct call to a function that only forwards to the original callee changes nothing a run shows.
 The simulation relates a run that calls directly to one in which forwarders stand between some callers and callees.
 */
module Forwarding {
  import opened Text
  import opened Metadata
  import opened Ir
  import opened Semantics

  function ForwardedResult(sig: Signature): Option<Register> {
    if sig.result.Void? then None else Some(Prog(0))
  }

  function ForwardedArgs(sig: Signature): seq<Operand> {
    seq(|sig.parameters|, k requires 0 <= k < |sig.parameters| => Argument(k, sig.parameters[k]))
  }

  /** The body of a wrapper once the analysis' intrinsics are erased. */
  function ForwarderBlocks(callee: Callee, site: Option<seq<Node>>): seq<Block> {
    var dst := ForwardedResult(callee.sig);
    [[Jump(1)],
     [Call(dst, callee, ForwardedArgs(callee.sig), site, None),
      Return(if dst.Some? then Some(Result(Prog(0), callee.sig.result)) else None)]]
  }

  /** A name the direct module does not know is not known to the redirected one either. */
  predicate Known(fs: seq<Function>, gs: seq<Function>, name: string) {
    Find(fs, name).Some? || Find(gs, name).None?
  }

  /** `j` is `i` with its callee replaced by a forwarder that the direct module does not have. */
  ghost predicate Redirected(fs: seq<Function>, gs: seq<Function>, i: Instr, j: Instr) {
    && IsDirectCall(i) && !IsIntrinsic(i.callee.name) && !IsLogger(i.callee.name)
    && Known(fs, gs, i.callee.name)
    && |i.args| == |i.callee.sig.parameters|
    && (Find(fs, i.callee.name).Some? ==> Find(fs, i.callee.name).value.sig.result == i.callee.sig.result)
    && IsDirectCall(j) && j == i.(callee := j.callee, site := None, tags := None)
    && IsWrapperName(j.callee.name) && !IsIntrinsic(j.callee.name) && !IsLogger(j.callee.name)
    && Find(gs, j.callee.name) ==
       Some(Function(j.callee.name, i.callee.sig, ForwarderBlocks(i.callee, i.site)))
  }

  ghost predicate InstrRel(fs: seq<Function>, gs: seq<Function>, i: Instr, j: Instr) {
    (i == j && (IsDirectCall(i) ==> Known(fs, gs, i.callee.name))) || Redirected(fs, gs, i, j)
  }

  ghost predicate BlockRel(fs: seq<Function>, gs: seq<Function>, b: Block, c: Block) {
    |b| == |c| && forall k :: 0 <= k < |b| ==> InstrRel(fs, gs, b[k], c[k])
  }

  ghost predicate FunctionRel(fs: seq<Function>, gs: seq<Function>, f: Function, g: Function) {
    && f.sig == g.sig && |f.blocks| == |g.blocks|
    && forall k :: 0 <= k < |f.blocks| ==> BlockRel(fs, gs, f.blocks[k], g.blocks[k])
  }

  /** `gs` is `fs` with some direct calls redirected to new forwarders; no code pointer stands for a forwarder. */
  ghost predicate Forwards(fs: seq<Function>, gs: seq<Function>, env: Environment) {
    && (forall name :: Find(fs, name).Some? ==>
          Find(gs, name).Some? && FunctionRel(fs, gs, Find(fs, name).value, Find(gs, name).value))
    && (forall v :: Known(fs, gs, env.target(v)))
  }

  // ---- The simulation relation ----

  /** `w` is a forwarder's activation waiting for the callee `f2`, which in the direct run is `f1`. */
  ghost predicate Waiting(fs: seq<Function>, gs: seq<Function>, w: Frame, f1: Frame, f2: Frame) {
    && IsWrapperName(w.fn) && w.block == 1 && w.pc == 0 && w.ret == f1.ret
    && Find(fs, f2.fn).Some? && Find(gs, w.fn).Some?
    && var g := Find(gs, w.fn).value;
       && (g.sig.result.Void? <==> Find(fs, f2.fn).value.sig.result.Void?)
       && f2.ret == ForwardedResult(g.sig)
       && |g.blocks| == 2 && |g.blocks[1]| == 2 && IsForwardedReturn(g, g.blocks[1][1])
  }

  predicate IsForwardedReturn(g: Function, i: Instr) {
    i == Return(if g.sig.result.Void? then None else Some(Result(Prog(0), g.sig.result)))
  }

  ghost predicate StackRel(fs: seq<Function>, gs: seq<Function>, s1: Stack, s2: Stack) {
    match s2
    case Empty => s1.Empty?
    case Push(f2, r2) =>
      && s1.Push? && s1.top == f2.(ret := s1.top.ret) && Known(fs, gs, f2.fn)
      && ((s1.top.ret == f2.ret && StackRel(fs, gs, s1.rest, r2)) ||
          (r2.Push? && r2.rest.Push? && Waiting(fs, gs, r2.top, s1.top, f2) && StackRel(fs, gs, s1.rest, r2.rest)))
  }

  /** Where the redirected run is: in program code, in a forwarder before its call, or in one after its call. */
  datatype Mode = Program | Entering | Leaving(callers: Stack)

  ghost predicate EnteringRel(fs: seq<Function>, gs: seq<Function>, s1: Stack, s2: Stack) {
    && s2.Push? && s2.rest.Push? && StackRel(fs, gs, s1, s2.rest)
    && var w, c := s2.top, s2.rest.top;
       && Fetch(fs, s1.top).Some? && Fetch(gs, c).Some?
       && var i, j := Fetch(fs, s1.top).value, Fetch(gs, c).value;
          && Redirected(fs, gs, i, j)
          && w.fn == j.callee.name && w.args == EvalAll(c.args, c.regs, i.args)
          && w.ret == i.dst && w.site == None
          && ((w.block == 0 && w.pc == 0) || (w.block == 1 && w.pc == 0))
  }

  ghost predicate LeavingRel(fs: seq<Function>, gs: seq<Function>, callers: Stack, s1: Stack, s2: Stack) {
    && s2.Push? && s2.rest.Push? && StackRel(fs, gs, callers, s2.rest)
    && var w := s2.top;
       && IsWrapperName(w.fn) && w.block == 1 && w.pc == 1 && Find(gs, w.fn).Some?
       && var g := Find(gs, w.fn).value;
          && |g.blocks| == 2 && |g.blocks[1]| == 2 && IsForwardedReturn(g, g.blocks[1][1])
          && s1 == Resume(callers, w.ret, Handed(g.sig, Read(w.regs, Prog(0))))
  }

  ghost predicate Rel(fs: seq<Function>, gs: seq<Function>, mode: Mode, s1: State, s2: State) {
    && s1.world == s2.world && s1.result == s2.result
    && ProgramEvents(s1.trace) == ProgramEvents(s2.trace)
    && match mode
       case Program => StackRel(fs, gs, s1.stack, s2.stack)
       case Entering => EnteringRel(fs, gs, s1.stack, s2.stack)
       case Leaving(callers) => LeavingRel(fs, gs, callers, s1.stack, s2.stack)
  }

  // ---- One step ----

  lemma TopRel(fs: seq<Function>, gs: seq<Function>, s1: Stack, s2: Stack, g1: Frame, g2: Frame)
    requires StackRel(fs, gs, s1, s2) && s2.Push?
    requires g1 == g2.(ret := g1.ret) && g1.ret == s1.top.ret && g2.ret == s2.top.ret && g2.fn == s2.top.fn
    ensures StackRel(fs, gs, Push(g1, s1.rest), Push(g2, s2.rest))
  {
  }

  lemma SameFetch(fs: seq<Function>, gs: seq<Function>, env: Environment, f1: Frame, f2: Frame)
    requires Forwards(fs, gs, env) && f1 == f2.(ret := f1.ret) && Known(fs, gs, f2.fn)
    ensures Fetch(fs, f1).Some? <==> Fetch(gs, f2).Some?
    ensures Fetch(fs, f1).Some? ==> InstrRel(fs, gs, Fetch(fs, f1).value, Fetch(gs, f2).value)
  {
    if Find(fs, f2.fn).Some? {
      var f, g := Find(fs, f2.fn).value, Find(gs, f2.fn).value;
      assert FunctionRel(fs, gs, f, g);
      if f2.block < |f.blocks| {
        assert BlockRel(fs, gs, f.blocks[f2.block], g.blocks[f2.block]);
      }
    }
  }

  lemma TwoEvents(t1: seq<Event>, t2: seq<Event>, e: Event)
    requires ProgramEvents(t1) == ProgramEvents(t2)
    ensures ProgramEvents(t1 + [e]) == ProgramEvents(t2 + [e])
    ensures !IsProgramEvent(e) ==> ProgramEvents(t1) == ProgramEvents(t2 + [e])
  {
    ProgramEventsSnoc(t1, e);
    ProgramEventsSnoc(t2, e);
  }

  lemma AdvanceTop(fs: seq<Function>, gs: seq<Function>, s1: Stack, s2: Stack, dst: Option<Register>, v: Value)
    requires StackRel(fs, gs, s1, s2) && s2.Push?
    ensures StackRel(fs, gs, Push(Advance(s1.top, dst, v), s1.rest), Push(Advance(s2.top, dst, v), s2.rest))
  {
    TopRel(fs, gs, s1, s2, Advance(s1.top, dst, v), Advance(s2.top, dst, v));
  }

  lemma PushTop(fs: seq<Function>, gs: seq<Function>, s1: Stack, s2: Stack, f: Frame)
    requires StackRel(fs, gs, s1, s2) && Known(fs, gs, f.fn)
    ensures StackRel(fs, gs, Push(f, s1), Push(f, s2))
  {
  }

  lemma UnchangedCall(fs: seq<Function>, gs: seq<Function>, env: Environment, i: Instr, s1: State, s2: State)
    requires Forwards(fs, gs, env) && Rel(fs, gs, Program, s1, s2) && s2.stack.Push?
    requires i.Call? && (IsDirectCall(i) ==> Known(fs, gs, i.callee.name))
    ensures Rel(fs, gs, Program, ExecCall(fs, env, i, s1), ExecCall(gs, env, i, s2))
  {
    var f1, f2 := s1.stack.top, s2.stack.top;
    assert f1 == f2.(ret := f1.ret);
    hide GetSiteId;
    hide StackRel;
    hide EvalAll;
    var name := CalleeName(env, f2, i.callee);
    assert CalleeName(env, f1, i.callee) == name;
    assert Known(fs, gs, name);
    if Find(fs, name).Some? {
      var f, g := Find(fs, name).value, Find(gs, name).value;
      assert f.sig == g.sig && |f.blocks| == |g.blocks| by {
        assert FunctionRel(fs, gs, f, g);
      }
      var args := EvalAll(f2.args, f2.regs, i.args);
      var enter := Enter(name, args, SiteOf(i));
      TwoEvents(s1.trace, s2.trace, enter);
      if f.blocks == [] {
        var v := Handed(f.sig, env.answer(External(name, args), s2.world));
        TwoEvents(s1.trace + [enter], s2.trace + [enter], Leave(name, v, SiteOf(i)));
        AdvanceTop(fs, gs, s1.stack, s2.stack, i.dst, v);
      } else {
        PushTop(fs, gs, s1.stack, s2.stack, NewFrame(name, args, i.dst, SiteOf(i)));
      }
    }
  }

  /** A callee returns into the program. */
  lemma ReturnToProgram(fs: seq<Function>, gs: seq<Function>, r1: Stack, r2: Stack, dst: Option<Register>, v: Value)
    requires StackRel(fs, gs, r1, r2)
    ensures StackRel(fs, gs, Resume(r1, dst, v), Resume(r2, dst, v)) && (r1.Empty? <==> r2.Empty?)
  {
    if r2.Push? {
      TopRel(fs, gs, r1, r2, Advance(r1.top, dst, v), Advance(r2.top, dst, v));
    }
  }

  /** A callee returns into the forwarder that called it. */
  lemma ReturnToForwarder(fs: seq<Function>, gs: seq<Function>, f1: Frame, f2: Frame, r1: Stack, r2: Stack, u: Value)
    requires r2.Push? && r2.rest.Push? && Waiting(fs, gs, r2.top, f1, f2) && StackRel(fs, gs, r1, r2.rest)
    ensures var v := Handed(Find(fs, f2.fn).value.sig, u);
            LeavingRel(fs, gs, r1, Resume(r1, f1.ret, v), Resume(r2, f2.ret, v)) && r1.Push?
  {
    var v := Handed(Find(fs, f2.fn).value.sig, u);
    var w := Advance(r2.top, f2.ret, v);
    assert Handed(Find(gs, w.fn).value.sig, Read(w.regs, Prog(0))) == v;
  }

  lemma ProgramReturn(fs: seq<Function>, gs: seq<Function>, env: Environment, i: Instr, s1: State, s2: State)
      returns (mode: Mode)
    requires Forwards(fs, gs, env) && Rel(fs, gs, Program, s1, s2) && s2.stack.Push? && i.Return?
    requires Find(fs, s2.stack.top.fn).Some?
    ensures Rel(fs, gs, mode, ExecReturn(fs, i, s1), ExecReturn(gs, i, s2))
  {
    hide Waiting;
    hide LeavingRel;
    hide EnteringRel;
    var f1, f2 := s1.stack.top, s2.stack.top;
    var f, g := Find(fs, f2.fn).value, Find(gs, f2.fn).value;
    assert f.sig == g.sig by {
      assert FunctionRel(fs, gs, f, g);
    }
    var u := if i.value.Some? then Eval(f2.args, f2.regs, i.value.value) else Num(0);
    var v := Handed(f.sig, u);
    TwoEvents(s1.trace, s2.trace, Leave(f2.fn, v, f2.site));
    var r1, r2 := s1.stack.rest, s2.stack.rest;
    if f1.ret == f2.ret && StackRel(fs, gs, r1, r2) {
      mode := Program;
      ReturnToProgram(fs, gs, r1, r2, f2.ret, v);
    } else {
      mode := Leaving(r1);
      ReturnToForwarder(fs, gs, f1, f2, r1, r2, u);
    }
  }

  lemma TopsAlike(fs: seq<Function>, gs: seq<Function>, s1: Stack, s2: Stack)
    requires StackRel(fs, gs, s1, s2) && s2.Push?
    ensures s1.Push? && s1.top == s2.top.(ret := s1.top.ret)
  {
    hide Waiting;
  }

  lemma FetchFinds(fs: seq<Function>, fr: Frame)
    requires Fetch(fs, fr).Some?
    ensures Find(fs, fr.fn).Some?
  {
    hide Find;
  }

  /** Both runs do the same instruction, which stays in its activation. */
  lemma LocalStep(fs: seq<Function>, gs: seq<Function>, env: Environment, i: Instr, s1: State, s2: State)
    requires Rel(fs, gs, Program, s1, s2) && s2.stack.Push? && s1.stack.Push?
    requires IsIntrinsicCall(i) || IsLoggerCall(i) || (!i.Call? && !i.Return?)
    ensures Rel(fs, gs, Program, Exec(fs, env, i, s1), Exec(gs, env, i, s2))
  {
    hide GetSiteId;
    hide StackRel;
    hide EnteringRel;
    hide LeavingRel;
    hide EvalAll;
    hide Eval;
    hide Incoming;
    hide ProgramEvents;
    hide IsProgramEvent;
    TopsAlike(fs, gs, s1.stack, s2.stack);
    var f1, f2 := s1.stack.top, s2.stack.top;
    if IsLoggerCall(i) && !IsIntrinsicCall(i) {
      TwoEvents(s1.trace, s2.trace, Logger(i.callee.name, EvalAll(f2.args, f2.regs, i.args)));
    }
    TopRel(fs, gs, s1.stack, s2.stack, Exec(fs, env, i, s1).stack.top, Exec(gs, env, i, s2).stack.top);
  }

  lemma ProgramStep(fs: seq<Function>, gs: seq<Function>, env: Environment, s1: State, s2: State)
      returns (mode: Mode)
    requires Forwards(fs, gs, env) && Rel(fs, gs, Program, s1, s2) && s2.stack.Push?
    requires Fetch(fs, s1.stack.top).Some? && Fetch(fs, s1.stack.top) == Fetch(gs, s2.stack.top)
    requires var i := Fetch(fs, s1.stack.top).value; IsDirectCall(i) ==> Known(fs, gs, i.callee.name)
    ensures Rel(fs, gs, mode, Step(fs, env, s1), Step(gs, env, s2))
  {
    hide GetSiteId;
    hide StackRel;
    hide EnteringRel;
    hide LeavingRel;
    hide FunctionRel;
    hide ExecCall;
    hide ExecReturn;
    hide EvalAll;
    hide Incoming;
    hide ProgramEvents;
    hide Find;
    TopsAlike(fs, gs, s1.stack, s2.stack);
    var f1, f2 := s1.stack.top, s2.stack.top;
    var i := Fetch(fs, f1).value;
    mode := Program;
    if IsIntrinsicCall(i) || IsLoggerCall(i) || (!i.Call? && !i.Return?) {
      LocalStep(fs, gs, env, i, s1, s2);
    } else if i.Call? {
      UnchangedCall(fs, gs, env, i, s1, s2);
    } else {
      FetchFinds(fs, f1);
      mode := ProgramReturn(fs, gs, env, i, s1, s2);
    }
  }

  /** The forwarder's parameters are the original call's arguments: all of them, since none is variadic. */
  lemma ForwardedValues(args: seq<Value>, regs: Registers, sig: Signature)
    requires |args| == |sig.parameters|
    ensures EvalAll(args, regs, ForwardedArgs(sig)) == args
  {
  }

  /** Both runs are about to make the same call, one directly and one from the forwarder. */
  lemma ForwarderFetch(fs: seq<Function>, gs: seq<Function>, env: Environment, s1: State, s2: State)
    requires EnteringRel(fs, gs, s1.stack, s2.stack) && s2.stack.top.block == 1
    ensures Fetch(fs, s1.stack.top).Some?
    ensures var i := Fetch(fs, s1.stack.top).value; var inner := ForwardedCall(i);
            && IsDirectCall(i) && SiteOf(inner) == SiteOf(i) && CalleeName(env, s2.stack.top, inner.callee) == i.callee.name
            && Step(fs, env, s1) == ExecCall(fs, env, i, s1)
            && Step(gs, env, s2) == ExecCall(gs, env, inner, s2)
            && EvalAll(s2.stack.top.args, s2.stack.top.regs, inner.args) == s2.stack.top.args
            && EvalAll(s1.stack.top.args, s1.stack.top.regs, i.args) == s2.stack.top.args
  {
    hide ExecCall;
    hide GetSiteId;
    var f1, w := s1.stack.top, s2.stack.top;
    var i := Fetch(fs, f1).value;
    assert Fetch(gs, w) == Some(ForwarderBlocks(i.callee, i.site)[1][0]);
    ForwardedValues(w.args, w.regs, i.callee.sig);
  }

  function ForwardedCall(i: Instr): Instr
    requires i.Call?
  {
    Call(ForwardedResult(i.callee.sig), i.callee, ForwardedArgs(i.callee.sig), i.site, None)
  }

  /** An external callee has answered; the forwarder is about to return. */
  lemma ForwardedExternal(fs: seq<Function>, gs: seq<Function>, s1: Stack, s2: Stack, u: Value)
    requires EnteringRel(fs, gs, s1, s2) && s2.top.block == 1
    requires Find(fs, Fetch(fs, s1.top).value.callee.name).Some?
    ensures var i := Fetch(fs, s1.top).value; var v := Handed(Find(fs, i.callee.name).value.sig, u);
            LeavingRel(fs, gs, s1, Push(Advance(s1.top, i.dst, v), s1.rest),
                       Push(Advance(s2.top, ForwardedCall(i).dst, v), s2.rest))
  {
    var i := Fetch(fs, s1.top).value;
    var v := Handed(Find(fs, i.callee.name).value.sig, u);
    var w := Advance(s2.top, ForwardedCall(i).dst, v);
    assert Handed(Find(gs, w.fn).value.sig, Read(w.regs, Prog(0))) == v;
  }

  /** The callee's activation has been pushed. */
  lemma ForwardedInternal(fs: seq<Function>, gs: seq<Function>, s1: Stack, s2: Stack, args: seq<Value>, site: Option<int>)
    requires EnteringRel(fs, gs, s1, s2) && s2.top.block == 1
    requires Find(fs, Fetch(fs, s1.top).value.callee.name).Some?
    ensures var i := Fetch(fs, s1.top).value;
            StackRel(fs, gs, Push(NewFrame(i.callee.name, args, i.dst, site), s1),
                     Push(NewFrame(i.callee.name, args, ForwardedCall(i).dst, site), s2))
  {
    var i := Fetch(fs, s1.top).value;
    assert Waiting(fs, gs, s2.top, NewFrame(i.callee.name, args, i.dst, site),
                   NewFrame(i.callee.name, args, ForwardedCall(i).dst, site));
  }

  lemma ForwarderCalls(fs: seq<Function>, gs: seq<Function>, env: Environment, s1: State, s2: State)
      returns (mode: Mode)
    requires Forwards(fs, gs, env) && Rel(fs, gs, Entering, s1, s2) && s2.stack.top.block == 1
    ensures Rel(fs, gs, mode, Step(fs, env, s1), Step(gs, env, s2))
  {
    ForwarderFetch(fs, gs, env, s1, s2);
    var i := Fetch(fs, s1.stack.top).value;
    hide *;
    mode := ForwarderExec(fs, gs, env, i, s1, s2);
  }

  lemma ForwarderExec(fs: seq<Function>, gs: seq<Function>, env: Environment, i: Instr, s1: State, s2: State)
      returns (mode: Mode)
    requires Forwards(fs, gs, env) && Rel(fs, gs, Entering, s1, s2) && s2.stack.top.block == 1
    requires Fetch(fs, s1.stack.top) == Some(i) && IsDirectCall(i) && SiteOf(ForwardedCall(i)) == SiteOf(i)
    requires EvalAll(s2.stack.top.args, s2.stack.top.regs, ForwardedCall(i).args) == s2.stack.top.args
    requires EvalAll(s1.stack.top.args, s1.stack.top.regs, i.args) == s2.stack.top.args
    ensures Rel(fs, gs, mode, ExecCall(fs, env, i, s1), ExecCall(gs, env, ForwardedCall(i), s2))
  {
    hide ProgramEvents;
    hide IsProgramEvent;
    hide Handed;
    hide Find;
    hide Resume;
    hide GetSiteId;
    hide StackRel;
    hide LeavingRel;
    hide EvalAll;
    hide Fetch;
    mode := Entering;
    var w, name := s2.stack.top, i.callee.name;
    if Find(fs, name).Some? {
      var f, g := Find(fs, name).value, Find(gs, name).value;
      assert f.sig == g.sig && |f.blocks| == |g.blocks| by {
        assert FunctionRel(fs, gs, f, g);
      }
      var enter := Enter(name, w.args, SiteOf(i));
      TwoEvents(s1.trace, s2.trace, enter);
      if f.blocks == [] {
        var u := env.answer(External(name, w.args), s2.world);
        TwoEvents(s1.trace + [enter], s2.trace + [enter], Leave(name, Handed(f.sig, u), SiteOf(i)));
        ForwardedExternal(fs, gs, s1.stack, s2.stack, u);
        mode := Leaving(s1.stack);
      } else {
        ForwardedInternal(fs, gs, s1.stack, s2.stack, w.args, SiteOf(i));
        mode := Program;
      }
    }
  }

  /** How many more steps the redirected run may take before the direct one takes its next. */
  function Patience(mode: Mode, s2: State): nat {
    match mode
    case Leaving(_) => 4
    case Program => 3
    case Entering => if s2.stack.Push? && s2.stack.top.block == 0 then 2 else 1
  }

  lemma EnterForwarder(fs: seq<Function>, gs: seq<Function>, env: Environment, s1: State, s2: State)
    requires Forwards(fs, gs, env) && Rel(fs, gs, Program, s1, s2) && s2.stack.Push?
    requires Fetch(fs, s1.stack.top).Some? && Fetch(gs, s2.stack.top).Some?
    requires Redirected(fs, gs, Fetch(fs, s1.stack.top).value, Fetch(gs, s2.stack.top).value)
    ensures Rel(fs, gs, Entering, s1, Step(gs, env, s2))
    ensures Patience(Entering, Step(gs, env, s2)) == 2
  {
    var f2 := s2.stack.top;
    var j := Fetch(gs, f2).value;
    TwoEvents(s1.trace, s2.trace, Enter(j.callee.name, EvalAll(f2.args, f2.regs, j.args), SiteOf(j)));
  }

  lemma CrossForwarder(fs: seq<Function>, gs: seq<Function>, env: Environment, s1: State, s2: State)
    requires Rel(fs, gs, Entering, s1, s2) && s2.stack.top.block == 0
    ensures Rel(fs, gs, Entering, s1, Step(gs, env, s2))
    ensures Patience(Entering, Step(gs, env, s2)) == 1
  {
    hide StackRel;
    hide LeavingRel;
    hide ExecCall;
    hide ExecReturn;
    hide EvalAll;
    hide Incoming;
    hide ProgramEvents;
    hide GetSiteId;
  }

  lemma LeaveForwarder(fs: seq<Function>, gs: seq<Function>, env: Environment, callers: Stack, s1: State, s2: State)
    requires Rel(fs, gs, Leaving(callers), s1, s2)
    ensures Rel(fs, gs, Program, s1, Step(gs, env, s2))
  {
    hide StackRel;
    hide EnteringRel;
    hide ExecCall;
    hide EvalAll;
    hide Incoming;
    hide ProgramEvents;
    hide Resume;
    hide IsWrapperName;
    var w, c := s2.stack.top, s2.stack.rest;
    var v := Handed(Find(gs, w.fn).value.sig, Read(w.regs, Prog(0)));
    TwoEvents(s1.trace, s2.trace, Leave(w.fn, v, w.site));
    ReturnToProgram(fs, gs, callers, c, w.ret, v);
    StackPush(fs, gs, callers, c);
  }

  lemma StackPush(fs: seq<Function>, gs: seq<Function>, s1: Stack, s2: Stack)
    requires StackRel(fs, gs, s1, s2)
    ensures s2.Push? <==> s1.Push?
  {
    hide Waiting;
  }

  /** Each step of the redirected run is matched by one step of the direct run or, for a bounded time, by none. */
  lemma MatchedStep(fs: seq<Function>, gs: seq<Function>, env: Environment, mode: Mode, s1: State, s2: State)
      returns (next: Mode, moved: bool)
    requires Forwards(fs, gs, env) && Rel(fs, gs, mode, s1, s2)
    ensures Rel(fs, gs, next, if moved then Step(fs, env, s1) else s1, Step(gs, env, s2))
    ensures !moved ==> Patience(next, Step(gs, env, s2)) < Patience(mode, s2)
  {
    next, moved := mode, true;
    match mode
    case Program =>
      if s2.stack.Push? {
        SameFetch(fs, gs, env, s1.stack.top, s2.stack.top);
        if Fetch(fs, s1.stack.top).Some? {
          if Redirected(fs, gs, Fetch(fs, s1.stack.top).value, Fetch(gs, s2.stack.top).value) {
            EnterForwarder(fs, gs, env, s1, s2);
            next, moved := Entering, false;
          } else {
            next := ProgramStep(fs, gs, env, s1, s2);
          }
        }
      }
    case Entering =>
      if s2.stack.top.block == 0 {
        CrossForwarder(fs, gs, env, s1, s2);
        moved := false;
      } else {
        next := ForwarderCalls(fs, gs, env, s1, s2);
      }
    case Leaving(callers) =>
      LeaveForwarder(fs, gs, env, callers, s1, s2);
      next, moved := Program, false;
  }

  // ---- Whole runs ----

  lemma KeepUp(fs: seq<Function>, gs: seq<Function>, env: Environment, s: State, k: nat, n: nat, mode: Mode)
      returns (next: Mode, j: nat)
    requires Forwards(fs, gs, env) && Rel(fs, gs, mode, Run(fs, env, s, k), Run(gs, env, s, n))
    ensures j <= k + 1 && Rel(fs, gs, next, Run(fs, env, s, j), Run(gs, env, s, n + 1))
  {
    var moved: bool;
    next, moved := MatchedStep(fs, gs, env, mode, Run(fs, env, s, k), Run(gs, env, s, n));
    j := if moved then k + 1 else k;
  }

  lemma {:induction false} RunDirect(fs: seq<Function>, gs: seq<Function>, env: Environment, s: State, n: nat)
      returns (mode: Mode, k: nat)
    requires Forwards(fs, gs, env) && Rel(fs, gs, Program, s, s)
    ensures k <= n && Rel(fs, gs, mode, Run(fs, env, s, k), Run(gs, env, s, n))
  {
    if n == 0 {
      mode, k := Program, 0;
    } else {
      mode, k := RunDirect(fs, gs, env, s, n - 1);
      mode, k := KeepUp(fs, gs, env, s, k, n - 1, mode);
    }
  }

  lemma {:induction false} CatchUp(fs: seq<Function>, gs: seq<Function>, env: Environment, s: State,
                                   k: nat, n: nat, mode: Mode)
      returns (next: Mode, m: nat)
    requires Forwards(fs, gs, env) && Rel(fs, gs, mode, Run(fs, env, s, k), Run(gs, env, s, n))
    ensures m > n && Rel(fs, gs, next, Run(fs, env, s, k + 1), Run(gs, env, s, m))
    decreases Patience(mode, Run(gs, env, s, n))
  {
    var moved: bool;
    next, moved := MatchedStep(fs, gs, env, mode, Run(fs, env, s, k), Run(gs, env, s, n));
    m := n + 1;
    if !moved {
      next, m := CatchUp(fs, gs, env, s, k, n + 1, next);
    }
  }

  lemma {:induction false} RunRedirected(fs: seq<Function>, gs: seq<Function>, env: Environment, s: State, k: nat)
      returns (mode: Mode, n: nat)
    requires Forwards(fs, gs, env) && Rel(fs, gs, Program, s, s)
    ensures n >= k && Rel(fs, gs, mode, Run(fs, env, s, k), Run(gs, env, s, n))
  {
    if k == 0 {
      mode, n := Program, 0;
    } else {
      mode, n := RunRedirected(fs, gs, env, s, k - 1);
      mode, n := CatchUp(fs, gs, env, s, k - 1, n, mode);
    }
  }

  /** Forwarding preserves every observation in both directions, divergence included. */
  lemma ForwardingSound(fs: seq<Function>, gs: seq<Function>, env: Environment, entry: string, args: seq<Value>)
    requires Forwards(fs, gs, env) && Known(fs, gs, entry)
    ensures SameRuns(fs, gs, env, entry, args)
  {
    var s := Start(entry, args);
    assert Rel(fs, gs, Program, s, s);
    forall o: Observation
      ensures Reaches(fs, env, entry, args, o) <==> Reaches(gs, env, entry, args, o)
    {
      if Reaches(gs, env, entry, args, o) {
        var n: nat :| Observe(Run(gs, env, s, n)) == o;
        var mode, k := RunDirect(fs, gs, env, s, n);
        assert Observe(Run(fs, env, s, k)) == o;
      }
      if Reaches(fs, env, entry, args, o) {
        var k: nat :| Observe(Run(fs, env, s, k)) == o;
        var mode, n := RunRedirected(fs, gs, env, s, k);
        assert Observe(Run(gs, env, s, n)) == o;
      }
    }
  }
}
