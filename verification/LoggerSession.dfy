/** The whole logger session of a program that starts in `main`: one initialisation, the log, one shutdown. */
module LoggerSession {
  import opened Text
  import opened Metadata
  import opened Ir
  import opened Semantics
  import opened Erasure
  import opened AddLogging
  import opened ExactLogging

  predicate IsInitCall(i: Instr) {
    IsLoggerCall(i) && i.callee.name == LOG_INIT
  }

  predicate IsShutdownCall(i: Instr) {
    IsLoggerCall(i) && i.callee.name == LOG_SHUTDOWN
  }

  /** The logger's calls stand where `AddLogging` puts them, and `main` is neither called nor re-entered. */
  predicate SessionInstr(name: string, blocks: seq<Block>, p: Position, maxRecords: int, outputMode: int)
    requires IsPosition(blocks, p)
  {
    var i := InstrAt(blocks, p);
    && (IsInitCall(i) ==> name == MAIN && p == (0, 0) && i == InitCall(maxRecords, outputMode))
    && (IsShutdownCall(i) ==>
          name == MAIN && i == ShutdownCall() && p.1 + 1 < |blocks[p.0]| && blocks[p.0][p.1 + 1].Return?)
    && (name == MAIN && i.Return? ==> p.1 > 0 && blocks[p.0][p.1 - 1] == ShutdownCall())
    && (name == MAIN ==> !JumpsToEntry(i))
    && (IsDirectCall(i) ==> i.callee.name != MAIN)
  }

  predicate JumpsToEntry(i: Instr) {
    (i.Jump? && i.target == 0) || (i.Branch? && (i.yes == 0 || i.no == 0))
  }

  ghost predicate SessionOk(fs: seq<Function>, maxRecords: int, outputMode: int) {
    && (forall f, p :: f in fs && IsPosition(f.blocks, p) ==> SessionInstr(f.name, f.blocks, p, maxRecords, outputMode))
    && Find(fs, MAIN).Some?
    && var blocks := Find(fs, MAIN).value.blocks;
       blocks != [] && blocks[0] != [] && blocks[0][0] == InitCall(maxRecords, outputMode)
  }

  // ---- The trace of logger calls ----

  function LoggerCalls(trace: seq<Event>): seq<Event> {
    if trace == [] then []
    else LoggerCalls(trace[..|trace| - 1]) + if trace[|trace| - 1].Logger? then [trace[|trace| - 1]] else []
  }

  lemma LoggerCallsSnoc(trace: seq<Event>, e: Event)
    ensures LoggerCalls(trace + [e]) == LoggerCalls(trace) + if e.Logger? then [e] else []
  {
    assert (trace + [e])[..|trace|] == trace;
  }

  function InitEvent(maxRecords: int, outputMode: int): Event {
    Logger(LOG_INIT, [Num(0), Num(maxRecords), Num(outputMode)])
  }

  function ShutdownEvent(): Event {
    Logger(LOG_SHUTDOWN, [Num(0)])
  }

  // ---- The phases of a run ----

  /** `main`'s activation is at the bottom and nowhere else. */
  predicate MainAtBottom(s: Stack) {
    match s
    case Empty => false
    case Push(f, rest) => if rest.Empty? then f.fn == MAIN else f.fn != MAIN && MainAtBottom(rest)
  }

  ghost predicate AfterShutdownCall(fs: seq<Function>, fr: Frame) {
    Before(fs, fr).Some? && Before(fs, fr).value == ShutdownCall()
  }

  predicate AtEntry(fr: Frame) {
    fr.block == 0 && fr.pc == 0
  }

  datatype Phase = Beginning | Working | Ending | Finished

  ghost predicate InPhase(fs: seq<Function>, args: seq<Value>, maxRecords: int, outputMode: int, phase: Phase, s: State) {
    var calls := LoggerCalls(s.trace);
    match phase
    case Beginning => s == Start(MAIN, args)
    case Working =>
      && MainAtBottom(s.stack) && calls == [InitEvent(maxRecords, outputMode)] + BufferCalls(s.trace)
      && (s.stack.rest.Empty? ==> !AtEntry(s.stack.top) && !AfterShutdownCall(fs, s.stack.top))
    case Ending =>
      && s.stack.Push? && s.stack.rest.Empty? && s.stack.top.fn == MAIN && AfterShutdownCall(fs, s.stack.top)
      && Fetch(fs, s.stack.top).Some? && Fetch(fs, s.stack.top).value.Return?
      && calls == [InitEvent(maxRecords, outputMode)] + BufferCalls(s.trace) + [ShutdownEvent()]
    case Finished =>
      && s.stack.Empty?
      && calls == [InitEvent(maxRecords, outputMode)] + BufferCalls(s.trace) + [ShutdownEvent()]
  }

  // ---- One step ----

  lemma FetchedSession(fs: seq<Function>, fr: Frame, maxRecords: int, outputMode: int)
    requires SessionOk(fs, maxRecords, outputMode) && Fetch(fs, fr).Some?
    ensures var blocks := Find(fs, fr.fn).value.blocks; var p := (fr.block, fr.pc);
            IsPosition(blocks, p) && InstrAt(blocks, p) == Fetch(fs, fr).value &&
            SessionInstr(fr.fn, blocks, p, maxRecords, outputMode)
  {
    hide SessionInstr;
    FindErased(fs, fr.fn);
  }

  lemma NoReservedMix()
    ensures LOG_INIT != LOG_BUFFER && LOG_INIT != LOG_SHUTDOWN && LOG_BUFFER != LOG_SHUTDOWN
  {
    assert |LOG_INIT| != |LOG_BUFFER| && |LOG_INIT| != |LOG_SHUTDOWN| && |LOG_BUFFER| != |LOG_SHUTDOWN|;
  }

  /** The first step makes the initialisation call. */
  lemma FirstStep(fs: seq<Function>, env: Environment, args: seq<Value>, maxRecords: int, outputMode: int)
    requires SessionOk(fs, maxRecords, outputMode)
    ensures var s := Start(MAIN, args); var fr := Advance(s.stack.top, None, Num(0));
            && Step(fs, env, s) == s.(stack := Push(fr, Empty), trace := [InitEvent(maxRecords, outputMode)])
            && Before(fs, fr) == Some(InitCall(maxRecords, outputMode))
  {
    hide ExecCall;
    hide ExecReturn;
    hide SessionInstr;
    hide Incoming;
    NoReservedMix();
    var i := InitCall(maxRecords, outputMode);
    var fr := Start(MAIN, args).stack.top;
    FindErased(fs, MAIN);
    assert Fetch(fs, fr) == Some(i);
    assert EvalAll(fr.args, fr.regs, i.args) == InitEvent(maxRecords, outputMode).args;
  }

  lemma InitAlone(maxRecords: int, outputMode: int)
    ensures var e := InitEvent(maxRecords, outputMode);
            LoggerCalls([e]) == [e] && BufferCalls([e]) == []
  {
    NoReservedMix();
    var e := InitEvent(maxRecords, outputMode);
    LoggerCallsSnoc([], e);
    LogsSnoc([], e);
    assert [] + [e] == [e];
  }

  lemma BeginningStep(fs: seq<Function>, env: Environment, args: seq<Value>, maxRecords: int, outputMode: int, s: State)
    requires SessionOk(fs, maxRecords, outputMode)
    requires InPhase(fs, args, maxRecords, outputMode, Beginning, s)
    ensures InPhase(fs, args, maxRecords, outputMode, Working, Step(fs, env, s))
  {
    hide Step;
    hide SessionOk;
    hide LoggerCalls;
    hide BufferCalls;
    NoReservedMix();
    FirstStep(fs, env, args, maxRecords, outputMode);
    InitAlone(maxRecords, outputMode);
  }

  /** Every instruction but calls and returns keeps the run working, except the shutdown call. */
  lemma WorkingLocal(fs: seq<Function>, env: Environment, args: seq<Value>, maxRecords: int, outputMode: int,
                     i: Instr, s: State)
    requires SessionOk(fs, maxRecords, outputMode)
    requires InPhase(fs, args, maxRecords, outputMode, Working, s) && Fetch(fs, s.stack.top) == Some(i)
    requires IsIntrinsicCall(i) || (IsLoggerCall(i) && i.callee.name == LOG_BUFFER) || (!i.Call? && !i.Return?)
    ensures InPhase(fs, args, maxRecords, outputMode, Working, Exec(fs, env, i, s))
  {
    hide ExecCall;
    hide ExecReturn;
    hide Eval;
    hide EvalAll;
    hide Incoming;
    hide SessionOk;
    hide BufferCalls;
    hide LoggerCalls;
    hide LogsOf;
    NoReservedMix();
    FetchedSession(fs, s.stack.top, maxRecords, outputMode);
    var fr := s.stack.top;
    var t := Exec(fs, env, i, s);
    if IsLoggerCall(i) && !IsIntrinsicCall(i) {
      var e := Logger(i.callee.name, EvalAll(fr.args, fr.regs, i.args));
      LoggerCallsSnoc(s.trace, e);
      LogsSnoc(s.trace, e);
    }
    assert i != ShutdownCall();
    assert t.stack.top.pc == fr.pc + 1 && t.stack.top.block == fr.block ==> Before(fs, t.stack.top) == Some(i);
  }

  lemma WorkingShutdown(fs: seq<Function>, env: Environment, args: seq<Value>, maxRecords: int, outputMode: int,
                        i: Instr, s: State)
    requires SessionOk(fs, maxRecords, outputMode)
    requires InPhase(fs, args, maxRecords, outputMode, Working, s) && Fetch(fs, s.stack.top) == Some(i)
    requires IsLoggerCall(i) && i.callee.name != LOG_BUFFER && !IsIntrinsicCall(i)
    ensures InPhase(fs, args, maxRecords, outputMode, Ending, Exec(fs, env, i, s))
  {
    hide ExecCall;
    hide ExecReturn;
    NoReservedMix();
    FetchedSession(fs, s.stack.top, maxRecords, outputMode);
    var fr := s.stack.top;
    assert i == ShutdownCall() && s.stack.rest.Empty?;
    var e := ShutdownEvent();
    assert EvalAll(fr.args, fr.regs, i.args) == e.args;
    LoggerCallsSnoc(s.trace, e);
    LogsSnoc(s.trace, e);
  }

  lemma NotAfterShutdown(fs: seq<Function>, fr: Frame, i: Instr)
    requires Before(fs, fr) == Some(i) && !IsLoggerCall(i)
    ensures !AfterShutdownCall(fs, fr)
  {
  }

  /** The frame in which a call has completed is neither at `main`'s entry nor behind a shutdown call. */
  lemma CallDone(fs: seq<Function>, fr: Frame, dst: Option<Register>, v: Value, i: Instr)
    requires Fetch(fs, fr) == Some(i) && !IsLoggerCall(i)
    ensures var g := Advance(fr, dst, v); !AtEntry(g) && !AfterShutdownCall(fs, g) && g.fn == fr.fn
  {
    hide IsLoggerCall;
    assert Before(fs, Advance(fr, dst, v)) == Some(i);
    NotAfterShutdown(fs, Advance(fr, dst, v), i);
  }

  lemma NeverCallsMain(fs: seq<Function>, env: Environment, fr: Frame, maxRecords: int, outputMode: int)
    requires SessionOk(fs, maxRecords, outputMode) && forall v :: env.target(v) != MAIN
    requires Fetch(fs, fr).Some? && Fetch(fs, fr).value.Call?
    ensures CalleeName(env, fr, Fetch(fs, fr).value.callee) != MAIN
  {
    FetchedSession(fs, fr, maxRecords, outputMode);
  }

  lemma WorkingCall(fs: seq<Function>, env: Environment, args: seq<Value>, maxRecords: int, outputMode: int,
                    i: Instr, s: State)
    requires SessionOk(fs, maxRecords, outputMode) && forall v :: env.target(v) != MAIN
    requires InPhase(fs, args, maxRecords, outputMode, Working, s) && Fetch(fs, s.stack.top) == Some(i)
    requires i.Call? && !IsIntrinsicCall(i) && !IsLoggerCall(i)
    ensures InPhase(fs, args, maxRecords, outputMode, Working, ExecCall(fs, env, i, s))
  {
    hide EvalAll;
    hide GetSiteId;
    hide SessionOk;
    hide AfterShutdownCall;
    hide AtEntry;
    hide Fetch;
    hide LoggerCalls;
    hide BufferCalls;
    hide LogsOf;
    hide IsLoggerCall;
    hide CalleeName;
    NeverCallsMain(fs, env, s.stack.top, maxRecords, outputMode);
    var fr := s.stack.top;
    var name := CalleeName(env, fr, i.callee);
    if Find(fs, name).Some? {
      var f := Find(fs, name).value;
      var vs := EvalAll(fr.args, fr.regs, i.args);
      var enter := Enter(name, vs, SiteOf(i));
      LoggerCallsSnoc(s.trace, enter);
      LogsSnoc(s.trace, enter);
      if f.blocks == [] {
        var v := Handed(f.sig, env.answer(External(name, vs), s.world));
        var leave := Leave(name, v, SiteOf(i));
        LoggerCallsSnoc(s.trace + [enter], leave);
        LogsSnoc(s.trace + [enter], leave);
        CallDone(fs, fr, i.dst, v, i);
      }
    }
  }

  lemma MainReturns(fs: seq<Function>, fr: Frame, maxRecords: int, outputMode: int)
    requires SessionOk(fs, maxRecords, outputMode) && fr.fn == MAIN
    requires Fetch(fs, fr).Some? && Fetch(fs, fr).value.Return?
    ensures AfterShutdownCall(fs, fr)
  {
    FetchedSession(fs, fr, maxRecords, outputMode);
  }

  lemma WorkingReturn(fs: seq<Function>, args: seq<Value>, maxRecords: int, outputMode: int, i: Instr, s: State)
    requires SessionOk(fs, maxRecords, outputMode) && Logged(fs, s)
    requires InPhase(fs, args, maxRecords, outputMode, Working, s) && Fetch(fs, s.stack.top) == Some(i) && i.Return?
    ensures InPhase(fs, args, maxRecords, outputMode, Working, ExecReturn(fs, i, s))
  {
    hide Pending;
    hide SessionOk;
    hide AfterShutdownCall;
    hide AtEntry;
    hide Fetch;
    hide LoggerCalls;
    hide BufferCalls;
    hide LogsOf;
    hide IsLoggerCall;
    var fr, callers := s.stack.top, s.stack.rest;
    if callers.Empty? {
      MainReturns(fs, fr, maxRecords, outputMode);
    } else if Find(fs, fr.fn).Some? {
      var c := callers.top;
      var f := Find(fs, fr.fn).value;
      var v := Handed(f.sig, if i.value.Some? then Eval(fr.args, fr.regs, i.value.value) else Num(0));
      var leave := Leave(fr.fn, v, fr.site);
      LoggerCallsSnoc(s.trace, leave);
      LogsSnoc(s.trace, leave);
      CallDone(fs, c, fr.ret, v, Fetch(fs, c).value);
      assert MainAtBottom(callers);
      var t := ExecReturn(fs, i, s);
      assert t.stack == Push(Advance(c, fr.ret, v), callers.rest);
      assert MainAtBottom(t.stack);
      assert t.trace == s.trace + [leave];
    }
  }

  lemma EndingStep(fs: seq<Function>, env: Environment, args: seq<Value>, maxRecords: int, outputMode: int, s: State)
    requires SessionOk(fs, maxRecords, outputMode)
    requires InPhase(fs, args, maxRecords, outputMode, Ending, s)
    ensures InPhase(fs, args, maxRecords, outputMode, Finished, Step(fs, env, s))
  {
    hide ExecCall;
    hide SessionOk;
    hide BufferCalls;
    hide LogsOf;
    hide LoggerCalls;
    hide Before;
    var fr := s.stack.top;
    var i := Fetch(fs, fr).value;
    var f := Find(fs, MAIN).value;
    var v := Handed(f.sig, if i.value.Some? then Eval(fr.args, fr.regs, i.value.value) else Num(0));
    LoggerCallsSnoc(s.trace, Leave(fr.fn, v, fr.site));
    LogsSnoc(s.trace, Leave(fr.fn, v, fr.site));
  }

  lemma PhaseStep(fs: seq<Function>, env: Environment, args: seq<Value>, maxRecords: int, outputMode: int,
                  phase: Phase, s: State) returns (next: Phase)
    requires SessionOk(fs, maxRecords, outputMode) && Logged(fs, s) && forall v :: env.target(v) != MAIN
    requires InPhase(fs, args, maxRecords, outputMode, phase, s)
    ensures InPhase(fs, args, maxRecords, outputMode, next, Step(fs, env, s))
  {
    hide SessionOk;
    hide Logged;
    hide AfterShutdownCall;
    hide ExecCall;
    hide ExecReturn;
    hide LoggerCalls;
    next := phase;
    match phase
    case Beginning =>
      BeginningStep(fs, env, args, maxRecords, outputMode, s);
      next := Working;
    case Working =>
      if Fetch(fs, s.stack.top).Some? {
        var i := Fetch(fs, s.stack.top).value;
        if IsIntrinsicCall(i) || (IsLoggerCall(i) && i.callee.name == LOG_BUFFER) || (!i.Call? && !i.Return?) {
          WorkingLocal(fs, env, args, maxRecords, outputMode, i, s);
        } else if IsLoggerCall(i) {
          WorkingShutdown(fs, env, args, maxRecords, outputMode, i, s);
          next := Ending;
        } else if i.Call? {
          WorkingCall(fs, env, args, maxRecords, outputMode, i, s);
        } else {
          WorkingReturn(fs, args, maxRecords, outputMode, i, s);
        }
      }
    case Ending =>
      EndingStep(fs, env, args, maxRecords, outputMode, s);
      next := Finished;
    case Finished =>
  }

  lemma {:induction false} PhaseRun(fs: seq<Function>, env: Environment, args: seq<Value>,
                                    maxRecords: int, outputMode: int, n: nat) returns (phase: Phase)
    requires SessionOk(fs, maxRecords, outputMode) && Placed(fs) && forall v :: env.target(v) != MAIN
    ensures InPhase(fs, args, maxRecords, outputMode, phase, Run(fs, env, Start(MAIN, args), n))
  {
    hide SessionOk;
    hide Placed;
    hide Logged;
    hide Step;
    if n == 0 {
      phase := Beginning;
    } else {
      phase := PhaseRun(fs, env, args, maxRecords, outputMode, n - 1);
      LoggedRun(fs, env, MAIN, args, n - 1);
      phase := PhaseStep(fs, env, args, maxRecords, outputMode, phase, Run(fs, env, Start(MAIN, args), n - 1));
    }
  }

  /**
   A finished run of an instrumented program has initialised the logger once, before anything else was logged, then
   logged every completed annotated call, and shut the logger down once, after everything else.
   */
  lemma CompleteSession(fs: seq<Function>, env: Environment, args: seq<Value>, maxRecords: int, outputMode: int, n: nat)
    requires SessionOk(fs, maxRecords, outputMode) && Placed(fs) && forall v :: env.target(v) != MAIN
    requires Run(fs, env, Start(MAIN, args), n).stack.Empty?
    ensures var s := Run(fs, env, Start(MAIN, args), n);
            LoggerCalls(s.trace) == [InitEvent(maxRecords, outputMode)] + LogsOf(s.trace) + [ShutdownEvent()]
  {
    hide Run;
    hide SessionOk;
    hide Placed;
    var phase := PhaseRun(fs, env, args, maxRecords, outputMode, n);
    ExactLog(fs, env, MAIN, args, n);
  }

  // ---- Before the shutdown ----

  lemma ShutdownIsNeither(maxRecords: int, outputMode: int)
    ensures ShutdownEvent() != InitEvent(maxRecords, outputMode) && !IsBuffering(ShutdownEvent())
  {
    NoReservedMix();
  }

  lemma {:induction false} BuffersBuffer(trace: seq<Event>)
    ensures forall e :: e in BufferCalls(trace) ==> IsBuffering(e)
  {
    hide IsBuffering;
    if trace != [] {
      BuffersBuffer(trace[..|trace| - 1]);
    }
  }

  /** As long as shutdown has not been called, a run has initialised the logger and logged calls, and nothing else. */
  lemma SessionSoFar(fs: seq<Function>, env: Environment, args: seq<Value>, maxRecords: int, outputMode: int, n: nat)
    requires SessionOk(fs, maxRecords, outputMode) && Placed(fs) && forall v :: env.target(v) != MAIN
    requires n > 0
    ensures var s := Run(fs, env, Start(MAIN, args), n);
            ShutdownEvent() !in LoggerCalls(s.trace) ==>
              LoggerCalls(s.trace) == [InitEvent(maxRecords, outputMode)] + BufferCalls(s.trace)
  {
    hide SessionOk;
    hide Placed;
    hide LoggerCalls;
    hide BufferCalls;
    hide MainAtBottom;
    hide AfterShutdownCall;
    hide Step;
    var phase := PhaseRun(fs, env, args, maxRecords, outputMode, n);
    if phase.Beginning? {
      FirstRun(fs, env, args, maxRecords, outputMode, n);
    }
  }

  /** The first step already leaves the beginning. */
  lemma FirstRun(fs: seq<Function>, env: Environment, args: seq<Value>, maxRecords: int, outputMode: int, n: nat)
    requires SessionOk(fs, maxRecords, outputMode) && n > 0
    ensures Run(fs, env, Start(MAIN, args), n) != Start(MAIN, args)
  {
    hide SessionOk;
    hide Step;
    FirstStep(fs, env, args, maxRecords, outputMode);
    TraceStays(fs, env, Start(MAIN, args), 1, n);
    assert Run(fs, env, Start(MAIN, args), 1) == Step(fs, env, Run(fs, env, Start(MAIN, args), 0));
  }

  lemma TraceGrows(fs: seq<Function>, env: Environment, s: State)
    ensures s.trace <= Step(fs, env, s).trace
  {
    hide EvalAll;
    hide Incoming;
    hide Eval;
    hide Find;
    hide Fetch;
  }

  lemma {:induction false} TraceStays(fs: seq<Function>, env: Environment, s: State, k: nat, n: nat)
    requires k <= n
    ensures Run(fs, env, s, k).trace <= Run(fs, env, s, n).trace
  {
    hide Step;
    if k < n {
      TraceStays(fs, env, s, k, n - 1);
      TraceGrows(fs, env, Run(fs, env, s, n - 1));
    }
  }

  /** A run that stands at the shutdown call has called the logger for the completed calls, all of them, and no more. */
  lemma AtShutdown(fs: seq<Function>, env: Environment, args: seq<Value>, maxRecords: int, outputMode: int, n: nat)
    requires SessionOk(fs, maxRecords, outputMode) && Placed(fs) && forall v :: env.target(v) != MAIN
    requires var s := Run(fs, env, Start(MAIN, args), n);
             s.stack.Push? && Fetch(fs, s.stack.top) == Some(ShutdownCall())
    ensures var s := Run(fs, env, Start(MAIN, args), n);
            && n > 0 && ShutdownEvent() !in LoggerCalls(s.trace) && BufferCalls(s.trace) == LogsOf(s.trace)
            && LoggerCalls(s.trace) == [InitEvent(maxRecords, outputMode)] + LogsOf(s.trace)
  {
    hide Run;
    hide SessionOk;
    hide Placed;
    hide LoggerCalls;
    hide BufferCalls;
    hide LogsOf;
    hide MainAtBottom;
    hide AfterShutdownCall;
    var s := Run(fs, env, Start(MAIN, args), n);
    var phase := PhaseRun(fs, env, args, maxRecords, outputMode, n);
    EntryFetch(fs, args, maxRecords, outputMode);
    ShutdownIsNeither(maxRecords, outputMode);
    BuffersBuffer(s.trace);
    NothingPending(fs, env, args, n);
    StartRun(fs, env, args);
  }

  lemma StartRun(fs: seq<Function>, env: Environment, args: seq<Value>)
    ensures Run(fs, env, Start(MAIN, args), 0) == Start(MAIN, args)
  {
  }

  lemma EntryFetch(fs: seq<Function>, args: seq<Value>, maxRecords: int, outputMode: int)
    requires SessionOk(fs, maxRecords, outputMode)
    ensures Fetch(fs, Start(MAIN, args).stack.top) == Some(InitCall(maxRecords, outputMode))
    ensures InitCall(maxRecords, outputMode) != ShutdownCall() && !ShutdownCall().Return?
  {
    hide SessionInstr;
    NoReservedMix();
  }

  /** In front of the shutdown call no entry is waiting to be logged. */
  lemma NothingPending(fs: seq<Function>, env: Environment, args: seq<Value>, n: nat)
    requires Placed(fs)
    requires var s := Run(fs, env, Start(MAIN, args), n);
             s.stack.Push? && Fetch(fs, s.stack.top) == Some(ShutdownCall())
    ensures var s := Run(fs, env, Start(MAIN, args), n); BufferCalls(s.trace) == LogsOf(s.trace)
  {
    hide Run;
    hide BufferCalls;
    hide LogsOf;
    hide GetSiteId;
    hide AnnotatedOk;
    var s := Run(fs, env, Start(MAIN, args), n);
    var fr := s.stack.top;
    ExactLog(fs, env, MAIN, args, n);
    PlacedAt(fs, fr);
    NoReservedMix();
    if Before(fs, fr).Some? {
      assert PlacedInstr(fs, BlockOf(fs, fr).value, fr.pc - 1);
    }
  }

  lemma {:induction false} LoggerCallsHas(trace: seq<Event>, e: Event)
    requires e.Logger?
    ensures e in LoggerCalls(trace) <==> e in trace
  {
    if trace != [] {
      LoggerCallsHas(trace[..|trace| - 1], e);
      assert trace == trace[..|trace| - 1] + [trace[|trace| - 1]];
    }
  }

  lemma OnlyCallsShutDown(fs: seq<Function>, env: Environment, maxRecords: int, outputMode: int, s: State)
    requires SessionOk(fs, maxRecords, outputMode)
    requires ShutdownEvent() !in s.trace && ShutdownEvent() in Step(fs, env, s).trace
    ensures s.stack.Push? && Fetch(fs, s.stack.top) == Some(ShutdownCall())
  {
    hide SessionOk;
    hide EvalAll;
    hide Incoming;
    hide Eval;
    hide Fetch;
    if s.stack.Push? && Fetch(fs, s.stack.top).Some? {
      FetchedSession(fs, s.stack.top, maxRecords, outputMode);
    }
  }

  /** A run that has called shutdown stood at the call before. */
  lemma {:induction false} ShutdownMoment(fs: seq<Function>, env: Environment, args: seq<Value>, maxRecords: int,
                                          outputMode: int, n: nat) returns (k: nat)
    requires SessionOk(fs, maxRecords, outputMode)
    requires ShutdownEvent() in Run(fs, env, Start(MAIN, args), n).trace
    ensures k < n
    ensures var s := Run(fs, env, Start(MAIN, args), k); s.stack.Push? && Fetch(fs, s.stack.top) == Some(ShutdownCall())
    decreases n
  {
    hide SessionOk;
    hide Step;
    hide Fetch;
    var before := Run(fs, env, Start(MAIN, args), n - 1);
    if ShutdownEvent() in before.trace {
      k := ShutdownMoment(fs, env, args, maxRecords, outputMode, n - 1);
    } else {
      OnlyCallsShutDown(fs, env, maxRecords, outputMode, before);
      k := n - 1;
    }
  }

  // ---- The pass establishes the session ----

  /** A program's own code as the pass finds it: no logger calls, no calls to `main`, no branch back to its entry. */
  predicate OwnInstr(name: string, i: Instr) {
    !IsLoggerCall(i) && (IsDirectCall(i) ==> i.callee.name != MAIN) && (name == MAIN ==> !JumpsToEntry(i))
  }

  ghost predicate OwnCode(fs: seq<Function>) {
    && (forall f, p :: f in fs && IsPosition(f.blocks, p) ==> OwnInstr(f.name, InstrAt(f.blocks, p)))
    && (forall f :: f in fs && f.name == MAIN ==> f.blocks != [] && f.blocks[0] != [] && !f.blocks[0][0].Phi?)
  }

  /** What is known of an instruction of a logged block. */
  ghost predicate LoggedAt(l: Block, j: nat, b: Block, isMain: bool)
    requires j < |l|
  {
    && (IsInitCall(l[j]) ==> j == 0 && b != [] && l[0] == b[0])
    && (IsShutdownCall(l[j]) ==> isMain && l[j] == ShutdownCall() && j + 1 < |l| && l[j + 1].Return?)
    && (isMain && l[j].Return? ==> j > 0 && l[j - 1] == ShutdownCall())
    && (IsBufferCall(l[j]) || l[j] == ShutdownCall() || l[j] in b)
  }

  lemma LogCodeIs(i: Instr)
    ensures LogCode(i) == [] || (|LogCode(i)| == 1 && IsBufferCall(LogCode(i)[0]) &&
                                 !IsInitCall(LogCode(i)[0]) && !IsShutdownCall(LogCode(i)[0]))
  {
    hide GetSiteId;
    NoReservedMix();
  }

  ghost predicate LoggedBlock(l: Block, b: Block, isMain: bool) {
    forall j :: 0 <= j < |l| ==> LoggedAt(l, j, b, isMain)
  }

  predicate NoSessionCalls(b: Block) {
    forall j :: 0 <= j < |b| ==> !IsShutdownCall(b[j]) && (IsInitCall(b[j]) ==> j == 0)
  }

  lemma InitHasNone(b: Block)
    requires NoSessionCalls(b) && b != []
    ensures NoSessionCalls(b[..|b| - 1])
  {
    hide IsInitCall;
    hide IsShutdownCall;
  }

  lemma LogBlockSnoc(b: Block, isMain: bool)
    requires b != []
    ensures var init, i := b[..|b| - 1], b[|b| - 1];
            LogBlock(b, isMain) == LogBlock(init, isMain) + (Previous(init) + ShutdownCode(i, isMain)) + [i]
  {
    hide LogCode;
  }

  lemma PreviousIs(b: Block)
    ensures var logged := Previous(b);
            |logged| <= 1 && (logged == [] || (IsBufferCall(logged[0]) && !IsInitCall(logged[0]) && !IsShutdownCall(logged[0])))
    ensures b == [] ==> Previous(b) == []
  {
    hide LogCode;
    hide IsBufferCall;
    hide IsInitCall;
    hide IsShutdownCall;
    if b != [] {
      LogCodeIs(b[|b| - 1]);
    }
  }

  lemma LastAlone(b: Block, isMain: bool)
    requires b != [] && NoSessionCalls(b)
    ensures !IsShutdownCall(b[|b| - 1])
    ensures IsInitCall(b[|b| - 1]) ==> |b| == 1 && LogBlock(b[..|b| - 1], isMain) == [] && Previous(b[..|b| - 1]) == []
  {
    hide IsInitCall;
    hide IsShutdownCall;
    assert |b| == 1 ==> b[..|b| - 1] == [];
  }

  lemma LoggedAnywhere(l0: Block, logged: Block, b: Block, j: nat, isMain: bool)
    requires b != [] && j < |l0 + (logged + ShutdownCode(b[|b| - 1], isMain)) + [b[|b| - 1]]|
    requires j < |l0| ==> LoggedAt(l0, j, b[..|b| - 1], isMain)
    requires |logged| <= 1
    requires logged == [] || (IsBufferCall(logged[0]) && !IsInitCall(logged[0]) && !IsShutdownCall(logged[0]))
    requires !IsShutdownCall(b[|b| - 1]) && (IsInitCall(b[|b| - 1]) ==> |b| == 1 && l0 == [] && logged == [])
    ensures LoggedAt(l0 + (logged + ShutdownCode(b[|b| - 1], isMain)) + [b[|b| - 1]], j, b, isMain)
  {
    hide LoggedAt;
    hide IsBufferCall;
    hide IsInitCall;
    hide IsShutdownCall;
    hide ShutdownCode;
    var i := b[|b| - 1];
    var code := logged + ShutdownCode(i, isMain);
    if j < |l0| {
      LoggedEarlier(l0, code + [i], j, b[..|b| - 1], b, isMain);
      assert l0 + code + [i] == l0 + (code + [i]);
    } else if j < |l0| + |code| {
      LoggedCode(l0, logged, i, j, b, isMain);
    } else {
      LoggedLast(l0, logged, b, isMain);
    }
  }

  /** Logging one more instruction. */
  lemma LogBlockSessionStep(b: Block, isMain: bool)
    requires b != [] && NoSessionCalls(b)
    requires LoggedBlock(LogBlock(b[..|b| - 1], isMain), b[..|b| - 1], isMain)
    ensures LoggedBlock(LogBlock(b, isMain), b, isMain)
  {
    hide LogBlock;
    hide Previous;
    hide ShutdownCode;
    hide LoggedAt;
    hide IsBufferCall;
    hide IsInitCall;
    hide IsShutdownCall;
    hide NoSessionCalls;
    var init := b[..|b| - 1];
    LogBlockSnoc(b, isMain);
    PreviousIs(init);
    LastAlone(b, isMain);
    forall j | 0 <= j < |LogBlock(b, isMain)|
      ensures LoggedAt(LogBlock(b, isMain), j, b, isMain)
    {
      LoggedAnywhere(LogBlock(init, isMain), Previous(init), b, j, isMain);
    }
  }

  lemma {:induction false} LogBlockFirst(b: Block, isMain: bool)
    ensures b != [] ==> LogBlock(b, isMain) != [] && (!b[0].Return? ==> LogBlock(b, isMain)[0] == b[0])
  {
    hide LogCode;
    if b != [] {
      LogBlockFirst(b[..|b| - 1], isMain);
    }
  }

  lemma {:induction false} LogBlockSession(b: Block, isMain: bool)
    requires NoSessionCalls(b)
    ensures LoggedBlock(LogBlock(b, isMain), b, isMain)
    ensures b != [] ==> LogBlock(b, isMain) != [] && (!b[0].Return? ==> LogBlock(b, isMain)[0] == b[0])
  {
    hide NoSessionCalls;
    hide LoggedAt;
    LogBlockFirst(b, isMain);
    if b != [] {
      InitHasNone(b);
      LogBlockSession(b[..|b| - 1], isMain);
      LogBlockSessionStep(b, isMain);
    }
  }

  lemma LoggedEarlier(l0: Block, tail: Block, j: nat, init: Block, b: Block, isMain: bool)
    requires j < |l0| && LoggedAt(l0, j, init, isMain) && init <= b
    ensures LoggedAt(l0 + tail, j, b, isMain)
  {
    hide IsLoggerCall;
    hide IsBufferCall;
  }

  lemma LoggedCode(l0: Block, logged: Block, i: Instr, j: nat, b: Block, isMain: bool)
    requires |l0| <= j < |l0| + |logged + ShutdownCode(i, isMain)|
    requires |logged| <= 1
    requires logged == [] || (IsBufferCall(logged[0]) && !IsInitCall(logged[0]) && !IsShutdownCall(logged[0]))
    ensures LoggedAt(l0 + (logged + ShutdownCode(i, isMain)) + [i], j, b, isMain)
  {
    ShutdownIs();
    var l := l0 + (logged + ShutdownCode(i, isMain)) + [i];
    if j < |l0| + |logged| {
      assert l[j] == logged[0];
    } else {
      assert l[j] == ShutdownCall() && l[j + 1] == i;
    }
  }

  lemma LoggedLast(l0: Block, logged: Block, b: Block, isMain: bool)
    requires b != [] && var i := b[|b| - 1];
             !IsShutdownCall(i) && (IsInitCall(i) ==> |b| == 1 && l0 == [] && logged == [])
    ensures var i := b[|b| - 1]; var l := l0 + (logged + ShutdownCode(i, isMain)) + [i];
            LoggedAt(l, |l| - 1, b, isMain)
  {
    hide IsLogger;
    var l := l0 + (logged + ShutdownCode(b[|b| - 1], isMain)) + [b[|b| - 1]];
    assert l[|l| - 1] == b[|b| - 1];
  }

  lemma ShutdownIs()
    ensures IsShutdownCall(ShutdownCall()) && !IsInitCall(ShutdownCall())
    ensures forall maxRecords, outputMode ::
              IsInitCall(InitCall(maxRecords, outputMode)) && !IsShutdownCall(InitCall(maxRecords, outputMode))
  {
    NoReservedMix();
  }

  /** Program code, possibly behind the initialisation call. */
  predicate CodeOrInit(name: string, k: nat, j: nat, i: Instr, maxRecords: int, outputMode: int) {
    OwnInstr(name, i) || (name == MAIN && k == 0 && j == 0 && i == InitCall(maxRecords, outputMode))
  }

  lemma LoggedBlockSession(name: string, k: nat, blocks: seq<Block>, b: Block, j: nat, maxRecords: int, outputMode: int)
    requires k < |blocks| && blocks[k] == LogBlock(b, name == MAIN) && j < |blocks[k]|
    requires forall m :: 0 <= m < |b| ==> CodeOrInit(name, k, m, b[m], maxRecords, outputMode)
    ensures SessionInstr(name, blocks, (k, j), maxRecords, outputMode)
  {
    hide LogBlock;
    hide CodeOrInit;
    forall m | 0 <= m < |b|
      ensures !IsShutdownCall(b[m]) && (IsInitCall(b[m]) ==> m == 0 && name == MAIN && k == 0)
      ensures IsInitCall(b[m]) ==> b[m] == InitCall(maxRecords, outputMode)
      ensures (name == MAIN ==> !JumpsToEntry(b[m])) && (IsDirectCall(b[m]) ==> b[m].callee.name != MAIN)
    {
      CodeOrInitIs(name, k, m, b[m], maxRecords, outputMode);
    }
    LogBlockSession(b, name == MAIN);
    SessionFromLogged(name, k, blocks, b, j, maxRecords, outputMode);
  }

  lemma SessionFromLogged(name: string, k: nat, blocks: seq<Block>, b: Block, j: nat, maxRecords: int, outputMode: int)
    requires k < |blocks| && j < |blocks[k]| && LoggedAt(blocks[k], j, b, name == MAIN)
    requires b != [] && IsInitCall(b[0]) ==> name == MAIN && k == 0 && b[0] == InitCall(maxRecords, outputMode)
    requires forall m :: 0 <= m < |b| ==>
               (name == MAIN ==> !JumpsToEntry(b[m])) && (IsDirectCall(b[m]) ==> b[m].callee.name != MAIN)
    ensures SessionInstr(name, blocks, (k, j), maxRecords, outputMode)
  {
    hide IsLogger;
    LoggerNames();
    var i := blocks[k][j];
    if i in b {
      var m :| 0 <= m < |b| && b[m] == i;
    }
  }

  lemma LoggerNames()
    ensures LOG_INIT != MAIN && LOG_BUFFER != MAIN && LOG_SHUTDOWN != MAIN
  {
    assert |LOG_INIT| != |MAIN| && |LOG_BUFFER| != |MAIN| && |LOG_SHUTDOWN| != |MAIN|;
  }

  lemma CodeOrInitIs(name: string, k: nat, j: nat, i: Instr, maxRecords: int, outputMode: int)
    requires CodeOrInit(name, k, j, i, maxRecords, outputMode)
    ensures !IsShutdownCall(i)
    ensures IsInitCall(i) ==> j == 0 && name == MAIN && k == 0 && i == InitCall(maxRecords, outputMode)
    ensures (name == MAIN ==> !JumpsToEntry(i)) && (IsDirectCall(i) ==> i.callee.name != MAIN)
  {
    ShutdownIs();
    LoggerNames();
  }

  lemma OwnBlock(fs: seq<Function>, f: Function, k: nat, maxRecords: int, outputMode: int)
    requires OwnCode(fs) && f in fs && k < |f.blocks|
    ensures f.name == MAIN ==> f.blocks[0] != [] && !f.blocks[0][0].Phi?
    ensures var b := if f.name == MAIN && k == 0 then [InitCall(maxRecords, outputMode)] + f.blocks[k] else f.blocks[k];
            && (forall m :: 0 <= m < |b| ==> CodeOrInit(f.name, k, m, b[m], maxRecords, outputMode))
            && (f.name == MAIN && k == 0 ==>
                  forall m :: 0 < m < |b| ==> !IsShutdownCall(b[m]) && !IsInitCall(b[m]))
  {
    var b := if f.name == MAIN && k == 0 then [InitCall(maxRecords, outputMode)] + f.blocks[k] else f.blocks[k];
    var shift := if f.name == MAIN && k == 0 then 1 else 0;
    forall m | shift <= m < |b|
      ensures OwnInstr(f.name, b[m])
    {
      assert b[m] == InstrAt(f.blocks, (k, m - shift));
    }
  }

  /** The module `AddLogging` produces keeps the session. */
  lemma LogKeepsSession(fs: seq<Function>, maxRecords: int, outputMode: int)
    requires OwnCode(fs) && Find(fs, MAIN).Some?
    ensures SessionOk(Log(fs, maxRecords, outputMode), maxRecords, outputMode)
  {
    hide OwnCode;
    hide LogFunction;
    hide SessionInstr;
    hide IsInitCall;
    hide IsShutdownCall;
    hide CodeOrInit;
    var gs := Log(fs, maxRecords, outputMode);
    forall g, p | g in gs && IsPosition(g.blocks, p)
      ensures SessionInstr(g.name, g.blocks, p, maxRecords, outputMode)
    {
      var n :| 0 <= n < |gs| && gs[n] == g;
      var f := fs[n];
      LoggedShape(f, maxRecords, outputMode);
      OwnBlock(fs, f, p.0, maxRecords, outputMode);
      var b := EntryWithInit(f, p.0, maxRecords, outputMode);
      LoggedBlockSession(f.name, p.0, g.blocks, b, p.1, maxRecords, outputMode);
    }
    FindLogged(fs, maxRecords, outputMode, MAIN);
    FindErased(fs, MAIN);
    var f := Find(fs, MAIN).value;
    MainEntry(fs, f);
    LoggedShape(f, maxRecords, outputMode);
    OwnBlock(fs, f, 0, maxRecords, outputMode);
    var b := EntryWithInit(f, 0, maxRecords, outputMode);
    ShutdownIs();
    EntryFirst(b);
  }

  lemma MainEntry(fs: seq<Function>, f: Function)
    requires OwnCode(fs) && f in fs && f.name == MAIN
    ensures f.blocks != []
  {
  }

  lemma LoggedShape(f: Function, maxRecords: int, outputMode: int)
    ensures var g := LogFunction(f, maxRecords, outputMode); g.name == f.name && |g.blocks| == |f.blocks|
  {
  }

  lemma EntryFirst(b: Block)
    requires b != [] && IsInitCall(b[0]) && forall j :: 0 < j < |b| ==> !IsShutdownCall(b[j]) && !IsInitCall(b[j])
    ensures LogBlock(b, true) != [] && LogBlock(b, true)[0] == b[0]
  {
    hide LogBlock;
    NoReservedMix();
    LogBlockSession(b, true);
  }

  /** The block the logging loop finds: `main`'s entry starts with the initialisation call. */
  lemma EntryWithInit(f: Function, k: nat, maxRecords: int, outputMode: int) returns (b: Block)
    requires k < |f.blocks|
    requires f.name == MAIN ==> f.blocks[0] != [] && !f.blocks[0][0].Phi?
    ensures b == if f.name == MAIN && k == 0 then [InitCall(maxRecords, outputMode)] + f.blocks[k] else f.blocks[k]
    ensures k < |LogFunction(f, maxRecords, outputMode).blocks|
    ensures LogFunction(f, maxRecords, outputMode).blocks[k] == LogBlock(b, f.name == MAIN)
  {
    hide LogBlock;
    b := if f.name == MAIN && k == 0 then [InitCall(maxRecords, outputMode)] + f.blocks[k] else f.blocks[k];
    if f.name == MAIN && k == 0 {
      assert FirstInsertionPoint(f.blocks[0]) == 0;
      assert InitBlock(f.blocks[0], maxRecords, outputMode) == b;
    }
  }
}
