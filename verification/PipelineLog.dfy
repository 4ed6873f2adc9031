/** What the instrumented program logs, in terms of the program's own runs. */
module PipelineLog {
  import opened Text
  import opened Metadata
  import opened Ir
  import opened Semantics
  import opened Erasure
  import opened WrapMeaning
  import opened AddLogging
  import opened ExactLogging
  import opened LoggerSession
  import opened Instrumentation
  import opened Pipeline
  import T = TagResults

  // ---- Wrappers are called without an id ----

  ghost predicate PlainWrapperCalls(fs: seq<Function>) {
    forall f, k, j :: f in fs && 0 <= k < |f.blocks| && 0 <= j < |f.blocks[k]| ==> PlainCall(f.blocks[k][j])
  }

  predicate PlainCall(i: Instr) {
    IsDirectCall(i) && IsWrapperName(i.callee.name) ==> SiteOf(i).None?
  }

  predicate PlainEvent(e: Event) {
    !e.Logger? && IsWrapperName(e.fn) ==> e.site.None?
  }

  predicate PlainStack(s: Stack) {
    match s case Empty => true case Push(f, rest) => (IsWrapperName(f.fn) ==> f.site.None?) && PlainStack(rest)
  }

  ghost predicate PlainState(s: State) {
    (forall k :: 0 <= k < |s.trace| ==> PlainEvent(s.trace[k])) && PlainStack(s.stack)
  }

  lemma PlainResume(callers: Stack, dst: Option<Register>, v: Value)
    requires PlainStack(callers)
    ensures PlainStack(Resume(callers, dst, v))
  {
  }

  lemma PlainCallStep(fs: seq<Function>, env: Environment, i: Instr, s: State)
    requires PlainState(s) && s.stack.Push? && i.Call? && PlainCall(i)
    ensures PlainState(ExecCall(fs, env, i, s))
  {
    hide EvalAll;
    hide GetSiteId;
    hide Find;
    hide Handed;
    hide IsWrapperName;
  }

  lemma PlainReturnStep(fs: seq<Function>, i: Instr, s: State)
    requires PlainState(s) && s.stack.Push? && i.Return?
    ensures PlainState(ExecReturn(fs, i, s))
  {
    hide Eval;
    hide Find;
    hide Handed;
    hide IsWrapperName;
    hide Resume;
    var fr := s.stack.top;
    if Find(fs, fr.fn).Some? {
      var v := Handed(Find(fs, fr.fn).value.sig,
                      if i.value.Some? then Eval(fr.args, fr.regs, i.value.value) else Num(0));
      PlainResume(s.stack.rest, fr.ret, v);
    }
  }

  lemma PlainStep(fs: seq<Function>, env: Environment, s: State)
    requires PlainWrapperCalls(fs) && PlainState(s)
    ensures PlainState(Step(fs, env, s))
  {
    hide ExecCall;
    hide ExecReturn;
    hide EvalAll;
    hide IsWrapperName;
    hide PlainCall;
    hide Incoming;
    if s.stack.Push? && Fetch(fs, s.stack.top).Some? {
      var i := Fetch(fs, s.stack.top).value;
      FindErased(fs, s.stack.top.fn);
      assert PlainCall(i);
      if i.Call? && !IsIntrinsicCall(i) && !IsLoggerCall(i) {
        PlainCallStep(fs, env, i, s);
      } else if i.Return? {
        PlainReturnStep(fs, i, s);
      }
    }
  }

  lemma {:induction false} PlainRun(fs: seq<Function>, env: Environment, entry: string, args: seq<Value>, n: nat)
    requires PlainWrapperCalls(fs)
    ensures PlainState(Run(fs, env, Start(entry, args), n))
  {
    hide PlainWrapperCalls;
    hide Step;
    if n > 0 {
      PlainRun(fs, env, entry, args, n - 1);
      PlainStep(fs, env, Run(fs, env, Start(entry, args), n - 1));
    } else {
      assert PlainStack(Start(entry, args).stack.rest);
    }
  }

  /** The log can be read off the program's own events. */
  lemma {:induction false} LogsOfProgram(trace: seq<Event>)
    requires forall k :: 0 <= k < |trace| ==> PlainEvent(trace[k])
    ensures LogsOf(trace) == LogsOf(ProgramEvents(trace))
  {
    hide LogOf;
    hide IsProgramEvent;
    if trace != [] {
      var init, e := trace[..|trace| - 1], trace[|trace| - 1];
      LogsOfProgram(init);
      LogsStep(ProgramEvents(init), e);
      NoLog(e);
      assert LogsOf(init) + [] == LogsOf(init) && ProgramEvents(init) + [] == ProgramEvents(init);
    }
  }

  lemma LogsStep(trace: seq<Event>, e: Event)
    ensures LogsOf(trace + [e]) == LogsOf(trace) + LogOf(e)
  {
    assert (trace + [e])[..|trace|] == trace;
  }

  lemma NoLog(e: Event)
    requires PlainEvent(e)
    ensures !IsProgramEvent(e) ==> LogOf(e) == []
  {
  }

  lemma FinalPlain(m: seq<Function>, fs: seq<Function>, maxRecords: int, outputMode: int, session: bool)
    requires FitModule(m, fs, After, session)
    ensures PlainWrapperCalls(Log(fs, maxRecords, outputMode))
  {
    hide FitModule;
    hide LogFunction;
    hide Fit;
    hide LoggingCode;
    hide PlainCall;
    var gs := Log(fs, maxRecords, outputMode);
    forall f, k, j | f in gs && 0 <= k < |f.blocks| && 0 <= j < |f.blocks[k]|
      ensures PlainCall(f.blocks[k][j])
    {
      var n :| 0 <= n < |gs| && gs[n] == f;
      LogOrigin(m, fs, maxRecords, outputMode, n, (k, j), session);
      PlainFromFit(m, fs[n].name, k, f.blocks[k][j], session);
    }
  }

  lemma PlainFromFit(m: seq<Function>, name: string, k: nat, i: Instr, session: bool)
    requires LoggingCode(i) || Fit(m, name, k, i, After, session)
    ensures PlainCall(i)
  {
    hide Fit;
    hide IsWrapperName;
    if !LoggingCode(i) {
      FitParts(m, name, k, i, After, session);
    }
  }

  // ---- The theorem ----

  /** The instrumented module keeps the discipline that the theorems about its logger calls ask for. */
  lemma FinalDiscipline(m: seq<Function>, first: nat, oracle: T.Oracle, maxRecords: int, outputMode: int)
    requires Program(m)
    ensures var fs := Final(m, first, oracle, maxRecords, outputMode); Placed(fs) && PlainWrapperCalls(fs)
  {
    hide FitModule;
    hide Carries;
    hide Log;
    hide Cleared;
    hide Ready;
    hide Placed;
    hide PlainWrapperCalls;
    var u := Cleared(m, first, oracle);
    ClearedFits(m, first, oracle, false);
    FitReady(m, u, false);
    LogPlaces(u, maxRecords, outputMode);
    FinalPlain(m, u, maxRecords, outputMode, false);
  }

  lemma FinalSession(m: seq<Function>, first: nat, oracle: T.Oracle, maxRecords: int, outputMode: int)
    requires Program(m) && StartsInMain(m)
    ensures SessionOk(Final(m, first, oracle, maxRecords, outputMode), maxRecords, outputMode)
  {
    hide FitModule;
    hide Carries;
    hide Log;
    hide Cleared;
    hide OwnCode;
    hide SessionOk;
    var u := Cleared(m, first, oracle);
    ClearedFits(m, first, oracle, true);
    FitOwn(m, u);
    CarriesFind(m, u, MAIN);
    LogKeepsSession(u, maxRecords, outputMode);
  }

  /**
    * At every moment of every run, from whatever function it starts, the instrumented program has logged the annotated
    * calls that completed in a run of the program itself, in order, but for at most one call whose logging is next.
    */
  lemma RunningLog(m: seq<Function>, first: nat, oracle: T.Oracle, maxRecords: int, outputMode: int, env: Environment,
                   entry: string, args: seq<Value>, n: nat) returns (k: nat)
    requires Program(m) && NoWrapperTargets(env, first) && Find(m, entry).Some?
    ensures var s := Run(Final(m, first, oracle, maxRecords, outputMode), env, Start(entry, args), n);
            var own := Run(m, env, Start(entry, args), k);
            var completed := LogsOf(ProgramEvents(own.trace));
            && Observe(own) == Observe(s) && LogsOf(s.trace) == completed
            && BufferCalls(s.trace) <= completed && |completed| <= |BufferCalls(s.trace)| + 1
            && (s.stack.Empty? ==> BufferCalls(s.trace) == completed)
  {
    hide Final;
    hide Run;
    hide LogsOf;
    hide BufferCalls;
    hide ProgramEvents;
    hide NoWrapperTargets;
    hide Placed;
    hide PlainWrapperCalls;
    hide SameRuns;
    hide Program;
    var fs := Final(m, first, oracle, maxRecords, outputMode);
    FinalDiscipline(m, first, oracle, maxRecords, outputMode);
    ExactLog(fs, env, entry, args, n);
    PlainRun(fs, env, entry, args, n);
    LogsOfProgram(Run(fs, env, Start(entry, args), n).trace);
    InstrumentationPreservesMeaning(m, first, oracle, maxRecords, outputMode, env, entry, args);
    k := MatchingRun(m, fs, env, entry, args, n);
  }

  /**
    * A finished run of the instrumented program has made exactly these logger calls: one initialisation, one call for
    * every annotated call that completed in a run of the program itself, in order, and one shutdown.
    */
  lemma FinishedLog(m: seq<Function>, first: nat, oracle: T.Oracle, maxRecords: int, outputMode: int, env: Environment,
                    args: seq<Value>, n: nat) returns (k: nat)
    requires Program(m) && StartsInMain(m) && NoWrapperTargets(env, first) && forall v :: env.target(v) != MAIN
    requires Run(Final(m, first, oracle, maxRecords, outputMode), env, Start(MAIN, args), n).stack.Empty?
    ensures var s := Run(Final(m, first, oracle, maxRecords, outputMode), env, Start(MAIN, args), n);
            var own := Run(m, env, Start(MAIN, args), k);
            Observe(own) == Observe(s) &&
            LoggerCalls(s.trace) ==
              [InitEvent(maxRecords, outputMode)] + LogsOf(ProgramEvents(own.trace)) + [ShutdownEvent()]
  {
    hide Final;
    hide Run;
    hide LogsOf;
    hide BufferCalls;
    hide LoggerCalls;
    hide ProgramEvents;
    hide NoWrapperTargets;
    hide Placed;
    hide SessionOk;
    hide Program;
    hide FitModule;
    var fs := Final(m, first, oracle, maxRecords, outputMode);
    FinalDiscipline(m, first, oracle, maxRecords, outputMode);
    FinalSession(m, first, oracle, maxRecords, outputMode);
    CompleteSession(fs, env, args, maxRecords, outputMode, n);
    k := RunningLog(m, first, oracle, maxRecords, outputMode, env, MAIN, args, n);
  }

  lemma MatchingRun(m: seq<Function>, fs: seq<Function>, env: Environment, entry: string, args: seq<Value>, n: nat)
      returns (k: nat)
    requires SameRuns(m, fs, env, entry, args)
    ensures Observe(Run(m, env, Start(entry, args), k)) == Observe(Run(fs, env, Start(entry, args), n))
  {
    hide Run;
    hide Observe;
    var o := Observe(Run(fs, env, Start(entry, args), n));
    assert Reaches(fs, env, entry, args, o);
    assert Reaches(m, env, entry, args, o);
    k :| Observe(Run(m, env, Start(entry, args), k)) == o;
  }

  // ---- With a shutdown that does not return ----

  /** A run has a result exactly when it is over. */
  ghost predicate ResultAtEnd(s: State) {
    s.result.Some? <==> s.stack.Empty?
  }

  lemma ResultStep(fs: seq<Function>, env: Environment, s: State)
    requires ResultAtEnd(s)
    ensures ResultAtEnd(Step(fs, env, s))
  {
    hide EvalAll;
    hide Incoming;
    hide Eval;
    hide Find;
    hide Fetch;
  }

  lemma {:induction false} ResultRun(fs: seq<Function>, env: Environment, entry: string, args: seq<Value>, n: nat)
    ensures ResultAtEnd(Run(fs, env, Start(entry, args), n))
  {
    hide Step;
    if n > 0 {
      ResultRun(fs, env, entry, args, n - 1);
      ResultStep(fs, env, Run(fs, env, Start(entry, args), n - 1));
    }
  }

  lemma ShutdownUnseen(fs: seq<Function>, env: Environment, s: State)
    requires s.stack.Push? && Fetch(fs, s.stack.top) == Some(ShutdownCall())
    ensures Observe(Step(fs, env, s)) == Observe(s)
  {
    hide Fetch;
    hide EvalAll;
    NoReservedMix();
    var fr := s.stack.top;
    ProgramEventsSnoc(s.trace, Logger(LOG_SHUTDOWN, EvalAll(fr.args, fr.regs, ShutdownCall().args)));
  }

  /** What a run shows between the shutdown call and its end it has shown in front of the call. */
  lemma ShownBefore(fs: seq<Function>, env: Environment, args: seq<Value>, maxRecords: int, outputMode: int, n: nat)
      returns (k: nat)
    requires SessionOk(fs, maxRecords, outputMode) && Placed(fs) && forall v :: env.target(v) != MAIN
    requires Run(fs, env, Start(MAIN, args), n).stack.Push?
    ensures Observe(Run(fs, env, Start(MAIN, args), k)) == Observe(Run(fs, env, Start(MAIN, args), n))
    ensures ShutdownEvent() !in LoggerCalls(Run(fs, env, Start(MAIN, args), k).trace)
  {
    hide SessionOk;
    hide Placed;
    hide Step;
    hide Observe;
    hide LoggerCalls;
    hide BufferCalls;
    hide AfterShutdownCall;
    hide MainAtBottom;
    var s := Run(fs, env, Start(MAIN, args), n);
    k := n;
    if ShutdownEvent() in LoggerCalls(s.trace) {
      LoggerCallsHas(s.trace, ShutdownEvent());
      NoCallsYet();
      var before := Run(fs, env, Start(MAIN, args), n - 1);
      LoggerCallsHas(before.trace, ShutdownEvent());
      k := n - 1;
      if ShutdownEvent() in before.trace {
        EndsNext(fs, env, args, maxRecords, outputMode, n - 1);
      } else {
        OnlyCallsShutDown(fs, env, maxRecords, outputMode, before);
        ShutdownUnseen(fs, env, before);
      }
    }
  }

  lemma NoCallsYet()
    ensures LoggerCalls([]) == []
  {
  }

  /** Behind the shutdown call comes `main`'s return. */
  lemma EndsNext(fs: seq<Function>, env: Environment, args: seq<Value>, maxRecords: int, outputMode: int, n: nat)
    requires SessionOk(fs, maxRecords, outputMode) && Placed(fs) && forall v :: env.target(v) != MAIN
    requires ShutdownEvent() in LoggerCalls(Run(fs, env, Start(MAIN, args), n).trace)
    ensures Run(fs, env, Start(MAIN, args), n + 1).stack.Empty?
  {
    hide SessionOk;
    hide Placed;
    hide LoggerCalls;
    hide BufferCalls;
    hide AfterShutdownCall;
    hide MainAtBottom;
    hide LogsOf;
    var s := Run(fs, env, Start(MAIN, args), n);
    var phase := PhaseRun(fs, env, args, maxRecords, outputMode, n);
    ShutdownIsNeither(maxRecords, outputMode);
    BuffersBuffer(s.trace);
    NoCallsYet();
    if phase.Ending? {
      ReturnsHome(fs, env, s);
    }
  }

  lemma ReturnsHome(fs: seq<Function>, env: Environment, s: State)
    requires s.stack.Push? && s.stack.rest.Empty? && Fetch(fs, s.stack.top).Some? && Fetch(fs, s.stack.top).value.Return?
    ensures Step(fs, env, s).stack.Empty?
  {
    hide Eval;
  }

  /**
    * With a shutdown that never returns, a run from `main` still shows everything the program shows before it ends: each
    * such observation is made in front of the shutdown call.
    */
  lemma ShownBeforeShutdown(m: seq<Function>, first: nat, oracle: T.Oracle, maxRecords: int, outputMode: int,
                            env: Environment, args: seq<Value>, n: nat) returns (k: nat)
    requires Program(m) && StartsInMain(m) && NoWrapperTargets(env, first) && forall v :: env.target(v) != MAIN
    requires Run(m, env, Start(MAIN, args), n).stack.Push?
    ensures var s := Run(Final(m, first, oracle, maxRecords, outputMode), env, Start(MAIN, args), k);
            Observe(s) == Observe(Run(m, env, Start(MAIN, args), n)) && ShutdownEvent() !in LoggerCalls(s.trace)
  {
    hide Program;
    hide FitModule;
    hide Final;
    hide Run;
    hide SameRuns;
    hide LoggerCalls;
    hide ProgramEvents;
    hide NoWrapperTargets;
    hide SessionOk;
    hide Placed;
    hide PlainWrapperCalls;
    var fs := Final(m, first, oracle, maxRecords, outputMode);
    FinalDiscipline(m, first, oracle, maxRecords, outputMode);
    FinalSession(m, first, oracle, maxRecords, outputMode);
    InstrumentationPreservesMeaning(m, first, oracle, maxRecords, outputMode, env, MAIN, args);
    SameRunsBack(m, fs, env, args);
    k := MatchingRun(fs, m, env, MAIN, args, n);
    ResultRun(m, env, MAIN, args, n);
    ResultRun(fs, env, MAIN, args, k);
    k := ShownBefore(fs, env, args, maxRecords, outputMode, k);
  }

  lemma SameRunsBack(m: seq<Function>, fs: seq<Function>, env: Environment, args: seq<Value>)
    requires SameRuns(m, fs, env, MAIN, args)
    ensures SameRuns(fs, m, env, MAIN, args)
  {
    hide Reaches;
  }
}
