/**
 The logger calls of an instrumented module's runs: one for every completed annotated call, with its id, its result
 and its callee's name, and no other.
 */
module ExactLogging {
  import opened Text
  import opened Metadata
  import opened Ir
  import opened Semantics
  import opened Erasure
  import opened AddLogging

  predicate IsBufferCall(i: Instr) {
    IsLoggerCall(i) && i.callee.name == LOG_BUFFER
  }

  /** An annotated call is a program call, and a call without a result register is to a void function. */
  predicate AnnotatedOk(fs: seq<Function>, i: Instr) {
    LogId(i).Some? ==>
      && !IsIntrinsicCall(i) && !IsLoggerCall(i)
      && (i.dst.None? && Find(fs, i.callee.name).Some? ==> Find(fs, i.callee.name).value.sig.result.Void?)
  }

  /** In a logged block the instruction behind an annotated call logs it, and nothing else is logged. */
  ghost predicate PlacedBlock(fs: seq<Function>, b: Block) {
    forall j :: 0 <= j < |b| ==> PlacedInstr(fs, b, j)
  }

  predicate PlacedInstr(fs: seq<Function>, b: Block, j: nat)
    requires j < |b|
  {
    && AnnotatedOk(fs, b[j])
    && (LogId(b[j]).Some? ==> j + 1 < |b| && b[j + 1] == LogCall(b[j]))
    && (IsBufferCall(b[j]) ==> j > 0 && LogId(b[j - 1]).Some?)
  }

  ghost predicate Placed(fs: seq<Function>) {
    forall f, k :: f in fs && 0 <= k < |f.blocks| ==> PlacedBlock(fs, f.blocks[k])
  }

  // ---- What should be logged ----

  function LogEntry(id: int, result: Value, fn: string): Event {
    Logger(LOG_BUFFER, [Num(0), Num(id), result, Str(fn)])
  }

  /** The log entry of an event: only the end of an annotated call has one. */
  function LogOf(e: Event): seq<Event> {
    if e.Leave? && e.site.Some? && e.fn != LOG_INIT && e.fn != LOG_BUFFER
    then [LogEntry(e.site.value, e.result, e.fn)]
    else []
  }

  function LogsOf(trace: seq<Event>): seq<Event> {
    if trace == [] then [] else LogsOf(trace[..|trace| - 1]) + LogOf(trace[|trace| - 1])
  }

  /** The `clam_prov_logging_buffer` calls that were made. */
  function BufferCalls(trace: seq<Event>): seq<Event> {
    if trace == [] then []
    else
      BufferCalls(trace[..|trace| - 1]) +
      if IsBuffering(trace[|trace| - 1]) then [trace[|trace| - 1]] else []
  }

  predicate IsBuffering(e: Event) {
    e.Logger? && e.fn == LOG_BUFFER
  }

  lemma LogsSnoc(trace: seq<Event>, e: Event)
    ensures LogsOf(trace + [e]) == LogsOf(trace) + LogOf(e)
    ensures BufferCalls(trace + [e]) == BufferCalls(trace) + if IsBuffering(e) then [e] else []
  {
    assert (trace + [e])[..|trace|] == trace;
  }

  // ---- The invariant ----

  function Before(fs: seq<Function>, fr: Frame): Option<Instr> {
    match BlockOf(fs, fr)
    case None => None
    case Some(b) => if 0 < fr.pc <= |b| then Some(b[fr.pc - 1]) else None
  }

  function LogArgs(fr: Frame, i: Instr): seq<Value>
    requires LogId(i).Some?
  {
    EvalAll(fr.args, fr.regs, LogCall(i).args)
  }

  /** The entry that is about to be written, when the run stands between an annotated call and its logger call. */
  function Pending(fs: seq<Function>, s: Stack): seq<Event> {
    if s.Push? && Before(fs, s.top).Some? && LogId(Before(fs, s.top).value).Some?
    then [Logger(LOG_BUFFER, LogArgs(s.top, Before(fs, s.top).value))]
    else []
  }

  predicate CalledFrom(callee: Frame, i: Instr) {
    && i.Call? && !IsIntrinsicCall(i) && !IsLoggerCall(i)
    && callee.ret == i.dst && callee.site == SiteOf(i) && (IsDirectCall(i) ==> callee.fn == i.callee.name)
  }

  /** Every activation was started by the call its caller is waiting at. */
  ghost predicate Linked(fs: seq<Function>, callee: Frame, callers: Stack)
    decreases callers
  {
    match callers
    case Empty => callee.site.None?
    case Push(c, rest) => Fetch(fs, c).Some? && CalledFrom(callee, Fetch(fs, c).value) && Linked(fs, c, rest)
  }

  ghost predicate Logged(fs: seq<Function>, s: State) {
    && BufferCalls(s.trace) + Pending(fs, s.stack) == LogsOf(s.trace)
    && (s.stack.Push? ==> Linked(fs, s.stack.top, s.stack.rest))
  }

  // ---- One step ----

  lemma PlacedAt(fs: seq<Function>, fr: Frame)
    requires Placed(fs)
    ensures BlockOf(fs, fr).Some? ==> PlacedBlock(fs, BlockOf(fs, fr).value)
  {
    FindErased(fs, fr.fn);
  }

  lemma LogArgsAre(fr: Frame, i: Instr, v: Value)
    requires LogId(i).Some? && (i.dst.None? ==> v == Num(0))
    ensures LogArgs(Advance(fr, i.dst, v), i) == [Num(0), Num(LogId(i).value), v, Str(i.callee.name)]
  {
    hide GetSiteId;
  }

  /** Completing the call at the top of the stack makes exactly its entry pending. */
  lemma CompletedCall(fs: seq<Function>, fr: Frame, rest: Stack, i: Instr, fn: string, v: Value)
    requires Fetch(fs, fr) == Some(i) && i.Call? && (IsDirectCall(i) ==> fn == i.callee.name)
    requires LogId(i).Some? && i.dst.None? ==> v == Num(0)
    ensures Pending(fs, Push(Advance(fr, i.dst, v), rest)) == LogOf(Leave(fn, v, SiteOf(i)))
  {
    hide GetSiteId;
    hide LogArgs;
    assert Before(fs, Advance(fr, i.dst, v)) == Some(i);
    if LogId(i).Some? {
      LogArgsAre(fr, i, v);
    }
  }

  lemma VoidResult(fs: seq<Function>, i: Instr, f: Function, v: Value)
    requires AnnotatedOk(fs, i) && i.Call? && IsDirectCall(i) ==> Find(fs, i.callee.name) == Some(f)
    requires AnnotatedOk(fs, i)
    ensures LogId(i).Some? && i.dst.None? ==> Handed(f.sig, v) == Num(0)
  {
    hide GetSiteId;
  }

  lemma LinkedAdvance(fs: seq<Function>, fr: Frame, g: Frame, rest: Stack)
    requires Linked(fs, fr, rest) && g.ret == fr.ret && g.site == fr.site && g.fn == fr.fn
    ensures Linked(fs, g, rest)
  {
  }

  /** The logger call behind an annotated call writes the pending entry. */
  lemma PendingStep(fs: seq<Function>, env: Environment, s: State)
    requires Placed(fs) && Logged(fs, s) && Pending(fs, s.stack) != []
    ensures Logged(fs, Step(fs, env, s))
  {
    hide LogsOf;
    hide BufferCalls;
    hide Linked;
    hide Incoming;
    hide Eval;
    hide GetSiteId;
    hide EvalAll;
    hide CalledFrom;
    hide ExecCall;
    hide ExecReturn;
    var fr := s.stack.top;
    PlacedAt(fs, fr);
    var i := Before(fs, fr).value;
    assert PlacedInstr(fs, BlockOf(fs, fr).value, fr.pc - 1);
    assert Fetch(fs, fr) == Some(LogCall(i));
    var e := Logger(LOG_BUFFER, LogArgs(fr, i));
    LogsSnoc(s.trace, e);
    var g := Advance(fr, None, Num(0));
    assert Before(fs, g) == Some(LogCall(i)) && LogId(LogCall(i)).None?;
    LinkedAdvance(fs, fr, g, s.stack.rest);
  }

  lemma CallLogged(fs: seq<Function>, env: Environment, i: Instr, s: State)
    requires Logged(fs, s) && s.stack.Push? && Pending(fs, s.stack) == []
    requires Fetch(fs, s.stack.top) == Some(i) && i.Call? && AnnotatedOk(fs, i)
    requires !IsIntrinsicCall(i) && !IsLoggerCall(i)
    ensures Logged(fs, ExecCall(fs, env, i, s))
  {
    hide GetSiteId;
    hide EvalAll;
    hide Fetch;
    hide AnnotatedOk;
    hide Before;
    hide LogId;
    var fr := s.stack.top;
    var name := CalleeName(env, fr, i.callee);
    if Find(fs, name).Some? {
      var f := Find(fs, name).value;
      var args := EvalAll(fr.args, fr.regs, i.args);
      var enter := Enter(name, args, SiteOf(i));
      LogsSnoc(s.trace, enter);
      if f.blocks == [] {
        var v := Handed(f.sig, env.answer(External(name, args), s.world));
        LogsSnoc(s.trace + [enter], Leave(name, v, SiteOf(i)));
        VoidResult(fs, i, f, env.answer(External(name, args), s.world));
        CompletedCall(fs, fr, s.stack.rest, i, name, v);
        LinkedAdvance(fs, fr, Advance(fr, i.dst, v), s.stack.rest);
      } else {
        NothingBefore(fs, NewFrame(name, args, i.dst, SiteOf(i)));
      }
    }
  }

  lemma NothingBefore(fs: seq<Function>, fr: Frame)
    requires fr.pc == 0
    ensures Before(fs, fr).None?
  {
  }

  lemma ReturnLogged(fs: seq<Function>, i: Instr, s: State)
    requires Placed(fs) && Logged(fs, s) && s.stack.Push? && Pending(fs, s.stack) == [] && i.Return?
    ensures Logged(fs, ExecReturn(fs, i, s))
  {
    hide GetSiteId;
    hide Fetch;
    hide AnnotatedOk;
    hide Before;
    hide LogId;
    hide PlacedBlock;
    hide Placed;
    var fr, callers := s.stack.top, s.stack.rest;
    if Find(fs, fr.fn).Some? {
      var f := Find(fs, fr.fn).value;
      var u := if i.value.Some? then Eval(fr.args, fr.regs, i.value.value) else Num(0);
      var v := Handed(f.sig, u);
      LogsSnoc(s.trace, Leave(fr.fn, v, fr.site));
      if callers.Push? {
        var c := callers.top;
        var j := Fetch(fs, c).value;
        FetchedOk(fs, c);
        VoidResult(fs, j, f, u);
        CompletedCall(fs, c, callers.rest, j, fr.fn, v);
        LinkedAdvance(fs, c, Advance(c, fr.ret, v), callers.rest);
      }
    }
  }

  lemma FetchedOk(fs: seq<Function>, fr: Frame)
    requires Placed(fs) && Fetch(fs, fr).Some?
    ensures AnnotatedOk(fs, Fetch(fs, fr).value)
    ensures IsBufferCall(Fetch(fs, fr).value) ==> Before(fs, fr).Some? && LogId(Before(fs, fr).value).Some?
  {
    hide AnnotatedOk;
    hide LogId;
    PlacedAt(fs, fr);
    var b := BlockOf(fs, fr).value;
    assert PlacedInstr(fs, b, fr.pc);
  }

  lemma LocalLogged(fs: seq<Function>, env: Environment, i: Instr, s: State)
    requires Logged(fs, s) && s.stack.Push? && Pending(fs, s.stack) == []
    requires Fetch(fs, s.stack.top) == Some(i) && AnnotatedOk(fs, i) && !IsBufferCall(i)
    requires IsIntrinsicCall(i) || IsLoggerCall(i) || (!i.Call? && !i.Return?)
    ensures Logged(fs, Exec(fs, env, i, s))
  {
    hide LogsOf;
    hide BufferCalls;
    hide Linked;
    hide LogArgs;
    hide ExecCall;
    hide ExecReturn;
    hide Eval;
    hide GetSiteId;
    hide EvalAll;
    hide Incoming;
    hide CalledFrom;
    var fr := s.stack.top;
    var t := Exec(fs, env, i, s);
    assert LogId(i).None?;
    LinkedAdvance(fs, fr, t.stack.top, s.stack.rest);
    if IsLoggerCall(i) && !IsIntrinsicCall(i) {
      LogsSnoc(s.trace, Logger(i.callee.name, EvalAll(fr.args, fr.regs, i.args)));
    }
  }

  lemma LoggedStep(fs: seq<Function>, env: Environment, s: State)
    requires Placed(fs) && Logged(fs, s)
    ensures Logged(fs, Step(fs, env, s))
  {
    hide Logged;
    hide Placed;
    hide AnnotatedOk;
    hide ExecCall;
    hide ExecReturn;
    hide LogArgs;
    if s.stack.Push? {
      if Pending(fs, s.stack) != [] {
        PendingStep(fs, env, s);
      } else if Fetch(fs, s.stack.top).Some? {
        var i := Fetch(fs, s.stack.top).value;
        FetchedOk(fs, s.stack.top);
        if IsIntrinsicCall(i) || IsLoggerCall(i) || (!i.Call? && !i.Return?) {
          LocalLogged(fs, env, i, s);
        } else if i.Call? {
          CallLogged(fs, env, i, s);
        } else {
          ReturnLogged(fs, i, s);
        }
      }
    }
  }

  lemma {:induction false} LoggedRun(fs: seq<Function>, env: Environment, entry: string, args: seq<Value>, n: nat)
    requires Placed(fs)
    ensures Logged(fs, Run(fs, env, Start(entry, args), n))
  {
    hide Exec;
    if n == 0 {
      NothingBefore(fs, Start(entry, args).stack.top);
    } else {
      LoggedRun(fs, env, entry, args, n - 1);
      LoggedStep(fs, env, Run(fs, env, Start(entry, args), n - 1));
    }
  }

  /**
   At every point of every run the logger has been called once for each completed annotated call, in order, with its
   id, result and name; the last call may be about to be logged.  A finished run has logged them all.
   */
  lemma ExactLog(fs: seq<Function>, env: Environment, entry: string, args: seq<Value>, n: nat)
    requires Placed(fs)
    ensures var s := Run(fs, env, Start(entry, args), n);
            && BufferCalls(s.trace) <= LogsOf(s.trace) && |LogsOf(s.trace)| <= |BufferCalls(s.trace)| + 1
            && (Pending(fs, s.stack) == [] ==> BufferCalls(s.trace) == LogsOf(s.trace))
            && (s.stack.Empty? ==> BufferCalls(s.trace) == LogsOf(s.trace))
  {
    hide Run;
    hide Linked;
    hide Before;
    LoggedRun(fs, env, entry, args, n);
  }

  // ---- The pass establishes the placement ----

  /** What the pass finds: no logger calls yet, and annotated calls are never a block's last instruction. */
  ghost predicate ReadyBlock(fs: seq<Function>, b: Block) {
    && (forall j :: 0 <= j < |b| ==> AnnotatedOk(fs, b[j]) && !IsLoggerCall(b[j]))
    && (b != [] ==> LogId(b[|b| - 1]).None?)
  }

  ghost predicate Ready(fs: seq<Function>) {
    forall f, k :: f in fs && 0 <= k < |f.blocks| ==> ReadyBlock(fs, f.blocks[k])
  }

  predicate Next(x: Instr, y: Instr) {
    && (LogId(x).Some? ==> y == LogCall(x))
    && (IsBufferCall(y) ==> LogId(x).Some?)
  }

  ghost predicate Chain(fs: seq<Function>, b: Block) {
    && (forall j :: 0 <= j < |b| ==> AnnotatedOk(fs, b[j]))
    && (forall j :: 0 <= j && j + 1 < |b| ==> Next(b[j], b[j + 1]))
    && (b != [] ==> !IsBufferCall(b[0]))
  }

  lemma ChainSnoc(fs: seq<Function>, b: Block, i: Instr)
    requires Chain(fs, b) && AnnotatedOk(fs, i)
    requires if b == [] then !IsBufferCall(i) else Next(b[|b| - 1], i)
    ensures Chain(fs, b + [i])
  {
    hide Next;
    hide AnnotatedOk;
    hide IsBufferCall;
  }

  lemma LogCallOk(fs: seq<Function>, i: Instr)
    requires LogId(i).Some?
    ensures LogId(LogCall(i)).None? && AnnotatedOk(fs, LogCall(i)) && Next(i, LogCall(i))
  {
    hide GetSiteId;
  }

  lemma OwnCallsOk(fs: seq<Function>, maxRecords: int, outputMode: int)
    ensures LogId(ShutdownCall()).None? && AnnotatedOk(fs, ShutdownCall()) && !IsBufferCall(ShutdownCall())
    ensures LogId(InitCall(maxRecords, outputMode)).None? && AnnotatedOk(fs, InitCall(maxRecords, outputMode))
    ensures !IsBufferCall(InitCall(maxRecords, outputMode))
  {
    assert LOG_SHUTDOWN != LOG_BUFFER && LOG_INIT != LOG_BUFFER by {
      assert |LOG_INIT| != |LOG_BUFFER| && |LOG_SHUTDOWN| != |LOG_BUFFER|;
    }
  }

  predicate LogsNothing(b: Block) {
    b != [] ==> LogId(b[|b| - 1]).None?
  }

  lemma ChainPrevious(fs: seq<Function>, c: Block, init: Block)
    requires Chain(fs, c) && (init != [] ==> c != [] && c[|c| - 1] == init[|init| - 1]) && (init == [] ==> c == [])
    ensures Chain(fs, c + Previous(init)) && LogsNothing(c + Previous(init))
  {
    hide AnnotatedOk;
    hide IsBufferCall;
    hide LogId;
    hide Chain;
    assert c + [] == c;
    if init != [] && LogId(init[|init| - 1]).Some? {
      LogCallOk(fs, init[|init| - 1]);
      ChainSnoc(fs, c, LogCall(init[|init| - 1]));
    }
  }

  lemma ChainShutdown(fs: seq<Function>, c: Block, i: Instr, isMain: bool)
    requires Chain(fs, c) && LogsNothing(c)
    ensures Chain(fs, c + ShutdownCode(i, isMain)) && LogsNothing(c + ShutdownCode(i, isMain))
  {
    hide AnnotatedOk;
    hide IsBufferCall;
    hide LogId;
    hide Chain;
    OwnCallsOk(fs, 0, 0);
    assert c + [] == c;
    if isMain && i.Return? {
      ChainSnoc(fs, c, ShutdownCall());
    }
  }

  lemma LogBlockStep(b: Block, isMain: bool)
    requires b != []
    ensures var init, i := b[..|b| - 1], b[|b| - 1];
            LogBlock(b, isMain) == LogBlock(init, isMain) + Previous(init) + ShutdownCode(i, isMain) + [i]
  {
    hide LogCode;
  }

  lemma {:induction false} LogBlockChain(fs: seq<Function>, b: Block, isMain: bool)
    requires forall j :: 0 <= j < |b| ==> AnnotatedOk(fs, b[j]) && !IsBufferCall(b[j])
    ensures Chain(fs, LogBlock(b, isMain))
    ensures b != [] ==> LogBlock(b, isMain) != [] && LogBlock(b, isMain)[|LogBlock(b, isMain)| - 1] == b[|b| - 1]
    ensures b == [] ==> LogBlock(b, isMain) == []
  {
    hide AnnotatedOk;
    hide IsBufferCall;
    hide LogId;
    hide Chain;
    hide Previous;
    hide ShutdownCode;
    hide LogsNothing;
    if b == [] {
      EmptyChain(fs);
    } else {
      var init, i := b[..|b| - 1], b[|b| - 1];
      LogBlockChain(fs, init, isMain);
      var c := LogBlock(init, isMain);
      LogBlockStep(b, isMain);
      ChainPrevious(fs, c, init);
      ChainShutdown(fs, c + Previous(init), i, isMain);
      ChainLast(fs, c + Previous(init) + ShutdownCode(i, isMain), i);
    }
  }

  lemma ChainLast(fs: seq<Function>, c: Block, i: Instr)
    requires Chain(fs, c) && LogsNothing(c) && AnnotatedOk(fs, i) && !IsBufferCall(i)
    ensures Chain(fs, c + [i])
  {
    hide AnnotatedOk;
    hide LogId;
    hide Chain;
    ChainSnoc(fs, c, i);
  }

  lemma EmptyChain(fs: seq<Function>)
    ensures Chain(fs, [])
  {
  }

  lemma ChainPlaced(fs: seq<Function>, b: Block)
    requires Chain(fs, b) && (b != [] ==> LogId(b[|b| - 1]).None?)
    ensures PlacedBlock(fs, b)
  {
    hide LogId;
    hide AnnotatedOk;
    hide IsBufferCall;
    forall j | 0 <= j < |b|
      ensures PlacedInstr(fs, b, j)
    {
      if j + 1 < |b| {
        assert Next(b[j], b[j + 1]);
      }
      if j > 0 {
        assert Next(b[j - 1], b[j - 1 + 1]);
      }
    }
  }

  lemma {:induction false} FindLogged(fs: seq<Function>, maxRecords: int, outputMode: int, name: string)
    ensures Find(Log(fs, maxRecords, outputMode), name) ==
            match Find(fs, name) case None => None case Some(f) => Some(LogFunction(f, maxRecords, outputMode))
  {
    hide LogBlock;
    hide InitBlock;
    if fs != [] && fs[0].name != name {
      assert Log(fs, maxRecords, outputMode)[1..] == Log(fs[1..], maxRecords, outputMode);
      FindLogged(fs[1..], maxRecords, outputMode, name);
    }
  }

  lemma StillOk(fs: seq<Function>, maxRecords: int, outputMode: int, i: Instr)
    requires AnnotatedOk(fs, i)
    ensures AnnotatedOk(Log(fs, maxRecords, outputMode), i)
  {
    hide GetSiteId;
    hide Log;
    if LogId(i).Some? {
      FindLogged(fs, maxRecords, outputMode, i.callee.name);
    }
  }

  lemma LoggedBlockPlaced(fs: seq<Function>, b: Block, isMain: bool)
    requires forall j :: 0 <= j < |b| ==> AnnotatedOk(fs, b[j]) && !IsBufferCall(b[j])
    requires b != [] ==> LogId(b[|b| - 1]).None?
    ensures PlacedBlock(fs, LogBlock(b, isMain))
  {
    hide AnnotatedOk;
    hide IsBufferCall;
    hide LogId;
    hide Chain;
    LogBlockChain(fs, b, isMain);
    if b == [] {
      assert LogBlock(b, isMain) == [];
    }
    ChainPlaced(fs, LogBlock(b, isMain));
  }

  ghost predicate Loggable(fs: seq<Function>, b: Block) {
    forall j :: 0 <= j < |b| ==> AnnotatedOk(fs, b[j]) && !IsBufferCall(b[j])
  }

  lemma ReadyLoggable(fs: seq<Function>, maxRecords: int, outputMode: int, b: Block)
    requires ReadyBlock(fs, b)
    ensures Loggable(Log(fs, maxRecords, outputMode), b)
  {
    hide AnnotatedOk;
    hide IsBufferCall;
    hide IsLoggerCall;
    hide LogId;
    hide Log;
    forall j | 0 <= j < |b|
      ensures AnnotatedOk(Log(fs, maxRecords, outputMode), b[j]) && !IsBufferCall(b[j])
    {
      StillOk(fs, maxRecords, outputMode, b[j]);
      NotBuffer(b[j]);
    }
  }

  lemma InitLoggable(fs: seq<Function>, b: Block, maxRecords: int, outputMode: int)
    requires Loggable(fs, b)
    ensures Loggable(fs, InitBlock(b, maxRecords, outputMode))
  {
    hide AnnotatedOk;
    hide IsBufferCall;
    hide FirstInsertionPoint;
    OwnCallsOk(fs, maxRecords, outputMode);
    InsertionPointInBlock(b);
    var at := FirstInsertionPoint(b);
    var c := InitBlock(b, maxRecords, outputMode);
    forall j | 0 <= j < |c|
      ensures AnnotatedOk(fs, c[j]) && !IsBufferCall(c[j])
    {
      assert c[j] == if j < at then b[j] else if j == at then InitCall(maxRecords, outputMode) else b[j - 1];
    }
  }

  /** The module `AddLogging` produces has its logger calls in place. */
  lemma LogPlaces(fs: seq<Function>, maxRecords: int, outputMode: int)
    requires Ready(fs)
    ensures Placed(Log(fs, maxRecords, outputMode))
  {
    hide AnnotatedOk;
    hide LogId;
    hide LogBlock;
    hide PlacedBlock;
    hide FirstInsertionPoint;
    hide IsBufferCall;
    hide IsLoggerCall;
    hide ReadyBlock;
    hide Loggable;
    var gs := Log(fs, maxRecords, outputMode);
    forall g, k | g in gs && 0 <= k < |g.blocks|
      ensures PlacedBlock(gs, g.blocks[k])
    {
      var n :| 0 <= n < |gs| && gs[n] == g;
      var f := fs[n];
      assert f in fs && ReadyBlock(fs, f.blocks[k]);
      LoggedFunctionPlaced(fs, f, k, maxRecords, outputMode);
    }
  }

  lemma ReadyEnds(fs: seq<Function>, b: Block)
    requires ReadyBlock(fs, b)
    ensures LogsNothing(b)
  {
    hide AnnotatedOk;
    hide LogId;
  }

  lemma InitEnds(fs: seq<Function>, b: Block, maxRecords: int, outputMode: int)
    requires LogsNothing(b)
    ensures LogsNothing(InitBlock(b, maxRecords, outputMode))
  {
    hide AnnotatedOk;
    hide FirstInsertionPoint;
    OwnCallsOk(fs, maxRecords, outputMode);
    InsertionPointInBlock(b);
  }

  lemma LoggedFunctionPlaced(fs: seq<Function>, f: Function, k: nat, maxRecords: int, outputMode: int)
    requires k < |f.blocks| && ReadyBlock(fs, f.blocks[k])
    ensures k < |LogFunction(f, maxRecords, outputMode).blocks|
    ensures PlacedBlock(Log(fs, maxRecords, outputMode), LogFunction(f, maxRecords, outputMode).blocks[k])
  {
    hide AnnotatedOk;
    hide LogId;
    hide LogBlock;
    hide InitBlock;
    hide PlacedBlock;
    hide IsBufferCall;
    hide IsLoggerCall;
    hide Log;
    var gs, b := Log(fs, maxRecords, outputMode), f.blocks[k];
    ReadyLoggable(fs, maxRecords, outputMode, b);
    InitLoggable(gs, b, maxRecords, outputMode);
    ReadyEnds(fs, b);
    if f.name == MAIN && k == 0 {
      InitEnds(gs, b, maxRecords, outputMode);
      LoggedBlockPlaced(gs, InitBlock(b, maxRecords, outputMode), true);
    } else {
      LoggedBlockPlaced(gs, b, f.name == MAIN);
    }
  }

  lemma NotBuffer(i: Instr)
    requires !IsLoggerCall(i)
    ensures !IsBufferCall(i)
  {
  }
}
