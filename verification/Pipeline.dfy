/** The five rewriting passes in their order, from the labelled program to the program that logs. */
module Pipeline {
  import opened Text
  import opened Metadata
  import opened Ir
  import opened Semantics
  import opened Erasure
  import opened WrapSinks
  import opened WrapMeaning
  import opened WrapOrder
  import opened AnnotateSources
  import opened TagRemoval
  import opened AddLogging
  import opened ExactLogging
  import opened LoggerSession
  import opened Instrumentation
  import T = TagResults
  import N = NumberedCalls

  // ---- The passes ----

  /** A program as it comes out of `AddMetadata`: well formed, with calls the later passes can work with. */
  ghost predicate Program(m: seq<Function>) {
    FitModule(m, m, Before, false) && NoWrapperNames(m) && InRange(m) && AllLabelled(m)
  }

  /** The program has a `main` with a body, which is entered once. */
  ghost predicate StartsInMain(m: seq<Function>) {
    FitModule(m, m, Before, true) && Find(m, MAIN).Some? && MainsHaveBodies(m)
  }

  lemma ProgramFresh(m: seq<Function>, fs: seq<Function>, first: nat)
    requires NoWrapperNames(m) && |fs| == |m| && forall k :: 0 <= k < |m| ==> fs[k].name == m[k].name
    ensures Fresh(fs, first)
  {
    hide WrapperName;
    forall k, n: nat | 0 <= k < |fs| && first <= n
      ensures fs[k].name != WrapperName(n)
    {
      WrapperNames(n);
    }
  }

  /** The tagged and wrapped module, as the analysis sees it. */
  ghost function Wrapped(m: seq<Function>, first: nat): seq<Function>
    requires Program(m)
  {
    TaggedLabelled(m);
    WrapAll(AddSources(m), first)
  }

  lemma WrappedFits(m: seq<Function>, first: nat, session: bool)
    requires Program(m) && FitModule(m, m, Before, session)
    ensures FitModule(m, Wrapped(m, first), Between, session) && Carries(m, Wrapped(m, first))
    ensures FitModule(m, AddSources(m), Before, session) && Carries(m, AddSources(m)) && AllLabelled(AddSources(m))
    ensures Fresh(AddSources(m), first) && |AddSources(m)| == |m|
  {
    hide FitModule;
    hide WrapAll;
    hide AllLabelled;
    hide InRange;
    hide AddSourcesFunction;
    AddedFits(m, session);
    TaggedLabelled(m);
    WrapAllFits(m, AddSources(m), first, session);
    ProgramFresh(m, AddSources(m), first);
  }

  // ---- Every sink label names an argument ----

  lemma SinkSlot(i: Instr, slot: nat)
    requires i.Call?
    ensures T.OutputAt(i, slot).Some? ==> N.IsOutputAt(i.site, slot, T.OutputAt(i, slot).value - 1)
  {
  }

  lemma NoSinkArguments(i: Instr)
    requires !IsSink(i) && (i.Call? && i.callee.Indirect? ==> i.site.None?)
    ensures T.SinkArguments(i)
  {
    hide RoleAt;
    hide RolesUpTo;
    hide Outputs;
    if i.Call? && i.site.Some? {
      forall slot | 0 <= slot < ArgumentCount(i.site)
        ensures T.OutputAt(i, slot).None?
      {
        var x := match T.OutputAt(i, slot) case Some(k) => k - 1 case None => 0;
        N.OutputsMember(i, ArgumentCount(i.site), x);
        SinkSlot(i, slot);
      }
    }
  }

  lemma ForwardedSinkArguments(i: Instr)
    requires IsSink(i) && OutputsInRange(i)
    ensures forall j :: 0 <= j < |Forwarded(i)| ==> T.SinkArguments(Forwarded(i)[j])
  {
    hide RoleAt;
    hide RolesUpTo;
    hide Outputs;
    var call := Forwarded(i)[0];
    forall slot | 0 <= slot < ArgumentCount(call.site) && T.OutputAt(call, slot).Some?
      ensures 1 <= T.OutputAt(call, slot).value <= |call.args|
    {
      var x := T.OutputAt(call, slot).value - 1;
      N.OutputsMember(i, ArgumentCount(i.site), x);
      assert N.IsOutputAt(i.site, slot, x);
      var k :| 0 <= k < |OutputsOf(i)| && OutputsOf(i)[k] == x;
    }
  }

  lemma WrapperSinkArguments(n: nat, i: Instr)
    requires IsSink(i) && OutputsInRange(i)
    ensures T.AllSinkArguments([WrapperFunction(n, i)])
  {
    hide OutputsOf;
    hide Forwarded;
    hide Preamble;
    hide WrapperName;
    hide Preparing;
    hide T.SinkArguments;
    var pre, code := Preamble(i.callee.sig, OutputsOf(i)), Forwarded(i);
    PreambleTagging(i.callee.sig, OutputsOf(i));
    ForwardedSinkArguments(i);
    T.NotTagged(Jump(1), o => None);
    forall j | 0 <= j < |pre + code|
      ensures T.SinkArguments((pre + code)[j])
    {
      if j < |pre| {
        PreparingSite(pre[j]);
        PlainSinkArguments(pre[j]);
      } else {
        assert (pre + code)[j] == code[j - |pre|];
      }
    }
    var g := WrapperFunction(n, i);
    assert g.blocks[0] == [Jump(1)] && g.blocks[1] == pre + code;
  }

  lemma PreparingSite(i: Instr)
    requires Preparing(i)
    ensures i.Call? ==> i.site == None
  {
  }

  lemma PlainSinkArguments(i: Instr)
    requires i.Call? ==> i.site == None
    ensures T.SinkArguments(i)
  {
  }

  lemma WrappedSinkArguments(m: seq<Function>, first: nat)
    requires Program(m)
    ensures T.AllSinkArguments(Wrapped(m, first))
  {
    hide FitModule;
    hide AddSources;
    hide T.SinkArguments;
    hide WrapAll;
    hide IsSink;
    hide WrapperFunction;
    WrappedFits(m, first, false);
    var fs, gs := AddSources(m), Wrapped(m, first);
    forall n, b, j | 0 <= n < |gs| && 0 <= b < |gs[n].blocks| && 0 <= j < |gs[n].blocks[b]|
      ensures T.SinkArguments(gs[n].blocks[b][j])
    {
      var i := InstrAt(gs[n].blocks, (b, j));
      if n < |m| {
        NoSinkLeft(fs, first, n, (b, j));
        FitAt(m, gs, n, (b, j), Between, false);
        FitIndirect(m, gs[n].name, b, i, false);
        NoSinkArguments(i);
      } else {
        WrapperPart(fs, first, n);
        assert [gs[n]][0] == gs[n];
      }
    }
  }

  lemma FitIndirect(m: seq<Function>, name: string, k: nat, i: Instr, session: bool)
    requires Fit(m, name, k, i, Between, session)
    ensures i.Call? && i.callee.Indirect? ==> i.site.None?
  {
  }

  lemma WrapperPart(fs: seq<Function>, first: nat, n: nat)
    requires AllLabelled(fs) && |fs| <= n < |WrapAll(fs, first)|
    ensures T.AllSinkArguments([WrapAll(fs, first)[n]])
  {
    hide Labelled;
    hide Bodies;
    hide Wrappers;
    hide WrapperFunction;
    hide T.SinkArguments;
    hide IsSink;
    BodiesLength(fs, first);
    var k, p := SeparatedWrappers(fs, first, n - |fs|);
    WrapperSinkArguments(first + (n - |fs|), InstrAt(fs[k].blocks, p));
  }

  // ---- What the invariant gives each pass ----

  lemma FitSeparated(m: seq<Function>, fs: seq<Function>, stage: Stage, session: bool)
    requires FitModule(m, fs, stage, session)
    ensures Separated(fs)
  {
    hide IsExtra;
    hide IsProgramInstr;
    hide Fit;
    forall f, k, j | f in fs && 0 <= k < |f.blocks| && 0 <= j < |f.blocks[k]|
      ensures IsExtra(f.blocks[k][j]) || IsProgramInstr(f.blocks[k][j])
    {
      var n :| 0 <= n < |fs| && fs[n] == f;
      FitAt(m, fs, n, (k, j), stage, session);
      FitParts(m, f.name, k, f.blocks[k][j], stage, session);
    }
  }

  lemma FitParts(m: seq<Function>, name: string, k: nat, i: Instr, stage: Stage, session: bool)
    requires Fit(m, name, k, i, stage, session)
    ensures IsExtra(i) || IsProgramInstr(i)
    ensures VoidIntrinsic(i) && !IsLoggerCall(i)
    ensures IsDirectCall(i) && IsWrapperName(i.callee.name) && !stage.Before? ==> SiteOf(i).None?
    ensures IsExtra(i) ==> IdsOf(i) == []
    ensures session ==> OwnInstr(name, i)
  {
    hide IsSink;
    if i.Call? && i.callee.Direct? && IsIntrinsic(i.callee.name) {
      IntrinsicNames(i.callee.name);
    }
    if i.Call? && i.callee.Direct? && IsWrapperName(i.callee.name) {
      WrapperNotReserved(i.callee.name);
      assert i.callee.name[0] == WRAPPER_PREFIX[0] && MAIN[0] != WRAPPER_PREFIX[0];
    }
  }

  lemma FitVoid(m: seq<Function>, fs: seq<Function>, stage: Stage, session: bool)
    requires FitModule(m, fs, stage, session)
    ensures VoidIntrinsics(fs)
  {
    hide Fit;
    hide VoidIntrinsic;
    forall n, k, j | 0 <= n < |fs| && 0 <= k < |fs[n].blocks| && 0 <= j < |fs[n].blocks[k]|
      ensures VoidIntrinsic(fs[n].blocks[k][j])
    {
      FitAt(m, fs, n, (k, j), stage, session);
      FitParts(m, fs[n].name, k, fs[n].blocks[k][j], stage, session);
    }
  }

  /** The program's functions are found under their names with their types. */
  lemma CarriesFind(m: seq<Function>, fs: seq<Function>, name: string)
    requires Carries(m, fs) && Find(m, name).Some?
    ensures Find(fs, name).Some? && Find(fs, name).value.sig == Find(m, name).value.sig
  {
    var k := FindFirst(m, name);
    FindAt(fs, k, name);
  }

  lemma FitCallOk(m: seq<Function>, fs: seq<Function>, name: string, k: nat, i: Instr, session: bool)
    requires Carries(m, fs) && Fit(m, name, k, i, Before, session)
    ensures DirectCallOk(fs, i)
  {
    hide Carries;
    hide IsProgramInstr;
    if i.Call? && i.callee.Direct? && !IsIntrinsic(i.callee.name) {
      CarriesFind(m, fs, i.callee.name);
    }
    if IsSink(i) {
      SinkFit(m, name, k, i, Before, session);
    }
  }

  lemma FitCallsOk(m: seq<Function>, fs: seq<Function>, session: bool)
    requires FitModule(m, fs, Before, session) && Carries(m, fs)
    ensures CallsOk(fs)
  {
    hide Fit;
    hide DirectCallOk;
    hide Carries;
    forall f, k, j | f in fs && 0 <= k < |f.blocks| && 0 <= j < |f.blocks[k]|
      ensures DirectCallOk(fs, f.blocks[k][j])
    {
      var n :| 0 <= n < |fs| && fs[n] == f;
      FitAt(m, fs, n, (k, j), Before, session);
      FitCallOk(m, fs, f.name, k, f.blocks[k][j], session);
    }
  }

  lemma FitAnnotated(m: seq<Function>, fs: seq<Function>, name: string, k: nat, i: Instr, session: bool)
    requires Carries(m, fs) && Fit(m, name, k, i, After, session)
    ensures AnnotatedOk(fs, i)
  {
    hide IsProgramInstr;
    hide IsSink;
    hide Carries;
    if LogId(i).Some? {
      assert i.site.Some? && !IsIntrinsic(i.callee.name);
      CarriesFind(m, fs, i.callee.name);
    }
  }

  lemma FitReady(m: seq<Function>, fs: seq<Function>, session: bool)
    requires FitModule(m, fs, After, session) && Carries(m, fs)
    ensures Ready(fs)
  {
    hide Fit;
    hide AnnotatedOk;
    hide Carries;
    hide LogId;
    hide IsLoggerCall;
    forall f, k | f in fs && 0 <= k < |f.blocks|
      ensures ReadyBlock(fs, f.blocks[k])
    {
      var n :| 0 <= n < |fs| && fs[n] == f;
      assert FitFunction(m, f, After, session);
      var b := f.blocks[k];
      forall j | 0 <= j < |b|
        ensures AnnotatedOk(fs, b[j]) && !IsLoggerCall(b[j])
      {
        FitAt(m, fs, n, (k, j), After, session);
        FitAnnotated(m, fs, f.name, k, b[j], session);
        FitParts(m, f.name, k, b[j], After, session);
      }
      assert EndsWell(b);
      NotLogged(b[|b| - 1]);
    }
  }

  lemma NotLogged(i: Instr)
    requires !i.Call?
    ensures LogId(i).None?
  {
  }

  lemma FitOwn(m: seq<Function>, fs: seq<Function>)
    requires FitModule(m, fs, After, true) && Carries(m, fs) && MainsHaveBodies(m)
    ensures OwnCode(fs)
  {
    hide Fit;
    hide OwnInstr;
    forall f, p | f in fs && IsPosition(f.blocks, p)
      ensures OwnInstr(f.name, InstrAt(f.blocks, p))
    {
      var n :| 0 <= n < |fs| && fs[n] == f;
      FitAt(m, fs, n, p, After, true);
      FitParts(m, f.name, p.0, InstrAt(f.blocks, p), After, true);
    }
    MainNotWrapper();
    forall f | f in fs && f.name == MAIN
      ensures f.blocks != [] && f.blocks[0] != [] && !f.blocks[0][0].Phi?
    {
      var n :| 0 <= n < |fs| && fs[n] == f;
      if n < |m| {
        assert m[n].blocks != [];
        assert FitFunction(m, f, After, true) && EndsWell(f.blocks[0]);
        FitAt(m, fs, n, (0, 0), After, true);
        FitNoPhi(m, f.blocks[0][0]);
      }
    }
  }

  lemma MainNotWrapper()
    ensures !IsWrapperName(MAIN)
  {
    assert MAIN[0] != WRAPPER_PREFIX[0];
  }

  lemma FitNoPhi(m: seq<Function>, i: Instr)
    requires Fit(m, MAIN, 0, i, After, true)
    ensures !i.Phi?
  {
  }

  // ---- The instrumented program ----

  /** The module that `AddLogging` is given. */
  ghost function Cleared(m: seq<Function>, first: nat, oracle: T.Oracle): seq<Function>
    requires Program(m)
  {
    WrappedSinkArguments(m, first);
    RemoveSources(T.TagAll(Wrapped(m, first), oracle))
  }

  ghost function Final(m: seq<Function>, first: nat, oracle: T.Oracle, maxRecords: int, outputMode: int): seq<Function>
    requires Program(m)
  {
    Log(Cleared(m, first, oracle), maxRecords, outputMode)
  }

  lemma ClearedFits(m: seq<Function>, first: nat, oracle: T.Oracle, session: bool)
    requires Program(m) && FitModule(m, m, Before, session)
    ensures FitModule(m, Cleared(m, first, oracle), After, session) && Carries(m, Cleared(m, first, oracle))
    ensures Erase(Cleared(m, first, oracle)) == Erase(Wrapped(m, first))
  {
    hide FitModule;
    hide Carries;
    hide Wrapped;
    hide Erase;
    hide T.TagAll;
    hide RemoveSources;
    var gs := Wrapped(m, first);
    WrappedFits(m, first, session);
    WrappedSinkArguments(m, first);
    TagAllFits(m, gs, oracle, session);
    T.EraseTagAll(gs, oracle);
    FitVoid(m, T.TagAll(gs, oracle), After, session);
    RemovedFits(m, T.TagAll(gs, oracle), session);
    EraseRemoveSources(T.TagAll(gs, oracle));
  }

  // ---- Logging keeps program code and instrumentation apart ----

  predicate LoggingCode(i: Instr) {
    IsLoggerCall(i) && i.site.None?
  }

  lemma {:induction false} LoggedFrom(b: Block, isMain: bool)
    ensures forall x :: x in LogBlock(b, isMain) ==> x in b || LoggingCode(x)
  {
    hide LogId;
    hide ResultOf;
    if b != [] {
      LoggedFrom(b[..|b| - 1], isMain);
    }
  }

  lemma InitFrom(b: Block, maxRecords: int, outputMode: int)
    ensures forall x :: x in InitBlock(b, maxRecords, outputMode) ==> x in b || LoggingCode(x)
  {
    InsertionPointInBlock(b);
  }

  /** Every instruction of a logged function was there before or is a logger call. */
  lemma LogFrom(f: Function, maxRecords: int, outputMode: int, k: nat, x: Instr)
    requires k < |LogFunction(f, maxRecords, outputMode).blocks| && x in LogFunction(f, maxRecords, outputMode).blocks[k]
    ensures k < |f.blocks| && (x in f.blocks[k] || LoggingCode(x))
  {
    hide LogBlock;
    hide InitBlock;
    hide LoggingCode;
    if f.name == MAIN && k == 0 {
      var b := InitBlock(f.blocks[0], maxRecords, outputMode);
      LoggedFrom(b, true);
      InitFrom(f.blocks[0], maxRecords, outputMode);
    } else {
      LoggedFrom(f.blocks[k], f.name == MAIN);
    }
  }

  lemma LogOrigin(m: seq<Function>, fs: seq<Function>, maxRecords: int, outputMode: int, n: nat, p: Position, session: bool)
    requires FitModule(m, fs, After, session) && n < |fs| && IsPosition(Log(fs, maxRecords, outputMode)[n].blocks, p)
    ensures var i := InstrAt(Log(fs, maxRecords, outputMode)[n].blocks, p);
            LoggingCode(i) || Fit(m, fs[n].name, p.0, i, After, session)
  {
    hide Fit;
    hide LogFunction;
    hide LoggingCode;
    var i := InstrAt(Log(fs, maxRecords, outputMode)[n].blocks, p);
    LogFrom(fs[n], maxRecords, outputMode, p.0, i);
    if i in fs[n].blocks[p.0] {
      var j :| 0 <= j < |fs[n].blocks[p.0]| && fs[n].blocks[p.0][j] == i;
      FitAt(m, fs, n, (p.0, j), After, session);
    }
  }

  lemma LogSeparated(m: seq<Function>, fs: seq<Function>, maxRecords: int, outputMode: int, session: bool)
    requires FitModule(m, fs, After, session)
    ensures Separated(Log(fs, maxRecords, outputMode))
  {
    hide LogFunction;
    hide Fit;
    hide FitModule;
    hide IsProgramInstr;
    hide IsIntrinsicCall;
    hide IsLoggerCall;
    var gs := Log(fs, maxRecords, outputMode);
    forall f, k, j | f in gs && 0 <= k < |f.blocks| && 0 <= j < |f.blocks[k]|
      ensures IsExtra(f.blocks[k][j]) || IsProgramInstr(f.blocks[k][j])
    {
      var n :| 0 <= n < |gs| && gs[n] == f;
      LogOrigin(m, fs, maxRecords, outputMode, n, (k, j), session);
      if !LoggingCode(f.blocks[k][j]) {
        FitParts(m, fs[n].name, k, f.blocks[k][j], After, session);
      }
    }
  }

  // ---- The instrumented program does what the program does ----

  /** Tagging, wrapping, attaching answers, untagging and logging change nothing a run shows, from whatever function it starts. */
  lemma InstrumentationPreservesMeaning(m: seq<Function>, first: nat, oracle: T.Oracle, maxRecords: int, outputMode: int,
                                        env: Environment, entry: string, args: seq<Value>)
    requires Program(m) && NoWrapperTargets(env, first) && Find(m, entry).Some?
    ensures SameRuns(m, Final(m, first, oracle, maxRecords, outputMode), env, entry, args)
  {
    hide FitModule;
    hide Carries;
    hide Erase;
    hide Log;
    hide AddSources;
    hide WrapAll;
    hide SameRuns;
    hide Cleared;
    hide InRange;
    hide AllLabelled;
    hide Fresh;
    hide Separated;
    hide CallsOk;
    var a, w, u := AddSources(m), Wrapped(m, first), Cleared(m, first, oracle);
    WrappedFits(m, first, false);
    FitSeparated(m, m, Before, false);
    FitSeparated(m, a, Before, false);
    EraseAddSources(m);
    SameErasureSameRuns(m, a, env, entry, args);
    FitCallsOk(m, a, false);
    CarriesFind(m, a, entry);
    WrappingPreservesMeaning(a, first, env, entry, args);
    ClearedFits(m, first, oracle, false);
    LogSeparated(m, u, maxRecords, outputMode, false);
    EraseLog(u, maxRecords, outputMode);
    SameErasureSameRuns(Final(m, first, oracle, maxRecords, outputMode), w, env, entry, args);
    SameRunsChain(m, a, w, Final(m, first, oracle, maxRecords, outputMode), env, entry, args);
  }
}
