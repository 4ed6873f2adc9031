/** What all passes keep of every instruction, so that each finds the module the way it needs it. */
module Instrumentation {
  import opened Text
  import opened Metadata
  import opened Ir
  import opened Semantics
  import opened Erasure
  import opened WrapSinks
  import opened WrapMeaning
  import opened AnnotateSources
  import opened TagRemoval
  import opened AddLogging
  import opened LoggerSession
  import T = TagResults

  // ---- The invariant ----

  predicate HasSite(i: Instr, site: Option<seq<Node>>) {
    IsDirectCall(i) && i.site == site
  }

  /** The metadata is that of a call in the program. */
  ghost predicate SiteIn(m: seq<Function>, site: Option<seq<Node>>) {
    exists n, p :: 0 <= n < |m| && IsPosition(m[n].blocks, p) && HasSite(InstrAt(m[n].blocks, p), site)
  }

  /** A call of the program: the callee is one of its functions, of the type the call uses. */
  ghost predicate ProgramCall(m: seq<Function>, i: Instr)
    requires IsDirectCall(i)
  {
    var name := i.callee.name;
    && !IsLogger(name) && !IsWrapperName(name)
    && Find(m, name).Some? && Find(m, name).value.sig.result == i.callee.sig.result
    && (i.site.Some? ==> SiteIn(m, i.site))
    && (i.site.Some? && i.dst.None? ==> i.callee.sig.result.Void?)
    && (IsSink(i) ==> |i.args| == |i.callee.sig.parameters|)
  }

  /** How far a module has come: before wrapping, between wrapping and the analysis' answers, and after these. */
  datatype Stage = Before | Between | After

  ghost predicate SourceAt(i: Instr, id: int, slot: nat) {
    SiteOf(i) == Some(id) && slot < ArgumentCount(i.site) && RoleAt(i.site, slot).Some? && RoleAt(i.site, slot).value.isInput
  }

  /** The id of a call of the program that is labelled as a source. */
  ghost predicate IsSourceId(m: seq<Function>, id: int) {
    exists n, p, slot :: 0 <= n < |m| && IsPosition(m[n].blocks, p) && SourceAt(InstrAt(m[n].blocks, p), id, slot)
  }

  /** A tag intrinsic carries the id of a source. */
  ghost predicate TagKnown(m: seq<Function>, i: Instr)
    requires i.Call? && i.callee.Direct?
  {
    i.callee.name == ADD_TAG ==> |i.args| == 2 && i.args[1].Number? && IsSourceId(m, i.args[1].n)
  }

  /** Only calls to the program's own functions are annotated. */
  ghost predicate CallFit(m: seq<Function>, i: Instr, stage: Stage)
    requires i.Call?
  {
    && (!stage.After? || i.site.None? ==> i.tags.None?)
    && if i.callee.Indirect? then i.site.None?
       else if IsIntrinsic(i.callee.name) then i.dst.None? && i.site.None? && TagKnown(m, i)
       else if !stage.Before? && IsWrapperName(i.callee.name) then i.site.None?
       else ProgramCall(m, i)
  }

  /** `main` is entered once: it is not called, and no branch leads back to its first block. */
  predicate MainInstr(name: string, k: nat, i: Instr) {
    (IsDirectCall(i) ==> i.callee.name != MAIN) && (name == MAIN ==> !JumpsToEntry(i) && (k == 0 ==> !i.Phi?))
  }

  /** An instruction in block `k` of a function, in the program `m` or in what some passes have made of it. */
  ghost predicate Fit(m: seq<Function>, name: string, k: nat, i: Instr, stage: Stage, session: bool) {
    && (IsExtra(i) || IsProgramInstr(i))
    && (i.Call? ==> CallFit(m, i, stage))
    && (session ==> MainInstr(name, k, i))
  }

  ghost predicate FitBlock(m: seq<Function>, name: string, k: nat, b: Block, stage: Stage, session: bool) {
    forall j :: 0 <= j < |b| ==> Fit(m, name, k, b[j], stage, session)
  }

  predicate EndsWell(b: Block) {
    b != [] && (b[|b| - 1].Jump? || b[|b| - 1].Branch? || b[|b| - 1].Return?)
  }

  ghost predicate FitFunction(m: seq<Function>, f: Function, stage: Stage, session: bool) {
    forall k :: 0 <= k < |f.blocks| ==> FitBlock(m, f.name, k, f.blocks[k], stage, session) && EndsWell(f.blocks[k])
  }

  ghost predicate FitModule(m: seq<Function>, fs: seq<Function>, stage: Stage, session: bool) {
    forall n :: 0 <= n < |fs| ==> FitFunction(m, fs[n], stage, session)
  }

  /** The program's functions are still in place, and only wrappers have been added. */
  predicate Carries(m: seq<Function>, fs: seq<Function>) {
    && |m| <= |fs|
    && (forall k :: 0 <= k < |m| ==> fs[k].name == m[k].name && fs[k].sig == m[k].sig && |fs[k].blocks| == |m[k].blocks|)
    && (forall k :: |m| <= k < |fs| ==> IsWrapperName(fs[k].name))
  }

  predicate NoWrapperNames(m: seq<Function>) {
    forall k :: 0 <= k < |m| ==> !IsWrapperName(m[k].name)
  }

  // ---- Tagging sources keeps it ----

  lemma IntrinsicNames(name: string)
    requires IsIntrinsic(name)
    ensures !IsLogger(name) && name != MAIN && !IsWrapperName(name)
  {
    assert ADD_TAG[0] != LOG_INIT[0] && SET_MODIFIED[0] != LOG_INIT[0];
    assert LOG_INIT[0] == LOG_BUFFER[0] == LOG_SHUTDOWN[0] == WRAPPER_PREFIX[0];
    assert |MAIN| == 4;
  }

  lemma TaggingFits(m: seq<Function>, name: string, k: nat, i: Instr, stage: Stage, session: bool)
    requires IsTagging(i) && (i.Call? ==> i.site == None && i.tags == None && TagKnown(m, i))
    ensures Fit(m, name, k, i, stage, session)
  {
    hide IsIntrinsic;
    hide TagKnown;
    if i.Call? {
      IntrinsicNames(i.callee.name);
    }
  }

  lemma RoleIds(m: seq<Function>, n: nat, p: Position, slot: nat)
    requires n < |m| && IsPosition(m[n].blocks, p) && IsDirectCall(InstrAt(m[n].blocks, p))
    requires var i := InstrAt(m[n].blocks, p);
             slot < ArgumentCount(i.site) && RoleAt(i.site, slot).Some? && RoleAt(i.site, slot).value.isInput &&
             GetSiteId(i.site).Some?
    ensures IsSourceId(m, GetSiteId(InstrAt(m[n].blocks, p).site).value)
  {
    hide RoleAt;
    var i := InstrAt(m[n].blocks, p);
    assert SourceAt(i, GetSiteId(i.site).value, slot);
  }

  ghost predicate KnownCode(m: seq<Function>, code: seq<Instr>) {
    forall k :: 0 <= k < |code| && code[k].Call? ==>
      code[k].callee.Direct? && code[k].tags == None && TagKnown(m, code[k])
  }

  lemma TagCodeKnown(m: seq<Function>, i: Instr, role: Role)
    requires i.Call? && RoleInRange(i, role) && GetSiteId(i.site).Some? && IsSourceId(m, GetSiteId(i.site).value)
    ensures KnownCode(m, TagCode(i, role))
  {
    hide GetSiteId;
    hide IsSourceId;
    assert |ADD_TAG| != |SET_MODIFIED|;
  }

  lemma {:induction false} SourceCodeKnown(m: seq<Function>, n: nat, p: Position, count: nat)
    requires n < |m| && IsPosition(m[n].blocks, p) && IsDirectCall(InstrAt(m[n].blocks, p))
    requires SourcesInRange(InstrAt(m[n].blocks, p)) && count <= ArgumentCount(InstrAt(m[n].blocks, p).site)
    ensures KnownCode(m, SourceCodeUpTo(InstrAt(m[n].blocks, p), count))
  {
    hide RoleAt;
    hide TagCode;
    hide TagKnown;
    hide IsSourceId;
    hide SourcesInRange;
    if count > 0 {
      var i := InstrAt(m[n].blocks, p);
      SourceCodeKnown(m, n, p, count - 1);
      SourceCodeStep(i, count - 1);
      if RoleAt(i.site, count - 1).Some? && RoleAt(i.site, count - 1).value.isInput {
        RoleIds(m, n, p, count - 1);
        TagCodeKnown(m, i, RoleAt(i.site, count - 1).value);
      }
    }
  }

  lemma NothingToInsert(i: Instr)
    requires i.Call? && i.site.None? && SourcesInRange(i)
    ensures SourceCode(i) == []
  {
  }

  /** The code inserted in front of a program's instruction fits. */
  lemma SourceCodeFits(m: seq<Function>, n: nat, p: Position, session: bool)
    requires n < |m| && IsPosition(m[n].blocks, p) && SourcesInRange(InstrAt(m[n].blocks, p))
    requires Fit(m, m[n].name, p.0, InstrAt(m[n].blocks, p), Before, session)
    ensures FitBlock(m, m[n].name, p.0, SourceCode(InstrAt(m[n].blocks, p)), Before, session)
  {
    hide SourceCodeUpTo;
    hide SourcesInRange;
    hide TagKnown;
    hide IsTagging;
    hide ProgramCall;
    hide IsProgramInstr;
    var i := InstrAt(m[n].blocks, p);
    CodeTagging(i);
    var code := SourceCode(i);
    if i.Call? && i.callee.Direct? {
      SourceCodeKnown(m, n, p, ArgumentCount(i.site));
      assert KnownCode(m, code);
    } else if i.Call? {
      NothingToInsert(i);
    }
    forall j | 0 <= j < |code|
      ensures Fit(m, m[n].name, p.0, code[j], Before, session)
    {
      TaggingFits(m, m[n].name, p.0, code[j], Before, session);
    }
  }

  lemma {:induction false} AddedBlockFits(m: seq<Function>, n: nat, k: nat, c: nat, session: bool)
    requires n < |m| && k < |m[n].blocks| && c <= |m[n].blocks[k]|
    requires BlockInRange(m[n].blocks[k]) && FitBlock(m, m[n].name, k, m[n].blocks[k], Before, session)
    ensures var b := m[n].blocks[k][..c];
            BlockInRange(b) && FitBlock(m, m[n].name, k, AddSourcesBlock(b), Before, session) &&
            (c > 0 ==> AddSourcesBlock(b) != [] && AddSourcesBlock(b)[|AddSourcesBlock(b)| - 1] == b[c - 1])
  {
    hide Fit;
    hide SourcesInRange;
    hide SourceCode;
    var b := m[n].blocks[k];
    if c > 0 {
      AddedBlockFits(m, n, k, c - 1, session);
      assert b[..c][..c - 1] == b[..c - 1];
      SourceCodeFits(m, n, (k, c - 1), session);
    }
  }

  lemma AddedFits(m: seq<Function>, session: bool)
    requires InRange(m) && FitModule(m, m, Before, session)
    ensures FitModule(m, AddSources(m), Before, session) && Carries(m, AddSources(m))
  {
    hide FitBlock;
    hide BlockInRange;
    hide AddSourcesBlock;
    forall n | 0 <= n < |m|
      ensures FitFunction(m, AddSources(m)[n], Before, session)
    {
      var f := m[n];
      assert [f][0] == f;
      forall k | 0 <= k < |f.blocks|
        ensures FitBlock(m, f.name, k, AddSourcesBlock(f.blocks[k]), Before, session) && EndsWell(AddSourcesBlock(f.blocks[k]))
      {
        assert FitBlock(m, f.name, k, f.blocks[k], Before, session) && BlockInRange(m[n].blocks[k]);
        AddedBlockFits(m, n, k, |f.blocks[k]|, session);
        assert f.blocks[k][..|f.blocks[k]|] == f.blocks[k];
      }
    }
  }

  // ---- Wrapping keeps it ----

  lemma WrapperNames(n: nat)
    ensures IsWrapperName(WrapperName(n)) && WrapperName(n) != MAIN && !IsIntrinsic(WrapperName(n))
    ensures !IsLogger(WrapperName(n))
  {
    NamesDiffer(n, n);
    WrapperNotReserved(WrapperName(n));
  }

  lemma SinkFit(m: seq<Function>, name: string, k: nat, i: Instr, stage: Stage, session: bool)
    requires Fit(m, name, k, i, stage, session) && IsSink(i)
    ensures ProgramCall(m, i) && !IsIntrinsic(i.callee.name) && !IsExtra(i) && IsProgramInstr(i)
    ensures stage.Before? ==> i.tags.None?
    ensures session ==> i.callee.name != MAIN
  {
    OutputsStart(i);
  }

  lemma WrappedCallFits(m: seq<Function>, name: string, k: nat, i: Instr, n: nat, session: bool)
    requires Fit(m, name, k, i, Before, session) && IsSink(i)
    ensures Fit(m, name, k, WrappedCall(n, i), Between, session)
  {
    hide OutputsOf;
    hide ProgramCall;
    hide WrapperName;
    WrapperNames(n);
    SinkFit(m, name, k, i, Before, session);
  }

  /** Before wrapping, no call goes to a wrapper. */
  lemma FitStays(m: seq<Function>, name: string, k: nat, i: Instr, session: bool)
    requires Fit(m, name, k, i, Before, session)
    ensures Fit(m, name, k, i, Between, session)
  {
    hide IsSink;
  }

  lemma WrappedBlockFits(m: seq<Function>, f: Function, first: nat, k: nat, session: bool)
    requires FitFunction(m, f, Before, session) && k < |f.blocks|
    ensures var g := WrapFunction(f, first);
            g.name == f.name && k < |g.blocks| && FitBlock(m, f.name, k, g.blocks[k], Between, session) &&
            EndsWell(g.blocks[k])
  {
    hide Fit;
    hide WrapFunction;
    hide WrapInstr;
    var g, b := WrapFunction(f, first), f.blocks[k];
    WrappedShape(f, first);
    assert FitBlock(m, f.name, k, b, Before, session) && EndsWell(b);
    forall j | 0 <= j < |b|
      ensures Fit(m, f.name, k, g.blocks[k][j], Between, session) && (!b[j].Call? ==> g.blocks[k][j] == b[j])
    {
      WrappedInstr(f, first, k, j);
      WrappedInstrFits(m, f, first, k, j, session);
    }
  }

  lemma WrappedBodyFits(m: seq<Function>, f: Function, first: nat, session: bool)
    requires FitFunction(m, f, Before, session)
    ensures FitFunction(m, WrapFunction(f, first), Between, session)
  {
    hide FitBlock;
    hide EndsWell;
    hide WrapBlocks;
    var g := WrapFunction(f, first);
    WrappedShape(f, first);
    forall k | 0 <= k < |g.blocks|
      ensures FitBlock(m, g.name, k, g.blocks[k], Between, session) && EndsWell(g.blocks[k])
    {
      WrappedBlockFits(m, f, first, k, session);
    }
  }

  lemma WrappedInstrFits(m: seq<Function>, f: Function, first: nat, k: nat, j: nat, session: bool)
    requires IsPosition(f.blocks, (k, j)) && Fit(m, f.name, k, f.blocks[k][j], Before, session)
    ensures Fit(m, f.name, k, f.blocks[k][j], Between, session)
    ensures Fit(m, f.name, k, WrapInstr(f.blocks, first, 0, (k, j)), Between, session)
    ensures !f.blocks[k][j].Call? ==> WrapInstr(f.blocks, first, 0, (k, j)) == f.blocks[k][j]
  {
    hide Fit;
    hide Rank;
    hide Sinks;
    hide WrappedCall;
    hide OutputsOf;
    var i := f.blocks[k][j];
    FitStays(m, f.name, k, i, session);
    if IsSink(i) && 0 <= Rank(f.blocks, (k, j)) < |Sinks(f.blocks)| {
      WrappedCallFits(m, f.name, k, i, first + |Sinks(f.blocks)| - 1 - Rank(f.blocks, (k, j)), session);
    }
  }

  predicate Preparing(i: Instr) {
    IsTagging(i) && (i.Call? ==> i.callee.name == SET_MODIFIED && i.site == None && i.tags == None)
  }

  lemma {:induction false} PreambleTagging(sig: Signature, outputs: seq<int>)
    requires forall k :: 0 <= k < |outputs| ==> 0 <= outputs[k] < |sig.parameters|
    ensures forall k :: 0 <= k < |Preamble(sig, outputs)| ==> Preparing(Preamble(sig, outputs)[k])
  {
    if outputs != [] {
      PreambleTagging(sig, outputs[..|outputs| - 1]);
    }
  }

  lemma PreparingFits(m: seq<Function>, name: string, k: nat, i: Instr, stage: Stage, session: bool)
    requires Preparing(i)
    ensures Fit(m, name, k, i, stage, session)
  {
    assert |ADD_TAG| != |SET_MODIFIED|;
    TaggingFits(m, name, k, i, stage, session);
  }

  lemma ForwardedFits(m: seq<Function>, name: string, n: nat, i: Instr, session: bool)
    requires IsSink(i) && ProgramCall(m, i) && !IsIntrinsic(i.callee.name) && i.tags.None? && name != MAIN
    requires session ==> i.callee.name != MAIN
    ensures FitBlock(m, name, 1, Forwarded(i), Between, session)
  {
    hide GetSiteId;
    hide RolesUpTo;
    hide Outputs;
  }

  lemma WrapperFits(m: seq<Function>, n: nat, i: Instr, session: bool)
    requires IsSink(i) && OutputsInRange(i) && ProgramCall(m, i) && !IsIntrinsic(i.callee.name) && i.tags.None?
    requires session ==> i.callee.name != MAIN
    ensures FitFunction(m, WrapperFunction(n, i), Between, session)
  {
    hide Fit;
    hide Preamble;
    hide Forwarded;
    hide OutputsOf;
    hide ProgramCall;
    hide Preparing;
    hide WrapperName;
    WrapperNames(n);
    var g := WrapperFunction(n, i);
    var pre, code := Preamble(i.callee.sig, OutputsOf(i)), Forwarded(i);
    PreambleTagging(i.callee.sig, OutputsOf(i));
    ForwardedFits(m, g.name, n, i, session);
    ForwardedEnds(i);
    forall j | 0 <= j < |pre + code|
      ensures Fit(m, g.name, 1, (pre + code)[j], Between, session)
    {
      if j < |pre| {
        PreparingFits(m, g.name, 1, pre[j], Between, session);
      } else {
        assert Fit(m, g.name, 1, code[j - |pre|], Between, session);
      }
    }
    JumpFits(m, g.name, session);
  }

  lemma JumpFits(m: seq<Function>, name: string, session: bool)
    ensures Fit(m, name, 0, Jump(1), Between, session)
  {
  }

  lemma ForwardedEnds(i: Instr)
    requires IsDirectCall(i)
    ensures EndsWell(Forwarded(i)) && |Forwarded(i)| == 2
  {
  }

  lemma WrapAllFits(m: seq<Function>, fs: seq<Function>, first: nat, session: bool)
    requires AllLabelled(fs) && FitModule(m, fs, Before, session) && Carries(m, fs)
    ensures FitModule(m, WrapAll(fs, first), Between, session) && Carries(m, WrapAll(fs, first))
  {
    hide FitFunction;
    hide WrapFunction;
    hide WrapperFunction;
    hide Labelled;
    hide Bodies;
    hide Wrappers;
    hide Total;
    hide IsSink;
    var gs := WrapAll(fs, first);
    BodiesLength(fs, first);
    forall n | 0 <= n < |gs|
      ensures FitFunction(m, gs[n], Between, session)
      ensures n >= |fs| ==> IsWrapperName(gs[n].name)
      ensures n < |fs| ==> gs[n].name == fs[n].name && gs[n].sig == fs[n].sig && |gs[n].blocks| == |fs[n].blocks|
    {
      if n < |fs| {
        var c := BodyAt(fs, first, n);
        WrappedBodyFits(m, fs[n], c, session);
        WrappedShape(fs[n], c);
      } else {
        var k, p := SeparatedWrappers(fs, first, n - |fs|);
        FitAt(m, fs, k, p, Before, session);
        SinkFit(m, fs[k].name, p.0, InstrAt(fs[k].blocks, p), Before, session);
        WrapperFits(m, first + (n - |fs|), InstrAt(fs[k].blocks, p), session);
        WrapperNames(first + (n - |fs|));
        WrapperFunctionName(first + (n - |fs|), InstrAt(fs[k].blocks, p));
      }
    }
  }

  lemma WrapperFunctionName(n: nat, i: Instr)
    requires IsSink(i) && OutputsInRange(i)
    ensures WrapperFunction(n, i).name == WrapperName(n)
  {
  }

  lemma FitAt(m: seq<Function>, fs: seq<Function>, n: nat, p: Position, stage: Stage, session: bool)
    requires FitModule(m, fs, stage, session) && n < |fs| && IsPosition(fs[n].blocks, p)
    ensures Fit(m, fs[n].name, p.0, InstrAt(fs[n].blocks, p), stage, session)
  {
    hide Fit;
    assert FitFunction(m, fs[n], stage, session);
    assert FitBlock(m, fs[n].name, p.0, fs[n].blocks[p.0], stage, session);
  }

  // ---- Attaching answers and removing intrinsics keep it ----

  lemma TaggedFits(m: seq<Function>, name: string, k: nat, i: Instr, q: T.Query, session: bool)
    requires T.SinkArguments(i) && Fit(m, name, k, i, Between, session)
    ensures Fit(m, name, k, T.TagInstr(i, q), After, session)
  {
    hide T.TagInstr;
    hide IsSink;
    hide TagKnown;
    T.TagClean(i, q);
    NoSiteNoTags(i, q);
    SameSink(i, T.TagInstr(i, q));
  }

  lemma NoSiteNoTags(i: Instr, q: T.Query)
    requires T.SinkArguments(i)
    ensures i.Call? && i.site.None? ==> T.TagInstr(i, q) == i
  {
  }

  lemma SameSink(i: Instr, r: Instr)
    requires r == if i.Call? && r.Call? then i.(tags := r.tags) else i
    ensures IsSink(i) == IsSink(r)
  {
  }

  lemma TagAllFits(m: seq<Function>, fs: seq<Function>, oracle: T.Oracle, session: bool)
    requires T.AllSinkArguments(fs) && FitModule(m, fs, Between, session) && Carries(m, fs)
    ensures FitModule(m, T.TagAll(fs, oracle), After, session) && Carries(m, T.TagAll(fs, oracle))
  {
    hide Fit;
    hide T.SinkArguments;
    hide T.TagInstr;
    var gs := T.TagAll(fs, oracle);
    forall n | 0 <= n < |fs|
      ensures FitFunction(m, gs[n], After, session)
      ensures gs[n].name == fs[n].name && gs[n].sig == fs[n].sig && |gs[n].blocks| == |fs[n].blocks|
    {
      var f := fs[n];
      assert [f][0] == f;
      assert FitFunction(m, f, Between, session);
      forall k | 0 <= k < |f.blocks|
        ensures FitBlock(m, f.name, k, gs[n].blocks[k], After, session) && EndsWell(gs[n].blocks[k])
      {
        assert FitBlock(m, f.name, k, f.blocks[k], Between, session) && EndsWell(f.blocks[k]);
        TagBlockFits(m, f.name, k, f.blocks[k], p => oracle(n, k, p), session);
      }
    }
  }

  lemma TagBlockFits(m: seq<Function>, name: string, k: nat, b: Block, q: T.Query, session: bool)
    requires FitBlock(m, name, k, b, Between, session) && EndsWell(b) && forall j :: 0 <= j < |b| ==> T.SinkArguments(b[j])
    ensures FitBlock(m, name, k, T.TagBlock(b, q), After, session) && EndsWell(T.TagBlock(b, q))
  {
    hide Fit;
    hide T.SinkArguments;
    hide T.TagInstr;
    forall j | 0 <= j < |b|
      ensures Fit(m, name, k, T.TagInstr(b[j], q), After, session)
    {
      TaggedFits(m, name, k, b[j], q, session);
    }
    T.TagClean(b[|b| - 1], q);
  }

  lemma {:induction false} RemovedBlockFits(m: seq<Function>, f: Function, name: string, k: nat, b: Block, session: bool)
    requires FitBlock(m, name, k, b, After, session)
    ensures FitBlock(m, name, k, RemoveFromBlock(f, b), After, session)
    ensures EndsWell(b) ==> EndsWell(RemoveFromBlock(f, b))
  {
    hide Fit;
    hide IsUsed;
    if b != [] {
      RemovedBlockFits(m, f, name, k, b[..|b| - 1], session);
    }
  }

  lemma RemovedFits(m: seq<Function>, fs: seq<Function>, session: bool)
    requires FitModule(m, fs, After, session) && Carries(m, fs)
    ensures FitModule(m, RemoveSources(fs), After, session) && Carries(m, RemoveSources(fs))
  {
    hide FitBlock;
    hide EndsWell;
    hide RemoveFromBlock;
    forall n | 0 <= n < |fs|
      ensures FitFunction(m, RemoveSources(fs)[n], After, session)
    {
      assert FitFunction(m, fs[n], After, session);
      forall k | 0 <= k < |fs[n].blocks|
        ensures FitBlock(m, fs[n].name, k, RemoveFromBlock(fs[n], fs[n].blocks[k]), After, session)
        ensures EndsWell(RemoveFromBlock(fs[n], fs[n].blocks[k]))
      {
        RemovedBlockFits(m, fs[n], fs[n].name, k, fs[n].blocks[k], session);
      }
    }
  }
}
