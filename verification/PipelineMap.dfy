/** The call-site ids of the instrumented program, and the dependency map drawn from it. */
module PipelineMap {
  import opened Text
  import opened Metadata
  import opened Ir
  import opened Erasure
  import opened WrapSinks
  import opened WrapOrder
  import opened AnnotateSources
  import opened TagRemoval
  import opened AddLogging
  import opened Instrumentation
  import opened Pipeline
  import T = TagResults
  import D = DependencyMap

  // ---- Ids live in program code ----

  predicate NoIdExtra(i: Instr) {
    IsExtra(i) ==> IdsOf(i) == []
  }

  lemma CleanIds(i: Instr)
    ensures IdsOf(Clean(i)) == IdsOf(i)
  {
  }

  lemma {:induction false} ErasedBlockIds(b: Block)
    requires forall j :: 0 <= j < |b| ==> NoIdExtra(b[j])
    ensures IdsOfBlock(EraseBlock(b)) == IdsOfBlock(b)
  {
    hide IdsOf;
    hide IsExtra;
    hide Clean;
    if b != [] {
      var init, i := b[..|b| - 1], b[|b| - 1];
      ErasedBlockIds(init);
      CleanIds(i);
      assert NoIdExtra(i);
      if !IsExtra(i) {
        assert (EraseBlock(init) + [Clean(i)])[..|EraseBlock(init)|] == EraseBlock(init);
      } else {
        assert EraseBlock(b) == EraseBlock(init);
      }
    }
  }

  ghost predicate NoIdsOutside(fs: seq<Function>) {
    forall n, k, j :: 0 <= n < |fs| && 0 <= k < |fs[n].blocks| && 0 <= j < |fs[n].blocks[k]| ==> NoIdExtra(fs[n].blocks[k][j])
  }

  lemma {:induction false} SameBlocksIds(bs: seq<Block>, cs: seq<Block>)
    requires |bs| == |cs| && forall k :: 0 <= k < |bs| ==> IdsOfBlock(bs[k]) == IdsOfBlock(cs[k])
    ensures IdsOfBlocks(bs) == IdsOfBlocks(cs)
  {
    hide IdsOfBlock;
    if bs != [] {
      SameBlocksIds(bs[..|bs| - 1], cs[..|cs| - 1]);
    }
  }

  lemma {:induction false} SameIds(fs: seq<Function>, gs: seq<Function>)
    requires |fs| == |gs| && forall n :: 0 <= n < |fs| ==> IdsOfBlocks(fs[n].blocks) == IdsOfBlocks(gs[n].blocks)
    ensures Ids(fs) == Ids(gs)
  {
    hide IdsOfBlocks;
    if fs != [] {
      SameIds(fs[..|fs| - 1], gs[..|gs| - 1]);
    }
  }

  /** Erasing instrumentation keeps all ids in their order. */
  lemma ErasedIds(fs: seq<Function>)
    requires NoIdsOutside(fs)
    ensures Ids(Erase(fs)) == Ids(fs)
  {
    hide IdsOfBlock;
    hide EraseBlock;
    hide IdsOfBlocks;
    hide NoIdExtra;
    var gs := Erase(fs);
    forall n | 0 <= n < |fs|
      ensures IdsOfBlocks(gs[n].blocks) == IdsOfBlocks(fs[n].blocks)
    {
      forall k | 0 <= k < |fs[n].blocks|
        ensures IdsOfBlock(gs[n].blocks[k]) == IdsOfBlock(fs[n].blocks[k])
      {
        var b := fs[n].blocks[k];
        forall j | 0 <= j < |b|
          ensures NoIdExtra(b[j])
        {
          assert NoIdExtra(fs[n].blocks[k][j]);
        }
        ErasedBlockIds(b);
      }
      SameBlocksIds(gs[n].blocks, fs[n].blocks);
    }
    SameIds(gs, fs);
  }

  lemma FitNoIds(m: seq<Function>, fs: seq<Function>, stage: Stage, session: bool)
    requires FitModule(m, fs, stage, session)
    ensures NoIdsOutside(fs)
  {
    hide Fit;
    hide IsExtra;
    hide IdsOf;
    forall n, k, j | 0 <= n < |fs| && 0 <= k < |fs[n].blocks| && 0 <= j < |fs[n].blocks[k]|
      ensures NoIdExtra(fs[n].blocks[k][j])
    {
      FitAt(m, fs, n, (k, j), stage, session);
      FitParts(m, fs[n].name, k, fs[n].blocks[k][j], stage, session);
    }
  }

  lemma LoggingCodeNoId(i: Instr)
    requires LoggingCode(i)
    ensures IdsOf(i) == []
  {
  }

  lemma LogNoIds(m: seq<Function>, fs: seq<Function>, maxRecords: int, outputMode: int, session: bool)
    requires FitModule(m, fs, After, session)
    ensures NoIdsOutside(Log(fs, maxRecords, outputMode))
  {
    hide FitModule;
    hide LogFunction;
    hide Fit;
    hide IsExtra;
    hide IdsOf;
    hide LoggingCode;
    var gs := Log(fs, maxRecords, outputMode);
    forall n, k, j | 0 <= n < |gs| && 0 <= k < |gs[n].blocks| && 0 <= j < |gs[n].blocks[k]|
      ensures NoIdExtra(gs[n].blocks[k][j])
    {
      var i := gs[n].blocks[k][j];
      LogOrigin(m, fs, maxRecords, outputMode, n, (k, j), session);
      if LoggingCode(i) {
        LoggingCodeNoId(i);
      } else {
        FitParts(m, fs[n].name, k, i, After, session);
      }
    }
  }

  /** Through all passes each id labels as many calls as in the program, and the order is that of the wrapped module. */
  lemma IdsSurvive(m: seq<Function>, first: nat, oracle: T.Oracle, maxRecords: int, outputMode: int)
    requires Program(m)
    ensures Ids(Final(m, first, oracle, maxRecords, outputMode)) == Ids(Wrapped(m, first))
    ensures multiset(Ids(Final(m, first, oracle, maxRecords, outputMode))) == multiset(Ids(m))
  {
    hide FitModule;
    hide Carries;
    hide Erase;
    hide Log;
    hide AddSources;
    hide WrapAll;
    hide Cleared;
    hide InRange;
    hide AllLabelled;
    hide Fresh;
    hide Ids;
    hide NoIdsOutside;
    var a, w, u := AddSources(m), Wrapped(m, first), Cleared(m, first, oracle);
    WrappedFits(m, first, false);
    ClearedFits(m, first, oracle, false);
    FitNoIds(m, m, Before, false);
    FitNoIds(m, a, Before, false);
    FitNoIds(m, w, Between, false);
    LogNoIds(m, u, maxRecords, outputMode, false);
    ErasedIds(m);
    ErasedIds(a);
    ErasedIds(w);
    ErasedIds(Log(u, maxRecords, outputMode));
    EraseAddSources(m);
    EraseLog(u, maxRecords, outputMode);
    WrappingKeepsIds(a, first);
  }

  // ---- Tagging leaves the order of the ids alone ----

  lemma {:induction false} KeptConcat(a: Block, b: Block)
    ensures KeptOfBlock(a + b) == KeptOfBlock(a) + KeptOfBlock(b)
  {
    hide IsSink;
    if b == [] {
      assert a + b == a;
    } else {
      assert (a + b)[..|a + b| - 1] == a + b[..|b| - 1];
      KeptConcat(a, b[..|b| - 1]);
    }
  }

  lemma {:induction false} NoIdsKept(b: Block)
    requires forall j :: 0 <= j < |b| ==> IdsOf(b[j]) == []
    ensures IdsOfBlock(KeptOfBlock(b)) == []
  {
    hide IsSink;
    hide IdsOf;
    if b != [] {
      var init, i := b[..|b| - 1], b[|b| - 1];
      NoIdsKept(init);
      if !IsSink(i) {
        assert (KeptOfBlock(init) + [i])[..|KeptOfBlock(init)|] == KeptOfBlock(init);
      } else {
        assert KeptOfBlock(b) == KeptOfBlock(init);
      }
    }
  }

  lemma CodeHasNoIds(i: Instr)
    requires SourcesInRange(i)
    ensures forall j :: 0 <= j < |SourceCode(i)| ==> IdsOf(SourceCode(i)[j]) == []
  {
    hide SourceCode;
    hide SourcesInRange;
    CodeTagging(i);
  }

  lemma {:induction false} TaggedKeptIds(b: Block)
    requires BlockInRange(b)
    ensures IdsOfBlock(KeptOfBlock(AddSourcesBlock(b))) == IdsOfBlock(KeptOfBlock(b))
  {
    hide IsSink;
    hide IdsOf;
    hide SourceCode;
    hide SourcesInRange;
    hide IdsOfBlock;
    hide KeptOfBlock;
    if b != [] {
      var init, i := b[..|b| - 1], b[|b| - 1];
      TaggedKeptIds(init);
      CodeHasNoIds(i);
      NoIdsKept(SourceCode(i));
      var tagged, code := AddSourcesBlock(init), SourceCode(i);
      KeptConcat(tagged + code, [i]);
      KeptConcat(tagged, code);
      KeptConcat(init, [i]);
      assert b == init + [i];
      IdsConcat(KeptOfBlock(tagged) + KeptOfBlock(code), KeptOfBlock([i]));
      IdsConcat(KeptOfBlock(tagged), KeptOfBlock(code));
      IdsConcat(KeptOfBlock(init), KeptOfBlock([i]));
      assert IdsOfBlock(KeptOfBlock(init)) + [] == IdsOfBlock(KeptOfBlock(init));
    }
  }

  lemma {:induction false} TaggedKeptBlocks(blocks: seq<Block>, tagged: seq<Block>)
    requires |blocks| == |tagged|
    requires forall b :: 0 <= b < |blocks| ==> BlockInRange(blocks[b]) && tagged[b] == AddSourcesBlock(blocks[b])
    ensures KeptIds(tagged) == KeptIds(blocks)
  {
    hide BlockInRange;
    hide AddSourcesBlock;
    hide KeptOfBlock;
    hide IdsOfBlock;
    if blocks != [] {
      var n := |blocks| - 1;
      TaggedKeptBlocks(blocks[..n], tagged[..n]);
      TaggedKeptIds(blocks[n]);
    }
  }

  lemma TaggedFunctionIds(f: Function)
    requires InRange([f])
    ensures var g := AddSourcesFunction(f);
            IsWrapped(g) == IsWrapped(f) && KeptIds(g.blocks) == KeptIds(f.blocks) &&
            IdsOfBlocks(g.blocks) == IdsOfBlocks(f.blocks) && SinkCalls(g.blocks) == SinkCalls(f.blocks)
  {
    hide BlockInRange;
    hide AddSourcesBlock;
    hide KeptIds;
    hide SinkCalls;
    hide IdsOfBlock;
    assert [f][0] == f;
    var g := AddSourcesFunction(f);
    TaggedKeptBlocks(f.blocks, g.blocks);
    TaggedFunctionSinks(f);
    forall b | 0 <= b < |f.blocks|
      ensures IdsOfBlock(g.blocks[b]) == IdsOfBlock(f.blocks[b])
    {
      assert BlockInRange([f][0].blocks[b]);
      TaggedBlockIds(f.blocks[b]);
    }
    SameBlocksIds(g.blocks, f.blocks);
  }

  lemma {:induction false} NoIds(b: Block)
    requires forall j :: 0 <= j < |b| ==> IdsOf(b[j]) == []
    ensures IdsOfBlock(b) == []
  {
    hide IdsOf;
    if b != [] {
      NoIds(b[..|b| - 1]);
    }
  }

  lemma {:induction false} TaggedBlockIds(b: Block)
    requires BlockInRange(b)
    ensures IdsOfBlock(AddSourcesBlock(b)) == IdsOfBlock(b)
  {
    hide IdsOf;
    hide SourceCode;
    hide SourcesInRange;
    if b != [] {
      var init, i := b[..|b| - 1], b[|b| - 1];
      TaggedBlockIds(init);
      CodeHasNoIds(i);
      NoIds(SourceCode(i));
      IdsConcat(AddSourcesBlock(init) + SourceCode(i), [i]);
      IdsConcat(AddSourcesBlock(init), SourceCode(i));
      assert [i][..0] == [];
      assert IdsOfBlock(init) + [] == IdsOfBlock(init);
    }
  }

  lemma {:induction false} TaggedOrder(m: seq<Function>, k: nat)
    requires InRange(m) && k <= |m|
    ensures UnwrappedIds(AddSources(m)[..k]) == UnwrappedIds(m[..k]) && WrappedIds(AddSources(m)[..k]) == WrappedIds(m[..k])
  {
    hide AddSourcesFunction;
    hide BlockInRange;
    hide KeptIds;
    hide SinkCalls;
    hide IdsOfBlocks;
    hide IdsOfBlock;
    hide Reverse;
    if k > 0 {
      TaggedOrder(m, k - 1);
      var a := AddSources(m);
      assert a[..k][..k - 1] == a[..k - 1] && m[..k][..k - 1] == m[..k - 1];
      assert [m[k - 1]][0] == m[k - 1];
      TaggedFunctionIds(m[k - 1]);
    }
  }

  // ---- The map of the program ----

  lemma {:induction false} IdOfBlock(b: Block, j: nat, id: int)
    requires j < |b| && SiteOf(b[j]) == Some(id)
    ensures id in IdsOfBlock(b)
  {
    hide SiteOf;
    if j < |b| - 1 {
      IdOfBlock(b[..|b| - 1], j, id);
    }
  }

  lemma {:induction false} IdOfBlocks(blocks: seq<Block>, p: Position, id: int)
    requires IsPosition(blocks, p) && SiteOf(InstrAt(blocks, p)) == Some(id)
    ensures id in IdsOfBlocks(blocks)
  {
    hide SiteOf;
    hide IdsOfBlock;
    if p.0 < |blocks| - 1 {
      IdOfBlocks(blocks[..|blocks| - 1], p, id);
    } else {
      IdOfBlock(blocks[p.0], p.1, id);
    }
  }

  lemma {:induction false} IdOfModule(fs: seq<Function>, n: nat, p: Position, id: int)
    requires n < |fs| && IsPosition(fs[n].blocks, p) && SiteOf(InstrAt(fs[n].blocks, p)) == Some(id)
    ensures id in Ids(fs)
  {
    hide SiteOf;
    hide IdsOfBlocks;
    if n < |fs| - 1 {
      IdOfModule(fs[..|fs| - 1], n, p, id);
    } else {
      IdOfBlocks(fs[n].blocks, p, id);
    }
  }

  lemma SourceIdsDeclared(m: seq<Function>, id: int)
    requires IsSourceId(m, id)
    ensures id in Ids(m)
  {
    hide SiteOf;
    hide Ids;
    var n, p, slot :| 0 <= n < |m| && IsPosition(m[n].blocks, p) && SourceAt(InstrAt(m[n].blocks, p), id, slot);
    IdOfModule(m, n, p, id);
  }

  /** Some tag intrinsic of the module passes this number. */
  ghost predicate Inserted(fs: seq<Function>, tag: int) {
    exists n, p :: 0 <= n < |fs| && IsPosition(fs[n].blocks, p) && IsTagOf(InstrAt(fs[n].blocks, p), tag)
  }

  predicate IsTagOf(i: Instr, tag: int) {
    IsDirectCall(i) && i.callee.name == ADD_TAG && |i.args| == 2 && i.args[1] == Number(tag)
  }

  lemma InsertedIsSource(m: seq<Function>, fs: seq<Function>, stage: Stage, tag: int, session: bool)
    requires FitModule(m, fs, stage, session) && Inserted(fs, tag)
    ensures IsSourceId(m, tag)
  {
    hide IsSourceId;
    hide ProgramCall;
    hide IsProgramInstr;
    var n, p :| 0 <= n < |fs| && IsPosition(fs[n].blocks, p) && IsTagOf(InstrAt(fs[n].blocks, p), tag);
    FitAt(m, fs, n, p, stage, session);
  }

  ghost predicate SinkAt(i: Instr, id: int, slot: nat) {
    SiteOf(i) == Some(id) && slot < ArgumentCount(i.site) && RoleAt(i.site, slot).Some? &&
    !RoleAt(i.site, slot).value.isInput
  }

  /** The id of a call of the program that is labelled as a sink. */
  ghost predicate IsSinkId(m: seq<Function>, id: int) {
    exists n, p, slot :: 0 <= n < |m| && IsPosition(m[n].blocks, p) && SinkAt(InstrAt(m[n].blocks, p), id, slot)
  }

  lemma AnnotatedIsOwn(m: seq<Function>, name: string, k: nat, i: Instr, stage: Stage, session: bool)
    requires Fit(m, name, k, i, stage, session) && IsDirectCall(i) && i.site.Some?
    ensures SiteIn(m, i.site)
  {
    hide SiteIn;
    hide IsSink;
    hide IsProgramInstr;
  }

  lemma SameSiteSameSink(i: Instr, o: Instr, id: int) returns (slot: nat)
    requires D.SinkOf(i, id) && HasSite(o, i.site)
    ensures SinkAt(o, id, slot)
  {
    hide GetSiteId;
    hide RoleAt;
    slot :| 0 <= slot < ArgumentCount(i.site) && T.OutputAt(i, slot).Some?;
  }

  lemma SinkIsOwn(m: seq<Function>, fs: seq<Function>, stage: Stage, id: int, session: bool)
    requires FitModule(m, fs, stage, session) && D.SinkIn(fs, id)
    ensures IsSinkId(m, id)
  {
    hide Fit;
    hide D.SinkOf;
    hide SinkAt;
    hide HasSite;
    var f, q :| 0 <= f < |fs| && IsPosition(fs[f].blocks, q) && D.SinkOf(InstrAt(fs[f].blocks, q), id);
    var i := InstrAt(fs[f].blocks, q);
    FitAt(m, fs, f, q, stage, session);
    SinkHasSite(i, id);
    AnnotatedIsOwn(m, fs[f].name, q.0, i, stage, session);
    var n, p :| 0 <= n < |m| && IsPosition(m[n].blocks, p) && HasSite(InstrAt(m[n].blocks, p), i.site);
    var slot := SameSiteSameSink(i, InstrAt(m[n].blocks, p), id);
  }

  lemma SinkHasSite(i: Instr, id: int)
    requires D.SinkOf(i, id)
    ensures IsDirectCall(i) && i.site.Some?
  {
  }

  lemma ProgramFits(m: seq<Function>)
    requires Program(m)
    ensures FitModule(m, m, Before, false)
  {
  }

  lemma FitUntagged(m: seq<Function>, fs: seq<Function>, stage: Stage, session: bool)
    requires FitModule(m, fs, stage, session) && !stage.After?
    ensures D.Untagged(fs)
  {
    hide Fit;
    forall n, k, j | 0 <= n < |fs| && 0 <= k < |fs[n].blocks| && 0 <= j < |fs[n].blocks[k]|
      ensures fs[n].blocks[k][j].Call? ==> fs[n].blocks[k][j].tags.None?
    {
      FitAt(m, fs, n, (k, j), stage, session);
      FitTags(m, fs[n].name, k, fs[n].blocks[k][j], stage, session);
    }
  }

  lemma FitTags(m: seq<Function>, name: string, k: nat, i: Instr, stage: Stage, session: bool)
    requires Fit(m, name, k, i, stage, session) && !stage.After?
    ensures i.Call? ==> i.tags.None?
  {
  }

  // ---- Removing the intrinsics leaves the map alone ----

  lemma FitLines(m: seq<Function>, f: Function, name: string, k: nat, i: Instr, unset: int, session: bool)
    requires Fit(m, name, k, i, After, session) && IsRemovable(f, i)
    ensures D.LinesOf(i, unset) == []
  {
    hide IsUsed;
    hide TagKnown;
  }

  lemma {:induction false} RemovedLines(m: seq<Function>, f: Function, name: string, k: nat, b: Block, unset: int, session: bool)
    requires FitBlock(m, name, k, b, After, session)
    ensures D.LinesOfBlock(RemoveFromBlock(f, b), unset) == D.LinesOfBlock(b, unset)
  {
    hide Fit;
    hide IsRemovable;
    hide D.LinesOf;
    if b != [] {
      var init, i := b[..|b| - 1], b[|b| - 1];
      RemovedLines(m, f, name, k, init, unset, session);
      if IsRemovable(f, i) {
        FitLines(m, f, name, k, i, unset, session);
        assert RemoveFromBlock(f, b) == RemoveFromBlock(f, init);
      } else {
        assert (RemoveFromBlock(f, init) + [i])[..|RemoveFromBlock(f, init)|] == RemoveFromBlock(f, init);
      }
    }
  }

  lemma {:induction false} SameLines(bs: seq<Block>, cs: seq<Block>, unset: int)
    requires |bs| == |cs| && forall k :: 0 <= k < |bs| ==> D.LinesOfBlock(bs[k], unset) == D.LinesOfBlock(cs[k], unset)
    ensures D.LinesOfBlocks(bs, unset) == D.LinesOfBlocks(cs, unset)
  {
    hide D.LinesOfBlock;
    if bs != [] {
      SameLines(bs[..|bs| - 1], cs[..|cs| - 1], unset);
    }
  }

  lemma {:induction false} SameBody(fs: seq<Function>, gs: seq<Function>, unset: int)
    requires |fs| == |gs|
    requires forall n :: 0 <= n < |fs| ==> D.LinesOfBlocks(fs[n].blocks, unset) == D.LinesOfBlocks(gs[n].blocks, unset)
    ensures D.Body(fs, unset) == D.Body(gs, unset)
  {
    hide D.LinesOfBlocks;
    if fs != [] {
      SameBody(fs[..|fs| - 1], gs[..|gs| - 1], unset);
    }
  }

  lemma RemovedMap(m: seq<Function>, fs: seq<Function>, unset: int, session: bool)
    requires FitModule(m, fs, After, session)
    ensures D.Map(RemoveSources(fs), unset) == D.Map(fs, unset)
  {
    hide FitBlock;
    hide D.Body;
    hide D.LinesOfBlock;
    hide D.LinesOfBlocks;
    hide RemoveFromBlock;
    var gs := RemoveSources(fs);
    forall n | 0 <= n < |fs|
      ensures D.LinesOfBlocks(gs[n].blocks, unset) == D.LinesOfBlocks(fs[n].blocks, unset)
    {
      assert FitFunction(m, fs[n], After, session);
      forall k | 0 <= k < |fs[n].blocks|
        ensures D.LinesOfBlock(gs[n].blocks[k], unset) == D.LinesOfBlock(fs[n].blocks[k], unset)
      {
        RemovedLines(m, fs[n], fs[n].name, k, fs[n].blocks[k], unset, session);
      }
      SameLines(gs[n].blocks, fs[n].blocks, unset);
    }
    SameBody(gs, fs, unset);
  }

  /** The map is printed once the intrinsics are gone; it is the map of the module that still had them. */
  lemma MapOfCleared(m: seq<Function>, first: nat, oracle: T.Oracle, unset: int)
    requires Program(m)
    ensures T.AllSinkArguments(Wrapped(m, first))
    ensures D.Map(Cleared(m, first, oracle), unset) == D.Map(T.TagAll(Wrapped(m, first), oracle), unset)
  {
    hide FitModule;
    hide Carries;
    hide Wrapped;
    hide D.Map;
    hide T.TagAll;
    hide RemoveSources;
    hide T.AllSinkArguments;
    var w := Wrapped(m, first);
    WrappedFits(m, first, false);
    WrappedSinkArguments(m, first);
    TagAllFits(m, w, oracle, false);
    RemovedMap(m, T.TagAll(w, oracle), unset, false);
  }

  /** The ids the map declares: unwrapped calls in program order, then each function's sinks from last to first. */
  lemma MapOrder(m: seq<Function>, first: nat, oracle: T.Oracle, unset: int)
    requires Program(m)
    ensures D.Nodes(D.Map(Cleared(m, first, oracle), unset)) == UnwrappedIds(m) + WrappedIds(m)
    ensures T.AllSinkArguments(Wrapped(m, first))
    ensures Ids(T.TagAll(Wrapped(m, first), oracle)) == Ids(Wrapped(m, first))
    ensures multiset(Ids(Wrapped(m, first))) == multiset(Ids(m))
  {
    hide FitModule;
    hide Carries;
    hide Erase;
    hide AddSources;
    hide WrapAll;
    hide InRange;
    hide AllLabelled;
    hide Fresh;
    hide Ids;
    hide NoIdsOutside;
    hide D.Map;
    hide D.Nodes;
    hide T.AllSinkArguments;
    hide T.TagAll;
    hide Cleared;
    var a, w := AddSources(m), Wrapped(m, first);
    WrappedSinkArguments(m, first);
    var t := T.TagAll(w, oracle);
    WrappedFits(m, first, false);
    TagAllFits(m, w, oracle, false);
    FitNoIds(m, t, After, false);
    FitNoIds(m, w, Between, false);
    ErasedIds(t);
    ErasedIds(w);
    T.EraseTagAll(w, oracle);
    D.DeclaredOnce(t, unset);
    MapOfCleared(m, first, oracle, unset);
    EmissionOrder(a, first);
    WholeOrder(m);
    IdsSurvive(m, first, oracle, 0, 0);
  }

  lemma WholeOrder(m: seq<Function>)
    requires InRange(m)
    ensures UnwrappedIds(AddSources(m)) == UnwrappedIds(m) && WrappedIds(AddSources(m)) == WrappedIds(m)
  {
    hide AddSourcesFunction;
    hide BlockInRange;
    hide UnwrappedIds;
    hide WrappedIds;
    TaggedOrder(m, |m|);
    assert m[..|m|] == m && AddSources(m)[..|m|] == AddSources(m);
  }

  /** If the analysis answers with inserted tags only, every edge leads from a declared sink to a declared source. */
  lemma MapJoinsDeclaredNodes(m: seq<Function>, first: nat, oracle: T.Oracle, unset: int, l: D.Line)
    requires Program(m)
    requires D.AnswersFrom(oracle, iset tag: int | Inserted(Wrapped(m, first), tag))
    requires l in D.Map(Cleared(m, first, oracle), unset) && l.EdgeLine?
    ensures var nodes := D.Nodes(D.Map(Cleared(m, first, oracle), unset));
            l.sink in nodes && l.source in nodes && IsSinkId(m, l.sink) && IsSourceId(m, l.source)
  {
    hide FitModule;
    hide Cleared;
    hide Carries;
    hide Wrapped;
    hide Ids;
    hide Program;
    hide Inserted;
    hide IsSourceId;
    hide IsSinkId;
    hide D.SinkIn;
    hide D.Map;
    hide D.Nodes;
    hide D.AnswersFrom;
    hide D.Untagged;
    hide T.AllSinkArguments;
    hide T.TagAll;
    var w := Wrapped(m, first);
    var known := iset tag: int | Inserted(w, tag);
    ProgramFits(m);
    WrappedFits(m, first, false);
    FitUntagged(m, w, Between, false);
    MapOrder(m, first, oracle, unset);
    MapOfCleared(m, first, oracle, unset);
    forall tag | tag in known
      ensures tag in Ids(T.TagAll(w, oracle))
    {
      InsertedIsSource(m, w, Between, tag, false);
      SourceIdsDeclared(m, tag);
      InBoth(Ids(m), Ids(w), tag);
    }
    D.MapClosed(w, oracle, known, unset, l);
    InsertedIsSource(m, w, Between, l.source, false);
    SinkIsOwn(m, w, Between, l.sink, false);
  }

  lemma InBoth(a: seq<int>, b: seq<int>, x: int)
    requires multiset(a) == multiset(b) && x in a
    ensures x in b
  {
    assert x in multiset(a);
  }
}
