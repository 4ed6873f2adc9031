/** From the unlabelled program and its configuration to the program the later passes start from. */
module FromSource {
  import opened Text
  import opened Metadata
  import opened CallSiteMetadata
  import opened Configuration
  import opened Ir
  import opened Erasure
  import opened WrapSinks
  import opened WrapMeaning
  import opened WrapOrder
  import opened AnnotateSources
  import opened AddLogging
  import opened LoggerSession
  import opened AddMetadata
  import opened NumberedCalls
  import opened Instrumentation
  import opened Pipeline
  import opened PipelineMap
  import T = TagResults

  /** A call of the unlabelled program; a configured callee gets the arguments it declares. */
  predicate SourceCall(fs: seq<Function>, lines: seq<string>, table: Table, i: Instr)
    requires IsDirectCall(i)
  {
    var name := i.callee.name;
    if IsIntrinsic(name) then i.dst.None? && name != ADD_TAG && name !in table
    else
      && !IsLogger(name) && !IsWrapperName(name)
      && Find(fs, name).Some? && Find(fs, name).value.sig.result == i.callee.sig.result
      && (name in table ==> WellConfigured(fs, lines, i) && (i.dst.None? ==> i.callee.sig.result.Void?))
  }

  predicate SourceInstr(fs: seq<Function>, lines: seq<string>, table: Table, i: Instr) {
    && (IsExtra(i) || IsProgramInstr(i))
    && (i.Call? ==> i.site.None? && i.tags.None?)
    && (IsDirectCall(i) ==> SourceCall(fs, lines, table, i))
  }

  ghost predicate SourceProgram(fs: seq<Function>, lines: seq<string>, table: Table) {
    && (forall n, k, j :: 0 <= n < |fs| && 0 <= k < |fs[n].blocks| && 0 <= j < |fs[n].blocks[k]| ==>
          SourceInstr(fs, lines, table, fs[n].blocks[k][j]))
    && (forall n, k :: 0 <= n < |fs| && 0 <= k < |fs[n].blocks| ==> EndsWell(fs[n].blocks[k]))
    && NoWrapperNames(fs)
  }

  /** `main` exists, has a body and is entered once. */
  ghost predicate SourceMain(fs: seq<Function>) {
    && (forall n, k, j :: 0 <= n < |fs| && 0 <= k < |fs[n].blocks| && 0 <= j < |fs[n].blocks[k]| ==>
          MainInstr(fs[n].name, k, fs[n].blocks[k][j]))
    && Find(fs, MAIN).Some? && MainsHaveBodies(fs)
  }

  lemma SourceUnlabelled(fs: seq<Function>, lines: seq<string>, table: Table)
    requires SourceProgram(fs, lines, table)
    ensures UnlabelledModule(fs) && WellConfiguredModule(fs, lines, table)
  {
    hide WellConfigured;
    hide IsProgramInstr;
    hide IsExtra;
    forall n, k | 0 <= n < |fs| && 0 <= k < |fs[n].blocks|
      ensures UnlabelledBlock(fs[n].blocks[k])
    {
      forall j | 0 <= j < |fs[n].blocks[k]|
        ensures Unlabelled(fs[n].blocks[k][j])
      {
        assert SourceInstr(fs, lines, table, fs[n].blocks[k][j]);
      }
    }
    forall n, k, j | 0 <= n < |fs| && 0 <= k < |fs[n].blocks| && 0 <= j < |fs[n].blocks[k]| &&
                     Eligible(table, fs[n].blocks[k][j])
      ensures WellConfigured(fs, lines, fs[n].blocks[k][j])
    {
      assert SourceInstr(fs, lines, table, fs[n].blocks[k][j]);
    }
  }

  lemma AnnotatedCarries(table: Table, walk: Walk, fs: seq<Function>)
    requires WalksTables(walk)
    ensures var m := AnnotateAll(table, walk, fs, 0);
            |m| == |fs| && (forall k :: 0 <= k < |fs| ==>
              m[k].name == fs[k].name && m[k].sig == fs[k].sig && |m[k].blocks| == |fs[k].blocks|) && Carries(fs, m)
  {
    hide WalksTables;
    hide AnnotateAll;
    hide AnnotateBlocks;
    hide CountAll;
    forall k | 0 <= k < |fs|
      ensures var g := AnnotateAll(table, walk, fs, 0)[k];
              g.name == fs[k].name && g.sig == fs[k].sig && |g.blocks| == |fs[k].blocks|
    {
      AnnotatedFunction(table, walk, fs, 0, k);
    }
  }

  /** Labelling a source instruction makes it fit. */
  lemma LabelledFits(fs: seq<Function>, lines: seq<string>, table: Table, m: seq<Function>, name: string, k: nat, i: Instr,
                     r: Instr, session: bool)
    requires SourceInstr(fs, lines, table, i) && Carries(fs, m) && (session ==> MainInstr(name, k, i))
    requires if Eligible(table, i) then r.Call? && r == i.(site := r.site) && SiteIn(m, r.site) else r == i
    requires IsSink(r) ==> |i.args| == |i.callee.sig.parameters|
    ensures Fit(m, name, k, r, Before, session)
  {
    hide Carries;
    hide WellConfigured;
    hide IsSink;
    hide IsProgramOperand;
    hide SiteIn;
    WellConfiguredCall(fs, lines, i);
    if i.Call? && i.callee.Direct? && !IsIntrinsic(i.callee.name) {
      CarriesFind(fs, m, i.callee.name);
    }
  }

  lemma WellConfiguredCall(fs: seq<Function>, lines: seq<string>, i: Instr)
    ensures WellConfigured(fs, lines, i) ==> IsDirectCall(i) && |i.args| < TWO_TO_THE_64
  {
  }

  lemma EligibleIsCall(table: Table, walk: Walk, i: Instr, c: nat)
    requires WalksTables(walk) && Eligible(table, i)
    ensures Annotate(table, walk, i, c).Call?
    ensures Annotate(table, walk, i, c) == i.(site := Annotate(table, walk, i, c).site)
  {
  }

  /** A numbered sink passes the arguments its callee declares. */
  lemma SinkArguments(fs: seq<Function>, lines: seq<string>, table: Table, walk: Walk, i: Instr, c: nat)
    requires WalksTables(walk) && Holds(table, fs, lines) && Eligible(table, i) && IsInt64(c)
    requires WellConfigured(fs, lines, i)
    ensures IsSink(Annotate(table, walk, i, c)) ==> |i.args| == |i.callee.sig.parameters|
  {
    hide WalksTables;
    hide Holds;
    hide Annotate;
    hide IsSink;
    hide Kind;
    SinkReadBack(fs, lines, table, walk, i, c);
  }

  lemma AnnotatedFits(fs: seq<Function>, lines: seq<string>, table: Table, walk: Walk, n: nat, p: Position, session: bool)
    requires WalksTables(walk) && Holds(table, fs, lines) && SourceProgram(fs, lines, table)
    requires IsInt64(CountAll(table, fs)) && (session ==> SourceMain(fs)) && n < |fs| && IsPosition(fs[n].blocks, p)
    ensures var m := AnnotateAll(table, walk, fs, 0);
            n < |m| && IsPosition(m[n].blocks, p) && Fit(m, fs[n].name, p.0, InstrAt(m[n].blocks, p), Before, session) &&
            (!InstrAt(fs[n].blocks, p).Call? ==> InstrAt(m[n].blocks, p) == InstrAt(fs[n].blocks, p))
  {
    hide WalksTables;
    hide Holds;
    hide AnnotateAll;
    hide Annotate;
    hide NumberBefore;
    hide CountAll;
    hide Fit;
    hide SourceInstr;
    hide Carries;
    hide MainInstr;
    hide IsSink;
    hide WellConfigured;
    var m, i := AnnotateAll(table, walk, fs, 0), InstrAt(fs[n].blocks, p);
    AnnotatedAt(table, walk, fs, 0, n, p);
    AnnotatedCarries(table, walk, fs);
    assert SourceInstr(fs, lines, table, i);
    var r := InstrAt(m[n].blocks, p);
    if Eligible(table, i) {
      var c := 0 + NumberBefore(table, fs, n, p);
      EligibleIsCall(table, walk, i, c);
      NumberInRange(table, fs, n, p, 0);
      EligibleWell(fs, lines, table, i);
      SinkArguments(fs, lines, table, walk, i, c);
      assert HasSite(r, r.site);
      assert SiteIn(m, r.site);
    } else {
      UnlabelledSource(fs, lines, table, i);
      UnlabelledInRange(i);
    }
    LabelledFits(fs, lines, table, m, fs[n].name, p.0, i, r, session);
  }

  lemma UnlabelledSource(fs: seq<Function>, lines: seq<string>, table: Table, i: Instr)
    requires SourceInstr(fs, lines, table, i)
    ensures Unlabelled(i)
  {
    hide WellConfigured;
    hide IsProgramInstr;
  }

  lemma EligibleWell(fs: seq<Function>, lines: seq<string>, table: Table, i: Instr)
    requires SourceInstr(fs, lines, table, i) && Eligible(table, i)
    ensures WellConfigured(fs, lines, i)
  {
    hide WellConfigured;
    hide IsProgramInstr;
  }

  lemma AnnotatedFitFunction(fs: seq<Function>, lines: seq<string>, table: Table, walk: Walk, n: nat, session: bool)
    requires WalksTables(walk) && Holds(table, fs, lines) && SourceProgram(fs, lines, table)
    requires IsInt64(CountAll(table, fs)) && (session ==> SourceMain(fs)) && n < |fs|
    ensures var m := AnnotateAll(table, walk, fs, 0); FitFunction(m, m[n], Before, session)
  {
    hide WalksTables;
    hide Holds;
    hide AnnotateAll;
    hide CountAll;
    hide Fit;
    hide SourceInstr;
    hide SourceMain;
    AnnotatedCarries(table, walk, fs);
    var m := AnnotateAll(table, walk, fs, 0);
    forall k | 0 <= k < |m[n].blocks|
      ensures FitBlock(m, m[n].name, k, m[n].blocks[k], Before, session) && EndsWell(m[n].blocks[k])
    {
      AnnotatedBlockLength(table, walk, fs, n, k);
      forall j | 0 <= j < |m[n].blocks[k]|
        ensures Fit(m, m[n].name, k, m[n].blocks[k][j], Before, session)
      {
        AnnotatedFits(fs, lines, table, walk, n, (k, j), session);
      }
      assert EndsWell(fs[n].blocks[k]);
      AnnotatedFits(fs, lines, table, walk, n, (k, |fs[n].blocks[k]| - 1), session);
    }
  }

  lemma AnnotatedBlockLength(table: Table, walk: Walk, fs: seq<Function>, n: nat, k: nat)
    requires WalksTables(walk) && n < |fs| && k < |fs[n].blocks|
    ensures var m := AnnotateAll(table, walk, fs, 0); k < |m[n].blocks| && |m[n].blocks[k]| == |fs[n].blocks[k]|
  {
    hide WalksTables;
    hide AnnotateAll;
    hide AnnotateBlocks;
    hide AnnotateBlock;
    AnnotatedFunction(table, walk, fs, 0, n);
    AnnotatedInBlocks(table, walk, fs[n].blocks, 0 + CountAll(table, fs[..n]), k);
  }

  lemma AnnotatedFitModule(fs: seq<Function>, lines: seq<string>, table: Table, walk: Walk, session: bool)
    requires WalksTables(walk) && Holds(table, fs, lines) && SourceProgram(fs, lines, table)
    requires IsInt64(CountAll(table, fs)) && (session ==> SourceMain(fs))
    ensures var m := AnnotateAll(table, walk, fs, 0); FitModule(m, m, Before, session)
  {
    hide WalksTables;
    hide Holds;
    hide AnnotateAll;
    hide CountAll;
    hide FitFunction;
    hide SourceProgram;
    hide SourceMain;
    AnnotatedCarries(table, walk, fs);
    var m := AnnotateAll(table, walk, fs, 0);
    forall n | 0 <= n < |m|
      ensures FitFunction(m, m[n], Before, session)
    {
      AnnotatedFitFunction(fs, lines, table, walk, n, session);
    }
  }

  /** Labelling a source program with a configuration that suits it gives a program the later passes can work with. */
  lemma LabelledProgram(fs: seq<Function>, lines: seq<string>, table: Table, walk: Walk)
    requires WalksTables(walk) && Holds(table, fs, lines) && SourceProgram(fs, lines, table)
    requires IsInt64(CountAll(table, fs))
    ensures Program(AnnotateAll(table, walk, fs, 0))
  {
    hide WalksTables;
    hide Holds;
    hide AnnotateAll;
    hide FitModule;
    hide SourceInstr;
    hide OutputsInRange;
    hide SourcesInRange;
    hide CountAll;
    hide UnlabelledModule;
    hide WellConfiguredModule;
    hide EndsWell;
    var m := AnnotateAll(table, walk, fs, 0);
    SourceUnlabelled(fs, lines, table);
    AnnotatedCarries(table, walk, fs);
    AnnotatedFitModule(fs, lines, table, walk, false);
    forall n, p | 0 <= n < |m| && IsPosition(m[n].blocks, p)
      ensures OutputsInRange(InstrAt(m[n].blocks, p)) && SourcesInRange(InstrAt(m[n].blocks, p))
    {
      AnnotatedBlockLength(table, walk, fs, n, p.0);
      AnnotatedInRange(fs, lines, table, walk, 0, n, p);
    }
    forall n, b | 0 <= n < |m| && 0 <= b < |m[n].blocks|
      ensures BlockInRange(m[n].blocks[b])
    {
      forall j | 0 <= j < |m[n].blocks[b]|
        ensures SourcesInRange(m[n].blocks[b][j])
      {
        assert IsPosition(m[n].blocks, (b, j)) && InstrAt(m[n].blocks, (b, j)) == m[n].blocks[b][j];
      }
    }
  }

  /** Labelling keeps a `main` that is entered once. */
  lemma LabelledMain(fs: seq<Function>, lines: seq<string>, table: Table, walk: Walk)
    requires WalksTables(walk) && Holds(table, fs, lines) && SourceProgram(fs, lines, table)
    requires IsInt64(CountAll(table, fs)) && SourceMain(fs)
    ensures StartsInMain(AnnotateAll(table, walk, fs, 0))
  {
    hide WalksTables;
    hide Holds;
    hide AnnotateAll;
    hide CountAll;
    hide FitModule;
    hide SourceProgram;
    AnnotatedCarries(table, walk, fs);
    CarriesFind(fs, AnnotateAll(table, walk, fs, 0), MAIN);
    AnnotatedFitModule(fs, lines, table, walk, true);
  }

  /** In the final module each number below the count of configured calls is the id of one call, and nothing else is. */
  lemma EachIdOnce(fs: seq<Function>, lines: seq<string>, table: Table, walk: Walk, first: nat, oracle: T.Oracle,
                   maxRecords: int, outputMode: int, id: int)
    requires WalksTables(walk) && Holds(table, fs, lines) && SourceProgram(fs, lines, table)
    requires IsInt64(CountAll(table, fs))
    ensures Program(AnnotateAll(table, walk, fs, 0))
    ensures multiset(Ids(Final(AnnotateAll(table, walk, fs, 0), first, oracle, maxRecords, outputMode)))[id] ==
            if 0 <= id < CountAll(table, fs) then 1 else 0
  {
    hide WalksTables;
    hide Holds;
    hide AnnotateAll;
    hide Program;
    hide Final;
    hide Ids;
    hide CountAll;
    hide UnlabelledModule;
    hide SourceProgram;
    SourceUnlabelled(fs, lines, table);
    LabelledProgram(fs, lines, table, walk);
    IdsAscend(table, walk, fs, 0);
    IdsSurvive(AnnotateAll(table, walk, fs, 0), first, oracle, maxRecords, outputMode);
    AscendingOnce(0, CountAll(table, fs), id);
  }

  lemma {:induction false} AscendingOnce(c: nat, n: nat, id: int)
    ensures multiset(Ascending(c, n))[id] == if c <= id < c + n then 1 else 0
  {
    if n > 0 {
      AscendingOnce(c, n - 1, id);
      assert Ascending(c, n) == Ascending(c, n - 1) + [c + n - 1];
    }
  }
}
