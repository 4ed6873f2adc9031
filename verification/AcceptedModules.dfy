/** Which instrumented modules LLVM accepts: those in which no cast left by tagging reads a result before its call. */
module AcceptedModules {
  import opened Text
  import opened Metadata
  import opened CallSiteMetadata
  import opened Configuration
  import opened Ir
  import opened Semantics
  import opened Erasure
  import opened WrapSinks
  import opened WrapMeaning
  import opened AnnotateSources
  import opened AddLogging
  import opened AddMetadata
  import opened NumberedCalls
  import opened Instrumentation
  import opened Pipeline
  import opened FromSource
  import opened EarlyCasts
  import T = TagResults

  // ---- The later passes keep reads and writes in their order ----

  ghost predicate SameItems(fs: seq<Function>, gs: seq<Function>) {
    |fs| == |gs| && forall n :: 0 <= n < |fs| ==> SameFunctionItems(fs[n], gs[n])
  }

  ghost predicate SameFunctionItems(f: Function, g: Function) {
    |f.blocks| == |g.blocks| && forall k :: 0 <= k < |f.blocks| ==> Items(f.blocks[k]) == Items(g.blocks[k])
  }

  lemma {:induction false} PointwiseItems(b: Block, c: Block)
    requires |b| == |c| && forall j :: 0 <= j < |b| ==> ItemOf(b[j]) == ItemOf(c[j])
    ensures Items(b) == Items(c)
  {
    hide ItemOf;
    if b != [] {
      PointwiseItems(b[..|b| - 1], c[..|c| - 1]);
    }
  }

  lemma TaggedItem(i: Instr, q: T.Query)
    requires T.SinkArguments(i)
    ensures ItemOf(T.TagInstr(i, q)) == ItemOf(i)
  {
    hide T.TagInstr;
    T.TagClean(i, q);
  }

  lemma AnswersKeepItems(fs: seq<Function>, oracle: T.Oracle)
    requires T.AllSinkArguments(fs)
    ensures SameItems(T.TagAll(fs, oracle), fs)
  {
    hide T.SinkArguments;
    hide T.TagInstr;
    hide Items;
    hide ItemOf;
    var gs := T.TagAll(fs, oracle);
    forall n | 0 <= n < |fs|
      ensures SameFunctionItems(gs[n], fs[n])
    {
      assert [fs[n]][0] == fs[n];
      forall k | 0 <= k < |fs[n].blocks|
        ensures Items(gs[n].blocks[k]) == Items(fs[n].blocks[k])
      {
        var b, q := fs[n].blocks[k], p => oracle(n, k, p);
        assert gs[n].blocks[k] == T.TagBlock(b, q);
        forall j | 0 <= j < |b|
          ensures ItemOf(T.TagBlock(b, q)[j]) == ItemOf(b[j])
        {
          TaggedItem(b[j], q);
        }
        PointwiseItems(T.TagBlock(b, q), b);
      }
    }
  }

  lemma {:induction false} RemovalKeepsBlock(f: Function, b: Block)
    requires forall j :: 0 <= j < |b| ==> VoidIntrinsic(b[j])
    ensures Items(RemoveFromBlock(f, b)) == Items(b)
  {
    hide ItemOf;
    hide VoidIntrinsic;
    hide IsRemovable;
    if b != [] {
      var init, i := b[..|b| - 1], b[|b| - 1];
      RemovalKeepsBlock(f, init);
      if IsRemovable(f, i) {
        RemovedItem(f, i);
        assert RemoveFromBlock(f, b) == RemoveFromBlock(f, init);
      } else {
        ItemsConcat(RemoveFromBlock(f, init), [i]);
        ItemsOne(i);
      }
    }
  }

  lemma RemovedItem(f: Function, i: Instr)
    requires IsRemovable(f, i) && VoidIntrinsic(i)
    ensures ItemOf(i) == []
  {
    hide IsUsed;
  }

  lemma RemovalKeepsItems(fs: seq<Function>)
    requires VoidIntrinsics(fs)
    ensures SameItems(RemoveSources(fs), fs)
  {
    hide VoidIntrinsic;
    hide RemoveFromBlock;
    hide Items;
    forall n | 0 <= n < |fs|
      ensures SameFunctionItems(RemoveSources(fs)[n], fs[n])
    {
      forall k | 0 <= k < |fs[n].blocks|
        ensures Items(RemoveFromBlock(fs[n], fs[n].blocks[k])) == Items(fs[n].blocks[k])
      {
        RemovalKeepsBlock(fs[n], fs[n].blocks[k]);
      }
    }
  }

  lemma LoggerCodeItems(i: Instr, isMain: bool)
    ensures Items(LogCode(i)) == [] && Items(ShutdownCode(i, isMain)) == []
  {
    hide LogId;
    NoItems(LogCode(i));
    NoItems(ShutdownCode(i, isMain));
  }

  lemma {:induction false} LoggingKeepsBlock(b: Block, isMain: bool)
    ensures Items(LogBlock(b, isMain)) == Items(b)
  {
    hide ItemOf;
    hide LogCode;
    hide ShutdownCode;
    if b != [] {
      var init, i := b[..|b| - 1], b[|b| - 1];
      LoggingKeepsBlock(init, isMain);
      PreviousItems(init);
      LoggerCodeItems(i, isMain);
      var done := LogBlock(init, isMain);
      ItemsConcat(done + Previous(init) + ShutdownCode(i, isMain), [i]);
      ItemsConcat(done + Previous(init), ShutdownCode(i, isMain));
      ItemsConcat(done, Previous(init));
      ItemsOne(i);
    }
  }

  lemma PreviousItems(b: Block)
    ensures Items(Previous(b)) == []
  {
    hide LogCode;
    if b != [] {
      LoggerCodeItems(b[|b| - 1], false);
    }
  }

  lemma InitKeepsBlock(b: Block, maxRecords: int, outputMode: int)
    ensures Items(InitBlock(b, maxRecords, outputMode)) == Items(b)
  {
    hide Items;
    InsertionPointInBlock(b);
    var at := FirstInsertionPoint(b);
    var call := InitCall(maxRecords, outputMode);
    ItemsConcat(b[..at] + [call], b[at..]);
    ItemsConcat(b[..at], [call]);
    ItemsConcat(b[..at], b[at..]);
    ItemsOne(call);
    assert b[..at] + b[at..] == b;
  }

  lemma LoggingKeepsItems(fs: seq<Function>, maxRecords: int, outputMode: int)
    ensures SameItems(Log(fs, maxRecords, outputMode), fs)
  {
    hide LogBlock;
    hide InitBlock;
    hide Items;
    var gs := Log(fs, maxRecords, outputMode);
    forall n | 0 <= n < |fs|
      ensures SameFunctionItems(gs[n], fs[n])
    {
      var f := fs[n];
      forall k | 0 <= k < |f.blocks|
        ensures Items(gs[n].blocks[k]) == Items(f.blocks[k])
      {
        if f.name == MAIN && k == 0 {
          InitKeepsBlock(f.blocks[0], maxRecords, outputMode);
          LoggingKeepsBlock(InitBlock(f.blocks[0], maxRecords, outputMode), true);
        } else {
          LoggingKeepsBlock(f.blocks[k], f.name == MAIN);
        }
      }
    }
  }

  lemma WrappingKeepsFunction(f: Function, c: nat)
    ensures SameFunctionItems(WrapFunction(f, c), f)
  {
    hide Items;
    hide ItemOf;
    hide WrapInstr;
    var g := WrapFunction(f, c);
    WrappedShape(f, c);
    forall k | 0 <= k < |f.blocks|
      ensures Items(g.blocks[k]) == Items(f.blocks[k])
    {
      forall j | 0 <= j < |f.blocks[k]|
        ensures ItemOf(g.blocks[k][j]) == ItemOf(f.blocks[k][j])
      {
        WrappedInstr(f, c, k, j);
        WrappedItem(f, c, k, j);
      }
      PointwiseItems(g.blocks[k], f.blocks[k]);
    }
  }

  lemma WrappedItem(f: Function, c: nat, k: nat, j: nat)
    requires IsPosition(f.blocks, (k, j))
    ensures ItemOf(WrapInstr(f.blocks, c, 0, (k, j))) == ItemOf(f.blocks[k][j])
  {
    hide OutputsOf;
    hide Sinks;
    hide Rank;
    hide WrapperName;
  }

  ghost predicate ReadsNothing(f: Function) {
    forall k :: 0 <= k < |f.blocks| ==> forall x :: x in Items(f.blocks[k]) ==> x.Writes?
  }

  lemma {:induction false} PreambleReadsNothing(sig: Signature, outputs: seq<int>)
    requires forall k :: 0 <= k < |outputs| ==> 0 <= outputs[k] < |sig.parameters|
    ensures forall j :: 0 <= j < |Preamble(sig, outputs)| ==> ItemOf(Preamble(sig, outputs)[j]) == []
  {
    if outputs != [] {
      PreambleReadsNothing(sig, outputs[..|outputs| - 1]);
    }
  }

  lemma WrapperReadsNothing(n: nat, i: Instr)
    requires IsSink(i) && OutputsInRange(i)
    ensures ReadsNothing(WrapperFunction(n, i))
  {
    hide OutputsOf;
    hide Preamble;
    hide WrapperName;
    hide Items;
    var pre, code := Preamble(i.callee.sig, OutputsOf(i)), Forwarded(i);
    PreambleReadsNothing(i.callee.sig, OutputsOf(i));
    NoItems(pre);
    ItemsConcat(pre, code);
    ItemsConcat([code[0]], [code[1]]);
    assert code == [code[0]] + [code[1]];
    ItemsOne(code[0]);
    ItemsOne(code[1]);
    ItemsOne(Jump(1));
    var g := WrapperFunction(n, i);
    assert g.blocks[0] == [Jump(1)] && g.blocks[1] == pre + code;
  }

  lemma WrappedItems(fs: seq<Function>, first: nat, n: nat)
    requires AllLabelled(fs) && n < |WrapAll(fs, first)|
    ensures |fs| <= |WrapAll(fs, first)|
    ensures if n < |fs| then SameFunctionItems(WrapAll(fs, first)[n], fs[n]) else ReadsNothing(WrapAll(fs, first)[n])
  {
    hide WrapFunction;
    hide WrapperFunction;
    hide Labelled;
    hide Bodies;
    hide Wrappers;
    hide Total;
    hide SameFunctionItems;
    hide ReadsNothing;
    hide IsSink;
    BodiesLength(fs, first);
    if n < |fs| {
      var c := BodyAt(fs, first, n);
      WrappingKeepsFunction(fs[n], c);
    } else {
      var k, p := SeparatedWrappers(fs, first, n - |fs|);
      WrapperReadsNothing(first + (n - |fs|), InstrAt(fs[k].blocks, p));
    }
  }

  // ---- The instrumented module ----

  lemma FinalItems(m: seq<Function>, first: nat, oracle: T.Oracle, maxRecords: int, outputMode: int, n: nat)
    requires Program(m) && n < |Wrapped(m, first)|
    ensures |Final(m, first, oracle, maxRecords, outputMode)| == |Wrapped(m, first)|
    ensures SameFunctionItems(Final(m, first, oracle, maxRecords, outputMode)[n], Wrapped(m, first)[n])
  {
    hide FitModule;
    hide Carries;
    hide Wrapped;
    hide Log;
    hide RemoveSources;
    hide T.TagAll;
    hide T.AllSinkArguments;
    hide Items;
    hide VoidIntrinsics;
    var w := Wrapped(m, first);
    ProgramModule(m);
    WrappedFits(m, first, false);
    WrappedSinkArguments(m, first);
    var t := T.TagAll(w, oracle);
    TagAllFits(m, w, oracle, false);
    FitVoid(m, t, After, false);
    AnswersKeepItems(w, oracle);
    RemovalKeepsItems(t);
    LoggingKeepsItems(RemoveSources(t), maxRecords, outputMode);
  }

  lemma ProgramModule(m: seq<Function>)
    requires Program(m)
    ensures FitModule(m, m, Before, false) && InRange(m)
  {
  }

  ghost predicate InOrderModule(m: seq<Function>) {
    forall n, k :: 0 <= n < |m| && 0 <= k < |m[n].blocks| ==> InOrder(m[n].blocks[k])
  }

  /** Some call's result is labelled as a source and has to be cast. */
  ghost predicate HasResultCast(m: seq<Function>) {
    exists n, k, j :: 0 <= n < |m| && 0 <= k < |m[n].blocks| && 0 <= j < |m[n].blocks[k]| && ResultCast(m[n].blocks[k][j])
  }

  lemma FinalBlock(m: seq<Function>, first: nat, oracle: T.Oracle, maxRecords: int, outputMode: int, n: nat, k: nat)
    requires Program(m) && InOrderModule(m) && n < |m| && k < |m[n].blocks|
    ensures var fs := Final(m, first, oracle, maxRecords, outputMode);
            && n < |fs| && |fs[n].blocks| == |m[n].blocks|
            && (Early(fs[n].blocks[k]) <==> exists j :: 0 <= j < |m[n].blocks[k]| && ResultCast(m[n].blocks[k][j]))
  {
    hide FitModule;
    hide Final;
    hide WrapAll;
    hide AddSourcesBlock;
    hide TaggedItems;
    hide BlockInRange;
    hide Items;
    hide Early;
    hide EarlyItems;
    hide InOrder;
    hide ResultCast;
    hide AllLabelled;
    hide Fresh;
    hide Carries;
    var a, w := AddSources(m), Wrapped(m, first);
    ProgramModule(m);
    WrappedFits(m, first, false);
    FinalSize(m, first, oracle, maxRecords, outputMode);
    WrappedItems(a, first, n);
    FinalItems(m, first, oracle, maxRecords, outputMode, n);
    assert [m[n]][0] == m[n];
    var b := m[n].blocks[k];
    assert BlockInRange(b) && a[n].blocks[k] == AddSourcesBlock(b);
    TaggedItemsAre(b);
    TaggedEarly(b);
    EarlyIs(Final(m, first, oracle, maxRecords, outputMode)[n].blocks[k]);
  }

  lemma WrapperNotEarly(m: seq<Function>, first: nat, oracle: T.Oracle, maxRecords: int, outputMode: int, n: nat, k: nat)
    requires Program(m) && |m| <= n < |Final(m, first, oracle, maxRecords, outputMode)|
    requires k < |Final(m, first, oracle, maxRecords, outputMode)[n].blocks|
    ensures !Early(Final(m, first, oracle, maxRecords, outputMode)[n].blocks[k])
  {
    hide FitModule;
    hide Final;
    hide WrapAll;
    hide Items;
    hide Early;
    hide AllLabelled;
    hide Fresh;
    hide Carries;
    hide AddSourcesFunction;
    var fs := Final(m, first, oracle, maxRecords, outputMode);
    ProgramModule(m);
    WrappedFits(m, first, false);
    FinalSize(m, first, oracle, maxRecords, outputMode);
    WrappedItems(AddSources(m), first, n);
    FinalItems(m, first, oracle, maxRecords, outputMode, n);
    EarlyIs(fs[n].blocks[k]);
    WritesNotEarly(Items(fs[n].blocks[k]));
  }

  lemma WritesNotEarly(s: seq<Item>)
    requires forall x :: x in s ==> x.Writes?
    ensures !EarlyItems(s)
  {
    forall j | 0 <= j < |s|
      ensures s[j].Writes?
    {
      assert s[j] in s;
    }
  }

  lemma FinalSize(m: seq<Function>, first: nat, oracle: T.Oracle, maxRecords: int, outputMode: int)
    requires Program(m)
    ensures |Final(m, first, oracle, maxRecords, outputMode)| == |Wrapped(m, first)|
    ensures |m| <= |Wrapped(m, first)|
  {
    hide FitModule;
    hide Wrapped;
    hide LogFunction;
    hide RemoveFromFunction;
    hide T.TagFunction;
    WrappedFits(m, first, false);
    WrappedSinkArguments(m, first);
  }

  /**
    * LLVM finds a cast in front of the call whose result it reads, and so refuses the instrumented module, exactly if some
    * call of the program has its result labelled as a source and returns something else than a byte pointer.
    */
  lemma RefusedExactly(m: seq<Function>, first: nat, oracle: T.Oracle, maxRecords: int, outputMode: int)
    requires Program(m) && InOrderModule(m)
    ensures HasEarly(Final(m, first, oracle, maxRecords, outputMode)) <==> HasResultCast(m)
  {
    hide FitModule;
    hide Final;
    hide Early;
    hide ResultCast;
    hide InOrder;
    var fs := Final(m, first, oracle, maxRecords, outputMode);
    if HasEarly(fs) {
      var n, k :| 0 <= n < |fs| && 0 <= k < |fs[n].blocks| && Early(fs[n].blocks[k]);
      if n < |m| {
        FinalCarries(m, first, oracle, maxRecords, outputMode, n);
        FinalBlock(m, first, oracle, maxRecords, outputMode, n, k);
      } else {
        WrapperNotEarly(m, first, oracle, maxRecords, outputMode, n, k);
        assert false;
      }
    }
    if HasResultCast(m) {
      var n, k, j :| 0 <= n < |m| && 0 <= k < |m[n].blocks| && 0 <= j < |m[n].blocks[k]| && ResultCast(m[n].blocks[k][j]);
      FinalBlock(m, first, oracle, maxRecords, outputMode, n, k);
      assert Early(fs[n].blocks[k]);
    }
  }

  lemma FinalCarries(m: seq<Function>, first: nat, oracle: T.Oracle, maxRecords: int, outputMode: int, n: nat)
    requires Program(m) && n < |m|
    ensures n < |Final(m, first, oracle, maxRecords, outputMode)|
    ensures |Final(m, first, oracle, maxRecords, outputMode)[n].blocks| == |m[n].blocks|
  {
    hide FitModule;
    hide Wrapped;
    hide Items;
    hide Final;
    WrappedFits(m, first, false);
    FinalItems(m, first, oracle, maxRecords, outputMode, n);
  }

  /** The instrumented module reads no result before its call and runs like the program exactly if no result has to be cast. */
  lemma WorksExactly(m: seq<Function>, first: nat, oracle: T.Oracle, maxRecords: int, outputMode: int, env: Environment,
                     entry: string, args: seq<Value>)
    requires Program(m) && InOrderModule(m) && NoWrapperTargets(env, first) && Find(m, entry).Some?
    ensures !HasEarly(Final(m, first, oracle, maxRecords, outputMode)) &&
            SameRuns(m, Final(m, first, oracle, maxRecords, outputMode), env, entry, args)
            <==> !HasResultCast(m)
  {
    hide *;
    RefusedExactly(m, first, oracle, maxRecords, outputMode);
    InstrumentationPreservesMeaning(m, first, oracle, maxRecords, outputMode, env, entry, args);
  }

  // ---- In terms of the configuration ----

  /** The configuration makes a source of the call's result, which is no byte pointer. */
  predicate ResultSource(fs: seq<Function>, lines: seq<string>, i: Instr)
    requires IsDirectCall(i)
  {
    Kind(fs, lines, i.callee.name, 0) == Some(true) && i.dst.Some? && i.callee.sig.result != BytePointer
  }

  lemma ResultCastReadBack(fs: seq<Function>, lines: seq<string>, table: Table, walk: Walk, i: Instr, c: nat)
    requires WalksTables(walk) && Holds(table, fs, lines) && Eligible(table, i) && Fits(i, c)
    ensures ResultCast(Annotate(table, walk, i, c)) <==> ResultSource(fs, lines, i)
  {
    hide SiteNode;
    hide LabelMap;
    hide Kind;
    hide Holds;
    hide WalksTables;
    hide RoleAt;
    hide ArgumentCount;
    RolesReadBack(fs, lines, table, walk, i, c);
    var r := Annotate(table, walk, i, c);
    if Kind(fs, lines, i.callee.name, 0) == Some(true) {
      var slot :| 0 <= slot < ArgumentCount(r.site) && RoleAt(r.site, slot) == Some(Role(slot, 0, true));
      assert ResultAt(r, slot);
    }
  }

  /** Some call of the unlabelled program is configured so. */
  ghost predicate HasResultSource(fs: seq<Function>, lines: seq<string>, table: Table) {
    exists n: nat, p: Position ::
      n < |fs| && IsPosition(fs[n].blocks, p) && IsResultSource(fs, lines, table, InstrAt(fs[n].blocks, p))
  }

  predicate IsResultSource(fs: seq<Function>, lines: seq<string>, table: Table, i: Instr) {
    Eligible(table, i) && ResultSource(fs, lines, i)
  }

  lemma ResultCastAt(fs: seq<Function>, lines: seq<string>, table: Table, walk: Walk, n: nat, p: Position)
    requires WalksTables(walk) && Holds(table, fs, lines) && SourceProgram(fs, lines, table)
    requires IsInt64(CountAll(table, fs)) && n < |fs| && IsPosition(fs[n].blocks, p)
    ensures var m := AnnotateAll(table, walk, fs, 0);
            && n < |m| && |m[n].blocks| == |fs[n].blocks| && IsPosition(m[n].blocks, p)
            && |m[n].blocks[p.0]| == |fs[n].blocks[p.0]|
            && (ResultCast(InstrAt(m[n].blocks, p)) <==> IsResultSource(fs, lines, table, InstrAt(fs[n].blocks, p)))
  {
    hide WalksTables;
    hide Holds;
    hide AnnotateAll;
    hide Annotate;
    hide NumberBefore;
    hide CountAll;
    hide SourceInstr;
    hide ResultCast;
    hide ResultSource;
    hide WellConfigured;
    var i := InstrAt(fs[n].blocks, p);
    AnnotatedAt(table, walk, fs, 0, n, p);
    AnnotatedCarries(table, walk, fs);
    AnnotatedBlockLength(table, walk, fs, n, p.0);
    assert SourceInstr(fs, lines, table, i);
    if Eligible(table, i) {
      NumberInRange(table, fs, n, p, 0);
      EligibleWell(fs, lines, table, i);
      WellConfiguredCall(fs, lines, i);
      ResultCastReadBack(fs, lines, table, walk, i, 0 + NumberBefore(table, fs, n, p));
    } else {
      UnlabelledSource(fs, lines, table, i);
      UnlabelledResult(i);
    }
  }

  lemma UnlabelledResult(i: Instr)
    requires Unlabelled(i)
    ensures !ResultCast(i)
  {
  }

  lemma ResultCastsConfigured(fs: seq<Function>, lines: seq<string>, table: Table, walk: Walk)
    requires WalksTables(walk) && Holds(table, fs, lines) && SourceProgram(fs, lines, table) && IsInt64(CountAll(table, fs))
    ensures HasResultCast(AnnotateAll(table, walk, fs, 0)) <==> HasResultSource(fs, lines, table)
  {
    hide WalksTables;
    hide Holds;
    hide AnnotateAll;
    hide CountAll;
    hide SourceProgram;
    hide ResultCast;
    hide IsResultSource;
    var m := AnnotateAll(table, walk, fs, 0);
    AnnotatedCarries(table, walk, fs);
    if HasResultCast(m) {
      var n, k, j :| 0 <= n < |m| && 0 <= k < |m[n].blocks| && 0 <= j < |m[n].blocks[k]| && ResultCast(m[n].blocks[k][j]);
      AnnotatedBlockLength(table, walk, fs, n, k);
      ResultCastAt(fs, lines, table, walk, n, (k, j));
      assert IsPosition(fs[n].blocks, (k, j)) && IsResultSource(fs, lines, table, InstrAt(fs[n].blocks, (k, j)));
    }
    if HasResultSource(fs, lines, table) {
      var n: nat, p: Position :|
        n < |fs| && IsPosition(fs[n].blocks, p) && IsResultSource(fs, lines, table, InstrAt(fs[n].blocks, p));
      ResultCastAt(fs, lines, table, walk, n, p);
      assert ResultCast(m[n].blocks[p.0][p.1]);
    }
  }

  predicate SameOperands(i: Instr, o: Instr) {
    if i.Call? then o.Call? && o.dst == i.dst && o.args == i.args else o == i
  }

  lemma OperandsStay(fs: seq<Function>, table: Table, walk: Walk, n: nat, p: Position)
    requires WalksTables(walk) && n < |fs| && IsPosition(fs[n].blocks, p)
    requires |AnnotateAll(table, walk, fs, 0)| == |fs|
    requires IsPosition(AnnotateAll(table, walk, fs, 0)[n].blocks, p)
    ensures SameOperands(InstrAt(fs[n].blocks, p), InstrAt(AnnotateAll(table, walk, fs, 0)[n].blocks, p))
  {
    hide AnnotateAll;
    hide SiteNode;
    hide NumberBefore;
    hide WalksTables;
    AnnotatedAt(table, walk, fs, 0, n, p);
  }

  lemma OrderOfOperands(b: Block, c: Block)
    requires |b| == |c| && InOrder(b) && forall j :: 0 <= j < |b| ==> SameOperands(b[j], c[j])
    ensures InOrder(c)
  {
    forall j | 0 <= j < |c|
      ensures SameOperands(b[j], c[j])
    {
    }
    forall j, l | 0 <= j <= l < |c| && c[j].Call? && c[l].Call? && c[l].dst.Some?
      ensures !Passes(c[j], c[l].dst.value)
    {
      assert !Passes(b[j], b[l].dst.value);
    }
  }

  /** Labelling leaves the order of the program's instructions alone. */
  lemma LabelledInOrder(fs: seq<Function>, table: Table, walk: Walk)
    requires WalksTables(walk) && InOrderModule(fs)
    ensures InOrderModule(AnnotateAll(table, walk, fs, 0))
  {
    hide AnnotateAll;
    hide InOrder;
    hide SameOperands;
    hide WalksTables;
    var m := AnnotateAll(table, walk, fs, 0);
    AnnotatedCarries(table, walk, fs);
    forall n, k | 0 <= n < |m| && 0 <= k < |m[n].blocks|
      ensures InOrder(m[n].blocks[k])
    {
      AnnotatedBlockLength(table, walk, fs, n, k);
      forall j | 0 <= j < |fs[n].blocks[k]|
        ensures SameOperands(fs[n].blocks[k][j], m[n].blocks[k][j])
      {
        OperandsStay(fs, table, walk, n, (k, j));
      }
      OrderOfOperands(fs[n].blocks[k], m[n].blocks[k]);
    }
  }

  /** The configurations for which LLVM refuses the instrumented module, exactly. */
  lemma RefusedConfigurations(fs: seq<Function>, lines: seq<string>, table: Table, walk: Walk, first: nat, oracle: T.Oracle,
                              maxRecords: int, outputMode: int)
    requires WalksTables(walk) && Holds(table, fs, lines) && SourceProgram(fs, lines, table)
    requires IsInt64(CountAll(table, fs)) && InOrderModule(fs)
    ensures Program(AnnotateAll(table, walk, fs, 0))
    ensures HasEarly(Final(AnnotateAll(table, walk, fs, 0), first, oracle, maxRecords, outputMode)) <==>
            HasResultSource(fs, lines, table)
  {
    hide *;
    LabelledProgram(fs, lines, table, walk);
    LabelledInOrder(fs, table, walk);
    ResultCastsConfigured(fs, lines, table, walk);
    RefusedExactly(AnnotateAll(table, walk, fs, 0), first, oracle, maxRecords, outputMode);
  }
}
