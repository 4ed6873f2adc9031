/** The dependency map in terms of the configuration and the analysis: whose edges are printed, and where they lead. */
module ConfiguredMap {
  import opened Text
  import opened Metadata
  import opened CallSiteMetadata
  import opened Configuration
  import opened Ir
  import opened Erasure
  import opened WrapSinks
  import opened WrapOrder
  import opened AnnotateSources
  import opened AddMetadata
  import opened NumberedCalls
  import opened Instrumentation
  import opened Pipeline
  import opened PipelineMap
  import opened FromSource
  import opened LabelledParameters
  import opened IntrinsicCalls
  import opened WrapperMarks
  import opened SinkAnswers
  import opened MapEdges
  import T = TagResults
  import D = DependencyMap
  import F = Forwarding

  // ---- A module with any labels ----

  /** What the analysis is asked in a block of a function. */
  function QueryAt(oracle: T.Oracle, f: nat, b: nat): T.Query {
    (v: Operand) => oracle(f, b, v)
  }

  /** All answers are 64-bit numbers, as the analysis' tags are. */
  ghost predicate OracleFits(oracle: T.Oracle) {
    forall f: nat, b: nat, v :: oracle(f, b, v).Some? ==> D.Int64s(oracle(f, b, v).value)
  }

  lemma QueryFits(oracle: T.Oracle, f: nat, b: nat)
    requires OracleFits(oracle)
    ensures D.Answers64(QueryAt(oracle, f, b))
  {
  }

  /** Each instruction is asked about with the function and the block it stands in. */
  lemma TaggedInstr(fs: seq<Function>, oracle: T.Oracle, f: nat, p: Position)
    requires T.AllSinkArguments(fs) && f < |fs|
    ensures var gs := T.TagAll(fs, oracle);
            |gs| == |fs| && (IsPosition(gs[f].blocks, p) <==> IsPosition(fs[f].blocks, p)) &&
            (IsPosition(fs[f].blocks, p) ==>
               T.SinkArguments(InstrAt(fs[f].blocks, p)) &&
               InstrAt(gs[f].blocks, p) == T.TagInstr(InstrAt(fs[f].blocks, p), QueryAt(oracle, f, p.0)))
  {
    hide T.SinkArguments;
    hide T.TagInstr;
    assert [fs[f]][0] == fs[f];
  }

  /** The arguments that a call's labels make sinks, in the order of the labels. */
  function SinkParameters(i: Instr): seq<nat>
    requires i.Call?
  {
    LabelledAs(i.site, ArgumentCount(i.site), false)
  }

  /** A sink with this id, whose arguments' tags are all known and contain `source`. */
  ghost predicate Owes(i: Instr, q: T.Query, sink: int, source: int) {
    && SiteOf(i) == Some(sink)
    && (forall k :: k in SinkParameters(i) ==> AnswerFor(i, q, k).Some?)
    && exists k :: k in SinkParameters(i) && source in AnswerFor(i, q, k).value
  }

  lemma {:induction false} FlatMember<X>(ks: seq<nat>, piece: nat -> seq<X>, x: X)
    ensures x in Flat(ks, piece) <==> exists k :: k in ks && x in piece(k)
  {
    if ks != [] {
      var n := |ks| - 1;
      FlatMember(ks[..n], piece, x);
      assert ks == ks[..n] + [ks[n]];
    }
  }

  lemma NeedsId(i: Instr, q: T.Query)
    requires T.SinkArguments(i) && (i.Call? ==> i.tags.None?)
    ensures TagsNeedId(T.TagInstr(i, q)) && SiteOf(T.TagInstr(i, q)) == SiteOf(i)
  {
    hide T.OutputAt;
    hide T.AllKnown;
    hide T.Answers;
    hide GetSiteId;
    if i.Call? {
      D.NoOutputs(i, ArgumentCount(i.site), q);
    }
  }

  /** The edges printed for an instruction are those it owes. */
  lemma EdgeOfInstr(i: Instr, q: T.Query, unset: int, sink: int, source: int)
    requires T.SinkArguments(i) && (i.Call? ==> i.tags.None?) && D.Answers64(q)
    ensures D.EdgeLine(sink, source) in D.LinesOf(T.TagInstr(i, q), unset) <==> Owes(i, q, sink, source)
  {
    hide D.LinesOf;
    hide D.GetTags;
    hide T.TagInstr;
    hide T.SinkArguments;
    hide D.Answers64;
    hide GetSiteId;
    hide LabelledAs;
    hide Flat;
    hide AnswerFor;
    var r := T.TagInstr(i, q);
    NeedsId(i, q);
    SourcesOfInstr(r, unset, sink);
    SourcesMember(D.LinesOf(r, unset), sink, source);
    if IsDirectCall(i) {
      var ks := SinkParameters(i);
      TagsOfCall(i, q);
      FlatMember(ks, AnswerPieces(i, q), source);
    }
  }

  ghost predicate OwesAt(fs: seq<Function>, oracle: T.Oracle, f: nat, p: Position, sink: int, source: int) {
    f < |fs| && IsPosition(fs[f].blocks, p) && Owes(InstrAt(fs[f].blocks, p), QueryAt(oracle, f, p.0), sink, source)
  }

  /** An edge is printed exactly if some call owes it. */
  lemma EdgePrinted(fs: seq<Function>, oracle: T.Oracle, unset: int, sink: int, source: int)
    requires T.AllSinkArguments(fs) && D.Untagged(fs) && OracleFits(oracle)
    ensures D.EdgeLine(sink, source) in D.Map(T.TagAll(fs, oracle), unset) <==>
            exists f: nat, p: Position :: OwesAt(fs, oracle, f, p, sink, source)
  {
    hide D.LinesOf;
    hide D.Body;
    hide T.TagAll;
    hide T.SinkArguments;
    hide OracleFits;
    hide Owes;
    var gs, l := T.TagAll(fs, oracle), D.EdgeLine(sink, source);
    if l in D.Map(gs, unset) {
      var f, p := D.LineInBody(gs, l, unset);
      assert |gs| == |fs| by {
        SameLength(fs, oracle);
      }
      TaggedInstr(fs, oracle, f, p);
      QueryFits(oracle, f, p.0);
      EdgeOfInstr(InstrAt(fs[f].blocks, p), QueryAt(oracle, f, p.0), unset, sink, source);
      assert OwesAt(fs, oracle, f, p, sink, source);
    }
    if f: nat, p: Position :| OwesAt(fs, oracle, f, p, sink, source) {
      TaggedInstr(fs, oracle, f, p);
      QueryFits(oracle, f, p.0);
      EdgeOfInstr(InstrAt(fs[f].blocks, p), QueryAt(oracle, f, p.0), unset, sink, source);
      D.LineOfInstr(gs, f, p, l, unset);
    }
  }

  lemma SameLength(fs: seq<Function>, oracle: T.Oracle)
    requires T.AllSinkArguments(fs)
    ensures |T.TagAll(fs, oracle)| == |fs|
  {
    hide T.SinkArguments;
    hide T.TagFunction;
  }

  // ---- The configured program ----

  /** A sink's call in its wrapper gets the analysis' answers for the wrapper's own parameters. */
  lemma SinksAnswered(fs: seq<Function>, lines: seq<string>, table: Table, walk: Walk, first: nat, oracle: T.Oracle, n: nat,
                      p: Position) returns (q: Position, w: nat, j: nat)
    requires WalksTables(walk) && Holds(table, fs, lines) && SourceProgram(fs, lines, table) && IsInt64(CountAll(table, fs))
    requires n < |fs| && IsPosition(fs[n].blocks, p) && ConfiguredSink(fs, lines, table, InstrAt(fs[n].blocks, p))
    requires OracleFits(oracle)
    ensures Program(AnnotateAll(table, walk, fs, 0))
    ensures T.AllSinkArguments(Wrapped(AnnotateAll(table, walk, fs, 0), first))
    ensures var i, gs := InstrAt(fs[n].blocks, p), Wrapped(AnnotateAll(table, walk, fs, 0), first);
            var ts := T.TagAll(gs, oracle);
            && |fs| <= w < |gs| == |ts| && IsPosition(gs[w].blocks, (1, j)) && IsPosition(ts[w].blocks, (1, j))
            && CallsWrapper(gs, n, p.0, q, w, i)
            && var x, y := InstrAt(gs[w].blocks, (1, j)), InstrAt(ts[w].blocks, (1, j));
               && SiteOf(y) == Some(NumberBefore(table, fs, n, p) as int)
               && x.Call? && x.callee == i.callee && x.args == F.ForwardedArgs(i.callee.sig) && |x.args| == |i.args|
               && GetsAnswers(fs, lines, i.callee.name, x, QueryAt(oracle, w, 1), y)
  {
    hide WalksTables;
    hide Holds;
    hide AnnotateAll;
    hide Annotate;
    hide NumberBefore;
    hide CountAll;
    hide SourceInstr;
    hide Kind;
    hide Program;
    hide WellConfigured;
    hide Wrapped;
    hide OracleFits;
    hide CallsIntrinsics;
    hide GetsAnswers;
    hide GetSiteId;
    hide T.TagAll;
    hide T.TagInstr;
    hide T.SinkArguments;
    hide D.Answers64;
    var code;
    q, w, code := SinksWrapped(fs, lines, table, walk, first, n, p);
    j := |code|;
    var m, i, c := AnnotateAll(table, walk, fs, 0), InstrAt(fs[n].blocks, p), NumberBefore(table, fs, n, p);
    var gs := Wrapped(m, first);
    WrappedSinkArguments(m, first);
    LabelledSink(fs, lines, table, walk, n, p);
    SinkShape(fs, lines, table, i);
    TaggedInstr(gs, oracle, w, (1, j));
    QueryFits(oracle, w, 1);
    var x := InstrAt(gs[w].blocks, (1, j));
    ConfiguredAnswers(fs, lines, table, walk, i, c, x, QueryAt(oracle, w, 1));
    NeedsId(x, QueryAt(oracle, w, 1));
  }

  /** The call at `q` goes to function `w`, which is found under its name. */
  predicate CallsWrapper(gs: seq<Function>, n: nat, block: nat, q: Position, w: nat, i: Instr) {
    && n < |gs| && w < |gs| && q.0 == block && IsPosition(gs[n].blocks, q) && IsDirectCall(i)
    && InstrAt(gs[n].blocks, q) == Call(i.dst, Direct(gs[w].name, i.callee.sig), i.args, None, None)
    && Find(gs, gs[w].name) == Some(gs[w])
  }

  lemma SinkShape(fs: seq<Function>, lines: seq<string>, table: Table, i: Instr)
    requires SourceInstr(fs, lines, table, i) && ConfiguredSink(fs, lines, table, i)
    ensures |i.args| == |i.callee.sig.parameters|
  {
    hide Kind;
    hide IsProgramInstr;
    hide IsExtra;
  }

  // ---- The printed map ----

  /** The analysis' answer for parameter `k`, counted from 1, of function `w` at the end of its body. */
  function WrapperAnswer(oracle: T.Oracle, w: nat, sig: Signature, k: nat): Option<seq<int>> {
    if 1 <= k <= |sig.parameters| then oracle(w, 1, Argument(k - 1, sig.parameters[k - 1])) else None
  }

  function WrapperPieces(oracle: T.Oracle, w: nat, sig: Signature): nat -> seq<int> {
    (k: nat) => match WrapperAnswer(oracle, w, sig, k) case Some(tags) => tags case None => []
  }

  lemma WrapperAnswers(x: Instr, oracle: T.Oracle, w: nat, sig: Signature, ks: seq<nat>)
    requires x.Call? && x.args == F.ForwardedArgs(sig)
    ensures forall k: nat :: AnswerFor(x, QueryAt(oracle, w, 1), k) == WrapperAnswer(oracle, w, sig, k)
    ensures Flat(ks, AnswerPieces(x, QueryAt(oracle, w, 1))) == Flat(ks, WrapperPieces(oracle, w, sig))
  {
    FlatSame(ks, AnswerPieces(x, QueryAt(oracle, w, 1)), WrapperPieces(oracle, w, sig));
  }

  lemma TaggedNeedIds(fs: seq<Function>, oracle: T.Oracle)
    requires T.AllSinkArguments(fs) && D.Untagged(fs)
    ensures TagsNeedIds(T.TagAll(fs, oracle))
  {
    hide T.TagAll;
    hide T.SinkArguments;
    hide T.TagInstr;
    hide TagsNeedId;
    var gs := T.TagAll(fs, oracle);
    SameLength(fs, oracle);
    forall n, k, j | 0 <= n < |gs| && 0 <= k < |gs[n].blocks| && 0 <= j < |gs[n].blocks[k]|
      ensures TagsNeedId(gs[n].blocks[k][j])
    {
      assert IsPosition(gs[n].blocks, (k, j));
      TaggedInstr(fs, oracle, n, (k, j));
      NeedsId(InstrAt(fs[n].blocks, (k, j)), QueryAt(oracle, n, k));
    }
  }

  lemma WrappedUntagged(m: seq<Function>, first: nat)
    requires Program(m)
    ensures T.AllSinkArguments(Wrapped(m, first)) && D.Untagged(Wrapped(m, first))
  {
    hide FitModule;
    hide Wrapped;
    hide T.AllSinkArguments;
    hide D.Untagged;
    ProgramFits(m);
    WrappedFits(m, first, false);
    WrappedSinkArguments(m, first);
    FitUntagged(m, Wrapped(m, first), Between, false);
  }

  /** In the analysed module, too, each number below the count of configured calls is the id of one call. */
  lemma AnalysedIds(fs: seq<Function>, lines: seq<string>, table: Table, walk: Walk, first: nat, oracle: T.Oracle, id: int)
    requires WalksTables(walk) && Holds(table, fs, lines) && SourceProgram(fs, lines, table) && IsInt64(CountAll(table, fs))
    ensures Program(AnnotateAll(table, walk, fs, 0))
    ensures T.AllSinkArguments(Wrapped(AnnotateAll(table, walk, fs, 0), first))
    ensures multiset(Ids(T.TagAll(Wrapped(AnnotateAll(table, walk, fs, 0), first), oracle)))[id] ==
            if 0 <= id < CountAll(table, fs) then 1 else 0
  {
    hide *;
    EachIdOnce(fs, lines, table, walk, first, oracle, 0, 0, id);
    IdsSurvive(AnnotateAll(table, walk, fs, 0), first, oracle, 0, 0);
    MapOrder(AnnotateAll(table, walk, fs, 0), first, oracle, 0);
  }

  /** The answers for some of a function's parameters, one after the other, if all are known. */
  function SinkTags(oracle: T.Oracle, w: nat, sig: Signature, ks: seq<nat>): seq<int> {
    if forall k :: k in ks ==> WrapperAnswer(oracle, w, sig, k).Some? then Flat(ks, WrapperPieces(oracle, w, sig)) else []
  }

  lemma AnswersRead(fs: seq<Function>, lines: seq<string>, name: string, x: Instr, oracle: T.Oracle, w: nat, sig: Signature,
                    y: Instr) returns (ks: seq<nat>)
    requires x.Call? && x.args == F.ForwardedArgs(sig) && GetsAnswers(fs, lines, name, x, QueryAt(oracle, w, 1), y)
    ensures Enumerates(ks, fs, lines, name, |x.args|, false) && y.Call? && D.GetTags(y.tags) == SinkTags(oracle, w, sig, ks)
  {
    hide Enumerates;
    hide Flat;
    hide D.GetTags;
    ks :| Enumerates(ks, fs, lines, name, |x.args|, false) && Answered(x, QueryAt(oracle, w, 1), y, ks);
    WrapperAnswers(x, oracle, w, sig, ks);
    assert ks == [] ==> Flat(ks, WrapperPieces(oracle, w, sig)) == [] by {
      NoPieces(WrapperPieces(oracle, w, sig));
    }
  }

  lemma NoPieces(piece: nat -> seq<int>)
    ensures Flat([], piece) == []
  {
  }

  /**
    * The edges printed for a call that the configuration makes a sink lead, parameter after parameter, to the tags the
    * analysis knows for the configured parameters of the call's wrapper, if it knows them all; otherwise there are none.
    */
  lemma EdgesOfSink(fs: seq<Function>, lines: seq<string>, table: Table, walk: Walk, first: nat, oracle: T.Oracle, n: nat,
                    p: Position, unset: int) returns (q: Position, w: nat, ks: seq<nat>)
    requires WalksTables(walk) && Holds(table, fs, lines) && SourceProgram(fs, lines, table) && IsInt64(CountAll(table, fs))
    requires n < |fs| && IsPosition(fs[n].blocks, p) && ConfiguredSink(fs, lines, table, InstrAt(fs[n].blocks, p))
    requires OracleFits(oracle)
    ensures Program(AnnotateAll(table, walk, fs, 0))
    ensures var i, m := InstrAt(fs[n].blocks, p), AnnotateAll(table, walk, fs, 0);
            && |fs| <= w && CallsWrapper(Wrapped(m, first), n, p.0, q, w, i)
            && Enumerates(ks, fs, lines, i.callee.name, |i.args|, false)
            && Sources(D.Map(Cleared(m, first, oracle), unset), NumberBefore(table, fs, n, p)) ==
               SinkTags(oracle, w, i.callee.sig, ks)
  {
    hide *;
    var j;
    q, w, j := SinksAnswered(fs, lines, table, walk, first, oracle, n, p);
    ConfiguredIsDirect(fs, lines, table, InstrAt(fs[n].blocks, p));
    var i, m, id := InstrAt(fs[n].blocks, p), AnnotateAll(table, walk, fs, 0), NumberBefore(table, fs, n, p);
    WrappedUntagged(m, first);
    var ts := T.TagAll(Wrapped(m, first), oracle);
    var x, y := InstrAt(Wrapped(m, first)[w].blocks, (1, j)), InstrAt(ts[w].blocks, (1, j));
    ks := AnswersRead(fs, lines, i.callee.name, x, oracle, w, i.callee.sig, y);
    TaggedNeedIds(Wrapped(m, first), oracle);
    AnalysedIds(fs, lines, table, walk, first, oracle, id);
    NumberInRange(table, fs, n, p, 0);
    MapOfCleared(m, first, oracle, unset);
    SourcesAreTags(ts, unset, id, w, (1, j));
  }

  lemma ConfiguredIsDirect(fs: seq<Function>, lines: seq<string>, table: Table, i: Instr)
    requires ConfiguredSink(fs, lines, table, i)
    ensures i.Call? && i.callee.Direct? && Eligible(table, i)
  {
    hide Kind;
  }

  lemma LabelledSinkIs(fs: seq<Function>, lines: seq<string>, table: Table, walk: Walk, i: Instr, c: nat, id: int, slot: nat)
    requires WalksTables(walk) && Holds(table, fs, lines) && Eligible(table, i) && Fits(i, c)
    requires SinkAt(Annotate(table, walk, i, c), id, slot)
    ensures ConfiguredSink(fs, lines, table, i) && id == c
  {
    hide WalksTables;
    hide Holds;
    hide Annotate;
    hide Kind;
    hide RoleAt;
    hide LabelledAs;
    hide GetSiteId;
    var r := Annotate(table, walk, i, c);
    AnnotatedKeeps(table, walk, i, c);
    AnnotatedId(table, walk, i, c);
    LabelledAreConfigured(fs, lines, table, walk, i, c, false);
    var role := RoleAt(r.site, slot).value;
    RoleSlot(r.site, slot);
    LabelledMember(r.site, ArgumentCount(r.site), false, role.index);
    assert RoleAt(r.site, slot) == Some(Role(slot, role.index, false));
    assert role.index in LabelledAs(r.site, ArgumentCount(r.site), false);
  }

  lemma EdgeLeavesSink(fs: seq<Function>, lines: seq<string>, table: Table, walk: Walk, first: nat, oracle: T.Oracle,
                       unset: int, sink: int, source: int) returns (n: nat, p: Position)
    requires WalksTables(walk) && Holds(table, fs, lines) && SourceProgram(fs, lines, table) && IsInt64(CountAll(table, fs))
    requires OracleFits(oracle) && Program(AnnotateAll(table, walk, fs, 0))
    requires D.EdgeLine(sink, source) in D.Map(Cleared(AnnotateAll(table, walk, fs, 0), first, oracle), unset)
    ensures n < |fs| && IsPosition(fs[n].blocks, p) && ConfiguredSink(fs, lines, table, InstrAt(fs[n].blocks, p))
    ensures sink == NumberBefore(table, fs, n, p)
  {
    hide WalksTables;
    hide Holds;
    hide AnnotateAll;
    hide Annotate;
    hide NumberBefore;
    hide CountAll;
    hide SourceInstr;
    hide Program;
    hide Wrapped;
    hide OracleFits;
    hide ConfiguredSink;
    hide WellConfigured;
    hide SinkAt;
    hide D.Map;
    hide D.Untagged;
    hide T.AllSinkArguments;
    hide T.TagAll;
    hide SinkParameters;
    var m := AnnotateAll(table, walk, fs, 0);
    var slot;
    n, p, slot := EdgeFromSink(m, first, oracle, unset, sink, source);
    AnnotatedCarries(table, walk, fs);
    OldPosition(table, walk, fs, n, p);
    AnnotatedAt(table, walk, fs, 0, n, p);
    var i := InstrAt(fs[n].blocks, p);
    assert SourceInstr(fs, lines, table, i);
    if Eligible(table, i) {
      NumberInRange(table, fs, n, p, 0);
      EligibleWell(fs, lines, table, i);
      WellConfiguredCall(fs, lines, i);
      LabelledSinkIs(fs, lines, table, walk, i, NumberBefore(table, fs, n, p), sink, slot);
    } else {
      UnlabelledSource(fs, lines, table, i);
      NotASinkAt(i, sink, slot);
    }
  }

  /** Every edge of the map leaves a call that the configuration makes a sink. */
  lemma EdgesAreOfSinks(fs: seq<Function>, lines: seq<string>, table: Table, walk: Walk, first: nat, oracle: T.Oracle,
                        unset: int, sink: int, source: int)
    requires WalksTables(walk) && Holds(table, fs, lines) && SourceProgram(fs, lines, table) && IsInt64(CountAll(table, fs))
    requires OracleFits(oracle)
    ensures Program(AnnotateAll(table, walk, fs, 0))
    ensures D.EdgeLine(sink, source) in D.Map(Cleared(AnnotateAll(table, walk, fs, 0), first, oracle), unset) ==>
              SinkNumbered(fs, lines, table, sink)
  {
    hide *;
    LabelledProgram(fs, lines, table, walk);
    if D.EdgeLine(sink, source) in D.Map(Cleared(AnnotateAll(table, walk, fs, 0), first, oracle), unset) {
      var n, p := EdgeLeavesSink(fs, lines, table, walk, first, oracle, unset, sink, source);
      NumberedSink(fs, lines, table, n, p, sink);
    }
  }

  /** The number of some call that the configuration makes a sink. */
  ghost predicate SinkNumbered(fs: seq<Function>, lines: seq<string>, table: Table, id: int) {
    exists n: nat, p: Position :: n < |fs| && IsPosition(fs[n].blocks, p) && IsSinkNumbered(fs, lines, table, n, p, id)
  }

  predicate IsSinkNumbered(fs: seq<Function>, lines: seq<string>, table: Table, n: nat, p: Position, id: int)
    requires n < |fs| && IsPosition(fs[n].blocks, p)
  {
    ConfiguredSink(fs, lines, table, InstrAt(fs[n].blocks, p)) && id == NumberBefore(table, fs, n, p)
  }

  lemma NumberedSink(fs: seq<Function>, lines: seq<string>, table: Table, n: nat, p: Position, id: int)
    requires n < |fs| && IsPosition(fs[n].blocks, p) && ConfiguredSink(fs, lines, table, InstrAt(fs[n].blocks, p))
    requires id == NumberBefore(table, fs, n, p)
    ensures SinkNumbered(fs, lines, table, id)
  {
    hide ConfiguredSink;
    hide NumberBefore;
    assert IsSinkNumbered(fs, lines, table, n, p, id);
  }

  lemma NotASinkAt(i: Instr, id: int, slot: nat)
    requires Unlabelled(i)
    ensures !SinkAt(i, id, slot)
  {
  }

  lemma OldPosition(table: Table, walk: Walk, fs: seq<Function>, n: nat, p: Position)
    requires WalksTables(walk) && n < |fs| && IsPosition(AnnotateAll(table, walk, fs, 0)[n].blocks, p)
    ensures IsPosition(fs[n].blocks, p)
  {
    hide WalksTables;
    hide AnnotateAll;
    AnnotatedCarries(table, walk, fs);
    AnnotatedBlockLength(table, walk, fs, n, p.0);
  }

  lemma EdgeFromSink(m: seq<Function>, first: nat, oracle: T.Oracle, unset: int, sink: int, source: int)
      returns (n: nat, p: Position, slot: nat)
    requires Program(m) && OracleFits(oracle)
    requires D.EdgeLine(sink, source) in D.Map(Cleared(m, first, oracle), unset)
    ensures n < |m| && IsPosition(m[n].blocks, p) && SinkAt(InstrAt(m[n].blocks, p), sink, slot)
  {
    hide Program;
    hide Wrapped;
    hide Cleared;
    hide OracleFits;
    hide SinkAt;
    hide Owes;
    hide FitModule;
    hide Carries;
    hide D.Map;
    hide D.Untagged;
    hide D.SinkOf;
    hide T.AllSinkArguments;
    hide T.TagAll;
    var gs := Wrapped(m, first);
    ProgramFits(m);
    WrappedFits(m, first, false);
    WrappedUntagged(m, first);
    MapOfCleared(m, first, oracle, unset);
    EdgePrinted(gs, oracle, unset, sink, source);
    var f: nat, at: Position :| OwesAt(gs, oracle, f, at, sink, source);
    OwingIsSink(InstrAt(gs[f].blocks, at), QueryAt(oracle, f, at.0), sink, source);
    SinkIsOwn(m, gs, Between, sink, false);
    n, p, slot :| n < |m| && IsPosition(m[n].blocks, p) && SinkAt(InstrAt(m[n].blocks, p), sink, slot);
  }

  lemma OwingIsSink(i: Instr, q: T.Query, sink: int, source: int)
    requires Owes(i, q, sink, source)
    ensures D.SinkOf(i, sink)
  {
    hide RoleAt;
    hide GetSiteId;
    hide AnswerFor;
    hide LabelledAs;
    var k :| k in SinkParameters(i) && source in AnswerFor(i, q, k).value;
    LabelledMember(i.site, ArgumentCount(i.site), false, k);
    var slot :| 0 <= slot < ArgumentCount(i.site) && RoleAt(i.site, slot) == Some(Role(slot, k, false));
    OutputIsLabelled(i, slot);
  }
}
