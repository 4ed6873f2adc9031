/** What a sink's wrapper is made of: the parameters it marks as modified are those the configuration makes sinks. */
module WrapperMarks {
  import opened Text
  import opened Metadata
  import opened CallSiteMetadata
  import opened Configuration
  import opened Ir
  import opened Erasure
  import opened WrapSinks
  import opened WrapMeaning
  import opened WrapOrder
  import opened AnnotateSources
  import opened AddMetadata
  import opened NumberedCalls
  import opened Instrumentation
  import opened Pipeline
  import opened FromSource
  import opened PipelineMap
  import opened LabelledParameters
  import opened IntrinsicCalls
  import F = Forwarding

  // ---- The code in front of the forwarded call ----

  /** The wrapper's own parameter with this number, counted from 1. */
  function MarkActions(sig: Signature, k: nat): seq<Action> {
    if 1 <= k <= |sig.parameters| then [Marked(Argument(k - 1, sig.parameters[k - 1]))] else []
  }

  function MarkPieces(sig: Signature): nat -> seq<Action> {
    (k: nat) => MarkActions(sig, k)
  }

  lemma {:induction false} OutputsAreLabelled(i: Instr, n: nat)
    requires i.Call?
    ensures var ks, outputs := LabelledAs(i.site, n, false), Outputs(RolesUpTo(i.site, n));
            |ks| == |outputs| && forall j :: 0 <= j < |ks| ==> outputs[j] + 1 == ks[j]
  {
    hide RoleAt;
    hide Outputs;
    hide RolesUpTo;
    if n == 0 {
      OutputsStart(i);
    } else {
      OutputsAreLabelled(i, n - 1);
      OutputsStep(i, n - 1);
    }
  }

  lemma MarkOne(code: Block, sig: Signature, x: nat, slot: nat)
    requires x < |sig.parameters| && CallsIntrinsics(code)
    ensures var arg := Argument(x, sig.parameters[x]);
            var longer := code + CastCode(arg, Temp(0, slot)) + [SetModifiedCall(CastOperand(arg, Temp(0, slot)))];
            CallsIntrinsics(longer) && Actions(longer) == Actions(code) + MarkActions(sig, x + 1)
  {
    hide CallsIntrinsics;
    hide Actions;
    hide ValueOf;
    hide CastCode;
    hide CastOperand;
    hide SetModifiedCall;
    hide IsBytePointer;
    var arg, reg := Argument(x, sig.parameters[x]), Temp(0, slot);
    CastThen(code, arg, reg);
    Marking(code + CastCode(arg, reg), CastOperand(arg, reg));
  }

  lemma {:induction false} PreambleActions(sig: Signature, outputs: seq<int>, ks: seq<nat>)
    requires |ks| == |outputs| && forall j :: 0 <= j < |ks| ==> outputs[j] + 1 == ks[j]
    requires forall j :: 0 <= j < |outputs| ==> 0 <= outputs[j] < |sig.parameters|
    ensures CallsIntrinsics(Preamble(sig, outputs)) && Actions(Preamble(sig, outputs)) == Flat(ks, MarkPieces(sig))
  {
    hide CallsIntrinsics;
    hide MarkActions;
    hide CastCode;
    hide CastOperand;
    hide SetModifiedCall;
    if outputs == [] {
      NoCalls();
    } else {
      var n := |outputs| - 1;
      PreambleActions(sig, outputs[..n], ks[..n]);
      MarkOne(Preamble(sig, outputs[..n]), sig, outputs[n], n);
    }
  }

  lemma NoCalls()
    ensures CallsIntrinsics([]) && Actions([]) == []
  {
  }

  // ---- The wrapper of a configured call ----

  /**
    * The function marks the parameters that the configuration makes sinks, in some order and each once, and then
    * forwards the call: its own parameters go to the call's callee under the call's metadata.
    */
  ghost predicate MarksSinks(fs: seq<Function>, lines: seq<string>, i: Instr, site: Option<seq<Node>>, g: Function,
                             code: Block) {
    && IsDirectCall(i) && g.sig == i.callee.sig
    && g.blocks == [[Jump(1)], code + F.ForwarderBlocks(i.callee, site)[1]]
    && CallsIntrinsics(code)
    && exists ks :: Enumerates(ks, fs, lines, i.callee.name, |i.args|, false) && Actions(code) == Flat(ks, MarkPieces(g.sig))
  }

  lemma WrapperActions(fs: seq<Function>, lines: seq<string>, table: Table, walk: Walk, i: Instr, c: nat, n: nat)
      returns (code: Block)
    requires WalksTables(walk) && Holds(table, fs, lines) && Eligible(table, i) && Fits(i, c) && i.tags.None?
    requires IsSink(Annotate(table, walk, i, c)) && OutputsInRange(Annotate(table, walk, i, c))
    ensures var r := Annotate(table, walk, i, c);
            MarksSinks(fs, lines, i, r.site, WrapperFunction(n, r), code)
  {
    hide WalksTables;
    hide Holds;
    hide Annotate;
    hide RolesUpTo;
    hide Enumerates;
    hide Flat;
    hide GetSiteId;
    hide CallsIntrinsics;
    hide Actions;
    hide Preamble;
    hide WrapperName;
    hide MarkActions;
    hide Outputs;
    hide LabelledAs;
    var r := Annotate(table, walk, i, c);
    AnnotatedKeeps(table, walk, i, c);
    LabelledAreConfigured(fs, lines, table, walk, i, c, false);
    var ks := LabelledAs(r.site, ArgumentCount(r.site), false);
    OutputsAreLabelled(r, ArgumentCount(r.site));
    code := Preamble(r.callee.sig, OutputsOf(r));
    PreambleActions(r.callee.sig, OutputsOf(r), ks);
    assert Forwarded(r) == F.ForwarderBlocks(i.callee, r.site)[1];
  }

  // ---- In the wrapped module ----

  lemma {:induction false} InterleavedAt(codes: seq<Block>, b: Block, j: nat) returns (t: nat)
    requires |codes| == |b| && j < |b|
    ensures t < |Interleaved(codes, b)| && Interleaved(codes, b)[t] == b[j]
    decreases |b|
  {
    var n := |b| - 1;
    if j < n {
      t := InterleavedAt(codes[..n], b[..n], j);
    } else {
      t := |Interleaved(codes[..n], b[..n]) + codes[n]|;
    }
  }

  /** The call at a position of the labelled program, wherever tagging has moved it. */
  lemma TaggedPosition(m: seq<Function>, n: nat, p: Position) returns (q: Position)
    requires InRange(m) && n < |m| && IsPosition(m[n].blocks, p)
    ensures q.0 == p.0 && IsPosition(AddSources(m)[n].blocks, q)
    ensures InstrAt(AddSources(m)[n].blocks, q) == InstrAt(m[n].blocks, p)
    ensures AddSources(m)[n].name == m[n].name
  {
    hide BlockInRange;
    hide AddSourcesBlock;
    hide Interleaved;
    hide CodesOf;
    assert [m[n]][0] == m[n];
    var b := m[n].blocks[p.0];
    assert BlockInRange(b);
    AddedCode(b);
    var t := InterleavedAt(CodesOf(b), b, p.1);
    q := (p.0, t);
  }

  /** Some parameter the call has is made a sink. */
  predicate ConfiguredSink(fs: seq<Function>, lines: seq<string>, table: Table, i: Instr) {
    Eligible(table, i) && exists k :: 0 <= k <= |i.args| && Kind(fs, lines, i.callee.name, k) == Some(false)
  }

  /** What labelling makes of a sink of the unlabelled program. */
  lemma LabelledSink(fs: seq<Function>, lines: seq<string>, table: Table, walk: Walk, n: nat, p: Position)
    requires WalksTables(walk) && Holds(table, fs, lines) && SourceProgram(fs, lines, table) && IsInt64(CountAll(table, fs))
    requires n < |fs| && IsPosition(fs[n].blocks, p) && ConfiguredSink(fs, lines, table, InstrAt(fs[n].blocks, p))
    ensures var m, i, c := AnnotateAll(table, walk, fs, 0), InstrAt(fs[n].blocks, p), NumberBefore(table, fs, n, p);
            && |m| == |fs| && m[n].name == fs[n].name && IsPosition(m[n].blocks, p)
            && InstrAt(m[n].blocks, p) == Annotate(table, walk, i, c) && IsSink(Annotate(table, walk, i, c))
            && Fits(i, c) && i.tags.None? && !IsIntrinsic(i.callee.name) && !IsLogger(i.callee.name)
  {
    hide WalksTables;
    hide Holds;
    hide AnnotateAll;
    hide Annotate;
    hide NumberBefore;
    hide CountAll;
    hide SourceInstr;
    hide IsSink;
    hide Kind;
    hide WellConfigured;
    var i := InstrAt(fs[n].blocks, p);
    AnnotatedCarries(table, walk, fs);
    AnnotatedAt(table, walk, fs, 0, n, p);
    NumberInRange(table, fs, n, p, 0);
    assert SourceInstr(fs, lines, table, i);
    EligibleWell(fs, lines, table, i);
    WellConfiguredCall(fs, lines, i);
    SourceOf(fs, lines, table, i);
    SinkReadBack(fs, lines, table, walk, i, NumberBefore(table, fs, n, p));
  }

  lemma SourceOf(fs: seq<Function>, lines: seq<string>, table: Table, i: Instr)
    requires SourceInstr(fs, lines, table, i) && Eligible(table, i)
    ensures i.tags.None? && !IsIntrinsic(i.callee.name) && !IsLogger(i.callee.name)
  {
    hide WellConfigured;
    hide IsProgramInstr;
    hide IsExtra;
  }

  lemma OwnFunctions(m: seq<Function>, gs: seq<Function>)
    requires NoWrapperNames(m) && Carries(m, gs)
    ensures forall j :: 0 <= j < |gs| ==> (IsWrapperName(gs[j].name) <==> j >= |m|)
    ensures forall j :: 0 <= j < |m| ==> !IsWrapperName(m[j].name)
  {
  }

  /** Where a sink of the labelled program goes, and its wrapper. */
  lemma SinkReplaced(m: seq<Function>, first: nat, n: nat, p: Position) returns (q: Position, w: nat, number: nat)
    requires Program(m) && n < |m| && IsPosition(m[n].blocks, p) && IsSink(InstrAt(m[n].blocks, p))
    ensures var a, gs, r := AddSources(m), Wrapped(m, first), InstrAt(m[n].blocks, p);
            && |m| <= w < |gs| && |a| == |m| && q.0 == p.0 && OutputsInRange(r)
            && IsPosition(a[n].blocks, q) && InstrAt(a[n].blocks, q) == r
            && IsPosition(gs[n].blocks, q) && InstrAt(gs[n].blocks, q) == WrappedCall(number, r)
            && gs[w] == WrapperFunction(number, r) && Find(gs, WrapperName(number)) == Some(gs[w])
  {
    hide IsSink;
    hide OutputsInRange;
    hide FitModule;
    hide AddSources;
    hide WrapAll;
    hide WrapperFunction;
    hide WrapperName;
    hide WrappedCall;
    hide AllLabelled;
    hide Fresh;
    hide Carries;
    hide Total;
    hide Rank;
    hide Sinks;
    hide WrapInstr;
    var gs := Wrapped(m, first);
    ProgramFits(m);
    WrappedFits(m, first, false);
    q := TaggedPosition(m, n, p);
    OwnFunctions(m, gs);
    number := WrapperOfSink(AddSources(m), first, n, q);
    WrappedAt(AddSources(m), first, n, q);
    w := FindFirst(gs, WrapperName(number));
    NamesDiffer(number, number);
  }

  /**
    * Each call that the configuration makes a sink is replaced by a call to a function added for it, which marks the
    * configured parameters and forwards the call.
    */
  lemma SinksWrapped(fs: seq<Function>, lines: seq<string>, table: Table, walk: Walk, first: nat, n: nat, p: Position)
      returns (q: Position, w: nat, code: Block)
    requires WalksTables(walk) && Holds(table, fs, lines) && SourceProgram(fs, lines, table) && IsInt64(CountAll(table, fs))
    requires n < |fs| && IsPosition(fs[n].blocks, p) && ConfiguredSink(fs, lines, table, InstrAt(fs[n].blocks, p))
    ensures Program(AnnotateAll(table, walk, fs, 0))
    ensures var m, i, c := AnnotateAll(table, walk, fs, 0), InstrAt(fs[n].blocks, p), NumberBefore(table, fs, n, p);
            var a, gs, r := AddSources(m), Wrapped(m, first), Annotate(table, walk, i, c);
            && |fs| <= w < |gs| && n < |a| && q.0 == p.0
            && IsPosition(a[n].blocks, q) && InstrAt(a[n].blocks, q) == r && GetSiteId(r.site) == Some(c as int)
            && IsPosition(gs[n].blocks, q)
            && InstrAt(gs[n].blocks, q) == Call(i.dst, Direct(gs[w].name, i.callee.sig), i.args, None, None)
            && Find(gs, gs[w].name) == Some(gs[w])
            && MarksSinks(fs, lines, i, r.site, gs[w], code)
  {
    hide WalksTables;
    hide Holds;
    hide AnnotateAll;
    hide Annotate;
    hide NumberBefore;
    hide CountAll;
    hide SourceProgram;
    hide Kind;
    hide IsSink;
    hide OutputsInRange;
    hide Program;
    hide AddSources;
    hide WrapperFunction;
    hide WrapperName;
    hide MarksSinks;
    LabelledProgram(fs, lines, table, walk);
    LabelledSink(fs, lines, table, walk, n, p);
    var m, i, c := AnnotateAll(table, walk, fs, 0), InstrAt(fs[n].blocks, p), NumberBefore(table, fs, n, p);
    var number;
    q, w, number := SinkReplaced(m, first, n, p);
    code := WrapperActions(fs, lines, table, walk, i, c, number);
    ReplacedCall(table, walk, i, c, number);
    WrapperIsNamed(number, Annotate(table, walk, i, c));
  }

  lemma ReplacedCall(table: Table, walk: Walk, i: Instr, c: nat, number: nat)
    requires WalksTables(walk) && Eligible(table, i) && IsInt64(c)
    ensures WrappedCall(number, Annotate(table, walk, i, c)) ==
            Call(i.dst, Direct(WrapperName(number), i.callee.sig), i.args, None, None)
    ensures GetSiteId(Annotate(table, walk, i, c).site) == Some(c as int)
  {
    hide WrapperName;
    AnnotatedId(table, walk, i, c);
  }

  lemma WrapperIsNamed(number: nat, r: Instr)
    requires IsSink(r) && OutputsInRange(r)
    ensures WrapperFunction(number, r).name == WrapperName(number)
  {
    hide OutputsOf;
    hide WrapperName;
  }
}
