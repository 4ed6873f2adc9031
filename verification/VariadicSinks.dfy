/** The program that makes one sink call: wrapping keeps its meaning exactly if the call passes no variadic arguments. */
module VariadicSinks {
  import opened Text
  import opened Metadata
  import opened Ir
  import opened Semantics
  import opened Erasure
  import opened Forwarding
  import opened WrapSinks
  import opened WrapMeaning

  // ---- The program ----

  /** A call that wrapping can replace, of an external function that is none of the instrumentation's own. */
  predicate SinkCall(i: Instr) {
    && IsSink(i) && OutputsInRange(i) && IsProgramInstr(i) && i.tags.None?
    && !IsIntrinsic(i.callee.name) && !IsLogger(i.callee.name) && !IsWrapperName(i.callee.name)
    && |i.args| >= |i.callee.sig.parameters|
  }

  function Code(i: Instr): seq<Block> {
    [[i, Return(None)]]
  }

  /** A function that makes the call and returns, and the callee's declaration. */
  function OneCall(entry: string, sig: Signature, i: Instr): seq<Function>
    requires IsDirectCall(i)
  {
    [Function(entry, sig, Code(i)), Function(i.callee.name, i.callee.sig, [])]
  }

  ghost predicate Names(entry: string, i: Instr)
    requires IsDirectCall(i)
  {
    entry != i.callee.name && !IsWrapperName(entry)
  }

  // ---- Its wrapped form ----

  lemma OneSink(i: Instr)
    requires IsSink(i)
    ensures Sinks(Code(i)) == [(0, 0)] && Rank(Code(i), (0, 0)) == 0
    ensures Sinks([]) == []
  {
    hide OutputsOf;
    var b := Code(i)[0];
    assert b[..|b| - 1] == [i] && [i][..0] == [] && Code(i)[..0] == [];
    assert SinksInBlock([], 0) == [];
    assert SinksInBlock([i], 0) == [(0, 0)];
    assert SinksInBlock(b, 0) == [(0, 0)];
  }

  lemma WrappedCode(i: Instr, first: nat)
    requires IsSink(i)
    ensures WrapBlocks(Code(i), first, 0) == Code(WrappedCall(first, i))
  {
    hide OutputsOf;
    hide WrappedCall;
    hide Sinks;
    hide Rank;
    OneSink(i);
    var c := WrapBlocks(Code(i), first, 0);
    assert c[0] == [WrappedCall(first, i), Return(None)];
  }

  lemma Labels(entry: string, sig: Signature, i: Instr)
    requires IsSink(i) && OutputsInRange(i)
    ensures AllLabelled(OneCall(entry, sig, i))
  {
    hide OutputsOf;
  }

  /** The program after wrapping: the call goes to the one wrapper. */
  lemma OneCallWrapped(entry: string, sig: Signature, i: Instr, first: nat)
    requires IsSink(i) && OutputsInRange(i) && Names(entry, i) && !IsWrapperName(i.callee.name)
    ensures AllLabelled(OneCall(entry, sig, i))
    ensures WrapAll(OneCall(entry, sig, i), first) ==
            [Function(entry, sig, Code(WrappedCall(first, i))), Function(i.callee.name, i.callee.sig, []),
             WrapperFunction(first, i)]
  {
    hide OutputsOf;
    hide IsWrapperName;
    hide WrappedCall;
    hide WrapperFunction;
    hide Code;
    hide WrapBlocks;
    hide Sinks;
    hide Labelled;
    hide Bodies;
    hide Wrappers;
    hide WrappersOf;
    hide Total;
    Labels(entry, sig, i);
    var fs := OneCall(entry, sig, i);
    OneSink(i);
    WrappedCode(i, first);
    NothingToWrap(first + 1);
    FirstWrapper(fs, i, first);
    BodiesNext(fs, first, 0);
    BodiesNext(fs, first, 1);
    NothingYet(fs, first);
    assert WrapFunction(fs[0], first) == Function(entry, sig, Code(WrappedCall(first, i)));
    assert WrapFunction(fs[1], first + 1) == fs[1];
    assert Bodies(fs[..1], first) == [WrapFunction(fs[0], first)];
    assert Bodies(fs[..2], first) == [WrapFunction(fs[0], first), fs[1]];
    assert Wrappers(fs[..2], first) == [WrapperFunction(first, i)];
    assert fs[..2] == fs;
  }

  lemma NothingYet(fs: seq<Function>, first: nat)
    ensures AllLabelled(fs[..0]) && Bodies(fs[..0], first) == [] && Wrappers(fs[..0], first) == [] && Total(fs[..0]) == 0
  {
  }

  lemma PrefixLabelled(fs: seq<Function>, n: nat)
    requires AllLabelled(fs) && n <= |fs|
    ensures AllLabelled(fs[..n])
    ensures forall k :: 0 <= k < |fs| ==> Labelled(fs[k])
  {
    hide Labelled;
  }

  lemma NothingToWrap(first: nat)
    ensures WrapBlocks([], first, 0) == []
  {
  }

  lemma FirstWrapper(fs: seq<Function>, i: Instr, first: nat)
    requires AllLabelled(fs) && |fs| == 2 && IsWrapped(fs[0]) && IsSink(i) && OutputsInRange(i)
    requires fs[0].blocks == Code(i) && fs[1].blocks == []
    ensures Labelled(fs[0]) && Labelled(fs[1])
    ensures WrappersOf(fs[0], first) == [WrapperFunction(first, i)]
    ensures forall n: nat :: WrappersOf(fs[1], n) == []
  {
    hide IsSink;
    hide OutputsInRange;
    hide WrapperFunction;
    hide Sinks;
    hide Labelled;
    PrefixLabelled(fs, 0);
    OneSink(i);
    WrappersAt(fs[0], first, 0);
    assert InstrAt(Code(i), (0, 0)) == i;
  }

  // ---- Code pointers do not matter ----

  ghost predicate DirectOnly(fs: seq<Function>) {
    forall f, k, j :: f in fs && 0 <= k < |f.blocks| && 0 <= j < |f.blocks[k]| && f.blocks[k][j].Call? ==>
      f.blocks[k][j].callee.Direct?
  }

  lemma StepIgnoresTargets(fs: seq<Function>, env: Environment, target: Value -> string, s: State)
    requires DirectOnly(fs)
    ensures Step(fs, env.(target := target), s) == Step(fs, env, s)
  {
    hide EvalAll;
    hide Incoming;
    hide Eval;
    if s.stack.Push? {
      FindErased(fs, s.stack.top.fn);
    }
  }

  lemma {:induction false} RunIgnoresTargets(fs: seq<Function>, env: Environment, target: Value -> string, s: State, n: nat)
    requires DirectOnly(fs)
    ensures Run(fs, env.(target := target), s, n) == Run(fs, env, s, n)
  {
    hide Step;
    hide DirectOnly;
    if n > 0 {
      RunIgnoresTargets(fs, env, target, s, n - 1);
      StepIgnoresTargets(fs, env, target, Run(fs, env, s, n - 1));
    }
  }

  /** Modules without calls through pointers run alike whatever code pointers stand for. */
  lemma SameRunsIgnoreTargets(fs: seq<Function>, gs: seq<Function>, env: Environment, target: Value -> string, entry: string,
                              args: seq<Value>)
    requires DirectOnly(fs) && DirectOnly(gs) && SameRuns(fs, gs, env.(target := target), entry, args)
    ensures SameRuns(fs, gs, env, entry, args)
  {
    hide Run;
    hide Observe;
    hide DirectOnly;
    forall n
      ensures Run(fs, env.(target := target), Start(entry, args), n) == Run(fs, env, Start(entry, args), n)
      ensures Run(gs, env.(target := target), Start(entry, args), n) == Run(gs, env, Start(entry, args), n)
    {
      RunIgnoresTargets(fs, env, target, Start(entry, args), n);
      RunIgnoresTargets(gs, env, target, Start(entry, args), n);
    }
    forall o: Observation
      ensures Reaches(fs, env, entry, args, o) <==> Reaches(gs, env, entry, args, o)
    {
      assert Reaches(fs, env.(target := target), entry, args, o) <==> Reaches(gs, env.(target := target), entry, args, o);
    }
  }

  // ---- What the two programs do ----

  /** The question the program asks of its environment: the external call with all its arguments. */
  function Asked(i: Instr, args: seq<Value>): Query
    requires IsDirectCall(i)
  {
    External(i.callee.name, EvalAll(args, map[], i.args))
  }

  lemma ProgramFinds(entry: string, sig: Signature, i: Instr)
    requires IsDirectCall(i) && Names(entry, i)
    ensures Find(OneCall(entry, sig, i), entry) == Some(OneCall(entry, sig, i)[0])
    ensures Find(OneCall(entry, sig, i), i.callee.name) == Some(OneCall(entry, sig, i)[1])
  {
    var fs := OneCall(entry, sig, i);
    assert fs[1..][0] == fs[1];
  }

  /** The program asks after one step. */
  lemma ProgramAsks(entry: string, sig: Signature, i: Instr, env: Environment, args: seq<Value>)
    requires SinkCall(i) && Names(entry, i)
    ensures Run(OneCall(entry, sig, i), env, Start(entry, args), 1).world == [Asked(i, args)]
  {
    hide OutputsOf;
    hide EvalAll;
    hide Find;
    ProgramFinds(entry, sig, i);
    var fs := OneCall(entry, sig, i);
    var s := Run(fs, env, Start(entry, args), 0);
    assert Fetch(fs, s.stack.top) == Some(i);
    assert Run(fs, env, Start(entry, args), 1) == Step(fs, env, s);
  }

  /** The wrapped program without its intrinsics. */
  function Bare(entry: string, sig: Signature, i: Instr, first: nat): seq<Function>
    requires IsDirectCall(i)
  {
    [Function(entry, sig, Code(WrappedCall(first, i))), Function(i.callee.name, i.callee.sig, []),
     Function(WrapperName(first), i.callee.sig, ForwarderBlocks(i.callee, i.site))]
  }

  lemma ErasedCode(i: Instr)
    requires i.Call? && !IsExtra(i) && i.tags.None?
    ensures EraseBlock(Code(i)[0]) == Code(i)[0]
  {
    var b := Code(i)[0];
    assert b[..|b| - 1] == [i];
    EraseOne(i);
    assert [i] + [Clean(b[1])] == b;
  }

  lemma WrappedErased(entry: string, sig: Signature, i: Instr, first: nat)
    requires SinkCall(i)
    ensures Erase([Function(entry, sig, Code(WrappedCall(first, i))), Function(i.callee.name, i.callee.sig, []),
                   WrapperFunction(first, i)]) == Bare(entry, sig, i, first)
  {
    hide OutputsOf;
    hide EraseBlock;
    hide WrapperFunction;
    hide WrapperName;
    NamesDiffer(first, first);
    WrapperNotReserved(WrapperName(first));
    EraseWrapper(first, i);
    ErasedCode(WrappedCall(first, i));
    var c := Code(WrappedCall(first, i));
    assert EraseFunction(Function(entry, sig, c)).blocks == c;
  }

  lemma WrappedSeparated(entry: string, sig: Signature, i: Instr, first: nat)
    requires SinkCall(i)
    ensures Separated([Function(entry, sig, Code(WrappedCall(first, i))), Function(i.callee.name, i.callee.sig, []),
                       WrapperFunction(first, i)])
  {
    hide OutputsOf;
    hide WrapperFunction;
    hide WrapperName;
    hide IsExtra;
    var gs := [Function(entry, sig, Code(WrappedCall(first, i))), Function(i.callee.name, i.callee.sig, []),
               WrapperFunction(first, i)];
    SeparatedWrapper(first, i);
    SeparatedEach(gs);
    assert Separated([gs[0]]);
    assert Separated([gs[1]]);
  }

  lemma WrappedFinds(entry: string, sig: Signature, i: Instr, first: nat)
    requires IsDirectCall(i) && Names(entry, i) && !IsWrapperName(i.callee.name)
    ensures var gs := Bare(entry, sig, i, first);
            Find(gs, entry) == Some(gs[0]) && Find(gs, i.callee.name) == Some(gs[1]) && Find(gs, WrapperName(first)) == Some(gs[2])
  {
    hide WrapperName;
    hide IsWrapperName;
    NamesDiffer(first, first);
    var gs := Bare(entry, sig, i, first);
    FindAt(gs, 0, entry);
    FindAt(gs, 1, i.callee.name);
    FindAt(gs, 2, WrapperName(first));
  }

  /** The wrapped program asks after three steps, with the fixed arguments only. */
  lemma WrappedAsks(entry: string, sig: Signature, i: Instr, first: nat, env: Environment, args: seq<Value>)
    requires SinkCall(i) && Names(entry, i)
    ensures var gs := Bare(entry, sig, i, first); var s := Start(entry, args);
            && Run(gs, env, s, 0).world == [] && Run(gs, env, s, 1).world == [] && Run(gs, env, s, 2).world == []
            && |Run(gs, env, s, 3).world| == 1 && Run(gs, env, s, 3).world[0].External?
            && |Run(gs, env, s, 3).world[0].arguments| == |i.callee.sig.parameters|
  {
    hide OutputsOf;
    hide Find;
    hide WrapperName;
    hide IsWrapperName;
    NamesDiffer(first, first);
    WrapperNotReserved(WrapperName(first));
    WrappedFinds(entry, sig, i, first);
    var gs := Bare(entry, sig, i, first);
    var s0 := Run(gs, env, Start(entry, args), 0);
    assert Fetch(gs, s0.stack.top) == Some(WrappedCall(first, i));
    var s1 := Run(gs, env, Start(entry, args), 1);
    assert s1 == Step(gs, env, s0);
    assert Fetch(gs, s1.stack.top) == Some(Jump(1));
    var s2 := Run(gs, env, Start(entry, args), 2);
    assert s2 == Step(gs, env, s1);
    assert Fetch(gs, s2.stack.top) == Some(ForwarderBlocks(i.callee, i.site)[1][0]);
    assert Run(gs, env, Start(entry, args), 3) == Step(gs, env, s2);
  }

  lemma WorldGrows(fs: seq<Function>, env: Environment, s: State)
    ensures s.world <= Step(fs, env, s).world
  {
    hide EvalAll;
    hide Incoming;
    hide Eval;
    hide Find;
    hide Fetch;
  }

  lemma {:induction false} WorldStays(fs: seq<Function>, env: Environment, s: State, k: nat, n: nat)
    requires k <= n
    ensures Run(fs, env, s, k).world <= Run(fs, env, s, n).world
  {
    hide Step;
    if k < n {
      WorldStays(fs, env, s, k, n - 1);
      WorldGrows(fs, env, Run(fs, env, s, n - 1));
    }
  }

  /** No run of the wrapped program has asked just what the program asks, if arguments are lost. */
  lemma NeverAsks(entry: string, sig: Signature, i: Instr, first: nat, env: Environment, args: seq<Value>, n: nat)
    requires SinkCall(i) && Names(entry, i) && |i.args| > |i.callee.sig.parameters|
    ensures Run(Bare(entry, sig, i, first), env, Start(entry, args), n).world != [Asked(i, args)]
  {
    hide Run;
    hide OutputsOf;
    WrappedAsks(entry, sig, i, first, env, args);
    if n >= 3 {
      WorldStays(Bare(entry, sig, i, first), env, Start(entry, args), 3, n);
    }
  }

  // ---- The theorem ----

  lemma LossShows(entry: string, sig: Signature, i: Instr, first: nat, env: Environment, args: seq<Value>)
    requires SinkCall(i) && Names(entry, i) && |i.args| > |i.callee.sig.parameters|
    ensures !SameRuns(OneCall(entry, sig, i), Bare(entry, sig, i, first), env, entry, args)
  {
    hide Run;
    hide SinkCall;
    hide Asked;
    hide Bare;
    hide ProgramEvents;
    hide IsSink;
    SinkIsCall(i);
    var fs, gs := OneCall(entry, sig, i), Bare(entry, sig, i, first);
    var o := Observe(Run(fs, env, Start(entry, args), 1));
    ProgramAsks(entry, sig, i, env, args);
    assert Reaches(fs, env, entry, args, o);
    if Reaches(gs, env, entry, args, o) {
      var n: nat :| Observe(Run(gs, env, Start(entry, args), n)) == o;
      NeverAsks(entry, sig, i, first, env, args, n);
      assert false;
    }
  }

  lemma SinkIsCall(i: Instr)
    requires SinkCall(i)
    ensures IsDirectCall(i)
  {
  }

  lemma ProgramIsFine(entry: string, sig: Signature, i: Instr, first: nat)
    requires SinkCall(i) && Names(entry, i) && |i.args| == |i.callee.sig.parameters|
    ensures var fs := OneCall(entry, sig, i);
            CallsOk(fs) && Separated(fs) && Fresh(fs, first) && DirectOnly(fs) && Find(fs, entry).Some?
  {
    hide OutputsOf;
    hide WrapperName;
    hide Find;
    hide IsWrapperName;
    ProgramFinds(entry, sig, i);
    var fs := OneCall(entry, sig, i);
    forall k, n: nat | 0 <= k < |fs| && first <= n
      ensures fs[k].name != WrapperName(n)
    {
      NamesDiffer(n, n);
    }
  }

  lemma WrappedDirect(entry: string, sig: Signature, i: Instr, first: nat)
    requires SinkCall(i)
    ensures DirectOnly([Function(entry, sig, Code(WrappedCall(first, i))), Function(i.callee.name, i.callee.sig, []),
                        WrapperFunction(first, i)])
  {
    hide OutputsOf;
    hide WrapperName;
    hide Preamble;
    hide IsExtra;
    var pre, code := Preamble(i.callee.sig, OutputsOf(i)), Forwarded(i);
    PreambleDirect(i.callee.sig, OutputsOf(i));
    var both: seq<Instr> := pre + code;
    forall j | 0 <= j < |both| && both[j].Call?
      ensures both[j].callee.Direct?
    {
      if j >= |pre| {
        assert both[j] == code[j - |pre|];
      }
    }
  }

  lemma {:induction false} PreambleDirect(sig: Signature, outputs: seq<int>)
    requires forall k :: 0 <= k < |outputs| ==> 0 <= outputs[k] < |sig.parameters|
    ensures forall k :: 0 <= k < |Preamble(sig, outputs)| && Preamble(sig, outputs)[k].Call? ==>
              Preamble(sig, outputs)[k].callee.Direct?
  {
    if outputs != [] {
      PreambleDirect(sig, outputs[..|outputs| - 1]);
    }
  }

  /**
    * Whatever the environment, wrapping keeps the meaning of the program that makes one sink call exactly if the call
    * passes as many arguments as its callee has parameters.
    */
  lemma WrappingKeepsExactly(entry: string, sig: Signature, i: Instr, first: nat, env: Environment, args: seq<Value>)
    requires SinkCall(i) && Names(entry, i)
    ensures AllLabelled(OneCall(entry, sig, i))
    ensures SameRuns(OneCall(entry, sig, i), WrapAll(OneCall(entry, sig, i), first), env, entry, args) <==>
            |i.args| == |i.callee.sig.parameters|
  {
    hide SameRuns;
    hide WrapperFunction;
    hide WrapAll;
    hide Code;
    hide Separated;
    hide CallsOk;
    hide Fresh;
    hide DirectOnly;
    hide Find;
    hide AllLabelled;
    hide Erase;
    hide OutputsOf;
    hide Bare;
    OneCallWrapped(entry, sig, i, first);
    var fs := OneCall(entry, sig, i);
    var gs := WrapAll(fs, first);
    WrappedSeparated(entry, sig, i, first);
    WrappedErased(entry, sig, i, first);
    WrappedDirect(entry, sig, i, first);
    if |i.args| == |i.callee.sig.parameters| {
      var target: Value -> string := v => "";
      ProgramIsFine(entry, sig, i, first);
      NoTargets(env, target, first);
      WrappingPreservesMeaning(fs, first, env.(target := target), entry, args);
      SameRunsIgnoreTargets(fs, gs, env, target, entry, args);
    } else {
      LossShows(entry, sig, i, first, env, args);
      ErasureSound(gs, env, entry, args);
      Differ(fs, gs, Bare(entry, sig, i, first), env, entry, args);
    }
  }

  lemma Differ(a: seq<Function>, b: seq<Function>, c: seq<Function>, env: Environment, entry: string, args: seq<Value>)
    requires SameRuns(b, c, env, entry, args) && !SameRuns(a, c, env, entry, args)
    ensures !SameRuns(a, b, env, entry, args)
  {
    hide Reaches;
  }

  lemma NoTargets(env: Environment, target: Value -> string, first: nat)
    requires forall v :: target(v) == ""
    ensures NoWrapperTargets(env.(target := target), first)
  {
    hide Decimal;
  }
}
