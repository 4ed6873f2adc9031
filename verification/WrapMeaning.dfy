/** Wrapping the sinks of a module changes nothing its runs show. */
module WrapMeaning {
  import opened Text
  import opened Metadata
  import opened Ir
  import opened Semantics
  import opened Erasure
  import opened Forwarding
  import opened WrapSinks

  /**
   What LLVM and the pass ask of a direct call: the callee is a function of the module with the type the call uses, a
   sink passes no variadic arguments, and it is not one of the instrumentation's own functions.
   */
  ghost predicate DirectCallOk(fs: seq<Function>, i: Instr) {
    && (!IsExtra(i) && IsDirectCall(i) ==>
          Find(fs, i.callee.name).Some? && Find(fs, i.callee.name).value.sig.result == i.callee.sig.result)
    && (IsSink(i) ==>
          && !IsIntrinsic(i.callee.name) && !IsLogger(i.callee.name)
          && |i.args| == |i.callee.sig.parameters|)
  }

  ghost predicate CallsOk(fs: seq<Function>) {
    forall f, k, j :: f in fs && 0 <= k < |f.blocks| && 0 <= j < |f.blocks[k]| ==> DirectCallOk(fs, f.blocks[k][j])
  }

  /** No code pointer stands for a wrapper that does not exist yet. */
  ghost predicate NoWrapperTargets(env: Environment, first: nat) {
    forall v, n: nat :: first <= n ==> env.target(v) != WrapperName(n)
  }

  /** A wrapper passes on the fixed arguments and no others, so a call loses nothing exactly if it has no variadic ones. */
  lemma ForwardedArguments(i: Instr, args: seq<Value>, regs: Registers)
    requires IsDirectCall(i) && |args| >= |i.callee.sig.parameters|
    ensures var passed := EvalAll(args, regs, Forwarded(i)[0].args);
            passed == args[..|i.callee.sig.parameters|] && (passed == args <==> |args| == |i.callee.sig.parameters|)
  {
    assert args[..|args|] == args;
  }

  // ---- Looking functions up ----

  lemma {:induction false} FindIn(fs: seq<Function>, gs: seq<Function>, name: string)
    ensures Find(fs + gs, name) == if Find(fs, name).Some? then Find(fs, name) else Find(gs, name)
  {
    if fs == [] {
      assert fs + gs == gs;
    } else if fs[0].name != name {
      assert (fs + gs)[1..] == fs[1..] + gs;
      FindIn(fs[1..], gs, name);
    }
  }

  lemma {:induction false} FindFirst(fs: seq<Function>, name: string) returns (k: nat)
    requires Find(fs, name).Some?
    ensures k < |fs| && Find(fs, name) == Some(fs[k]) && fs[k].name == name
    ensures forall j :: 0 <= j < k ==> fs[j].name != name
  {
    if fs[0].name == name {
      k := 0;
    } else {
      k := FindFirst(fs[1..], name);
      k := k + 1;
    }
  }

  lemma {:induction false} FindAt(fs: seq<Function>, k: nat, name: string)
    requires k < |fs| && fs[k].name == name && forall j :: 0 <= j < k ==> fs[j].name != name
    ensures Find(fs, name) == Some(fs[k])
  {
    if k > 0 {
      FindAt(fs[1..], k - 1, name);
    }
  }

  lemma {:induction false} FindNone(fs: seq<Function>, name: string)
    ensures Find(fs, name).None? <==> forall j :: 0 <= j < |fs| ==> fs[j].name != name
  {
    if fs != [] && fs[0].name != name {
      FindNone(fs[1..], name);
      assert forall j :: 0 < j < |fs| ==> fs[j] == fs[1..][j - 1];
    }
  }

  lemma {:induction false} BodyAt(fs: seq<Function>, first: nat, k: nat) returns (m: nat)
    requires k < |fs|
    ensures |Bodies(fs, first)| == |fs| && Bodies(fs, first)[k] == WrapFunction(fs[k], m)
    ensures m == first + Total(fs[..k])
    decreases |fs|
  {
    hide WrapFunction;
    hide SinkCount;
    var init := fs[..|fs| - 1];
    BodiesLength(init, first);
    if k == |fs| - 1 {
      assert init == fs[..k];
      m := first + Total(init);
    } else {
      assert init[..k] == fs[..k];
      m := BodyAt(init, first, k);
    }
  }

  lemma {:induction false} BodiesLength(fs: seq<Function>, first: nat)
    ensures |Bodies(fs, first)| == |fs|
    ensures forall k :: 0 <= k < |fs| ==> Bodies(fs, first)[k].name == fs[k].name
  {
    hide SinkCount;
    hide WrapBlocks;
    if fs != [] {
      BodiesLength(fs[..|fs| - 1], first);
    }
  }

  /** The module's own functions are found, rewritten, under their names. */
  lemma FindBody(fs: seq<Function>, first: nat, name: string) returns (k: nat, m: nat)
    requires AllLabelled(fs) && Find(fs, name).Some?
    ensures k < |fs| && Find(fs, name) == Some(fs[k]) && m == first + Total(fs[..k])
    ensures Find(WrapAll(fs, first), name) == Some(WrapFunction(fs[k], m))
  {
    hide Labelled;
    hide WrapFunction;
    hide SinkCount;
    hide Bodies;
    hide Wrappers;
    k := FindFirst(fs, name);
    BodiesLength(fs, first);
    m := BodyAt(fs, first, k);
    FindAt(Bodies(fs, first), k, name);
    FindIn(Bodies(fs, first), Wrappers(fs, first), name);
  }

  /** Each wrapper is found under its name. */
  lemma FindWrapper(fs: seq<Function>, first: nat, t: nat)
    requires AllLabelled(fs) && Fresh(fs, first) && t < |Wrappers(fs, first)|
    ensures Find(WrapAll(fs, first), WrapperName(first + t)) == Some(Wrappers(fs, first)[t])
  {
    hide Labelled;
    hide Bodies;
    hide Wrappers;
    hide WrapperName;
    var ws, name := Wrappers(fs, first), WrapperName(first + t);
    BodiesLength(fs, first);
    FindNone(Bodies(fs, first), name);
    FindIn(Bodies(fs, first), ws, name);
    WrapperAt(fs, first, t);
    forall j | 0 <= j < t
      ensures ws[j].name != name
    {
      WrapperAt(fs, first, j);
      NamesDiffer(first + j, first + t);
    }
    FindAt(ws, t, name);
  }

  /** Nothing else is added: a name unknown before and known after is a wrapper's. */
  lemma FindOther(fs: seq<Function>, first: nat, name: string)
    requires AllLabelled(fs) && Find(fs, name).None? && Find(WrapAll(fs, first), name).Some?
    ensures exists n: nat :: first <= n && name == WrapperName(n)
  {
    hide Labelled;
    hide Bodies;
    hide Wrappers;
    hide WrapperName;
    BodiesLength(fs, first);
    FindNone(fs, name);
    FindNone(Bodies(fs, first), name);
    FindIn(Bodies(fs, first), Wrappers(fs, first), name);
    var t := FindFirst(Wrappers(fs, first), name);
    WrapperAt(fs, first, t);
  }

  lemma WrappersStep(fs: seq<Function>, first: nat)
    requires AllLabelled(fs) && fs != []
    ensures var init, f := fs[..|fs| - 1], fs[|fs| - 1];
            && AllLabelled(init) && Labelled(f)
            && Wrappers(fs, first) == Wrappers(init, first) + WrappersOf(f, first + Total(init))
            && |Wrappers(init, first)| == Total(init) && |WrappersOf(f, first + Total(init))| == SinkCount(f)
  {
    hide Labelled;
    hide WrappersOf;
    hide SinkCount;
    hide Total;
    hide Bodies;
    WrapperCount(fs[..|fs| - 1], first);
  }

  lemma {:induction false} WrappersIndex(fs: seq<Function>, first: nat, k: nat, u: nat)
    requires AllLabelled(fs) && k < |fs| && u < SinkCount(fs[k]) && Labelled(fs[k])
    ensures Total(fs[..k]) + u < |Wrappers(fs, first)|
    ensures Wrappers(fs, first)[Total(fs[..k]) + u] == WrappersOf(fs[k], first + Total(fs[..k]))[u]
    decreases |fs|
  {
    hide *;
    var init := fs[..|fs| - 1];
    WrappersStep(fs, first);
    if k == |fs| - 1 {
      assert init == fs[..k];
    } else {
      assert init[..k] == fs[..k];
      WrappersIndex(init, first, k, u);
    }
  }

  /** The wrapper a sink's call is redirected to, whatever the function and the position. */
  lemma WrapperOfSink(fs: seq<Function>, first: nat, k: nat, p: Position) returns (n: nat)
    requires AllLabelled(fs) && Fresh(fs, first) && k < |fs| && IsWrapped(fs[k])
    requires IsPosition(fs[k].blocks, p) && IsSink(InstrAt(fs[k].blocks, p))
    ensures var i := InstrAt(fs[k].blocks, p);
            && first <= n < first + Total(fs) && OutputsInRange(i)
            && n == first + Total(fs[..k]) + SinkCount(fs[k]) - 1 - Rank(fs[k].blocks, p)
            && WrapInstr(fs[k].blocks, first + Total(fs[..k]), 0, p) == WrappedCall(n, i)
            && Find(WrapAll(fs, first), WrapperName(n)) == Some(WrapperFunction(n, i))
  {
    hide OutputsOf;
    hide WrapAll;
    hide Wrappers;
    hide Bodies;
    hide WrappersOf;
    hide WrapperFunction;
    hide WrappedCall;
    hide WrapperName;
    hide Rank;
    hide Sinks;
    hide Total;
    hide IsSink;
    hide Fresh;
    var f, m := fs[k], first + Total(fs[..k]);
    SinkAtRank(f.blocks, p);
    var u := SinkCount(f) - 1 - Rank(f.blocks, p);
    n := m + u;
    WrappersIndex(fs, first, k, u);
    WrappersAt(f, m, u);
    WrapperCount(fs, first);
    FindWrapper(fs, first, n - first);
  }

  // ---- Erasing wrapped code ----

  lemma WrapperNotReserved(name: string)
    requires IsWrapperName(name)
    ensures !IsIntrinsic(name) && !IsLogger(name)
  {
    assert name[10] == WRAPPER_PREFIX[10] && name[0] == WRAPPER_PREFIX[0];
  }

  lemma {:induction false} PreambleExtra(sig: Signature, outputs: seq<int>)
    requires forall k :: 0 <= k < |outputs| ==> 0 <= outputs[k] < |sig.parameters|
    ensures forall k :: 0 <= k < |Preamble(sig, outputs)| ==> IsExtra(Preamble(sig, outputs)[k])
  {
    if outputs != [] {
      PreambleExtra(sig, outputs[..|outputs| - 1]);
    }
  }

  lemma EraseForwarded(i: Instr)
    requires IsDirectCall(i) && !IsIntrinsic(i.callee.name) && !IsLogger(i.callee.name)
    ensures EraseBlock(Forwarded(i)) == ForwarderBlocks(i.callee, i.site)[1]
  {
    var b := Forwarded(i);
    assert b[..1] == [b[0]] && b[..1][..0] == [];
    EraseStep(b, 0);
    EraseStep(b, 1);
    assert b[..2] == b;
  }

  lemma EraseWrapper(n: nat, i: Instr)
    requires IsSink(i) && OutputsInRange(i) && !IsIntrinsic(i.callee.name) && !IsLogger(i.callee.name)
    ensures EraseFunction(WrapperFunction(n, i)) ==
            Function(WrapperName(n), i.callee.sig, ForwarderBlocks(i.callee, i.site))
  {
    hide OutputsOf;
    hide Preamble;
    hide Forwarded;
    hide WrapperName;
    var sig := i.callee.sig;
    var pre := Preamble(sig, OutputsOf(i));
    PreambleExtra(sig, OutputsOf(i));
    EraseExtra(pre);
    EraseConcat(pre, Forwarded(i));
    EraseForwarded(i);
    var g := EraseFunction(WrapperFunction(n, i));
    assert EraseBlock([Jump(1)]) == [Jump(1)] by {
      assert [Jump(1)][..0] == [];
    }
    assert g.blocks[0] == [Jump(1)];
    assert g.blocks[1] == EraseBlock(pre + Forwarded(i)) == ForwarderBlocks(i.callee, i.site)[1];
    assert g.blocks == ForwarderBlocks(i.callee, i.site);
  }

  /** Blocks that keep the same instructions are related once erased if the kept ones are. */
  lemma {:induction false} ErasedBlockRel(fs: seq<Function>, gs: seq<Function>, b: Block, c: Block)
    requires |b| == |c|
    requires forall k :: 0 <= k < |b| ==> IsExtra(b[k]) == IsExtra(c[k])
    requires forall k :: 0 <= k < |b| && !IsExtra(b[k]) ==> InstrRel(fs, gs, Clean(b[k]), Clean(c[k]))
    ensures BlockRel(fs, gs, EraseBlock(b), EraseBlock(c))
  {
    hide IsExtra;
    hide InstrRel;
    hide Clean;
    if b != [] {
      ErasedBlockRel(fs, gs, b[..|b| - 1], c[..|c| - 1]);
    }
  }

  // ---- The erased modules are related ----

  lemma RedirectedSink(fs: seq<Function>, first: nat, k: nat, p: Position)
    requires AllLabelled(fs) && Fresh(fs, first) && CallsOk(fs) && k < |fs| && IsWrapped(fs[k])
    requires IsPosition(fs[k].blocks, p) && IsSink(InstrAt(fs[k].blocks, p))
    ensures var i, j := InstrAt(fs[k].blocks, p), WrapInstr(fs[k].blocks, first + Total(fs[..k]), 0, p);
            !IsExtra(i) && !IsExtra(j) && Redirected(Erase(fs), Erase(WrapAll(fs, first)), Clean(i), Clean(j))
  {
    hide OutputsOf;
    hide WrapAll;
    hide WrapperFunction;
    hide WrapInstr;
    hide Labelled;
    hide ForwarderBlocks;
    hide EraseFunction;
    hide Erase;
    hide Fresh;
    hide AllLabelled;
    hide Rank;
    hide Total;
    hide GetSiteId;
    hide Sinks;
    var i := InstrAt(fs[k].blocks, p);
    assert DirectCallOk(fs, i) by {
      assert fs[k] in fs;
    }
    var n := WrapperOfSink(fs, first, k, p);
    NamesDiffer(n, n);
    WrapperNotReserved(WrapperName(n));
    EraseWrapper(n, i);
    FindErased(WrapAll(fs, first), WrapperName(n));
    FindErased(fs, i.callee.name);
  }

  ghost predicate AllKnown(fs: seq<Function>, a: seq<Function>, b: seq<Function>) {
    forall name :: Find(fs, name).Some? ==> Known(a, b, name)
  }

  lemma WrappedInstr(f: Function, m: nat, b: nat, i: nat)
    requires IsPosition(f.blocks, (b, i))
    ensures var g := WrapFunction(f, m);
            && g.sig == f.sig && |g.blocks| == |f.blocks| && |g.blocks[b]| == |f.blocks[b]|
            && g.blocks[b][i] == if IsWrapped(f) then WrapInstr(f.blocks, m, 0, (b, i)) else f.blocks[b][i]
  {
    hide WrapInstr;
  }

  lemma WrappedShape(f: Function, m: nat)
    ensures var g := WrapFunction(f, m);
            && g.name == f.name && g.sig == f.sig && |g.blocks| == |f.blocks|
            && forall b :: 0 <= b < |f.blocks| ==> |g.blocks[b]| == |f.blocks[b]|
  {
    hide WrapInstr;
  }

  lemma ErasedFunctionRel(fs: seq<Function>, first: nat, k: nat)
    requires AllLabelled(fs) && Fresh(fs, first) && CallsOk(fs) && k < |fs|
    requires AllKnown(fs, Erase(fs), Erase(WrapAll(fs, first)))
    ensures FunctionRel(Erase(fs), Erase(WrapAll(fs, first)), EraseFunction(fs[k]),
                        EraseFunction(WrapFunction(fs[k], first + Total(fs[..k]))))
  {
    hide OutputsOf;
    hide WrapAll;
    hide WrapInstr;
    hide WrapFunction;
    hide Labelled;
    hide InstrRel;
    hide Clean;
    hide IsExtra;
    hide AllKnown;
    hide BlockRel;
    hide EraseBlock;
    hide Erase;
    hide Fresh;
    hide CallsOk;
    hide AllLabelled;
    hide Total;
    var f, m := fs[k], first + Total(fs[..k]);
    var g := WrapFunction(f, m);
    WrappedShape(f, m);
    var a, c := Erase(fs), Erase(WrapAll(fs, first));
    forall b | 0 <= b < |f.blocks|
      ensures BlockRel(a, c, EraseBlock(f.blocks[b]), EraseBlock(g.blocks[b]))
    {
      forall i | 0 <= i < |f.blocks[b]|
        ensures IsExtra(f.blocks[b][i]) == IsExtra(g.blocks[b][i])
        ensures !IsExtra(f.blocks[b][i]) ==> InstrRel(a, c, Clean(f.blocks[b][i]), Clean(g.blocks[b][i]))
      {
        ErasedInstrRel(fs, first, k, (b, i));
        WrappedInstr(f, m, b, i);
      }
      ErasedBlockRel(a, c, f.blocks[b], g.blocks[b]);
    }
  }

  lemma ErasedInstrRel(fs: seq<Function>, first: nat, k: nat, p: Position)
    requires AllLabelled(fs) && Fresh(fs, first) && CallsOk(fs) && k < |fs| && IsPosition(fs[k].blocks, p)
    requires AllKnown(fs, Erase(fs), Erase(WrapAll(fs, first)))
    ensures var i := InstrAt(fs[k].blocks, p);
            var j := if IsWrapped(fs[k]) then WrapInstr(fs[k].blocks, first + Total(fs[..k]), 0, p) else i;
            && IsExtra(i) == IsExtra(j)
            && (!IsExtra(i) ==> InstrRel(Erase(fs), Erase(WrapAll(fs, first)), Clean(i), Clean(j)))
  {
    hide OutputsOf;
    hide WrapAll;
    hide Labelled;
    hide Known;
    hide Redirected;
    hide Erase;
    hide Rank;
    hide Sinks;
    hide Fresh;
    hide AllLabelled;
    hide Total;
    hide GetSiteId;
    var i := InstrAt(fs[k].blocks, p);
    assert DirectCallOk(fs, i) by {
      assert fs[k] in fs;
    }
    if IsSink(i) && IsWrapped(fs[k]) {
      RedirectedSink(fs, first, k, p);
    }
  }

  lemma ErasedForwards(fs: seq<Function>, first: nat, env: Environment)
    requires AllLabelled(fs) && Fresh(fs, first) && CallsOk(fs) && NoWrapperTargets(env, first)
    ensures Forwards(Erase(fs), Erase(WrapAll(fs, first)), env)
    ensures AllKnown(fs, Erase(fs), Erase(WrapAll(fs, first)))
  {
    hide Labelled;
    hide WrapAll;
    hide WrapperName;
    hide WrapFunction;
    hide FunctionRel;
    hide Fresh;
    hide CallsOk;
    hide EraseFunction;
    hide AllLabelled;
    hide Total;
    var a, gs := Erase(fs), WrapAll(fs, first);
    forall name
      ensures Find(a, name).Some? <==> Find(fs, name).Some?
    {
      FindErased(fs, name);
    }
    forall name | Find(a, name).Some?
      ensures Find(Erase(gs), name).Some? && FunctionRel(a, Erase(gs), Find(a, name).value, Find(Erase(gs), name).value)
    {
      FindErased(fs, name);
      var k, m := FindBody(fs, first, name);
      FindErased(gs, name);
      ErasedFunctionRel(fs, first, k);
    }
    forall v
      ensures Known(a, Erase(gs), env.target(v))
    {
      FindErased(gs, env.target(v));
      if Find(fs, env.target(v)).None? && Find(gs, env.target(v)).Some? {
        FindOther(fs, first, env.target(v));
      }
    }
  }

  // ---- Separation ----

  lemma SeparatedEach(fs: seq<Function>)
    ensures Separated(fs) <==> forall k :: 0 <= k < |fs| ==> Separated([fs[k]])
  {
    hide IsExtra;
    hide IsProgramInstr;
    forall k | 0 <= k < |fs| && Separated(fs)
      ensures Separated([fs[k]])
    {
      assert fs[k] in fs;
    }
    forall f | f in fs && forall k :: 0 <= k < |fs| ==> Separated([fs[k]])
      ensures Separated([f])
    {
    }
    assert (forall f :: f in fs ==> Separated([f])) ==> Separated(fs) by {
      assert forall f :: f in fs ==> f in [f];
    }
  }

  lemma SeparatedWrapper(n: nat, i: Instr)
    requires IsSink(i) && OutputsInRange(i)
    ensures Separated([WrapperFunction(n, i)])
  {
    hide OutputsOf;
    hide Preamble;
    hide IsExtra;
    hide WrapperName;
    PreambleExtra(i.callee.sig, OutputsOf(i));
    var pre := Preamble(i.callee.sig, OutputsOf(i));
    var g := WrapperFunction(n, i);
    forall b, j | 0 <= b < |g.blocks| && 0 <= j < |g.blocks[b]|
      ensures IsExtra(g.blocks[b][j]) || IsProgramInstr(g.blocks[b][j])
    {
      if b == 1 && j >= |pre| {
        assert g.blocks[b][j] == Forwarded(i)[j - |pre|];
      } else if b == 1 {
        assert g.blocks[b][j] == pre[j];
      }
    }
  }

  lemma SeparatedBody(f: Function, m: nat)
    requires Separated([f])
    requires forall p :: IsPosition(f.blocks, p) && IsSink(InstrAt(f.blocks, p)) ==> !IsExtra(InstrAt(f.blocks, p))
    ensures Separated([WrapFunction(f, m)])
  {
    hide OutputsOf;
    hide IsExtra;
    hide WrapperName;
    hide Rank;
    hide Sinks;
    var g := WrapFunction(f, m);
    forall b, j | 0 <= b < |g.blocks| && 0 <= j < |g.blocks[b]|
      ensures IsExtra(g.blocks[b][j]) || IsProgramInstr(g.blocks[b][j])
    {
      var i := InstrAt(f.blocks, (b, j));
      assert IsExtra(i) || IsProgramInstr(i) by {
        assert f in [f] && f.blocks[b][j] == i;
      }
      assert g.blocks[b][j] == if IsWrapped(f) then WrapInstr(f.blocks, m, 0, (b, j)) else i;
    }
  }

  lemma SeparatedWrappers(fs: seq<Function>, first: nat, t: nat) returns (k: nat, p: Position)
    requires AllLabelled(fs) && t < |Wrappers(fs, first)|
    ensures k < |fs| && IsPosition(fs[k].blocks, p) && IsSink(InstrAt(fs[k].blocks, p))
    ensures OutputsInRange(InstrAt(fs[k].blocks, p))
    ensures Wrappers(fs, first)[t] == WrapperFunction(first + t, InstrAt(fs[k].blocks, p))
    decreases |fs|
  {
    hide OutputsOf;
    hide WrapperFunction;
    hide WrappersOf;
    hide Labelled;
    hide Sinks;
    var init, f := fs[..|fs| - 1], fs[|fs| - 1];
    WrapperCount(init, first);
    if t < |Wrappers(init, first)| {
      k, p := SeparatedWrappers(init, first, t);
    } else {
      k := |fs| - 1;
      WrappersAt(f, first + Total(init), t - Total(init));
      p := Sinks(f.blocks)[SinkCount(f) - 1 - (t - Total(init))];
    }
  }

  /** Wrapping keeps program code and instrumentation apart. */
  lemma SeparatedWrapAll(fs: seq<Function>, first: nat)
    requires AllLabelled(fs) && CallsOk(fs) && Separated(fs)
    ensures Separated(WrapAll(fs, first))
  {
    hide OutputsOf;
    hide Labelled;
    hide WrapperFunction;
    hide WrapFunction;
    hide Bodies;
    hide Wrappers;
    hide Separated;
    hide Total;
    hide IsExtra;
    var gs := WrapAll(fs, first);
    SeparatedEach(fs);
    BodiesLength(fs, first);
    forall j | 0 <= j < |gs|
      ensures Separated([gs[j]])
    {
      if j < |fs| {
        var m := BodyAt(fs, first, j);
        forall p | IsPosition(fs[j].blocks, p) && IsSink(InstrAt(fs[j].blocks, p))
          ensures !IsExtra(InstrAt(fs[j].blocks, p))
        {
          SinksNotExtra(fs, j, p);
        }
        SeparatedBody(fs[j], m);
      } else {
        var k, p := SeparatedWrappers(fs, first, j - |fs|);
        SeparatedWrapper(first + (j - |fs|), InstrAt(fs[k].blocks, p));
      }
    }
    SeparatedEach(gs);
  }

  lemma SinksNotExtra(fs: seq<Function>, k: nat, p: Position)
    requires CallsOk(fs) && k < |fs| && IsPosition(fs[k].blocks, p) && IsSink(InstrAt(fs[k].blocks, p))
    ensures !IsExtra(InstrAt(fs[k].blocks, p))
  {
    hide OutputsOf;
    assert fs[k] in fs;
    assert DirectCallOk(fs, InstrAt(fs[k].blocks, p));
  }

  // ---- The theorem ----

  /**
   A module and the module with its sinks wrapped run alike: the same calls of the program's functions with the same
   arguments, results and call-site ids, the same questions to the environment, and the same end or lack of one.
   */
  lemma WrappingPreservesMeaning(fs: seq<Function>, first: nat, env: Environment, entry: string, args: seq<Value>)
    requires AllLabelled(fs) && Fresh(fs, first) && CallsOk(fs) && Separated(fs)
    requires NoWrapperTargets(env, first) && Find(fs, entry).Some?
    ensures SameRuns(fs, WrapAll(fs, first), env, entry, args)
    ensures Separated(WrapAll(fs, first))
  {
    hide *;
    ErasureSound(fs, env, entry, args);
    SeparatedWrapAll(fs, first);
    ErasureSound(WrapAll(fs, first), env, entry, args);
    ErasedForwards(fs, first, env);
    KnownEntry(fs, first, entry);
    ForwardingSound(Erase(fs), Erase(WrapAll(fs, first)), env, entry, args);
    SameRunsChain(fs, Erase(fs), Erase(WrapAll(fs, first)), WrapAll(fs, first), env, entry, args);
  }

  lemma KnownEntry(fs: seq<Function>, first: nat, entry: string)
    requires AllLabelled(fs) && AllKnown(fs, Erase(fs), Erase(WrapAll(fs, first))) && Find(fs, entry).Some?
    ensures Known(Erase(fs), Erase(WrapAll(fs, first)), entry)
  {
    hide AllLabelled;
    hide WrapAll;
    hide Erase;
    hide Known;
  }

  lemma SameRunsChain(a: seq<Function>, b: seq<Function>, c: seq<Function>, d: seq<Function>,
                      env: Environment, entry: string, args: seq<Value>)
    requires SameRuns(a, b, env, entry, args) && SameRuns(b, c, env, entry, args) && SameRuns(d, c, env, entry, args)
    ensures SameRuns(a, d, env, entry, args)
  {
    hide Reaches;
  }
}
