/** `WrapSinks`: every sink call is replaced by a call to a wrapper of its own. */
module WrapSinks {
  import opened Text
  import opened Metadata
  import opened Ir

  function WrapperName(n: nat): string {
    WRAPPER_PREFIX + "." + Decimal(n)
  }

  /** The zero-based parameters labelled as output, in the order of their argument tuples. */
  function Outputs(roles: seq<Role>): seq<int> {
    if roles == [] then []
    else
      var last := roles[|roles| - 1];
      Outputs(roles[..|roles| - 1]) + if last.isInput then [] else [last.index - 1]
  }

  function OutputsOf(i: Instr): seq<int>
    requires i.Call?
  {
    Outputs(Roles(i.site))
  }

  predicate IsSink(i: Instr) {
    IsDirectCall(i) && OutputsOf(i) != []
  }

  /** What `getArg` demands: an output label names one of the callee's fixed parameters. */
  predicate OutputsInRange(i: Instr) {
    IsSink(i) ==> forall k :: 0 <= k < |OutputsOf(i)| ==> 0 <= OutputsOf(i)[k] < |i.callee.sig.parameters|
  }

  // ---- The wrapper ----

  /** The casts and `sea_dsa_set_modified` calls in front of the forwarded call. */
  function Preamble(sig: Signature, outputs: seq<int>): seq<Instr>
    requires forall k :: 0 <= k < |outputs| ==> 0 <= outputs[k] < |sig.parameters|
  {
    if outputs == [] then []
    else
      var slot := |outputs| - 1;
      var arg := Argument(outputs[slot], sig.parameters[outputs[slot]]);
      Preamble(sig, outputs[..slot]) +
      CastCode(arg, Temp(0, slot)) + [SetModifiedCall(CastOperand(arg, Temp(0, slot)))]
  }

  function Forwarded(i: Instr): seq<Instr>
    requires IsDirectCall(i)
  {
    var sig := i.callee.sig;
    var dst := if sig.result.Void? then None else Some(Prog(0));
    [Call(dst, i.callee, seq(|sig.parameters|, k requires 0 <= k < |sig.parameters| => Argument(k, sig.parameters[k])),
          i.site, i.tags),
     Return(if dst.Some? then Some(Result(Prog(0), sig.result)) else None)]
  }

  function WrapperFunction(n: nat, i: Instr): Function
    requires IsSink(i) && OutputsInRange(i)
  {
    Function(WrapperName(n), i.callee.sig, [[Jump(1)], Preamble(i.callee.sig, OutputsOf(i)) + Forwarded(i)])
  }

  function WrappedCall(n: nat, i: Instr): Instr
    requires IsDirectCall(i)
  {
    Call(i.dst, Direct(WrapperName(n), i.callee.sig), i.args, None, None)
  }

  // ---- A function ----

  function SinksInBlock(b: Block, at: nat): seq<Position> {
    if b == [] then []
    else SinksInBlock(b[..|b| - 1], at) + if IsSink(b[|b| - 1]) then [(at, |b| - 1)] else []
  }

  /** The positions of the sink calls, in program order. */
  function Sinks(blocks: seq<Block>): seq<Position> {
    if blocks == [] then []
    else Sinks(blocks[..|blocks| - 1]) + SinksInBlock(blocks[|blocks| - 1], |blocks| - 1)
  }

  /** How many sinks precede a position. */
  function Rank(blocks: seq<Block>, p: Position): nat
    requires IsPosition(blocks, p)
  {
    |Sinks(blocks[..p.0])| + |SinksInBlock(blocks[p.0][..p.1], p.0)|
  }

  lemma {:induction false} SinksInBlockAt(b: Block, at: nat, i: nat)
    requires i < |b| && IsSink(b[i])
    ensures SinksInBlock(b[..i], at) + [(at, i)] <= SinksInBlock(b, at)
  {
    if i < |b| - 1 {
      var c := b[..|b| - 1];
      assert c[..i] == b[..i];
      SinksInBlockAt(c, at, i);
    }
  }

  lemma {:induction false} SinksInBlockPositions(b: Block, at: nat, r: nat)
    requires r < |SinksInBlock(b, at)|
    ensures var p := SinksInBlock(b, at)[r]; p.0 == at && p.1 < |b| && IsSink(b[p.1])
  {
    var c := b[..|b| - 1];
    if r < |SinksInBlock(c, at)| {
      SinksInBlockPositions(c, at, r);
    }
  }

  /** The list holds positions of sinks only. */
  lemma {:induction false} SinksArePositions(blocks: seq<Block>, r: nat)
    requires r < |Sinks(blocks)|
    ensures var p := Sinks(blocks)[r]; IsPosition(blocks, p) && IsSink(InstrAt(blocks, p))
  {
    var n := |blocks| - 1;
    var before := Sinks(blocks[..n]);
    if r < |before| {
      SinksArePositions(blocks[..n], r);
    } else {
      SinksInBlockPositions(blocks[n], n, r - |before|);
    }
  }

  /** The list holds every sink, at its rank; so distinct sinks have distinct ranks. */
  lemma {:induction false} SinkAtRank(blocks: seq<Block>, p: Position)
    requires IsPosition(blocks, p) && IsSink(InstrAt(blocks, p))
    ensures Rank(blocks, p) < |Sinks(blocks)| && Sinks(blocks)[Rank(blocks, p)] == p
  {
    hide IsSink;
    hide SinksInBlock;
    var n := |blocks| - 1;
    if p.0 < n {
      assert blocks[..n][..p.0] == blocks[..p.0];
      SinkAtRank(blocks[..n], p);
    } else {
      SinksInBlockAt(blocks[n], n, p.1);
    }
  }

  lemma RankOfSink(blocks: seq<Block>, r: nat)
    requires r < |Sinks(blocks)|
    ensures var p := Sinks(blocks)[r]; IsPosition(blocks, p) && IsSink(InstrAt(blocks, p)) && Rank(blocks, p) == r
  {
    SinksArePositions(blocks, r);
    RankIsIndex(blocks, r);
  }

  lemma {:induction false} RankIsIndex(blocks: seq<Block>, r: nat)
    requires r < |Sinks(blocks)| && IsPosition(blocks, Sinks(blocks)[r])
    ensures Rank(blocks, Sinks(blocks)[r]) == r
  {
    var n := |blocks| - 1;
    var before := Sinks(blocks[..n]);
    var p := Sinks(blocks)[r];
    if r < |before| {
      SinksArePositions(blocks[..n], r);
      assert blocks[..n][..p.0] == blocks[..p.0];
      RankIsIndex(blocks[..n], r);
    } else {
      SinksInBlockPositions(blocks[n], n, r - |before|);
      RankInBlock(blocks[n], n, r - |before|);
    }
  }

  lemma {:induction false} RankInBlock(b: Block, at: nat, r: nat)
    requires r < |SinksInBlock(b, at)| && SinksInBlock(b, at)[r].1 < |b|
    ensures |SinksInBlock(b[..SinksInBlock(b, at)[r].1], at)| == r
  {
    var c := b[..|b| - 1];
    if r < |SinksInBlock(c, at)| {
      SinksInBlockPositions(c, at, r);
      var i := SinksInBlock(c, at)[r].1;
      assert c[..i] == b[..i];
      RankInBlock(c, at, r);
    }
  }

  /** The sink of rank `r` is wrapped by wrapper `first + count - 1 - r`, because the worklist is a stack. */
  function WrapInstr(blocks: seq<Block>, first: nat, from: nat, p: Position): Instr
    requires IsPosition(blocks, p)
  {
    var i := InstrAt(blocks, p);
    if IsSink(i) && from <= Rank(blocks, p) < |Sinks(blocks)| then
      WrappedCall(first + |Sinks(blocks)| - 1 - Rank(blocks, p), i)
    else i
  }

  /** The blocks once the sinks of rank `from` and above are wrapped. */
  function WrapBlocks(blocks: seq<Block>, first: nat, from: nat): seq<Block> {
    seq(|blocks|, b requires 0 <= b < |blocks| =>
      seq(|blocks[b]|, i requires 0 <= i < |blocks[b]| => WrapInstr(blocks, first, from, (b, i))))
  }

  predicate IsWrapped(f: Function) {
    !IsWrapperName(f.name)
  }

  function SinkCount(f: Function): nat {
    if IsWrapped(f) then |Sinks(f.blocks)| else 0
  }

  ghost predicate Labelled(f: Function) {
    IsWrapped(f) ==> forall p :: IsPosition(f.blocks, p) ==> OutputsInRange(InstrAt(f.blocks, p))
  }

  function WrapFunction(f: Function, first: nat): Function {
    if IsWrapped(f) then f.(blocks := WrapBlocks(f.blocks, first, 0)) else f
  }

  /** A function's wrappers in the order they are created: the last sink comes first. */
  ghost function WrappersOf(f: Function, first: nat): (ws: seq<Function>)
    requires Labelled(f)
    ensures |ws| == SinkCount(f)
  {
    seq(SinkCount(f), t requires 0 <= t < SinkCount(f) =>
      RankOfSink(f.blocks, SinkCount(f) - 1 - t);
      WrapperFunction(first + t, InstrAt(f.blocks, Sinks(f.blocks)[SinkCount(f) - 1 - t])))
  }

  lemma WrappersAt(f: Function, first: nat, t: nat)
    requires Labelled(f) && t < SinkCount(f)
    ensures var p := Sinks(f.blocks)[SinkCount(f) - 1 - t];
            && IsPosition(f.blocks, p) && IsSink(InstrAt(f.blocks, p)) && OutputsInRange(InstrAt(f.blocks, p))
            && WrappersOf(f, first)[t] == WrapperFunction(first + t, InstrAt(f.blocks, p))
            && WrappersOf(f, first)[t].name == WrapperName(first + t)
  {
    hide OutputsOf;
    RankOfSink(f.blocks, SinkCount(f) - 1 - t);
  }

  // ---- A module ----

  function Total(fs: seq<Function>): nat {
    if fs == [] then 0 else Total(fs[..|fs| - 1]) + SinkCount(fs[|fs| - 1])
  }

  ghost predicate AllLabelled(fs: seq<Function>) {
    forall k :: 0 <= k < |fs| ==> Labelled(fs[k])
  }

  function Bodies(fs: seq<Function>, first: nat): seq<Function> {
    if fs == [] then []
    else Bodies(fs[..|fs| - 1], first) + [WrapFunction(fs[|fs| - 1], first + Total(fs[..|fs| - 1]))]
  }

  ghost function Wrappers(fs: seq<Function>, first: nat): seq<Function>
    requires AllLabelled(fs)
  {
    if fs == [] then []
    else Wrappers(fs[..|fs| - 1], first) + WrappersOf(fs[|fs| - 1], first + Total(fs[..|fs| - 1]))
  }

  /** The functions in place, then the wrappers, function by function. */
  ghost function WrapAll(fs: seq<Function>, first: nat): seq<Function>
    requires AllLabelled(fs)
  {
    Bodies(fs, first) + Wrappers(fs, first)
  }

  /** The names the counter will produce are not taken. */
  ghost predicate Fresh(fs: seq<Function>, first: nat) {
    forall k, n: nat :: 0 <= k < |fs| && first <= n ==> fs[k].name != WrapperName(n)
  }

  // ---- The pass ----

  lemma SameBlocks(c: seq<Block>, d: seq<Block>)
    requires |c| == |d| && forall b :: 0 <= b < |c| ==> |c[b]| == |d[b]|
    requires forall b, i :: 0 <= b < |c| && 0 <= i < |c[b]| ==> c[b][i] == d[b][i]
    ensures c == d
  {
    forall b | 0 <= b < |c|
      ensures c[b] == d[b]
    {
    }
  }

  lemma WrapDone(blocks: seq<Block>, first: nat)
    ensures WrapBlocks(blocks, first, |Sinks(blocks)|) == blocks
  {
    SameBlocks(WrapBlocks(blocks, first, |Sinks(blocks)|), blocks);
  }

  function Replace(blocks: seq<Block>, p: Position, i: Instr): seq<Block>
    requires IsPosition(blocks, p)
  {
    blocks[p.0 := blocks[p.0][p.1 := i]]
  }

  /** Of two partly wrapped bodies, the one with one more sink wrapped differs at that sink only. */
  lemma WrapNext(blocks: seq<Block>, first: nat, from: nat, q: Position)
    requires from < |Sinks(blocks)| && IsPosition(blocks, q) && q != Sinks(blocks)[from]
    ensures WrapInstr(blocks, first, from, q) == WrapInstr(blocks, first, from + 1, q)
  {
    if IsSink(InstrAt(blocks, q)) {
      SinkAtRank(blocks, q);
    }
  }

  /** Replacing the sink on top of the worklist is the step from one partly wrapped body to the next. */
  lemma WrapOne(blocks: seq<Block>, first: nat, from: nat)
    requires from < |Sinks(blocks)|
    ensures var p := Sinks(blocks)[from]; var c := WrapBlocks(blocks, first, from + 1);
            && IsPosition(blocks, p) && IsPosition(c, p)
            && InstrAt(c, p) == InstrAt(blocks, p) && IsSink(InstrAt(blocks, p))
            && WrapBlocks(blocks, first, from) ==
               Replace(c, p, WrappedCall(first + |Sinks(blocks)| - 1 - from, InstrAt(blocks, p)))
  {
    hide OutputsOf;
    var p := Sinks(blocks)[from];
    RankOfSink(blocks, from);
    var c := WrapBlocks(blocks, first, from + 1);
    var d := WrapBlocks(blocks, first, from);
    var call := WrappedCall(first + |Sinks(blocks)| - 1 - from, InstrAt(blocks, p));
    assert WrapInstr(blocks, first, from, p) == call && WrapInstr(blocks, first, from + 1, p) == InstrAt(blocks, p);
    ReplaceAt(blocks, c, d, p, call, first, from);
  }

  lemma ReplaceAt(blocks: seq<Block>, c: seq<Block>, d: seq<Block>, p: Position, call: Instr, first: nat, from: nat)
    requires from < |Sinks(blocks)| && p == Sinks(blocks)[from] && IsPosition(blocks, p)
    requires c == WrapBlocks(blocks, first, from + 1) && d == WrapBlocks(blocks, first, from)
    requires WrapInstr(blocks, first, from, p) == call
    ensures d == Replace(c, p, call)
  {
    var e := Replace(c, p, call);
    forall b, i | 0 <= b < |d| && 0 <= i < |d[b]|
      ensures d[b][i] == e[b][i]
    {
      if (b, i) != p {
        WrapNext(blocks, first, from, (b, i));
      }
    }
    SameBlocks(d, e);
  }

  lemma OutputsStart(call: Instr)
    requires call.Call?
    ensures Outputs(RolesUpTo(call.site, 0)) == []
  {
  }

  lemma OutputsStep(call: Instr, slot: nat)
    requires call.Call?
    ensures Outputs(RolesUpTo(call.site, slot + 1)) ==
            Outputs(RolesUpTo(call.site, slot)) +
            match RoleAt(call.site, slot)
            case None => []
            case Some(role) => if role.isInput then [] else [role.index - 1]
  {
    hide RoleAt;
    var roles := RolesUpTo(call.site, slot + 1);
    if RoleAt(call.site, slot).Some? {
      assert roles[..|roles| - 1] == RolesUpTo(call.site, slot);
    } else {
      assert roles == RolesUpTo(call.site, slot);
    }
  }

  lemma NamesDiffer(m: nat, n: nat)
    ensures WrapperName(m) == WrapperName(n) <==> m == n
    ensures IsWrapperName(WrapperName(n))
  {
    DecimalInjective(m, n);
    var prefix := WRAPPER_PREFIX + ".";
    assert WrapperName(m)[|prefix|..] == Decimal(m);
    assert WrapperName(n)[|prefix|..] == Decimal(n);
    assert WrapperName(n) == WRAPPER_PREFIX + ("." + Decimal(n));
  }

  /** The module while function `k` is being processed, with `left` calls still on the worklist. */
  ghost function PartlyDone(fs: seq<Function>, k: nat, first: nat, left: nat): seq<Function>
    requires k < |fs| && Labelled(fs[k]) && left <= SinkCount(fs[k])
  {
    var f := fs[k];
    fs[k := if IsWrapped(f) then f.(blocks := WrapBlocks(f.blocks, first, left)) else f] +
    WrappersOf(f, first)[..SinkCount(f) - left]
  }

  lemma PartlyDoneStart(fs: seq<Function>, k: nat, first: nat)
    requires k < |fs| && Labelled(fs[k])
    ensures PartlyDone(fs, k, first, SinkCount(fs[k])) == fs
  {
    hide OutputsOf;
    if IsWrapped(fs[k]) {
      WrapDone(fs[k].blocks, first);
    }
  }

  lemma UpdateAppend<T>(s: seq<T>, k: nat, x: T, y: T, added: seq<T>, t: nat)
    requires k < |s| && t < |added|
    ensures (s[k := x] + added[..t] + [added[t]])[k := y] == s[k := y] + added[..t + 1]
  {
  }

  lemma PartlyDoneNext(fs: seq<Function>, k: nat, first: nat, j: nat)
    requires k < |fs| && Labelled(fs[k]) && j < SinkCount(fs[k])
    ensures var f := fs[k]; var p := Sinks(f.blocks)[j]; var before := PartlyDone(fs, k, first, j + 1);
            var c := before[k].blocks;
            && IsPosition(c, p) && IsSink(InstrAt(c, p)) && OutputsInRange(InstrAt(c, p))
            && PartlyDone(fs, k, first, j) ==
               (before + [WrapperFunction(first + SinkCount(f) - 1 - j, InstrAt(c, p))])
                 [k := before[k].(blocks := Replace(c, p, WrappedCall(first + SinkCount(f) - 1 - j, InstrAt(c, p))))]
  {
    hide OutputsOf;
    hide Sinks;
    hide WrapInstr;
    hide Rank;
    hide WrapperFunction;
    hide WrappersOf;
    hide WrapBlocks;
    hide IsWrapperName;
    var f := fs[k];
    WrapOne(f.blocks, first, j);
    var t := SinkCount(f) - 1 - j;
    WrappersAt(f, first, t);
    var x, y := f.(blocks := WrapBlocks(f.blocks, first, j + 1)), f.(blocks := WrapBlocks(f.blocks, first, j));
    var added := WrappersOf(f, first);
    var before := PartlyDone(fs, k, first, j + 1);
    assert before == fs[k := x] + added[..t] && before[k] == x;
    assert PartlyDone(fs, k, first, j) == fs[k := y] + added[..t + 1];
    UpdateAppend(fs, k, x, y, added, t);
  }

  lemma PartlyDoneEnd(fs: seq<Function>, k: nat, first: nat)
    requires k < |fs| && Labelled(fs[k])
    ensures PartlyDone(fs, k, first, 0) ==
            fs[k := WrapFunction(fs[k], first)] + WrappersOf(fs[k], first)
  {
    hide OutputsOf;
  }

  /** While a function is being processed, the wrapper about to be created still has a fresh name. */
  lemma NamesStayFresh(fs: seq<Function>, k: nat, first: nat, left: nat)
    requires k < |fs| && Fresh(fs, first) && Labelled(fs[k]) && left <= SinkCount(fs[k])
    ensures var gs := PartlyDone(fs, k, first, left);
            && |gs| > k
            && forall j :: 0 <= j < |gs| ==> gs[j].name != WrapperName(first + SinkCount(fs[k]) - left)
  {
    hide OutputsOf;
    hide WrapBlocks;
    hide WrapperName;
    hide WrappersOf;
    hide Sinks;
    hide OutputsInRange;
    hide IsWrapperName;
    hide WrapperFunction;
    var gs := PartlyDone(fs, k, first, left);
    var t := SinkCount(fs[k]) - left;
    forall j | 0 <= j < |gs|
      ensures gs[j].name != WrapperName(first + t)
    {
      if j >= |fs| {
        assert gs[j] == WrappersOf(fs[k], first)[j - |fs|];
        WrappersAt(fs[k], first, j - |fs|);
        NamesDiffer(first + (j - |fs|), first + t);
      } else {
        assert gs[j].name == fs[j].name;
      }
    }
  }

  /** The wrappers of a module, numbered in the order they are created. */
  lemma {:induction false} WrapperAt(fs: seq<Function>, first: nat, t: nat)
    requires AllLabelled(fs) && t < |Wrappers(fs, first)|
    ensures Wrappers(fs, first)[t].name == WrapperName(first + t)
  {
    hide Labelled;
    hide WrappersOf;
    hide Sinks;
    hide SinkCount;
    hide OutputsOf;
    hide WrapperFunction;
    hide WrapperName;
    var init, f := fs[..|fs| - 1], fs[|fs| - 1];
    if t < |Wrappers(init, first)| {
      WrapperAt(init, first, t);
    } else {
      WrapperCount(init, first);
      WrappersAt(f, first + Total(init), t - |Wrappers(init, first)|);
    }
  }

  lemma {:induction false} WrapperCount(fs: seq<Function>, first: nat)
    requires AllLabelled(fs)
    ensures |Wrappers(fs, first)| == Total(fs) && |Bodies(fs, first)| == |fs|
    ensures forall k :: 0 <= k < |fs| ==> Bodies(fs, first)[k].name == fs[k].name
  {
    hide Labelled;
    hide SinkCount;
    hide WrappersOf;
    hide WrapFunction;
    BodyCount(fs, first);
    if fs != [] {
      WrapperCount(fs[..|fs| - 1], first);
    }
  }

  lemma {:induction false} BodyCount(fs: seq<Function>, first: nat)
    ensures |Bodies(fs, first)| == |fs|
    ensures forall k :: 0 <= k < |fs| ==> Bodies(fs, first)[k].name == fs[k].name
  {
    hide SinkCount;
    hide Total;
    hide WrapBlocks;
    if fs != [] {
      BodyCount(fs[..|fs| - 1], first);
    }
  }

  /** The module after the first `k` functions have been visited. */
  ghost function Visited(fs: seq<Function>, first: nat, k: nat): seq<Function>
    requires AllLabelled(fs)
  {
    if k < |fs| then Bodies(fs[..k], first) + fs[k..] + Wrappers(fs[..k], first) else WrapAll(fs, first)
  }

  function Numbered(fs: seq<Function>, first: nat, k: nat): nat {
    first + if k < |fs| then Total(fs[..k]) else Total(fs)
  }

  lemma VisitedNames(fs: seq<Function>, first: nat, k: nat)
    requires AllLabelled(fs) && Fresh(fs, first)
    ensures Fresh(Visited(fs, first, k), Numbered(fs, first, k))
    ensures |Visited(fs, first, k)| == |fs| + Numbered(fs, first, k) - first
    ensures k >= |fs| ==> forall j :: |fs| <= j < |Visited(fs, first, k)| ==> IsWrapperName(Visited(fs, first, k)[j].name)
  {
    hide Labelled;
    hide Bodies;
    hide Wrappers;
    hide WrapperName;
    hide IsWrapperName;
    var gs := Visited(fs, first, k);
    var part := if k < |fs| then fs[..k] else fs;
    WrapperCount(part, first);
    forall j | 0 <= j < |gs|
      ensures j < |fs| ==> gs[j].name == fs[j].name
      ensures j >= |fs| ==> gs[j].name == WrapperName(first + (j - |fs|)) && IsWrapperName(gs[j].name)
    {
      if j >= |fs| {
        WrapperAt(part, first, j - |fs|);
        NamesDiffer(0, first + (j - |fs|));
      }
    }
    forall j, m: nat | 0 <= j < |gs| && Numbered(fs, first, k) <= m
      ensures gs[j].name != WrapperName(m)
    {
      if j >= |fs| {
        NamesDiffer(first + (j - |fs|), m);
      }
    }
  }

  lemma BodiesNext(fs: seq<Function>, first: nat, k: nat)
    requires AllLabelled(fs) && k < |fs|
    ensures Bodies(fs[..k + 1], first) == Bodies(fs[..k], first) + [WrapFunction(fs[k], first + Total(fs[..k]))]
    ensures Wrappers(fs[..k + 1], first) == Wrappers(fs[..k], first) + WrappersOf(fs[k], first + Total(fs[..k]))
    ensures Total(fs[..k + 1]) == Total(fs[..k]) + SinkCount(fs[k])
    ensures |Bodies(fs[..k], first)| == k
  {
    hide Labelled;
    hide WrapFunction;
    hide WrappersOf;
    hide SinkCount;
    WrapperCount(fs[..k], first);
    assert fs[..k + 1][..k] == fs[..k];
  }

  lemma VisitSequence<T>(bodies: seq<T>, s: seq<T>, wrappers: seq<T>, k: nat, g: T, created: seq<T>)
    requires |bodies| == k < |s|
    ensures (bodies + s[k..] + wrappers)[k] == s[k]
    ensures bodies + [g] + s[k + 1..] + (wrappers + created) == (bodies + s[k..] + wrappers)[k := g] + created
  {
  }

  lemma VisitNext(fs: seq<Function>, first: nat, k: nat)
    requires AllLabelled(fs) && k < |fs|
    ensures |Visited(fs, first, k)| > k && Visited(fs, first, k)[k] == fs[k]
    ensures Numbered(fs, first, k + 1) == Numbered(fs, first, k) + SinkCount(fs[k])
    ensures Visited(fs, first, k + 1) ==
            Visited(fs, first, k)[k := WrapFunction(fs[k], Numbered(fs, first, k))] +
            WrappersOf(fs[k], Numbered(fs, first, k))
  {
    hide Labelled;
    hide WrapFunction;
    hide WrappersOf;
    hide SinkCount;
    hide Bodies;
    hide Wrappers;
    hide Total;
    BodiesNext(fs, first, k);
    var from := first + Total(fs[..k]);
    VisitSequence(Bodies(fs[..k], first), fs, Wrappers(fs[..k], first), k, WrapFunction(fs[k], from),
                  WrappersOf(fs[k], from));
    if k + 1 == |fs| {
      assert fs[..k + 1] == fs && fs[k + 1..] == [];
    }
  }

  lemma VisitWrapper(fs: seq<Function>, first: nat, k: nat)
    requires AllLabelled(fs) && Fresh(fs, first) && |fs| <= k < |Visited(fs, first, k)|
    ensures var f := Visited(fs, first, k)[k];
            !IsWrapped(f) && SinkCount(f) == 0 && WrapFunction(f, Numbered(fs, first, k)) == f
  {
    VisitedNames(fs, first, k);
  }

  lemma VisitStart(fs: seq<Function>, first: nat)
    requires AllLabelled(fs)
    ensures Visited(fs, first, 0) == fs && Numbered(fs, first, 0) == first
  {
    assert fs[..0] == [] && fs[0..] == fs;
  }

  lemma UnlabelledWrapper(f: Function)
    requires !IsWrapped(f)
    ensures Labelled(f) && forall first :: WrappersOf(f, first) == []
  {
  }

  lemma {:induction false} TotalGrows(fs: seq<Function>, k: nat)
    requires k <= |fs|
    ensures Total(fs[..k]) <= Total(fs)
    decreases |fs|
  {
    hide SinkCount;
    if k == |fs| {
      assert fs[..k] == fs;
    } else {
      assert fs[..|fs| - 1][..k] == fs[..k];
      TotalGrows(fs[..|fs| - 1], k);
    }
  }

  /** One visit, of a function of the module or of a wrapper. */
  lemma VisitAny(fs: seq<Function>, first: nat, k: nat)
    requires AllLabelled(fs) && Fresh(fs, first) && k < |Visited(fs, first, k)|
    ensures var gs, m := Visited(fs, first, k), Numbered(fs, first, k);
            && Labelled(gs[k]) && Fresh(gs, m)
            && Numbered(fs, first, k + 1) == m + SinkCount(gs[k])
            && Visited(fs, first, k + 1) == gs[k := WrapFunction(gs[k], m)] + WrappersOf(gs[k], m)
  {
    hide Labelled;
    hide WrapFunction;
    hide WrappersOf;
    hide SinkCount;
    hide Total;
    hide Bodies;
    hide Wrappers;
    hide WrapperName;
    VisitedNames(fs, first, k);
    if k < |fs| {
      VisitNext(fs, first, k);
    } else {
      VisitWrapper(fs, first, k);
      UnlabelledWrapper(Visited(fs, first, k)[k]);
    }
  }

  lemma VisitBounds(fs: seq<Function>, first: nat, k: nat)
    requires AllLabelled(fs) && Fresh(fs, first)
    ensures |Visited(fs, first, k)| == |fs| + Numbered(fs, first, k) - first
    ensures first <= Numbered(fs, first, k) <= first + Total(fs)
    ensures k >= |Visited(fs, first, k)| ==>
              Visited(fs, first, k) == WrapAll(fs, first) && Numbered(fs, first, k) == first + Total(fs)
  {
    hide Labelled;
    hide Total;
    hide Bodies;
    hide Wrappers;
    hide WrapperName;
    VisitedNames(fs, first, k);
    if k < |fs| {
      TotalGrows(fs, k);
    }
  }

  /** The worklist's loop: what is still on the list, what the module looks like, and the next number. */
  ghost predicate Wrapping(fs: seq<Function>, k: nat, first: nat, calls: seq<Position>, gs: seq<Function>, n: nat)
    requires k < |fs| && Labelled(fs[k])
  {
    |calls| <= SinkCount(fs[k]) && SinkCount(fs[k]) <= |Sinks(fs[k].blocks)| && calls == Sinks(fs[k].blocks)[..|calls|] &&
    gs == PartlyDone(fs, k, first, |calls|) && n == first + SinkCount(fs[k]) - |calls|
  }

  lemma WrapStart(fs: seq<Function>, k: nat, first: nat, calls: seq<Position>)
    requires k < |fs| && Labelled(fs[k])
    requires calls == if IsWrapped(fs[k]) then Sinks(fs[k].blocks) else []
    ensures Wrapping(fs, k, first, calls, fs, first) && |calls| == SinkCount(fs[k])
  {
    hide Sinks;
    hide PartlyDone;
    hide IsWrapped;
    hide Labelled;
    PartlyDoneStart(fs, k, first);
  }

  lemma WrapNextCall(fs: seq<Function>, k: nat, first: nat, calls: seq<Position>, gs: seq<Function>, n: nat)
    requires k < |fs| && Labelled(fs[k]) && Fresh(fs, first) && Wrapping(fs, k, first, calls, gs, n) && calls != []
    ensures var p := calls[|calls| - 1];
            && k < |gs| && IsPosition(gs[k].blocks, p) && IsSink(InstrAt(gs[k].blocks, p))
            && OutputsInRange(InstrAt(gs[k].blocks, p)) && (forall j :: 0 <= j < |gs| ==> gs[j].name != WrapperName(n))
            && var call := InstrAt(gs[k].blocks, p);
               Wrapping(fs, k, first, calls[..|calls| - 1],
                        (gs + [WrapperFunction(n, call)])[k := gs[k].(blocks := Replace(gs[k].blocks, p, WrappedCall(n, call)))],
                        n + 1)
  {
    hide Sinks;
    hide PartlyDone;
    hide Labelled;
    hide Fresh;
    hide SinkCount;
    hide WrapperFunction;
    hide WrapperName;
    hide WrappedCall;
    hide Replace;
    hide IsSink;
    hide OutputsInRange;
    var j := |calls| - 1;
    PartlyDoneNext(fs, k, first, j);
    NamesStayFresh(fs, k, first, j + 1);
    assert calls[..j] == Sinks(fs[k].blocks)[..j];
  }

  lemma WrapEnd(fs: seq<Function>, k: nat, first: nat, gs: seq<Function>, n: nat)
    requires k < |fs| && Labelled(fs[k]) && Wrapping(fs, k, first, [], gs, n)
    ensures gs == fs[k := WrapFunction(fs[k], first)] + WrappersOf(fs[k], first) && n == first + SinkCount(fs[k])
  {
    hide *;
    WrappingParts(fs, k, first, [], gs, n);
    PartlyDoneEnd(fs, k, first);
  }

  lemma WrappingParts(fs: seq<Function>, k: nat, first: nat, calls: seq<Position>, gs: seq<Function>, n: nat)
    requires k < |fs| && Labelled(fs[k]) && Wrapping(fs, k, first, calls, gs, n)
    ensures |calls| <= SinkCount(fs[k]) && gs == PartlyDone(fs, k, first, |calls|)
    ensures n == first + SinkCount(fs[k]) - |calls|
  {
    hide Sinks;
    hide PartlyDone;
    hide Labelled;
    hide SinkCount;
  }

  lemma SinkIsDirect(i: Instr)
    requires IsSink(i)
    ensures IsDirectCall(i)
  {
  }

  class Pass {
    /** The number of the next wrapper; it outlives the module being processed. */
    var n: nat

    constructor ()
      ensures n == 0
    {
      n := 0;
    }

    /** The casts and `sea_dsa_set_modified` calls for the recorded outputs. */
    method PrepareOutputs(sig: Signature, outputs: seq<int>) returns (body: Block)
      requires forall k :: 0 <= k < |outputs| ==> 0 <= outputs[k] < |sig.parameters|
      ensures body == Preamble(sig, outputs)
    {
      hide CastCode;
      hide SetModifiedCall;
      hide CastOperand;
      body := [];
      var k := 0;
      while k < |outputs|
        invariant k <= |outputs|
        invariant body == Preamble(sig, outputs[..k])
      {
        assert outputs[..k + 1][..k] == outputs[..k];
        var arg := Argument(outputs[k], sig.parameters[outputs[k]]);
        body := body + CastCode(arg, Temp(0, k)) + [SetModifiedCall(CastOperand(arg, Temp(0, k)))];
        k := k + 1;
      }
      assert outputs[..k] == outputs;
    }

    /** Appends the wrapper of one sink call. */
    method CreateWrapper(M: Module, call: Instr) returns (wrapper: Callee)
      requires IsSink(call) && OutputsInRange(call)
      requires forall k :: 0 <= k < |M.functions| ==> M.functions[k].name != WrapperName(n)
      modifies this, M
      ensures n == old(n) + 1
      ensures wrapper == Direct(WrapperName(old(n)), call.callee.sig)
      ensures M.functions == old(M.functions) + [WrapperFunction(old(n), call)]
    {
      hide OutputsOf;
      hide Preamble;
      hide WrapperName;
      var sig := call.callee.sig;
      wrapper := Direct(WrapperName(n), sig);
      var params := seq(|sig.parameters|, k requires 0 <= k < |sig.parameters| => Argument(k, sig.parameters[k]));
      var dst := if sig.result.Void? then None else Some(Prog(0));
      var original := Call(dst, call.callee, params, call.site, call.tags);
      var body := PrepareOutputs(sig, OutputsOf(call));
      body := body + [original, Return(if dst.Some? then Some(Result(Prog(0), sig.result)) else None)];
      M.functions := M.functions + [Function(WrapperName(n), sig, [[Jump(1)], body])];
      n := n + 1;
    }

    /** Scans the argument metadata of one call: the outputs recorded for it, none when it need not be wrapped. */
    method ScanCall(call: Instr) returns (list: seq<int>)
      requires call.Call?
      ensures list == OutputsOf(call)
    {
      hide GetSiteId;
      hide ArgumentType;
      hide Outputs;
      hide RolesUpTo;
      OutputsStart(call);
      list := [];
      var count := ArgumentCount(call.site);
      var slot := 0;
      while slot < count
        invariant slot <= count
        invariant list == Outputs(RolesUpTo(call.site, slot))
      {
        OutputsStep(call, slot);
        var argument := GetArgument(call.site, slot);
        if argument.Some? {
          var kind := ArgumentType(argument.value.labels);
          if kind.Some? && !kind.value {
            list := list + [argument.value.index - 1];
          }
        }
        slot := slot + 1;
      }
    }

    /** The first half of `runOnFunction`: the worklist of calls to be wrapped. */
    method CollectSinks(f: Function) returns (callsToWrap: seq<Position>)
      ensures callsToWrap == if IsWrapped(f) then Sinks(f.blocks) else []
    {
      hide OutputsOf;
      hide IsSink;
      hide SinksInBlock;
      callsToWrap := [];
      var b := 0;
      while b < |f.blocks|
        invariant b <= |f.blocks|
        invariant callsToWrap == if IsWrapped(f) then Sinks(f.blocks[..b]) else []
      {
        assert f.blocks[..b + 1][..b] == f.blocks[..b];
        if !IsWrapperName(f.name) {
          var found := CollectSinksInBlock(f.blocks[b], b);
          callsToWrap := callsToWrap + found;
        }
        b := b + 1;
      }
      assert f.blocks[..b] == f.blocks;
    }

    method CollectSinksInBlock(block: Block, b: nat) returns (callsToWrap: seq<Position>)
      ensures callsToWrap == SinksInBlock(block, b)
    {
      hide OutputsOf;
      callsToWrap := [];
      var i := 0;
      while i < |block|
        invariant i <= |block|
        invariant callsToWrap == SinksInBlock(block[..i], b)
      {
        assert block[..i + 1][..i] == block[..i];
        if IsDirectCall(block[i]) {
          var list := ScanCall(block[i]);
          if list != [] {
            callsToWrap := callsToWrap + [(b, i)];
          }
        }
        i := i + 1;
      }
      assert block[..i] == block;
    }

    /** Replaces one call by a call to its new wrapper. */
    method WrapCall(M: Module, k: nat, p: Position)
      requires k < |M.functions| && IsPosition(M.functions[k].blocks, p)
      requires IsSink(InstrAt(M.functions[k].blocks, p)) && OutputsInRange(InstrAt(M.functions[k].blocks, p))
      requires forall j :: 0 <= j < |M.functions| ==> M.functions[j].name != WrapperName(n)
      modifies this, M
      ensures n == old(n) + 1
      ensures var g := old(M.functions)[k]; var call := InstrAt(g.blocks, p);
              M.functions == (old(M.functions) + [WrapperFunction(old(n), call)])
                               [k := g.(blocks := Replace(g.blocks, p, WrappedCall(old(n), call)))]
    {
      hide IsSink;
      hide OutputsInRange;
      hide WrapperFunction;
      hide WrapperName;
      hide Replace;
      SinkIsDirect(InstrAt(M.functions[k].blocks, p));
      var call := InstrAt(M.functions[k].blocks, p);
      var wrapper := CreateWrapper(M, call);
      var g := M.functions[k];
      M.functions := M.functions[k := g.(blocks := Replace(g.blocks, p, Call(call.dst, wrapper, call.args, None, None)))];
    }

    method RunOnFunction(M: Module, k: nat) returns (changed: bool)
      requires k < |M.functions| && Labelled(M.functions[k]) && Fresh(M.functions, n)
      modifies this, M
      ensures changed <==> SinkCount(old(M.functions)[k]) > 0
      ensures n == old(n) + SinkCount(old(M.functions)[k])
      ensures M.functions == old(M.functions)[k := WrapFunction(old(M.functions)[k], old(n))] +
                             WrappersOf(old(M.functions)[k], old(n))
    {
      hide *;
      var f := M.functions[k];
      var callsToWrap := CollectSinks(f);
      changed := callsToWrap != [];
      ghost var fs, first := M.functions, n;
      WrapStart(fs, k, first, callsToWrap);
      while callsToWrap != []
        invariant Wrapping(fs, k, first, callsToWrap, M.functions, n)
        decreases |callsToWrap|
      {
        var p := callsToWrap[|callsToWrap| - 1];
        WrapNextCall(fs, k, first, callsToWrap, M.functions, n);
        callsToWrap := callsToWrap[..|callsToWrap| - 1];
        WrapCall(M, k, p);
      }
      WrapEnd(fs, k, first, M.functions, n);
    }

    /**
     Visits every function of the module, the wrappers appended meanwhile included: they carry the sinks' metadata
     and are left alone because of their names, so the loop ends.
     */
    method RunOnModule(M: Module) returns (changed: bool)
      requires AllLabelled(M.functions) && Fresh(M.functions, n)
      modifies this, M
      ensures M.functions == WrapAll(old(M.functions), old(n))
      ensures n == old(n) + Total(old(M.functions))
      ensures changed <==> Total(old(M.functions)) > 0
      ensures |M.functions| == |old(M.functions)| + Total(old(M.functions))
    {
      hide *;
      ghost var fs, first := M.functions, n;
      changed := false;
      var k := 0;
      VisitStart(fs, first);
      VisitBounds(fs, first, k);
      while k < |M.functions|
        invariant M.functions == Visited(fs, first, k) && n == Numbered(fs, first, k)
        invariant changed <==> n > first
        invariant k <= |M.functions| == |fs| + n - first && first <= n <= first + Total(fs)
        decreases |fs| + Total(fs) - k
      {
        VisitAny(fs, first, k);
        var c := RunOnFunction(M, k);
        changed := changed || c;
        k := k + 1;
        VisitBounds(fs, first, k);
      }
      VisitBounds(fs, first, k);
    }
  }
}
