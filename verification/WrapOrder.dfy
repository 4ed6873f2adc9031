/** What wrapping does to the sinks and to the call-site ids: nothing is lost, doubled or numbered twice. */
module WrapOrder {
  import opened Text
  import opened Metadata
  import opened Ir
  import opened WrapSinks
  import opened WrapMeaning

  // ---- Exactly one wrapper for every sink ----

  /**
   Every sink of a function whose name does not mark it as a wrapper becomes a call to a wrapper of its own, which
   forwards to the original callee and takes over the call-site metadata; distinct sinks get distinct wrappers.
   */
  lemma WrappedOnce(fs: seq<Function>, first: nat, k: nat, p: Position, l: nat, q: Position) returns (m: nat, n: nat)
    requires AllLabelled(fs) && Fresh(fs, first) && k < |fs| && l < |fs|
    requires IsWrapped(fs[k]) && IsPosition(fs[k].blocks, p) && IsSink(InstrAt(fs[k].blocks, p))
    requires IsWrapped(fs[l]) && IsPosition(fs[l].blocks, q) && IsSink(InstrAt(fs[l].blocks, q))
    ensures OutputsInRange(InstrAt(fs[k].blocks, p)) && first <= m < first + Total(fs)
    ensures var gs := WrapAll(fs, first);
            && k < |gs| && IsPosition(gs[k].blocks, p)
            && InstrAt(gs[k].blocks, p) == WrappedCall(m, InstrAt(fs[k].blocks, p))
            && Find(gs, WrapperName(m)) == Some(WrapperFunction(m, InstrAt(fs[k].blocks, p)))
            && l < |gs| && IsPosition(gs[l].blocks, q)
            && InstrAt(gs[l].blocks, q) == WrappedCall(n, InstrAt(fs[l].blocks, q))
    ensures (k, p) == (l, q) <==> m == n
    ensures WrapperName(m) == WrapperName(n) <==> m == n
  {
    hide OutputsOf;
    hide WrapperFunction;
    hide Wrappers;
    hide Bodies;
    hide Rank;
    hide Sinks;
    hide WrapInstr;
    hide WrapFunction;
    hide WrapperName;
    m := WrapperOfSink(fs, first, k, p);
    n := WrapperOfSink(fs, first, l, q);
    WrappedAt(fs, first, k, p);
    WrappedAt(fs, first, l, q);
    NumbersApart(fs, k, p, l, q);
    NamesDiffer(m, n);
  }

  lemma WrappedAt(fs: seq<Function>, first: nat, k: nat, p: Position)
    requires AllLabelled(fs) && k < |fs| && IsWrapped(fs[k]) && IsPosition(fs[k].blocks, p)
    ensures var gs := WrapAll(fs, first);
            && k < |gs| && IsPosition(gs[k].blocks, p)
            && InstrAt(gs[k].blocks, p) == WrapInstr(fs[k].blocks, first + Total(fs[..k]), 0, p)
  {
    hide OutputsOf;
    hide Wrappers;
    hide Bodies;
    hide WrapInstr;
    hide WrapFunction;
    hide Total;
    BodiesLength(fs, first);
    var m := BodyAt(fs, first, k);
    WrappedInstr(fs[k], m, p.0, p.1);
  }

  /** Numbers of sinks in different functions lie in disjoint ranges, in one function they are ranked. */
  lemma NumbersApart(fs: seq<Function>, k: nat, p: Position, l: nat, q: Position)
    requires k < |fs| && IsWrapped(fs[k]) && IsPosition(fs[k].blocks, p) && IsSink(InstrAt(fs[k].blocks, p))
    requires l < |fs| && IsWrapped(fs[l]) && IsPosition(fs[l].blocks, q) && IsSink(InstrAt(fs[l].blocks, q))
    ensures (k, p) == (l, q) <==>
            Total(fs[..k]) + SinkCount(fs[k]) - Rank(fs[k].blocks, p) ==
            Total(fs[..l]) + SinkCount(fs[l]) - Rank(fs[l].blocks, q)
  {
    hide OutputsOf;
    hide Rank;
    hide Sinks;
    SinkAtRank(fs[k].blocks, p);
    SinkAtRank(fs[l].blocks, q);
    TotalNext(fs, k);
    TotalNext(fs, l);
    if k < l {
      TotalMonotone(fs, k + 1, l);
    } else if l < k {
      TotalMonotone(fs, l + 1, k);
    }
  }

  lemma TotalNext(fs: seq<Function>, k: nat)
    requires k < |fs|
    ensures Total(fs[..k + 1]) == Total(fs[..k]) + SinkCount(fs[k])
  {
    hide SinkCount;
    assert fs[..k + 1][..k] == fs[..k];
  }

  lemma TotalMonotone(fs: seq<Function>, k: nat, l: nat)
    requires k <= l <= |fs|
    ensures Total(fs[..k]) <= Total(fs[..l])
  {
    hide SinkCount;
    assert fs[..l][..k] == fs[..k];
    TotalGrows(fs[..l], k);
  }

  /** No sink is left in a function the pass looks at. */
  lemma NoSinkLeft(fs: seq<Function>, first: nat, k: nat, p: Position)
    requires AllLabelled(fs) && Fresh(fs, first)
    requires k < |WrapAll(fs, first)| && IsWrapped(WrapAll(fs, first)[k])
    requires IsPosition(WrapAll(fs, first)[k].blocks, p)
    ensures !IsSink(InstrAt(WrapAll(fs, first)[k].blocks, p))
  {
    hide Wrappers;
    hide Bodies;
    hide WrapInstr;
    hide WrapFunction;
    hide WrapperName;
    hide Total;
    hide IsSink;
    BodiesLength(fs, first);
    if k >= |fs| {
      WrapperAt(fs, first, k - |fs|);
      NamesDiffer(0, first + (k - |fs|));
    } else {
      var m := BodyAt(fs, first, k);
      WrappedShape(fs[k], m);
      WrappedInstr(fs[k], m, p.0, p.1);
      NotASink(fs[k].blocks, m, p);
    }
  }

  lemma NotASink(blocks: seq<Block>, m: nat, p: Position)
    requires IsPosition(blocks, p)
    ensures !IsSink(WrapInstr(blocks, m, 0, p))
  {
    hide Rank;
    hide Sinks;
    if IsSink(InstrAt(blocks, p)) {
      SinkAtRank(blocks, p);
    }
  }

  // ---- The order of call-site ids ----

  /** The ids of a block's annotated direct calls, in program order. */
  function IdsOfBlock(b: Block): seq<int> {
    if b == [] then []
    else IdsOfBlock(b[..|b| - 1]) + IdsOf(b[|b| - 1])
  }

  function IdsOf(i: Instr): seq<int> {
    match SiteOf(i) case None => [] case Some(id) => [id]
  }

  function IdsOfBlocks(blocks: seq<Block>): seq<int> {
    if blocks == [] then [] else IdsOfBlocks(blocks[..|blocks| - 1]) + IdsOfBlock(blocks[|blocks| - 1])
  }

  /** All call-site ids of a module in the order `OutputDependencyMap` visits them. */
  function Ids(fs: seq<Function>): seq<int> {
    if fs == [] then [] else Ids(fs[..|fs| - 1]) + IdsOfBlocks(fs[|fs| - 1].blocks)
  }

  /** The sink calls of a list of blocks, in program order. */
  function SinkCallsOfBlock(b: Block): seq<Instr> {
    if b == [] then []
    else SinkCallsOfBlock(b[..|b| - 1]) + if IsSink(b[|b| - 1]) then [b[|b| - 1]] else []
  }

  function SinkCalls(blocks: seq<Block>): seq<Instr> {
    if blocks == [] then []
    else SinkCalls(blocks[..|blocks| - 1]) + SinkCallsOfBlock(blocks[|blocks| - 1])
  }

  function Reverse<T>(s: seq<T>): seq<T> {
    if s == [] then [] else [s[|s| - 1]] + Reverse(s[..|s| - 1])
  }

  /** The calls of a block that stay in place. */
  function KeptOfBlock(b: Block): Block {
    if b == [] then []
    else KeptOfBlock(b[..|b| - 1]) + if IsSink(b[|b| - 1]) then [] else [b[|b| - 1]]
  }

  function KeptIds(blocks: seq<Block>): seq<int> {
    if blocks == [] then []
    else KeptIds(blocks[..|blocks| - 1]) + IdsOfBlock(KeptOfBlock(blocks[|blocks| - 1]))
  }

  /** The ids that stay in the module's own functions: those of calls that are not wrapped. */
  function UnwrappedIds(fs: seq<Function>): seq<int> {
    if fs == [] then []
    else
      var f := fs[|fs| - 1];
      UnwrappedIds(fs[..|fs| - 1]) + if IsWrapped(f) then KeptIds(f.blocks) else IdsOfBlocks(f.blocks)
  }

  /** The ids that move into wrappers: function by function, each function's sinks from last to first. */
  function WrappedIds(fs: seq<Function>): seq<int> {
    if fs == [] then []
    else
      var f := fs[|fs| - 1];
      WrappedIds(fs[..|fs| - 1]) + if IsWrapped(f) then Reverse(IdsOfBlock(SinkCalls(f.blocks))) else []
  }

  lemma {:induction false} SinkCallsInBlock(b: Block, at: nat)
    ensures |SinkCallsOfBlock(b)| == |SinksInBlock(b, at)|
    ensures forall r :: 0 <= r < |SinksInBlock(b, at)| ==>
              SinksInBlock(b, at)[r].1 < |b| && SinkCallsOfBlock(b)[r] == b[SinksInBlock(b, at)[r].1]
  {
    hide IsSink;
    if b != [] {
      SinkCallsInBlock(b[..|b| - 1], at);
    }
  }

  lemma {:induction false} SinkCallsCount(blocks: seq<Block>)
    ensures |SinkCalls(blocks)| == |Sinks(blocks)|
  {
    hide IsSink;
    hide SinksInBlock;
    hide SinkCallsOfBlock;
    if blocks != [] {
      SinkCallsCount(blocks[..|blocks| - 1]);
      SinkCallsInBlock(blocks[|blocks| - 1], |blocks| - 1);
    }
  }

  lemma {:induction false} SinkCallAt(blocks: seq<Block>, r: nat)
    requires r < |Sinks(blocks)|
    ensures r < |SinkCalls(blocks)| && IsPosition(blocks, Sinks(blocks)[r])
    ensures SinkCalls(blocks)[r] == InstrAt(blocks, Sinks(blocks)[r])
  {
    hide IsSink;
    hide SinksInBlock;
    hide SinkCallsOfBlock;
    var init, n := blocks[..|blocks| - 1], |blocks| - 1;
    SinkCallsCount(init);
    if r < |Sinks(init)| {
      SinkCallAt(init, r);
      assert Sinks(blocks)[r] == Sinks(init)[r];
    } else {
      SinkCallsInBlock(blocks[n], n);
      assert Sinks(blocks)[r] == SinksInBlock(blocks[n], n)[r - |Sinks(init)|];
      SinksInBlockPositions(blocks[n], n, r - |Sinks(init)|);
    }
  }

  /** The list of sink calls and the list of their positions agree. */
  lemma SinkCallsAt(blocks: seq<Block>)
    ensures |SinkCalls(blocks)| == |Sinks(blocks)|
    ensures forall r :: 0 <= r < |Sinks(blocks)| ==>
              IsPosition(blocks, Sinks(blocks)[r]) && SinkCalls(blocks)[r] == InstrAt(blocks, Sinks(blocks)[r])
  {
    hide *;
    SinkCallsCount(blocks);
    forall r | 0 <= r < |Sinks(blocks)|
      ensures IsPosition(blocks, Sinks(blocks)[r]) && SinkCalls(blocks)[r] == InstrAt(blocks, Sinks(blocks)[r])
    {
      SinkCallAt(blocks, r);
    }
  }

  lemma {:induction false} IdsConcat(a: Block, b: Block)
    ensures IdsOfBlock(a + b) == IdsOfBlock(a) + IdsOfBlock(b)
  {
    hide IdsOf;
    if b == [] {
      assert a + b == a;
    } else {
      assert (a + b)[..|a + b| - 1] == a + b[..|b| - 1];
      IdsConcat(a, b[..|b| - 1]);
    }
  }

  lemma {:induction false} IdsModuleConcat(fs: seq<Function>, gs: seq<Function>)
    ensures Ids(fs + gs) == Ids(fs) + Ids(gs)
  {
    hide IdsOfBlocks;
    if gs == [] {
      assert fs + gs == fs;
    } else {
      assert (fs + gs)[..|fs + gs| - 1] == fs + gs[..|gs| - 1];
      IdsModuleConcat(fs, gs[..|gs| - 1]);
    }
  }

  // ---- Bodies keep the other ids ----

  lemma {:induction false} WrappedBlockIds(b: Block, c: Block)
    requires |b| == |c|
    requires forall i :: 0 <= i < |b| ==> if IsSink(b[i]) then SiteOf(c[i]) == None else c[i] == b[i]
    ensures IdsOfBlock(c) == IdsOfBlock(KeptOfBlock(b))
  {
    hide IsSink;
    hide SiteOf;
    if b != [] {
      var init, last := b[..|b| - 1], b[|b| - 1];
      WrappedBlockIds(init, c[..|c| - 1]);
      if IsSink(last) {
        assert IdsOf(c[|c| - 1]) == [];
        assert IdsOfBlock(c) == IdsOfBlock(c[..|c| - 1]);
        assert KeptOfBlock(b) == KeptOfBlock(init);
      } else {
        IdsConcat(KeptOfBlock(init), [last]);
        IdsSingle(last);
      }
    }
  }

  lemma {:induction false} WrappedBodyIds(blocks: seq<Block>, cs: seq<Block>)
    requires |blocks| == |cs| && forall b :: 0 <= b < |blocks| ==> |cs[b]| == |blocks[b]|
    requires forall b, i :: 0 <= b < |blocks| && 0 <= i < |blocks[b]| ==>
               if IsSink(blocks[b][i]) then SiteOf(cs[b][i]) == None else cs[b][i] == blocks[b][i]
    ensures IdsOfBlocks(cs) == KeptIds(blocks)
  {
    hide IsSink;
    hide SiteOf;
    hide IdsOfBlock;
    hide KeptOfBlock;
    if blocks != [] {
      var n := |blocks| - 1;
      WrappedBodyIds(blocks[..n], cs[..n]);
      WrappedBlockIds(blocks[n], cs[n]);
    }
  }

  lemma WrapInstrIds(blocks: seq<Block>, m: nat, p: Position)
    requires IsPosition(blocks, p)
    ensures var i, j := InstrAt(blocks, p), WrapInstr(blocks, m, 0, p);
            if IsSink(i) then SiteOf(j) == None else j == i
  {
    hide Rank;
    hide Sinks;
    hide OutputsOf;
    if IsSink(InstrAt(blocks, p)) {
      SinkAtRank(blocks, p);
    }
  }

  lemma BodyIds(f: Function, m: nat)
    requires IsWrapped(f)
    ensures IdsOfBlocks(WrapFunction(f, m).blocks) == KeptIds(f.blocks)
  {
    hide IsSink;
    hide SiteOf;
    hide WrapInstr;
    var cs := WrapFunction(f, m).blocks;
    forall b, i | 0 <= b < |f.blocks| && 0 <= i < |f.blocks[b]|
      ensures if IsSink(f.blocks[b][i]) then SiteOf(cs[b][i]) == None else cs[b][i] == f.blocks[b][i]
    {
      WrapInstrIds(f.blocks, m, (b, i));
      assert cs[b][i] == WrapInstr(f.blocks, m, 0, (b, i));
    }
    WrappedBodyIds(f.blocks, cs);
  }

  lemma {:induction false} BodiesIds(fs: seq<Function>, first: nat)
    ensures Ids(Bodies(fs, first)) == UnwrappedIds(fs)
  {
    hide WrapBlocks;
    hide IdsOfBlocks;
    hide KeptIds;
    hide Sinks;
    if fs != [] {
      var init, f := fs[..|fs| - 1], fs[|fs| - 1];
      BodiesIds(init, first);
      var gs := Bodies(fs, first);
      assert gs[..|gs| - 1] == Bodies(init, first);
      if IsWrapped(f) {
        BodyIds(f, first + Total(init));
      }
    }
  }

  // ---- Wrappers carry the sinks' ids ----

  lemma {:induction false} NoSitesNoIds(b: Block)
    requires forall k :: 0 <= k < |b| ==> SiteOf(b[k]) == None
    ensures IdsOfBlock(b) == []
  {
    hide SiteOf;
    if b != [] {
      NoSitesNoIds(b[..|b| - 1]);
    }
  }

  lemma {:induction false} PreambleSites(sig: Signature, outputs: seq<int>)
    requires forall k :: 0 <= k < |outputs| ==> 0 <= outputs[k] < |sig.parameters|
    ensures forall k :: 0 <= k < |Preamble(sig, outputs)| ==> SiteOf(Preamble(sig, outputs)[k]) == None
  {
    hide IsWrapperName;
    if outputs != [] {
      PreambleSites(sig, outputs[..|outputs| - 1]);
    }
  }

  lemma IdsSingle(i: Instr)
    ensures IdsOfBlock([i]) == IdsOf(i)
  {
    hide IdsOf;
    assert [i][..0] == [];
  }

  lemma WrapperIds(n: nat, i: Instr)
    requires IsSink(i) && OutputsInRange(i)
    ensures IdsOfBlocks(WrapperFunction(n, i).blocks) == IdsOf(i)
  {
    hide OutputsOf;
    hide IdsOfBlock;
    hide Preamble;
    hide WrapperName;
    hide GetSiteId;
    var g := WrapperFunction(n, i);
    var pre, post := Preamble(i.callee.sig, OutputsOf(i)), Forwarded(i);
    PreambleSites(i.callee.sig, OutputsOf(i));
    NoSitesNoIds(pre);
    IdsConcat(pre, post);
    assert post == [post[0]] + [post[1]];
    IdsConcat([post[0]], [post[1]]);
    IdsSingle(post[0]);
    IdsSingle(post[1]);
    IdsSingle(Jump(1));
    assert g.blocks[..1] == [[Jump(1)]] && g.blocks[..1][..0] == [];
    assert IdsOfBlocks(g.blocks[..1]) == [];
  }

  lemma {:induction false} WrappersIds(ws: seq<Function>, calls: seq<Instr>)
    requires |ws| == |calls|
    requires forall t :: 0 <= t < |ws| ==> IdsOfBlocks(ws[t].blocks) == IdsOf(calls[t])
    ensures Ids(ws) == IdsOfBlock(calls)
  {
    hide IdsOf;
    hide IdsOfBlocks;
    if ws != [] {
      WrappersIds(ws[..|ws| - 1], calls[..|calls| - 1]);
    }
  }

  lemma {:induction false} ReverseAt<T>(s: seq<T>, r: nat)
    requires r < |s|
    ensures |Reverse(s)| == |s| && Reverse(s)[r] == s[|s| - 1 - r]
  {
    ReverseLength(s);
    if r > 0 {
      ReverseAt(s[..|s| - 1], r - 1);
    }
  }

  lemma {:induction false} ReverseLength<T>(s: seq<T>)
    ensures |Reverse(s)| == |s|
  {
    if s != [] {
      ReverseLength(s[..|s| - 1]);
    }
  }

  lemma {:induction false} IdsOfReverse(calls: Block)
    ensures IdsOfBlock(Reverse(calls)) == Reverse(IdsOfBlock(calls))
  {
    hide IdsOf;
    if calls != [] {
      var init, last := calls[..|calls| - 1], calls[|calls| - 1];
      IdsOfReverse(init);
      IdsConcat([last], Reverse(init));
      IdsSingle(last);
      ReverseSnoc(IdsOfBlock(init), last);
    }
  }

  lemma ReverseSnoc(ids: seq<int>, i: Instr)
    ensures Reverse(ids + IdsOf(i)) == IdsOf(i) + Reverse(ids)
  {
    hide SiteOf;
    if SiteOf(i).Some? {
      assert (ids + IdsOf(i))[..|ids|] == ids;
    } else {
      assert ids + IdsOf(i) == ids;
    }
  }

  lemma FunctionWrapperIds(f: Function, m: nat)
    requires Labelled(f)
    ensures Ids(WrappersOf(f, m)) == if IsWrapped(f) then Reverse(IdsOfBlock(SinkCalls(f.blocks))) else []
  {
    hide OutputsOf;
    hide IdsOf;
    hide IdsOfBlock;
    hide IdsOfBlocks;
    hide WrapperFunction;
    hide Sinks;
    hide SinkCalls;
    hide Reverse;
    if IsWrapped(f) {
      var ws, calls := WrappersOf(f, m), SinkCalls(f.blocks);
      SinkCallsAt(f.blocks);
      ReverseLength(calls);
      forall t | 0 <= t < |ws|
        ensures IdsOfBlocks(ws[t].blocks) == IdsOf(Reverse(calls)[t])
      {
        WrappersAt(f, m, t);
        ReverseAt(calls, t);
        WrapperIds(m + t, calls[|calls| - 1 - t]);
      }
      WrappersIds(ws, Reverse(calls));
      IdsOfReverse(calls);
    }
  }

  lemma WrapperIdsStep(fs: seq<Function>, first: nat)
    requires AllLabelled(fs) && fs != []
    ensures var init, f := fs[..|fs| - 1], fs[|fs| - 1];
            && AllLabelled(init) && Labelled(f)
            && Wrappers(fs, first) == Wrappers(init, first) + WrappersOf(f, first + Total(init))
            && WrappedIds(fs) ==
               WrappedIds(init) + if IsWrapped(f) then Reverse(IdsOfBlock(SinkCalls(f.blocks))) else []
  {
    hide WrappersOf;
    hide SinkCalls;
    hide Reverse;
    hide Total;
  }

  lemma NoWrapperIds(first: nat)
    ensures AllLabelled([]) && Ids(Wrappers([], first)) == WrappedIds([])
  {
  }

  lemma {:induction false} AllWrapperIds(fs: seq<Function>, first: nat)
    requires AllLabelled(fs)
    ensures Ids(Wrappers(fs, first)) == WrappedIds(fs)
  {
    hide *;
    if fs == [] {
      NoWrapperIds(first);
    } else {
      var init, f := fs[..|fs| - 1], fs[|fs| - 1];
      WrapperIdsStep(fs, first);
      AllWrapperIds(init, first);
      FunctionWrapperIds(f, first + Total(init));
      IdsModuleConcat(Wrappers(init, first), WrappersOf(f, first + Total(init)));
    }
  }

  /**
   The order of the dependency map: the calls that are not wrapped in program order, then, function by function, the
   wrapped ones from last to first.
   */
  lemma EmissionOrder(fs: seq<Function>, first: nat)
    requires AllLabelled(fs)
    ensures Ids(WrapAll(fs, first)) == UnwrappedIds(fs) + WrappedIds(fs)
  {
    hide *;
    BodiesIds(fs, first);
    AllWrapperIds(fs, first);
    IdsModuleConcat(Bodies(fs, first), Wrappers(fs, first));
    WrapAllIs(fs, first);
  }

  lemma WrapAllIs(fs: seq<Function>, first: nat)
    requires AllLabelled(fs)
    ensures WrapAll(fs, first) == Bodies(fs, first) + Wrappers(fs, first)
  {
    hide Bodies;
    hide Wrappers;
    hide AllLabelled;
  }

  // ---- The multiset of ids is preserved ----

  lemma {:induction false} BlockIdsSplit(b: Block)
    ensures multiset(IdsOfBlock(b)) == multiset(IdsOfBlock(KeptOfBlock(b))) + multiset(IdsOfBlock(SinkCallsOfBlock(b)))
  {
    hide IsSink;
    hide IdsOf;
    hide IdsOfBlock;
    if b == [] {
      NoIds();
    } else {
      var init, last := b[..|b| - 1], b[|b| - 1];
      BlockIdsSplit(init);
      IdsConcat(init, [last]);
      assert b == init + [last];
      if IsSink(last) {
        assert KeptOfBlock(b) == KeptOfBlock(init);
        IdsConcat(SinkCallsOfBlock(init), [last]);
      } else {
        assert SinkCallsOfBlock(b) == SinkCallsOfBlock(init);
        IdsConcat(KeptOfBlock(init), [last]);
      }
    }
  }

  lemma {:induction false} BlocksIdsSplit(blocks: seq<Block>)
    ensures multiset(IdsOfBlocks(blocks)) == multiset(KeptIds(blocks)) + multiset(IdsOfBlock(SinkCalls(blocks)))
  {
    hide IdsOfBlock;
    hide KeptOfBlock;
    hide SinkCallsOfBlock;
    if blocks == [] {
      NoIds();
    } else {
      var init, b := blocks[..|blocks| - 1], blocks[|blocks| - 1];
      BlocksIdsSplit(init);
      BlockIdsSplit(b);
      IdsConcat(SinkCalls(init), SinkCallsOfBlock(b));
    }
  }

  lemma NoIds()
    ensures IdsOfBlock([]) == []
  {
  }

  lemma {:induction false} ReverseMultiset<T>(s: seq<T>)
    ensures multiset(Reverse(s)) == multiset(s)
  {
    if s != [] {
      ReverseMultiset(s[..|s| - 1]);
      assert s == s[..|s| - 1] + [s[|s| - 1]];
    }
  }

  lemma {:induction false} IdsSplit(fs: seq<Function>)
    ensures multiset(Ids(fs)) == multiset(UnwrappedIds(fs)) + multiset(WrappedIds(fs))
  {
    hide IdsOfBlocks;
    hide IdsOfBlock;
    hide KeptIds;
    hide SinkCalls;
    hide Reverse;
    if fs != [] {
      var f := fs[|fs| - 1];
      IdsSplit(fs[..|fs| - 1]);
      BlocksIdsSplit(f.blocks);
      ReverseMultiset(IdsOfBlock(SinkCalls(f.blocks)));
    }
  }

  /** Copying the metadata and erasing the original call keeps every id exactly as often as it was. */
  lemma WrappingKeepsIds(fs: seq<Function>, first: nat)
    requires AllLabelled(fs)
    ensures multiset(Ids(WrapAll(fs, first))) == multiset(Ids(fs))
  {
    hide *;
    EmissionOrder(fs, first);
    IdsSplit(fs);
  }
}
