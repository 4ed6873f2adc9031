/** The pass that numbers the calls to configured functions and attaches their parameters' labels. */
module AddMetadata {
  import opened Text
  import opened Metadata
  import opened CallSiteMetadata
  import opened Configuration
  import opened Ir
  import opened WrapOrder

  /** The order in which the table of the call numbered `c` is walked: any order may occur. */
  type Walk = (nat, Labels) -> seq<string>

  ghost predicate WalksTables(walk: Walk) {
    forall c: nat, m: Labels :: IsOrder(walk(c, m), m)
  }

  predicate Eligible(table: Table, i: Instr) {
    IsDirectCall(i) && i.callee.name in table
  }

  function Count(table: Table, b: Block): nat {
    if b == [] then 0 else Count(table, b[..|b| - 1]) + if Eligible(table, b[|b| - 1]) then 1 else 0
  }

  function CountBlocks(table: Table, blocks: seq<Block>): nat {
    if blocks == [] then 0 else CountBlocks(table, blocks[..|blocks| - 1]) + Count(table, blocks[|blocks| - 1])
  }

  /** How many calls go to configured functions. */
  function CountAll(table: Table, fs: seq<Function>): nat {
    if fs == [] then 0 else CountAll(table, fs[..|fs| - 1]) + CountBlocks(table, fs[|fs| - 1].blocks)
  }

  /** The call numbered `c`, with its metadata. */
  ghost function Annotate(table: Table, walk: Walk, i: Instr, c: nat): Instr
    requires WalksTables(walk) && Eligible(table, i)
  {
    var m := LabelMap(table[i.callee.name], |i.args|);
    i.(site := Some(SiteNode(c, m, walk(c, m))))
  }

  ghost function AnnotateBlock(table: Table, walk: Walk, b: Block, c: nat): (r: Block)
    requires WalksTables(walk)
    ensures |r| == |b|
  {
    if b == [] then []
    else
      var init, last := b[..|b| - 1], b[|b| - 1];
      AnnotateBlock(table, walk, init, c) +
      [if Eligible(table, last) then Annotate(table, walk, last, c + Count(table, init)) else last]
  }

  ghost function AnnotateBlocks(table: Table, walk: Walk, blocks: seq<Block>, c: nat): (r: seq<Block>)
    requires WalksTables(walk)
    ensures |r| == |blocks|
  {
    if blocks == [] then []
    else
      var init, last := blocks[..|blocks| - 1], blocks[|blocks| - 1];
      AnnotateBlocks(table, walk, init, c) + [AnnotateBlock(table, walk, last, c + CountBlocks(table, init))]
  }

  ghost function AnnotateAll(table: Table, walk: Walk, fs: seq<Function>, c: nat): (r: seq<Function>)
    requires WalksTables(walk)
    ensures |r| == |fs|
  {
    if fs == [] then []
    else
      var init, last := fs[..|fs| - 1], fs[|fs| - 1];
      AnnotateAll(table, walk, init, c) +
      [last.(blocks := AnnotateBlocks(table, walk, last.blocks, c + CountAll(table, init)))]
  }

  lemma AnnotateNext(table: Table, walk: Walk, fs: seq<Function>, k: nat, c: nat)
    requires WalksTables(walk) && k < |fs|
    ensures AnnotateAll(table, walk, fs[..k + 1], c) ==
            AnnotateAll(table, walk, fs[..k], c) +
            [fs[k].(blocks := AnnotateBlocks(table, walk, fs[k].blocks, c + CountAll(table, fs[..k])))]
    ensures CountAll(table, fs[..k + 1]) == CountAll(table, fs[..k]) + CountBlocks(table, fs[k].blocks)
  {
    hide AnnotateBlocks;
    hide CountBlocks;
    hide WalksTables;
    assert fs[..k + 1][..k] == fs[..k];
  }

  /** The module and the counter when the loop has come to function `k`. */
  ghost predicate Reached(table: Table, walk: Walk, fs: seq<Function>, c: nat, k: nat, gs: seq<Function>, counter: nat)
    requires WalksTables(walk)
  {
    k <= |fs| && gs == AnnotateAll(table, walk, fs[..k], c) + fs[k..] && counter == c + CountAll(table, fs[..k])
  }

  lemma ReachedStart(table: Table, walk: Walk, fs: seq<Function>, c: nat)
    requires WalksTables(walk)
    ensures Reached(table, walk, fs, c, 0, fs, c)
  {
    hide WalksTables;
    assert AnnotateAll(table, walk, fs[..0], c) == [] && fs[0..] == fs;
  }

  lemma ReachedNext(table: Table, walk: Walk, fs: seq<Function>, c: nat, k: nat, gs: seq<Function>, counter: nat)
    requires WalksTables(walk) && k < |fs| && Reached(table, walk, fs, c, k, gs, counter)
    ensures |gs| == |fs| && gs[k] == fs[k]
    ensures Reached(table, walk, fs, c, k + 1,
                    gs[k := gs[k].(blocks := AnnotateBlocks(table, walk, gs[k].blocks, counter))],
                    counter + CountBlocks(table, gs[k].blocks))
  {
    hide WalksTables;
    hide AnnotateAll;
    hide AnnotateBlocks;
    hide CountAll;
    hide CountBlocks;
    AnnotateNext(table, walk, fs, k, c);
    ReplaceNext(AnnotateAll(table, walk, fs[..k], c), fs, k,
                fs[k].(blocks := AnnotateBlocks(table, walk, fs[k].blocks, counter)));
  }

  lemma ReachedEnd(table: Table, walk: Walk, fs: seq<Function>, c: nat, gs: seq<Function>, counter: nat)
    requires WalksTables(walk) && Reached(table, walk, fs, c, |fs|, gs, counter)
    ensures gs == AnnotateAll(table, walk, fs, c) && counter == c + CountAll(table, fs)
  {
    hide WalksTables;
    hide AnnotateAll;
    hide CountAll;
    assert fs[..|fs|] == fs;
  }

  lemma ReplaceNext<T>(done: seq<T>, s: seq<T>, k: nat, x: T)
    requires |done| == k < |s|
    ensures (done + s[k..])[k] == s[k] && (done + s[k..])[k := x] == done + [x] + s[k + 1..]
  {
  }

  // ---- The pass ----

  /** The pass's static variables. */
  class Pass {
    var functionInfos: Table
    var callSiteCounter: nat

    constructor ()
      ensures functionInfos == map[] && callSiteCounter == 0
    {
      functionInfos, callSiteCounter := map[], 0;
    }

    method GetNextCallSiteCounter() returns (c: nat)
      modifies this`callSiteCounter
      ensures c == old(callSiteCounter) && callSiteCounter == c + 1
    {
      c := callSiteCounter;
      callSiteCounter := callSiteCounter + 1;
    }

    method ConditionalUpdate(i: Instr, walk: Walk) returns (r: Instr)
      requires WalksTables(walk)
      modifies this`callSiteCounter
      ensures r == if Eligible(functionInfos, i) then Annotate(functionInfos, walk, i, old(callSiteCounter)) else i
      ensures callSiteCounter == old(callSiteCounter) + if Eligible(functionInfos, i) then 1 else 0
    {
      hide SiteNode;
      hide LabelMap;
      if !IsDirectCall(i) || i.callee.name !in functionInfos {
        return i;
      }
      var counter := GetNextCallSiteCounter();
      var paramToLabels := Regroup(functionInfos[i.callee.name], |i.args|);
      var node := SetCallSiteMetadata(counter, paramToLabels, walk(counter, paramToLabels));
      r := i.(site := Some(node));
    }

    method RunOnBlock(b: Block, walk: Walk) returns (r: Block)
      requires WalksTables(walk)
      modifies this`callSiteCounter
      ensures r == AnnotateBlock(functionInfos, walk, b, old(callSiteCounter))
      ensures callSiteCounter == old(callSiteCounter) + Count(functionInfos, b)
    {
      hide Annotate;
      hide Eligible;
      hide WalksTables;
      r := [];
      for i := 0 to |b|
        invariant r == AnnotateBlock(functionInfos, walk, b[..i], old(callSiteCounter))
        invariant callSiteCounter == old(callSiteCounter) + Count(functionInfos, b[..i])
      {
        var current := ConditionalUpdate(b[i], walk);
        r := r + [current];
        assert b[..i + 1][..i] == b[..i];
      }
      assert b[..|b|] == b;
    }

    method RunOnBlocks(blocks: seq<Block>, walk: Walk) returns (r: seq<Block>)
      requires WalksTables(walk)
      modifies this`callSiteCounter
      ensures r == AnnotateBlocks(functionInfos, walk, blocks, old(callSiteCounter))
      ensures callSiteCounter == old(callSiteCounter) + CountBlocks(functionInfos, blocks)
    {
      hide AnnotateBlock;
      hide Count;
      hide WalksTables;
      r := [];
      for k := 0 to |blocks|
        invariant r == AnnotateBlocks(functionInfos, walk, blocks[..k], old(callSiteCounter))
        invariant callSiteCounter == old(callSiteCounter) + CountBlocks(functionInfos, blocks[..k])
      {
        var block := RunOnBlock(blocks[k], walk);
        r := r + [block];
        assert blocks[..k + 1][..k] == blocks[..k];
      }
      assert blocks[..|blocks|] == blocks;
    }

    method RunOnFunction(M: Module, k: nat, walk: Walk)
      requires WalksTables(walk) && k < |M.functions|
      modifies this`callSiteCounter, M
      ensures M.functions == old(M.functions)[k := old(M.functions[k]).(blocks :=
                AnnotateBlocks(functionInfos, walk, old(M.functions[k]).blocks, old(callSiteCounter)))]
      ensures callSiteCounter == old(callSiteCounter) + CountBlocks(functionInfos, old(M.functions[k]).blocks)
    {
      hide *;
      var f := M.functions[k];
      var blocks := RunOnBlocks(f.blocks, walk);
      M.functions := M.functions[k := f.(blocks := blocks)];
    }

    /** `AddMetadata::runOnModule`: afterwards the table says what the lines say, and the calls are numbered. */
    method RunOnModule(M: Module, lines: seq<string>, walk: Walk)
      requires WalksTables(walk)
      modifies this, M
      ensures Holds(functionInfos, old(M.functions), lines)
      ensures M.functions == AnnotateAll(functionInfos, walk, old(M.functions), old(callSiteCounter))
      ensures callSiteCounter == old(callSiteCounter) + CountAll(functionInfos, old(M.functions))
    {
      hide *;
      ghost var fs, first := M.functions, callSiteCounter;
      functionInfos := LoadInput(M.functions, lines);
      ghost var table := functionInfos;
      ReachedStart(table, walk, fs, first);
      for k := 0 to |M.functions|
        invariant |M.functions| == |fs| && functionInfos == table
        invariant Reached(table, walk, fs, first, k, M.functions, callSiteCounter)
      {
        ReachedNext(table, walk, fs, first, k, M.functions, callSiteCounter);
        RunOnFunction(M, k, walk);
      }
      ReachedEnd(table, walk, fs, first, M.functions, callSiteCounter);
    }
  }
}
