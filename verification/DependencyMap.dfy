/** The printed dependency map: a node for every annotated call and an edge for every tag of a sink. */
module DependencyMap {
  import opened Text
  import opened Metadata
  import opened Ir
  import opened WrapSinks
  import opened WrapOrder
  import opened TagResults

  datatype Line = Header | NodeLine(id: int, name: string) | EdgeLine(sink: int, source: int) | Footer

  /** `getClamProvTags`: the constants of a non-empty tag list. */
  function GetTags(tags: Option<seq<Node>>): seq<int> {
    if tags.None? then [] else Integers(tags.value)
  }

  function Integers(nodes: seq<Node>): seq<int> {
    if nodes == [] then []
    else
      Integers(nodes[..|nodes| - 1]) +
      match GetInteger(nodes[|nodes| - 1]) case None => [] case Some(n) => [n]
  }

  function Edges(id: int, tags: seq<int>): (ls: seq<Line>)
    ensures |ls| == |tags|
  {
    seq(|tags|, k requires 0 <= k < |tags| => EdgeLine(id, tags[k]))
  }

  /** The lines for one instruction; `unset` is the value of the id variable when nothing assigns it. */
  function LinesOf(i: Instr, unset: int): seq<Line> {
    if IsDirectCall(i) then
      var id := GetSiteId(i.site);
      (if id.Some? then [NodeLine(id.value, i.callee.name)] else []) +
      Edges(if id.Some? then id.value else unset, GetTags(i.tags))
    else []
  }

  function LinesOfBlock(b: Block, unset: int): seq<Line> {
    if b == [] then [] else LinesOfBlock(b[..|b| - 1], unset) + LinesOf(b[|b| - 1], unset)
  }

  function LinesOfBlocks(blocks: seq<Block>, unset: int): seq<Line> {
    if blocks == [] then []
    else LinesOfBlocks(blocks[..|blocks| - 1], unset) + LinesOfBlock(blocks[|blocks| - 1], unset)
  }

  function Body(fs: seq<Function>, unset: int): seq<Line> {
    if fs == [] then [] else Body(fs[..|fs| - 1], unset) + LinesOfBlocks(fs[|fs| - 1].blocks, unset)
  }

  function Map(fs: seq<Function>, unset: int): seq<Line> {
    [Header] + Body(fs, unset) + [Footer]
  }

  // ---- The pass ----

  method WriteInstr(i: Instr, unset: int) returns (out: seq<Line>)
    ensures out == LinesOf(i, unset)
  {
    out := [];
    if IsDirectCall(i) {
      var callSiteId := unset;
      var id := GetSiteId(i.site);
      if id.Some? {
        callSiteId := id.value;
        out := out + [NodeLine(callSiteId, i.callee.name)];
      }
      var tagVector := GetTags(i.tags);
      ghost var node := out;
      for k := 0 to |tagVector|
        invariant out == node + Edges(callSiteId, tagVector[..k])
      {
        out := out + [EdgeLine(callSiteId, tagVector[k])];
      }
      assert tagVector[..|tagVector|] == tagVector;
    }
  }

  /** `OutputDependencyMap::runOnModule`, writing line by line. */
  method RunOnModule(M: Module, unset: int) returns (out: seq<Line>)
    ensures out == Map(M.functions, unset)
  {
    hide LinesOf;
    out := [Header];
    var fs := M.functions;
    for f := 0 to |fs|
      invariant out == [Header] + Body(fs[..f], unset)
    {
      var lines := WriteBlocks(fs[f].blocks, unset);
      out := out + lines;
      assert fs[..f + 1][..f] == fs[..f];
    }
    assert fs[..|fs|] == fs;
    out := out + [Footer];
  }

  method WriteBlocks(blocks: seq<Block>, unset: int) returns (out: seq<Line>)
    ensures out == LinesOfBlocks(blocks, unset)
  {
    hide LinesOf;
    out := [];
    for b := 0 to |blocks|
      invariant out == LinesOfBlocks(blocks[..b], unset)
    {
      var block := blocks[b];
      ghost var before := out;
      for j := 0 to |block|
        invariant out == before + LinesOfBlock(block[..j], unset)
      {
        var lines := WriteInstr(block[j], unset);
        out := out + lines;
        assert block[..j + 1][..j] == block[..j];
      }
      assert block[..|block|] == block;
      assert blocks[..b + 1][..b] == blocks[..b];
    }
    assert blocks[..|blocks|] == blocks;
  }

  // ---- Nodes ----

  /** The nodes a list of lines declares, in order. */
  function Nodes(ls: seq<Line>): seq<int> {
    if ls == [] then []
    else Nodes(ls[..|ls| - 1]) + if ls[|ls| - 1].NodeLine? then [ls[|ls| - 1].id] else []
  }

  lemma {:induction false} NodesConcat(a: seq<Line>, b: seq<Line>)
    ensures Nodes(a + b) == Nodes(a) + Nodes(b)
  {
    if b == [] {
      assert a + b == a;
    } else {
      assert (a + b)[..|a + b| - 1] == a + b[..|b| - 1];
      NodesConcat(a, b[..|b| - 1]);
    }
  }

  lemma {:induction false} EdgesDeclareNothing(id: int, tags: seq<int>)
    ensures Nodes(Edges(id, tags)) == []
  {
    if tags != [] {
      var init := tags[..|tags| - 1];
      EdgesDeclareNothing(id, init);
      assert Edges(id, tags)[..|tags| - 1] == Edges(id, init);
    }
  }

  lemma NodesOfInstr(i: Instr, unset: int)
    ensures Nodes(LinesOf(i, unset)) == IdsOf(i)
  {
    hide GetSiteId;
    if IsDirectCall(i) {
      var id := GetSiteId(i.site);
      var tags := GetTags(i.tags);
      var edges := Edges(if id.Some? then id.value else unset, tags);
      EdgesDeclareNothing(if id.Some? then id.value else unset, tags);
      if id.Some? {
        NodesConcat([NodeLine(id.value, i.callee.name)], edges);
      } else {
        NodesConcat([], edges);
      }
    }
  }

  lemma {:induction false} NodesOfBlock(b: Block, unset: int)
    ensures Nodes(LinesOfBlock(b, unset)) == IdsOfBlock(b)
  {
    hide LinesOf;
    hide IdsOf;
    if b != [] {
      var init, i := b[..|b| - 1], b[|b| - 1];
      NodesOfBlock(init, unset);
      NodesOfInstr(i, unset);
      NodesConcat(LinesOfBlock(init, unset), LinesOf(i, unset));
    }
  }

  lemma {:induction false} NodesOfBlocks(blocks: seq<Block>, unset: int)
    ensures Nodes(LinesOfBlocks(blocks, unset)) == IdsOfBlocks(blocks)
  {
    hide LinesOfBlock;
    hide IdsOfBlock;
    if blocks != [] {
      var init, b := blocks[..|blocks| - 1], blocks[|blocks| - 1];
      NodesOfBlocks(init, unset);
      NodesOfBlock(b, unset);
      NodesConcat(LinesOfBlocks(init, unset), LinesOfBlock(b, unset));
    }
  }

  lemma {:induction false} NodesOfBody(fs: seq<Function>, unset: int)
    ensures Nodes(Body(fs, unset)) == Ids(fs)
  {
    hide LinesOfBlocks;
    hide IdsOfBlocks;
    if fs != [] {
      var init, f := fs[..|fs| - 1], fs[|fs| - 1];
      NodesOfBody(init, unset);
      NodesOfBlocks(f.blocks, unset);
      NodesConcat(Body(init, unset), LinesOfBlocks(f.blocks, unset));
    }
  }

  /** Each annotated call is declared once, in the order of the module. */
  lemma DeclaredOnce(fs: seq<Function>, unset: int)
    ensures Nodes(Map(fs, unset)) == Ids(fs)
  {
    hide Body;
    NodesOfBody(fs, unset);
    NodesConcat([Header], Body(fs, unset));
    NodesConcat([Header] + Body(fs, unset), [Footer]);
    assert [Header][..0] == [] && [Footer][..0] == [];
    assert [] + Ids(fs) + [] == Ids(fs);
  }

  // ---- Edges ----

  lemma {:induction false} IntegersOfConstants(tags: seq<int>)
    requires forall k :: 0 <= k < |tags| ==> IsInt64(tags[k])
    ensures Integers(Constants(tags)) == tags
  {
    if tags != [] {
      var init := tags[..|tags| - 1];
      IntegersOfConstants(init);
      assert Constants(tags)[..|tags| - 1] == Constants(init);
      assert FromBits(ToBits(tags[|tags| - 1])) == tags[|tags| - 1];
      assert init + [tags[|tags| - 1]] == tags;
    }
  }

  predicate Int64s(tags: seq<int>) {
    forall k :: 0 <= k < |tags| ==> IsInt64(tags[k])
  }

  ghost predicate Answers64(q: Query) {
    forall p :: q(p).Some? ==> Int64s(q(p).value)
  }

  lemma {:induction false} AnswersFit(i: Instr, n: nat, q: Query)
    requires i.Call? && SinkArguments(i) && n <= ArgumentCount(i.site) && Answers64(q)
    ensures Int64s(Answers(i, n, q))
  {
    hide RoleAt;
    hide OutputAt;
    if n > 0 {
      AnswersFit(i, n - 1, q);
    }
  }

  /**
    * The edges printed for a call are its own id paired with the tags of its sink arguments, argument after argument,
    * exactly when the analysis knows them all; otherwise there are none.
    */
  lemma EdgesExact(i: Instr, q: Query, unset: int)
    requires IsDirectCall(i) && SinkArguments(i) && i.tags.None? && Answers64(q)
    ensures var n := ArgumentCount(i.site);
            LinesOf(TagInstr(i, q), unset) ==
              (if GetSiteId(i.site).Some? then [NodeLine(GetSiteId(i.site).value, i.callee.name)] else []) +
              (if GetSiteId(i.site).Some? && AllKnown(i, n, q) then Edges(GetSiteId(i.site).value, Answers(i, n, q)) else [])
  {
    hide OutputAt;
    hide Answers;
    var n := ArgumentCount(i.site);
    AnswersFit(i, n, q);
    IntegersOfConstants(Answers(i, n, q));
    NoOutputs(i, n, q);
    assert Edges(unset, []) == [] && (GetSiteId(i.site).Some? ==> Edges(GetSiteId(i.site).value, []) == []);
  }

  lemma {:induction false} NoOutputs(i: Instr, n: nat, q: Query)
    requires i.Call? && SinkArguments(i) && n <= ArgumentCount(i.site)
    ensures !HasOutput(i, n) ==> Answers(i, n, q) == [] && AllKnown(i, n, q)
    ensures HasOutput(i, n) ==> GetSiteId(i.site).Some?
  {
    hide GetSiteId;
    if n > 0 {
      NoOutputs(i, n - 1, q);
      OutputHasSite(i, n - 1);
      assert OutputAt(i, n - 1).Some? ==> HasOutput(i, n);
      if HasOutput(i, n - 1) {
        var slot :| 0 <= slot < n - 1 && OutputAt(i, slot).Some?;
        assert 0 <= slot < n;
      }
    }
  }

  lemma OutputHasSite(i: Instr, slot: nat)
    requires i.Call?
    ensures OutputAt(i, slot).Some? ==> GetSiteId(i.site).Some?
  {
  }

  // ---- The map is closed ----

  lemma {:induction false} LineInBlock(b: Block, l: Line, unset: int) returns (j: nat)
    requires l in LinesOfBlock(b, unset)
    ensures j < |b| && l in LinesOf(b[j], unset)
    decreases |b|
  {
    hide LinesOf;
    if l in LinesOf(b[|b| - 1], unset) {
      j := |b| - 1;
    } else {
      j := LineInBlock(b[..|b| - 1], l, unset);
    }
  }

  lemma {:induction false} LineInBlocks(blocks: seq<Block>, l: Line, unset: int) returns (p: Position)
    requires l in LinesOfBlocks(blocks, unset)
    ensures IsPosition(blocks, p) && l in LinesOf(InstrAt(blocks, p), unset)
    decreases |blocks|
  {
    hide LinesOf;
    hide LinesOfBlock;
    if l in LinesOfBlock(blocks[|blocks| - 1], unset) {
      var j := LineInBlock(blocks[|blocks| - 1], l, unset);
      p := (|blocks| - 1, j);
    } else {
      p := LineInBlocks(blocks[..|blocks| - 1], l, unset);
    }
  }

  /** Every line of the map's body comes from some instruction. */
  lemma {:induction false} LineInBody(fs: seq<Function>, l: Line, unset: int) returns (f: nat, p: Position)
    requires l in Body(fs, unset)
    ensures f < |fs| && IsPosition(fs[f].blocks, p) && l in LinesOf(InstrAt(fs[f].blocks, p), unset)
    decreases |fs|
  {
    hide LinesOf;
    hide LinesOfBlocks;
    if l in LinesOfBlocks(fs[|fs| - 1].blocks, unset) {
      f := |fs| - 1;
      p := LineInBlocks(fs[f].blocks, l, unset);
    } else {
      f, p := LineInBody(fs[..|fs| - 1], l, unset);
    }
  }

  lemma {:induction false} LineOfInstr(fs: seq<Function>, f: nat, p: Position, l: Line, unset: int)
    requires f < |fs| && IsPosition(fs[f].blocks, p) && l in LinesOf(InstrAt(fs[f].blocks, p), unset)
    ensures l in Body(fs, unset)
  {
    hide LinesOf;
    hide LinesOfBlocks;
    if f < |fs| - 1 {
      LineOfInstr(fs[..|fs| - 1], f, p, l, unset);
    } else {
      LineOfBlocks(fs[f].blocks, p, l, unset);
    }
  }

  lemma {:induction false} LineOfBlocks(blocks: seq<Block>, p: Position, l: Line, unset: int)
    requires IsPosition(blocks, p) && l in LinesOf(InstrAt(blocks, p), unset)
    ensures l in LinesOfBlocks(blocks, unset)
  {
    hide LinesOf;
    hide LinesOfBlock;
    if p.0 < |blocks| - 1 {
      LineOfBlocks(blocks[..|blocks| - 1], p, l, unset);
    } else {
      LineOfBlock(blocks[p.0], p.1, l, unset);
    }
  }

  lemma {:induction false} LineOfBlock(b: Block, j: nat, l: Line, unset: int)
    requires j < |b| && l in LinesOf(b[j], unset)
    ensures l in LinesOfBlock(b, unset)
  {
    hide LinesOf;
    if j < |b| - 1 {
      LineOfBlock(b[..|b| - 1], j, l, unset);
    }
  }

  lemma {:induction false} NodeLineDeclares(ls: seq<Line>, l: Line)
    requires l in ls && l.NodeLine?
    ensures l.id in Nodes(ls)
  {
    if l != ls[|ls| - 1] {
      NodeLineDeclares(ls[..|ls| - 1], l);
    }
  }

  ghost predicate Untagged(fs: seq<Function>) {
    forall f, b, j :: 0 <= f < |fs| && 0 <= b < |fs[f].blocks| && 0 <= j < |fs[f].blocks[b]| ==>
      fs[f].blocks[b][j].Call? ==> fs[f].blocks[b][j].tags.None?
  }

  /** The analysis answers with tags from `known` only. */
  ghost predicate AnswersFrom(oracle: Oracle, known: iset<int>) {
    forall f: nat, b: nat, p :: oracle(f, b, p).Some? ==>
      Int64s(oracle(f, b, p).value) && forall k :: 0 <= k < |oracle(f, b, p).value| ==> oracle(f, b, p).value[k] in known
  }

  ghost predicate QueryFrom(q: Query, known: iset<int>) {
    forall p :: q(p).Some? ==> Int64s(q(p).value) && forall k :: 0 <= k < |q(p).value| ==> q(p).value[k] in known
  }

  lemma {:induction false} AnswersKnown(i: Instr, n: nat, q: Query, known: iset<int>)
    requires i.Call? && SinkArguments(i) && n <= ArgumentCount(i.site) && QueryFrom(q, known)
    ensures forall k :: 0 <= k < |Answers(i, n, q)| ==> Answers(i, n, q)[k] in known
  {
    hide RoleAt;
    hide OutputAt;
    if n > 0 {
      AnswersKnown(i, n - 1, q, known);
    }
  }

  /** An edge goes out from the call's own node, to a known tag. */
  lemma EdgeOfInstr(i: Instr, q: Query, known: iset<int>, l: Line, unset: int)
    requires SinkArguments(i) && (i.Call? ==> i.tags.None?) && QueryFrom(q, known)
    requires l in LinesOf(TagInstr(i, q), unset) && l.EdgeLine?
    ensures IsDirectCall(i) && GetSiteId(i.site) == Some(l.sink) && l.source in known
    ensures NodeLine(l.sink, i.callee.name) in LinesOf(TagInstr(i, q), unset)
    ensures SinkOf(i, l.sink)
  {
    hide TagInstr;
    hide OutputAt;
    hide AllKnown;
    hide Answers;
    hide SinkArguments;
    TagKeeps(i, q);
    var n := ArgumentCount(i.site);
    AnswersFit64(q, known);
    EdgesExact(i, q, unset);
    AnswersKnown(i, n, q, known);
    NoOutputs(i, n, q);
    assert HasOutput(i, n) ==> SinkOf(i, l.sink);
  }

  /** A direct call with this id that is labelled as a sink. */
  ghost predicate SinkOf(i: Instr, id: int) {
    IsDirectCall(i) && GetSiteId(i.site) == Some(id) &&
    exists slot :: 0 <= slot < ArgumentCount(i.site) && OutputAt(i, slot).Some?
  }

  ghost predicate SinkIn(fs: seq<Function>, id: int) {
    exists f, p :: 0 <= f < |fs| && IsPosition(fs[f].blocks, p) && SinkOf(InstrAt(fs[f].blocks, p), id)
  }

  lemma TagKeeps(i: Instr, q: Query)
    requires SinkArguments(i)
    ensures IsDirectCall(TagInstr(i, q)) <==> IsDirectCall(i)
  {
  }

  lemma AnswersFit64(q: Query, known: iset<int>)
    requires QueryFrom(q, known)
    ensures Answers64(q)
  {
  }

  /**
    * If the analysis answers with ids of the module's annotated calls only, every edge of the map joins two nodes the
    * map declares, and it goes out from a call that is labelled as a sink.
    */
  lemma MapClosed(fs: seq<Function>, oracle: Oracle, known: iset<int>, unset: int, l: Line)
    requires AllSinkArguments(fs) && Untagged(fs) && AnswersFrom(oracle, known)
    requires forall t :: t in known ==> t in Ids(TagAll(fs, oracle))
    requires l in Map(TagAll(fs, oracle), unset) && l.EdgeLine?
    ensures l.sink in Nodes(Map(TagAll(fs, oracle), unset)) && l.source in Nodes(Map(TagAll(fs, oracle), unset))
    ensures l.source in known && SinkIn(fs, l.sink)
  {
    hide LinesOf;
    hide Body;
    hide TagInstr;
    hide SinkArguments;
    hide Ids;
    hide Nodes;
    hide SinkOf;
    var gs := TagAll(fs, oracle);
    var f, p := LineInBody(gs, l, unset);
    assert [fs[f]][0] == fs[f];
    var i := InstrAt(fs[f].blocks, p);
    var q := o => oracle(f, p.0, o);
    assert InstrAt(gs[f].blocks, p) == TagInstr(i, q);
    EdgeOfInstr(i, q, known, l, unset);
    LineOfInstr(gs, f, p, NodeLine(l.sink, i.callee.name), unset);
    NodeLineDeclares(Map(gs, unset), NodeLine(l.sink, i.callee.name));
    DeclaredOnce(gs, unset);
  }
}
