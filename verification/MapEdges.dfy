/** The edges of the printed dependency map: behind each sink's node stand its tags, in their order, and no others. */
module MapEdges {
  import opened Text
  import opened Metadata
  import opened Ir
  import opened WrapSinks
  import opened WrapOrder
  import opened DependencyMap
  import T = TagResults

  // ---- Reading the map ----

  /** Where the edges that leave a node lead, in the order in which they are printed. */
  function Sources(ls: seq<Line>, sink: int): seq<int> {
    if ls == [] then []
    else
      var l := ls[|ls| - 1];
      Sources(ls[..|ls| - 1], sink) + if l.EdgeLine? && l.sink == sink then [l.source] else []
  }

  lemma {:induction false} SourcesConcat(a: seq<Line>, b: seq<Line>, sink: int)
    ensures Sources(a + b, sink) == Sources(a, sink) + Sources(b, sink)
  {
    if b == [] {
      assert a + b == a;
    } else {
      assert (a + b)[..|a + b| - 1] == a + b[..|b| - 1];
      SourcesConcat(a, b[..|b| - 1], sink);
    }
  }

  lemma {:induction false} SourcesMember(ls: seq<Line>, sink: int, source: int)
    ensures source in Sources(ls, sink) <==> EdgeLine(sink, source) in ls
  {
    if ls != [] {
      SourcesMember(ls[..|ls| - 1], sink, source);
      assert ls == ls[..|ls| - 1] + [ls[|ls| - 1]];
    }
  }

  // ---- One instruction ----

  /** A call that has tags has an id, too. */
  predicate TagsNeedId(i: Instr) {
    IsDirectCall(i) && GetTags(i.tags) != [] ==> GetSiteId(i.site).Some?
  }

  /**
    * The lines of a direct call: its node, which names it, if it has an id, and then one edge for each tag; without an id
    * the edges leave whatever the id variable holds.  Other instructions print nothing.
    */
  lemma LinesAt(i: Instr, unset: int)
    ensures var ls := LinesOf(i, unset);
            var id, n := if SiteOf(i).Some? then SiteOf(i).value else unset, if SiteOf(i).Some? then 1 else 0;
            if !IsDirectCall(i) then ls == []
            else var tags := GetTags(i.tags);
                 |ls| == n + |tags| && (n == 1 ==> ls[0] == NodeLine(id, i.callee.name)) &&
                 forall k :: 0 <= k < |tags| ==> ls[n + k] == EdgeLine(id, tags[k])
  {
    hide GetSiteId;
    hide GetTags;
  }

  lemma {:induction false} SourcesOfEdges(ls: seq<Line>, id: int, tags: seq<int>, sink: int)
    requires |ls| == |tags| && forall k :: 0 <= k < |tags| ==> ls[k] == EdgeLine(id, tags[k])
    ensures Sources(ls, sink) == if sink == id then tags else []
  {
    if ls != [] {
      var n := |ls| - 1;
      SourcesOfEdges(ls[..n], id, tags[..n], sink);
      assert tags[..n] + [tags[n]] == tags;
    }
  }

  lemma SourcesOfInstr(i: Instr, unset: int, sink: int)
    requires TagsNeedId(i)
    ensures Sources(LinesOf(i, unset), sink) == if SiteOf(i) == Some(sink) then GetTags(i.tags) else []
  {
    hide GetSiteId;
    hide GetTags;
    if SiteOf(i).Some? {
      LinesAt(i, unset);
      var ls := LinesOf(i, unset);
      assert ls == [ls[0]] + ls[1..];
      SourcesConcat([ls[0]], ls[1..], sink);
      SourcesOfEdges(ls[1..], SiteOf(i).value, GetTags(i.tags), sink);
      assert Sources([ls[0]], sink) == [] by {
        assert [ls[0]][..0] == [];
      }
    } else {
      assert LinesOf(i, unset) == [];
    }
  }

  // ---- A module in which an id occurs once ----

  ghost predicate TagsNeedIds(fs: seq<Function>) {
    forall n, k, j :: 0 <= n < |fs| && 0 <= k < |fs[n].blocks| && 0 <= j < |fs[n].blocks[k]| ==>
      TagsNeedId(fs[n].blocks[k][j])
  }

  lemma IdsOne(i: Instr, id: int)
    ensures multiset(IdsOf(i))[id] == if SiteOf(i) == Some(id) then 1 else 0
  {
    hide GetSiteId;
  }

  lemma {:induction false} BlockSources(b: Block, unset: int, id: int, j: nat)
    requires forall x :: 0 <= x < |b| ==> TagsNeedId(b[x])
    ensures multiset(IdsOfBlock(b))[id] == 0 ==> Sources(LinesOfBlock(b, unset), id) == []
    ensures j < |b| && SiteOf(b[j]) == Some(id) ==> multiset(IdsOfBlock(b))[id] > 0
    ensures j < |b| && SiteOf(b[j]) == Some(id) && multiset(IdsOfBlock(b))[id] == 1 ==>
              Sources(LinesOfBlock(b, unset), id) == GetTags(b[j].tags)
  {
    hide TagsNeedId;
    hide LinesOf;
    hide SiteOf;
    hide IdsOf;
    hide GetTags;
    if b != [] {
      var init, i := b[..|b| - 1], b[|b| - 1];
      BlockSources(init, unset, id, j);
      SourcesConcat(LinesOfBlock(init, unset), LinesOf(i, unset), id);
      SourcesOfInstr(i, unset, id);
      IdsOne(i, id);
    }
  }

  lemma {:induction false} BlocksSources(blocks: seq<Block>, unset: int, id: int, p: Position)
    requires forall k, j :: 0 <= k < |blocks| && 0 <= j < |blocks[k]| ==> TagsNeedId(blocks[k][j])
    ensures multiset(IdsOfBlocks(blocks))[id] == 0 ==> Sources(LinesOfBlocks(blocks, unset), id) == []
    ensures IsPosition(blocks, p) && SiteOf(InstrAt(blocks, p)) == Some(id) ==> multiset(IdsOfBlocks(blocks))[id] > 0
    ensures IsPosition(blocks, p) && SiteOf(InstrAt(blocks, p)) == Some(id) && multiset(IdsOfBlocks(blocks))[id] == 1 ==>
              Sources(LinesOfBlocks(blocks, unset), id) == GetTags(InstrAt(blocks, p).tags)
  {
    hide TagsNeedId;
    hide LinesOfBlock;
    hide IdsOfBlock;
    hide SiteOf;
    hide GetTags;
    if blocks != [] {
      var n := |blocks| - 1;
      BlocksSources(blocks[..n], unset, id, p);
      SourcesConcat(LinesOfBlocks(blocks[..n], unset), LinesOfBlock(blocks[n], unset), id);
      BlockSources(blocks[n], unset, id, p.1);
    }
  }

  lemma {:induction false} BodySources(fs: seq<Function>, unset: int, id: int, f: nat, p: Position)
    requires TagsNeedIds(fs)
    ensures multiset(Ids(fs))[id] == 0 ==> Sources(Body(fs, unset), id) == []
    ensures f < |fs| && IsPosition(fs[f].blocks, p) && SiteOf(InstrAt(fs[f].blocks, p)) == Some(id) ==>
              multiset(Ids(fs))[id] > 0
    ensures f < |fs| && IsPosition(fs[f].blocks, p) && SiteOf(InstrAt(fs[f].blocks, p)) == Some(id) &&
            multiset(Ids(fs))[id] == 1 ==>
              Sources(Body(fs, unset), id) == GetTags(InstrAt(fs[f].blocks, p).tags)
  {
    hide TagsNeedId;
    hide LinesOfBlocks;
    hide IdsOfBlocks;
    hide SiteOf;
    hide GetTags;
    if fs != [] {
      var n := |fs| - 1;
      BodySources(fs[..n], unset, id, f, p);
      SourcesConcat(Body(fs[..n], unset), LinesOfBlocks(fs[n].blocks, unset), id);
      BlocksSources(fs[n].blocks, unset, id, p);
    }
  }

  lemma SourcesOfMap(fs: seq<Function>, unset: int, id: int)
    ensures Sources(Map(fs, unset), id) == Sources(Body(fs, unset), id)
  {
    hide Body;
    SourcesConcat([Header], Body(fs, unset), id);
    SourcesConcat([Header] + Body(fs, unset), [Footer], id);
    assert [Header][..0] == [] && [Footer][..0] == [];
  }

  /** The edges that leave the node of a call with an id of its own lead to the call's tags, in their order. */
  lemma SourcesAreTags(fs: seq<Function>, unset: int, id: int, f: nat, p: Position)
    requires TagsNeedIds(fs) && multiset(Ids(fs))[id] == 1
    requires f < |fs| && IsPosition(fs[f].blocks, p) && SiteOf(InstrAt(fs[f].blocks, p)) == Some(id)
    ensures Sources(Map(fs, unset), id) == GetTags(InstrAt(fs[f].blocks, p).tags)
  {
    hide *;
    SourcesOfMap(fs, unset, id);
    BodySources(fs, unset, id, f, p);
  }

  // ---- Where a call's lines stand ----

  lemma {:induction false} LinesInBlock(b: Block, j: nat, unset: int) returns (before: seq<Line>, after: seq<Line>)
    requires j < |b|
    ensures LinesOfBlock(b, unset) == before + LinesOf(b[j], unset) + after
    decreases |b|
  {
    hide LinesOf;
    var n := |b| - 1;
    if j < n {
      before, after := LinesInBlock(b[..n], j, unset);
      after := after + LinesOf(b[n], unset);
    } else {
      before, after := LinesOfBlock(b[..n], unset), [];
    }
  }

  lemma {:induction false} LinesInBlocks(blocks: seq<Block>, p: Position, unset: int)
      returns (before: seq<Line>, after: seq<Line>)
    requires IsPosition(blocks, p)
    ensures LinesOfBlocks(blocks, unset) == before + LinesOf(InstrAt(blocks, p), unset) + after
    decreases |blocks|
  {
    hide LinesOf;
    hide LinesOfBlock;
    var n := |blocks| - 1;
    if p.0 < n {
      before, after := LinesInBlocks(blocks[..n], p, unset);
      after := after + LinesOfBlock(blocks[n], unset);
    } else {
      before, after := LinesInBlock(blocks[n], p.1, unset);
      before := LinesOfBlocks(blocks[..n], unset) + before;
    }
  }

  lemma {:induction false} LinesInBody(fs: seq<Function>, f: nat, p: Position, unset: int)
      returns (before: seq<Line>, after: seq<Line>)
    requires f < |fs| && IsPosition(fs[f].blocks, p)
    ensures Body(fs, unset) == before + LinesOf(InstrAt(fs[f].blocks, p), unset) + after
    decreases |fs|
  {
    hide LinesOf;
    hide LinesOfBlocks;
    var n := |fs| - 1;
    if f < n {
      before, after := LinesInBody(fs[..n], f, p, unset);
      after := after + LinesOfBlocks(fs[n].blocks, unset);
    } else {
      before, after := LinesInBlocks(fs[n].blocks, p, unset);
      before := Body(fs[..n], unset) + before;
    }
  }

  /** The node of each annotated call names its callee, and the `k`th line behind it is the edge to its `k`th tag. */
  lemma LinesInMap(fs: seq<Function>, f: nat, p: Position, unset: int) returns (at: nat)
    requires f < |fs| && IsPosition(fs[f].blocks, p) && SiteOf(InstrAt(fs[f].blocks, p)).Some?
    ensures var i, ls := InstrAt(fs[f].blocks, p), Map(fs, unset);
            var id, tags := SiteOf(i).value, GetTags(i.tags);
            && ls[0] == Header && ls[|ls| - 1] == Footer && 0 < at && at + |tags| < |ls| - 1 && ls[at] == NodeLine(id, i.callee.name)
            && forall k :: 0 <= k < |tags| ==> ls[at + 1 + k] == EdgeLine(id, tags[k])
  {
    hide LinesOf;
    hide Body;
    hide GetTags;
    hide GetSiteId;
    var i := InstrAt(fs[f].blocks, p);
    LinesAt(i, unset);
    var before, after := LinesInBody(fs, f, p, unset);
    at := 1 + |before|;
    var ls := LinesOf(i, unset);
    forall k | 0 <= k < |ls|
      ensures Map(fs, unset)[at + k] == ls[k]
    {
    }
  }
}
