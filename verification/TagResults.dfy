/** Attaching the tag analysis' answers to the sink calls.  The analysis itself is an oracle. */
module TagResults {
  import opened Text
  import opened Metadata
  import opened Ir
  import opened Erasure
  import opened WrapSinks

  /** The tags known for a pointer in a block of a function, if any are. */
  type Oracle = (nat, nat, Operand) -> Option<seq<int>>

  type Query = Operand -> Option<seq<int>>

  function OutputAt(i: Instr, slot: nat): Option<nat>
    requires i.Call?
  {
    match RoleAt(i.site, slot)
    case None => None
    case Some(role) => if role.isInput then None else Some(role.index)
  }

  /** What `getArgOperand` demands of the sink labels. */
  predicate SinkArguments(i: Instr) {
    i.Call? ==>
      forall slot :: 0 <= slot < ArgumentCount(i.site) ==>
        var k := OutputAt(i, slot); k.Some? ==> 1 <= k.value <= |i.args|
  }

  /** The answer for an argument tuple, if it labels a sink argument. */
  function AnswerAt(i: Instr, slot: nat, q: Query): Option<Option<seq<int>>>
    requires i.Call? && SinkArguments(i) && slot < ArgumentCount(i.site)
  {
    match OutputAt(i, slot) case None => None case Some(k) => Some(q(i.args[k - 1]))
  }

  predicate HasOutput(i: Instr, n: nat)
    requires i.Call? && n <= ArgumentCount(i.site)
  {
    exists slot :: 0 <= slot < n && OutputAt(i, slot).Some?
  }

  /** The analysis has an answer for every sink argument. */
  predicate AllKnown(i: Instr, n: nat, q: Query)
    requires i.Call? && SinkArguments(i) && n <= ArgumentCount(i.site)
  {
    forall slot :: 0 <= slot < n ==> AnswerAt(i, slot, q) != Some(None)
  }

  /** The tags of the sink arguments, argument after argument. */
  function Answers(i: Instr, n: nat, q: Query): seq<int>
    requires i.Call? && SinkArguments(i) && n <= ArgumentCount(i.site)
  {
    if n == 0 then []
    else
      Answers(i, n - 1, q) +
      match AnswerAt(i, n - 1, q)
      case Some(Some(tags)) => tags
      case _ => []
  }

  function Constants(tags: seq<int>): (ns: seq<Node>)
    ensures |ns| == |tags|
  {
    seq(|tags|, k requires 0 <= k < |tags| => Constant(ToBits(tags[k])))
  }

  function TagInstr(i: Instr, q: Query): Instr
    requires SinkArguments(i)
  {
    if i.Call? && HasOutput(i, ArgumentCount(i.site)) && AllKnown(i, ArgumentCount(i.site), q)
    then i.(tags := Some(Constants(Answers(i, ArgumentCount(i.site), q))))
    else i
  }

  ghost predicate AllSinkArguments(fs: seq<Function>) {
    forall f, b, j :: 0 <= f < |fs| && 0 <= b < |fs[f].blocks| && 0 <= j < |fs[f].blocks[b]| ==>
      SinkArguments(fs[f].blocks[b][j])
  }

  ghost function TagBlock(b: Block, q: Query): Block
    requires forall j :: 0 <= j < |b| ==> SinkArguments(b[j])
  {
    seq(|b|, j requires 0 <= j < |b| => TagInstr(b[j], q))
  }

  ghost function TagFunction(f: Function, n: nat, oracle: Oracle): Function
    requires AllSinkArguments([f])
  {
    assert [f][0] == f;
    f.(blocks := seq(|f.blocks|, b requires 0 <= b < |f.blocks| =>
         assert [f][0] == f; TagBlock(f.blocks[b], p => oracle(n, b, p))))
  }

  ghost function TagAll(fs: seq<Function>, oracle: Oracle): seq<Function>
    requires AllSinkArguments(fs)
  {
    seq(|fs|, n requires 0 <= n < |fs| => TagFunction(fs[n], n, oracle))
  }

  /** The loop over one call's argument tuples, with the three variables it accumulates. */
  method TagCall(i: Instr, q: Query) returns (r: Instr)
    requires i.Call? && SinkArguments(i)
    ensures r == TagInstr(i, q)
  {
    hide RoleAt;
    var tagVector: seq<int>, knownTags, isSink := [], true, false;
    var count := ArgumentCount(i.site);
    for slot := 0 to count
      invariant tagVector == Answers(i, slot, q)
      invariant knownTags == AllKnown(i, slot, q)
      invariant isSink == HasOutput(i, slot)
    {
      var role := RoleAt(i.site, slot);
      if role.Some? && !role.value.isInput {
        isSink := true;
        assert OutputAt(i, slot).Some?;
        var tags := q(i.args[role.value.index - 1]);
        if tags.Some? {
          tagVector := tagVector + tags.value;
        } else {
          knownTags := false;
          assert AnswerAt(i, slot, q) == Some(None);
        }
      }
    }
    r := if isSink && knownTags then i.(tags := Some(Constants(tagVector))) else i;
  }

  method TagOnBlock(b: Block, q: Query) returns (r: Block)
    requires forall j :: 0 <= j < |b| ==> SinkArguments(b[j])
    ensures r == TagBlock(b, q)
  {
    hide SinkArguments;
    hide TagInstr;
    r := [];
    for j := 0 to |b|
      invariant |r| == j && forall k :: 0 <= k < j ==> r[k] == TagInstr(b[k], q)
    {
      var current := b[j];
      if current.Call? {
        current := TagCall(current, q);
      } else {
        NotTagged(current, q);
      }
      r := r + [current];
    }
  }

  lemma NotTagged(i: Instr, q: Query)
    requires !i.Call?
    ensures SinkArguments(i) && TagInstr(i, q) == i
  {
  }

  method TagOnFunction(f: Function, n: nat, oracle: Oracle) returns (g: Function)
    requires AllSinkArguments([f])
    ensures g == TagFunction(f, n, oracle)
  {
    hide SinkArguments;
    hide TagBlock;
    assert [f][0] == f;
    var blocks := [];
    for b := 0 to |f.blocks|
      invariant |blocks| == b && forall k :: 0 <= k < b ==> blocks[k] == TagBlock(f.blocks[k], p => oracle(n, k, p))
    {
      var block := TagOnBlock(f.blocks[b], p => oracle(n, b, p));
      blocks := blocks + [block];
    }
    g := f.(blocks := blocks);
  }

  /** `TagAnalysisResultsAsMetadata`. */
  method RunTagResults(M: Module, oracle: Oracle)
    requires AllSinkArguments(M.functions)
    modifies M
    ensures M.functions == TagAll(old(M.functions), oracle)
  {
    hide TagFunction;
    hide SinkArguments;
    ghost var fs := M.functions;
    for n := 0 to |M.functions|
      invariant |M.functions| == |fs|
      invariant forall k :: 0 <= k < n ==> M.functions[k] == TagFunction(fs[k], k, oracle)
      invariant forall k :: n <= k < |fs| ==> M.functions[k] == fs[k]
    {
      assert [fs[n]][0] == fs[n];
      var f := TagOnFunction(M.functions[n], n, oracle);
      M.functions := M.functions[n := f];
    }
    assert M.functions == TagAll(fs, oracle);
  }

  // ---- Only tags change ----

  lemma TagClean(i: Instr, q: Query)
    requires SinkArguments(i)
    ensures Clean(TagInstr(i, q)) == Clean(i) && IsExtra(TagInstr(i, q)) == IsExtra(i)
    ensures TagInstr(i, q) == if i.Call? then i.(tags := TagInstr(i, q).tags) else i
  {
    hide RoleAt;
  }

  lemma {:induction false} EraseTagBlock(b: Block, q: Query)
    requires forall j :: 0 <= j < |b| ==> SinkArguments(b[j])
    ensures EraseBlock(TagBlock(b, q)) == EraseBlock(b)
  {
    hide SinkArguments;
    hide TagInstr;
    hide IsExtra;
    hide Clean;
    if b != [] {
      var init, i := b[..|b| - 1], b[|b| - 1];
      EraseTagBlock(init, q);
      TagClean(i, q);
      assert TagBlock(b, q)[..|b| - 1] == TagBlock(init, q);
    }
  }

  /** The answers leave the program as it is. */
  lemma EraseTagAll(fs: seq<Function>, oracle: Oracle)
    requires AllSinkArguments(fs)
    ensures Erase(TagAll(fs, oracle)) == Erase(fs)
  {
    hide SinkArguments;
    hide TagBlock;
    hide EraseBlock;
    forall n | 0 <= n < |fs|
      ensures EraseFunction(TagAll(fs, oracle)[n]) == EraseFunction(fs[n])
    {
      var f := fs[n];
      assert [f][0] == f;
      forall b | 0 <= b < |f.blocks|
        ensures EraseBlock(TagBlock(f.blocks[b], p => oracle(n, b, p))) == EraseBlock(f.blocks[b])
      {
        EraseTagBlock(f.blocks[b], p => oracle(n, b, p));
      }
      assert EraseFunction(TagFunction(f, n, oracle)).blocks == EraseFunction(f).blocks;
    }
    assert Erase(TagAll(fs, oracle)) == Erase(fs);
  }
}
