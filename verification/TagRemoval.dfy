/** Removing the source tags undoes inserting them, also when the sinks were wrapped in between. */
module TagRemoval {
  import opened Text
  import opened Metadata
  import opened Ir
  import opened Erasure
  import opened AnnotateSources
  import opened WrapSinks
  import opened WrapMeaning
  import opened WrapOrder

  /** An instruction of a module nobody has tagged yet. */
  predicate IsUntagged(i: Instr) {
    IsProgramInstr(i) && !(IsDirectCall(i) && IsIntrinsic(i.callee.name))
  }

  ghost predicate UntaggedBlock(b: Block) {
    forall j :: 0 <= j < |b| ==> IsUntagged(b[j])
  }

  ghost predicate Untagged(f: Function) {
    forall b :: 0 <= b < |f.blocks| ==> UntaggedBlock(f.blocks[b])
  }

  predicate IsTagCast(i: Instr) {
    i.Cast? && i.def.Temp?
  }

  /** A block without the casts the pass created. */
  function DropCasts(b: Block): Block {
    if b == [] then []
    else DropCasts(b[..|b| - 1]) + if IsTagCast(b[|b| - 1]) then [] else [b[|b| - 1]]
  }

  function Restored(f: Function, b: Block): Block {
    DropCasts(RemoveFromBlock(f, b))
  }

  lemma {:induction false} DropConcat(a: Block, b: Block)
    ensures DropCasts(a + b) == DropCasts(a) + DropCasts(b)
  {
    if b == [] {
      assert a + b == a;
    } else {
      assert (a + b)[..|a + b| - 1] == a + b[..|b| - 1];
      DropConcat(a, b[..|b| - 1]);
    }
  }

  lemma {:induction false} RemoveConcat(f: Function, a: Block, b: Block)
    ensures RemoveFromBlock(f, a + b) == RemoveFromBlock(f, a) + RemoveFromBlock(f, b)
  {
    hide IsRemovable;
    if b == [] {
      assert a + b == a;
    } else {
      assert (a + b)[..|a + b| - 1] == a + b[..|b| - 1];
      RemoveConcat(f, a, b[..|b| - 1]);
    }
  }

  lemma RestoredConcat(f: Function, a: Block, b: Block)
    ensures Restored(f, a + b) == Restored(f, a) + Restored(f, b)
  {
    hide DropCasts;
    hide RemoveFromBlock;
    RemoveConcat(f, a, b);
    DropConcat(RemoveFromBlock(f, a), RemoveFromBlock(f, b));
  }

  lemma DropOne(i: Instr)
    ensures DropCasts([]) == [] && DropCasts([i]) == if IsTagCast(i) then [] else [i]
  {
    assert [i][..0] == [];
  }

  lemma RemoveOne(f: Function, i: Instr)
    ensures RemoveFromBlock(f, [i]) == if IsRemovable(f, i) then [] else [i]
  {
    hide IsRemovable;
    assert [i][..0] == [];
  }

  lemma RestoredOne(f: Function, i: Instr)
    ensures Restored(f, [i]) == if IsRemovable(f, i) || IsTagCast(i) then [] else [i]
  {
    hide DropCasts;
    hide RemoveFromBlock;
    hide IsRemovable;
    DropOne(i);
    RemoveOne(f, i);
  }

  // ---- Inserted code disappears ----

  /** What the passes insert: void intrinsic calls and casts into fresh registers. */
  predicate IsTagging(i: Instr) {
    IsIntrinsicCall(i) || IsTagCast(i)
  }

  lemma {:induction false} TaggingRestored(f: Function, b: Block)
    requires forall j :: 0 <= j < |b| ==> IsTagging(b[j])
    ensures Restored(f, b) == []
  {
    hide IsTagging;
    if b != [] {
      var init, i := b[..|b| - 1], b[|b| - 1];
      TaggingRestored(f, init);
      assert init + [i] == b;
      RestoredConcat(f, init, [i]);
      RestoredTag(f, i);
    }
  }

  lemma RestoredTag(f: Function, i: Instr)
    requires IsTagging(i)
    ensures Restored(f, [i]) == []
  {
    RestoredOne(f, i);
  }

  lemma TagCodeTagging(i: Instr, role: Role)
    requires i.Call? && RoleInRange(i, role) && GetSiteId(i.site).Some?
    ensures forall k :: 0 <= k < |TagCode(i, role)| ==>
              IsTagging(TagCode(i, role)[k]) && (TagCode(i, role)[k].Call? ==> TagCode(i, role)[k].site == None)
    ensures IsProgramInstr(i) ==>
              forall k :: 0 <= k < |TagCode(i, role)| && TagCode(i, role)[k].Cast? ==>
                IsProgramOperand(TagCode(i, role)[k].source)
  {
    hide GetSiteId;
  }

  lemma {:induction false} SourceCodeTagging(i: Instr, n: nat)
    requires i.Call? && SourcesInRange(i) && n <= ArgumentCount(i.site)
    ensures forall k :: 0 <= k < |SourceCodeUpTo(i, n)| ==>
              IsTagging(SourceCodeUpTo(i, n)[k]) &&
              (SourceCodeUpTo(i, n)[k].Call? ==> SourceCodeUpTo(i, n)[k].site == None)
    ensures IsProgramInstr(i) ==>
              forall k :: 0 <= k < |SourceCodeUpTo(i, n)| && SourceCodeUpTo(i, n)[k].Cast? ==>
                IsProgramOperand(SourceCodeUpTo(i, n)[k].source)
  {
    hide RoleAt;
    hide TagCode;
    hide IsTagging;
    hide SourcesInRange;
    hide IsProgramInstr;
    if n > 0 {
      SourceCodeTagging(i, n - 1);
      SourceCodeStep(i, n - 1);
      if RoleAt(i.site, n - 1).Some? && RoleAt(i.site, n - 1).value.isInput {
        TagCodeTagging(i, RoleAt(i.site, n - 1).value);
      }
    }
  }

  /** The inserted code is tagging, unannotated, and reads program values only. */
  lemma CodeTagging(i: Instr)
    requires SourcesInRange(i)
    ensures forall k :: 0 <= k < |SourceCode(i)| ==>
              IsTagging(SourceCode(i)[k]) && (SourceCode(i)[k].Call? ==> SourceCode(i)[k].site == None)
    ensures IsProgramInstr(i) ==>
              forall k :: 0 <= k < |SourceCode(i)| && SourceCode(i)[k].Cast? ==> IsProgramOperand(SourceCode(i)[k].source)
  {
    hide SourceCodeUpTo;
    hide SourcesInRange;
    hide IsProgramInstr;
    hide IsTagging;
    if i.Call? {
      SourceCodeTagging(i, ArgumentCount(i.site));
    }
  }

  // ---- Wrapping a block, one instruction after the other ----

  function WrapNumbered(i: Instr, number: int): Instr {
    if IsSink(i) && number >= 0 then WrappedCall(number, i) else i
  }

  /** `WrapBlocks` on one block: the numbers run down from `top`. */
  function WrapBlock(b: Block, top: int): Block {
    if b == [] then []
    else
      WrapBlock(b[..|b| - 1], top) + [WrapNumbered(b[|b| - 1], top - |SinkCallsOfBlock(b[..|b| - 1])|)]
  }

  lemma {:induction false} WrapBlockAt(b: Block, top: int, i: nat)
    requires i < |b|
    ensures |WrapBlock(b, top)| == |b|
    ensures WrapBlock(b, top)[i] == WrapNumbered(b[i], top - |SinkCallsOfBlock(b[..i])|)
  {
    hide WrapNumbered;
    hide IsSink;
    WrapBlockLength(b, top);
    if i < |b| - 1 {
      assert b[..|b| - 1][..i] == b[..i];
      WrapBlockLength(b[..|b| - 1], top);
      WrapBlockAt(b[..|b| - 1], top, i);
    } else {
      WrapBlockLength(b[..|b| - 1], top);
    }
  }

  lemma {:induction false} WrapBlockLength(b: Block, top: int)
    ensures |WrapBlock(b, top)| == |b|
  {
    hide WrapNumbered;
    if b != [] {
      WrapBlockLength(b[..|b| - 1], top);
    }
  }

  lemma WrapBlocksAt(blocks: seq<Block>, first: nat, n: nat)
    requires n < |blocks|
    ensures WrapBlocks(blocks, first, 0)[n] ==
            WrapBlock(blocks[n], first + |Sinks(blocks)| - 1 - |Sinks(blocks[..n])|)
  {
    hide Sinks;
    hide SinksInBlock;
    hide SinkCallsOfBlock;
    hide OutputsOf;
    hide WrapBlock;
    var top := first + |Sinks(blocks)| - 1 - |Sinks(blocks[..n])|;
    var b, c := blocks[n], WrapBlocks(blocks, first, 0)[n];
    WrapBlockLength(b, top);
    forall i | 0 <= i < |b|
      ensures c[i] == WrapBlock(b, top)[i]
    {
      WrapBlockAt(b, top, i);
      SinkCallsInBlock(b[..i], n);
      assert c[i] == WrapInstr(blocks, first, 0, (n, i));
      if IsSink(b[i]) {
        SinkAtRank(blocks, (n, i));
      }
    }
  }

  predicate NoSinks(b: Block) {
    forall j :: 0 <= j < |b| ==> !IsSink(b[j])
  }

  lemma {:induction false} WrapNoSinks(a: Block, b: Block, top: int)
    requires NoSinks(b)
    ensures WrapBlock(a + b, top) == WrapBlock(a, top) + b
    ensures SinkCallsOfBlock(a + b) == SinkCallsOfBlock(a)
  {
    hide OutputsOf;
    if b == [] {
      assert a + b == a;
    } else {
      assert (a + b)[..|a + b| - 1] == a + b[..|b| - 1];
      WrapNoSinks(a, b[..|b| - 1], top);
    }
  }

  lemma CodeHasNoSinks(i: Instr)
    requires SourcesInRange(i)
    ensures NoSinks(SourceCode(i))
  {
    hide IsTagging;
    hide SourceCode;
    hide SourcesInRange;
    CodeTagging(i);
    assert Roles(None) == [];
  }

  /** Tagging adds no sink and hides none. */
  lemma {:induction false} TaggedSinkCalls(b: Block)
    requires BlockInRange(b)
    ensures SinkCallsOfBlock(AddSourcesBlock(b)) == SinkCallsOfBlock(b)
  {
    hide SourcesInRange;
    hide SourceCode;
    hide IsSink;
    if b != [] {
      var init, i := b[..|b| - 1], b[|b| - 1];
      TaggedSinkCalls(init);
      CodeHasNoSinks(i);
      WrapNoSinks(AddSourcesBlock(init), SourceCode(i), 0);
      var tagged := AddSourcesBlock(b);
      assert tagged[..|tagged| - 1] == AddSourcesBlock(init) + SourceCode(i);
    }
  }

  lemma RestoredProgram(f: Function, i: Instr, number: int)
    requires IsUntagged(i)
    ensures Restored(f, [WrapNumbered(i, number)]) == [WrapNumbered(i, number)]
  {
    hide OutputsOf;
    hide Restored;
    var j := WrapNumbered(i, number);
    RestoredOne(f, j);
    if j != i {
      NamesDiffer(number, number);
      WrapperNotReserved(WrapperName(number));
    }
  }

  lemma WrapSnoc(a: Block, i: Instr, top: int)
    ensures WrapBlock(a + [i], top) == WrapBlock(a, top) + [WrapNumbered(i, top - |SinkCallsOfBlock(a)|)]
  {
    hide WrapNumbered;
    assert (a + [i])[..|a|] == a;
  }

  /** Tagging and then wrapping one more instruction. */
  lemma WrapTagged(b: Block, top: int)
    requires BlockInRange(b) && b != []
    ensures var init, i := b[..|b| - 1], b[|b| - 1];
            && WrapBlock(AddSourcesBlock(b), top) ==
               WrapBlock(AddSourcesBlock(init), top) + SourceCode(i) +
               [WrapNumbered(i, top - |SinkCallsOfBlock(init)|)]
            && WrapBlock(b, top) == WrapBlock(init, top) + [WrapNumbered(i, top - |SinkCallsOfBlock(init)|)]
  {
    hide SourcesInRange;
    hide SourceCode;
    hide WrapNumbered;
    hide WrapBlock;
    hide SinkCallsOfBlock;
    var init, i := b[..|b| - 1], b[|b| - 1];
    assert b == init + [i];
    CodeHasNoSinks(i);
    TaggedSinkCalls(init);
    WrapNoSinks(AddSourcesBlock(init), SourceCode(i), top);
    WrapSnoc(AddSourcesBlock(init) + SourceCode(i), i, top);
    WrapSnoc(init, i, top);
  }

  /** Tag, wrap, remove the tags and forget the casts: the result is wrapping alone. */
  lemma {:induction false} BlockRestored(f: Function, b: Block, top: int)
    requires BlockInRange(b) && UntaggedBlock(b)
    ensures Restored(f, WrapBlock(AddSourcesBlock(b), top)) == WrapBlock(b, top)
  {
    hide SourcesInRange;
    hide SourceCode;
    hide Restored;
    hide IsUntagged;
    hide WrapNumbered;
    hide IsTagging;
    if b == [] {
      TaggingRestored(f, []);
    } else {
      var init, i := b[..|b| - 1], b[|b| - 1];
      BlockRestored(f, init, top);
      WrapTagged(b, top);
      CodeTagging(i);
      var j := WrapNumbered(i, top - |SinkCallsOfBlock(init)|);
      RestoredConcat(f, WrapBlock(AddSourcesBlock(init), top) + SourceCode(i), [j]);
      RestoredConcat(f, WrapBlock(AddSourcesBlock(init), top), SourceCode(i));
      TaggingRestored(f, SourceCode(i));
      RestoredProgram(f, i, top - |SinkCallsOfBlock(init)|);
    }
  }

  // ---- What is left of the tags is dead ----

  predicate ReadsTemp(i: Instr) {
    match i
    case Call(_, callee, args, _, _) =>
      (callee.Indirect? && !IsProgramOperand(callee.pointer)) || !AllProgramOperands(args)
    case Cast(_, source) => !IsProgramOperand(source)
    case Phi(_, incoming) => exists k :: 0 <= k < |incoming| && !IsProgramOperand(incoming[k].1)
    case Op(_, _, args) => !AllProgramOperands(args)
    case Jump(_) => false
    case Branch(condition, _, _) => !IsProgramOperand(condition)
    case Return(value) => value.Some? && !IsProgramOperand(value.value)
  }

  predicate NoTempReads(b: Block) {
    forall j :: 0 <= j < |b| ==> !ReadsTemp(b[j])
  }

  lemma {:induction false} TaggingLeftovers(f: Function, code: Block)
    requires forall k :: 0 <= k < |code| ==> IsTagging(code[k]) && (code[k].Cast? ==> IsProgramOperand(code[k].source))
    ensures NoTempReads(RemoveFromBlock(f, code))
  {
    hide IsUsed;
    if code != [] {
      TaggingLeftovers(f, code[..|code| - 1]);
    }
  }

  lemma ProgramReadsNoTemp(i: Instr, number: int)
    requires IsUntagged(i)
    ensures !ReadsTemp(WrapNumbered(i, number))
  {
    hide OutputsOf;
  }

  lemma UntaggedProgram(i: Instr)
    requires IsUntagged(i)
    ensures IsProgramInstr(i)
  {
  }

  lemma NoBlock(f: Function, top: int)
    ensures AddSourcesBlock([]) == [] && WrapBlock([], top) == [] && RemoveFromBlock(f, []) == []
  {
  }

  lemma {:induction false} LeftoversDead(f: Function, b: Block, top: int)
    requires BlockInRange(b) && UntaggedBlock(b)
    ensures NoTempReads(RemoveFromBlock(f, WrapBlock(AddSourcesBlock(b), top)))
  {
    hide SourcesInRange;
    hide SourceCode;
    hide IsRemovable;
    hide WrapNumbered;
    hide IsTagging;
    hide ReadsTemp;
    hide WrapBlock;
    hide IsUntagged;
    hide SinkCallsOfBlock;
    hide AddSourcesBlock;
    hide RemoveFromBlock;
    if b == [] {
      NoBlock(f, top);
    } else {
      var init, i := b[..|b| - 1], b[|b| - 1];
      LeftoversDead(f, init, top);
      WrapTagged(b, top);
      CodeTagging(i);
      UntaggedProgram(i);
      var number := top - |SinkCallsOfBlock(init)|;
      RemoveConcat(f, WrapBlock(AddSourcesBlock(init), top) + SourceCode(i), [WrapNumbered(i, number)]);
      RemoveConcat(f, WrapBlock(AddSourcesBlock(init), top), SourceCode(i));
      TaggingLeftovers(f, SourceCode(i));
      ProgramReadsNoTemp(i, number);
      RemoveOne(f, WrapNumbered(i, number));
    }
  }

  lemma UnusedTemp(f: Function, site: int, slot: nat)
    requires forall b :: 0 <= b < |f.blocks| ==> NoTempReads(f.blocks[b])
    ensures !IsUsed(f, Temp(site, slot))
  {
    forall b, j | 0 <= b < |f.blocks| && 0 <= j < |f.blocks[b]|
      ensures !UsesRegister(f.blocks[b][j], Temp(site, slot))
    {
      assert !ReadsTemp(f.blocks[b][j]);
    }
  }

  // ---- Functions and modules ----

  /** The body `WrapAll` gives a function, block by block; a function it skips has no numbers to give. */
  function Top(f: Function, first: nat, n: nat): int
    requires n < |f.blocks|
  {
    if IsWrapped(f) then first + |Sinks(f.blocks)| - 1 - |Sinks(f.blocks[..n])| else -1
  }

  lemma {:induction false} NoNumbers(b: Block, top: int)
    requires top < 0
    ensures WrapBlock(b, top) == b
  {
    hide IsSink;
    if b != [] {
      NoNumbers(b[..|b| - 1], top);
    }
  }

  lemma WrappedBody(f: Function, first: nat, n: nat)
    requires n < |f.blocks|
    ensures |WrapFunction(f, first).blocks| == |f.blocks|
    ensures WrapFunction(f, first).blocks[n] == WrapBlock(f.blocks[n], Top(f, first, n))
  {
    hide WrapBlock;
    hide Sinks;
    if IsWrapped(f) {
      WrapBlocksAt(f.blocks, first, n);
    } else {
      NoNumbers(f.blocks[n], -1);
    }
  }

  lemma {:induction false} TaggedSinks(blocks: seq<Block>, tagged: seq<Block>)
    requires |blocks| == |tagged|
    requires forall b :: 0 <= b < |blocks| ==> BlockInRange(blocks[b]) && tagged[b] == AddSourcesBlock(blocks[b])
    ensures SinkCalls(tagged) == SinkCalls(blocks) && |Sinks(tagged)| == |Sinks(blocks)|
  {
    hide BlockInRange;
    hide AddSourcesBlock;
    hide SinkCallsOfBlock;
    hide SinksInBlock;
    if blocks != [] {
      var n := |blocks| - 1;
      TaggedSinks(blocks[..n], tagged[..n]);
      TaggedSinkCalls(blocks[n]);
    }
    SinkCallsAt(blocks);
    SinkCallsAt(tagged);
  }

  lemma TaggedFunctionSinks(f: Function)
    requires InRange([f])
    ensures SinkCount(AddSourcesFunction(f)) == SinkCount(f)
    ensures SinkCalls(AddSourcesFunction(f).blocks) == SinkCalls(f.blocks)
  {
    hide BlockInRange;
    hide AddSourcesBlock;
    hide Sinks;
    hide SinkCalls;
    assert [f][0] == f;
    TaggedSinks(f.blocks, AddSourcesFunction(f).blocks);
  }

  lemma TaggedTop(f: Function, first: nat, n: nat)
    requires InRange([f]) && n < |f.blocks|
    ensures Top(AddSourcesFunction(f), first, n) == Top(f, first, n)
  {
    hide BlockInRange;
    hide AddSourcesBlock;
    hide Sinks;
    assert [f][0] == f;
    var g := AddSourcesFunction(f);
    TaggedSinks(f.blocks, g.blocks);
    TaggedSinks(f.blocks[..n], g.blocks[..n]);
  }

  lemma {:induction false} TaggedTotal(fs: seq<Function>, k: nat)
    requires InRange(fs) && k <= |fs|
    ensures Total(AddSources(fs)[..k]) == Total(fs[..k])
  {
    hide AddSourcesFunction;
    hide BlockInRange;
    hide SinkCount;
    if k > 0 {
      TaggedTotal(fs, k - 1);
      TotalNext(fs, k - 1);
      TotalNext(AddSources(fs), k - 1);
      assert [fs[k - 1]][0] == fs[k - 1];
      TaggedFunctionSinks(fs[k - 1]);
    }
  }

  lemma {:induction false} TaggedBlockLabelled(b: Block)
    requires BlockInRange(b) && forall j :: 0 <= j < |b| ==> OutputsInRange(b[j])
    ensures forall j :: 0 <= j < |AddSourcesBlock(b)| ==> OutputsInRange(AddSourcesBlock(b)[j])
  {
    hide OutputsOf;
    hide SourcesInRange;
    hide SourceCode;
    if b != [] {
      TaggedBlockLabelled(b[..|b| - 1]);
      CodeHasNoSinks(b[|b| - 1]);
    }
  }

  lemma TaggedLabelled(fs: seq<Function>)
    requires InRange(fs) && AllLabelled(fs)
    ensures AllLabelled(AddSources(fs))
  {
    hide OutputsInRange;
    hide BlockInRange;
    forall k | 0 <= k < |fs|
      ensures Labelled(AddSources(fs)[k])
    {
      var f := fs[k];
      assert [f][0] == f;
      assert Labelled(f);
      if IsWrapped(f) {
        forall b | 0 <= b < |f.blocks|
          ensures forall j :: 0 <= j < |AddSourcesBlock(f.blocks[b])| ==> OutputsInRange(AddSourcesBlock(f.blocks[b])[j])
        {
          forall j | 0 <= j < |f.blocks[b]|
            ensures OutputsInRange(f.blocks[b][j])
          {
            assert IsPosition(f.blocks, (b, j));
          }
          assert BlockInRange(fs[k].blocks[b]);
          TaggedBlockLabelled(f.blocks[b]);
        }
      }
    }
  }

  lemma TaggedWrappersOf(f: Function, m: nat)
    requires InRange([f]) && Labelled(f) && Labelled(AddSourcesFunction(f))
    ensures WrappersOf(AddSourcesFunction(f), m) == WrappersOf(f, m)
  {
    hide OutputsOf;
    hide BlockInRange;
    hide AddSourcesBlock;
    hide WrapperFunction;
    hide Sinks;
    hide SinkCalls;
    hide IsPosition;
    hide WrappersOf;
    var g := AddSourcesFunction(f);
    TaggedFunctionSinks(f);
    SinkCallsAt(f.blocks);
    SinkCallsAt(g.blocks);
    forall t | 0 <= t < SinkCount(f)
      ensures WrappersOf(g, m)[t] == WrappersOf(f, m)[t]
    {
      WrappersAt(f, m, t);
      WrappersAt(g, m, t);
    }
  }

  lemma NoWrappers(fs: seq<Function>, first: nat)
    ensures AllLabelled(fs[..0]) && Wrappers(fs[..0], first) == []
  {
  }

  lemma PrefixesLabelled(fs: seq<Function>, k: nat)
    requires AllLabelled(fs) && k <= |fs|
    ensures AllLabelled(fs[..k]) && (k < |fs| ==> Labelled(fs[k]))
  {
    hide Labelled;
  }

  lemma TaggedAt(fs: seq<Function>, k: nat)
    requires InRange(fs) && k < |fs|
    ensures InRange([fs[k]]) && |AddSources(fs)| == |fs| && AddSources(fs)[k] == AddSourcesFunction(fs[k])
  {
    hide AddSourcesFunction;
    hide BlockInRange;
    assert [fs[k]][0] == fs[k];
  }

  lemma {:induction false} TaggedWrappers(fs: seq<Function>, first: nat, k: nat)
    requires InRange(fs) && AllLabelled(fs) && AllLabelled(AddSources(fs)) && k <= |fs| == |AddSources(fs)|
    ensures AllLabelled(fs[..k]) && AllLabelled(AddSources(fs)[..k])
    ensures Wrappers(AddSources(fs)[..k], first) == Wrappers(fs[..k], first)
  {
    hide *;
    if k == 0 {
      NoWrappers(fs, first);
      NoWrappers(AddSources(fs), first);
    } else {
      var i := k - 1;
      TaggedAt(fs, i);
      TaggedWrappers(fs, first, i);
      TaggedTotal(fs, i);
      PrefixesLabelled(fs, i);
      PrefixesLabelled(fs, k);
      PrefixesLabelled(AddSources(fs), i);
      PrefixesLabelled(AddSources(fs), k);
      BodiesNext(fs, first, i);
      BodiesNext(AddSources(fs), first, i);
      TaggedWrappersOf(fs[i], first + Total(fs[..i]));
    }
  }

  // ---- The theorem ----

  /** A function with its tag casts dropped. */
  function WithoutCasts(f: Function): Function {
    f.(blocks := seq(|f.blocks|, b requires 0 <= b < |f.blocks| => DropCasts(f.blocks[b])))
  }

  /** One function: tagged, wrapped and untagged, it is the wrapped function plus casts nobody reads. */
  lemma FunctionRestored(f: Function, first: nat)
    requires InRange([f]) && Untagged(f)
    ensures WithoutCasts(RemoveFromFunction(WrapFunction(AddSourcesFunction(f), first))) == WrapFunction(f, first)
    ensures forall site, slot :: !IsUsed(RemoveFromFunction(WrapFunction(AddSourcesFunction(f), first)), Temp(site, slot))
  {
    hide BlockInRange;
    hide UntaggedBlock;
    hide AddSourcesBlock;
    hide RemoveFromBlock;
    hide DropCasts;
    hide WrapFunction;
    hide NoTempReads;
    hide IsUsed;
    hide Top;
    assert [f][0] == f;
    var g := AddSourcesFunction(f);
    var w := WrapFunction(g, first);
    var r := RemoveFromFunction(w);
    WrappedShape(f, first);
    WrappedShape(g, first);
    forall n | 0 <= n < |f.blocks|
      ensures WithoutCasts(r).blocks[n] == WrapFunction(f, first).blocks[n] && NoTempReads(r.blocks[n])
    {
      WrappedBody(f, first, n);
      WrappedBody(g, first, n);
      TaggedTop(f, first, n);
      BlockRestored(w, f.blocks[n], Top(f, first, n));
      LeftoversDead(w, f.blocks[n], Top(f, first, n));
    }
    forall site, slot
      ensures !IsUsed(r, Temp(site, slot))
    {
      UnusedTemp(r, site, slot);
    }
  }

  /**
   `removeSources` after `addSources` and `WrapSinks` leaves what `WrapSinks` alone would have produced: the wrappers
   without their `set_modified` calls, and each function with every instruction in place, plus casts nobody reads.
   */
  lemma RemoveUndoesAdd(fs: seq<Function>, first: nat)
    requires InRange(fs) && AllLabelled(fs) && forall k :: 0 <= k < |fs| ==> Untagged(fs[k])
    ensures AllLabelled(AddSources(fs))
    ensures var r, w := RemoveSources(WrapAll(AddSources(fs), first)), WrapAll(fs, first);
            && |r| == |w| && |fs| <= |w| && r[|fs|..] == RemoveSources(w)[|fs|..]
            && (forall k :: 0 <= k < |fs| ==> WithoutCasts(r[k]) == w[k])
            && (forall k, site, slot :: 0 <= k < |fs| ==> !IsUsed(r[k], Temp(site, slot)))
  {
    hide BlockInRange;
    hide Untagged;
    hide Labelled;
    hide AddSourcesFunction;
    hide RemoveFromFunction;
    hide WrapFunction;
    hide WithoutCasts;
    hide IsUsed;
    hide Bodies;
    hide Wrappers;
    hide Total;
    TaggedLabelled(fs);
    var gs := AddSources(fs);
    TaggedWrappers(fs, first, |fs|);
    assert fs[..|fs|] == fs && gs[..|gs|] == gs;
    BodiesLength(fs, first);
    BodiesLength(gs, first);
    forall k | 0 <= k < |fs|
      ensures WithoutCasts(RemoveFromFunction(Bodies(gs, first)[k])) == Bodies(fs, first)[k]
      ensures forall site, slot :: !IsUsed(RemoveFromFunction(Bodies(gs, first)[k]), Temp(site, slot))
    {
      var m := BodyAt(fs, first, k);
      var m' := BodyAt(gs, first, k);
      TaggedTotal(fs, k);
      assert [fs[k]][0] == fs[k];
      FunctionRestored(fs[k], m);
    }
  }
}
