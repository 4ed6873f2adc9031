/** `addSources` tags the program's sources for the analysis; `removeSources` takes the tags out again. */
module AnnotateSources {
  import opened Text
  import opened Metadata
  import opened Ir
  import opened Erasure

  // ---- Adding ----

  function AddTagCall(pointer: Operand, id: int): Instr {
    Call(None, Direct(ADD_TAG, ADD_TAG_SIG), [pointer, Number(id)], None, None)
  }

  /** The value a role labels: the call's own result for index 0. */
  function TaggedValue(i: Instr, role: Role): Operand
    requires i.Call? && RoleInRange(i, role)
  {
    if role.index == 0 then Result(i.dst.value, i.callee.sig.result) else i.args[role.index - 1]
  }

  predicate RoleInRange(i: Instr, role: Role)
    requires i.Call?
  {
    if role.index == 0 then i.dst.Some? else role.index - 1 < |i.args|
  }

  /** What is inserted for one source; a null constant is not tagged. */
  function TagCode(i: Instr, role: Role): seq<Instr>
    requires i.Call? && RoleInRange(i, role) && GetSiteId(i.site).Some?
  {
    var id := GetSiteId(i.site).value;
    var ptr := TaggedValue(i, role);
    if ptr == NullPointer then []
    else
      CastCode(ptr, Temp(id, role.slot)) +
      [SetModifiedCall(CastOperand(ptr, Temp(id, role.slot))), AddTagCall(CastOperand(ptr, Temp(id, role.slot)), id)]
  }

  /** What `getArgOperand` and the cast of the result demand of the source labels. */
  predicate SourcesInRange(i: Instr) {
    i.Call? ==>
      forall slot :: 0 <= slot < ArgumentCount(i.site) ==>
        var role := RoleAt(i.site, slot); role.Some? && role.value.isInput ==> RoleInRange(i, role.value)
  }

  lemma RoleHasSite(site: Option<seq<Node>>, slot: nat)
    requires RoleAt(site, slot).Some?
    ensures GetSiteId(site).Some?
  {
  }

  function SourceCodeUpTo(i: Instr, n: nat): seq<Instr>
    requires i.Call? && SourcesInRange(i) && n <= ArgumentCount(i.site)
  {
    if n == 0 then []
    else
      SourceCodeUpTo(i, n - 1) +
      match RoleAt(i.site, n - 1)
      case None => []
      case Some(role) =>
        RoleHasSite(i.site, n - 1);
        if role.isInput then TagCode(i, role) else []
  }

  /** Everything inserted in front of an instruction. */
  function SourceCode(i: Instr): seq<Instr>
    requires SourcesInRange(i)
  {
    if i.Call? then SourceCodeUpTo(i, ArgumentCount(i.site)) else []
  }

  ghost predicate BlockInRange(b: Block) {
    forall j :: 0 <= j < |b| ==> SourcesInRange(b[j])
  }

  ghost function AddSourcesBlock(b: Block): Block
    requires BlockInRange(b)
  {
    if b == [] then []
    else AddSourcesBlock(b[..|b| - 1]) + SourceCode(b[|b| - 1]) + [b[|b| - 1]]
  }

  ghost predicate InRange(fs: seq<Function>) {
    forall k, b :: 0 <= k < |fs| && 0 <= b < |fs[k].blocks| ==> BlockInRange(fs[k].blocks[b])
  }

  ghost function AddSourcesFunction(f: Function): Function
    requires InRange([f])
  {
    f.(blocks := seq(|f.blocks|, b requires 0 <= b < |f.blocks| => assert [f][0] == f; AddSourcesBlock(f.blocks[b])))
  }

  ghost function AddSources(fs: seq<Function>): seq<Function>
    requires InRange(fs)
  {
    seq(|fs|, k requires 0 <= k < |fs| => AddSourcesFunction(fs[k]))
  }

  // ---- Removing ----

  predicate UsesOperand(o: Operand, r: Register) {
    o.Result? && o.reg == r
  }

  predicate UsesRegister(i: Instr, r: Register) {
    match i
    case Call(_, callee, args, _, _) =>
      (callee.Indirect? && UsesOperand(callee.pointer, r)) || exists k :: 0 <= k < |args| && UsesOperand(args[k], r)
    case Cast(_, source) => UsesOperand(source, r)
    case Phi(_, incoming) => exists k :: 0 <= k < |incoming| && UsesOperand(incoming[k].1, r)
    case Op(_, _, args) => exists k :: 0 <= k < |args| && UsesOperand(args[k], r)
    case Jump(_) => false
    case Branch(condition, _, _) => UsesOperand(condition, r)
    case Return(value) => value.Some? && UsesOperand(value.value, r)
  }

  predicate IsUsed(f: Function, r: Register) {
    exists b, j :: 0 <= b < |f.blocks| && 0 <= j < |f.blocks[b]| && UsesRegister(f.blocks[b][j], r)
  }

  /** A call to one of the two intrinsics whose result has no use. */
  predicate IsRemovable(f: Function, i: Instr) {
    IsDirectCall(i) && IsIntrinsic(i.callee.name) && (i.dst.Some? ==> !IsUsed(f, i.dst.value))
  }

  function RemoveFromBlock(f: Function, b: Block): Block {
    if b == [] then []
    else RemoveFromBlock(f, b[..|b| - 1]) + if IsRemovable(f, b[|b| - 1]) then [] else [b[|b| - 1]]
  }

  function RemoveFromFunction(f: Function): Function {
    f.(blocks := seq(|f.blocks|, b requires 0 <= b < |f.blocks| => RemoveFromBlock(f, f.blocks[b])))
  }

  function RemoveSources(fs: seq<Function>): seq<Function> {
    seq(|fs|, k requires 0 <= k < |fs| => RemoveFromFunction(fs[k]))
  }

  /** All values an instruction reads. */
  function Operands(i: Instr): seq<Operand> {
    match i
    case Call(_, callee, args, _, _) => (if callee.Indirect? then [callee.pointer] else []) + args
    case Cast(_, source) => [source]
    case Phi(_, incoming) => seq(|incoming|, k requires 0 <= k < |incoming| => incoming[k].1)
    case Op(_, _, args) => args
    case Jump(_) => []
    case Branch(condition, _, _) => [condition]
    case Return(value) => if value.Some? then [value.value] else []
  }

  predicate Reads(i: Instr, r: Register) {
    exists k :: 0 <= k < |Operands(i)| && Operands(i)[k].Result? && Operands(i)[k].reg == r
  }

  /** No instruction of the function reads what the call gives back. */
  ghost predicate Unread(f: Function, i: Instr) {
    i.Call? && (i.dst.Some? ==> forall p :: IsPosition(f.blocks, p) ==> !Reads(InstrAt(f.blocks, p), i.dst.value))
  }

  lemma ReadsAt(i: Instr, r: Register, k: nat)
    requires k < |Operands(i)| && UsesOperand(Operands(i)[k], r)
    ensures Reads(i, r)
  {
  }

  lemma UseIsRead(i: Instr, r: Register)
    ensures UsesRegister(i, r) <==> Reads(i, r)
  {
    match i
    case Call(_, _, _, _, _) => CallReads(i, r);
    case Phi(_, incoming) =>
      if k :| 0 <= k < |incoming| && UsesOperand(incoming[k].1, r) {
        ReadsAt(i, r, k);
      }
    case Op(_, _, args) =>
      if k :| 0 <= k < |args| && UsesOperand(args[k], r) {
        ReadsAt(i, r, k);
      }
    case Cast(_, source) => assert Operands(i)[0] == source;
    case Jump(_) =>
    case Branch(condition, _, _) => assert Operands(i)[0] == condition;
    case Return(value) => assert value.Some? ==> Operands(i)[0] == value.value;
  }

  lemma CallReads(i: Instr, r: Register)
    requires i.Call?
    ensures UsesRegister(i, r) <==> Reads(i, r)
  {
    hide Reads;
    hide Operands;
    var front := if i.callee.Indirect? then 1 else 0;
    CallOperands(i);
    if k :| 0 <= k < |i.args| && UsesOperand(i.args[k], r) {
      ReadsAt(i, r, front + k);
    }
    if i.callee.Indirect? && UsesOperand(i.callee.pointer, r) {
      ReadsAt(i, r, 0);
    }
    if Reads(i, r) {
      var k := ReadAt(i, r);
      assert k >= front ==> UsesOperand(i.args[k - front], r);
    }
  }

  lemma CallOperands(i: Instr)
    requires i.Call?
    ensures var front := if i.callee.Indirect? then 1 else 0;
            && |Operands(i)| == front + |i.args| && (front == 1 ==> Operands(i)[0] == i.callee.pointer)
            && forall k :: 0 <= k < |i.args| ==> Operands(i)[front + k] == i.args[k]
  {
  }

  lemma ReadAt(i: Instr, r: Register) returns (k: nat)
    requires Reads(i, r)
    ensures k < |Operands(i)| && UsesOperand(Operands(i)[k], r)
  {
    k :| 0 <= k < |Operands(i)| && Operands(i)[k].Result? && Operands(i)[k].reg == r;
  }

  lemma RemovableExactly(f: Function, i: Instr)
    ensures IsRemovable(f, i) <==>
            IsDirectCall(i) && (i.callee.name == ADD_TAG || i.callee.name == SET_MODIFIED) && Unread(f, i)
  {
    hide UsesRegister;
    hide Reads;
    forall j: Instr, r: Register
      ensures UsesRegister(j, r) <==> Reads(j, r)
    {
      UseIsRead(j, r);
    }
    if IsDirectCall(i) && i.dst.Some? {
      var r := i.dst.value;
      if IsUsed(f, r) {
        var b, j :| 0 <= b < |f.blocks| && 0 <= j < |f.blocks[b]| && UsesRegister(f.blocks[b][j], r);
        assert IsPosition(f.blocks, (b, j)) && Reads(InstrAt(f.blocks, (b, j)), r);
      }
    }
  }

  /** Exactly the calls of the two intrinsics whose results nobody reads are gone; all else is there as often as before. */
  lemma {:induction false} RemovedExactly(f: Function, b: Block, x: Instr)
    ensures multiset(RemoveFromBlock(f, b))[x] ==
            if IsDirectCall(x) && (x.callee.name == ADD_TAG || x.callee.name == SET_MODIFIED) && Unread(f, x) then 0
            else multiset(b)[x]
  {
    hide IsRemovable;
    hide Unread;
    if b != [] {
      RemovedExactly(f, b[..|b| - 1], x);
      RemovableExactly(f, b[|b| - 1]);
      assert b == b[..|b| - 1] + [b[|b| - 1]];
    }
  }

  // ---- Both leave the program alone ----

  lemma TagCodeExtra(i: Instr, role: Role)
    requires i.Call? && RoleInRange(i, role) && GetSiteId(i.site).Some?
    ensures forall k :: 0 <= k < |TagCode(i, role)| ==> IsExtra(TagCode(i, role)[k])
  {
    hide GetSiteId;
  }

  lemma {:induction false} SourceCodeExtra(i: Instr, n: nat)
    requires i.Call? && SourcesInRange(i) && n <= ArgumentCount(i.site)
    ensures forall k :: 0 <= k < |SourceCodeUpTo(i, n)| ==> IsExtra(SourceCodeUpTo(i, n)[k])
  {
    hide RoleAt;
    hide TagCode;
    hide IsExtra;
    hide SourcesInRange;
    if n > 0 {
      SourceCodeExtra(i, n - 1);
      SourceCodeStep(i, n - 1);
      if RoleAt(i.site, n - 1).Some? && RoleAt(i.site, n - 1).value.isInput {
        TagCodeExtra(i, RoleAt(i.site, n - 1).value);
      }
    }
  }

  lemma SourceCodeErased(i: Instr)
    requires SourcesInRange(i)
    ensures EraseBlock(SourceCode(i)) == []
  {
    hide IsExtra;
    if i.Call? {
      SourceCodeExtra(i, ArgumentCount(i.site));
    }
    EraseExtra(SourceCode(i));
  }

  lemma {:induction false} EraseAddSourcesBlock(b: Block)
    requires BlockInRange(b)
    ensures EraseBlock(AddSourcesBlock(b)) == EraseBlock(b)
  {
    hide IsExtra;
    hide SourcesInRange;
    hide SourceCode;
    hide EraseBlock;
    if b == [] {
      EraseExtra([]);
    } else {
      var init, i := b[..|b| - 1], b[|b| - 1];
      EraseAddSourcesBlock(init);
      EraseConcat(AddSourcesBlock(init) + SourceCode(i), [i]);
      EraseConcat(AddSourcesBlock(init), SourceCode(i));
      SourceCodeErased(i);
      EraseConcat(init, [i]);
      assert init + [i] == b;
    }
  }

  /** Tagging adds nothing but extra instructions. */
  lemma EraseAddSources(fs: seq<Function>)
    requires InRange(fs)
    ensures Erase(AddSources(fs)) == Erase(fs)
  {
    hide BlockInRange;
    hide AddSourcesBlock;
    hide EraseBlock;
    forall k | 0 <= k < |fs|
      ensures EraseFunction(AddSourcesFunction(fs[k])) == EraseFunction(fs[k])
    {
      assert [fs[k]][0] == fs[k];
      forall b | 0 <= b < |fs[k].blocks|
        ensures EraseBlock(AddSourcesBlock(fs[k].blocks[b])) == EraseBlock(fs[k].blocks[b])
      {
        EraseAddSourcesBlock(fs[k].blocks[b]);
      }
    }
  }

  /** No intrinsic hands back a result; the ones `addSources` and `WrapSinks` declare are void. */
  predicate VoidIntrinsic(i: Instr) {
    IsDirectCall(i) && IsIntrinsic(i.callee.name) ==> i.dst.None?
  }

  ghost predicate VoidIntrinsics(fs: seq<Function>) {
    forall k, b, j :: 0 <= k < |fs| && 0 <= b < |fs[k].blocks| && 0 <= j < |fs[k].blocks[b]| ==>
      VoidIntrinsic(fs[k].blocks[b][j])
  }

  lemma {:induction false} EraseRemoveBlock(f: Function, b: Block)
    requires forall j :: 0 <= j < |b| ==> VoidIntrinsic(b[j])
    ensures EraseBlock(RemoveFromBlock(f, b)) == EraseBlock(b)
  {
    hide IsUsed;
    hide EraseBlock;
    if b != [] {
      var init, i := b[..|b| - 1], b[|b| - 1];
      EraseRemoveBlock(f, init);
      EraseConcat(init, [i]);
      assert init + [i] == b;
      EraseOne(i);
      if IsRemovable(f, i) {
        assert VoidIntrinsic(i);
        assert RemoveFromBlock(f, b) == RemoveFromBlock(f, init);
        assert EraseBlock(b) == EraseBlock(init);
      } else {
        EraseConcat(RemoveFromBlock(f, init), [i]);
      }
    }
  }

  /** Removing takes out nothing but extra instructions. */
  lemma EraseRemoveSources(fs: seq<Function>)
    requires VoidIntrinsics(fs)
    ensures Erase(RemoveSources(fs)) == Erase(fs)
  {
    hide RemoveFromBlock;
    hide EraseBlock;
    hide VoidIntrinsic;
    forall k | 0 <= k < |fs|
      ensures EraseFunction(RemoveFromFunction(fs[k])) == EraseFunction(fs[k])
    {
      forall b | 0 <= b < |fs[k].blocks|
        ensures EraseBlock(RemoveFromBlock(fs[k], fs[k].blocks[b])) == EraseBlock(fs[k].blocks[b])
      {
        EraseRemoveBlock(fs[k], fs[k].blocks[b]);
      }
    }
  }

  // ---- The passes ----

  lemma SourceCodeStep(i: Instr, n: nat)
    requires i.Call? && SourcesInRange(i) && n < ArgumentCount(i.site)
    ensures var role := RoleAt(i.site, n);
            && (role.Some? && role.value.isInput ==>
                  GetSiteId(i.site).Some? && RoleInRange(i, role.value) &&
                  SourceCodeUpTo(i, n + 1) == SourceCodeUpTo(i, n) + TagCode(i, role.value))
            && ((role.Some? && role.value.isInput) || SourceCodeUpTo(i, n + 1) == SourceCodeUpTo(i, n))
  {
    hide RoleAt;
    if RoleAt(i.site, n).Some? {
      RoleHasSite(i.site, n);
    }
  }

  /** Tags one call: inserts the code for its source labels at `at`, in front of the call, one label after the other. */
  method TagCall(block: Block, at: nat) returns (r: Block, added: nat)
    requires at < |block| && block[at].Call? && SourcesInRange(block[at])
    ensures added == |SourceCode(block[at])|
    ensures r == block[..at] + SourceCode(block[at]) + block[at..]
  {
    hide *;
    var call := block[at];
    r, added := block, 0;
    TaggedStart(block, at);
    var slot := 0;
    while slot < ArgumentCount(call.site)
      invariant slot <= ArgumentCount(call.site)
      invariant TaggedUpTo(block, at, slot, r, added)
    {
      TaggedStep(block, at, slot, r, added);
      var argument := GetArgument(call.site, slot);
      if argument.Some? {
        var kind := ArgumentType(argument.value.labels);
        if kind == Some(true) {
          var code := TagCode(call, Role(slot, argument.value.index, true));
          r := r[..at + added] + code + r[at + added..];
          added := added + |code|;
        }
      }
      slot := slot + 1;
    }
    TaggedEnd(block, at, r, added);
  }

  /** The code for the first `n` labels of the call stands in front of it. */
  ghost predicate TaggedUpTo(block: Block, at: nat, n: nat, r: Block, added: nat)
    requires at < |block| && block[at].Call? && SourcesInRange(block[at]) && n <= ArgumentCount(block[at].site)
  {
    added == |SourceCodeUpTo(block[at], n)| && r == block[..at] + SourceCodeUpTo(block[at], n) + block[at..]
  }

  lemma TaggedStart(block: Block, at: nat)
    requires at < |block| && block[at].Call? && SourcesInRange(block[at])
    ensures TaggedUpTo(block, at, 0, block, 0)
  {
    assert block == block[..at] + [] + block[at..];
  }

  lemma TaggedEnd(block: Block, at: nat, r: Block, added: nat)
    requires at < |block| && block[at].Call? && SourcesInRange(block[at])
    requires TaggedUpTo(block, at, ArgumentCount(block[at].site), r, added)
    ensures added == |SourceCode(block[at])| && r == block[..at] + SourceCode(block[at]) + block[at..]
  {
    hide SourceCodeUpTo;
  }

  lemma TaggedStep(block: Block, at: nat, slot: nat, r: Block, added: nat)
    requires at < |block| && block[at].Call? && SourcesInRange(block[at]) && slot < ArgumentCount(block[at].site)
    requires TaggedUpTo(block, at, slot, r, added)
    ensures at + added <= |r|
    ensures var call, argument := block[at], GetArgument(block[at].site, slot);
            if argument.Some? && ArgumentType(argument.value.labels) == Some(true)
            then var role := Role(slot, argument.value.index, true);
                 RoleInRange(call, role) && GetSiteId(call.site).Some? &&
                 var code := TagCode(call, role);
                 TaggedUpTo(block, at, slot + 1, r[..at + added] + code + r[at + added..], added + |code|)
            else TaggedUpTo(block, at, slot + 1, r, added)
  {
    hide ArgumentType;
    hide GetArgument;
    hide TagCode;
    hide SourcesInRange;
    hide SourceCodeUpTo;
    hide RoleInRange;
    hide GetSiteId;
    var call := block[at];
    SourceCodeStep(call, slot);
    var before := SourceCodeUpTo(call, slot);
    assert r[..at + added] == block[..at] + before && r[at + added..] == block[at..];
  }

  method AddSourcesOnBlock(b: Block) returns (block: Block)
    requires BlockInRange(b)
    ensures block == AddSourcesBlock(b)
  {
    hide *;
    block := b;
    var j: nat := 0;
    ghost var i: nat := 0;
    CursorStart(b);
    while j < |block|
      invariant AtCursor(b, i, block, j)
      decreases |b| - i
    {
      CursorNext(b, i, block, j);
      if block[j].Call? {
        var added: nat;
        block, added := TagCall(block, j);
        j := j + added;
      } else {
        NoSourceCode(b[i]);
      }
      j := j + 1;
      i := i + 1;
    }
    CursorEnd(b, i, block, j);
  }

  /** The block when the loop has come to its `i`th instruction. */
  ghost predicate AtCursor(b: Block, i: nat, block: Block, j: nat)
    requires BlockInRange(b)
  {
    i <= |b| && j == |AddSourcesBlock(b[..i])| && block == AddSourcesBlock(b[..i]) + b[i..]
  }

  lemma CursorStart(b: Block)
    requires BlockInRange(b)
    ensures AtCursor(b, 0, b, 0)
  {
    hide SourcesInRange;
    assert AddSourcesBlock(b[..0]) == [] && b[0..] == b;
  }

  lemma CursorNext(b: Block, i: nat, block: Block, j: nat)
    requires BlockInRange(b) && AtCursor(b, i, block, j) && j < |block|
    ensures i < |b| && block[j] == b[i] && SourcesInRange(b[i])
    ensures AtCursor(b, i + 1, block[..j] + SourceCode(b[i]) + block[j..], j + |SourceCode(b[i])| + 1)
    ensures SourceCode(b[i]) == [] ==> AtCursor(b, i + 1, block, j + 1)
  {
    hide SourcesInRange;
    hide SourceCode;
    hide AddSourcesBlock;
    AddSourcesNext(b, i);
    InsertInFront(AddSourcesBlock(b[..i]), b, i, SourceCode(b[i]));
    assert block[..j] + [] + block[j..] == block;
  }

  lemma CursorEnd(b: Block, i: nat, block: Block, j: nat)
    requires BlockInRange(b) && AtCursor(b, i, block, j) && j >= |block|
    ensures block == AddSourcesBlock(b)
  {
    hide SourcesInRange;
    hide AddSourcesBlock;
    assert b[..|b|] == b;
  }

  lemma InsertInFront(done: Block, b: Block, i: nat, code: Block)
    requires i < |b|
    ensures var block := done + b[i..];
            && block[|done|] == b[i]
            && block[..|done|] + code + block[|done|..] == done + code + [b[i]] + b[i + 1..]
  {
    assert b[i..] == [b[i]] + b[i + 1..];
  }

  lemma AddSourcesNext(b: Block, i: nat)
    requires BlockInRange(b) && i < |b|
    ensures AddSourcesBlock(b[..i + 1]) == AddSourcesBlock(b[..i]) + SourceCode(b[i]) + [b[i]]
  {
    hide SourcesInRange;
    hide SourceCode;
    assert b[..i + 1][..i] == b[..i];
  }

  lemma NoSourceCode(i: Instr)
    requires !i.Call? && SourcesInRange(i)
    ensures SourceCode(i) == []
  {
  }

  /** `addSources::runOnFunction`. */
  method AddSourcesOnFunction(f: Function) returns (g: Function)
    requires InRange([f])
    ensures g == AddSourcesFunction(f)
  {
    hide BlockInRange;
    hide AddSourcesBlock;
    assert [f][0] == f;
    var blocks := f.blocks;
    var b := 0;
    while b < |blocks|
      invariant b <= |blocks| == |f.blocks|
      invariant forall j :: 0 <= j < b ==> blocks[j] == AddSourcesFunction(f).blocks[j]
      invariant forall j :: b <= j < |blocks| ==> blocks[j] == f.blocks[j]
    {
      var block := AddSourcesOnBlock(blocks[b]);
      blocks := blocks[b := block];
      b := b + 1;
    }
    assert blocks == AddSourcesFunction(f).blocks;
    g := f.(blocks := blocks);
  }

  /** `addSources::runOnModule`. */
  method RunAddSources(M: Module)
    requires InRange(M.functions)
    modifies M
    ensures M.functions == AddSources(old(M.functions))
  {
    hide BlockInRange;
    hide AddSourcesFunction;
    ghost var fs := M.functions;
    var k := 0;
    while k < |M.functions|
      invariant k <= |M.functions| == |fs|
      invariant M.functions[..k] == AddSources(fs)[..k] && M.functions[k..] == fs[k..]
    {
      assert M.functions[k] == fs[k] && [fs[k]][0] == fs[k];
      var g := AddSourcesOnFunction(M.functions[k]);
      M.functions := M.functions[k := g];
      assert M.functions[..k + 1] == M.functions[..k] + [AddSources(fs)[k]];
      k := k + 1;
    }
  }

  // ---- Removing: collect, then erase ----

  function EraseAt(blocks: seq<Block>, p: Position): seq<Block>
    requires IsPosition(blocks, p)
  {
    blocks[p.0 := blocks[p.0][..p.1] + blocks[p.0][p.1 + 1..]]
  }

  /** Erases the listed instructions one after the other; an empty answer means that one of them was not there. */
  function EraseList(blocks: seq<Block>, toerase: seq<Position>): Option<seq<Block>>
    decreases |toerase|
  {
    if toerase == [] then Some(blocks)
    else if IsPosition(blocks, toerase[0]) then EraseList(EraseAt(blocks, toerase[0]), toerase[1..])
    else None
  }

  /** The removable instructions of a block, the last one first, as `push_front` lists them. */
  function RemovableIn(f: Function, b: Block, at: nat): seq<Position> {
    if b == [] then []
    else
      (if IsRemovable(f, b[|b| - 1]) then [(at, |b| - 1)] else []) + RemovableIn(f, b[..|b| - 1], at)
  }

  function Removable(f: Function, blocks: seq<Block>): seq<Position> {
    if blocks == [] then []
    else RemovableIn(f, blocks[|blocks| - 1], |blocks| - 1) + Removable(f, blocks[..|blocks| - 1])
  }

  function RemoveFromBlocks(f: Function, blocks: seq<Block>): seq<Block> {
    seq(|blocks|, b requires 0 <= b < |blocks| => RemoveFromBlock(f, blocks[b]))
  }

  /** Erasing from the back of a block leaves what follows it, and every other block, in place. */
  lemma {:induction false} EraseBlockList(f: Function, before: seq<Block>, b: Block, tail: Block, after: seq<Block>,
                                          rest: seq<Position>)
    ensures EraseList(before + [b + tail] + after, RemovableIn(f, b, |before|) + rest) ==
            EraseList(before + [RemoveFromBlock(f, b) + tail] + after, rest)
    decreases |b|
  {
    hide IsRemovable;
    if b == [] {
      assert RemovableIn(f, b, |before|) + rest == rest;
      assert b + tail == RemoveFromBlock(f, b) + tail;
    } else {
      var init, i := b[..|b| - 1], b[|b| - 1];
      var blocks := before + [b + tail] + after;
      if IsRemovable(f, i) {
        var p := (|before|, |b| - 1);
        var list := RemovableIn(f, b, |before|) + rest;
        assert list == [p] + (RemovableIn(f, init, |before|) + rest);
        assert EraseAt(blocks, p) == before + [init + tail] + after by {
          assert blocks[|before|] == b + tail;
          assert (b + tail)[..|b| - 1] + (b + tail)[|b|..] == init + tail;
        }
        assert list[1..] == RemovableIn(f, init, |before|) + rest;
        assert IsPosition(blocks, list[0]);
        EraseBlockList(f, before, init, tail, after, rest);
        assert RemoveFromBlock(f, b) == RemoveFromBlock(f, init);
      } else {
        assert b + tail == init + ([i] + tail);
        assert RemovableIn(f, b, |before|) == RemovableIn(f, init, |before|);
        EraseBlockList(f, before, init, [i] + tail, after, rest);
        assert RemoveFromBlock(f, init) + ([i] + tail) == RemoveFromBlock(f, b) + tail;
      }
    }
  }

  /** Erasing the collected instructions is filtering every block. */
  lemma {:induction false} EraseCollected(f: Function, blocks: seq<Block>, after: seq<Block>)
    ensures EraseList(blocks + after, Removable(f, blocks)) == Some(RemoveFromBlocks(f, blocks) + after)
  {
    hide RemoveFromBlock;
    hide RemovableIn;
    if blocks == [] {
      assert blocks + after == after == RemoveFromBlocks(f, blocks) + after;
    } else {
      var init, b := blocks[..|blocks| - 1], blocks[|blocks| - 1];
      assert b + [] == b && blocks + after == init + [b] + after;
      EraseBlockList(f, init, b, [], after, Removable(f, init));
      var removed := RemoveFromBlock(f, b);
      assert removed + [] == removed && init + [removed] + after == init + ([removed] + after);
      EraseCollected(f, init, [removed] + after);
      assert RemoveFromBlocks(f, blocks) == RemoveFromBlocks(f, init) + [removed];
      assert RemoveFromBlocks(f, init) + ([removed] + after) == RemoveFromBlocks(f, blocks) + after;
    }
  }

  method CollectRemovable(f: Function) returns (toerase: seq<Position>)
    ensures toerase == Removable(f, f.blocks)
  {
    hide IsRemovable;
    toerase := [];
    var b := 0;
    while b < |f.blocks|
      invariant b <= |f.blocks|
      invariant toerase == Removable(f, f.blocks[..b])
    {
      assert f.blocks[..b + 1][..b] == f.blocks[..b];
      var block := f.blocks[b];
      var i := 0;
      while i < |block|
        invariant i <= |block|
        invariant toerase == RemovableIn(f, block[..i], b) + Removable(f, f.blocks[..b])
      {
        assert block[..i + 1][..i] == block[..i];
        if IsRemovable(f, block[i]) {
          toerase := [(b, i)] + toerase;
        }
        i := i + 1;
      }
      assert block[..i] == block;
      b := b + 1;
    }
    assert f.blocks[..b] == f.blocks;
  }

  /** `removeSources::runOnFunction`. */
  method RemoveOnFunction(f: Function) returns (g: Function, changed: bool)
    ensures g == RemoveFromFunction(f)
    ensures changed <==> Removable(f, f.blocks) != []
  {
    hide RemoveFromBlock;
    hide Removable;
    var toerase := CollectRemovable(f);
    changed := toerase != [];
    EraseCollected(f, f.blocks, []);
    assert f.blocks + [] == f.blocks && RemoveFromBlocks(f, f.blocks) + [] == RemoveFromBlocks(f, f.blocks);
    var blocks := f.blocks;
    while toerase != []
      invariant EraseList(blocks, toerase) == Some(RemoveFromBlocks(f, f.blocks))
      decreases |toerase|
    {
      blocks := EraseAt(blocks, toerase[0]);
      toerase := toerase[1..];
    }
    g := f.(blocks := blocks);
  }

  /** The pass manager runs `removeSources` on every function. */
  method RunRemoveSources(M: Module)
    modifies M
    ensures M.functions == RemoveSources(old(M.functions))
  {
    hide RemoveFromFunction;
    hide Removable;
    ghost var fs := M.functions;
    var k := 0;
    while k < |M.functions|
      invariant k <= |M.functions| == |fs|
      invariant M.functions[..k] == RemoveSources(fs)[..k] && M.functions[k..] == fs[k..]
    {
      var g, changed := RemoveOnFunction(M.functions[k]);
      assert M.functions[k] == fs[k];
      M.functions := M.functions[k := g];
      assert M.functions[..k + 1] == M.functions[..k] + [RemoveSources(fs)[k]];
      k := k + 1;
    }
  }
}
