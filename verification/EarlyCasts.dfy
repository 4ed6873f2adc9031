/**
  * The one way in which tagging and removal can spoil a module: a cast of a call's result that is left in front of the
  * call.  LLVM refuses such a module.
  */
module EarlyCasts {
  import opened Text
  import opened Metadata
  import opened Ir
  import opened Erasure
  import opened WrapSinks
  import opened WrapMeaning
  import opened AnnotateSources
  import opened AddLogging
  import opened Instrumentation
  import opened Pipeline
  import T = TagResults

  // ---- Reading before writing ----

  predicate CastReads(i: Instr, r: Register) {
    i.Cast? && i.def.Temp? && i.source.Result? && i.source.reg == r
  }

  predicate CallWrites(i: Instr, r: Register) {
    i.Call? && i.dst == Some(r)
  }

  /** An inserted cast reads a register that a later call of the block writes. */
  ghost predicate Early(b: Block) {
    exists j, l, r :: 0 <= j < l < |b| && CastReads(b[j], r) && CallWrites(b[l], r)
  }

  ghost predicate HasEarly(fs: seq<Function>) {
    exists n, k :: 0 <= n < |fs| && 0 <= k < |fs[n].blocks| && Early(fs[n].blocks[k])
  }

  // ---- A block's reads and writes ----

  datatype Item = Reads(reg: Register) | Writes(reg: Register)

  function ItemOf(i: Instr): seq<Item> {
    if i.Cast? && i.def.Temp? && i.source.Result? then [Reads(i.source.reg)]
    else if i.Call? && i.dst.Some? then [Writes(i.dst.value)]
    else []
  }

  function Items(b: Block): seq<Item> {
    if b == [] then [] else Items(b[..|b| - 1]) + ItemOf(b[|b| - 1])
  }

  ghost predicate EarlyItems(s: seq<Item>) {
    exists j, l, r :: 0 <= j < l < |s| && s[j] == Reads(r) && s[l] == Writes(r)
  }

  lemma {:induction false} ItemsConcat(a: Block, b: Block)
    ensures Items(a + b) == Items(a) + Items(b)
  {
    hide ItemOf;
    if b == [] {
      assert a + b == a;
    } else {
      assert (a + b)[..|a + b| - 1] == a + b[..|b| - 1];
      ItemsConcat(a, b[..|b| - 1]);
    }
  }

  lemma ItemsOne(i: Instr)
    ensures Items([i]) == ItemOf(i)
  {
    hide ItemOf;
    assert [i][..0] == [];
  }

  lemma {:induction false} ReadsIn(b: Block, r: Register)
    ensures Reads(r) in Items(b) <==> exists j :: 0 <= j < |b| && CastReads(b[j], r)
  {
    hide CastReads;
    hide ItemOf;
    if b != [] {
      var init, i := b[..|b| - 1], b[|b| - 1];
      ReadsIn(init, r);
      ReadsOne(i, r);
      if j :| 0 <= j < |b| && CastReads(b[j], r) {
        assert j < |init| ==> CastReads(init[j], r);
      }
      if j :| 0 <= j < |init| && CastReads(init[j], r) {
        assert CastReads(b[j], r);
      }
    }
  }

  lemma ReadsOne(i: Instr, r: Register)
    ensures Reads(r) in ItemOf(i) <==> CastReads(i, r)
    ensures Writes(r) in ItemOf(i) <==> CallWrites(i, r)
    ensures |ItemOf(i)| <= 1
  {
  }

  lemma EarlySnoc(b: Block, i: Instr)
    ensures Early(b + [i]) <==>
            Early(b) || exists j, r :: 0 <= j < |b| && CastReads(b[j], r) && CallWrites(i, r)
  {
    hide CastReads;
    hide CallWrites;
    var longer := b + [i];
    if j, l, r :| 0 <= j < l < |longer| && CastReads(longer[j], r) && CallWrites(longer[l], r) {
      assert CastReads(b[j], r);
      assert l < |b| ==> CallWrites(b[l], r);
    }
    if j, l, r :| 0 <= j < l < |b| && CastReads(b[j], r) && CallWrites(b[l], r) {
      assert CastReads(longer[j], r) && CallWrites(longer[l], r);
    }
    if j, r :| 0 <= j < |b| && CastReads(b[j], r) && CallWrites(i, r) {
      assert CastReads(longer[j], r) && CallWrites(longer[|b|], r);
    }
  }

  lemma EarlyItemsSnoc(s: seq<Item>, x: Item)
    ensures EarlyItems(s + [x]) <==> EarlyItems(s) || (x.Writes? && Reads(x.reg) in s)
  {
    var longer := s + [x];
    if j, l, r :| 0 <= j < l < |longer| && longer[j] == Reads(r) && longer[l] == Writes(r) {
      assert s[j] == Reads(r);
      assert l < |s| ==> s[l] == Writes(r);
    }
    if j, l, r :| 0 <= j < l < |s| && s[j] == Reads(r) && s[l] == Writes(r) {
      assert longer[j] == Reads(r) && longer[l] == Writes(r);
    }
    if x.Writes? && Reads(x.reg) in s {
      var j :| 0 <= j < |s| && s[j] == Reads(x.reg);
      assert longer[j] == Reads(x.reg) && longer[|s|] == x;
    }
  }

  /** The reads and writes are all that matters. */
  lemma {:induction false} EarlyIs(b: Block)
    ensures Early(b) <==> EarlyItems(Items(b))
  {
    hide Early;
    hide EarlyItems;
    hide CastReads;
    hide CallWrites;
    if b == [] {
      NothingEarly();
    } else {
      var init, i := b[..|b| - 1], b[|b| - 1];
      assert b == init + [i];
      EarlyIs(init);
      EarlySnoc(init, i);
      forall r
        ensures Reads(r) in Items(init) <==> exists j :: 0 <= j < |init| && CastReads(init[j], r)
        ensures Writes(r) in ItemOf(i) <==> CallWrites(i, r)
      {
        ReadsIn(init, r);
        ReadsOne(i, r);
      }
      ReadsOne(i, Temp(0, 0));
      if ItemOf(i) == [] {
        assert Items(b) == Items(init);
      } else {
        EarlyItemsSnoc(Items(init), ItemOf(i)[0]);
        assert ItemOf(i) == [ItemOf(i)[0]];
      }
    }
  }

  lemma NothingEarly()
    ensures !Early([]) && !EarlyItems([])
  {
  }

  // ---- What tagging adds ----

  /** The block's reads and writes once its calls are tagged. */
  ghost function TaggedItems(b: Block): seq<Item>
    requires BlockInRange(b)
  {
    if b == [] then []
    else TaggedItems(b[..|b| - 1]) + Items(SourceCode(b[|b| - 1])) + ItemOf(b[|b| - 1])
  }

  lemma {:induction false} TaggedItemsAre(b: Block)
    requires BlockInRange(b)
    ensures Items(AddSourcesBlock(b)) == TaggedItems(b)
  {
    hide ItemOf;
    hide SourceCode;
    hide SourcesInRange;
    if b != [] {
      var init, i := b[..|b| - 1], b[|b| - 1];
      TaggedItemsAre(init);
      ItemsConcat(AddSourcesBlock(init) + SourceCode(i), [i]);
      ItemsConcat(AddSourcesBlock(init), SourceCode(i));
      ItemsOne(i);
    }
  }

  /** A source label of the call stands for a register that has to be cast. */
  predicate CastsAt(i: Instr, slot: nat, r: Register)
    requires i.Call? && SourcesInRange(i) && slot < ArgumentCount(i.site)
  {
    var role := RoleAt(i.site, slot);
    role.Some? && role.value.isInput &&
    var v := TaggedValue(i, role.value); v.Result? && v.reg == r && v.ty != BytePointer
  }

  lemma TagCodeItems(i: Instr, role: Role)
    requires i.Call? && RoleInRange(i, role) && GetSiteId(i.site).Some?
    ensures var v := TaggedValue(i, role);
            Items(TagCode(i, role)) == if v.Result? && v.ty != BytePointer then [Reads(v.reg)] else []
  {
    hide GetSiteId;
    hide Items;
    var id, v := GetSiteId(i.site).value, TaggedValue(i, role);
    var reg := Temp(id, role.slot);
    var calls := [SetModifiedCall(CastOperand(v, reg)), AddTagCall(CastOperand(v, reg), id)];
    if v == NullPointer {
      NoItems([]);
    } else {
      NoItems(calls);
      ItemsConcat(CastCode(v, reg), calls);
      if NeedsCast(v) {
        ItemsOne(Cast(reg, v));
      } else {
        NoItems([]);
      }
    }
  }

  lemma {:induction false} NoItems(b: Block)
    requires forall j :: 0 <= j < |b| ==> ItemOf(b[j]) == []
    ensures Items(b) == []
  {
    hide ItemOf;
    if b != [] {
      NoItems(b[..|b| - 1]);
    }
  }

  lemma StepItems(i: Instr, slot: nat, x: Item)
    requires i.Call? && SourcesInRange(i) && slot < ArgumentCount(i.site)
    ensures x in Items(SourceCodeUpTo(i, slot + 1)) <==>
            x in Items(SourceCodeUpTo(i, slot)) || (x.Reads? && CastsAt(i, slot, x.reg))
  {
    hide RoleAt;
    hide TagCode;
    hide SourcesInRange;
    hide SourceCodeUpTo;
    hide TaggedValue;
    hide RoleInRange;
    hide GetSiteId;
    hide Items;
    SourceCodeStep(i, slot);
    var role := RoleAt(i.site, slot);
    if role.Some? && role.value.isInput {
      ItemsConcat(SourceCodeUpTo(i, slot), TagCode(i, role.value));
      TagCodeItems(i, role.value);
    }
  }

  lemma {:induction false} SourceCodeItems(i: Instr, n: nat, x: Item)
    requires i.Call? && SourcesInRange(i) && n <= ArgumentCount(i.site)
    ensures x in Items(SourceCodeUpTo(i, n)) <==> x.Reads? && exists slot :: 0 <= slot < n && CastsAt(i, slot, x.reg)
  {
    hide SourcesInRange;
    hide SourceCodeUpTo;
    hide CastsAt;
    hide Items;
    if n == 0 {
      NoSourceItems(i);
    } else {
      SourceCodeItems(i, n - 1, x);
      StepItems(i, n - 1, x);
    }
  }

  lemma NoSourceItems(i: Instr)
    requires i.Call? && SourcesInRange(i)
    ensures Items(SourceCodeUpTo(i, 0)) == []
  {
  }

  /** The code in front of a call reads, and only reads, the registers its source labels ask to cast. */
  lemma CodeItems(i: Instr, x: Item)
    requires SourcesInRange(i)
    ensures x in Items(SourceCode(i)) <==>
            i.Call? && x.Reads? && exists slot :: 0 <= slot < ArgumentCount(i.site) && CastsAt(i, slot, x.reg)
  {
    hide CastsAt;
    hide SourcesInRange;
    hide SourceCodeUpTo;
    if i.Call? {
      SourceCodeItems(i, ArgumentCount(i.site), x);
    }
  }

  // ---- The block's own order ----

  /** Arguments of a call have been written before it, and casts into inserted registers are none of the program's. */
  predicate InOrder(b: Block) {
    && (forall j :: 0 <= j < |b| ==> !(b[j].Cast? && b[j].def.Temp?))
    && forall j, l :: 0 <= j <= l < |b| && b[j].Call? && b[l].Call? && b[l].dst.Some? ==> !Passes(b[j], b[l].dst.value)
  }

  predicate Passes(i: Instr, r: Register)
    requires i.Call?
  {
    exists k :: 0 <= k < |i.args| && i.args[k].Result? && i.args[k].reg == r
  }

  /** A source label on the call's result, which has to be cast. */
  predicate ResultCast(i: Instr) {
    i.Call? && i.dst.Some? && i.callee.sig.result != BytePointer &&
    exists slot :: 0 <= slot < ArgumentCount(i.site) && ResultAt(i, slot)
  }

  predicate ResultAt(i: Instr, slot: nat)
    requires i.Call?
  {
    RoleAt(i.site, slot).Some? && RoleAt(i.site, slot).value.isInput && RoleAt(i.site, slot).value.index == 0
  }

  /** What is cast in front of a call is its result or one of its arguments. */
  lemma CastOf(i: Instr, slot: nat, r: Register)
    requires i.Call? && SourcesInRange(i) && slot < ArgumentCount(i.site) && CastsAt(i, slot, r)
    ensures (ResultCast(i) && i.dst == Some(r)) || Passes(i, r)
  {
    hide RoleAt;
    assert ResultAt(i, slot) ==> ResultCast(i);
  }

  lemma OwnCast(i: Instr)
    requires SourcesInRange(i) && ResultCast(i)
    ensures Reads(i.dst.value) in Items(SourceCode(i))
  {
    hide RoleAt;
    hide SourceCode;
    hide Items;
    var slot :| 0 <= slot < ArgumentCount(i.site) && ResultAt(i, slot);
    assert CastsAt(i, slot, i.dst.value);
    CodeItems(i, Reads(i.dst.value));
  }

  lemma {:induction false} TaggedReads(b: Block, r: Register)
    requires BlockInRange(b) && Reads(r) in TaggedItems(b) && forall j :: 0 <= j < |b| ==> !(b[j].Cast? && b[j].def.Temp?)
    ensures exists j :: 0 <= j < |b| && b[j].Call? && ((ResultCast(b[j]) && b[j].dst == Some(r)) || Passes(b[j], r))
  {
    hide SourcesInRange;
    hide SourceCode;
    hide Items;
    hide ResultCast;
    hide Passes;
    hide CastsAt;
    if b != [] {
      var init, i := b[..|b| - 1], b[|b| - 1];
      if Reads(r) in TaggedItems(init) {
        TaggedReads(init, r);
        var j :| 0 <= j < |init| && init[j].Call? && ((ResultCast(init[j]) && init[j].dst == Some(r)) || Passes(init[j], r));
        assert b[j] == init[j];
      } else {
        CodeItems(i, Reads(r));
        var slot :| 0 <= slot < ArgumentCount(i.site) && CastsAt(i, slot, r);
        CastOf(i, slot, r);
      }
    }
  }

  /** Tagging and removal leave an early cast in a block exactly if some call's labelled result has to be cast. */
  lemma {:induction false} TaggedEarly(b: Block)
    requires BlockInRange(b) && InOrder(b)
    ensures EarlyItems(TaggedItems(b)) <==> exists j :: 0 <= j < |b| && ResultCast(b[j])
  {
    hide SourcesInRange;
    hide SourceCode;
    hide Items;
    hide ItemOf;
    hide EarlyItems;
    hide ResultCast;
    hide Passes;
    if b == [] {
      NothingEarly();
    } else {
      var init, i := b[..|b| - 1], b[|b| - 1];
      TaggedEarly(init);
      EarlyStep(b);
      if j :| 0 <= j < |b| && ResultCast(b[j]) {
        assert j < |init| ==> ResultCast(init[j]);
      }
      if j :| 0 <= j < |init| && ResultCast(init[j]) {
        assert ResultCast(b[j]);
      }
    }
  }

  lemma EarlyReadsOnly(s: seq<Item>, code: seq<Item>)
    requires forall x :: x in code ==> x.Reads?
    ensures EarlyItems(s + code) <==> EarlyItems(s)
  {
    var longer := s + code;
    forall l | |s| <= l < |longer|
      ensures longer[l].Reads?
    {
      assert longer[l] == code[l - |s|] && code[l - |s|] in code;
    }
    if j, l, r :| 0 <= j < l < |longer| && longer[j] == Reads(r) && longer[l] == Writes(r) {
      assert s[j] == Reads(r) && s[l] == Writes(r);
    }
    if j, l, r :| 0 <= j < l < |s| && s[j] == Reads(r) && s[l] == Writes(r) {
      assert longer[j] == Reads(r) && longer[l] == Writes(r);
    }
  }

  lemma EarlyStep(b: Block)
    requires BlockInRange(b) && InOrder(b) && b != []
    ensures var init, i := b[..|b| - 1], b[|b| - 1];
            (EarlyItems(TaggedItems(b)) ==> EarlyItems(TaggedItems(init)) || ResultCast(i) ||
                                            exists j :: 0 <= j < |init| && ResultCast(init[j])) &&
            (EarlyItems(TaggedItems(init)) || ResultCast(i) ==> EarlyItems(TaggedItems(b)))
  {
    hide SourcesInRange;
    hide SourceCode;
    hide Items;
    hide EarlyItems;
    hide ResultCast;
    hide Passes;
    hide CastsAt;
    var init, i := b[..|b| - 1], b[|b| - 1];
    var before := TaggedItems(init);
    var code := Items(SourceCode(i));
    forall x | x in code
      ensures x.Reads?
    {
      CodeItems(i, x);
    }
    EarlyReadsOnly(before, code);
    assert TaggedItems(b) == before + code + ItemOf(i);
    if ItemOf(i) == [] {
      assert TaggedItems(b) == before + code;
    } else {
      NotInserted(b);
      var r := i.dst.value;
      EarlyItemsSnoc(before + code, Writes(r));
      if Reads(r) in before {
        TaggedReads(init, r);
        var j :| 0 <= j < |init| && init[j].Call? && ((ResultCast(init[j]) && init[j].dst == Some(r)) || Passes(init[j], r));
        assert b[j] == init[j] && i == b[|b| - 1] && !Passes(b[j], r);
      }
      if Reads(r) in code {
        CodeItems(i, Reads(r));
        var slot :| 0 <= slot < ArgumentCount(i.site) && CastsAt(i, slot, r);
        CastOf(i, slot, r);
        assert i == b[|b| - 1] && !Passes(i, r);
      }
    }
    if ResultCast(i) {
      ResultCastIs(i);
      OwnCast(i);
    }
  }

  lemma NotInserted(b: Block)
    requires InOrder(b) && b != [] && ItemOf(b[|b| - 1]) != []
    ensures var i := b[|b| - 1]; i.Call? && i.dst.Some? && ItemOf(i) == [Writes(i.dst.value)]
  {
  }

  lemma ResultCastIs(i: Instr)
    requires ResultCast(i)
    ensures i.Call? && i.dst.Some? && ItemOf(i) == [Writes(i.dst.value)]
  {
  }
}
