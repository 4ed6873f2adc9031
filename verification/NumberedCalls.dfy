/** What the numbered and labelled module says about the configuration it was made from. */
module NumberedCalls {
  import opened Text
  import opened Metadata
  import opened CallSiteMetadata
  import opened Configuration
  import opened Ir
  import opened WrapSinks
  import opened WrapOrder
  import opened AnnotateSources
  import opened AddMetadata

  // ---- Which call gets which number ----

  /** How many calls to configured functions precede a position. */
  function NumberBefore(table: Table, fs: seq<Function>, f: nat, p: Position): nat
    requires f < |fs| && IsPosition(fs[f].blocks, p)
  {
    CountAll(table, fs[..f]) + CountBlocks(table, fs[f].blocks[..p.0]) + Count(table, fs[f].blocks[p.0][..p.1])
  }

  lemma {:induction false} AnnotatedInBlock(table: Table, walk: Walk, b: Block, c: nat, j: nat)
    requires WalksTables(walk) && j < |b|
    ensures AnnotateBlock(table, walk, b, c)[j] ==
            if Eligible(table, b[j]) then Annotate(table, walk, b[j], c + Count(table, b[..j])) else b[j]
  {
    hide Annotate;
    hide Eligible;
    hide WalksTables;
    if j < |b| - 1 {
      AnnotatedInBlock(table, walk, b[..|b| - 1], c, j);
      assert b[..|b| - 1][..j] == b[..j];
    }
  }

  lemma {:induction false} AnnotatedInBlocks(table: Table, walk: Walk, blocks: seq<Block>, c: nat, k: nat)
    requires WalksTables(walk) && k < |blocks|
    ensures AnnotateBlocks(table, walk, blocks, c)[k] ==
            AnnotateBlock(table, walk, blocks[k], c + CountBlocks(table, blocks[..k]))
  {
    hide AnnotateBlock;
    hide Count;
    hide WalksTables;
    if k < |blocks| - 1 {
      AnnotatedInBlocks(table, walk, blocks[..|blocks| - 1], c, k);
      assert blocks[..|blocks| - 1][..k] == blocks[..k];
    }
  }

  lemma {:induction false} AnnotatedFunction(table: Table, walk: Walk, fs: seq<Function>, c: nat, f: nat)
    requires WalksTables(walk) && f < |fs|
    ensures AnnotateAll(table, walk, fs, c)[f] ==
            fs[f].(blocks := AnnotateBlocks(table, walk, fs[f].blocks, c + CountAll(table, fs[..f])))
  {
    hide AnnotateBlocks;
    hide CountBlocks;
    hide WalksTables;
    if f < |fs| - 1 {
      AnnotatedFunction(table, walk, fs[..|fs| - 1], c, f);
      assert fs[..|fs| - 1][..f] == fs[..f];
    }
  }

  /** Each call to a configured function carries its number in program order; everything else is as it was. */
  lemma AnnotatedAt(table: Table, walk: Walk, fs: seq<Function>, c: nat, f: nat, p: Position)
    requires WalksTables(walk) && f < |fs| && IsPosition(fs[f].blocks, p)
    ensures var g := AnnotateAll(table, walk, fs, c)[f];
            g.name == fs[f].name && g.sig == fs[f].sig && |g.blocks| == |fs[f].blocks| && IsPosition(g.blocks, p) &&
            InstrAt(g.blocks, p) ==
              var i := InstrAt(fs[f].blocks, p);
              if Eligible(table, i) then Annotate(table, walk, i, c + NumberBefore(table, fs, f, p)) else i
  {
    hide Annotate;
    hide Eligible;
    hide WalksTables;
    hide AnnotateAll;
    hide AnnotateBlocks;
    hide AnnotateBlock;
    AnnotatedFunction(table, walk, fs, c, f);
    AnnotatedInBlocks(table, walk, fs[f].blocks, c + CountAll(table, fs[..f]), p.0);
    AnnotatedInBlock(table, walk, fs[f].blocks[p.0],
                     c + CountAll(table, fs[..f]) + CountBlocks(table, fs[f].blocks[..p.0]), p.1);
  }

  // ---- The ids are consecutive ----

  function Ascending(c: nat, n: nat): (s: seq<int>)
    ensures |s| == n
  {
    seq(n, i => c + i)
  }

  predicate Unlabelled(i: Instr) {
    i.Call? ==> i.site.None?
  }

  predicate UnlabelledBlock(b: Block) {
    forall j :: 0 <= j < |b| ==> Unlabelled(b[j])
  }

  ghost predicate UnlabelledBlocks(blocks: seq<Block>) {
    forall k :: 0 <= k < |blocks| ==> UnlabelledBlock(blocks[k])
  }

  ghost predicate UnlabelledModule(fs: seq<Function>) {
    forall f :: 0 <= f < |fs| ==> UnlabelledBlocks(fs[f].blocks)
  }

  lemma AnnotatedId(table: Table, walk: Walk, i: Instr, c: nat)
    requires WalksTables(walk) && Eligible(table, i) && IsInt64(c)
    ensures GetSiteId(Annotate(table, walk, i, c).site) == Some(c as int)
    ensures IdsOf(Annotate(table, walk, i, c)) == [c as int]
  {
    IntegerRoundTrip(c);
  }

  lemma BlockStep(table: Table, walk: Walk, b: Block, c: nat)
    requires WalksTables(walk) && b != []
    ensures var init, last := b[..|b| - 1], b[|b| - 1];
            var code := if Eligible(table, last) then Annotate(table, walk, last, c + Count(table, init)) else last;
            IdsOfBlock(AnnotateBlock(table, walk, b, c)) == IdsOfBlock(AnnotateBlock(table, walk, init, c)) + IdsOf(code) &&
            Count(table, b) == Count(table, init) + if Eligible(table, last) then 1 else 0
  {
    hide Annotate;
    hide Eligible;
    hide WalksTables;
    hide IdsOf;
    var r := AnnotateBlock(table, walk, b, c);
    assert r[..|r| - 1] == AnnotateBlock(table, walk, b[..|b| - 1], c);
  }

  lemma UnlabelledInit(b: Block)
    requires UnlabelledBlock(b) && b != []
    ensures UnlabelledBlock(b[..|b| - 1]) && Unlabelled(b[|b| - 1])
  {
    hide Unlabelled;
  }

  lemma EmptyBlockIds(table: Table, walk: Walk, c: nat)
    requires WalksTables(walk)
    ensures IdsOfBlock(AnnotateBlock(table, walk, [], c)) == Ascending(c, 0) && Count(table, []) == 0
  {
    hide WalksTables;
  }

  lemma AscendingOne(c: nat)
    ensures Ascending(c, 1) == [c as int]
  {
  }

  lemma {:induction false} BlockIds(table: Table, walk: Walk, b: Block, c: nat)
    requires WalksTables(walk) && IsInt64(c + Count(table, b)) && UnlabelledBlock(b)
    ensures IdsOfBlock(AnnotateBlock(table, walk, b, c)) == Ascending(c, Count(table, b))
  {
    hide *;
    if b == [] {
      EmptyBlockIds(table, walk, c);
    } else {
      var init, last := b[..|b| - 1], b[|b| - 1];
      var n := Count(table, init);
      BlockStep(table, walk, b, c);
      UnlabelledInit(b);
      SmallerFits(c, n, if Eligible(table, last) then 1 else 0);
      BlockIds(table, walk, init, c);
      if Eligible(table, last) {
        AnnotatedId(table, walk, last, c + n);
        AscendingOne(c + n);
        AscendingConcat(c, n, 1);
      } else {
        NoId(last);
      }
    }
  }

  lemma NoId(i: Instr)
    requires Unlabelled(i)
    ensures IdsOf(i) == []
  {
  }

  lemma AscendingConcat(c: nat, m: nat, n: nat)
    ensures Ascending(c, m) + Ascending(c + m, n) == Ascending(c, m + n)
  {
  }

  lemma UnlabelledParts(blocks: seq<Block>)
    requires UnlabelledBlocks(blocks) && blocks != []
    ensures UnlabelledBlocks(blocks[..|blocks| - 1])
    ensures UnlabelledBlock(blocks[|blocks| - 1])
  {
  }

  lemma BlocksStep(table: Table, walk: Walk, blocks: seq<Block>, c: nat)
    requires WalksTables(walk) && blocks != []
    ensures var init, last := blocks[..|blocks| - 1], blocks[|blocks| - 1];
            IdsOfBlocks(AnnotateBlocks(table, walk, blocks, c)) ==
            IdsOfBlocks(AnnotateBlocks(table, walk, init, c)) +
            IdsOfBlock(AnnotateBlock(table, walk, last, c + CountBlocks(table, init))) &&
            CountBlocks(table, blocks) == CountBlocks(table, init) + Count(table, last)
  {
    hide AnnotateBlock;
    hide WalksTables;
    hide IdsOfBlock;
    hide Count;
    var r := AnnotateBlocks(table, walk, blocks, c);
    assert r[..|r| - 1] == AnnotateBlocks(table, walk, blocks[..|blocks| - 1], c);
  }

  lemma NoBlocks(table: Table, walk: Walk, c: nat)
    requires WalksTables(walk)
    ensures IdsOfBlocks(AnnotateBlocks(table, walk, [], c)) == Ascending(c, 0) && CountBlocks(table, []) == 0
  {
  }

  lemma {:induction false} BlocksIds(table: Table, walk: Walk, blocks: seq<Block>, c: nat)
    requires WalksTables(walk) && IsInt64(c + CountBlocks(table, blocks))
    requires UnlabelledBlocks(blocks)
    ensures IdsOfBlocks(AnnotateBlocks(table, walk, blocks, c)) == Ascending(c, CountBlocks(table, blocks))
  {
    hide *;
    if blocks == [] {
      NoBlocks(table, walk, c);
    } else {
      var init, last := blocks[..|blocks| - 1], blocks[|blocks| - 1];
      UnlabelledParts(blocks);
      BlocksStep(table, walk, blocks, c);
      SmallerFits(c, CountBlocks(table, init), Count(table, last));
      BlocksIds(table, walk, init, c);
      BlockIds(table, walk, last, c + CountBlocks(table, init));
      AscendingConcat(c, CountBlocks(table, init), Count(table, last));
    }
  }

  lemma SmallerFits(c: nat, m: nat, n: nat)
    requires IsInt64(c + (m + n))
    ensures IsInt64(c + m) && IsInt64(c + m + n)
  {
  }

  lemma ModuleStep(table: Table, walk: Walk, fs: seq<Function>, c: nat)
    requires WalksTables(walk) && fs != [] && UnlabelledModule(fs)
    ensures var init, last := fs[..|fs| - 1], fs[|fs| - 1];
            && UnlabelledModule(init) && UnlabelledBlocks(last.blocks)
            && Ids(AnnotateAll(table, walk, fs, c)) ==
               Ids(AnnotateAll(table, walk, init, c)) +
               IdsOfBlocks(AnnotateBlocks(table, walk, last.blocks, c + CountAll(table, init)))
            && CountAll(table, fs) == CountAll(table, init) + CountBlocks(table, last.blocks)
  {
    hide AnnotateBlocks;
    hide WalksTables;
    hide IdsOfBlocks;
    hide CountBlocks;
    hide UnlabelledBlocks;
    var r := AnnotateAll(table, walk, fs, c);
    assert r[..|r| - 1] == AnnotateAll(table, walk, fs[..|fs| - 1], c);
  }

  lemma EmptyModuleIds(table: Table, walk: Walk, c: nat)
    requires WalksTables(walk)
    ensures Ids(AnnotateAll(table, walk, [], c)) == Ascending(c, 0) && CountAll(table, []) == 0
  {
    hide WalksTables;
  }

  /** The ids of a module that had none are consecutive from the counter's value on, in program order. */
  lemma {:induction false} IdsAscend(table: Table, walk: Walk, fs: seq<Function>, c: nat)
    requires WalksTables(walk) && UnlabelledModule(fs) && IsInt64(c + CountAll(table, fs))
    ensures Ids(AnnotateAll(table, walk, fs, c)) == Ascending(c, CountAll(table, fs))
  {
    hide *;
    if fs == [] {
      EmptyModuleIds(table, walk, c);
    } else {
      var init, last := fs[..|fs| - 1], fs[|fs| - 1];
      ModuleStep(table, walk, fs, c);
      SmallerFits(c, CountAll(table, init), CountBlocks(table, last.blocks));
      IdsAscend(table, walk, init, c);
      BlocksIds(table, walk, last.blocks, c + CountAll(table, init));
      AscendingConcat(c, CountAll(table, init), CountBlocks(table, last.blocks));
    }
  }

  // ---- The labels are the configuration's ----

  /** What the configuration makes of a function's parameter: a source, a sink or neither. */
  function Kind(fs: seq<Function>, lines: seq<string>, name: string, k: nat): Option<bool> {
    ArgumentType(Texts(LabelsFor(fs, lines, name, k)))
  }

  /** Numbered are the direct calls to functions that some line names, also if it gives no parameter. */
  lemma NumberedExactly(fs: seq<Function>, lines: seq<string>, table: Table, i: Instr)
    requires Holds(table, fs, lines)
    ensures Eligible(table, i) <==>
            i.Call? && i.callee.Direct? &&
            exists j :: 0 <= j < |lines| && !ReadLine(fs, lines[j]).Skipped? && ReadLine(fs, lines[j]).name == i.callee.name
  {
    hide ReadLine;
    if IsDirectCall(i) {
      var name := i.callee.name;
      if Configured(fs, lines, name) {
        var j :| 0 <= j < |lines| && EntersFunction(ReadLine(fs, lines[j]), name);
        assert !ReadLine(fs, lines[j]).Skipped?;
      }
      if j :| 0 <= j < |lines| && !ReadLine(fs, lines[j]).Skipped? && ReadLine(fs, lines[j]).name == name {
        assert EntersFunction(ReadLine(fs, lines[j]), name);
      }
    }
  }

  /** The line adds a label of this kind to parameter `k` of the function. */
  predicate Gives(fs: seq<Function>, line: string, name: string, k: nat, isInput: bool) {
    var e := ReadLine(fs, line);
    e.Adds? && e.name == name && e.param.Indexed? && e.param.index == k &&
    LabelType(Label(e.param.description)) == Some(isInput)
  }

  predicate GivesSome(fs: seq<Function>, lines: seq<string>, name: string, k: nat, isInput: bool) {
    exists j :: 0 <= j < |lines| && Gives(fs, lines[j], name, k, isInput)
  }

  lemma {:induction false} TypesOfLines(fs: seq<Function>, lines: seq<string>, name: string, k: nat, isInput: bool)
    ensures HasType(Texts(LabelsFor(fs, lines, name, k)), isInput) <==> GivesSome(fs, lines, name, k, isInput)
  {
    hide ReadLine;
    hide LabelType;
    if lines != [] {
      var init, line := lines[..|lines| - 1], lines[|lines| - 1];
      TypesOfLines(fs, init, name, k, isInput);
      var before, after := LabelsFor(fs, init, name, k), LabelsFor(fs, lines, name, k);
      var labels := Texts(after);
      assert labels[..|labels|] == labels;
      if after != before {
        assert labels[..|before|] == Texts(before);
        HasTypeSnoc(labels, |before|, isInput);
      }
      if GivesSome(fs, init, name, k, isInput) {
        var j :| 0 <= j < |init| && Gives(fs, init[j], name, k, isInput);
        assert Gives(fs, lines[j], name, k, isInput);
      }
      if Gives(fs, line, name, k, isInput) {
        assert Gives(fs, lines[|lines| - 1], name, k, isInput);
      }
      if GivesSome(fs, lines, name, k, isInput) && !Gives(fs, line, name, k, isInput) {
        var j :| 0 <= j < |lines| && Gives(fs, lines[j], name, k, isInput);
        assert Gives(fs, init[j], name, k, isInput);
      }
    }
  }

  /** A parameter is a source, or a sink, exactly if some line says so and none says the opposite. */
  lemma KindExact(fs: seq<Function>, lines: seq<string>, name: string, k: nat, isInput: bool)
    ensures Kind(fs, lines, name, k) == Some(isInput) <==>
            GivesSome(fs, lines, name, k, isInput) && !GivesSome(fs, lines, name, k, !isInput)
  {
    hide LabelType;
    hide LabelsFor;
    hide GivesSome;
    TypesOfLines(fs, lines, name, k, isInput);
    TypesOfLines(fs, lines, name, k, !isInput);
  }

  predicate Fits(i: Instr, c: nat) {
    i.Call? && IsInt64(c) && |i.args| < TWO_TO_THE_64
  }

  /** The pair of an index and its labels stands in some argument tuple. */
  predicate ReadsBack(site: Option<seq<Node>>, k: nat, labels: seq<string>) {
    exists slot :: 0 <= slot < ArgumentCount(site) && GetArgument(site, slot) == Some(ArgumentLabels(k, Texts(labels)))
  }

  /**
    * Reading a numbered call's metadata gives its number and, for each parameter the call has, the descriptions of
    * the configuration lines that name its callee and that parameter, in file order; each parameter in one tuple only.
    */
  lemma LabelsReadBack(fs: seq<Function>, lines: seq<string>, table: Table, walk: Walk, i: Instr, c: nat)
    requires WalksTables(walk) && Holds(table, fs, lines) && Eligible(table, i) && Fits(i, c)
    ensures var site := Annotate(table, walk, i, c).site; var name := i.callee.name;
            && GetSiteId(site) == Some(c as int)
            && (forall slot :: 0 <= slot < ArgumentCount(site) ==>
                  GetArgument(site, slot).Some? &&
                  var k := GetArgument(site, slot).value.index;
                  k <= |i.args| && LabelsFor(fs, lines, name, k) != [] &&
                  GetArgument(site, slot).value.labels == Texts(LabelsFor(fs, lines, name, k)))
            && (forall k: nat :: k <= |i.args| && LabelsFor(fs, lines, name, k) != [] ==>
                  ReadsBack(site, k, LabelsFor(fs, lines, name, k)))
            && (forall slot1, slot2 :: 0 <= slot1 < slot2 < ArgumentCount(site) ==>
                  GetArgument(site, slot1).value.index != GetArgument(site, slot2).value.index)
  {
    hide SiteNode;
    hide GetArgument;
    hide GetSiteId;
    hide ArgumentCount;
    hide LabelMap;
    hide ByIndex;
    hide LabelsFor;
    hide ParamsOf;
    hide KeyIndex;
    hide Decimal;
    hide IsIndexKey;
    hide Holds;
    hide WalksTables;
    hide Texts;
    hide Annotate;
    hide ReadsBack;
    hide IsOrder;
    var name := i.callee.name;
    var params := ParamsOf(fs, lines, name);
    var m := LabelMap(params, |i.args|);
    var keys := walk(c, m);
    AnnotatedSite(fs, lines, table, walk, i, c);
    forall key | key in m
      ensures IsIndexKey(key)
    {
      KeysFit(params, |i.args|, key);
    }
    SiteRoundTrip(c, m, keys);
    OrderKeys(keys, m);
    forall slot | 0 <= slot < |m|
      ensures var k := KeyIndex(keys[slot]);
              k <= |i.args| && LabelsFor(fs, lines, name, k) != [] && m[keys[slot]] == LabelsFor(fs, lines, name, k)
    {
      LabelsAt(params, |i.args|, keys[slot]);
      GroupingIsFiltering(fs, lines, name, KeyIndex(keys[slot]));
    }
    forall k: nat | k <= |i.args| && LabelsFor(fs, lines, name, k) != []
      ensures ReadsBack(Some(SiteNode(c, m, keys)), k, LabelsFor(fs, lines, name, k))
    {
      GroupingIsFiltering(fs, lines, name, k);
      KeyOfDecimal(k);
      LabelsAt(params, |i.args|, Decimal(k));
      var slot :| 0 <= slot < |m| && keys[slot] == Decimal(k);
      FoundAt(Some(SiteNode(c, m, keys)), slot, k, LabelsFor(fs, lines, name, k));
    }
  }

  lemma FoundAt(site: Option<seq<Node>>, slot: nat, k: nat, labels: seq<string>)
    requires slot < ArgumentCount(site) && GetArgument(site, slot) == Some(ArgumentLabels(k, Texts(labels)))
    ensures ReadsBack(site, k, labels)
  {
  }

  lemma AnnotatedSite(fs: seq<Function>, lines: seq<string>, table: Table, walk: Walk, i: Instr, c: nat)
    requires WalksTables(walk) && Holds(table, fs, lines) && Eligible(table, i) && Fits(i, c)
    ensures var m := LabelMap(ParamsOf(fs, lines, i.callee.name), |i.args|);
            IsOrder(walk(c, m), m) && Annotate(table, walk, i, c).site == Some(SiteNode(c, m, walk(c, m))) && IsInt64(c)
  {
    hide SiteNode;
    hide LabelMap;
    hide IsOrder;
  }

  lemma KeysFit(params: seq<Param>, count: nat, key: string)
    requires key in LabelMap(params, count) && count < TWO_TO_THE_64
    ensures IsIndexKey(key)
  {
    hide LabelMap;
    LabelsAt(params, count, key);
  }

  // ---- Which configurations the later passes can work with ----

  lemma {:induction false} OutputsMember(call: Instr, n: nat, x: int)
    requires call.Call?
    ensures x in Outputs(RolesUpTo(call.site, n)) <==> exists slot :: 0 <= slot < n && IsOutputAt(call.site, slot, x)
  {
    hide RoleAt;
    hide IsOutputAt;
    hide Outputs;
    hide RolesUpTo;
    if n == 0 {
      OutputsStart(call);
    } else {
      OutputsMember(call, n - 1, x);
      OutputAt(call.site, n - 1, x);
      OutputsStep(call, n - 1);
    }
  }

  predicate IsOutputAt(site: Option<seq<Node>>, slot: nat, x: int) {
    RoleAt(site, slot).Some? && !RoleAt(site, slot).value.isInput && RoleAt(site, slot).value.index - 1 == x
  }

  lemma OutputAt(site: Option<seq<Node>>, slot: nat, x: int)
    ensures IsOutputAt(site, slot, x) <==>
            RoleAt(site, slot).Some? && !RoleAt(site, slot).value.isInput && RoleAt(site, slot).value.index - 1 == x
  {
  }

  lemma RoleOf(site: Option<seq<Node>>, slot: nat)
    ensures RoleAt(site, slot) ==
            match GetArgument(site, slot)
            case None => None
            case Some(a) =>
              match ArgumentType(a.labels) case None => None case Some(isInput) => Some(Role(slot, a.index, isInput))
  {
  }

  lemma NoLabelsNoKind(fs: seq<Function>, lines: seq<string>, name: string, k: nat)
    ensures LabelsFor(fs, lines, name, k) == [] ==> Kind(fs, lines, name, k) == None
  {
  }

  /** The roles of a numbered call are the kinds the configuration gives its parameters. */
  lemma RolesReadBack(fs: seq<Function>, lines: seq<string>, table: Table, walk: Walk, i: Instr, c: nat)
    requires WalksTables(walk) && Holds(table, fs, lines) && Eligible(table, i) && Fits(i, c)
    ensures var site := Annotate(table, walk, i, c).site; var name := i.callee.name;
            && (forall slot :: 0 <= slot < ArgumentCount(site) && RoleAt(site, slot).Some? ==>
                  var role := RoleAt(site, slot).value;
                  role.index <= |i.args| && Kind(fs, lines, name, role.index) == Some(role.isInput))
            && (forall k: nat :: k <= |i.args| && Kind(fs, lines, name, k).Some? ==>
                  exists slot :: 0 <= slot < ArgumentCount(site) &&
                                 RoleAt(site, slot) == Some(Role(slot, k, Kind(fs, lines, name, k).value)))
  {
    hide SiteNode;
    hide LabelMap;
    hide GetArgument;
    hide GetSiteId;
    hide ArgumentCount;
    hide ArgumentType;
    hide RoleAt;
    hide LabelsFor;
    hide Texts;
    hide Holds;
    hide WalksTables;
    LabelsReadBack(fs, lines, table, walk, i, c);
    var site, name := Annotate(table, walk, i, c).site, i.callee.name;
    forall slot | 0 <= slot < ArgumentCount(site) && RoleAt(site, slot).Some?
      ensures var role := RoleAt(site, slot).value;
              role.index <= |i.args| && Kind(fs, lines, name, role.index) == Some(role.isInput)
    {
      RoleOf(site, slot);
    }
    forall k: nat | k <= |i.args| && Kind(fs, lines, name, k).Some?
      ensures exists slot :: 0 <= slot < ArgumentCount(site) &&
                             RoleAt(site, slot) == Some(Role(slot, k, Kind(fs, lines, name, k).value))
    {
      NoLabelsNoKind(fs, lines, name, k);
      var slot :| 0 <= slot < ArgumentCount(site) &&
        GetArgument(site, slot) == Some(ArgumentLabels(k, Texts(LabelsFor(fs, lines, name, k))));
      RoleOf(site, slot);
    }
  }

  /** What wrapping needs of a sink label: it names one of the callee's own parameters. */
  predicate SinkLabelsFit(fs: seq<Function>, lines: seq<string>, i: Instr)
    requires IsDirectCall(i)
  {
    forall k :: 0 <= k <= |i.args| && Kind(fs, lines, i.callee.name, k) == Some(false) ==>
      1 <= k <= |i.callee.sig.parameters|
  }

  /** The outputs the pass collects for a numbered call are the parameters the configuration makes sinks. */
  lemma OutputsReadBack(fs: seq<Function>, lines: seq<string>, table: Table, walk: Walk, i: Instr, c: nat, x: int)
    requires WalksTables(walk) && Holds(table, fs, lines) && Eligible(table, i) && Fits(i, c)
    ensures x in OutputsOf(Annotate(table, walk, i, c)) <==>
            0 <= x + 1 <= |i.args| && Kind(fs, lines, i.callee.name, x + 1) == Some(false)
  {
    hide SiteNode;
    hide LabelMap;
    hide Kind;
    hide Holds;
    hide WalksTables;
    hide RoleAt;
    hide GetArgument;
    hide Outputs;
    hide RolesUpTo;
    hide ArgumentCount;
    RolesReadBack(fs, lines, table, walk, i, c);
    var r := Annotate(table, walk, i, c);
    var n := ArgumentCount(r.site);
    OutputsMember(r, n, x);
    if x in OutputsOf(r) {
      var slot :| 0 <= slot < n && IsOutputAt(r.site, slot, x);
      assert RoleAt(r.site, slot).value.index == x + 1;
    }
    if 0 <= x + 1 <= |i.args| && Kind(fs, lines, i.callee.name, x + 1) == Some(false) {
      var slot :| 0 <= slot < n && RoleAt(r.site, slot) == Some(Role(slot, x + 1, false));
      assert IsOutputAt(r.site, slot, x);
    }
  }

  /** A numbered call is a sink exactly if the configuration makes one of the parameters it has a sink. */
  lemma SinkReadBack(fs: seq<Function>, lines: seq<string>, table: Table, walk: Walk, i: Instr, c: nat)
    requires WalksTables(walk) && Holds(table, fs, lines) && Eligible(table, i) && Fits(i, c)
    ensures IsSink(Annotate(table, walk, i, c)) <==>
            exists k :: 0 <= k <= |i.args| && Kind(fs, lines, i.callee.name, k) == Some(false)
  {
    hide SiteNode;
    hide LabelMap;
    hide Kind;
    hide Holds;
    hide WalksTables;
    hide OutputsOf;
    var r := Annotate(table, walk, i, c);
    if IsSink(r) {
      var x := OutputsOf(r)[0];
      OutputsReadBack(fs, lines, table, walk, i, c, x);
      assert Kind(fs, lines, i.callee.name, x + 1) == Some(false);
    }
    if k :| 0 <= k <= |i.args| && Kind(fs, lines, i.callee.name, k) == Some(false) {
      OutputsReadBack(fs, lines, table, walk, i, c, k - 1);
    }
  }

  /**
    * Wrapping asks for a parameter that does not exist exactly if the configuration makes a sink of the result or of an
    * argument behind the callee's own parameters.
    */
  lemma SinksInRange(fs: seq<Function>, lines: seq<string>, table: Table, walk: Walk, i: Instr, c: nat)
    requires WalksTables(walk) && Holds(table, fs, lines) && Eligible(table, i) && Fits(i, c)
    ensures OutputsInRange(Annotate(table, walk, i, c)) <==> SinkLabelsFit(fs, lines, i)
  {
    hide SiteNode;
    hide LabelMap;
    hide Kind;
    hide Holds;
    hide WalksTables;
    hide OutputsOf;
    var r := Annotate(table, walk, i, c);
    var outputs := OutputsOf(r);
    if SinkLabelsFit(fs, lines, i) {
      forall k | 0 <= k < |outputs|
        ensures 0 <= outputs[k] < |i.callee.sig.parameters|
      {
        OutputsReadBack(fs, lines, table, walk, i, c, outputs[k]);
      }
    } else {
      var k :| 0 <= k <= |i.args| && Kind(fs, lines, i.callee.name, k) == Some(false) &&
        !(1 <= k <= |i.callee.sig.parameters|);
      OutputsReadBack(fs, lines, table, walk, i, c, k - 1);
      var j :| 0 <= j < |outputs| && outputs[j] == k - 1;
    }
  }

  /** Tagging asks for a result that does not exist exactly if the configuration makes a missing result a source. */
  lemma SourcesFound(fs: seq<Function>, lines: seq<string>, table: Table, walk: Walk, i: Instr, c: nat)
    requires WalksTables(walk) && Holds(table, fs, lines) && Eligible(table, i) && Fits(i, c)
    ensures SourcesInRange(Annotate(table, walk, i, c)) <==>
            (Kind(fs, lines, i.callee.name, 0) == Some(true) ==> i.dst.Some?)
  {
    hide SiteNode;
    hide LabelMap;
    hide Kind;
    hide Holds;
    hide WalksTables;
    hide RoleAt;
    hide GetArgument;
    hide ArgumentCount;
    RolesReadBack(fs, lines, table, walk, i, c);
    var r := Annotate(table, walk, i, c);
    if Kind(fs, lines, i.callee.name, 0) == Some(true) && i.dst.None? {
      var slot :| 0 <= slot < ArgumentCount(r.site) && RoleAt(r.site, slot) == Some(Role(slot, 0, true));
      assert !RoleInRange(r, RoleAt(r.site, slot).value);
    }
  }

  /** A sink gets the arguments its callee declares, and its labels name these; a labelled result can be tagged. */
  predicate WellConfigured(fs: seq<Function>, lines: seq<string>, i: Instr) {
    IsDirectCall(i) && |i.args| < TWO_TO_THE_64 && SinkLabelsFit(fs, lines, i) &&
    (Kind(fs, lines, i.callee.name, 0) == Some(true) ==> i.dst.Some?) &&
    ((exists k :: 0 <= k <= |i.args| && Kind(fs, lines, i.callee.name, k) == Some(false)) ==>
       |i.args| == |i.callee.sig.parameters|)
  }

  ghost predicate WellConfiguredModule(fs: seq<Function>, lines: seq<string>, table: Table) {
    forall f, k, j :: 0 <= f < |fs| && 0 <= k < |fs[f].blocks| && 0 <= j < |fs[f].blocks[k]| &&
                      Eligible(table, fs[f].blocks[k][j]) ==>
      WellConfigured(fs, lines, fs[f].blocks[k][j])
  }

  lemma UnlabelledInRange(i: Instr)
    requires Unlabelled(i)
    ensures OutputsInRange(i) && SourcesInRange(i) && !IsSink(i)
  {
    if i.Call? {
      OutputsStart(i);
    }
  }

  lemma NumberInRange(table: Table, fs: seq<Function>, f: nat, p: Position, c: nat)
    requires f < |fs| && IsPosition(fs[f].blocks, p) && Eligible(table, InstrAt(fs[f].blocks, p))
    ensures NumberBefore(table, fs, f, p) < CountAll(table, fs)
  {
    hide Eligible;
    CountAllBelow(table, fs, f);
    CountBlocksBelow(table, fs[f].blocks, p.0);
    CountBelow(table, fs[f].blocks[p.0], p.1);
  }

  lemma {:induction false} CountAllBelow(table: Table, fs: seq<Function>, f: nat)
    requires f < |fs|
    ensures CountAll(table, fs[..f]) + CountBlocks(table, fs[f].blocks) <= CountAll(table, fs)
  {
    hide CountBlocks;
    var init := fs[..|fs| - 1];
    if f < |init| {
      CountAllBelow(table, init, f);
      assert init[..f] == fs[..f];
    }
  }

  lemma {:induction false} CountBlocksBelow(table: Table, blocks: seq<Block>, k: nat)
    requires k < |blocks|
    ensures CountBlocks(table, blocks[..k]) + Count(table, blocks[k]) <= CountBlocks(table, blocks)
  {
    hide Count;
    var init := blocks[..|blocks| - 1];
    if k < |init| {
      CountBlocksBelow(table, init, k);
      assert init[..k] == blocks[..k];
    }
  }

  lemma {:induction false} CountBelow(table: Table, b: Block, j: nat)
    requires j < |b|
    ensures Count(table, b[..j]) + (if Eligible(table, b[j]) then 1 else 0) <= Count(table, b)
  {
    hide Eligible;
    var init := b[..|b| - 1];
    if j < |init| {
      CountBelow(table, init, j);
      assert init[..j] == b[..j];
    }
  }

  /** A well-configured module is fit for tagging and for wrapping. */
  lemma AnnotatedInRange(fs: seq<Function>, lines: seq<string>, table: Table, walk: Walk, c: nat, f: nat, p: Position)
    requires WalksTables(walk) && Holds(table, fs, lines) && UnlabelledModule(fs)
    requires IsInt64(c + CountAll(table, fs)) && WellConfiguredModule(fs, lines, table)
    requires f < |fs| && IsPosition(fs[f].blocks, p)
    ensures var g := AnnotateAll(table, walk, fs, c)[f];
            IsPosition(g.blocks, p) && OutputsInRange(InstrAt(g.blocks, p)) && SourcesInRange(InstrAt(g.blocks, p))
  {
    hide Annotate;
    hide AnnotateAll;
    hide WalksTables;
    hide Holds;
    hide OutputsInRange;
    hide SourcesInRange;
    hide SinkLabelsFit;
    hide Kind;
    hide NumberBefore;
    hide CountAll;
    var i := InstrAt(fs[f].blocks, p);
    AnnotatedAt(table, walk, fs, c, f, p);
    if Eligible(table, i) {
      NumberInRange(table, fs, f, p, c);
      var n := c + NumberBefore(table, fs, f, p);
      assert WellConfigured(fs, lines, i);
      SinksInRange(fs, lines, table, walk, i, n);
      SourcesFound(fs, lines, table, walk, i, n);
    } else {
      UnlabelledInRange(i);
    }
  }
}
