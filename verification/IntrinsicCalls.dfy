/** What the inserted code tells the analysis: which values its intrinsic calls mark as modified and which they tag. */
module IntrinsicCalls {
  import opened Text
  import opened Metadata
  import opened CallSiteMetadata
  import opened Configuration
  import opened Ir
  import opened Erasure
  import opened WrapSinks
  import opened AnnotateSources
  import opened AddMetadata
  import opened NumberedCalls
  import opened Instrumentation
  import opened Pipeline
  import opened FromSource
  import opened LabelledParameters

  // ---- Reading inserted code ----

  datatype Action = Marked(value: Operand) | Tagged(value: Operand, tag: int)

  /** The value an operand stands for, if it is a register that the code in front of it casts a value into. */
  function ValueOf(code: Block, o: Operand): Operand {
    if code == [] then o
    else
      var i := code[|code| - 1];
      if i.Cast? && o.Result? && o.reg == i.def then i.source else ValueOf(code[..|code| - 1], o)
  }

  /** The intrinsic calls of a piece of code, with the values they are about. */
  function Actions(code: Block): seq<Action> {
    if code == [] then []
    else
      var front, i := code[..|code| - 1], code[|code| - 1];
      Actions(front) +
      if !IsDirectCall(i) then []
      else if i.callee.name == SET_MODIFIED && |i.args| == 1 then [Marked(ValueOf(front, i.args[0]))]
      else if i.callee.name == ADD_TAG && |i.args| == 2 && i.args[1].Number? then
        [Tagged(ValueOf(front, i.args[0]), i.args[1].n)]
      else []
  }

  /** A value of another type than `i8*` has to be cast; constants do not. */
  predicate IsBytePointer(o: Operand) {
    o.Argument? || o.Result? ==> o.ty == BytePointer
  }

  /** The code consists of casts that are needed and of intrinsic calls, whose first arguments are byte pointers. */
  predicate CallsIntrinsics(code: Block) {
    forall j :: 0 <= j < |code| ==>
      if code[j].Cast? then code[j].def.Temp? && !IsBytePointer(code[j].source)
      else IsIntrinsicCall(code[j]) && code[j].args != [] && IsBytePointer(code[j].args[0])
  }

  lemma ActionsSnoc(code: Block, i: Instr)
    ensures Actions(code + [i]) ==
            Actions(code) +
            if !IsDirectCall(i) then []
            else if i.callee.name == SET_MODIFIED && |i.args| == 1 then [Marked(ValueOf(code, i.args[0]))]
            else if i.callee.name == ADD_TAG && |i.args| == 2 && i.args[1].Number? then
              [Tagged(ValueOf(code, i.args[0]), i.args[1].n)]
            else []
  {
    hide ValueOf;
    assert (code + [i])[..|code|] == code;
  }

  lemma ValueOfSnoc(code: Block, i: Instr, o: Operand)
    ensures ValueOf(code + [i], o) == if i.Cast? && o.Result? && o.reg == i.def then i.source else ValueOf(code, o)
  {
    assert (code + [i])[..|code|] == code;
  }

  /** A value of the program is no register of the inserted code. */
  lemma {:induction false} OwnValue(code: Block, o: Operand)
    requires CallsIntrinsics(code) && IsProgramOperand(o)
    ensures ValueOf(code, o) == o
  {
    if code != [] {
      var front := code[..|code| - 1];
      assert forall j :: 0 <= j < |front| ==> front[j] == code[j];
      OwnValue(front, o);
    }
  }

  /** The cast, if one is needed, and one intrinsic call about a value. */
  lemma CastThen(code: Block, v: Operand, reg: Register)
    requires CallsIntrinsics(code) && IsProgramOperand(v) && reg.Temp?
    ensures var casted := code + CastCode(v, reg);
            CallsIntrinsics(casted) && Actions(casted) == Actions(code) &&
            ValueOf(casted, CastOperand(v, reg)) == v && IsBytePointer(CastOperand(v, reg))
  {
    hide Actions;
    hide ValueOf;
    OwnValue(code, v);
    if NeedsCast(v) {
      ActionsSnoc(code, Cast(reg, v));
      ValueOfSnoc(code, Cast(reg, v), CastOperand(v, reg));
    } else {
      assert code + [] == code;
    }
  }

  lemma Marking(code: Block, o: Operand)
    requires CallsIntrinsics(code) && IsBytePointer(o)
    ensures var longer := code + [SetModifiedCall(o)];
            CallsIntrinsics(longer) && Actions(longer) == Actions(code) + [Marked(ValueOf(code, o))] &&
            ValueOf(longer, o) == ValueOf(code, o)
  {
    hide Actions;
    hide ValueOf;
    ActionsSnoc(code, SetModifiedCall(o));
    ValueOfSnoc(code, SetModifiedCall(o), o);
  }

  lemma TaggingCall(code: Block, o: Operand, id: int)
    requires CallsIntrinsics(code) && IsBytePointer(o)
    ensures var longer := code + [AddTagCall(o, id)];
            CallsIntrinsics(longer) && Actions(longer) == Actions(code) + [Tagged(ValueOf(code, o), id)]
  {
    hide Actions;
    hide ValueOf;
    assert |ADD_TAG| != |SET_MODIFIED|;
    ActionsSnoc(code, AddTagCall(o, id));
  }

  // ---- The code in front of a call ----

  predicate HasParameter(i: Instr, k: nat) {
    i.Call? && if k == 0 then i.dst.Some? else k <= |i.args|
  }

  /** Parameter 0 is the call's result, the others are its arguments, counted from 1. */
  function Parameter(i: Instr, k: nat): Operand
    requires HasParameter(i, k)
  {
    if k == 0 then Result(i.dst.value, i.callee.sig.result) else i.args[k - 1]
  }

  /** A source is marked and then tagged with the call's id; a null constant is neither. */
  function SourceActions(i: Instr, id: int, k: nat): seq<Action> {
    if !HasParameter(i, k) || Parameter(i, k) == NullPointer then []
    else [Marked(Parameter(i, k)), Tagged(Parameter(i, k), id)]
  }

  function SourcePieces(i: Instr, id: int): nat -> seq<Action> {
    (k: nat) => SourceActions(i, id, k)
  }

  lemma ParameterIsProgram(i: Instr, k: nat)
    requires IsProgramInstr(i) && HasParameter(i, k)
    ensures IsProgramOperand(Parameter(i, k))
  {
  }

  lemma RoleActions(code: Block, i: Instr, role: Role)
    requires CallsIntrinsics(code) && IsProgramInstr(i) && i.Call? && RoleInRange(i, role) && GetSiteId(i.site).Some?
    ensures CallsIntrinsics(code + TagCode(i, role))
    ensures Actions(code + TagCode(i, role)) == Actions(code) + SourceActions(i, GetSiteId(i.site).value, role.index)
  {
    hide Actions;
    hide ValueOf;
    hide GetSiteId;
    hide IsProgramInstr;
    hide IsProgramOperand;
    hide CallsIntrinsics;
    hide CastCode;
    hide CastOperand;
    hide SetModifiedCall;
    hide AddTagCall;
    hide IsBytePointer;
    var id, v, reg := GetSiteId(i.site).value, Parameter(i, role.index), Temp(GetSiteId(i.site).value, role.slot);
    ParameterIsProgram(i, role.index);
    if v == NullPointer {
      assert code + [] == code;
    } else {
      var o := CastOperand(v, reg);
      CastThen(code, v, reg);
      Marking(code + CastCode(v, reg), o);
      TaggingCall(code + CastCode(v, reg) + [SetModifiedCall(o)], o, id);
      assert code + TagCode(i, role) == code + CastCode(v, reg) + [SetModifiedCall(o)] + [AddTagCall(o, id)];
    }
  }

  lemma {:induction false} CodeActions(i: Instr, n: nat)
    requires IsProgramInstr(i) && i.Call? && SourcesInRange(i) && n <= ArgumentCount(i.site) && GetSiteId(i.site).Some?
    ensures var code := SourceCodeUpTo(i, n);
            CallsIntrinsics(code) &&
            Actions(code) == Flat(LabelledAs(i.site, n, true), SourcePieces(i, GetSiteId(i.site).value))
  {
    hide RoleAt;
    hide GetSiteId;
    hide SourceCodeUpTo;
    hide SourcesInRange;
    hide IsProgramInstr;
    hide TagCode;
    hide SourceActions;
    hide RoleInRange;
    if n == 0 {
      NoCode(i);
    } else {
      CodeActions(i, n - 1);
      SourceCodeStep(i, n - 1);
      var role := RoleAt(i.site, n - 1);
      if role.Some? && role.value.isInput {
        RoleActions(SourceCodeUpTo(i, n - 1), i, role.value);
        FlatSnoc(LabelledAs(i.site, n - 1, true), role.value.index, SourcePieces(i, GetSiteId(i.site).value));
      } else {
        assert LabelledAs(i.site, n, true) == LabelledAs(i.site, n - 1, true);
      }
    }
  }

  lemma NoCode(i: Instr)
    requires i.Call? && SourcesInRange(i)
    ensures SourceCodeUpTo(i, 0) == []
  {
  }

  // ---- A whole block ----

  /** The instructions of a block with a piece of code in front of each. */
  function Interleaved(codes: seq<Block>, b: Block): Block
    requires |codes| == |b|
  {
    if b == [] then [] else Interleaved(codes[..|b| - 1], b[..|b| - 1]) + codes[|b| - 1] + [b[|b| - 1]]
  }

  ghost function CodesOf(b: Block): (codes: seq<Block>)
    requires BlockInRange(b)
    ensures |codes| == |b|
  {
    seq(|b|, j requires 0 <= j < |b| => SourceCode(b[j]))
  }

  lemma {:induction false} AddedCode(b: Block)
    requires BlockInRange(b)
    ensures AddSourcesBlock(b) == Interleaved(CodesOf(b), b)
  {
    hide SourceCode;
    hide SourcesInRange;
    if b != [] {
      AddedCode(b[..|b| - 1]);
      assert CodesOf(b)[..|b| - 1] == CodesOf(b[..|b| - 1]);
    }
  }

  /**
    * The code in front of a call to a configured function: for each parameter that the configuration makes a source, in
    * some order and once, the parameter's value is marked and tagged with the call's number; null constants are left out.
    */
  ghost predicate TagsSources(fs: seq<Function>, lines: seq<string>, i: Instr, id: int, code: Block) {
    && IsDirectCall(i) && CallsIntrinsics(code)
    && exists ks :: Enumerates(ks, fs, lines, i.callee.name, |i.args|, true) && Actions(code) == Flat(ks, SourcePieces(i, id))
  }

  lemma AnnotatedActions(fs: seq<Function>, lines: seq<string>, table: Table, walk: Walk, i: Instr, c: nat)
    requires WalksTables(walk) && Holds(table, fs, lines) && Eligible(table, i) && Fits(i, c) && IsProgramInstr(i)
    requires SourcesInRange(Annotate(table, walk, i, c))
    ensures TagsSources(fs, lines, i, c, SourceCode(Annotate(table, walk, i, c)))
  {
    hide WalksTables;
    hide Holds;
    hide Annotate;
    hide SourceCodeUpTo;
    hide SourcesInRange;
    hide Enumerates;
    hide Flat;
    hide GetSiteId;
    hide SourceActions;
    hide CallsIntrinsics;
    hide Actions;
    var r := Annotate(table, walk, i, c);
    LabelledAreConfigured(fs, lines, table, walk, i, c, true);
    AnnotatedKeeps(table, walk, i, c);
    CodeActions(r, ArgumentCount(r.site));
    var ks := LabelledAs(r.site, ArgumentCount(r.site), true);
    forall k: nat
      ensures SourceActions(r, c, k) == SourceActions(i, c, k)
    {
      SameParameter(i, r, c, k);
    }
    FlatSame(ks, SourcePieces(r, c), SourcePieces(i, c));
  }

  lemma AnnotatedKeeps(table: Table, walk: Walk, i: Instr, c: nat)
    requires WalksTables(walk) && Eligible(table, i)
    ensures var r := Annotate(table, walk, i, c);
            r.Call? && r.callee == i.callee && r.args == i.args && r.dst == i.dst && r.tags == i.tags &&
            (IsProgramInstr(i) ==> IsProgramInstr(r))
  {
    hide LabelMap;
    hide SiteNode;
  }

  lemma SameParameter(i: Instr, r: Instr, id: int, k: nat)
    requires i.Call? && r.Call? && r.callee == i.callee && r.args == i.args && r.dst == i.dst
    ensures SourceActions(r, id, k) == SourceActions(i, id, k)
  {
  }

  /** What stands in front of an instruction of the unlabelled program when its module has been labelled and tagged. */
  ghost predicate TaggedFor(fs: seq<Function>, lines: seq<string>, table: Table, n: nat, p: Position, code: Block)
    requires n < |fs| && IsPosition(fs[n].blocks, p)
  {
    var i := InstrAt(fs[n].blocks, p);
    if Eligible(table, i) then TagsSources(fs, lines, i, NumberBefore(table, fs, n, p), code) else code == []
  }

  lemma NothingInFront(i: Instr)
    requires Unlabelled(i) && SourcesInRange(i)
    ensures SourceCode(i) == []
  {
  }

  lemma EligibleIsProgram(fs: seq<Function>, lines: seq<string>, table: Table, i: Instr)
    requires SourceInstr(fs, lines, table, i) && Eligible(table, i)
    ensures IsProgramInstr(i)
  {
    hide WellConfigured;
    hide IsProgramOperand;
  }

  lemma TaggedAt(fs: seq<Function>, lines: seq<string>, table: Table, walk: Walk, n: nat, p: Position)
    requires WalksTables(walk) && Holds(table, fs, lines) && SourceProgram(fs, lines, table) && IsInt64(CountAll(table, fs))
    requires n < |fs| && IsPosition(fs[n].blocks, p) && InRange(AnnotateAll(table, walk, fs, 0))
    ensures var m := AnnotateAll(table, walk, fs, 0);
            && IsPosition(m[n].blocks, p) && SourcesInRange(InstrAt(m[n].blocks, p))
            && TaggedFor(fs, lines, table, n, p, SourceCode(InstrAt(m[n].blocks, p)))
  {
    hide WalksTables;
    hide Holds;
    hide AnnotateAll;
    hide Annotate;
    hide NumberBefore;
    hide CountAll;
    hide SourceInstr;
    hide SourcesInRange;
    hide SourceCode;
    hide TagsSources;
    hide WellConfigured;
    var m, i := AnnotateAll(table, walk, fs, 0), InstrAt(fs[n].blocks, p);
    AnnotatedAt(table, walk, fs, 0, n, p);
    assert BlockInRange(m[n].blocks[p.0]);
    assert SourceInstr(fs, lines, table, i);
    if Eligible(table, i) {
      NumberInRange(table, fs, n, p, 0);
      EligibleWell(fs, lines, table, i);
      WellConfiguredCall(fs, lines, i);
      EligibleIsProgram(fs, lines, table, i);
      AnnotatedActions(fs, lines, table, walk, i, NumberBefore(table, fs, n, p));
    } else {
      UnlabelledSource(fs, lines, table, i);
      NothingInFront(i);
    }
  }

  /**
    * Every call to a configured function has in front of it the intrinsic calls for its sources and nothing else has;
    * the block's own instructions stay in their order.
    */
  lemma SourcesTagged(fs: seq<Function>, lines: seq<string>, table: Table, walk: Walk, n: nat, k: nat)
      returns (codes: seq<Block>)
    requires WalksTables(walk) && Holds(table, fs, lines) && SourceProgram(fs, lines, table) && IsInt64(CountAll(table, fs))
    requires n < |fs| && k < |fs[n].blocks|
    ensures var m := AnnotateAll(table, walk, fs, 0);
            && InRange(m) && |m[n].blocks| == |fs[n].blocks| && |codes| == |m[n].blocks[k]| == |fs[n].blocks[k]|
            && n < |AddSources(m)| && k < |AddSources(m)[n].blocks|
            && AddSources(m)[n].blocks[k] == Interleaved(codes, m[n].blocks[k])
    ensures forall j :: 0 <= j < |codes| ==> TaggedFor(fs, lines, table, n, (k, j), codes[j])
  {
    hide WalksTables;
    hide Holds;
    hide AnnotateAll;
    hide CountAll;
    hide SourceProgram;
    hide SourceCode;
    hide SourcesInRange;
    hide AddSourcesBlock;
    hide TaggedFor;
    hide FitModule;
    hide NoWrapperNames;
    hide AllLabelled;
    LabelledProgram(fs, lines, table, walk);
    var m := AnnotateAll(table, walk, fs, 0);
    AnnotatedCarries(table, walk, fs);
    AnnotatedBlockLength(table, walk, fs, n, k);
    assert [m[n]][0] == m[n];
    assert BlockInRange(m[n].blocks[k]);
    AddedCode(m[n].blocks[k]);
    codes := CodesOf(m[n].blocks[k]);
    forall j | 0 <= j < |codes|
      ensures TaggedFor(fs, lines, table, n, (k, j), codes[j])
    {
      TaggedAt(fs, lines, table, walk, n, (k, j));
    }
  }
}
