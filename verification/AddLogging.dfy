/** `AddLogging`: logger calls after annotated calls, at the start of `main` and before its returns. */
module AddLogging {
  import opened Text
  import opened Metadata
  import opened Ir
  import opened Erasure

  const INIT_SIG := Signature([Other], true, Other)
  const BUFFER_SIG := Signature([Other], true, Other)

  function InitCall(maxRecords: int, outputMode: int): Instr {
    Call(None, Direct(LOG_INIT, INIT_SIG), [Number(0), Number(maxRecords), Number(outputMode)], None, None)
  }

  function ShutdownCall(): Instr {
    Call(None, Direct(LOG_SHUTDOWN, INIT_SIG), [Number(0)], None, None)
  }

  /** The id a call is logged under; calls to two of the logger's functions are not logged. */
  function LogId(i: Instr): Option<int> {
    if IsDirectCall(i) && i.callee.name != LOG_INIT && i.callee.name != LOG_BUFFER then GetSiteId(i.site) else None
  }

  /** The result of the preceding call as an operand; a void call has none. */
  function ResultOf(i: Instr): Operand
    requires i.Call?
  {
    match i.dst case Some(reg) => Result(reg, i.callee.sig.result) case None => Number(0)
  }

  function LogCall(i: Instr): Instr
    requires LogId(i).Some?
  {
    Call(None, Direct(LOG_BUFFER, BUFFER_SIG),
         [Number(0), Number(LogId(i).value), ResultOf(i), Name(i.callee.name)], None, None)
  }

  function LogCode(previous: Instr): seq<Instr> {
    if LogId(previous).Some? then [LogCall(previous)] else []
  }

  function ShutdownCode(i: Instr, isMain: bool): seq<Instr> {
    if isMain && i.Return? then [ShutdownCall()] else []
  }

  function Previous(b: Block): seq<Instr> {
    if b == [] then [] else LogCode(b[|b| - 1])
  }

  /** A block with its logger calls: each is inserted when the instruction behind it is visited. */
  function LogBlock(b: Block, isMain: bool): Block {
    if b == [] then []
    else
      var init, current := b[..|b| - 1], b[|b| - 1];
      LogBlock(init, isMain) + Previous(init) + ShutdownCode(current, isMain) + [current]
  }

  /** `getFirstInsertionPt`: behind the phis. */
  function FirstInsertionPoint(b: Block): nat {
    if b != [] && b[0].Phi? then 1 + FirstInsertionPoint(b[1..]) else 0
  }

  lemma {:induction false} InsertionPointInBlock(b: Block)
    ensures FirstInsertionPoint(b) <= |b|
    ensures forall j :: 0 <= j < FirstInsertionPoint(b) ==> b[j].Phi?
    ensures FirstInsertionPoint(b) < |b| ==> !b[FirstInsertionPoint(b)].Phi?
  {
    if b != [] && b[0].Phi? {
      InsertionPointInBlock(b[1..]);
    }
  }

  function InitBlock(b: Block, maxRecords: int, outputMode: int): Block {
    InsertionPointInBlock(b);
    var at := FirstInsertionPoint(b);
    b[..at] + [InitCall(maxRecords, outputMode)] + b[at..]
  }

  /** `main` has a body with an instruction to insert the initialisation in front of. */
  predicate MainHasBody(f: Function) {
    f.name == MAIN ==> f.blocks != []
  }

  /** A function with its logger calls; the pass demands that a function named `main` has a body. */
  function LogFunction(f: Function, maxRecords: int, outputMode: int): Function
  {
    var isMain := f.name == MAIN;
    var blocks := if isMain && f.blocks != [] then f.blocks[0 := InitBlock(f.blocks[0], maxRecords, outputMode)] else f.blocks;
    f.(blocks := seq(|blocks|, b requires 0 <= b < |blocks| => LogBlock(blocks[b], isMain)))
  }

  predicate MainsHaveBodies(fs: seq<Function>) {
    forall k :: 0 <= k < |fs| ==> MainHasBody(fs[k])
  }

  function Log(fs: seq<Function>, maxRecords: int, outputMode: int): seq<Function> {
    seq(|fs|, k requires 0 <= k < |fs| => LogFunction(fs[k], maxRecords, outputMode))
  }

  // ---- The pass ----

  lemma LogBlockNext(b: Block, isMain: bool, i: nat)
    requires i < |b|
    ensures LogBlock(b[..i + 1], isMain) ==
            LogBlock(b[..i], isMain) + Previous(b[..i]) + ShutdownCode(b[i], isMain) + [b[i]]
    ensures LogBlock(b[..0], isMain) == [] && Previous(b[..0]) == []
    ensures i > 0 ==> Previous(b[..i]) == LogCode(b[i - 1])
  {
    hide LogCode;
    assert b[..i + 1][..i] == b[..i];
  }

  lemma InsertCode(done: Block, code: Block, b: Block, i: nat)
    requires i < |b|
    ensures var block := done + b[i..];
            && block[|done|] == b[i]
            && block[..|done|] + code + block[|done|..] == done + code + b[i..]
            && done + code + b[i..] == done + code + [b[i]] + b[i + 1..]
  {
  }

  /** `insertBufferLoggerCall`: what goes in front of the current instruction because of the previous one. */
  method BufferLoggerCode(previous: Option<Instr>) returns (code: seq<Instr>)
    ensures code == match previous case None => [] case Some(i) => LogCode(i)
  {
    hide GetSiteId;
    code := [];
    if previous.Some? && IsDirectCall(previous.value) {
      var i := previous.value;
      var functionName := i.callee.name;
      if functionName == LOG_INIT || functionName == LOG_BUFFER {
        return;
      }
      var callSiteId := GetSiteId(i.site);
      if callSiteId.None? {
        return;
      }
      code := [Call(None, Direct(LOG_BUFFER, BUFFER_SIG),
                    [Number(0), Number(callSiteId.value), ResultOf(i), Name(functionName)], None, None)];
    }
  }

  /** The loop over one block: the cursor stays on the current instruction while calls are inserted in front of it. */
  method RunOnBlock(b: Block, isMain: bool) returns (block: Block)
    ensures block == LogBlock(b, isMain)
  {
    hide *;
    block := b;
    var previous: Option<Instr> := None;
    var at: nat := 0;
    ghost var i: nat := 0;
    ProgressStart(b, isMain);
    while at < |block|
      invariant Progress(b, isMain, i, block, at)
      invariant i <= |b| && previous == if i == 0 then None else Some(b[i - 1])
      decreases |b| - i
    {
      ProgressAt(b, isMain, i, block, at);
      var code := BufferLoggerCode(previous);
      var current := block[at];
      if isMain && current.Return? {
        code := code + [ShutdownCall()];
      }
      LoggedCode(b, isMain, i, code);
      ProgressNext(b, isMain, i, block, at, code);
      block := block[..at] + code + block[at..];
      at := at + |code| + 1;
      previous := Some(current);
      i := i + 1;
    }
    ProgressEnd(b, isMain, i, block, at);
  }

  /** The block when the cursor has come to its `i`th instruction. */
  ghost predicate Progress(b: Block, isMain: bool, i: nat, block: Block, at: nat) {
    i <= |b| && at == |LogBlock(b[..i], isMain)| && block == LogBlock(b[..i], isMain) + b[i..]
  }

  lemma ProgressStart(b: Block, isMain: bool)
    ensures Progress(b, isMain, 0, b, 0)
  {
    assert LogBlock(b[..0], isMain) == [];
    assert b[0..] == b;
  }

  lemma ProgressAt(b: Block, isMain: bool, i: nat, block: Block, at: nat)
    requires Progress(b, isMain, i, block, at)
    ensures at <= |block| && i <= |b| && (at < |block| <==> i < |b|)
    ensures at < |block| ==> block[at] == b[i]
  {
    hide LogBlock;
  }

  lemma ProgressEnd(b: Block, isMain: bool, i: nat, block: Block, at: nat)
    requires Progress(b, isMain, i, block, at) && at >= |block|
    ensures block == LogBlock(b, isMain)
  {
    hide LogBlock;
    ProgressAt(b, isMain, i, block, at);
    assert b[..|b|] == b;
  }

  lemma LoggedCode(b: Block, isMain: bool, i: nat, code: seq<Instr>)
    requires i < |b|
    requires code == (if i == 0 then [] else LogCode(b[i - 1])) + if isMain && b[i].Return? then [ShutdownCall()] else []
    ensures code == (if i == 0 then [] else LogCode(b[i - 1])) + ShutdownCode(b[i], isMain)
  {
    hide LogCode;
  }

  lemma ProgressNext(b: Block, isMain: bool, i: nat, block: Block, at: nat, code: seq<Instr>)
    requires Progress(b, isMain, i, block, at) && i < |b| && at < |block|
    requires code == (if i == 0 then [] else LogCode(b[i - 1])) + ShutdownCode(b[i], isMain)
    ensures Progress(b, isMain, i + 1, block[..at] + code + block[at..], at + |code| + 1)
  {
    hide LogBlock;
    hide LogCode;
    hide ShutdownCode;
    LoggedNext(b, isMain, i, code);
  }

  /** Inserting the code in front of the current instruction takes the block from one state of the loop to the next. */
  lemma LoggedNext(b: Block, isMain: bool, i: nat, code: seq<Instr>)
    requires i < |b|
    requires code == (if i == 0 then [] else LogCode(b[i - 1])) + ShutdownCode(b[i], isMain)
    ensures var done := LogBlock(b[..i], isMain); var block := done + b[i..];
            && block[|done|] == b[i] && LogBlock(b[..i + 1], isMain) == done + code + [b[i]]
            && block[..|done|] + code + block[|done|..] == LogBlock(b[..i + 1], isMain) + b[i + 1..]
  {
    hide LogBlock;
    hide LogCode;
    hide Previous;
    hide ShutdownCode;
    LogBlockNext(b, isMain, i);
    InsertCode(LogBlock(b[..i], isMain), code, b, i);
    PreviousStart(b);
  }

  lemma PreviousStart(b: Block)
    ensures Previous(b[..0]) == []
  {
  }

  method RunOnFunction(f: Function, maxRecords: int, outputMode: int) returns (g: Function)
    requires MainHasBody(f)
    ensures g == LogFunction(f, maxRecords, outputMode)
  {
    hide LogBlock;
    hide FirstInsertionPoint;
    var blocks := f.blocks;
    var isMainFunction := false;
    if f.name == MAIN {
      isMainFunction := true;
      var entryBlock := blocks[0];
      InsertionPointInBlock(entryBlock);
      var at := FirstInsertionPoint(entryBlock);
      blocks := blocks[0 := entryBlock[..at] + [InitCall(maxRecords, outputMode)] + entryBlock[at..]];
    }
    ghost var start := blocks;
    var b := 0;
    while b < |blocks|
      invariant b <= |blocks| == |start|
      invariant forall j :: 0 <= j < b ==> blocks[j] == LogBlock(start[j], isMainFunction)
      invariant forall j :: b <= j < |blocks| ==> blocks[j] == start[j]
    {
      var block := RunOnBlock(blocks[b], isMainFunction);
      blocks := blocks[b := block];
      b := b + 1;
    }
    g := f.(blocks := blocks);
    assert g.blocks == LogFunction(f, maxRecords, outputMode).blocks;
  }

  /** `AddLogging::runOnModule`; a configuration without both settings leaves the module alone. */
  method RunOnModule(M: Module, maxRecords: int, outputMode: int)
    requires outputMode >= 0 && maxRecords >= 0 ==> MainsHaveBodies(M.functions)
    modifies M
    ensures M.functions == if outputMode < 0 || maxRecords < 0 then old(M.functions)
                           else Log(old(M.functions), maxRecords, outputMode)
  {
    hide LogFunction;
    hide MainHasBody;
    if outputMode < 0 || maxRecords < 0 {
      return;
    }
    ghost var fs := M.functions;
    var k := 0;
    while k < |M.functions|
      invariant k <= |M.functions| == |fs|
      invariant M.functions[..k] == Log(fs, maxRecords, outputMode)[..k] && M.functions[k..] == fs[k..]
    {
      assert M.functions[k] == fs[k];
      var g := RunOnFunction(M.functions[k], maxRecords, outputMode);
      M.functions := M.functions[k := g];
      assert M.functions[..k + 1] == M.functions[..k] + [Log(fs, maxRecords, outputMode)[k]];
      k := k + 1;
    }
  }

  // ---- Logging adds nothing but extra instructions ----

  lemma LogCodeErased(i: Instr)
    ensures EraseBlock(LogCode(i)) == []
  {
    hide GetSiteId;
    EraseExtra(LogCode(i));
  }

  lemma EraseAround(a: Block, p: Block, q: Block, i: Instr)
    requires EraseBlock(p) == [] && EraseBlock(q) == []
    ensures EraseBlock(a + p + q + [i]) == EraseBlock(a) + EraseBlock([i])
  {
    hide EraseBlock;
    EraseConcat(a + p + q, [i]);
    EraseConcat(a + p, q);
    EraseConcat(a, p);
  }

  lemma {:induction false} EraseLogBlock(b: Block, isMain: bool)
    ensures EraseBlock(LogBlock(b, isMain)) == EraseBlock(b)
  {
    hide LogCode;
    hide EraseBlock;
    if b != [] {
      var init, i := b[..|b| - 1], b[|b| - 1];
      EraseLogBlock(init, isMain);
      assert b == init + [i];
      EraseConcat(init, [i]);
      EraseExtra([]);
      if init != [] {
        LogCodeErased(init[|init| - 1]);
      }
      ShutdownErased();
      EraseAround(LogBlock(init, isMain), Previous(init), ShutdownCode(i, isMain), i);
    }
  }

  lemma ShutdownErased()
    ensures EraseBlock([ShutdownCall()]) == []
  {
    EraseExtra([ShutdownCall()]);
  }

  lemma EraseInitBlock(b: Block, maxRecords: int, outputMode: int)
    ensures EraseBlock(InitBlock(b, maxRecords, outputMode)) == EraseBlock(b)
  {
    hide EraseBlock;
    hide FirstInsertionPoint;
    InsertionPointInBlock(b);
    var at := FirstInsertionPoint(b);
    EraseExtra([InitCall(maxRecords, outputMode)]);
    EraseConcat(b[..at] + [InitCall(maxRecords, outputMode)], b[at..]);
    EraseConcat(b[..at], [InitCall(maxRecords, outputMode)]);
    EraseConcat(b[..at], b[at..]);
    assert b[..at] + b[at..] == b;
  }

  lemma EraseLog(fs: seq<Function>, maxRecords: int, outputMode: int)
    ensures Erase(Log(fs, maxRecords, outputMode)) == Erase(fs)
  {
    hide LogBlock;
    hide InitBlock;
    hide EraseBlock;
    forall k | 0 <= k < |fs|
      ensures EraseFunction(LogFunction(fs[k], maxRecords, outputMode)) == EraseFunction(fs[k])
    {
      var f, g := fs[k], LogFunction(fs[k], maxRecords, outputMode);
      forall b | 0 <= b < |f.blocks|
        ensures EraseBlock(g.blocks[b]) == EraseBlock(f.blocks[b])
      {
        EraseInitBlock(f.blocks[b], maxRecords, outputMode);
        EraseLogBlock(f.blocks[b], f.name == MAIN);
        EraseLogBlock(InitBlock(f.blocks[b], maxRecords, outputMode), f.name == MAIN);
      }
    }
  }
}
