/** What holds of the logger over every sequence of calls. */
module Lifecycle {
  import opened Text
  import opened LogCodec
  import opened Logger

  // ---- History ----

  function Taken(bs: seq<Batch>): seq<Record> {
    if bs == [] then [] else Taken(bs[..|bs| - 1]) + bs[|bs| - 1].records
  }

  function Logged(bs: seq<Batch>): seq<byte> {
    if bs == [] then [] else Logged(bs[..|bs| - 1]) + bs[|bs| - 1].written
  }

  /** All bytes of the batch reached the log. */
  predicate Full(b: Batch) {
    |b.written| == RECORD_SIZE * |b.records|
  }

  predicate Cut(b: Batch) {
    |b.written| <= RECORD_SIZE * |b.records| && b.written == EncodeAll(b.records)[..|b.written|]
  }

  /** Every accepted record was taken by one flush or is still in the array, in the order of acceptance. */
  predicate History(s: State) {
    s.accepted == Taken(s.batches) + Pending(s) && s.output == Logged(s.batches) &&
    forall i :: 0 <= i < |s.batches| ==> Cut(s.batches[i])
  }

  /** What every critical section keeps. */
  predicate Consistent(s: State) {
    (s.inited <==> s.memory.Live?) && (s.inited <==> s.fd.Opened?) &&
    (s.inited ==> s.index <= |s.memory.slots|) && (!s.inited ==> s.index == 0) && History(s)
  }

  /** What whole calls of a single thread keep besides. */
  predicate Valid(s: State) {
    Consistent(s) && (s.inited ==> |s.memory.slots| == s.max && s.index < s.max)
  }

  // ---- Critical sections ----

  lemma HistorySnoc(bs: seq<Batch>, b: Batch)
    ensures Taken(bs + [b]) == Taken(bs) + b.records && Logged(bs + [b]) == Logged(bs) + b.written
  {
    assert (bs + [b])[..|bs|] == bs;
  }

  lemma BufferKeeps(s: State, e: Entry)
    requires Consistent(s) && !s.fault
    ensures var after := BufferConcrete(s, e).0;
            if s.inited && s.index == |s.memory.slots| then after == s.(fault := true)
            else !after.fault && Consistent(after) && after.inited == s.inited && after.max == s.max &&
                 (s.inited ==> |after.memory.slots| == |s.memory.slots|) && s.index <= after.index <= s.index + 1
  {
    hide EncodeAll;
    var after := BufferConcrete(s, e).0;
    if s.inited && s.index < |s.memory.slots| {
      var r := Filled(e, s.memory.slots[s.index]);
      assert s.memory.slots[s.index := r][..s.index] == s.memory.slots[..s.index];
      assert s.memory.slots[s.index := r][..s.index + 1] == s.memory.slots[..s.index] + [r];
    }
  }

  /** The flush would write the records into a temporary buffer of too few bytes. */
  predicate WrapsAround(index: nat, io: Io) {
    io.malloc && 0 <= BufferSize(index) < RECORD_SIZE * index
  }

  lemma FlushKeeps(s: State, force: int, io: Io)
    requires Consistent(s) && !s.fault
    ensures var after := FlushConcrete(s, force, io).0;
            if s.inited && s.index > 0 && (force == 1 || s.index >= s.max)
            then if WrapsAround(s.index, io) then after == s.(fault := true)
                 else !after.fault && Consistent(after) && after.index == 0 && after.inited &&
                      after.memory == s.memory && after.max == s.max && after.accepted == s.accepted &&
                      after.strayCloses == s.strayCloses
            else after == s
  {
    hide EncodeAll;
    hide BufferSize;
    if s.inited && s.index > 0 && (force == 1 || s.index >= s.max) && !WrapsAround(s.index, io) {
      TakeBatchKeeps(s, io);
    }
  }

  lemma TakeBatchKeeps(s: State, io: Io)
    requires Consistent(s) && !s.fault && s.inited && !WrapsAround(s.index, io)
    ensures History(TakeBatch(s, io).0)
    ensures var after := TakeBatch(s, io).0;
            after == s.(index := 0, output := after.output, batches := after.batches) &&
            |after.batches| == |s.batches| + 1 && after.batches[..|s.batches|] == s.batches
  {
    hide EncodeAll;
    hide BufferSize;
    SizeNeverMore(s.index);
    var size := BufferSize(s.index);
    var after := TakeBatch(s, io).0;
    assert Pending(after) == [];
    var taken := if Allocated(s, io) then Batch(Pending(s), EncodeAll(Pending(s))[..Bytes(io, size)]) else Batch(Pending(s), []);
    HistorySnoc(s.batches, taken);
    assert Cut(taken);
    assert after.batches == s.batches + [taken];
  }

  /** Cleaning up a second time is a fault; otherwise the memory is given back. */
  lemma ShutdownKeeps(s: State, io: Io)
    requires Consistent(s) && !s.fault
    ensures var after := ShutdownConcrete(s, io).0;
            if s.inited && s.index > 0 && WrapsAround(s.index, io) then after.fault
            else !after.fault && Consistent(after) && !after.inited && after.index == 0 && Pending(after) == [] &&
                 after.accepted == s.accepted && after.strayCloses == s.strayCloses
  {
    hide EncodeAll;
    hide BufferSize;
    hide FlushConcrete;
    hide WrapsAround;
    hide Consistent;
    hide Pending;
    if s.inited {
      FlushKeeps(s, 1, io);
      if s.index == 0 {
        FlushConcreteEmpty(s, io);
        CleanupKeeps(s);
      } else if !WrapsAround(s.index, io) {
        CleanupKeeps(FlushConcrete(s, 1, io).0);
      }
    } else {
      DownIsEmpty(s);
    }
  }

  lemma DownIsEmpty(s: State)
    requires Consistent(s) && !s.inited
    ensures s.index == 0 && Pending(s) == []
  {
  }

  lemma FlushConcreteEmpty(s: State, io: Io)
    requires s.inited && s.index == 0
    ensures FlushConcrete(s, 1, io).0 == s
  {
  }

  lemma CleanupKeeps(s: State)
    requires Consistent(s) && !s.fault && s.inited
    ensures var after := Cleanup(s).(inited := false);
            s.index == 0 ==>
              !Cleanup(s).fault && Consistent(after) && Pending(after) == [] && after.index == 0 &&
              after.accepted == s.accepted && after.strayCloses == s.strayCloses
  {
    hide EncodeAll;
  }

  /** Initialising faults exactly when a record count below one makes a failed start free the old array again. */
  lemma InitKeeps(s: State, max: int32, mode: int, a: Startup)
    requires Consistent(s) && !s.fault && Answers(max, a)
    ensures var (after, result) := InitConcrete(s, max, mode, a);
            if s.inited then after == s && result == 0
            else if max < 1 && s.memory.Dangling? then after.fault && result == 0
            else !after.fault && Consistent(after) && (after.inited <==> result == 1) &&
                 (result == 1 <==> max >= 1 && a.block.Some? && Outcome(mode, a.opening).Succeeds?) &&
                 (after.inited ==> |after.memory.slots| == after.max == max && after.index == 0) &&
                 after.accepted == s.accepted && after.batches == s.batches
  {
    hide EncodeAll;
  }

  /** A start that fails closes a file that is not the log exactly when no `open` call was refused in it. */
  lemma StrayCloses(s: State, max: int32, mode: int, a: Startup)
    requires Consistent(s) && !s.fault && !s.inited && !InitConcrete(s, max, mode, a).0.fault
    ensures var (after, result) := InitConcrete(s, max, mode, a);
            var asked := max >= 1 && a.block.Some?;
            after.strayCloses - s.strayCloses ==
            if result == 0 && (if asked && Outcome(mode, a.opening).Refused? then false else s.fd.Stale?) then 1 else 0
  {
    hide EncodeAll;
  }

  /**
    * A flush loses nothing exactly when its temporary buffer exists and is written whole, which needs a record count whose
    * size fits 32 bits; and it reports just that, but for the unassigned variable it compares when there is no buffer.
    */
  lemma FlushExact(s: State, io: Io)
    requires Consistent(s) && !s.fault && s.inited && s.index > 0 && !WrapsAround(s.index, io)
    ensures var (after, result) := TakeBatch(s, io);
            var full := Full(after.batches[|s.batches|]);
            after.batches[|s.batches|].records == Pending(s) &&
            (full <==> io.malloc && s.index <= MAX_TOTAL && io.written >= RECORD_SIZE * s.index) &&
            (result == 1 <==> full || (!Allocated(s, io) && io.leftover == BufferSize(s.index)))
  {
    hide EncodeAll;
    BufferSizeExact(s.index);
    SizeNeverMore(s.index);
  }

  // ---- Whole calls ----

  /** Exactly the calls after which nothing can be said. */
  predicate Faults(s: State, c: Call) {
    match c
    case Init(max, _, _) => !s.inited && max < 1 && s.memory.Dangling?
    case Buffer(e, io) => s.inited && NameBytes(e.name).Some? && s.index + 1 == s.max && WrapsAround(s.index + 1, io)
    case Flush(force, io) => s.inited && s.index > 0 && force == 1 && WrapsAround(s.index, io)
    case Shutdown(io) => s.inited && s.index > 0 && WrapsAround(s.index, io)
  }

  lemma StepKeeps(s: State, c: Call)
    requires Valid(s) && !s.fault && Answered(c)
    ensures var after := Step(s, c).0;
            (after.fault <==> Faults(s, c)) && (!after.fault ==> Valid(after))
  {
    hide EncodeAll;
    hide BufferSize;
    hide History;
    match c
    case Init(max, mode, startup) => InitKeeps(s, max, mode, startup);
    case Buffer(e, io) =>
      BufferKeeps(s, e);
      var stored := BufferConcrete(s, e).0;
      FlushKeeps(stored, 0, io);
    case Flush(force, io) => FlushKeeps(s, force, io);
    case Shutdown(io) => ShutdownKeeps(s, io);
  }

  predicate AllAnswered(calls: seq<Call>) {
    forall i :: 0 <= i < |calls| ==> Answered(calls[i])
  }

  lemma {:induction false} RunValid(calls: seq<Call>)
    requires AllAnswered(calls)
    ensures var s := Run(INITIAL, calls); s.fault || Valid(s)
  {
    hide EncodeAll;
    hide Step;
    if calls != [] {
      var init := calls[..|calls| - 1];
      RunValid(init);
      var s := Run(INITIAL, init);
      if s.fault {
        FaultStays(s, calls[|calls| - 1]);
      } else {
        StepKeeps(s, calls[|calls| - 1]);
      }
    }
  }

  lemma FaultStays(s: State, c: Call)
    requires s.fault
    ensures Step(s, c).0 == s
  {
  }

  // ---- Which record counts are safe ----

  /** The smallest batch whose size in 32 bits comes out too small but not negative. */
  const WRAP_TOTAL: int32 := 15123125

  lemma WrapExact(total: nat, io: Io)
    ensures total < WRAP_TOTAL ==> !WrapsAround(total, io)
    ensures total == WRAP_TOTAL && io.malloc ==> WrapsAround(total, io)
  {
  }

  /** Every start of the run asks for a record count from `counts`. */
  ghost predicate Uses(calls: seq<Call>, counts: iset<int32>) {
    AllAnswered(calls) && forall i :: 0 <= i < |calls| && calls[i].Init? ==> calls[i].max in counts
  }

  ghost predicate Safe(counts: iset<int32>) {
    (forall m :: m in counts ==> m < WRAP_TOTAL) &&
    ((forall m :: m in counts ==> m >= 1) || (forall m :: m in counts ==> m < 1))
  }

  /** What a run keeps whose record counts are safe. */
  ghost predicate Sound(s: State, counts: iset<int32>) {
    !s.fault && Valid(s) && (s.inited ==> s.max < WRAP_TOTAL) &&
    ((forall m :: m in counts ==> m >= 1) || s.memory.Null?)
  }

  lemma SafeStep(s: State, c: Call, counts: iset<int32>)
    requires Safe(counts) && Sound(s, counts) && Answered(c) && (c.Init? ==> c.max in counts)
    ensures Sound(Step(s, c).0, counts)
  {
    hide EncodeAll;
    hide History;
    hide BufferSize;
    StepKeeps(s, c);
    WrapExact(s.index, if c.Init? then Io(false, 0, 0) else c.io);
    WrapExact(s.index + 1, if c.Init? then Io(false, 0, 0) else c.io);
  }

  lemma {:induction false} SafeRun(calls: seq<Call>, counts: iset<int32>)
    requires Safe(counts) && Uses(calls, counts)
    ensures Sound(Run(INITIAL, calls), counts)
  {
    hide Step;
    hide EncodeAll;
    if calls != [] {
      SafeRun(calls[..|calls| - 1], counts);
      SafeStep(Run(INITIAL, calls[..|calls| - 1]), calls[|calls| - 1], counts);
    }
  }

  /** No run misuses memory, exactly when no count makes the size wrap and counts below one are not mixed with others. */
  lemma SafeCounts(counts: iset<int32>)
    ensures (forall calls :: Uses(calls, counts) ==> !Run(INITIAL, calls).fault) <==> Safe(counts)
  {
    if Safe(counts) {
      forall calls | Uses(calls, counts)
        ensures !Run(INITIAL, calls).fault
      {
        SafeRun(calls, counts);
      }
    } else if m :| m in counts && m >= WRAP_TOTAL {
      OverrunReached(m, counts);
    } else {
      var a: int32 :| a in counts && a >= 1;
      var b: int32 :| b in counts && b < 1;
      DoubleFree(a, b, counts);
    }
  }

  lemma RunSnoc(s: State, calls: seq<Call>, c: Call)
    ensures Run(s, calls + [c]) == Step(Run(s, calls), c).0
  {
    assert (calls + [c])[..|calls|] == calls;
  }

  const BLANK := Record(0, 0, 0, 0, Zeros(NAME_LENGTH))

  function Array(max: int32): Option<seq<Record>> {
    if max < 1 then None else Some(seq(max, i => BLANK))
  }

  /** A start whose output cannot be opened leaves a pointer to freed memory; a start with no array frees it again. */
  lemma DoubleFree(a: int32, b: int32, counts: iset<int32>)
    requires a in counts && a >= 1 && b in counts && b < 1
    ensures exists calls :: Uses(calls, counts) && Run(INITIAL, calls).fault
  {
    var first := Init(a, OUTPUT_FILE, Startup(Array(a), Refused));
    var second := Init(b, OUTPUT_FILE, Startup(None, Refused));
    var calls := [first, second];
    assert calls == ([] + [first]) + [second];
    RunSnoc(INITIAL, [], first);
    RunSnoc(INITIAL, [] + [first], second);
    assert Step(INITIAL, first).0.memory.Dangling?;
    assert Uses(calls, counts);
  }

  function Copies(c: Call, n: nat): (calls: seq<Call>)
    ensures |calls| == n
  {
    seq(n, i => c)
  }

  const COMPLETE_IO := Io(true, 0x8000_0000, 0)
  const PLAIN_ENTRY := Entry(0, 0, 0, 0, Some([65]))

  function Starting(max: int32): Call {
    Init(max, OUTPUT_FILE, Startup(Array(max), Succeeds))
  }

  lemma Started(max: int32)
    requires max >= 1
    ensures var s := Step(INITIAL, Starting(max)).0; Valid(s) && !s.fault && s.inited && s.max == max && s.index == 0
  {
    hide EncodeAll;
    InitialValid();
    StepKeeps(INITIAL, Starting(max));
  }

  lemma {:induction false} Filling(max: int32, n: nat)
    requires n < max
    ensures var s := Run(INITIAL, [Starting(max)] + Copies(Buffer(PLAIN_ENTRY, COMPLETE_IO), n));
            !s.fault && s.inited && s.max == max && s.index == n && Valid(s)
  {
    hide Starting;
    hide Run;
    hide Step;
    var c := Buffer(PLAIN_ENTRY, COMPLETE_IO);
    if n == 0 {
      assert [Starting(max)] + Copies(c, 0) == [] + [Starting(max)];
      RunSnoc(INITIAL, [], Starting(max));
      RunNothing(INITIAL);
      Started(max);
    } else {
      Filling(max, n - 1);
      var before := [Starting(max)] + Copies(c, n - 1);
      assert [Starting(max)] + Copies(c, n) == before + [c];
      RunSnoc(INITIAL, before, c);
      FillOne(Run(INITIAL, before));
    }
  }

  lemma RunNothing(s: State)
    ensures Run(s, []) == s
  {
  }

  lemma FillOne(s: State)
    requires Valid(s) && !s.fault && s.inited && s.index + 1 < s.max
    ensures var after := Step(s, Buffer(PLAIN_ENTRY, COMPLETE_IO)).0;
            Valid(after) && !after.fault && after.inited && after.max == s.max && after.index == s.index + 1
  {
    hide EncodeAll;
    hide History;
    hide BufferSize;
    StepKeeps(s, Buffer(PLAIN_ENTRY, COMPLETE_IO));
  }

  lemma InitialValid()
    ensures Valid(INITIAL)
  {
  }

  lemma OverrunReached(max: int32, counts: iset<int32>)
    requires max in counts && max >= WRAP_TOTAL
    ensures exists calls :: Uses(calls, counts) && Run(INITIAL, calls).fault
  {
    hide EncodeAll;
    hide History;
    hide BufferSize;
    hide Run;
    var c := Buffer(PLAIN_ENTRY, COMPLETE_IO);
    var filled := [Starting(max)] + Copies(c, WRAP_TOTAL - 1);
    Filling(max, WRAP_TOTAL - 1);
    WrapExact(WRAP_TOTAL, COMPLETE_IO);
    var s := Run(INITIAL, filled);
    var once := filled + [c];
    RunSnoc(INITIAL, filled, c);
    StepKeeps(s, c);
    var stored := Step(s, c).0;
    var calls := once + [Flush(1, COMPLETE_IO)];
    RunSnoc(INITIAL, once, Flush(1, COMPLETE_IO));
    assert Uses(calls, counts);
  }

  // ---- Nothing lost, doubled or out of order ----

  lemma {:induction false} TakenBytes(bs: seq<Batch>)
    requires forall i :: 0 <= i < |bs| ==> Cut(bs[i])
    ensures |Logged(bs)| <= RECORD_SIZE * |Taken(bs)|
    ensures |Logged(bs)| == RECORD_SIZE * |Taken(bs)| <==> forall i :: 0 <= i < |bs| ==> Full(bs[i])
    ensures (forall i :: 0 <= i < |bs| ==> Full(bs[i])) ==> Logged(bs) == EncodeAll(Taken(bs))
  {
    hide EncodeAll;
    if bs != [] {
      var init, last := bs[..|bs| - 1], bs[|bs| - 1];
      TakenBytes(init);
      EncodeConcat(Taken(init), last.records);
      assert forall i :: 0 <= i < |init| ==> bs[i] == init[i];
      if Full(last) {
        assert EncodeAll(last.records)[..|last.written|] == EncodeAll(last.records);
      }
    }
  }

  /** Decoding the log and then reading the array gives back every accepted record, if and only if no flush fell short. */
  lemma Conservation(s: State)
    requires History(s)
    ensures DecodeAll(s.output) + Pending(s) == s.accepted <==>
            forall i :: 0 <= i < |s.batches| ==> Full(s.batches[i])
  {
    hide EncodeAll;
    hide DecodeAll;
    TakenBytes(s.batches);
    DecodeEncoded(Taken(s.batches));
    if DecodeAll(s.output) + Pending(s) == s.accepted {
      assert |DecodeAll(s.output)| == |Taken(s.batches)|;
      Whole(|s.output|, |Taken(s.batches)|);
    }
  }

  lemma Whole(bytes: nat, records: nat)
    requires bytes <= RECORD_SIZE * records && bytes / RECORD_SIZE == records
    ensures bytes == RECORD_SIZE * records
  {
  }

  /** Record counts are in range, and the system delivers every temporary buffer and writes all of it. */
  predicate Supplied(c: Call) {
    match c
    case Init(max, _, startup) => Answers(max, startup) && 1 <= max <= MAX_TOTAL
    case _ => c.io.malloc && c.io.written >= RECORD_SIZE * MAX_TOTAL
  }

  /** The last start succeeded and no shutdown came after it. */
  function Up(calls: seq<Call>): bool {
    if calls == [] then false
    else
      match calls[|calls| - 1]
      case Init(max, mode, startup) =>
        Up(calls[..|calls| - 1]) || (startup.block.Some? && Outcome(mode, startup.opening).Succeeds?)
      case Shutdown(_) => false
      case _ => Up(calls[..|calls| - 1])
  }

  /** The records that calls with a name hand over while the logger is up. */
  function Given(calls: seq<Call>): seq<Record> {
    if calls == [] then []
    else
      var rest, c := Given(calls[..|calls| - 1]), calls[|calls| - 1];
      if c.Buffer? && Up(calls[..|calls| - 1]) && NameBytes(c.entry.name).Some? then
        rest + [Record(c.entry.time, c.entry.tid, c.entry.callSiteId, c.entry.exit, NameBytes(c.entry.name).value)]
      else rest
  }

  predicate AllFull(bs: seq<Batch>) {
    forall i :: 0 <= i < |bs| ==> Full(bs[i])
  }

  predicate WellRun(s: State) {
    !s.fault && Valid(s) && (s.inited ==> s.max <= MAX_TOTAL) && AllFull(s.batches)
  }

  lemma FlushFull(s: State, force: int, io: Io)
    requires Consistent(s) && !s.fault && AllFull(s.batches)
    requires io.malloc && io.written >= RECORD_SIZE * MAX_TOTAL && s.index <= MAX_TOTAL
    ensures !FlushConcrete(s, force, io).0.fault && AllFull(FlushConcrete(s, force, io).0.batches)
  {
    hide EncodeAll;
    hide BufferSize;
    FlushKeeps(s, force, io);
    BufferSizeExact(s.index);
  }

  lemma StepFull(s: State, c: Call)
    requires WellRun(s) && Supplied(c)
    ensures WellRun(Step(s, c).0)
  {
    hide EncodeAll;
    hide History;
    hide BufferSize;
    StepKeeps(s, c);
    if c.Buffer? {
      BufferKeeps(s, c.entry);
      FlushFull(BufferConcrete(s, c.entry).0, 0, c.io);
    } else if c.Flush? {
      FlushFull(s, c.force, c.io);
    } else if c.Shutdown? {
      FlushFull(s, 1, c.io);
    }
  }

  lemma StepAccepts(s: State, calls: seq<Call>, c: Call)
    requires WellRun(s) && Supplied(c) && s.inited == Up(calls) && s.accepted == Given(calls)
    ensures Step(s, c).0.inited == Up(calls + [c]) && Step(s, c).0.accepted == Given(calls + [c])
  {
    hide EncodeAll;
    hide History;
    hide BufferSize;
    StepFull(s, c);
    assert (calls + [c])[..|calls|] == calls;
    match c
    case Init(max, mode, startup) => InitKeeps(s, max, mode, startup);
    case Buffer(e, io) =>
      BufferKeeps(s, e);
      FlushKeeps(BufferConcrete(s, e).0, 0, io);
    case Flush(force, io) => FlushKeeps(s, force, io);
    case Shutdown(io) => ShutdownKeeps(s, io);
  }

  lemma {:induction false} SuppliedRun(calls: seq<Call>)
    requires forall i :: 0 <= i < |calls| ==> Supplied(calls[i])
    ensures var s := Run(INITIAL, calls); WellRun(s) && s.inited == Up(calls) && s.accepted == Given(calls)
  {
    hide EncodeAll;
    hide Step;
    hide Supplied;
    if calls != [] {
      var init, c := calls[..|calls| - 1], calls[|calls| - 1];
      SuppliedRun(init);
      StepFull(Run(INITIAL, init), c);
      StepAccepts(Run(INITIAL, init), init, c);
      assert init + [c] == calls;
    }
  }

  /**
    * Over every sequence of calls that the system serves completely, the log and the array hold the records handed over,
    * each once and in order; while the logger is down, the log alone does.
    */
  lemma NothingLost(calls: seq<Call>)
    requires forall i :: 0 <= i < |calls| ==> Supplied(calls[i])
    ensures var s := Run(INITIAL, calls);
            !s.fault && DecodeAll(s.output) + Pending(s) == Given(calls) &&
            (!Up(calls) ==> DecodeAll(s.output) == Given(calls))
  {
    hide EncodeAll;
    hide DecodeAll;
    hide Run;
    SuppliedRun(calls);
    var s := Run(INITIAL, calls);
    Conservation(s);
    if !Up(calls) {
      assert Pending(s) == [];
      assert DecodeAll(s.output) + [] == DecodeAll(s.output);
    }
  }
}
