/** The run-time logger: its global variables, and its operations as one critical section each. */
module Logger {
  import opened Text
  import opened LogCodec

  /** What `clam_prov_records` points to. */
  datatype Memory = Null | Live(slots: seq<Record>) | Dangling

  /** `clam_prov_logger_output_fd`: below zero, a descriptor that is not the log's, or the open log. */
  datatype Descriptor = Invalid | Stale | Opened

  /** What one flush took out of the record array, and the bytes of it that reached the log. */
  datatype Batch = Batch(records: seq<Record>, written: seq<byte>)

  /** `fault` says that memory was misused; `accepted` and `batches` are the history of the calls. */
  datatype State = State(inited: bool, max: int32, memory: Memory, index: nat, fd: Descriptor, output: seq<byte>,
                         strayCloses: nat, fault: bool, accepted: seq<Record>, batches: seq<Batch>)

  /** The globals' values when the program starts: the descriptor variable names file 0. */
  const INITIAL := State(false, 0, Null, 0, Stale, [], 0, false, [], [])

  /** The records in the array that no flush has taken. */
  function Pending(s: State): seq<Record> {
    if s.memory.Live? && s.index <= |s.memory.slots| then s.memory.slots[..s.index] else []
  }

  // ---- Storing a record ----

  /** The arguments of a buffer call, with the clock and the thread id the logger reads itself. */
  datatype Entry = Entry(time: uint64, tid: int32, callSiteId: int64, exit: int64, name: Option<seq<byte>>)

  /** The slot as it is left: without a name, four fields are new and the name is the old one. */
  function Filled(e: Entry, slot: Record): Record {
    var name := NameBytes(e.name);
    Record(e.time, e.tid, e.callSiteId, e.exit, if name.Some? then name.value else slot.name)
  }

  /** `clam_prov_logging_buffer_concrete`. */
  function BufferConcrete(s: State, e: Entry): (State, int) {
    if !s.inited then (s, 0)
    else if !s.memory.Live? || s.index >= |s.memory.slots| then (s.(fault := true), 0)
    else
      var r := Filled(e, s.memory.slots[s.index]);
      var stored := s.(memory := Live(s.memory.slots[s.index := r]));
      if NameBytes(e.name).None? then (stored, 0)
      else (stored.(index := s.index + 1, accepted := s.accepted + [r]), 1)
  }

  // ---- Flushing ----

  /** What the system answers during a flush; `leftover` is the value of `written_bytes` if nothing assigns it. */
  datatype Io = Io(malloc: bool, written: int, leftover: int)

  /** The value `write` returns for a buffer of `size` bytes. */
  function Written(io: Io, size: nat): int {
    if io.written < 0 then -1 else if io.written > size then size else io.written
  }

  /** The number of bytes that reach the log. */
  function Bytes(io: Io, size: nat): (n: nat)
    ensures n <= size
  {
    if Written(io, size) < 0 then 0 else Written(io, size)
  }

  /** The temporary buffer exists: a negative size is a huge one to `malloc`. */
  predicate Allocated(s: State, io: Io) {
    io.malloc && BufferSize(s.index) >= 0
  }

  /** Copying the records would leave the temporary buffer or the record array. */
  predicate Overruns(s: State) {
    !s.memory.Live? || s.index > |s.memory.slots| || BufferSize(s.index) < RECORD_SIZE * s.index
  }

  /** The flush proper: whatever happens, the array is empty afterwards. */
  function TakeBatch(s: State, io: Io): (State, int) {
    var size := BufferSize(s.index);
    if !Allocated(s, io) then
      (s.(index := 0, batches := s.batches + [Batch(Pending(s), [])]), if size != io.leftover then 0 else 1)
    else if Overruns(s) then (s.(fault := true), 0)
    else
      var bytes := EncodeAll(Pending(s))[..Bytes(io, size)];
      (s.(index := 0, output := s.output + bytes, batches := s.batches + [Batch(Pending(s), bytes)]),
       if size != Written(io, size) then 0 else 1)
  }

  /** `clam_prov_logging_check_and_flush_concrete`. */
  function FlushConcrete(s: State, force: int, io: Io): (State, int) {
    if !s.inited then (s, 0)
    else if s.index == 0 then (s, 1)
    else if force == 1 || s.index >= s.max then TakeBatch(s, io)
    else (s, 1)
  }

  // ---- Start and end ----

  /** How opening the log goes: it is given up before `open`, `open` refuses, or it succeeds. */
  datatype Opening = Abandoned | Refused | Succeeds

  /** The fresh array's old contents, if `malloc` delivers, and how opening goes. */
  datatype Startup = Startup(block: Option<seq<Record>>, opening: Opening)

  const OUTPUT_FILE: int := 0
  const OUTPUT_PIPE: int := 1

  /** `clam_prov_open_output`: an unknown mode is given up at once. */
  function Outcome(mode: int, opening: Opening): Opening {
    if mode == OUTPUT_FILE || mode == OUTPUT_PIPE then opening else Abandoned
  }

  /** `malloc` delivers an array of the size asked for. */
  predicate Answers(max: int, a: Startup) {
    a.block.Some? ==> |a.block.value| == max
  }

  /** `clam_prov_do_cleanup`: neither variable is reset. */
  function Cleanup(s: State): State {
    if s.memory.Dangling? then s.(fault := true)
    else
      s.(memory := if s.memory.Live? then Dangling else Null,
         fd := if s.fd.Invalid? then Invalid else Stale,
         strayCloses := s.strayCloses + if s.fd.Stale? then 1 else 0)
  }

  /** `clam_prov_logging_init_concrete`. */
  function InitConcrete(s: State, max: int32, mode: int, a: Startup): (State, int) {
    if s.inited then (s, 0)
    else
      var sized := s.(max := max);
      if max < 1 then (Cleanup(sized), 0)
      else if a.block.None? then (Cleanup(sized.(memory := Null)), 0)
      else
        var live := sized.(memory := Live(a.block.value));
        match Outcome(mode, a.opening)
        case Abandoned => (Cleanup(live), 0)
        case Refused => (Cleanup(live.(fd := Invalid)), 0)
        case Succeeds => (live.(fd := Opened, inited := true), 1)
  }

  /** `clam_prov_logging_shutdown_concrete`, flushing without taking the lock a second time. */
  function ShutdownConcrete(s: State, io: Io): (State, int) {
    if !s.inited then (s, 0)
    else
      var flushed := FlushConcrete(s, 1, io).0;
      if flushed.fault then (flushed, 0)
      else
        var cleaned := Cleanup(flushed);
        if cleaned.fault then (cleaned, 0) else (cleaned.(inited := false), 1)
  }

  // ---- The interface ----

  datatype Call =
    | Init(max: int32, mode: int, startup: Startup)
    | Buffer(entry: Entry, io: Io)
    | Flush(force: int, io: Io)
    | Shutdown(io: Io)

  /** A whole call of one thread; after a fault nothing is known, and nothing happens here. */
  function Step(s: State, c: Call): (State, int) {
    if s.fault then (s, 0)
    else
      match c
      case Init(max, mode, startup) => InitConcrete(s, max, mode, startup)
      case Buffer(e, io) =>
        var (stored, result) := BufferConcrete(s, e);
        if stored.fault then (stored, 0) else
          var flushed := FlushConcrete(stored, 0, io).0;
          (flushed, if flushed.fault then 0 else result)
      case Flush(force, io) => FlushConcrete(s, force, io)
      case Shutdown(io) => ShutdownConcrete(s, io)
  }

  predicate Answered(c: Call) {
    c.Init? ==> Answers(c.max, c.startup)
  }

  function Run(s: State, calls: seq<Call>): State {
    if calls == [] then s else Step(Run(s, calls[..|calls| - 1]), calls[|calls| - 1]).0
  }

  lemma SizeNeverMore(total: nat)
    ensures BufferSize(total) <= RECORD_SIZE * total
  {
  }
}
