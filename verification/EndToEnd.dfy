/** From a run of the program to the records the reader finds in its log. */
module EndToEnd {
  import opened Text
  import opened Ir
  import opened Semantics
  import opened LogCodec
  import opened WrapMeaning
  import opened AddLogging
  import opened ExactLogging
  import opened LoggerSession
  import opened Pipeline
  import opened PipelineLog
  import T = TagResults
  import M = Metadata
  import L = Logger
  import C = Lifecycle
  import W = ConcurrentLogger
  import R = ConcurrentRuns
  import B = ConcurrentLog

  // ---- The calls a run makes, as the logger receives them ----

  /** What the system contributes: the answers to the start, the clock, the thread's id and the answers to flushes. */
  datatype System = System(startup: L.Startup, clock: nat -> uint64, tid: int32, io: nat -> L.Io)

  predicate IsCChar(c: char) {
    0 < c as int < 256
  }

  function ByteOf(c: char): (b: byte)
    requires IsCChar(c)
    ensures b as int == c as int && b != 0
  {
    c as int
  }

  /** A C string's bytes. */
  function Bytes(s: string): (bs: seq<byte>)
    requires forall i :: 0 <= i < |s| ==> IsCChar(s[i])
    ensures |bs| == |s| && forall i :: 0 <= i < |bs| ==> bs[i] as int == s[i] as int && bs[i] != 0
  {
    seq(|s|, i requires 0 <= i < |s| => ByteOf(s[i]))
  }

  /** A buffer call whose arguments are two 64-bit integers and a C string. */
  predicate Loggable(e: Event) {
    && e.Logger? && e.fn == LOG_BUFFER && |e.args| == 4
    && e.args[1].Num? && M.IsInt64(e.args[1].n) && e.args[2].Num? && M.IsInt64(e.args[2].n)
    && e.args[3].Str? && e.args[3].s != "" && forall i :: 0 <= i < |e.args[3].s| ==> IsCChar(e.args[3].s[i])
  }

  function EntryOf(e: Event, time: uint64, tid: int32): L.Entry
    requires Loggable(e)
  {
    L.Entry(time, tid, e.args[1].n, e.args[2].n, Some(Bytes(e.args[3].s)))
  }

  /** The record that stands for a logged call. */
  function RecordOf(e: Event, time: uint64, tid: int32): Record
    requires Loggable(e)
  {
    NameRoundTrip(Bytes(e.args[3].s));
    Record(time, tid, e.args[1].n, e.args[2].n, NameBytes(Some(Bytes(e.args[3].s))).value)
  }

  predicate Received(e: Event) {
    Loggable(e) ||
    (e.Logger? && e.fn == LOG_INIT && |e.args| == 3 && e.args[1].Num? && e.args[2].Num? &&
     -0x8000_0000 <= e.args[1].n < 0x8000_0000) ||
    (e.Logger? && e.fn == LOG_SHUTDOWN)
  }

  function CallOf(e: Event, sys: System, k: nat): L.Call
    requires Received(e)
  {
    if Loggable(e) then L.Call.Buffer(EntryOf(e, sys.clock(k), sys.tid), sys.io(k))
    else if e.fn == LOG_SHUTDOWN then L.Call.Shutdown(sys.io(k))
    else L.Call.Init(e.args[1].n, e.args[2].n, sys.startup)
  }

  /** The program's logger calls, handed to the logger one after the other. */
  function Drive(events: seq<Event>, sys: System): (calls: seq<L.Call>)
    requires forall k :: 0 <= k < |events| ==> Received(events[k])
    ensures |calls| == |events| && forall k :: 0 <= k < |events| ==> calls[k] == CallOf(events[k], sys, k)
  {
    seq(|events|, k requires 0 <= k < |events| => CallOf(events[k], sys, k))
  }

  /** Memory is there, the log opens, and writes are whole. */
  ghost predicate Serves(sys: System, maxRecords: int) {
    && sys.startup.block.Some? && |sys.startup.block.value| == maxRecords && sys.startup.opening == L.Succeeds
    && forall k: nat :: sys.io(k).malloc && sys.io(k).written >= RECORD_SIZE * MAX_TOTAL
  }

  // ---- One session of the logger ----

  function Session(maxRecords: int, outputMode: int, logs: seq<Event>): seq<Event> {
    [InitEvent(maxRecords, outputMode)] + logs + [ShutdownEvent()]
  }

  predicate Settings(maxRecords: int, outputMode: int) {
    1 <= maxRecords <= MAX_TOTAL && 0 <= outputMode <= 1
  }

  predicate AllLoggable(logs: seq<Event>) {
    forall k :: 0 <= k < |logs| ==> Loggable(logs[k])
  }

  function Records(logs: seq<Event>, sys: System): (rs: seq<Record>)
    requires AllLoggable(logs)
    ensures |rs| == |logs| && forall k :: 0 <= k < |logs| ==> rs[k] == RecordOf(logs[k], sys.clock(k + 1), sys.tid)
  {
    seq(|logs|, k requires 0 <= k < |logs| => RecordOf(logs[k], sys.clock(k + 1), sys.tid))
  }

  lemma SessionReceived(maxRecords: int, outputMode: int, logs: seq<Event>)
    requires Settings(maxRecords, outputMode) && AllLoggable(logs)
    ensures forall k :: 0 <= k < |Session(maxRecords, outputMode, logs)| ==> Received(Session(maxRecords, outputMode, logs)[k])
    ensures !Loggable(InitEvent(maxRecords, outputMode)) && !Loggable(ShutdownEvent()) && LOG_INIT != LOG_SHUTDOWN
  {
    hide Loggable;
    NoReservedMix();
    NotBuffers(maxRecords, outputMode);
  }

  lemma NotBuffers(maxRecords: int, outputMode: int)
    ensures !Loggable(InitEvent(maxRecords, outputMode)) && !Loggable(ShutdownEvent())
  {
    NoReservedMix();
  }

  lemma CallsInSession(maxRecords: int, outputMode: int, logs: seq<Event>, sys: System, k: nat)
    requires Settings(maxRecords, outputMode) && AllLoggable(logs) && k < |logs| + 2 && Serves(sys, maxRecords)
    requires forall i :: 0 <= i < |Session(maxRecords, outputMode, logs)| ==> Received(Session(maxRecords, outputMode, logs)[i])
    ensures var c := Drive(Session(maxRecords, outputMode, logs), sys)[k];
            C.Supplied(c) &&
            if k == 0 then c == L.Call.Init(maxRecords, outputMode, sys.startup)
            else if k == |logs| + 1 then c == L.Call.Shutdown(sys.io(k))
            else c == L.Call.Buffer(EntryOf(logs[k - 1], sys.clock(k), sys.tid), sys.io(k))
  {
    hide Loggable;
    SessionReceived(maxRecords, outputMode, logs);
    var events := Session(maxRecords, outputMode, logs);
    assert events[k] == if k == 0 then InitEvent(maxRecords, outputMode) else if k == |logs| + 1 then ShutdownEvent() else logs[k - 1];
  }

  /** A buffer call with a loggable entry hands its record to a logger that is up. */
  lemma GivenOne(calls: seq<L.Call>, e: Event, time: uint64, tid: int32, io: L.Io)
    requires Loggable(e) && C.Up(calls)
    ensures var c := L.Call.Buffer(EntryOf(e, time, tid), io);
            C.Up(calls + [c]) && C.Given(calls + [c]) == C.Given(calls) + [RecordOf(e, time, tid)]
  {
    hide NameBytes;
    hide Bytes;
    NamePresent(e);
    var c := L.Call.Buffer(EntryOf(e, time, tid), io);
    assert (calls + [c])[..|calls|] == calls;
  }

  lemma GivenFirst(maxRecords: int, outputMode: int, sys: System)
    requires Settings(maxRecords, outputMode) && Serves(sys, maxRecords)
    ensures var calls := [L.Call.Init(maxRecords, outputMode, sys.startup)]; C.Up(calls) && C.Given(calls) == []
  {
    Opens(maxRecords, outputMode, sys);
    var calls := [L.Call.Init(maxRecords, outputMode, sys.startup)];
    assert calls[..0] == [];
  }

  /** In the middle of the session the logger is up and has been given the records logged so far. */
  lemma {:induction false} GivenSoFar(maxRecords: int, outputMode: int, logs: seq<Event>, sys: System, k: nat)
    requires Settings(maxRecords, outputMode) && AllLoggable(logs) && k <= |logs| && Serves(sys, maxRecords)
    requires forall i :: 0 <= i < |Session(maxRecords, outputMode, logs)| ==> Received(Session(maxRecords, outputMode, logs)[i])
    ensures var calls := Drive(Session(maxRecords, outputMode, logs), sys)[..k + 1];
            C.Up(calls) && C.Given(calls) == Records(logs, sys)[..k]
  {
    hide Loggable;
    hide Session;
    hide Settings;
    hide Serves;
    hide Drive;
    hide CallOf;
    hide C.Supplied;
    hide C.Up;
    hide C.Given;
    hide EntryOf;
    hide RecordOf;
    var calls := Drive(Session(maxRecords, outputMode, logs), sys);
    SessionLength(maxRecords, outputMode, logs);
    CallsInSession(maxRecords, outputMode, logs, sys, k);
    assert calls[..k + 1] == calls[..k] + [calls[k]];
    if k == 0 {
      assert calls[..1] == [L.Call.Init(maxRecords, outputMode, sys.startup)] && Records(logs, sys)[..0] == [];
      GivenFirst(maxRecords, outputMode, sys);
    } else {
      GivenSoFar(maxRecords, outputMode, logs, sys, k - 1);
      GivenOne(calls[..k], logs[k - 1], sys.clock(k), sys.tid, sys.io(k));
      assert Records(logs, sys)[..k] == Records(logs, sys)[..k - 1] + [Records(logs, sys)[k - 1]];
    }
  }

  lemma Opens(maxRecords: int, outputMode: int, sys: System)
    requires Settings(maxRecords, outputMode) && Serves(sys, maxRecords)
    ensures L.Outcome(outputMode, sys.startup.opening).Succeeds? && sys.startup.block.Some?
  {
  }

  lemma NamePresent(e: Event)
    requires Loggable(e)
    ensures NameBytes(Some(Bytes(e.args[3].s))).Some?
  {
    NameRoundTrip(Bytes(e.args[3].s));
  }

  lemma SessionLength(maxRecords: int, outputMode: int, logs: seq<Event>)
    ensures |Session(maxRecords, outputMode, logs)| == |logs| + 2
  {
  }

  lemma SessionDelivers(maxRecords: int, outputMode: int, logs: seq<Event>, sys: System)
    requires Settings(maxRecords, outputMode) && AllLoggable(logs) && Serves(sys, maxRecords)
    requires forall i :: 0 <= i < |Session(maxRecords, outputMode, logs)| ==> Received(Session(maxRecords, outputMode, logs)[i])
    ensures var s := L.Run(L.INITIAL, Drive(Session(maxRecords, outputMode, logs), sys));
            !s.fault && DecodeAll(s.output) == Records(logs, sys)
  {
    hide Loggable;
    hide Session;
    hide Settings;
    hide Serves;
    hide Drive;
    hide CallOf;
    hide Records;
    hide DecodeAll;
    hide L.Run;
    hide C.Supplied;
    var calls := Drive(Session(maxRecords, outputMode, logs), sys);
    var n := |logs|;
    SessionLength(maxRecords, outputMode, logs);
    forall k | 0 <= k < |calls|
      ensures C.Supplied(calls[k])
    {
      CallsInSession(maxRecords, outputMode, logs, sys, k);
    }
    CallsInSession(maxRecords, outputMode, logs, sys, n + 1);
    GivenSoFar(maxRecords, outputMode, logs, sys, n);
    assert calls[..|calls| - 1] == calls[..n + 1];
    assert Records(logs, sys)[..n] == Records(logs, sys);
    C.NothingLost(calls);
  }

  // ---- The theorem ----

  /**
    * The log of a finished run of the instrumented program, if the system serves the logger and shutdown flushes without
    * taking the lock a second time: its records are, in order, the annotated calls that completed in a run of the program
    * itself, each with its id, its result and its callee.
    */
  lemma LogHoldsCompletedCalls(m: seq<Function>, first: nat, oracle: T.Oracle, maxRecords: int, outputMode: int,
                               env: Environment, args: seq<Value>, n: nat, sys: System) returns (k: nat)
    requires Program(m) && StartsInMain(m) && NoWrapperTargets(env, first) && forall v :: env.target(v) != MAIN
    requires Settings(maxRecords, outputMode) && Serves(sys, maxRecords)
    requires Run(Final(m, first, oracle, maxRecords, outputMode), env, Start(MAIN, args), n).stack.Empty?
    requires AllLoggable(LogsOf(Run(Final(m, first, oracle, maxRecords, outputMode), env, Start(MAIN, args), n).trace))
    ensures var s := Run(Final(m, first, oracle, maxRecords, outputMode), env, Start(MAIN, args), n);
            var own := Run(m, env, Start(MAIN, args), k);
            var completed := LogsOf(ProgramEvents(own.trace));
            && Observe(own) == Observe(s)
            && AllLoggable(completed) && (forall i :: 0 <= i < |LoggerCalls(s.trace)| ==> Received(LoggerCalls(s.trace)[i]))
            && var log := L.Run(L.INITIAL, Drive(LoggerCalls(s.trace), sys));
               !log.fault && DecodeAll(log.output) == Records(completed, sys)
  {
    hide Program;
    hide StartsInMain;
    hide Final;
    hide Run;
    hide LogsOf;
    hide LoggerCalls;
    hide ProgramEvents;
    hide NoWrapperTargets;
    hide Loggable;
    hide Settings;
    hide Serves;
    hide Received;
    hide Drive;
    hide Records;
    hide DecodeAll;
    hide L.Run;
    var s := Run(Final(m, first, oracle, maxRecords, outputMode), env, Start(MAIN, args), n);
    k := FinishedLog(m, first, oracle, maxRecords, outputMode, env, args, n);
    LogsAgree(m, first, oracle, maxRecords, outputMode, env, args, n, k);
    var completed := LogsOf(ProgramEvents(Run(m, env, Start(MAIN, args), k).trace));
    assert LoggerCalls(s.trace) == Session(maxRecords, outputMode, completed);
    SessionReceived(maxRecords, outputMode, completed);
    SessionDelivers(maxRecords, outputMode, completed, sys);
  }

  lemma LogsAgree(m: seq<Function>, first: nat, oracle: T.Oracle, maxRecords: int, outputMode: int, env: Environment,
                  args: seq<Value>, n: nat, k: nat)
    requires Program(m)
    requires Observe(Run(m, env, Start(MAIN, args), k)) ==
             Observe(Run(Final(m, first, oracle, maxRecords, outputMode), env, Start(MAIN, args), n))
    ensures LogsOf(Run(Final(m, first, oracle, maxRecords, outputMode), env, Start(MAIN, args), n).trace) ==
            LogsOf(ProgramEvents(Run(m, env, Start(MAIN, args), k).trace))
  {
    hide Program;
    hide Final;
    hide Run;
    hide LogsOf;
    hide ProgramEvents;
    hide PlainWrapperCalls;
    var fs := Final(m, first, oracle, maxRecords, outputMode);
    FinalDiscipline(m, first, oracle, maxRecords, outputMode);
    PlainRun(fs, env, MAIN, args, n);
    LogsOfProgram(Run(fs, env, Start(MAIN, args), n).trace);
  }

  // ---- How much of the log is written ----

  lemma ModNext(j: nat, max: nat)
    requires max > 0
    ensures j % max < max && (j + 1) % max == if j % max + 1 == max then 0 else j % max + 1
  {
    var q, r := j / max, j % max;
    assert j == q * max + r;
    if r + 1 == max {
      assert j + 1 == (q + 1) * max;
      DivisionUnique(j + 1, q + 1, 0, max);
    } else {
      assert j + 1 == q * max + (r + 1);
      DivisionUnique(j + 1, q, r + 1, max);
    }
  }

  lemma DivisionUnique(x: nat, q: nat, r: nat, max: nat)
    requires r < max && x == q * max + r
    ensures x % max == r
  {
    var q1, r1 := x / max, x % max;
    assert x == q1 * max + r1;
    if q1 < q {
      MultipleAbove(q1, q, max);
    } else if q < q1 {
      MultipleAbove(q, q1, max);
    }
  }

  lemma {:induction false} MultipleAbove(a: nat, b: nat, max: nat)
    requires a < b
    ensures a * max + max <= b * max
    decreases b
  {
    assert b * max == (b - 1) * max + max;
    if a < b - 1 {
      MultipleAbove(a, b - 1, max);
    }
  }

  /** A buffer call of a served logger adds one to the index, or flushes the array it has filled. */
  lemma IndexNext(s: L.State, e: L.Entry, io: L.Io)
    requires C.WellRun(s) && s.inited && NameBytes(e.name).Some?
    requires io.malloc && io.written >= RECORD_SIZE * MAX_TOTAL
    ensures var after := L.Step(s, L.Call.Buffer(e, io)).0;
            after.inited && after.max == s.max && after.index == if s.index + 1 == s.max then 0 else s.index + 1
  {
    hide EncodeAll;
    hide C.History;
    hide BufferSize;
    C.StepFull(s, L.Call.Buffer(e, io));
    C.BufferKeeps(s, e);
    var stored := L.BufferConcrete(s, e).0;
    C.FlushKeeps(stored, 0, io);
  }

  lemma FirstIndex(maxRecords: int, outputMode: int, sys: System)
    requires Settings(maxRecords, outputMode) && Serves(sys, maxRecords)
    ensures var s := L.Step(L.INITIAL, L.Call.Init(maxRecords, outputMode, sys.startup)).0;
            s.inited && s.max == maxRecords && s.index == 0
  {
    hide EncodeAll;
    C.InitialValid();
    C.InitKeeps(L.INITIAL, maxRecords, outputMode, sys.startup);
  }

  ghost predicate SessionReceivable(maxRecords: int, outputMode: int, logs: seq<Event>) {
    forall i :: 0 <= i < |Session(maxRecords, outputMode, logs)| ==> Received(Session(maxRecords, outputMode, logs)[i])
  }

  /** After `j` buffer calls the array holds as many records as do not fill it. */
  lemma {:induction false} IndexSoFar(maxRecords: int, outputMode: int, logs: seq<Event>, sys: System, j: nat)
    requires Settings(maxRecords, outputMode) && AllLoggable(logs) && j <= |logs| && Serves(sys, maxRecords)
    requires SessionReceivable(maxRecords, outputMode, logs)
    ensures var s := L.Run(L.INITIAL, Drive(Session(maxRecords, outputMode, logs), sys)[..j + 1]);
            s.inited && s.max == maxRecords && s.index == j % maxRecords
  {
    hide Loggable;
    hide Session;
    hide Serves;
    hide Drive;
    hide CallOf;
    hide L.Step;
    hide NameBytes;
    hide Bytes;
    hide C.WellRun;
    hide C.Supplied;
    var calls := Drive(Session(maxRecords, outputMode, logs), sys);
    SessionLength(maxRecords, outputMode, logs);
    CallsInSession(maxRecords, outputMode, logs, sys, j);
    assert calls[..j + 1] == calls[..j] + [calls[j]];
    C.RunSnoc(L.INITIAL, calls[..j], calls[j]);
    if j == 0 {
      assert calls[..0] == [];
      FirstIndex(maxRecords, outputMode, sys);
    } else {
      IndexSoFar(maxRecords, outputMode, logs, sys, j - 1);
      WellSoFar(maxRecords, outputMode, logs, sys, j);
      NamePresent(logs[j - 1]);
      Served(sys, maxRecords, j);
      IndexNext(L.Run(L.INITIAL, calls[..j]), EntryOf(logs[j - 1], sys.clock(j), sys.tid), sys.io(j));
      ModNext(j - 1, maxRecords);
    }
  }

  lemma Served(sys: System, maxRecords: int, k: nat)
    requires Serves(sys, maxRecords)
    ensures sys.io(k).malloc && sys.io(k).written >= RECORD_SIZE * MAX_TOTAL
  {
  }

  lemma WellSoFar(maxRecords: int, outputMode: int, logs: seq<Event>, sys: System, j: nat)
    requires Settings(maxRecords, outputMode) && AllLoggable(logs) && j <= |logs| + 1 && Serves(sys, maxRecords)
    requires SessionReceivable(maxRecords, outputMode, logs)
    ensures var calls := Drive(Session(maxRecords, outputMode, logs), sys)[..j]; var s := L.Run(L.INITIAL, calls);
            C.WellRun(s) && s.accepted == C.Given(calls)
  {
    hide Loggable;
    hide Session;
    hide Settings;
    hide Serves;
    hide Drive;
    hide CallOf;
    hide L.Run;
    hide C.WellRun;
    hide C.Supplied;
    hide C.Given;
    var calls := Drive(Session(maxRecords, outputMode, logs), sys);
    SessionLength(maxRecords, outputMode, logs);
    forall k | 0 <= k < j
      ensures C.Supplied(calls[..j][k])
    {
      CallsInSession(maxRecords, outputMode, logs, sys, k);
    }
    C.SuppliedRun(calls[..j]);
  }

  lemma WellRunParts(s: L.State)
    requires C.WellRun(s)
    ensures !s.fault && C.History(s) && C.AllFull(s.batches) && (s.inited ==> |L.Pending(s)| == s.index)
  {
    hide EncodeAll;
  }

  /** After `j` buffer calls the log holds the batches that were full, and the array the records behind them. */
  lemma LogSoFar(maxRecords: int, outputMode: int, logs: seq<Event>, sys: System, j: nat)
    requires Settings(maxRecords, outputMode) && AllLoggable(logs) && j <= |logs| && Serves(sys, maxRecords)
    requires SessionReceivable(maxRecords, outputMode, logs)
    ensures var s := L.Run(L.INITIAL, Drive(Session(maxRecords, outputMode, logs), sys)[..j + 1]);
            && s.inited && !s.fault && j % maxRecords <= j
            && DecodeAll(s.output) == Records(logs, sys)[..j - j % maxRecords]
            && L.Pending(s) == Records(logs, sys)[j - j % maxRecords..j]
  {
    hide Loggable;
    hide Session;
    hide Serves;
    hide Drive;
    hide DecodeAll;
    hide L.Run;
    hide L.Pending;
    hide C.WellRun;
    hide C.Given;
    hide C.History;
    SessionLength(maxRecords, outputMode, logs);
    var s := L.Run(L.INITIAL, Drive(Session(maxRecords, outputMode, logs), sys)[..j + 1]);
    IndexSoFar(maxRecords, outputMode, logs, sys, j);
    WellSoFar(maxRecords, outputMode, logs, sys, j + 1);
    GivenSoFar(maxRecords, outputMode, logs, sys, j);
    WellRunParts(s);
    C.Conservation(s);
    ModSmall(j, maxRecords);
    Tail(DecodeAll(s.output), L.Pending(s), Records(logs, sys)[..j], j % maxRecords);
    assert Records(logs, sys)[..j][..j - j % maxRecords] == Records(logs, sys)[..j - j % maxRecords];
    assert Records(logs, sys)[..j][j - j % maxRecords..] == Records(logs, sys)[j - j % maxRecords..j];
  }

  lemma ModSmall(j: nat, max: nat)
    requires max > 0
    ensures j % max <= j
  {
    if j < max {
      DivisionUnique(j, 0, j, max);
    }
  }

  lemma Tail<T>(a: seq<T>, b: seq<T>, whole: seq<T>, n: nat)
    requires a + b == whole && |b| == n
    ensures |whole| >= n && a == whole[..|whole| - n] && b == whole[|whole| - n..]
  {
  }

  // ---- The log at every moment ----

  /** The session without its last call. */
  function Opened(maxRecords: int, outputMode: int, logs: seq<Event>): seq<Event> {
    [InitEvent(maxRecords, outputMode)] + logs
  }

  ghost predicate AllReceived(events: seq<Event>) {
    forall i :: 0 <= i < |events| ==> Received(events[i])
  }

  lemma OpenedIs(maxRecords: int, outputMode: int, logs: seq<Event>, sys: System, j: nat)
    requires Settings(maxRecords, outputMode) && AllLoggable(logs) && j <= |logs|
    ensures AllReceived(Opened(maxRecords, outputMode, logs[..j])) && SessionReceivable(maxRecords, outputMode, logs)
    ensures j + 1 <= |Session(maxRecords, outputMode, logs)|
    ensures Drive(Opened(maxRecords, outputMode, logs[..j]), sys) == Drive(Session(maxRecords, outputMode, logs), sys)[..j + 1]
  {
    hide Received;
    hide CallOf;
    hide Loggable;
    SessionReceived(maxRecords, outputMode, logs);
    var before, whole := Opened(maxRecords, outputMode, logs[..j]), Session(maxRecords, outputMode, logs);
    assert before == whole[..j + 1];
    assert Drive(before, sys) == Drive(whole, sys)[..j + 1];
  }

  /** The logger holds the first `j` records: the full arrays of them in the log, the others in the array. */
  ghost predicate HoldsFirst(log: L.State, records: seq<Record>, j: nat, max: nat)
    requires max > 0
  {
    && log.inited && !log.fault && j % max <= j <= |records|
    && DecodeAll(log.output) == records[..j - j % max] && L.Pending(log) == records[j - j % max..j]
  }

  lemma OpenedLog(maxRecords: int, outputMode: int, logs: seq<Event>, sys: System, j: nat)
    requires Settings(maxRecords, outputMode) && AllLoggable(logs) && Serves(sys, maxRecords) && j <= |logs|
    ensures AllReceived(Opened(maxRecords, outputMode, logs[..j]))
    ensures HoldsFirst(L.Run(L.INITIAL, Drive(Opened(maxRecords, outputMode, logs[..j]), sys)), Records(logs, sys), j, maxRecords)
  {
    hide Loggable;
    hide Session;
    hide Opened;
    hide Serves;
    hide Drive;
    hide DecodeAll;
    hide L.Run;
    hide L.Pending;
    OpenedIs(maxRecords, outputMode, logs, sys, j);
    LogSoFar(maxRecords, outputMode, logs, sys, j);
  }

  /**
    * At every moment of every run from `main` before its shutdown, and so also in a run that never ends: with `j` buffer
    * calls made, the log decodes to the first completed calls of a run of the program up to the last full array, the array
    * holds the others of the first `j`, and at most one more call has completed.
    */
  lemma LogAtEveryMoment(m: seq<Function>, first: nat, oracle: T.Oracle, maxRecords: int, outputMode: int, env: Environment,
                         args: seq<Value>, n: nat, sys: System) returns (k: nat)
    requires Program(m) && StartsInMain(m) && NoWrapperTargets(env, first) && forall v :: env.target(v) != MAIN
    requires Settings(maxRecords, outputMode) && Serves(sys, maxRecords) && n > 0
    requires var s := Run(Final(m, first, oracle, maxRecords, outputMode), env, Start(MAIN, args), n);
             ShutdownEvent() !in LoggerCalls(s.trace) && AllLoggable(LogsOf(s.trace))
    ensures var s := Run(Final(m, first, oracle, maxRecords, outputMode), env, Start(MAIN, args), n);
            var own := Run(m, env, Start(MAIN, args), k);
            var completed, j := LogsOf(ProgramEvents(own.trace)), |BufferCalls(s.trace)|;
            && Observe(own) == Observe(s) && AllLoggable(completed) && j <= |completed| <= j + 1
            && AllReceived(LoggerCalls(s.trace))
            && HoldsFirst(L.Run(L.INITIAL, Drive(LoggerCalls(s.trace), sys)), Records(completed, sys), j, maxRecords)
  {
    hide Program;
    hide StartsInMain;
    hide Final;
    hide Run;
    hide LogsOf;
    hide LoggerCalls;
    hide BufferCalls;
    hide ProgramEvents;
    hide NoWrapperTargets;
    hide Loggable;
    hide Serves;
    hide Drive;
    hide HoldsFirst;
    hide AllReceived;
    hide L.Run;
    hide SessionOk;
    hide Placed;
    hide PlainWrapperCalls;
    var fs := Final(m, first, oracle, maxRecords, outputMode);
    var s := Run(fs, env, Start(MAIN, args), n);
    MainIsFound(m);
    FinalDiscipline(m, first, oracle, maxRecords, outputMode);
    FinalSession(m, first, oracle, maxRecords, outputMode);
    k := RunningLog(m, first, oracle, maxRecords, outputMode, env, MAIN, args, n);
    SessionSoFar(fs, env, args, maxRecords, outputMode, n);
    var completed := LogsOf(ProgramEvents(Run(m, env, Start(MAIN, args), k).trace));
    var j := |BufferCalls(s.trace)|;
    assert BufferCalls(s.trace) == completed[..j];
    OpenedLog(maxRecords, outputMode, completed, sys, j);
  }

  lemma MainIsFound(m: seq<Function>)
    requires StartsInMain(m)
    ensures Find(m, MAIN).Some?
  {
  }

  // ---- Shutdown as it is written ----

  /** The logger as the program has left it, in a world of threads that are outside it. */
  function Outside(log: L.State, threads: nat): W.World {
    W.World(true, log, None, seq(threads, t => W.Idle))
  }

  function Shutting(io: L.Io): seq<W.Action> {
    [W.Begin(0, W.ToShutdown), W.Go(0, io), W.Go(0, io)]
  }

  /** The thread that shuts down blocks, and whatever happens then, the log holds these records and no others. */
  ghost predicate BlocksWith(log: L.State, threads: nat, io: L.Io, actions: seq<W.Action>, logged: seq<Record>) {
    var blocked := W.Execute(Outside(log, threads), Shutting(io));
    && blocked.Some? && B.WaitsForItself(blocked.value, 0)
    && (W.Execute(blocked.value, actions).Some? ==>
          var after := W.Execute(blocked.value, actions).value;
          B.WaitsForItself(after, 0) && DecodeAll(after.logger.output) == logged)
  }

  lemma BlockedLog(log: L.State, threads: nat, io: L.Io, actions: seq<W.Action>)
    requires log.inited && !log.fault && threads > 0
    ensures BlocksWith(log, threads, io, actions, DecodeAll(log.output))
  {
    hide DecodeAll;
    hide W.Execute;
    var w := Outside(log, threads);
    B.DeadlockReached(w, 0, io);
    var blocked := W.Execute(w, Shutting(io)).value;
    assert B.WaitsForItself(blocked, 0) && blocked.logger == w.logger;
    if W.Execute(blocked, actions).Some? {
      B.DeadlockForever(blocked, 0, actions);
      assert B.WaitsForItself(W.Execute(blocked, actions).value, 0);
    }
  }

  /**
    * A run that stands at the shutdown call in `main`, with shutdown as it is written: the call blocks, and whatever any
    * thread does then, the log holds the completed calls of the program up to the last full array and never the others.
    */
  lemma LogAsWritten(m: seq<Function>, first: nat, oracle: T.Oracle, maxRecords: int, outputMode: int, env: Environment,
                     args: seq<Value>, n: nat, sys: System, threads: nat, io: L.Io, actions: seq<W.Action>)
      returns (k: nat)
    requires Program(m) && StartsInMain(m) && NoWrapperTargets(env, first) && forall v :: env.target(v) != MAIN
    requires Settings(maxRecords, outputMode) && Serves(sys, maxRecords) && threads > 0
    requires var fs := Final(m, first, oracle, maxRecords, outputMode); var s := Run(fs, env, Start(MAIN, args), n);
             s.stack.Push? && Fetch(fs, s.stack.top) == Some(ShutdownCall()) && AllLoggable(LogsOf(s.trace))
    ensures var s := Run(Final(m, first, oracle, maxRecords, outputMode), env, Start(MAIN, args), n);
            var own := Run(m, env, Start(MAIN, args), k);
            var completed := LogsOf(ProgramEvents(own.trace));
            && Observe(own) == Observe(s) && AllLoggable(completed) && |completed| % maxRecords <= |completed|
            && AllReceived(LoggerCalls(s.trace))
            && BlocksWith(L.Run(L.INITIAL, Drive(LoggerCalls(s.trace), sys)), threads, io, actions,
                          Records(completed, sys)[..|completed| - |completed| % maxRecords])
  {
    hide Program;
    hide StartsInMain;
    hide Final;
    hide Run;
    hide Fetch;
    hide LogsOf;
    hide LoggerCalls;
    hide BufferCalls;
    hide ProgramEvents;
    hide NoWrapperTargets;
    hide Loggable;
    hide Serves;
    hide Drive;
    hide DecodeAll;
    hide AllReceived;
    hide L.Run;
    hide L.Pending;
    hide BlocksWith;
    hide SessionOk;
    hide Placed;
    hide PlainWrapperCalls;
    var fs := Final(m, first, oracle, maxRecords, outputMode);
    FinalDiscipline(m, first, oracle, maxRecords, outputMode);
    FinalSession(m, first, oracle, maxRecords, outputMode);
    AtShutdown(fs, env, args, maxRecords, outputMode, n);
    k := LogAtEveryMoment(m, first, oracle, maxRecords, outputMode, env, args, n, sys);
    LogsAgree(m, first, oracle, maxRecords, outputMode, env, args, n, k);
    BlockedLog(L.Run(L.INITIAL, Drive(LoggerCalls(Run(fs, env, Start(MAIN, args), n).trace), sys)), threads, io, actions);
  }

  /** Every finished run of the model, where logger calls return, stood at the shutdown call before. */
  lemma FinishedWasThere(m: seq<Function>, first: nat, oracle: T.Oracle, maxRecords: int, outputMode: int, env: Environment,
                         args: seq<Value>, n: nat) returns (k: nat)
    requires Program(m) && StartsInMain(m) && forall v :: env.target(v) != MAIN
    requires Run(Final(m, first, oracle, maxRecords, outputMode), env, Start(MAIN, args), n).stack.Empty?
    ensures k < n
    ensures var fs := Final(m, first, oracle, maxRecords, outputMode); var s := Run(fs, env, Start(MAIN, args), k);
            s.stack.Push? && Fetch(fs, s.stack.top) == Some(ShutdownCall())
  {
    hide Program;
    hide StartsInMain;
    hide Final;
    hide Run;
    hide Fetch;
    hide LogsOf;
    hide LoggerCalls;
    hide SessionOk;
    hide Placed;
    hide PlainWrapperCalls;
    var fs := Final(m, first, oracle, maxRecords, outputMode);
    FinalDiscipline(m, first, oracle, maxRecords, outputMode);
    FinalSession(m, first, oracle, maxRecords, outputMode);
    CompleteSession(fs, env, args, maxRecords, outputMode, n);
    LoggerCallsHas(Run(fs, env, Start(MAIN, args), n).trace, ShutdownEvent());
    k := ShutdownMoment(fs, env, args, maxRecords, outputMode, n);
  }

  /** A logged name shorter than the record's field is read back as it was. */
  lemma NameReadBack(e: Event, time: uint64, tid: int32)
    requires Loggable(e)
    ensures CString(RecordOf(e, time, tid).name) == Some(Bytes(e.args[3].s)) <==> |e.args[3].s| < NAME_LENGTH
  {
    NameRoundTrip(Bytes(e.args[3].s));
  }

  /** The record of a completed call says which call it was, what it gave back and, but for its length, to whom it went. */
  lemma RecordOfCall(e: Event, time: uint64, tid: int32)
    requires e.Leave? && |LogOf(e)| == 1 && Loggable(LogOf(e)[0])
    ensures e.result.Num? && e.site.Some?
    ensures var r := RecordOf(LogOf(e)[0], time, tid);
            && r.callSiteId == e.site.value && r.exit == e.result.n && r.time == time && r.pid == tid
            && forall i :: 0 <= i < NAME_LENGTH ==> r.name[i] as int == if i < |e.fn| then e.fn[i] as int else 0
  {
    NameRoundTrip(Bytes(e.fn));
  }
}
