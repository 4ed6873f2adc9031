/** Runs of the concurrent logger: which are safe, what they log, and how shutdown as written ends them. */
module ConcurrentRuns {
  import opened Text
  import opened LogCodec
  import opened Logger
  import opened Lifecycle
  import opened ConcurrentLogger

  // ---- Building runs ----

  lemma ExecuteSnoc(w: World, actions: seq<Action>, a: Action)
    ensures Execute(w, actions + [a]) ==
            match Execute(w, actions)
            case None => None
            case Some(v) => if Enabled(v, a) then Some(Next(v, a)) else None
  {
    assert (actions + [a])[..|actions|] == actions;
  }

  lemma {:induction false} ExecuteConcat(w: World, first: seq<Action>, second: seq<Action>)
    requires Execute(w, first).Some?
    ensures Execute(w, first + second) == Execute(Execute(w, first).value, second)
  {
    hide Next;
    hide Enabled;
    if second == [] {
      assert first + second == first;
    } else {
      var init, a := second[..|second| - 1], second[|second| - 1];
      ExecuteConcat(w, first, init);
      assert first + second == (first + init) + [a];
      ExecuteSnoc(w, first + init, a);
    }
  }

  lemma ExecuteNone(w: World)
    ensures Execute(w, []) == Some(w)
  {
  }

  lemma Three(w: World, a: Action, b: Action, c: Action)
    requires Enabled(w, a) && Enabled(Next(w, a), b) && Enabled(Next(Next(w, a), b), c)
    ensures Execute(w, [a, b, c]) == Some(Next(Next(Next(w, a), b), c))
  {
    hide Next;
    hide Enabled;
    hide Execute;
    assert [a, b, c] == (([] + [a]) + [b]) + [c];
    ExecuteNone(w);
    ExecuteSnoc(w, [], a);
    ExecuteSnoc(w, [] + [a], b);
    ExecuteSnoc(w, ([] + [a]) + [b], c);
  }

  /** The logger is up, with room for `capacity` records and `i` of them stored. */
  predicate Loaded(s: State, max: int32, capacity: nat, i: nat) {
    Consistent(s) && !s.fault && s.inited && s.max == max && |s.memory.slots| == capacity && s.index == i
  }

  /** A call up to the unlock between its two sections, and the rest of it. */
  function HalfCall(t: nat): seq<Action> {
    [Begin(t, ToBuffer(PLAIN_ENTRY)), Go(t, COMPLETE_IO), Go(t, COMPLETE_IO)] + [Go(t, COMPLETE_IO)]
  }

  function RestCall(t: nat): seq<Action> {
    [Go(t, COMPLETE_IO), Go(t, COMPLETE_IO), Go(t, COMPLETE_IO)]
  }

  lemma StoreOne(s: State, max: int32, capacity: nat, i: nat)
    requires Loaded(s, max, capacity, i)
    ensures if i == capacity then BufferConcrete(s, PLAIN_ENTRY).0.fault
            else BufferConcrete(s, PLAIN_ENTRY).1 == 1 && Loaded(BufferConcrete(s, PLAIN_ENTRY).0, max, capacity, i + 1)
  {
    hide History;
    BufferKeeps(s, PLAIN_ENTRY);
  }

  lemma InsertStep(w: World, t: nat)
    requires t < |w.pcs| && w.pcs[t].Idle? && w.holder.None? && !w.logger.fault
    ensures var run := [Begin(t, ToBuffer(PLAIN_ENTRY)), Go(t, COMPLETE_IO), Go(t, COMPLETE_IO)];
            var (s, result) := BufferConcrete(w.logger, PLAIN_ENTRY);
            Execute(w, run) == Some(World(w.relocks, s, Some(t), w.pcs[t := BufferUnlock(result == 1)]))
  {
    hide BufferConcrete;
    var w1 := Next(w, Begin(t, ToBuffer(PLAIN_ENTRY)));
    var w2 := Next(w1, Go(t, COMPLETE_IO));
    var w3 := Next(w2, Go(t, COMPLETE_IO));
    Three(w, Begin(t, ToBuffer(PLAIN_ENTRY)), Go(t, COMPLETE_IO), Go(t, COMPLETE_IO));
    assert w3.pcs == w.pcs[t := BufferUnlock(BufferConcrete(w.logger, PLAIN_ENTRY).1 == 1)];
  }

  lemma HalfRun(w: World, t: nat, max: int32, capacity: nat, i: nat)
    requires t < |w.pcs| && w.pcs[t].Idle? && w.holder.None? && Loaded(w.logger, max, capacity, i) && i < capacity
    ensures var s := BufferConcrete(w.logger, PLAIN_ENTRY).0;
            Loaded(s, max, capacity, i + 1) &&
            Execute(w, HalfCall(t)) == Some(World(w.relocks, s, None, w.pcs[t := FlushLock(0, true)]))
  {
    hide BufferConcrete;
    hide Consistent;
    hide Execute;
    StoreOne(w.logger, max, capacity, i);
    InsertStep(w, t);
    var run := [Begin(t, ToBuffer(PLAIN_ENTRY)), Go(t, COMPLETE_IO), Go(t, COMPLETE_IO)];
    var v := Execute(w, run).value;
    ExecuteSnoc(w, run, Go(t, COMPLETE_IO));
    assert w.pcs[t := BufferUnlock(true)][t := FlushLock(0, true)] == w.pcs[t := FlushLock(0, true)];
  }

  lemma RestRun(w: World, t: nat, max: int32, capacity: nat, i: nat)
    requires t < |w.pcs| && w.pcs[t] == FlushLock(0, true) && w.holder.None? && Loaded(w.logger, max, capacity, i) && i < max
    ensures Execute(w, RestCall(t)) == Some(w.(pcs := w.pcs[t := Idle]))
  {
    hide Consistent;
    var w1 := Next(w, Go(t, COMPLETE_IO));
    var w2 := Next(w1, Go(t, COMPLETE_IO));
    var w3 := Next(w2, Go(t, COMPLETE_IO));
    assert w2.logger == w.logger;
    Three(w, Go(t, COMPLETE_IO), Go(t, COMPLETE_IO), Go(t, COMPLETE_IO));
    assert w3.pcs == w.pcs[t := Idle];
  }

  function FullCalls(n: nat): seq<Action> {
    if n == 0 then [] else FullCalls(n - 1) + (HalfCall(0) + RestCall(0))
  }

  function HalfCalls(n: nat): seq<Action> {
    if n == 0 then [] else HalfCalls(n - 1) + HalfCall(n - 1)
  }

  /** All threads are outside the logger. */
  predicate AllIdle(w: World) {
    w.holder.None? && forall t :: 0 <= t < |w.pcs| ==> w.pcs[t].Idle?
  }

  lemma {:induction false} FullRun(w: World, max: int32, capacity: nat, n: nat)
    requires AllIdle(w) && |w.pcs| > 0 && Loaded(w.logger, max, capacity, 0) && n < max <= capacity
    ensures var after := Execute(w, FullCalls(n));
            after.Some? && after.value == w.(logger := after.value.logger) && Loaded(after.value.logger, max, capacity, n)
  {
    hide Loaded;
    hide BufferConcrete;
    hide HalfCall;
    hide RestCall;
    hide Execute;
    if n == 0 {
      ExecuteNone(w);
    } else {
      FullRun(w, max, capacity, n - 1);
      var v := Execute(w, FullCalls(n - 1)).value;
      HalfRun(v, 0, max, capacity, n - 1);
      var h := Execute(v, HalfCall(0)).value;
      RestRun(h, 0, max, capacity, n);
      ExecuteConcat(v, HalfCall(0), RestCall(0));
      ExecuteConcat(w, FullCalls(n - 1), HalfCall(0) + RestCall(0));
      assert h.pcs[0 := Idle] == w.pcs;
    }
  }

  /** The first `n` threads are between their two sections, the others outside. */
  predicate Waiting(w: World, n: nat) {
    w.holder.None? && n <= |w.pcs| &&
    forall t :: 0 <= t < |w.pcs| ==> w.pcs[t] == if t < n then FlushLock(0, true) else Idle
  }

  lemma {:induction false} HalfRuns(w: World, max: int32, capacity: nat, i: nat, n: nat)
    requires AllIdle(w) && n <= |w.pcs| && Loaded(w.logger, max, capacity, i) && i + n <= capacity
    ensures var after := Execute(w, HalfCalls(n));
            after.Some? && Waiting(after.value, n) && |after.value.pcs| == |w.pcs| && after.value.relocks == w.relocks &&
            Loaded(after.value.logger, max, capacity, i + n)
  {
    hide Loaded;
    hide BufferConcrete;
    hide HalfCall;
    hide Execute;
    if n == 0 {
      ExecuteNone(w);
    } else {
      HalfRuns(w, max, capacity, i, n - 1);
      var v := Execute(w, HalfCalls(n - 1)).value;
      HalfRun(v, n - 1, max, capacity, i + n - 1);
      ExecuteConcat(w, HalfCalls(n - 1), HalfCall(n - 1));
    }
  }

  // ---- The bound is tight, and how much room is enough ----

  /** A logger that one thread has initialised, with an array that could be larger than `max`. */
  function Ready(max: int32, slots: seq<Record>): State {
    State(true, max, Live(slots), 0, Descriptor.Opened, [], 0, false, [], [])
  }

  lemma ReadyAfterInit(max: int32, slots: seq<Record>)
    requires max >= 1 && |slots| == max
    ensures InitConcrete(INITIAL, max, OUTPUT_FILE, Startup(Some(slots), Succeeds)) == (Ready(max, slots), 1)
  {
  }

  function Start(relocks: bool, threads: nat, max: int32, slots: seq<Record>): World {
    World(relocks, Ready(max, slots), None, seq(threads, t => Idle))
  }

  lemma StartLoaded(relocks: bool, threads: nat, max: int32, slots: seq<Record>)
    ensures AllIdle(Start(relocks, threads, max, slots)) && Loaded(Ready(max, slots), max, |slots|, 0)
  {
  }

  /** For every number of threads there is a run in which just so many are between their sections and the bound is met. */
  lemma BoundReached(relocks: bool, threads: nat, max: int32, slots: seq<Record>, k: nat)
    requires 1 <= max <= |slots| && threads > 0 && k <= threads && max - 1 + k <= |slots|
    ensures var after := Execute(Start(relocks, threads, max, slots), FullCalls(max - 1) + HalfCalls(k));
            after.Some? && Waiting(after.value, k) && CountBetween(after.value.pcs) == k && |after.value.pcs| == threads &&
            Loaded(after.value.logger, max, |slots|, max - 1 + k)
  {
    hide Loaded;
    hide Execute;
    hide HalfCalls;
    hide FullCalls;
    var w := Start(relocks, threads, max, slots);
    StartLoaded(relocks, threads, max, slots);
    FullRun(w, max, |slots|, max - 1);
    var v := Execute(w, FullCalls(max - 1)).value;
    HalfRuns(v, max, |slots|, max - 1, k);
    ExecuteConcat(w, FullCalls(max - 1), HalfCalls(k));
    var u := Execute(v, HalfCalls(k)).value;
    WaitingCount(u, k, |u.pcs|);
    assert u.pcs[..|u.pcs|] == u.pcs;
  }

  lemma {:induction false} WaitingCount(w: World, k: nat, n: nat)
    requires Waiting(w, k) && n <= |w.pcs|
    ensures CountBetween(w.pcs[..n]) == if n < k then n else k
  {
    if n > 0 {
      WaitingCount(w, k, n - 1);
      assert w.pcs[..n][..n - 1] == w.pcs[..n - 1];
    }
  }

  /** The threads all insert before one of them checks; the one that finds the array full writes behind its end. */
  lemma OverflowReached(relocks: bool, threads: nat, max: int32, slots: seq<Record>)
    requires 1 <= max <= |slots| < max - 1 + threads
    ensures exists actions ::
              var after := Execute(Start(relocks, threads, max, slots), actions); after.Some? && after.value.logger.fault
  {
    hide Loaded;
    hide Execute;
    hide HalfCalls;
    hide FullCalls;
    var k := |slots| - (max - 1);
    var w := Start(relocks, threads, max, slots);
    BoundReached(relocks, threads, max, slots, k);
    var filled := FullCalls(max - 1) + HalfCalls(k);
    var v := Execute(w, filled).value;
    LoadedNoFault(v.logger, max, |slots|, |slots|);
    InsertStep(v, k);
    StoreOne(v.logger, max, |slots|, |slots|);
    var run := [Begin(k, ToBuffer(PLAIN_ENTRY)), Go(k, COMPLETE_IO), Go(k, COMPLETE_IO)];
    ExecuteConcat(w, filled, run);
    assert Execute(w, filled + run).Some?;
  }

  lemma LoadedNoFault(s: State, max: int32, capacity: nat, i: nat)
    requires Loaded(s, max, capacity, i)
    ensures !s.fault
  {
  }

  lemma StartInvariant(relocks: bool, threads: nat, max: int32, slots: seq<Record>)
    requires 1 <= max <= |slots|
    ensures Invariant(Start(relocks, threads, max, slots))
    ensures Roomy(Start(relocks, threads, max, slots)) <==>
            |slots| >= max - 1 + threads && max - 1 + threads < WRAP_TOTAL
  {
  }

  /** A logger with so many records that their size wraps can be reached when there is room for them. */
  lemma WrapReached(relocks: bool, threads: nat, max: int32, slots: seq<Record>)
    requires 1 <= max <= |slots| && threads > 0 && WRAP_TOTAL <= max - 1 + threads <= |slots|
    ensures exists actions ::
              var after := Execute(Start(relocks, threads, max, slots), actions); after.Some? && after.value.logger.fault
  {
    hide Loaded;
    hide Execute;
    hide HalfCalls;
    hide FullCalls;
    var w := Start(relocks, threads, max, slots);
    StartLoaded(relocks, threads, max, slots);
    var run: seq<Action>;
    if WRAP_TOTAL < max {
      FullRun(w, max, |slots|, WRAP_TOTAL);
      run := FullCalls(WRAP_TOTAL);
      var v := Execute(w, run).value;
      FlushFaults(v, 0, 1, max, |slots|);
      run := run + [Begin(0, ToFlush(1)), Go(0, COMPLETE_IO), Go(0, COMPLETE_IO)];
      ExecuteConcat(w, FullCalls(WRAP_TOTAL), [Begin(0, ToFlush(1)), Go(0, COMPLETE_IO), Go(0, COMPLETE_IO)]);
    } else {
      var k := WRAP_TOTAL - (max - 1);
      BoundReached(relocks, threads, max, slots, k);
      run := FullCalls(max - 1) + HalfCalls(k);
      var v := Execute(w, run).value;
      CheckFaults(v, 0, max, |slots|);
      ExecuteConcat(w, run, [Go(0, COMPLETE_IO)] + [Go(0, COMPLETE_IO)]);
      run := run + ([Go(0, COMPLETE_IO)] + [Go(0, COMPLETE_IO)]);
    }
    assert Execute(w, run).Some?;
  }

  lemma FlushWraps(s: State, force: int, max: int32, capacity: nat)
    requires Loaded(s, max, capacity, WRAP_TOTAL) && (force == 1 || WRAP_TOTAL >= max)
    ensures FlushConcrete(s, force, COMPLETE_IO).0.fault
  {
    hide Consistent;
    hide WrapsAround;
    WrapExact(WRAP_TOTAL, COMPLETE_IO);
    FlushKeeps(s, force, COMPLETE_IO);
  }

  lemma FlushFaults(w: World, t: nat, force: int, max: int32, capacity: nat)
    requires t < |w.pcs| && w.pcs[t].Idle? && w.holder.None? && Loaded(w.logger, max, capacity, WRAP_TOTAL) && force == 1
    ensures var after := Execute(w, [Begin(t, ToFlush(force)), Go(t, COMPLETE_IO), Go(t, COMPLETE_IO)]);
            after.Some? && after.value.logger.fault
  {
    hide FlushConcrete;
    hide Loaded;
    LoadedNoFault(w.logger, max, capacity, WRAP_TOTAL);
    FlushWraps(w.logger, force, max, capacity);
    Three(w, Begin(t, ToFlush(force)), Go(t, COMPLETE_IO), Go(t, COMPLETE_IO));
  }

  lemma CheckFaults(w: World, t: nat, max: int32, capacity: nat)
    requires t < |w.pcs| && w.pcs[t] == FlushLock(0, true) && w.holder.None?
    requires Loaded(w.logger, max, capacity, WRAP_TOTAL) && WRAP_TOTAL >= max
    ensures var after := Execute(w, [Go(t, COMPLETE_IO)] + [Go(t, COMPLETE_IO)]); after.Some? && after.value.logger.fault
  {
    hide FlushConcrete;
    hide Loaded;
    hide Execute;
    LoadedNoFault(w.logger, max, capacity, WRAP_TOTAL);
    FlushWraps(w.logger, 0, max, capacity);
    ExecuteNone(w);
    assert [] + [Go(t, COMPLETE_IO)] == [Go(t, COMPLETE_IO)];
    ExecuteSnoc(w, [], Go(t, COMPLETE_IO));
    ExecuteSnoc(w, [Go(t, COMPLETE_IO)], Go(t, COMPLETE_IO));
  }

  ghost predicate NeverFaults(w: World) {
    forall actions :: Execute(w, actions).Some? ==> !Execute(w, actions).value.logger.fault
  }

  /**
    * No interleaving misuses memory exactly when the array has a slot for every thread beyond `max - 1` and so many
    * records do not make the size of a flush wrap.
    */
  lemma RoomNeeded(relocks: bool, threads: nat, max: int32, slots: seq<Record>)
    requires 1 <= max <= |slots| && threads > 0
    ensures NeverFaults(Start(relocks, threads, max, slots)) <==>
            |slots| >= max - 1 + threads && max - 1 + threads < WRAP_TOTAL
  {
    hide Execute;
    hide Invariant;
    var w := Start(relocks, threads, max, slots);
    if |slots| < max - 1 + threads {
      OverflowReached(relocks, threads, max, slots);
    } else if max - 1 + threads >= WRAP_TOTAL {
      WrapReached(relocks, threads, max, slots);
    } else {
      StartInvariant(relocks, threads, max, slots);
      forall actions | Execute(w, actions).Some?
        ensures !Execute(w, actions).value.logger.fault
      {
        ExecuteInvariant(w, actions);
      }
    }
  }

  /** The array that the code's own start allocates is large enough for one thread and for no more. */
  lemma RoomOfTheCode(relocks: bool, threads: nat, max: int32, slots: seq<Record>)
    requires 1 <= max == |slots| && threads > 0
    ensures var started := InitConcrete(INITIAL, max, OUTPUT_FILE, Startup(Some(slots), Succeeds)).0;
            NeverFaults(World(relocks, started, None, seq(threads, t => Idle))) <==> threads == 1 && max < WRAP_TOTAL
  {
    hide InitConcrete;
    ReadyAfterInit(max, slots);
    RoomNeeded(relocks, threads, max, slots);
  }
}
