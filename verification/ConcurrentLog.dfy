/** What several threads log, and how their calls end. */
module ConcurrentLog {
  import opened Text
  import opened LogCodec
  import opened Logger
  import opened Lifecycle
  import opened ConcurrentLogger
  import opened ConcurrentRuns

  // ---- Nothing lost, doubled or out of order ----

  /** The record that the action stores, if it is an insertion into a logger that is up and the call has a name. */
  function Inserted(w: World, a: Action): seq<Record>
    requires Enabled(w, a)
  {
    if a.Go? && w.pcs[a.thread].Buffering? && w.logger.inited && NameBytes(w.pcs[a.thread].entry.name).Some? then
      var e := w.pcs[a.thread].entry;
      [Record(e.time, e.tid, e.callSiteId, e.exit, NameBytes(e.name).value)]
    else []
  }

  /** The records of a run's insertions, in the order in which the threads held the lock. */
  function InLockOrder(w: World, actions: seq<Action>): seq<Record> {
    if actions == [] then []
    else
      var init, a := actions[..|actions| - 1], actions[|actions| - 1];
      match Execute(w, init)
      case None => []
      case Some(v) => InLockOrder(w, init) + if Enabled(v, a) then Inserted(v, a) else []
  }

  predicate SuppliedAction(a: Action) {
    a.Go? ==> a.io.malloc && a.io.written >= RECORD_SIZE * MAX_TOTAL
  }

  /** The largest number of records the array can come to hold fits one flush. */
  predicate Flushable(w: World) {
    AllFull(w.logger.batches) && (w.logger.inited ==> w.logger.max - 1 + |w.pcs| <= MAX_TOTAL)
  }

  lemma FlushPart(s: State, force: int, io: Io)
    requires Consistent(s) && !s.fault && AllFull(s.batches) && s.index <= MAX_TOTAL
    requires io.malloc && io.written >= RECORD_SIZE * MAX_TOTAL
    ensures var after := FlushConcrete(s, force, io).0;
            after.accepted == s.accepted && AllFull(after.batches) && after.inited == s.inited && after.max == s.max
  {
    hide Consistent;
    hide BufferSize;
    BufferSizeExact(s.index);
    FlushKeeps(s, force, io);
    FlushFull(s, force, io);
  }

  lemma ShutdownPart(s: State, io: Io)
    requires Consistent(s) && !s.fault && AllFull(s.batches) && s.index <= MAX_TOTAL
    requires io.malloc && io.written >= RECORD_SIZE * MAX_TOTAL
    ensures var after := ShutdownConcrete(s, io).0; after.accepted == s.accepted && AllFull(after.batches) && !after.inited
  {
    hide Consistent;
    hide FlushConcrete;
    hide BufferSize;
    BufferSizeExact(s.index);
    FlushPart(s, 1, io);
    ShutdownKeeps(s, io);
  }

  lemma BufferPart(s: State, e: Entry)
    requires Consistent(s) && !s.fault && !BufferConcrete(s, e).0.fault
    ensures var after := BufferConcrete(s, e).0;
            after.batches == s.batches && after.inited == s.inited && after.max == s.max &&
            after.accepted == s.accepted +
              if s.inited && NameBytes(e.name).Some? then
                [Record(e.time, e.tid, e.callSiteId, e.exit, NameBytes(e.name).value)]
              else []
  {
  }

  lemma IndexBound(w: World)
    requires Invariant(w) && Flushable(w)
    ensures w.logger.index <= MAX_TOTAL
  {
  }

  lemma NextLog(w: World, a: Action)
    requires Invariant(w) && Flushable(w) && Enabled(w, a) && SuppliedAction(a) && !Next(w, a).logger.fault
    ensures Flushable(Next(w, a)) && Next(w, a).logger.accepted == w.logger.accepted + Inserted(w, a)
  {
    hide Consistent;
    hide BufferConcrete;
    hide FlushConcrete;
    hide ShutdownConcrete;
    hide Cleanup;
    hide AllFull;
    var s, t := w.logger, a.thread;
    NextExclusive(w, a);
    IndexBound(w);
    if a.Go? && w.pcs[t].Buffering? {
      BufferPart(s, w.pcs[t].entry);
    } else if a.Go? && w.pcs[t].Flushing? {
      FlushPart(s, w.pcs[t].force, a.io);
    } else if a.Go? && w.pcs[t].ShuttingDown? {
      ShutdownPart(s, a.io);
    } else {
      QuietStep(w, a);
    }
  }

  lemma {:induction false} ExecuteLog(w: World, actions: seq<Action>)
    requires Invariant(w) && Flushable(w) && Execute(w, actions).Some? && !Execute(w, actions).value.logger.fault
    requires forall i :: 0 <= i < |actions| ==> SuppliedAction(actions[i])
    ensures Flushable(Execute(w, actions).value)
    ensures Execute(w, actions).value.logger.accepted == w.logger.accepted + InLockOrder(w, actions)
  {
    hide Next;
    hide Enabled;
    hide Invariant;
    hide Flushable;
    hide SuppliedAction;
    hide Inserted;
    if actions != [] {
      var init, a := actions[..|actions| - 1], actions[|actions| - 1];
      EnabledNoFault(Execute(w, init).value, a);
      ExecuteLog(w, init);
      ExecuteInvariant(w, init);
      NextLog(Execute(w, init).value, a);
    }
  }

  /**
    * In every interleaving that the system serves completely, and whatever the size of the array, decoding the log and
    * then reading the array gives the records inserted so far, each once, in the order in which their threads held the
    * lock: until memory is misused, if it ever is.
    */
  lemma ConcurrentConservation(w: World, actions: seq<Action>)
    requires Invariant(w) && Flushable(w) && Execute(w, actions).Some? && !Execute(w, actions).value.logger.fault
    requires forall i :: 0 <= i < |actions| ==> SuppliedAction(actions[i])
    ensures var v := Execute(w, actions).value;
            DecodeAll(v.logger.output) + Pending(v.logger) == w.logger.accepted + InLockOrder(w, actions) &&
            (!v.logger.inited ==> DecodeAll(v.logger.output) == w.logger.accepted + InLockOrder(w, actions))
  {
    hide Execute;
    hide InLockOrder;
    hide DecodeAll;
    ExecuteLog(w, actions);
    ExecuteInvariant(w, actions);
    var v := Execute(w, actions).value;
    Conservation(v.logger);
    if !v.logger.inited {
      assert DecodeAll(v.logger.output) + [] == DecodeAll(v.logger.output);
    }
  }

  // ---- Shutdown as it is written ----

  /** The thread waits, holding the lock, for the lock. */
  predicate WaitsForItself(w: World, t: nat) {
    w.holder == Some(t) && t < |w.pcs| && w.pcs[t].Relocking?
  }

  /** From the moment a shutdown asks for the lock again, no thread inside a call can take another step. */
  lemma Deadlock(w: World, t: nat, a: Action)
    requires Exclusive(w) && t < |w.pcs| && w.pcs[t].Relocking? && Enabled(w, a)
    ensures WaitsForItself(w, t) && a.Begin?
    ensures WaitsForItself(Next(w, a), t) && Next(w, a).logger == w.logger
  {
  }

  lemma {:induction false} DeadlockForever(w: World, t: nat, actions: seq<Action>)
    requires Exclusive(w) && t < |w.pcs| && w.pcs[t].Relocking? && Execute(w, actions).Some?
    ensures var v := Execute(w, actions).value;
            WaitsForItself(v, t) && v.logger == w.logger && forall i :: 0 <= i < |actions| ==> actions[i].Begin?
  {
    hide Next;
    hide Enabled;
    if actions != [] {
      var init, a := actions[..|actions| - 1], actions[|actions| - 1];
      DeadlockForever(w, t, init);
      ExecuteExclusive(w, init);
      Deadlock(Execute(w, init).value, t, a);
    }
  }

  /** Three steps lead there: a thread that finds the lock free and the logger up calls shutdown, and blocks. */
  lemma DeadlockReached(w: World, t: nat, io: Io)
    requires Exclusive(w) && w.relocks && !w.logger.fault && w.logger.inited && w.holder.None?
    requires t < |w.pcs| && w.pcs[t].Idle?
    ensures var after := Execute(w, [Begin(t, ToShutdown), Go(t, io), Go(t, io)]);
            after.Some? && WaitsForItself(after.value, t) && after.value.logger == w.logger && Exclusive(after.value)
  {
    hide Exclusive;
    hide ShutdownConcrete;
    hide Execute;
    Three(w, Begin(t, ToShutdown), Go(t, io), Go(t, io));
    ExecuteExclusive(w, [Begin(t, ToShutdown), Go(t, io), Go(t, io)]);
  }

  predicate ShutsDown(pc: Pc) {
    pc.ShuttingDown? || pc.Relocking?
  }

  lemma StaysUp(w: World, a: Action)
    requires Exclusive(w) && Enabled(w, a) && w.relocks && w.logger.inited
    ensures Next(w, a).logger.inited
    ensures |Next(w, a).pcs| == |w.pcs|
    ensures forall t :: 0 <= t < |w.pcs| && ShutsDown(w.pcs[t]) ==> ShutsDown(Next(w, a).pcs[t])
  {
    hide BufferConcrete;
    hide FlushConcrete;
    hide ShutdownConcrete;
    hide Cleanup;
    if a.Go? && w.pcs[a.thread].Buffering? {
      SectionsStayUp(w.logger, w.pcs[a.thread].entry, 0, a.io);
    } else if a.Go? && w.pcs[a.thread].Flushing? {
      SectionsStayUp(w.logger, PLAIN_ENTRY, w.pcs[a.thread].force, a.io);
    }
  }

  lemma SectionsStayUp(s: State, e: Entry, force: int, io: Io)
    requires s.inited
    ensures BufferConcrete(s, e).0.inited && FlushConcrete(s, force, io).0.inited
  {
  }

  /** As written, no run of any number of threads ever shuts an initialised logger down, and no such call returns. */
  lemma {:induction false} NoShutdownCompletes(w: World, actions: seq<Action>)
    requires Exclusive(w) && w.relocks && w.logger.inited && Execute(w, actions).Some?
    ensures Execute(w, actions).value.logger.inited
    ensures |Execute(w, actions).value.pcs| == |w.pcs|
    ensures forall t :: 0 <= t < |w.pcs| && ShutsDown(w.pcs[t]) ==> ShutsDown(Execute(w, actions).value.pcs[t])
  {
    hide Next;
    hide Enabled;
    hide Exclusive;
    if actions != [] {
      var init, a := actions[..|actions| - 1], actions[|actions| - 1];
      NoShutdownCompletes(w, init);
      ExecuteExclusive(w, init);
      StaysUp(Execute(w, init).value, a);
    }
  }

  /** As written, a call of shutdown can return exactly if the logger was not initialised. */
  lemma ShutdownReturns(w: World, t: nat)
    requires Exclusive(w) && w.relocks && !w.logger.fault && t < |w.pcs| && w.pcs[t].ShuttingDown?
    ensures (exists actions :: Execute(w, actions).Some? && t < |Execute(w, actions).value.pcs| &&
                               Execute(w, actions).value.pcs[t].Idle?)
            <==> !w.logger.inited
  {
    hide Execute;
    if w.logger.inited {
      forall actions | Execute(w, actions).Some?
        ensures t < |Execute(w, actions).value.pcs| && !Execute(w, actions).value.pcs[t].Idle?
      {
        NoShutdownCompletes(w, actions);
      }
    } else {
      var io := Io(false, 0, 0);
      ExecuteNone(w);
      ExecuteSnoc(w, [], Go(t, io));
      ExecuteSnoc(w, [] + [Go(t, io)], Go(t, io));
    }
  }

  // ---- Shutdown without the second acquisition ----

  predicate Direct(w: World) {
    !w.relocks && forall t :: 0 <= t < |w.pcs| ==> !w.pcs[t].Relocking?
  }

  /** How many steps are left of a thread's call. */
  function Rest(pc: Pc): nat {
    match pc
    case Idle => 0
    case BufferLock(_) => 6
    case Buffering(_) => 5
    case BufferUnlock(_) => 4
    case FlushLock(_, _) => 3
    case Flushing(_, _) => 2
    case FlushUnlock => 1
    case ShutdownLock => 3
    case ShuttingDown => 2
    case ShutdownUnlock => 1
    case _ => 0
  }

  function Work(pcs: seq<Pc>): nat {
    if pcs == [] then 0 else Work(pcs[..|pcs| - 1]) + Rest(pcs[|pcs| - 1])
  }

  lemma {:induction false} WorkUpdate(pcs: seq<Pc>, t: nat, pc: Pc)
    requires t < |pcs|
    ensures Work(pcs[t := pc]) == Work(pcs) - Rest(pcs[t]) + Rest(pc)
  {
    hide Rest;
    var last := |pcs| - 1;
    if t < last {
      WorkUpdate(pcs[..last], t, pc);
      assert pcs[t := pc][..last] == pcs[..last][t := pc];
    } else {
      assert pcs[t := pc][..last] == pcs[..last];
    }
  }

  lemma RestStep(w: World, t: nat, io: Io)
    requires Exclusive(w) && !w.relocks && Enabled(w, Go(t, io)) && !w.pcs[t].Relocking?
    ensures var after := Next(w, Go(t, io)).pcs;
            |after| == |w.pcs| && Rest(after[t]) == Rest(w.pcs[t]) - 1 && !after[t].Relocking?
  {
    hide BufferConcrete;
    hide FlushConcrete;
    hide ShutdownConcrete;
    hide Cleanup;
    assert NotPast(w.pcs[t]);
  }

  /** Every step of a call brings its end nearer. */
  lemma GoWorks(w: World, t: nat, io: Io)
    requires Exclusive(w) && Direct(w) && Enabled(w, Go(t, io))
    ensures Direct(Next(w, Go(t, io))) && Work(Next(w, Go(t, io)).pcs) == Work(w.pcs) - 1
  {
    hide Exclusive;
    hide Rest;
    hide Work;
    hide BufferConcrete;
    hide FlushConcrete;
    hide ShutdownConcrete;
    hide Cleanup;
    RestStep(w, t, io);
    WorkUpdate(w.pcs, t, Next(w, Go(t, io)).pcs[t]);
  }

  /** While any call is unfinished, some thread can take a step of its call, whatever the system answers. */
  lemma NoDeadlock(w: World, io: Io)
    requires Exclusive(w) && Direct(w) && !w.logger.fault && exists t :: 0 <= t < |w.pcs| && !w.pcs[t].Idle?
    ensures exists t: nat :: Enabled(w, Go(t, io))
  {
    if w.holder.Some? {
      assert Inside(w.pcs[w.holder.value]);
      assert Enabled(w, Go(w.holder.value, io));
    } else {
      var t: nat :| t < |w.pcs| && !w.pcs[t].Idle?;
      assert Enabled(w, Go(t, io));
    }
  }

  /** However the threads are scheduled, all calls are over after exactly the steps they still have to take. */
  lemma {:induction false} CallsFinish(w: World, actions: seq<Action>)
    requires Exclusive(w) && Direct(w) && Execute(w, actions).Some? && forall i :: 0 <= i < |actions| ==> actions[i].Go?
    ensures |actions| <= Work(w.pcs) && Direct(Execute(w, actions).value)
    ensures Work(Execute(w, actions).value.pcs) == Work(w.pcs) - |actions|
  {
    hide Next;
    hide Enabled;
    hide Exclusive;
    hide Direct;
    hide Rest;
    if actions != [] {
      var init, a := actions[..|actions| - 1], actions[|actions| - 1];
      CallsFinish(w, init);
      ExecuteExclusive(w, init);
      GoWorks(Execute(w, init).value, a.thread, a.io);
    }
  }
}
