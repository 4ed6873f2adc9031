/** The logger called by several threads at once, one locked section at a time. */
module ConcurrentLogger {
  import opened Text
  import opened LogCodec
  import opened Logger
  import opened Lifecycle

  // ---- The protocol ----

  /** Where a thread is in the call it makes; `stored` says that the call put a record into the array. */
  datatype Pc =
    | Idle
    | BufferLock(entry: Entry)
    | Buffering(entry: Entry)
    | BufferUnlock(stored: bool)
    | FlushLock(force: int, stored: bool)
    | Flushing(force: int, stored: bool)
    | FlushUnlock
    | ShutdownLock
    | ShuttingDown
    | Relocking
    | Reflushing
    | Reunlocking
    | Cleaning
    | ShutdownUnlock

  /** `relocks`: shutdown flushes through the entry that takes the lock again, as the code is written. */
  datatype World = World(relocks: bool, logger: State, holder: Option<nat>, pcs: seq<Pc>)

  datatype Request = ToBuffer(entry: Entry) | ToFlush(force: int) | ToShutdown

  datatype Action = Begin(thread: nat, request: Request) | Go(thread: nat, io: Io)

  /** The thread waits for the lock at this point. */
  predicate Acquires(pc: Pc) {
    pc.BufferLock? || pc.FlushLock? || pc.ShutdownLock? || pc.Relocking?
  }

  predicate Enabled(w: World, a: Action) {
    !w.logger.fault && a.thread < |w.pcs| &&
    match a
    case Begin(t, _) => w.pcs[t].Idle?
    case Go(t, _) => !w.pcs[t].Idle? && (Acquires(w.pcs[t]) ==> w.holder.None?)
  }

  function FirstPc(r: Request): Pc {
    match r
    case ToBuffer(e) => BufferLock(e)
    case ToFlush(force) => FlushLock(force, false)
    case ToShutdown => ShutdownLock
  }

  function Goto(w: World, t: nat, pc: Pc): World
    requires t < |w.pcs|
  {
    w.(pcs := w.pcs[t := pc])
  }

  function Next(w: World, a: Action): World
    requires Enabled(w, a)
  {
    var t := a.thread;
    if a.Begin? then Goto(w, t, FirstPc(a.request))
    else
      match w.pcs[t]
      case Idle => w
      case BufferLock(e) => Goto(w.(holder := Some(t)), t, Buffering(e))
      case Buffering(e) =>
        var (s, result) := BufferConcrete(w.logger, e);
        Goto(w.(logger := s), t, BufferUnlock(result == 1))
      case BufferUnlock(stored) => Goto(w.(holder := None), t, FlushLock(0, stored))
      case FlushLock(force, stored) => Goto(w.(holder := Some(t)), t, Flushing(force, stored))
      case Flushing(force, _) => Goto(w.(logger := FlushConcrete(w.logger, force, a.io).0), t, FlushUnlock)
      case FlushUnlock => Goto(w.(holder := None), t, Idle)
      case ShutdownLock => Goto(w.(holder := Some(t)), t, ShuttingDown)
      case ShuttingDown =>
        if !w.relocks then Goto(w.(logger := ShutdownConcrete(w.logger, a.io).0), t, ShutdownUnlock)
        else Goto(w, t, if w.logger.inited then Relocking else ShutdownUnlock)
      case Relocking => Goto(w.(holder := Some(t)), t, Reflushing)
      case Reflushing => Goto(w.(logger := FlushConcrete(w.logger, 1, a.io).0), t, Reunlocking)
      case Reunlocking => Goto(w.(holder := None), t, Cleaning)
      case Cleaning => Goto(w.(logger := Cleanup(w.logger).(inited := false)), t, ShutdownUnlock)
      case ShutdownUnlock => Goto(w.(holder := None), t, Idle)
  }

  /** The world after a run, if every action of it is enabled in its turn. */
  function Execute(w: World, actions: seq<Action>): Option<World> {
    if actions == [] then Some(w)
    else
      match Execute(w, actions[..|actions| - 1])
      case None => None
      case Some(v) => if Enabled(v, actions[|actions| - 1]) then Some(Next(v, actions[|actions| - 1])) else None
  }

  // ---- Counting the threads that have yet to check ----

  /** The thread stored a record and has not checked since whether the array is full. */
  predicate Unchecked(pc: Pc) {
    (pc.BufferUnlock? || pc.FlushLock? || pc.Flushing?) && pc.stored
  }

  /** The thread is between the unlock after its insertion and the lock of its flush. */
  predicate Between(pc: Pc) {
    pc.FlushLock? && pc.stored
  }

  function Count(pcs: seq<Pc>): (n: nat)
    ensures n <= |pcs|
  {
    if pcs == [] then 0 else Count(pcs[..|pcs| - 1]) + if Unchecked(pcs[|pcs| - 1]) then 1 else 0
  }

  function CountBetween(pcs: seq<Pc>): (n: nat)
    ensures n <= |pcs|
  {
    if pcs == [] then 0 else CountBetween(pcs[..|pcs| - 1]) + if Between(pcs[|pcs| - 1]) then 1 else 0
  }

  lemma {:induction false} CountUpdate(pcs: seq<Pc>, t: nat, pc: Pc)
    requires t < |pcs|
    ensures Count(pcs[t := pc]) == Count(pcs) - (if Unchecked(pcs[t]) then 1 else 0) + (if Unchecked(pc) then 1 else 0)
  {
    var last := |pcs| - 1;
    if t < last {
      CountUpdate(pcs[..last], t, pc);
      assert pcs[t := pc][..last] == pcs[..last][t := pc];
    } else {
      assert pcs[t := pc][..last] == pcs[..last];
    }
  }

  lemma {:induction false} CountLess(pcs: seq<Pc>, t: nat)
    requires t < |pcs| && !Unchecked(pcs[t])
    ensures Count(pcs) < |pcs|
  {
    if t < |pcs| - 1 {
      CountLess(pcs[..|pcs| - 1], t);
    }
  }

  /** While nobody is inside a section, both counts are the same; the holder may be one thread more. */
  lemma {:induction false} CountsAgree(w: World)
    requires Exclusive(w)
    ensures CountBetween(w.pcs) <= Count(w.pcs) <= CountBetween(w.pcs) + if w.holder.Some? then 1 else 0
    ensures w.holder.Some? && !Unchecked(w.pcs[w.holder.value]) ==> CountBetween(w.pcs) == Count(w.pcs)
  {
    CountsAgreeUpTo(w, |w.pcs|);
    assert w.pcs[..|w.pcs|] == w.pcs;
  }

  lemma {:induction false} CountsAgreeUpTo(w: World, n: nat)
    requires Exclusive(w) && n <= |w.pcs|
    ensures Count(w.pcs[..n]) == CountBetween(w.pcs[..n]) +
              if w.holder.Some? && w.holder.value < n && Unchecked(w.pcs[w.holder.value]) then 1 else 0
  {
    if n > 0 {
      CountsAgreeUpTo(w, n - 1);
      assert w.pcs[..n][..n - 1] == w.pcs[..n - 1];
    }
  }

  // ---- What every step keeps ----

  predicate Inside(pc: Pc) {
    pc.Buffering? || pc.BufferUnlock? || pc.Flushing? || pc.FlushUnlock? || pc.ShuttingDown? || pc.Relocking? ||
    pc.ShutdownUnlock?
  }

  /** No thread has got past a second acquisition of the lock. */
  predicate NotPast(pc: Pc) {
    !pc.Reflushing? && !pc.Reunlocking? && !pc.Cleaning?
  }

  /** One thread at most is inside a locked section: the one that holds the lock. */
  predicate Exclusive(w: World) {
    (w.holder.Some? ==> w.holder.value < |w.pcs|) &&
    forall t :: 0 <= t < |w.pcs| ==> (Inside(w.pcs[t]) <==> w.holder == Some(t)) && NotPast(w.pcs[t])
  }

  /** The capacity suffices for all threads to insert before one of them checks. */
  predicate Roomy(w: World) {
    w.logger.inited ==>
      w.logger.max >= 1 && w.logger.memory.Live? && |w.logger.memory.slots| >= w.logger.max - 1 + |w.pcs| &&
      w.logger.max - 1 + |w.pcs| < WRAP_TOTAL
  }

  predicate Bounded(w: World) {
    w.logger.inited ==> w.logger.max >= 1 && w.logger.index <= w.logger.max - 1 + Count(w.pcs)
  }

  /** What holds in every world a run can reach without a fault, whatever the size of the array. */
  predicate Invariant(w: World) {
    !w.logger.fault && Consistent(w.logger) && Exclusive(w) && Bounded(w)
  }

  /** A step moves the acting thread into or out of the section exactly as it moves the lock. */
  lemma NextHolder(w: World, a: Action)
    requires Exclusive(w) && Enabled(w, a)
    ensures var v, t := Next(w, a), a.thread;
            && v.pcs == w.pcs[t := v.pcs[t]] && |v.pcs| == |w.pcs| && v.relocks == w.relocks && NotPast(v.pcs[t])
            && v.holder == (if Inside(v.pcs[t]) then Some(t) else if Inside(w.pcs[t]) then None else w.holder)
            && (Inside(v.pcs[t]) && !Inside(w.pcs[t]) ==> w.holder.None?)
  {
    hide BufferConcrete;
    hide FlushConcrete;
    hide ShutdownConcrete;
    hide Cleanup;
    assert NotPast(w.pcs[a.thread]) && (Inside(w.pcs[a.thread]) <==> w.holder == Some(a.thread));
  }

  lemma NextExclusive(w: World, a: Action)
    requires Exclusive(w) && Enabled(w, a)
    ensures Exclusive(Next(w, a)) && |Next(w, a).pcs| == |w.pcs| && Next(w, a).relocks == w.relocks
    ensures forall t :: 0 <= t < |w.pcs| && t != a.thread ==> Next(w, a).pcs[t] == w.pcs[t]
  {
    hide Next;
    hide Inside;
    hide NotPast;
    NextHolder(w, a);
  }

  lemma BufferStep(w: World, a: Action)
    requires Invariant(w) && Enabled(w, a) && a.Go? && w.pcs[a.thread].Buffering?
    ensures Next(w, a).logger.fault <==> w.logger.inited && w.logger.index == |w.logger.memory.slots|
    ensures !Next(w, a).logger.fault ==> Invariant(Next(w, a))
    ensures Roomy(w) ==> !Next(w, a).logger.fault && Roomy(Next(w, a))
  {
    hide Consistent;
    hide WRAP_TOTAL;
    var s, t := w.logger, a.thread;
    NextExclusive(w, a);
    CountLess(w.pcs, t);
    BufferKeeps(s, w.pcs[t].entry);
    BufferResult(s, w.pcs[t].entry);
    CountUpdate(w.pcs, t, Next(w, a).pcs[t]);
    UninitedEmpty(s);
    AllConsistent(BufferConcrete(s, w.pcs[t].entry).0);
  }

  lemma AllConsistent(s: State)
    ensures Consistent(s) ==> (s.inited <==> s.memory.Live?) && (s.inited ==> s.index <= |s.memory.slots|)
  {
  }

  /** A record is stored if and only if the call reports success. */
  lemma BufferResult(s: State, e: Entry)
    requires Consistent(s) && !s.fault
    ensures var (after, result) := BufferConcrete(s, e);
            !after.fault ==> (result == 1 <==> after.index == s.index + 1) && (result != 1 ==> after.index == s.index)
  {
  }

  lemma FlushStep(w: World, a: Action)
    requires Invariant(w) && Enabled(w, a) && a.Go? && w.pcs[a.thread].Flushing?
    ensures !Next(w, a).logger.fault ==> Invariant(Next(w, a))
    ensures Roomy(w) ==> !Next(w, a).logger.fault && Roomy(Next(w, a))
  {
    hide Consistent;
    hide WrapsAround;
    var s, t := w.logger, a.thread;
    NextExclusive(w, a);
    FlushKeeps(s, w.pcs[t].force, a.io);
    WrapExact(s.index, a.io);
    CountUpdate(w.pcs, t, FlushUnlock);
    UninitedEmpty(s);
  }

  lemma UninitedEmpty(s: State)
    requires Consistent(s)
    ensures !s.inited ==> s.index == 0
    ensures s.inited <==> s.memory.Live?
  {
  }

  lemma ShutdownStep(w: World, a: Action)
    requires Invariant(w) && Enabled(w, a) && a.Go? && w.pcs[a.thread].ShuttingDown?
    ensures !Next(w, a).logger.fault ==> Invariant(Next(w, a))
    ensures Roomy(w) ==> !Next(w, a).logger.fault && Roomy(Next(w, a))
  {
    hide Consistent;
    hide WrapsAround;
    var s, t := w.logger, a.thread;
    NextExclusive(w, a);
    if !w.relocks {
      ShutdownKeeps(s, a.io);
      WrapExact(s.index, a.io);
    }
    CountUpdate(w.pcs, t, Next(w, a).pcs[t]);
  }

  lemma QuietStep(w: World, a: Action)
    requires Exclusive(w) && Enabled(w, a)
    requires a.Go? ==> !w.pcs[a.thread].Buffering? && !w.pcs[a.thread].Flushing? && !w.pcs[a.thread].ShuttingDown?
    ensures Next(w, a).logger == w.logger && Count(Next(w, a).pcs) == Count(w.pcs)
  {
    hide BufferConcrete;
    hide FlushConcrete;
    hide ShutdownConcrete;
    hide Cleanup;
    CountUpdate(w.pcs, a.thread, Next(w, a).pcs[a.thread]);
  }

  /** Every step that does not fault keeps the invariant; where there is room for all threads, no step faults. */
  lemma NextInvariant(w: World, a: Action)
    requires Invariant(w) && Enabled(w, a)
    ensures !Next(w, a).logger.fault ==> Invariant(Next(w, a))
    ensures Roomy(w) ==> !Next(w, a).logger.fault && Roomy(Next(w, a))
  {
    hide Consistent;
    hide Next;
    if a.Go? && w.pcs[a.thread].Buffering? {
      BufferStep(w, a);
    } else if a.Go? && w.pcs[a.thread].Flushing? {
      FlushStep(w, a);
    } else if a.Go? && w.pcs[a.thread].ShuttingDown? {
      ShutdownStep(w, a);
    } else {
      NextExclusive(w, a);
      QuietStep(w, a);
    }
  }

  lemma {:induction false} ExecuteExclusive(w: World, actions: seq<Action>)
    requires Exclusive(w) && Execute(w, actions).Some?
    ensures Exclusive(Execute(w, actions).value) && |Execute(w, actions).value.pcs| == |w.pcs| &&
            Execute(w, actions).value.relocks == w.relocks
  {
    hide Next;
    hide Enabled;
    hide Exclusive;
    if actions != [] {
      var init := actions[..|actions| - 1];
      ExecuteExclusive(w, init);
      NextExclusive(Execute(w, init).value, actions[|actions| - 1]);
    }
  }

  /** Nothing is enabled after a fault, so a run without one at its end had none before. */
  lemma {:induction false} ExecuteInvariant(w: World, actions: seq<Action>)
    requires Invariant(w) && Execute(w, actions).Some?
    ensures !Execute(w, actions).value.logger.fault ==> Invariant(Execute(w, actions).value)
    ensures Roomy(w) ==> !Execute(w, actions).value.logger.fault && Roomy(Execute(w, actions).value)
  {
    hide Next;
    hide Invariant;
    hide Roomy;
    InvariantNoFault(w);
    if actions != [] {
      var init, a := actions[..|actions| - 1], actions[|actions| - 1];
      ExecuteInvariant(w, init);
      EnabledNoFault(Execute(w, init).value, a);
      NextInvariant(Execute(w, init).value, a);
    }
  }

  lemma InvariantNoFault(w: World)
    requires Invariant(w)
    ensures !w.logger.fault && Consistent(w.logger) && Exclusive(w)
  {
  }

  lemma EnabledNoFault(w: World, a: Action)
    requires Enabled(w, a)
    ensures !w.logger.fault
  {
  }

  /** No thread is between its insertion and the unlock after it, or about to check. */
  predicate Settled(w: World) {
    forall t :: 0 <= t < |w.pcs| ==> !w.pcs[t].BufferUnlock? && !w.pcs[t].Flushing?
  }

  /**
    * When an insertion may start, the array holds at most what the threads between their two sections have added: in
    * every interleaving of any number of threads, whatever the size of the array, until memory is misused.
    */
  lemma BufferBound(w: World, actions: seq<Action>)
    requires Invariant(w) && Execute(w, actions).Some? && !Execute(w, actions).value.logger.fault
    ensures var v := Execute(w, actions).value;
            v.logger.inited && Settled(v) ==> v.logger.index <= v.logger.max - 1 + CountBetween(v.pcs)
  {
    hide Consistent;
    ExecuteInvariant(w, actions);
    CountsAgree(Execute(w, actions).value);
  }
}
