/** What one call leaves in the logger's globals, field by field. */
module LoggerEffects {
  import opened Text
  import opened LogCodec
  import opened Logger
  import opened Lifecycle

  /** A buffer call fills the next slot; without a name it keeps the slot's old name and counts nothing. */
  lemma BufferEffect(s: State, e: Entry)
    requires s.inited && s.memory.Live? && s.index < |s.memory.slots|
    ensures var (after, result) := BufferConcrete(s, e);
            var named := e.name.Some? && e.name.value != [];
            && result == (if named then 1 else 0)
            && after.memory.Live? && |after.memory.slots| == |s.memory.slots|
            && (forall i :: 0 <= i < |s.memory.slots| && i != s.index ==> after.memory.slots[i] == s.memory.slots[i])
            && var was, r := s.memory.slots[s.index], after.memory.slots[s.index];
               && r.time == e.time && r.pid == e.tid && r.callSiteId == e.callSiteId && r.exit == e.exit
               && (!named ==> r.name == was.name)
               && (named ==> forall i :: 0 <= i < NAME_LENGTH ==>
                               r.name[i] == if i < |e.name.value| then e.name.value[i] else 0)
               && after == s.(memory := after.memory, index := s.index + result,
                              accepted := s.accepted + if named then [r] else [])
  {
  }

  /** Without an initialised logger nothing happens; without room the call writes where it must not. */
  lemma BufferRefused(s: State, e: Entry)
    requires !s.fault && (s.memory.Live? ==> !s.inited || s.index >= |s.memory.slots|)
    ensures BufferConcrete(s, e) == (s.(fault := s.inited), 0)
  {
  }

  /** The bytes a flush hands to the log: of the records' bytes, those that `write` takes if there is a buffer to write. */
  lemma FlushEffect(s: State, force: int, io: Io)
    requires Consistent(s) && !s.fault && !(s.inited && WrapsAround(s.index, io))
    ensures var (after, result) := FlushConcrete(s, force, io);
            if !s.inited then after == s && result == 0
            else if s.index == 0 || (force != 1 && s.index < s.max) then after == s && result == 1
            else
              var all := EncodeAll(Pending(s));
              var n := if !io.malloc || s.index > MAX_TOTAL || io.written < 0 then 0
                       else if io.written < |all| then io.written else |all|;
              && after.index == 0 && after.output == s.output + all[..n] && after.memory == s.memory
              && after.fd == s.fd && after.inited && after.max == s.max
  {
    hide EncodeAll;
    hide History;
    if s.inited && s.index > 0 {
      BatchSize(s, io);
    }
  }

  lemma BatchSize(s: State, io: Io)
    requires Consistent(s) && s.inited && s.index > 0 && !WrapsAround(s.index, io)
    ensures |Pending(s)| == s.index
    ensures Allocated(s, io) <==> io.malloc && s.index <= MAX_TOTAL
    ensures Allocated(s, io) ==> BufferSize(s.index) == RECORD_SIZE * s.index && !Overruns(s)
  {
    hide EncodeAll;
    hide History;
    BufferSizeExact(s.index);
    SizeNeverMore(s.index);
  }

  /** The globals after a start, however it ends. */
  lemma InitEffect(s: State, max: int32, mode: int, a: Startup)
    requires Consistent(s) && !s.fault && !s.inited && Answers(max, a) && !(max < 1 && s.memory.Dangling?)
    ensures var (after, result) := InitConcrete(s, max, mode, a);
            var delivered := max >= 1 && a.block.Some?;
            var known := mode == 0 || mode == 1;
            var up := delivered && known && a.opening.Succeeds?;
            && result == (if up then 1 else 0)
            && after == s.(inited := up, max := max, fd := after.fd, memory := after.memory, strayCloses := after.strayCloses)
            && after.memory == (if up then Live(a.block.value) else if delivered then Dangling else Null)
            && after.fd == (if up then Opened else if delivered && known && a.opening.Refused? then Invalid else s.fd)
            && after.strayCloses == s.strayCloses + if !up && after.fd.Stale? then 1 else 0
  {
    hide EncodeAll;
    hide History;
  }

  /** A shutdown that gets through leaves a freed array and a closed descriptor behind, and both variables as they were. */
  lemma ShutdownEffect(s: State, io: Io)
    requires Consistent(s) && !s.fault && !(s.inited && WrapsAround(s.index, io))
    ensures var (after, result) := ShutdownConcrete(s, io);
            if !s.inited then after == s && result == 0
            else
              && result == 1 && !after.inited && after.memory == Dangling && after.fd == Stale && after.index == 0
              && after.max == s.max && after.strayCloses == s.strayCloses
              && after.output == FlushConcrete(s, 1, io).0.output
  {
    hide EncodeAll;
    hide History;
    hide BufferSize;
    if s.inited {
      FlushKeeps(s, 1, io);
      FlushEffect(s, 1, io);
    }
  }
}
