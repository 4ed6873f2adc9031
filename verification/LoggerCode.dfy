/** The logger's C code, proved to do what the functions of `Logger` say. */
module LoggerCode {
  import opened Text
  import opened LogCodec
  import opened Logger

  /** The translation unit's static variables. */
  class Globals {
    var inited: bool
    var max: int32
    var records: array?<Record>
    var freed: bool
    var index: nat
    var fd: Descriptor
    var output: seq<byte>
    var strayCloses: nat
    var fault: bool
    var locked: bool
    ghost var accepted: seq<Record>
    ghost var batches: seq<Batch>

    constructor ()
      ensures View() == INITIAL && !locked
    {
      locked := false;
      inited, max, records, freed, index, fd := false, 0, null, false, 0, Stale;
      output, strayCloses, fault, accepted, batches := [], 0, false, [], [];
    }

    ghost function ViewMemory(): Memory
      reads this, records
    {
      if records == null then Null else if freed then Dangling else Live(records[..])
    }

    ghost function View(): State
      reads this, records
    {
      State(inited, max, ViewMemory(), index, fd, output, strayCloses, fault, accepted, batches)
    }

    method BufferConcrete(e: Entry) returns (result: int)
      modifies this, records
      ensures (View(), result) == Logger.BufferConcrete(old(View()), e)
      ensures records == old(records)
    {
      if !inited {
        return 0;
      }
      if records == null || freed || index >= records.Length {
        fault := true;
        return 0;
      }
      var slot := records[index];
      slot := slot.(time := e.time);
      slot := slot.(pid := e.tid);
      slot := slot.(callSiteId := e.callSiteId);
      slot := slot.(exit := e.exit);
      records[index] := slot;
      var name := NameBytes(e.name);
      if name.None? {
        assert records[..] == old(records[..])[index := slot];
        return 0;
      }
      slot := slot.(name := name.value);
      records[index] := slot;
      assert records[..] == old(records[..])[index := slot];
      accepted := accepted + [slot];
      index := index + 1;
      return 1;
    }

    method FlushConcrete(force: int, io: Io) returns (result: int)
      modifies this
      ensures (View(), result) == Logger.FlushConcrete(old(View()), force, io)
      ensures records == old(records)
    {
      hide TakeBatch;
      var flush := false;
      if !inited {
        return 0;
      }
      if index == 0 {
        return 1;
      }
      if force == 1 {
        flush := true;
      } else if index >= max {
        flush := true;
      }
      if flush {
        result := WriteBatch(io);
        return;
      }
      return 1;
    }

    /** The flush proper: copies the records into a temporary buffer and writes it. */
    method WriteBatch(io: Io) returns (result: int)
      modifies this
      ensures (View(), result) == TakeBatch(old(View()), io)
      ensures records == old(records)
    {
      hide EncodeAll;
      hide BufferSize;
      hide Written;
      hide Bytes;
      var total := index;
      var size := BufferSize(total);
      var written := io.leftover;
      ghost var taken, bytes := Pending(View()), [];
      if io.malloc && size >= 0 {
        if records == null || freed || total > records.Length || size < RECORD_SIZE * total {
          fault := true;
          return 0;
        }
        SizeNeverMore(total);
        var dst := new byte[size];
        var end := CopyRecords(dst, records, total);
        written := Written(io, size);
        output := output + dst[..Bytes(io, size)];
        bytes := dst[..Bytes(io, size)];
        assert dst[..end] == dst[..] == EncodeAll(taken);
      }
      batches := batches + [Batch(taken, bytes)];
      index := 0;
      if size != written {
        return 0;
      }
      return 1;
    }

    method FreeRecords()
      modifies this
      ensures View() == if old(ViewMemory()).Dangling? then old(View()).(fault := true)
                        else old(View()).(memory := if records == null then Null else Dangling)
      ensures records == old(records) && locked == old(locked)
    {
      if records != null {
        if freed {
          fault := true;
        } else {
          freed := true;
        }
      }
    }

    method CloseOutput()
      modifies this`fd, this`strayCloses
      ensures View() == old(View()).(fd := if old(fd).Invalid? then Invalid else Stale,
                                     strayCloses := old(strayCloses) + if old(fd).Stale? then 1 else 0)
    {
      if !fd.Invalid? {
        if fd.Stale? {
          strayCloses := strayCloses + 1;
        }
        fd := Stale;
      }
    }

    method DoCleanup()
      requires !fault
      modifies this
      ensures View() == Cleanup(old(View()))
      ensures records == old(records) && locked == old(locked)
    {
      FreeRecords();
      if !fault {
        CloseOutput();
      }
    }

    method AllocRecords(block: Option<seq<Record>>) returns (ok: bool)
      requires block.Some? ==> |block.value| == max
      modifies this
      ensures ok == (max >= 1 && block.Some?)
      ensures View() == if max < 1 then old(View())
                        else old(View()).(memory := if block.Some? then Live(block.value) else Null)
      ensures records == null || records == old(records) || fresh(records)
    {
      if max < 1 {
        return false;
      }
      if block.None? {
        records, freed := null, false;
        return false;
      }
      var contents := block.value;
      records := new Record[max](i requires 0 <= i < |contents| => contents[i]);
      freed := false;
      assert records[..] == contents;
      return true;
    }

    method OpenOutput(mode: int, opening: Opening) returns (ok: bool)
      modifies this`fd
      ensures ok == Outcome(mode, opening).Succeeds?
      ensures View() == old(View()).(fd := match Outcome(mode, opening)
                                           case Abandoned => old(fd)
                                           case Refused => Invalid
                                           case Succeeds => Opened)
    {
      if mode == OUTPUT_FILE || mode == OUTPUT_PIPE {
        if opening.Abandoned? {
          return false;
        }
        fd := if opening.Refused? then Invalid else Opened;
        return opening.Succeeds?;
      }
      return false;
    }

    method InitConcrete(maxRecords: int32, mode: int, a: Startup) returns (result: int)
      requires !fault && Answers(maxRecords, a)
      modifies this
      ensures (View(), result) == Logger.InitConcrete(old(View()), maxRecords, mode, a)
      ensures records == null || records == old(records) || fresh(records)
    {
      var success := false;
      if inited {
        return 0;
      }
      max := maxRecords;
      var hasArray := AllocRecords(a.block);
      if hasArray {
        success := OpenOutput(mode, a.opening);
      }
      if !success {
        DoCleanup();
        return 0;
      }
      inited := true;
      return 1;
    }

    /** Shutdown as it should be: the flush inside the lock does not take the lock again. */
    method ShutdownConcrete(io: Io) returns (result: int)
      requires !fault
      modifies this
      ensures (View(), result) == Logger.ShutdownConcrete(old(View()), io)
      ensures records == old(records)
    {
      if !inited {
        return 0;
      }
      var flushed := FlushConcrete(1, io);
      if fault {
        return 0;
      }
      DoCleanup();
      if fault {
        return 0;
      }
      inited := false;
      return 1;
    }

    /** `pthread_mutex_lock` on a mutex that is not recursive: false stands for waiting for ever. */
    method Lock() returns (acquired: bool)
      modifies this`locked
      ensures acquired == !old(locked) && locked
    {
      acquired := !locked;
      locked := true;
    }

    method Unlock()
      modifies this`locked
      ensures !locked
    {
      locked := false;
    }

    /** `clam_prov_logging_check_and_flush`; without an answer the caller is blocked. */
    method CheckAndFlush(force: int, io: Io) returns (result: Option<int>)
      modifies this
      ensures records == old(records)
      ensures old(locked) ==> result == None && locked && View() == old(View())
      ensures !old(locked) ==>
                result.Some? && !locked && (View(), result.value) == Logger.FlushConcrete(old(View()), force, io)
    {
      hide Logger.FlushConcrete;
      var acquired := Lock();
      if !acquired {
        return None;
      }
      var r := FlushConcrete(force, io);
      Unlock();
      return Some(r);
    }

    /** `clam_prov_logging_shutdown_concrete` as it is written, with the flush that takes the lock. */
    method ShutdownRelocking(io: Io) returns (result: Option<int>)
      requires !fault
      modifies this
      ensures records == old(records)
      ensures !old(inited) ==> result == Some(0) && locked == old(locked) && View() == old(View())
      ensures old(inited) && old(locked) ==> result == None && locked && View() == old(View())
      ensures old(inited) && !old(locked) ==>
                result.Some? && !locked && (View(), result.value) == Logger.ShutdownConcrete(old(View()), io)
    {
      hide Logger.FlushConcrete;
      if !inited {
        return Some(0);
      }
      var flushed := CheckAndFlush(1, io);
      if flushed.None? {
        return None;
      }
      if fault {
        return Some(0);
      }
      DoCleanup();
      if fault {
        return Some(0);
      }
      inited := false;
      return Some(1);
    }

    /** `clam_prov_logging_shutdown` as it is written: of an initialised logger it never returns, and the lock stays taken. */
    method Shutdown(io: Io) returns (result: Option<int>)
      requires !fault && !locked
      modifies this
      ensures records == old(records) && View() == old(View())
      ensures if old(inited) then result == None && locked else result == Some(0) && !locked
    {
      hide Logger.ShutdownConcrete;
      var acquired := Lock();
      result := ShutdownRelocking(io);
      if result.Some? {
        Unlock();
      }
    }

    /** `clam_prov_logging_buffer`: the insertion and the check, each under the lock, without a second thread. */
    method Buffer(e: Entry, io: Io) returns (result: int)
      requires !fault && !locked
      modifies this, records
      ensures !fault ==> !locked
      ensures (View(), result) == Step(old(View()), Call.Buffer(e, io))
      ensures records == old(records)
    {
      var acquired := Lock();
      result := BufferConcrete(e);
      if fault {
        return 0;
      }
      Unlock();
      var flushed := CheckAndFlush(0, io);
      if fault {
        return 0;
      }
    }
  }
}
