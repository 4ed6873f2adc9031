/** The byte layout of the log: how the logger writes records and how the reader takes them apart again. */
module LogCodec {
  import opened Text

  type byte = n: int | 0 <= n < 256
  type uint64 = n: int | 0 <= n < 0x1_0000_0000_0000_0000
  type int32 = n: int | -0x8000_0000 <= n < 0x8000_0000
  type int64 = n: int | -0x8000_0000_0000_0000 <= n < 0x8000_0000_0000_0000

  const NAME_LENGTH: nat := 256
  const RECORD_SIZE: nat := 284

  type NameField = s: seq<byte> | |s| == NAME_LENGTH witness seq(NAME_LENGTH, i => 0)

  datatype Record = Record(time: uint64, pid: int32, callSiteId: int64, exit: int64, name: NameField)

  // ---- Integers ----

  function Pow256(width: nat): nat {
    if width == 0 then 1 else 256 * Pow256(width - 1)
  }

  /** The memory image of an unsigned integer, least significant byte first. */
  function ToBytes(n: nat, width: nat): (bs: seq<byte>)
    ensures |bs| == width
  {
    if width == 0 then [] else [n % 256] + ToBytes(n / 256, width - 1)
  }

  function FromBytes(bs: seq<byte>): nat {
    if bs == [] then 0 else bs[0] + 256 * FromBytes(bs[1..])
  }

  /** Two's complement in `width` bytes. */
  function Unsigned(v: int, width: nat): nat
    requires -(Pow256(width) as int) <= v < Pow256(width)
  {
    if v < 0 then v + Pow256(width) else v
  }

  function Signed(n: nat, width: nat): int {
    if 2 * n < Pow256(width) then n else n - Pow256(width)
  }

  lemma {:induction false} BytesRoundTrip(n: nat, width: nat)
    requires n < Pow256(width)
    ensures FromBytes(ToBytes(n, width)) == n
  {
    if width > 0 {
      BytesRoundTrip(n / 256, width - 1);
      assert ToBytes(n, width)[1..] == ToBytes(n / 256, width - 1);
    }
  }

  lemma {:induction false} BytesBound(bs: seq<byte>)
    ensures FromBytes(bs) < Pow256(|bs|)
  {
    if bs != [] {
      BytesBound(bs[1..]);
    }
  }

  lemma Widths()
    ensures Pow256(4) == 0x1_0000_0000 && Pow256(8) == 0x1_0000_0000_0000_0000
  {
    assert Pow256(1) == 256 && Pow256(2) == 0x1_0000 && Pow256(3) == 0x100_0000;
    assert Pow256(5) == 0x100_0000_0000 && Pow256(6) == 0x1_0000_0000_0000 && Pow256(7) == 0x100_0000_0000_0000;
  }

  // ---- Records ----

  /** The 284 bytes of a record, field after field without padding. */
  function Encode(r: Record): (bs: seq<byte>)
    ensures |bs| == RECORD_SIZE
  {
    Widths();
    ToBytes(r.time, 8) + ToBytes(Unsigned(r.pid, 4), 4) + ToBytes(Unsigned(r.callSiteId, 8), 8) +
    ToBytes(Unsigned(r.exit, 8), 8) + r.name
  }

  /** The reader's `memcpy`s at its running offset. */
  function Decode(data: seq<byte>): Record
    requires |data| == RECORD_SIZE
  {
    Widths();
    BytesBound(data[..8]);
    BytesBound(data[8..12]);
    BytesBound(data[12..20]);
    BytesBound(data[20..28]);
    Record(FromBytes(data[..8]), Signed(FromBytes(data[8..12]), 4), Signed(FromBytes(data[12..20]), 8),
           Signed(FromBytes(data[20..28]), 8), data[28..])
  }

  lemma DecodeEncode(r: Record)
    ensures Decode(Encode(r)) == r
  {
    Widths();
    var bs := Encode(r);
    assert bs[..8] == ToBytes(r.time, 8);
    assert bs[8..12] == ToBytes(Unsigned(r.pid, 4), 4);
    assert bs[12..20] == ToBytes(Unsigned(r.callSiteId, 8), 8);
    assert bs[20..28] == ToBytes(Unsigned(r.exit, 8), 8);
    assert bs[28..] == r.name;
    BytesRoundTrip(r.time, 8);
    BytesRoundTrip(Unsigned(r.pid, 4), 4);
    BytesRoundTrip(Unsigned(r.callSiteId, 8), 8);
    BytesRoundTrip(Unsigned(r.exit, 8), 8);
  }

  /** Four bytes as a number, the least significant one first. */
  function Word32(bs: seq<byte>): int
    requires |bs| == 4
  {
    bs[0] as int + 0x100 * (bs[1] as int) + 0x1_0000 * (bs[2] as int) + 0x100_0000 * (bs[3] as int)
  }

  function Word64(bs: seq<byte>): int
    requires |bs| == 8
  {
    Word32(bs[..4]) + 0x1_0000_0000 * Word32(bs[4..])
  }

  lemma FourBytes(bs: seq<byte>)
    requires |bs| >= 4
    ensures FromBytes(bs) == Word32(bs[..4]) + 0x1_0000_0000 * FromBytes(bs[4..])
  {
    assert bs[1..][1..] == bs[2..] && bs[2..][1..] == bs[3..] && bs[3..][1..] == bs[4..];
  }

  lemma Word32Is(n: nat)
    requires n < Pow256(4)
    ensures Word32(ToBytes(n, 4)) == n
  {
    hide ToBytes;
    BytesRoundTrip(n, 4);
    FourBytes(ToBytes(n, 4));
    assert ToBytes(n, 4)[..4] == ToBytes(n, 4);
  }

  lemma Word64Is(n: nat)
    requires n < Pow256(8)
    ensures Word64(ToBytes(n, 8)) == n
  {
    hide ToBytes;
    var bs := ToBytes(n, 8);
    BytesRoundTrip(n, 8);
    FourBytes(bs);
    FourBytes(bs[4..]);
    assert bs[4..][..4] == bs[4..];
  }

  /** Where each field lies in a record, and that negative numbers are in two's complement. */
  lemma RecordLayout(r: Record)
    ensures var bs := Encode(r);
            && Word64(bs[..8]) == r.time
            && Word32(bs[8..12]) == (if r.pid < 0 then r.pid + 0x1_0000_0000 else r.pid)
            && Word64(bs[12..20]) == (if r.callSiteId < 0 then r.callSiteId + 0x1_0000_0000_0000_0000 else r.callSiteId)
            && Word64(bs[20..28]) == (if r.exit < 0 then r.exit + 0x1_0000_0000_0000_0000 else r.exit)
            && bs[28..] == r.name
  {
    hide ToBytes;
    hide Word32;
    hide Word64;
    Widths();
    var bs := Encode(r);
    assert bs[..8] == ToBytes(r.time, 8);
    assert bs[8..12] == ToBytes(Unsigned(r.pid, 4), 4);
    assert bs[12..20] == ToBytes(Unsigned(r.callSiteId, 8), 8);
    assert bs[20..28] == ToBytes(Unsigned(r.exit, 8), 8);
    Word64Is(r.time);
    Word32Is(Unsigned(r.pid, 4));
    Word64Is(Unsigned(r.callSiteId, 8));
    Word64Is(Unsigned(r.exit, 8));
  }

  // ---- Streams of records ----

  function EncodeAll(rs: seq<Record>): (bs: seq<byte>)
    ensures |bs| == RECORD_SIZE * |rs|
  {
    if rs == [] then [] else EncodeAll(rs[..|rs| - 1]) + Encode(rs[|rs| - 1])
  }

  lemma ChunkBounds(length: nat, k: nat)
    requires k < length / RECORD_SIZE
    ensures RECORD_SIZE * k + RECORD_SIZE <= length
  {
  }

  /** All complete records of a byte stream; a shorter rest is not a record. */
  function DecodeAll(bs: seq<byte>): (rs: seq<Record>)
    ensures |rs| == |bs| / RECORD_SIZE
  {
    seq(|bs| / RECORD_SIZE, k requires 0 <= k < |bs| / RECORD_SIZE =>
      ChunkBounds(|bs|, k); Decode(bs[RECORD_SIZE * k..RECORD_SIZE * k + RECORD_SIZE]))
  }

  lemma {:induction false} EncodeConcat(a: seq<Record>, b: seq<Record>)
    ensures EncodeAll(a + b) == EncodeAll(a) + EncodeAll(b)
  {
    hide Encode;
    if b == [] {
      assert a + b == a;
    } else {
      assert (a + b)[..|a + b| - 1] == a + b[..|b| - 1];
      EncodeConcat(a, b[..|b| - 1]);
    }
  }

  /** Where record `k` of an encoded batch lies. */
  lemma {:induction false} EncodedAt(rs: seq<Record>, k: nat)
    requires k < |rs|
    ensures RECORD_SIZE * k + RECORD_SIZE <= |EncodeAll(rs)|
    ensures EncodeAll(rs)[RECORD_SIZE * k..RECORD_SIZE * k + RECORD_SIZE] == Encode(rs[k])
  {
    hide Encode;
    var init := rs[..|rs| - 1];
    if k < |init| {
      EncodedAt(init, k);
      assert EncodeAll(rs)[RECORD_SIZE * k..RECORD_SIZE * k + RECORD_SIZE] ==
             EncodeAll(init)[RECORD_SIZE * k..RECORD_SIZE * k + RECORD_SIZE];
    }
  }

  /** From a stream cut off anywhere, exactly the records before the cut come back. */
  lemma DecodeTruncated(rs: seq<Record>, cut: nat)
    requires cut <= |EncodeAll(rs)|
    ensures DecodeAll(EncodeAll(rs)[..cut]) == rs[..cut / RECORD_SIZE]
  {
    hide Encode;
    hide Decode;
    var bs := EncodeAll(rs)[..cut];
    forall k | 0 <= k < cut / RECORD_SIZE
      ensures DecodeAll(bs)[k] == rs[k]
    {
      ChunkBounds(cut, k);
      EncodedAt(rs, k);
      assert bs[RECORD_SIZE * k..RECORD_SIZE * k + RECORD_SIZE] == Encode(rs[k]);
      DecodeEncode(rs[k]);
    }
  }

  /** Whatever is flushed in however many batches is read back record for record. */
  lemma DecodeEncoded(rs: seq<Record>)
    ensures DecodeAll(EncodeAll(rs)) == rs
  {
    hide Encode;
    hide Decode;
    DecodeTruncated(rs, |EncodeAll(rs)|);
    assert EncodeAll(rs)[..|EncodeAll(rs)|] == EncodeAll(rs);
    assert rs[..|rs|] == rs;
  }

  // ---- Function names ----

  function Zeros(n: nat): (s: seq<byte>)
    ensures |s| == n
  {
    seq(n, i => 0)
  }

  /** `copy_str_n` on the name field: a null or empty name is refused, a long one is cut without a terminator. */
  function NameBytes(name: Option<seq<byte>>): Option<NameField> {
    match name
    case None => None
    case Some(s) =>
      if s == [] then None
      else if |s| >= NAME_LENGTH then Some(s[..NAME_LENGTH])
      else Some(s + Zeros(NAME_LENGTH - |s|))
  }

  /** The C string a buffer holds, if it is terminated within the buffer. */
  function CString(s: seq<byte>): Option<seq<byte>> {
    if s == [] then None
    else if s[0] == 0 then Some([])
    else match CString(s[1..]) case None => None case Some(rest) => Some([s[0]] + rest)
  }

  lemma {:induction false} NoTerminator(s: seq<byte>)
    requires forall i :: 0 <= i < |s| ==> s[i] != 0
    ensures CString(s) == None
  {
    if s != [] {
      NoTerminator(s[1..]);
    }
  }

  lemma {:induction false} CStringOf(s: seq<byte>, n: nat)
    requires forall i :: 0 <= i < |s| ==> s[i] != 0
    requires n > 0
    ensures CString(s + Zeros(n)) == Some(s)
  {
    if s == [] {
      assert s + Zeros(n) == Zeros(n);
    } else {
      assert (s + Zeros(n))[1..] == s[1..] + Zeros(n);
      CStringOf(s[1..], n);
      assert [s[0]] + s[1..] == s;
    }
  }

  /** A name comes back as the string it was exactly when it is shorter than the field. */
  lemma NameRoundTrip(s: seq<byte>)
    requires s != [] && forall i :: 0 <= i < |s| ==> s[i] != 0
    ensures NameBytes(Some(s)).Some?
    ensures CString(NameBytes(Some(s)).value) == Some(s) <==> |s| < NAME_LENGTH
    ensures |s| >= NAME_LENGTH ==>
              NameBytes(Some(s)).value == s[..NAME_LENGTH] && CString(NameBytes(Some(s)).value) == None
  {
    if |s| < NAME_LENGTH {
      CStringOf(s, NAME_LENGTH - |s|);
    } else {
      var cut: seq<byte> := s[..NAME_LENGTH];
      NoTerminator(cut);
      assert NameBytes(Some(s)).value == cut;
    }
  }

  // ---- Sizes ----

  /** An unsigned product stored in a 32-bit `int`. */
  function ToInt32(n: nat): int32 {
    var m := n % 0x1_0000_0000;
    if m < 0x8000_0000 then m else m - 0x1_0000_0000
  }

  /** `get_dst_buffer_size`. */
  function BufferSize(total: nat): int32 {
    ToInt32(RECORD_SIZE * total)
  }

  const MAX_TOTAL: nat := 7561562

  /** The 32-bit size is right for batches up to a bound and for no larger ones. */
  lemma BufferSizeExact(total: nat)
    ensures BufferSize(total) == RECORD_SIZE * total <==> total <= MAX_TOTAL
  {
  }

  // ---- The copying code ----

  method MemCpy(dst: array<byte>, at: nat, src: seq<byte>)
    requires at + |src| <= dst.Length
    modifies dst
    ensures dst[..] == old(dst[..at]) + src + old(dst[at + |src|..])
  {
    var i := 0;
    while i < |src|
      invariant i <= |src|
      invariant dst[..at] == old(dst[..at]) && dst[at..at + i] == src[..i] && dst[at + i..] == old(dst[at + i..])
    {
      dst[at + i] := src[i];
      assert dst[at..at + i + 1] == dst[at..at + i] + [src[i]];
      i := i + 1;
    }
    assert dst[..] == dst[..at] + dst[at..at + i] + dst[at + i..];
  }

  /** `copy_record_to_dst_buffer`; the answer is the place behind the record. */
  method CopyRecord(dst: array<byte>, at: nat, r: Record) returns (next: nat)
    requires at + RECORD_SIZE <= dst.Length
    modifies dst
    ensures next == at + RECORD_SIZE
    ensures dst[..] == old(dst[..at]) + Encode(r) + old(dst[next..])
  {
    Widths();
    ghost var before := dst[..];
    var time, pid := ToBytes(r.time, 8), ToBytes(Unsigned(r.pid, 4), 4);
    var id, exit := ToBytes(Unsigned(r.callSiteId, 8), 8), ToBytes(Unsigned(r.exit, 8), 8);
    var offset := 0;
    MemCpy(dst, at + offset, time);
    offset := offset + 8;
    MemCpy(dst, at + offset, pid);
    TwoCopies(before, at, time, pid);
    offset := offset + 4;
    MemCpy(dst, at + offset, id);
    TwoCopies(before, at, time + pid, id);
    offset := offset + 8;
    MemCpy(dst, at + offset, exit);
    TwoCopies(before, at, time + pid + id, exit);
    offset := offset + 8;
    MemCpy(dst, at + offset, r.name);
    TwoCopies(before, at, time + pid + id + exit, r.name);
    offset := offset + NAME_LENGTH;
    next := at + offset;
  }

  lemma TwoCopies(s: seq<byte>, at: nat, a: seq<byte>, b: seq<byte>)
    requires at + |a| + |b| <= |s|
    ensures var s1 := s[..at] + a + s[at + |a|..];
            s1[..at + |a|] + b + s1[at + |a| + |b|..] == s[..at] + (a + b) + s[at + |a + b|..]
  {
  }

  /** `copy_records_to_dst_buffer`: writes each of the batch's bytes once and stops right behind them. */
  method CopyRecords(dst: array<byte>, records: array<Record>, total: nat) returns (next: nat)
    requires total <= records.Length && RECORD_SIZE * total <= dst.Length && dst as object != records
    modifies dst
    ensures next == RECORD_SIZE * total
    ensures dst[..next] == EncodeAll(records[..total]) && dst[next..] == old(dst[next..])
  {
    hide Encode;
    next := 0;
    var i := 0;
    while i < total
      invariant i <= total && next == RECORD_SIZE * i
      invariant dst[..next] == EncodeAll(records[..i]) && dst[next..] == old(dst[next..])
    {
      ghost var done := dst[..next];
      ghost var at := next;
      next := CopyRecord(dst, next, records[i]);
      assert dst[..next] == done + Encode(records[i]);
      assert records[..i + 1][..i] == records[..i];
      i := i + 1;
    }
  }

  // ---- The reader ----

  datatype Stop = CountReached | EndOfFile | ReadFailed | Incomplete

  /** How many bytes `read` delivers from a regular file. */
  function Available(file: seq<byte>, position: nat): nat {
    if |file| - position >= RECORD_SIZE then RECORD_SIZE
    else if |file| > position then |file| - position
    else 0
  }

  /** The number of the records the reader prints, and why it stops. */
  function ReaderResult(file: seq<byte>, count: int, failing: Option<nat>): (nat, Stop) {
    var wanted := if count < 0 then 0 else count;
    var whole := |file| / RECORD_SIZE;
    if failing.Some? && failing.value < wanted && failing.value <= whole then (failing.value, ReadFailed)
    else if wanted <= whole then (wanted, CountReached)
    else if |file| % RECORD_SIZE == 0 then (whole, EndOfFile)
    else (whole, Incomplete)
  }

  /** The reader stops at the count, at its first failing `read`, at the end of the file, or where less than a record is left. */
  lemma ReaderStops(file: seq<byte>, count: int, failing: Option<nat>)
    ensures var (n, stop) := ReaderResult(file, count, failing);
            && RECORD_SIZE * n <= |file| && (failing.Some? ==> n <= failing.value || n >= count)
            && (stop == CountReached <==> n >= count)
            && (stop == ReadFailed <==> n < count && failing == Some(n))
            && (stop == EndOfFile <==> n < count && failing != Some(n) && RECORD_SIZE * n == |file|)
            && (stop == Incomplete <==> n < count && failing != Some(n) && 0 < |file| - RECORD_SIZE * n < RECORD_SIZE)
  {
  }

  /** The reader's loop; `failing` is the number of the `read` call that reports an error, if one does. */
  method ReadRecords(file: seq<byte>, count: int, failing: Option<nat>) returns (records: seq<Record>, stop: Stop)
    ensures (|records|, stop) == ReaderResult(file, count, failing)
    ensures records == DecodeAll(file)[..|records|]
  {
    hide Decode;
    records, stop := [], CountReached;
    var i, position := 0, 0;
    while i < count
      invariant 0 <= i && (i <= count || count < 0) && position == RECORD_SIZE * i <= |file|
      invariant |records| == i <= |file| / RECORD_SIZE && records == DecodeAll(file)[..i]
      invariant failing.Some? ==> failing.value >= i
      invariant count < 0 ==> i == 0
    {
      if failing == Some(i) {
        stop := ReadFailed;
        return;
      }
      var bytesRead := Available(file, position);
      if bytesRead == 0 {
        stop := EndOfFile;
        return;
      }
      if bytesRead != RECORD_SIZE {
        stop := Incomplete;
        return;
      }
      var data := file[position..position + RECORD_SIZE];
      records := records + [Decode(data)];
      position := position + RECORD_SIZE;
      i := i + 1;
    }
  }
}
