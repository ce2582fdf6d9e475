/** The engine on a byte array, used by one caller at a time, refines an abstract log (engine.rs). */
module Engine {
  import opened Bytes
  import opened Layout
  import opened Media
  import opened Records
  import opened RecoverySpec
  import opened Recovery
  import opened Compaction
  import opened Metrics
  import opened AbstractLog
  import opened LogImage

  datatype FenceError =
    | PoolFull(capacity: nat, requestedSlot: u64)
    | PayloadTooLarge(max: nat, got: nat)
    | ChecksumMismatch(index: u64)
    | IndexOutOfBounds(index: u64, committedTail: u64)
    | InvalidMagic(expected: u64, actual: u64)

  // ---- The abstract log's answers ----

  ghost function LogRead(g: Geometry, log: Log, index: u64): Result<Option<Entry>, FenceError>
    requires LogOk(g, log)
  {
    if index == 0 || index > log.tail then Err(IndexOutOfBounds(index, log.tail))
    else if log.slots[index - 1].Live? then Ok(Some(EntryOf(index - 1, log.slots[index - 1].args)))
    else Ok(None)
  }

  /** The in-order live records of indices [start, end), or the first index out of range. */
  ghost function LogReadRange(g: Geometry, log: Log, start: u64, end: u64): Result<seq<Entry>, FenceError>
    requires LogOk(g, log) && start <= end
  {
    if start == end then Ok([])
    else if start == 0 then Err(IndexOutOfBounds(0, log.tail))
    else if end > log.tail + 1 then Err(IndexOutOfBounds(Max(start, log.tail + 1), log.tail))
    else Ok(LiveEntries(g, log, start - 1, end - 1))
  }

  /** On a log without gaps an append's index reads back as its record at once, and every index reads as before; so a
      second append does not disturb the first. */
  lemma AppendReadsBack(g: Geometry, log: Log, a: Args, index: u64)
    requires LogOk(g, log) && ArgsOk(g, a) && |log.slots| < g.capacity && log.tail == |log.slots|
    ensures var r := AppendLog(log, a);
            && LogOk(g, r)
            && LogRead(g, r, |log.slots| + 1) == Ok(Some(EntryOf(|log.slots|, a)))
            && (1 <= index <= log.tail ==> LogRead(g, r, index) == LogRead(g, log, index))
  {
    ExtendedOk(g, log, Live(a));
    SweptOk(g, Extended(log, Live(a)));
    AppendMeans(log, a);
    LogBounds(g, log);
  }

  /** After trim(n) the indices up to n read as missing, and the others as before. */
  lemma TrimReadsNone(g: Geometry, log: Log, n: nat, index: u64)
    requires LogOk(g, log) && n <= log.tail
    ensures LogOk(g, TrimLog(log, n))
    ensures LogRead(g, TrimLog(log, n), index) == if 1 <= index <= n then Ok(None) else LogRead(g, log, index)
  {
    TrimOk(g, log, n);
    TrimMeans(log, n);
  }

  /** An index that read refuses. */
  predicate OutOfRange(log: Log, index: nat) { index == 0 || index > log.tail }

  /** read_range is refused exactly if some index of the range is out of range, and names the first such. */
  lemma RangeRefusedIff(g: Geometry, log: Log, start: u64, end: u64)
    requires LogOk(g, log) && start <= end
    ensures var r := LogReadRange(g, log, start, end);
            && (r.Err? <==> exists i: nat :: start <= i < end && OutOfRange(log, i))
            && (r.Err? ==> exists i: u64 ::
                  && start <= i < end && OutOfRange(log, i) && r.error == IndexOutOfBounds(i, log.tail)
                  && forall k: nat | start <= k < i :: !OutOfRange(log, k))
  {
    LogBounds(g, log);
    hide LogOk, LiveEntries;
    if LogReadRange(g, log, start, end).Err? {
      var i := if start == 0 then 0 else Max(start, log.tail + 1);
      assert start <= i < end && OutOfRange(log, i);
    }
  }

  /** Otherwise its records come in strictly increasing order of their indices. */
  lemma RangeInOrder(g: Geometry, log: Log, start: u64, end: u64)
    requires LogOk(g, log) && start <= end && LogReadRange(g, log, start, end).Ok?
    ensures var es := LogReadRange(g, log, start, end).value;
            forall i, j | 0 <= i < j < |es| :: es[i].index < es[j].index
  {
    hide LogOk, LiveEntries;
    if start < end {
      Ascends(g, log, start - 1, end - 1, LogReadRange(g, log, start, end).value);
    }
  }

  lemma Ascends(g: Geometry, log: Log, lo: nat, hi: nat, es: seq<Entry>)
    requires LogOk(g, log) && lo <= hi <= log.tail && es == LiveEntries(g, log, lo, hi)
    ensures forall i, j | 0 <= i < j < |es| :: es[i].index < es[j].index
  {
    LiveEntriesInOrder(g, log, lo, hi);
  }

  /** And they are exactly the records of the live slots of the range. */
  lemma RangeContains(g: Geometry, log: Log, start: u64, end: u64, x: Entry)
    requires LogOk(g, log) && start <= end && LogReadRange(g, log, start, end).Ok?
    ensures |log.slots| < U32_LIMIT
    ensures forall u | 0 <= u < |log.slots| && log.slots[u].Live? :: log.slots[u].args.host < U16_LIMIT
    ensures x in LogReadRange(g, log, start, end).value <==>
              exists u: nat :: u < |log.slots| && start <= u + 1 < end && log.slots[u].Live?
                               && x == EntryOf(u, log.slots[u].args)
  {
    LogBounds(g, log);
    hide LogOk, LiveEntries;
    if start < end {
      RangeHas(g, log, start, end, x);
    }
  }

  lemma RangeHas(g: Geometry, log: Log, start: nat, end: nat, x: Entry)
    requires LogOk(g, log) && 0 < start <= end <= log.tail + 1 && log.tail <= |log.slots| < U32_LIMIT
    requires forall u | 0 <= u < |log.slots| && log.slots[u].Live? :: log.slots[u].args.host < U16_LIMIT
    ensures x in LiveEntries(g, log, start - 1, end - 1) <==>
              exists u: nat :: u < |log.slots| && start <= u + 1 < end && log.slots[u].Live?
                               && x == EntryOf(u, log.slots[u].args)
  {
    hide LogOk, LiveEntries;
    LiveEntriesAre(g, log, start - 1, end - 1, x);
  }

  /** How many records a refused read_range has read before it comes to the index it refuses. */
  ghost function ReadInVain(g: Geometry, log: Log, start: u64): nat
    requires LogOk(g, log)
  {
    if start == 0 || start > log.tail then 0 else |LiveEntries(g, log, start - 1, log.tail)|
  }

  // ---- Creating a pool ----

  /** A header over a zero-filled pool, durable. */
  ghost predicate FreshPool(e: Env, m: Mem) {
    && PoolSized(e, m) && HEADER_SIZE <= |m.vol|
    && WordAt(m.vol, HDR_MAGIC) == MAGIC && WordAt(m.vol, HDR_CAPACITY) == e.g.capacity
    && WordAt(m.vol, HDR_RECORD_SIZE) == e.g.recordSize && WordAt(m.vol, HDR_MAX_HOSTS) == e.g.maxHosts
    && WordAt(m.vol, HDR_COMMITTED_TAIL) == 0 && WordAt(m.vol, HDR_RESERVE_TAIL) == 0 && WordAt(m.vol, HDR_EPOCH) == 1
    && m.dur == m.vol
    && forall i | HEADER_SIZE <= i < |m.vol| :: m.vol[i] == 0
  }

  function MagicOf(e: Env, v: seq<byte>): u64
    requires e.g.Ok() && |v| == e.g.totalSize
  {
    MulLe(0, e.g.capacity, e.g.recordSize);
    WordAt(v, HDR_MAGIC)
  }

  /** The header words by their offsets. */
  lemma HeaderMeans(e: Env, v: seq<byte>)
    requires e.g.Ok() && |v| == e.g.totalSize
    ensures |v| >= 64
    ensures MagicOf(e, v) == FromLE(v[0..8])
    ensures Tail(e, v) == FromLE(v[32..40]) && ReserveOf(e, v) == FromLE(v[40..48])
    ensures Limit(e, v) == Min(FromLE(v[40..48]), e.g.capacity)
  {
    MulLe(0, e.g.capacity, e.g.recordSize);
  }

  lemma ZeroWord(v: seq<byte>, off: nat)
    requires off + 8 <= |v| && forall i | off <= i < off + 8 :: v[i] == 0
    ensures WordAt(v, off) == 0
  {
    assert LE(0, 8) == [0, 0, 0, 0, 0, 0, 0, 0] by {
      assert LE(0, 4) == [0, 0, 0, 0];
    }
    assert v[off..off + 8] == LE(0, 8);
    Word64(0);
  }

  lemma {:induction false} ZeroSums(g: Geometry, v: seq<byte>, f: nat, k: nat)
    requires g.Ok() && |v| == g.totalSize && FieldOk(f) && k <= g.maxHosts
    requires forall i | 0 <= i < |v| && g.RecordsEnd() <= i :: v[i] == 0
    ensures SumOver(g, v, f, k) == 0
  {
    hide WordAt;
    if k > 0 {
      ZeroSums(g, v, f, k - 1);
      ZeroWord(v, g.MetricsOffset(k - 1) + f);
    }
  }

  /** A freshly created pool represents the empty log, and its counters are all zero. */
  lemma FreshIsEmpty(e: Env, m: Mem)
    requires FreshPool(e, m)
    ensures Represents(e, m, EMPTY)
    ensures Tally(e.g, m.vol) == PoolStats(0, 0, 0, 0, 0, 0, 0)
  {
    hide WordAt, SumOver;
    MulLe(0, e.g.capacity, e.g.recordSize);
    forall u: nat | u < e.g.capacity ensures StateOf(e.g, m.vol, u) == STATE_FREE {
      RecordBounds(e.g, u);
    }
    ZeroSums(e.g, m.vol, METRICS_APPENDS_TOTAL, e.g.maxHosts);
    ZeroSums(e.g, m.vol, METRICS_APPENDS_FAILED, e.g.maxHosts);
    ZeroSums(e.g, m.vol, METRICS_BYTES_WRITTEN, e.g.maxHosts);
    ZeroSums(e.g, m.vol, METRICS_READS_TOTAL, e.g.maxHosts);
    ZeroSums(e.g, m.vol, METRICS_CHECKSUM_FAILURES, e.g.maxHosts);
    ZeroSums(e.g, m.vol, METRICS_RECOVERY_RUNS, e.g.maxHosts);
    ZeroSums(e.g, m.vol, METRICS_ABANDONED_FOUND, e.g.maxHosts);
  }

  /** What storing a header word does to the header words and to the rest. */
  lemma HeaderStore(v: seq<byte>, off: nat, x: u64)
    requires off % 8 == 0 && off + 8 <= HEADER_SIZE <= |v|
    ensures forall w: nat | w % 8 == 0 && w + 8 <= HEADER_SIZE ::
              WordAt(Splice(v, off, LE(x, 8)), w) == (if w == off then x else WordAt(v, w))
    ensures forall i | HEADER_SIZE <= i < |v| :: Splice(v, off, LE(x, 8))[i] == v[i]
  {
    hide WordAt;
    WordHere(v, off, x);
    forall w: nat | w % 8 == 0 && w + 8 <= HEADER_SIZE && w != off
      ensures WordAt(Splice(v, off, LE(x, 8)), w) == WordAt(v, w)
    {
      WordApart(v, off, LE(x, 8), w);
    }
  }

  lemma HeaderFlushed(m: Mem)
    requires |m.vol| == |m.dur| && HEADER_SIZE <= |m.vol|
    requires forall i | HEADER_SIZE <= i < |m.vol| :: m.vol[i] == m.dur[i]
    ensures FlushRange(m, 0, HEADER_SIZE) == Mem(m.vol, m.vol)
  {
    FlushCoversExactly(m, 0, HEADER_SIZE);
    var r := FlushRange(m, 0, HEADER_SIZE);
    forall i | 0 <= i < |m.vol| ensures r.dur[i] == m.vol[i] {
      if i < HEADER_SIZE {
        MeetsItself(i, 0, HEADER_SIZE);
      }
    }
  }

  method SetHeader(media: Backend, field: nat, x: u64)
    requires media.Valid() && HEADER_SIZE <= media.vol.Length && field % 8 == 0 && field + 8 <= HEADER_SIZE
    modifies media, media.vol
    ensures media.Valid() && media.dur == old(media.dur)
    ensures forall w: nat | w % 8 == 0 && w + 8 <= HEADER_SIZE ::
              WordAt(media.M().vol, w) == (if w == field then x else WordAt(old(media.M().vol), w))
    ensures forall i | HEADER_SIZE <= i < media.vol.Length :: media.vol[i] == old(media.vol[i])
  {
    HeaderStore(media.M().vol, field, x);
    ghost var v := media.vol[..];
    media.StoreU64(field, x);
    assert media.M().vol == Splice(v, field, LE(x, 8));
    assert forall i | HEADER_SIZE <= i < media.vol.Length :: media.vol[i] == media.M().vol[i];
  }

  /** The create branch of open, over a zero-filled file. */
  method InitHeader(e: Env, media: Backend)
    requires e.g.Ok() && media.Valid() && media.vol.Length == e.g.totalSize
    requires forall i | 0 <= i < media.vol.Length :: media.vol[i] == 0 && media.dur[i] == 0
    modifies media, media.vol
    ensures media.Valid() && FreshPool(e, media.M())
  {
    hide WordAt, FlushRange;
    MulLe(0, e.g.capacity, e.g.recordSize);
    SetHeader(media, HDR_MAGIC, MAGIC);
    SetHeader(media, HDR_CAPACITY, e.g.capacity);
    SetHeader(media, HDR_RECORD_SIZE, e.g.recordSize);
    SetHeader(media, HDR_MAX_HOSTS, e.g.maxHosts);
    SetHeader(media, HDR_COMMITTED_TAIL, 0);
    SetHeader(media, HDR_RESERVE_TAIL, 0);
    SetHeader(media, HDR_EPOCH, 1);
    HeaderFlushed(media.M());
    media.Flush(0, HEADER_SIZE);
  }

  // ---- The steps of an append ----

  /** fetch_add on reserve_tail. */
  method AddReserve(e: Env, media: Backend, delta: u64) returns (previous: u64)
    requires e.g.Ok() && media.Valid() && media.vol.Length == e.g.totalSize
    modifies media, media.vol
    ensures media.Valid() && previous == ReserveOf(e, old(media.vol[..]))
    ensures media.M() == SetReserve(e, old(media.M()), WrapAdd(previous, delta))
    ensures media.trace == old(media.trace) + [Store(HDR_RESERVE_TAIL, LE(WrapAdd(previous, delta), 8))]
  {
    MulLe(0, e.g.capacity, e.g.recordSize);
    assert media.vol[HDR_RESERVE_TAIL..HDR_RESERVE_TAIL + 8] == media.vol[..][HDR_RESERVE_TAIL..HDR_RESERVE_TAIL + 8];
    previous := media.FetchAddU64(HDR_RESERVE_TAIL, delta);
  }

  /** Where the fields of a record may be stored. */
  lemma FieldRoom(g: Geometry, u: nat, lo: nat, n: nat)
    requires g.Ok() && u < g.capacity && lo + n <= g.recordSize
    ensures g.RecordOffset(u) + lo + n <= g.totalSize
    ensures lo % 8 == 0 ==> (g.RecordOffset(u) + lo) % 8 == 0
  {
    RecordBounds(g, u);
    if lo % 8 == 0 {
      FieldAligned(g, u, lo);
    }
  }

  method StoreField(e: Env, media: Backend, slot: nat, field: nat, x: u64, ghost m: Mem, ghost start: seq<MemOp>,
                    ghost done: seq<MemOp>)
    returns (ghost doneNow: seq<MemOp>)
    requires e.g.Ok() && media.vol.Length == e.g.totalSize && slot < e.g.capacity
    requires field % 8 == 0 && field + 8 <= RECORD_META_SIZE && Did(media, m, start, done)
    modifies media, media.vol
    ensures doneNow == done + [Store(e.g.RecordOffset(slot) + field, LE(x, 8))] && Did(media, m, start, doneNow)
  {
    FieldRoom(e.g, slot, field, 8);
    doneNow := StoreStep(media, e.g.RecordOffset(slot) + field, x, m, start, done);
  }

  method StoreBytes(e: Env, media: Backend, slot: nat, lo: nat, bytes: seq<byte>, ghost m: Mem, ghost start: seq<MemOp>,
                    ghost done: seq<MemOp>)
    returns (ghost doneNow: seq<MemOp>)
    requires e.g.Ok() && media.vol.Length == e.g.totalSize && slot < e.g.capacity
    requires lo + |bytes| <= e.g.recordSize && Did(media, m, start, done)
    modifies media, media.vol
    ensures doneNow == done + [Store(e.g.RecordOffset(slot) + lo, bytes)] && Did(media, m, start, doneNow)
  {
    FieldRoom(e.g, slot, lo, |bytes|);
    doneNow := WriteStep(media, e.g.RecordOffset(slot) + lo, bytes, m, start, done);
  }

  /** Steps 3 to 5 of append. */
  method WriteBody(e: Env, media: Backend, slot: nat, a: Args)
    requires e.g.Ok() && media.Valid() && media.vol.Length == e.g.totalSize && slot < e.g.capacity && ArgsOk(e.g, a)
    modifies media, media.vol
    ensures Did(media, old(media.M()), old(media.trace), BodyOps(e, slot, a))
  {
    hide Did, LE, BodyOps;
    ghost var m, start := media.M(), media.trace;
    ghost var done: seq<MemOp> := [];
    NothingDone(media);
    done := StoreBytes(e, media, slot, REC_STATE, [STATE_WRITING], m, start, done);
    done := StoreField(e, media, slot, REC_TERM, a.term, m, start, done);
    done := StoreField(e, media, slot, REC_INDEX, slot + 1, m, start, done);
    done := StoreField(e, media, slot, REC_WRITER_ID, a.host, m, start, done);
    done := StoreBytes(e, media, slot, REC_DATA_LEN, LE(|a.data|, 4), m, start, done);
    if a.data != [] {
      done := StoreBytes(e, media, slot, RECORD_META_SIZE, a.data, m, start, done);
    }
    done := StoreField(e, media, slot, REC_CHECKSUM, e.crc(a.term, slot + 1, a.data), m, start, done);
    InOrder(e, slot, a, done);
  }

  lemma InOrder(e: Env, u: nat, a: Args, done: seq<MemOp>)
    requires e.g.Ok() && u < e.g.capacity && ArgsOk(e.g, a)
    requires var off := e.g.RecordOffset(u);
             var five := [] + [Store(off + REC_STATE, [STATE_WRITING])] + [Store(off + REC_TERM, LE(a.term, 8))]
                         + [Store(off + REC_INDEX, LE(u + 1, 8))] + [Store(off + REC_WRITER_ID, LE(a.host, 8))]
                         + [Store(off + REC_DATA_LEN, LE(|a.data|, 4))];
             var six := if a.data == [] then five else five + [Store(off + RECORD_META_SIZE, a.data)];
             done == six + [Store(off + REC_CHECKSUM, LE(e.crc(a.term, u + 1, a.data), 8))]
    ensures done == BodyOps(e, u, a)
  {
    hide LE;
  }

  /** Steps 3 to 7 of append: its stores and flushes in the order that makes the commit safe. */
  method WriteRecord(e: Env, media: Backend, slot: nat, a: Args)
    requires e.g.Ok() && media.Valid() && media.vol.Length == e.g.totalSize && slot < e.g.capacity && ArgsOk(e.g, a)
    modifies media, media.vol
    ensures media.Valid() && media.M() == AppendMem(e, old(media.M()), slot, a)
    ensures media.trace == old(media.trace) + AppendProgram(e, slot, a)
  {
    hide BodyOps, FlushRange;
    var off := e.g.RecordOffset(slot);
    RecordBounds(e.g, slot);
    WriteBody(e, media, slot, a);
    media.Flush(off, e.g.recordSize);
    media.StoreU8(off + REC_STATE, STATE_COMMITTED);
    media.Flush(off, CACHELINE);
  }

  // ---- read, from any contents ----

  /** What read returns. */
  function ReadOutcome(e: Env, v: seq<byte>, index: u64): Result<Option<Entry>, FenceError>
    requires e.g.Ok() && |v| == e.g.totalSize && Tail(e, v) <= e.g.capacity
  {
    if index == 0 || index > Tail(e, v) then Err(IndexOutOfBounds(index, Tail(e, v)))
    else
      var r := Rec(e.g, v, index - 1);
      if r[REC_STATE] != STATE_COMMITTED then Ok(None)
      else if Intact(e, r) then Ok(Some(Decode(e.g, r)))
      else Err(ChecksumMismatch(index))
  }

  /** Its only effect: the counter of reads, or of mismatches, of its host. */
  function ReadMem(e: Env, m: Mem, host: nat, index: u64): (r: Mem)
    requires PoolSized(e, m) && Tail(e, m.vol) <= e.g.capacity && host < e.g.maxHosts
    ensures PoolSized(e, r)
  {
    match ReadOutcome(e, m.vol, index)
    case Ok(Some(_)) => BumpMem(e.g, m, host, METRICS_READS_TOTAL, 1)
    case Err(ChecksumMismatch(_)) => BumpMem(e.g, m, host, METRICS_CHECKSUM_FAILURES, 1)
    case _ => m
  }

  /** Exactly when read answers what, from any contents, and which counters move: a record that is returned is counted
      as read, a checksum that does not match as a failure, anything else not at all. */
  lemma ReadMeans(e: Env, m: Mem, host: nat, index: u64)
    requires PoolSized(e, m) && Tail(e, m.vol) <= e.g.capacity && host < e.g.maxHosts
    ensures index == 0 || index > Tail(e, m.vol) ==>
              ReadOutcome(e, m.vol, index) == Err(IndexOutOfBounds(index, Tail(e, m.vol)))
              && ReadMem(e, m, host, index) == m
    ensures 1 <= index <= Tail(e, m.vol) ==>
              var r, t := Rec(e.g, m.vol, index - 1), Tally(e.g, m.vol);
              var after := Tally(e.g, ReadMem(e, m, host, index).vol);
              if StateOf(e.g, m.vol, index - 1) != STATE_COMMITTED then
                ReadOutcome(e, m.vol, index) == Ok(None) && ReadMem(e, m, host, index) == m
              else if Intact(e, r) then
                && ReadOutcome(e, m.vol, index) == Ok(Some(Decode(e.g, r)))
                && after == t.(readsTotal := WrapAdd(t.readsTotal, 1))
              else
                && ReadOutcome(e, m.vol, index) == Err(ChecksumMismatch(index))
                && after == t.(checksumFailures := WrapAdd(t.checksumFailures, 1))
  {
    hide Rec, Tally, BumpMem, Intact, Decode, Tail;
    CountersByName(e.g, m, host, 1);
  }

  method LoadTail(e: Env, media: Backend) returns (tail: u64)
    requires e.g.Ok() && media.vol.Length == e.g.totalSize
    ensures tail == Tail(e, media.vol[..])
  {
    MulLe(0, e.g.capacity, e.g.recordSize);
    tail := media.LoadU64(HDR_COMMITTED_TAIL);
    assert media.vol[HDR_COMMITTED_TAIL..HDR_COMMITTED_TAIL + 8]
        == media.vol[..][HDR_COMMITTED_TAIL..HDR_COMMITTED_TAIL + 8];
  }

  /** Load a record's fields and verify its checksum. */
  method LoadEntry(e: Env, media: Backend, slot: nat) returns (x: Entry, intact: bool)
    requires e.g.Ok() && media.vol.Length == e.g.totalSize && slot < e.g.capacity
    ensures x == Decode(e.g, Rec(e.g, media.vol[..], slot)) && intact == Intact(e, Rec(e.g, media.vol[..], slot))
  {
    hide Rec;
    var term := LoadWord(e, media, slot, REC_TERM);
    var storedIndex := LoadWord(e, media, slot, REC_INDEX);
    var writer := LoadWord(e, media, slot, REC_WRITER_ID);
    var lenBytes := LoadBytes(e, media, slot, REC_DATA_LEN, 4);
    var dataLen := FromLE(lenBytes);
    var stored := LoadWord(e, media, slot, REC_CHECKSUM);
    var payloadLen := Min(dataLen, e.g.payloadSize);
    var data := [];
    if payloadLen > 0 {
      data := LoadBytes(e, media, slot, RECORD_META_SIZE, payloadLen);
    }
    x := Entry(storedIndex, term, writer, data);
    intact := e.crc(term, storedIndex, data) == stored;
  }

  method ReadRecord(e: Env, media: Backend, host: nat, index: u64) returns (r: Result<Option<Entry>, FenceError>)
    requires e.g.Ok() && media.Valid() && media.vol.Length == e.g.totalSize && host < e.g.maxHosts
    requires Tail(e, media.vol[..]) <= e.g.capacity
    modifies media, media.vol
    ensures media.Valid() && r == ReadOutcome(e, old(media.vol[..]), index)
    ensures media.M() == ReadMem(e, old(media.M()), host, index)
  {
    hide Rec, Tail, BumpMem, Decode, Intact;
    var committedTail := LoadTail(e, media);
    if index == 0 || index > committedTail {
      return Err(IndexOutOfBounds(index, committedTail));
    }
    var slot := index - 1;
    RecordBounds(e.g, slot);
    var state := media.LoadU8(e.g.RecordOffset(slot) + REC_STATE);
    assert state == StateOf(e.g, media.vol[..], slot);
    if state != STATE_COMMITTED {
      return Ok(None);
    }
    var x, intact := LoadEntry(e, media, slot);
    if !intact {
      Increment(e.g, media, host, METRICS_CHECKSUM_FAILURES, 1);
      return Err(ChecksumMismatch(index));
    }
    Increment(e.g, media, host, METRICS_READS_TOTAL, 1);
    r := Ok(Some(x));
  }

  /** On a represented log, read answers as the log does, and never reports a mismatch. */
  lemma ReadAgrees(e: Env, m: Mem, log: Log, index: u64)
    requires Represents(e, m, log)
    ensures LogOk(e.g, log) && PoolSized(e, m) && Tail(e, m.vol) <= e.g.capacity
    ensures ReadOutcome(e, m.vol, index) == LogRead(e.g, log, index)
  {
    hide Rec, Content, Intact, Decode, ReserveOf;
    if 0 < index <= log.tail {
      var u := index - 1;
      assert SlotHolds(e, Rec(e.g, m.vol, u), u, log.slots[u]);
      if log.slots[u].Live? {
        ContentReadsBack(e, Rec(e.g, m.vol, u), u, log.slots[u].args);
      }
    }
  }

  // ---- recover with its metrics, from any contents ----

  function RecoverAllMem(e: Env, m: Mem, host: nat): (r: Mem)
    requires PoolSized(e, m) && host < e.g.maxHosts
    ensures PoolSized(e, r)
  {
    var counted := BumpMem(e.g, RecoverMem(e, m), host, METRICS_RECOVERY_RUNS, 1);
    var found := RecoverReport(e, m).abandonedCount;
    if found > 0 then BumpMem(e.g, counted, host, METRICS_ABANDONED_FOUND, found) else counted
  }

  method RecoverPool(e: Env, media: Backend, host: nat) returns (report: Report)
    requires e.g.Ok() && media.Valid() && media.vol.Length == e.g.totalSize && host < e.g.maxHosts
    modifies media, media.vol
    ensures media.Valid() && report == RecoverReport(e, old(media.M()))
    ensures media.M() == RecoverAllMem(e, old(media.M()), host)
  {
    hide BumpMem, RecoverMem, RecoveredTail;
    report := Recovery.Recover(e, media);
    Increment(e.g, media, host, METRICS_RECOVERY_RUNS, 1);
    if report.abandonedCount > 0 {
      Increment(e.g, media, host, METRICS_ABANDONED_FOUND, report.abandonedCount);
    }
  }

  // ---- What the calls do to a represented log and to the counters ----

  lemma AppendMetrics(e: Env, m: Mem, n: nat, a: Args, tail: u64)
    requires PoolSized(e, m) && n < e.g.capacity && ArgsOk(e.g, a)
    ensures SameMetrics(e.g, m.vol, SetTail(e, AppendMem(e, SetReserve(e, m, n + 1), n, a), tail).vol)
  {
    hide Rec, AppendMem, SetTail, SetReserve, Content;
    var p := SetReserve(e, m, n + 1);
    var r := AppendMem(e, p, n, a);
    ReserveMetrics(e, m, n + 1);
    AppendFacts(e, p, n, a);
    TailMetrics(e, r, tail);
  }

  lemma ReserveMetrics(e: Env, m: Mem, x: u64)
    requires PoolSized(e, m)
    ensures SameMetrics(e.g, m.vol, SetReserve(e, m, x).vol)
  {
    MulLe(0, e.g.capacity, e.g.recordSize);
  }

  lemma TailMetrics(e: Env, m: Mem, x: u64)
    requires PoolSized(e, m)
    ensures SameMetrics(e.g, m.vol, SetTail(e, m, x).vol)
  {
    MulLe(0, e.g.capacity, e.g.recordSize);
  }

  lemma TrimMetrics(e: Env, m: Mem, n: nat)
    requires PoolSized(e, m) && n <= e.g.capacity
    ensures SameMetrics(e.g, m.vol, TrimMem(e, m, n).vol)
  {
    hide Rec, TrimMem, StateOf;
    TrimExact(e, m, n);
  }

  /** What a read does to the pool: at most one counter moves. */
  lemma ReadKeeps(e: Env, m: Mem, log: Log, host: nat, index: u64)
    requires Represents(e, m, log) && host < e.g.maxHosts
    ensures LogOk(e.g, log) && PoolSized(e, m) && Tail(e, m.vol) <= e.g.capacity
    ensures var r := ReadMem(e, m, host, index);
            && Represents(e, r, log)
            && Tally(e.g, r.vol)
            == if LogRead(e.g, log, index).Ok? && LogRead(e.g, log, index).value.Some?
               then Charge(Tally(e.g, m.vol), METRICS_READS_TOTAL, 1) else Tally(e.g, m.vol)
  {
    hide Represents, ReadOutcome, BumpMem, Tally, Charge;
    ReadAgrees(e, m, log, index);
    BumpKeeps(e, m, host, METRICS_READS_TOTAL, 1, log);
    BumpTally(e.g, m, host, METRICS_READS_TOTAL, 1);
  }

  /** The counters after a recovery that abandoned n slots. */
  function RecoveryTally(t: PoolStats, n: u64): PoolStats {
    var counted := Charge(t, METRICS_RECOVERY_RUNS, 1);
    if n > 0 then Charge(counted, METRICS_ABANDONED_FOUND, n) else counted
  }

  lemma RecoverKeeps(e: Env, m: Mem, log: Log, host: nat)
    requires Represents(e, m, log) && host < e.g.maxHosts
    ensures PoolSized(e, m) && LogOk(e.g, log)
    ensures var report := RecoverReport(e, m);
            && report.committedTail == Swept(log).tail && report.slotsScanned == |log.slots|
            && report.abandonedCount <= GapCount(log.slots, |log.slots|)
    ensures var r := RecoverAllMem(e, m, host);
            && Represents(e, r, Swept(log))
            && Tally(e.g, r.vol) == RecoveryTally(Tally(e.g, m.vol), RecoverReport(e, m).abandonedCount)
  {
    hide Represents, BumpMem, Tally, Charge, RecoverMem, RecoverReport, LogOk;
    RecoverSweeps(e, m, log);
    SlotsFit(e.g, log);
    RecoverMetrics(e, m);
    var r := RecoverMem(e, m);
    SameTally(e.g, m.vol, r.vol);
    BumpKeeps(e, r, host, METRICS_RECOVERY_RUNS, 1, Swept(log));
    BumpTally(e.g, r, host, METRICS_RECOVERY_RUNS, 1);
    var counted := BumpMem(e.g, r, host, METRICS_RECOVERY_RUNS, 1);
    var found := RecoverReport(e, m).abandonedCount;
    BumpKeeps(e, counted, host, METRICS_ABANDONED_FOUND, found, Swept(log));
    BumpTally(e.g, counted, host, METRICS_ABANDONED_FOUND, found);
  }

  lemma RecoverMetrics(e: Env, m: Mem)
    requires PoolSized(e, m)
    ensures SameMetrics(e.g, m.vol, RecoverMem(e, m).vol)
  {
    hide Rec, ScanMem, StateOf, SetTail, RecoveredTail, FixedState;
    ScanExact(e, m, Limit(e, m.vol));
    TailMetrics(e, ScanMem(e, m, Limit(e, m.vol)), RecoveredTail(e, m.vol));
  }

  /** The two counters of a recovery, by name. */
  lemma RecoveryTallyMeans(t: PoolStats, n: u64)
    ensures RecoveryTally(t, n)
         == t.(recoveryRuns := WrapAdd(t.recoveryRuns, 1), abandonedFound := WrapAdd(t.abandonedFound, n))
  {
    WrapCases(t.abandonedFound, 0);
  }

  lemma ReadsAddUp(t: PoolStats, k: nat)
    requires k + 1 < U64_LIMIT
    ensures Charge(Charge(t, METRICS_READS_TOTAL, k), METRICS_READS_TOTAL, 1) == Charge(t, METRICS_READS_TOTAL, k + 1)
    ensures Charge(t, METRICS_READS_TOTAL, 0) == t
  {
    WrapAssoc(t.readsTotal, k, 1);
    WrapCases(k, 1);
  }

  /** The log handle. `log` is the abstract log its pool represents, `tally` what its counters add up to. */
  class FenceRuntime {
    const media: Backend
    const e: Env
    const hostId: nat
    ghost var log: Log
    ghost var tally: PoolStats

    ghost predicate Valid()
      reads this, media, media.vol
    {
      && media.Valid() && e.g.Ok() && media.vol.Length == e.g.totalSize && hostId < e.g.maxHosts
      && Represents(e, media.M(), log)
      && Tally(e.g, media.M().vol) == tally
    }

    /** open with create, on a zero-filled file. */
    constructor (e: Env, hostId: nat)
      requires e.g.Ok() && hostId < e.g.maxHosts
      ensures Valid() && fresh(media) && fresh(media.vol) && this.e == e && this.hostId == hostId
      ensures log == EMPTY && tally == PoolStats(0, 0, 0, 0, 0, 0, 0) && FreshPool(e, media.M())
    {
      var backend := new Backend(e.g.totalSize);
      InitHeader(e, backend);
      FreshIsEmpty(e, backend.M());
      media := backend;
      this.e := e;
      this.hostId := hostId;
      log := EMPTY;
      tally := PoolStats(0, 0, 0, 0, 0, 0, 0);
    }

    /** open without create, on a pool that represents a log: only the magic number is checked. */
    static method Open(media: Backend, e: Env, hostId: nat, ghost log: Log)
      returns (r: Result<FenceRuntime, FenceError>)
      requires media.Valid() && e.g.Ok() && media.vol.Length == e.g.totalSize && hostId < e.g.maxHosts
      requires Represents(e, media.M(), log)
      ensures var magic := MagicOf(e, media.M().vol);
              if magic != MAGIC then r == Err(InvalidMagic(MAGIC, magic))
              else
                && r.Ok? && fresh(r.value) && r.value.Valid()
                && r.value.media == media && r.value.e == e && r.value.hostId == hostId
                && r.value.log == log && r.value.tally == Tally(e.g, media.M().vol)
    {
      hide Represents, Tally;
      MulLe(0, e.g.capacity, e.g.recordSize);
      var magic := media.LoadU64(HDR_MAGIC);
      assert media.vol[HDR_MAGIC..HDR_MAGIC + 8] == media.M().vol[HDR_MAGIC..HDR_MAGIC + 8];
      if magic != MAGIC {
        return Err(InvalidMagic(MAGIC, magic));
      }
      var runtime := new FenceRuntime.Attach(media, e, hostId, log);
      r := Ok(runtime);
    }

    constructor Attach(media: Backend, e: Env, hostId: nat, ghost log: Log)
      requires media.Valid() && e.g.Ok() && media.vol.Length == e.g.totalSize && hostId < e.g.maxHosts
      requires Represents(e, media.M(), log)
      ensures Valid() && this.media == media && this.e == e && this.hostId == hostId
      ensures this.log == log && tally == Tally(e.g, media.M().vol)
    {
      this.media := media;
      this.e := e;
      this.hostId := hostId;
      this.log := log;
      tally := Tally(e.g, media.M().vol);
    }

    /** Add to one of this host's counters. */
    method Count(field: nat, n: u64)
      requires Valid() && FieldOk(field)
      modifies this`tally, media, media.vol
      ensures Valid() && old(media.trace) <= media.trace
      ensures tally == Charge(old(tally), field, n)
    {
      hide Represents, BumpMem, Tally, Charge;
      ghost var m := media.M();
      BumpKeeps(e, m, hostId, field, n, log);
      BumpTally(e.g, m, hostId, field, n);
      Increment(e.g, media, hostId, field, n);
      tally := Tally(e.g, media.M().vol);
    }

    /** Adding u64::MAX takes an overflowing reservation back, byte for byte. */
    method UndoReserve(ghost m: Mem)
      requires media.Valid() && e.g.Ok() && media.vol.Length == e.g.totalSize && hostId < e.g.maxHosts
      requires Represents(e, m, log) && PoolSized(e, m) && Tally(e.g, m.vol) == tally
      requires media.M() == SetReserve(e, m, WrapAdd(ReserveOf(e, m.vol), 1))
      modifies media, media.vol
      ensures Valid() && media.M() == m
    {
      hide Represents, Tally, SetReserve, WrapAdd;
      var slot: u64 := ReserveOf(e, m.vol);
      SetReserveFacts(e, m, WrapAdd(slot, 1));
      UndoRestores(e, m);
      WrapAddMaxIsMinusOne(slot);
      var undone := AddReserve(e, media, U64_MAX);
    }

    /** Steps 3 to 8, on a slot just reserved in memory m. */
    method Commit(slot: nat, a: Args, ghost m: Mem)
      requires media.Valid() && e.g.Ok() && media.vol.Length == e.g.totalSize && hostId < e.g.maxHosts
      requires Represents(e, m, log) && PoolSized(e, m) && LogOk(e.g, log) && Tally(e.g, m.vol) == tally
      requires slot == |log.slots| < e.g.capacity && ArgsOk(e.g, a) && media.M() == SetReserve(e, m, slot + 1)
      modifies this`log, media, media.vol
      ensures Valid() && log == AppendLog(old(log), a)
      ensures old(media.trace) + AppendProgram(e, slot, a) <= media.trace
    {
      hide Represents, Tally, SetReserve, AppendProgram, AppendMem, SetTail, TailEnd, EndFrom;
      AppendExtends(e, m, log, a);
      WriteRecord(e, media, slot, a);
      SweepSweeps(e, media.M(), Extended(log, Live(a)));
      var tail := AdvanceCommittedTail(e, media);
      AppendMetrics(e, m, slot, a, tail);
      SameTally(e.g, m.vol, media.M().vol);
      log := AppendLog(log, a);
    }

    /** PayloadTooLarge touches nothing; PoolFull leaves the log alone and counts a failure; otherwise the record
        becomes the log's last slot, by a reservation followed by exactly the program of an append, and the tail
        sweeps. */
    method Append(term: u64, data: seq<byte>) returns (r: Result<u64, FenceError>)
      requires Valid()
      modifies this`log, this`tally, media, media.vol
      ensures Valid() && LogOk(e.g, old(log))
      ensures |data| > e.g.payloadSize ==>
                && r == Err(PayloadTooLarge(e.g.payloadSize, |data|))
                && log == old(log) && tally == old(tally) && media.M() == old(media.M())
      ensures |data| <= e.g.payloadSize && |old(log).slots| == e.g.capacity ==>
                && r == Err(PoolFull(e.g.capacity, e.g.capacity + old(log).owed))
                && log == old(log) && tally == Charge(old(tally), METRICS_APPENDS_FAILED, 1)
      ensures |data| <= e.g.payloadSize && |old(log).slots| < e.g.capacity ==>
                && var a := Args(term, hostId, data);
                var n := |old(log).slots|;
                && r == Ok(n + 1) && log == AppendLog(old(log), a)
                && tally == Charge(Charge(old(tally), METRICS_APPENDS_TOTAL, 1), METRICS_BYTES_WRITTEN, |data|)
                && old(media.trace) + [Store(HDR_RESERVE_TAIL, LE(n + 1, 8))] + AppendProgram(e, n, a) <= media.trace
    {
      hide Represents, WrapAdd, AppendProgram, Tally, SetReserve, LogOk, Swept;
      RepresentedWords(e, media.M(), log);
      SlotsFit(e.g, log);
      if |data| > e.g.payloadSize {
        return Err(PayloadTooLarge(e.g.payloadSize, |data|));
      }
      ghost var m := media.M();
      var slot := AddReserve(e, media, 1);
      WrapCases(slot, 1);
      if slot >= e.g.capacity {
        UndoReserve(m);
        Count(METRICS_APPENDS_FAILED, 1);
        return Err(PoolFull(e.g.capacity, slot));
      }
      Commit(slot, Args(term, hostId, data), m);
      Count(METRICS_APPENDS_TOTAL, 1);
      Count(METRICS_BYTES_WRITTEN, |data|);
      r := Ok(slot + 1);
    }

    /** read answers as the abstract log does; only a record that is returned is counted. */
    method Read(index: u64) returns (r: Result<Option<Entry>, FenceError>)
      requires Valid()
      modifies this`tally, media, media.vol
      ensures Valid() && LogOk(e.g, log) && r == LogRead(e.g, log, index)
      ensures tally == if r.Ok? && r.value.Some? then Charge(old(tally), METRICS_READS_TOTAL, 1) else old(tally)
    {
      hide Represents, ReadOutcome, ReadMem, Tally, Charge, LogRead, LogOk;
      ReadAgrees(e, media.M(), log, index);
      ReadKeeps(e, media.M(), log, hostId, index);
      r := ReadRecord(e, media, hostId, index);
      tally := Tally(e.g, media.M().vol);
    }

    /** The live records of the range in order, or the first index out of range; each record returned was counted. */
    method ReadRange(startIndex: u64, endIndex: u64) returns (r: Result<seq<Entry>, FenceError>)
      requires Valid() && startIndex <= endIndex
      modifies this`tally, media, media.vol
      ensures Valid() && LogOk(e.g, log) && r == LogReadRange(e.g, log, startIndex, endIndex)
      ensures r.Ok? ==> |r.value| < U64_LIMIT && tally == Charge(old(tally), METRICS_READS_TOTAL, |r.value|)
      ensures r.Err? ==> ReadInVain(e.g, log, startIndex) < U64_LIMIT
                         && tally == Charge(old(tally), METRICS_READS_TOTAL, ReadInVain(e.g, log, startIndex))
    {
      hide Represents, Tally, Charge;
      RepresentedWords(e, media.M(), log);
      ReadsAddUp(tally, 0);
      var records: seq<Entry> := [];
      for idx := startIndex to endIndex
        invariant Valid()
        invariant idx > startIndex ==> 0 < startIndex && idx - 1 <= log.tail
        invariant records == if idx == startIndex then [] else LiveEntries(e.g, log, startIndex - 1, idx - 1)
        invariant |records| < U32_LIMIT && tally == Charge(old(tally), METRICS_READS_TOTAL, |records|)
      {
        var found := Read(idx);
        if found.Err? {
          return Err(found.error);
        }
        if found.value.Some? {
          ReadsAddUp(old(tally), |records|);
          records := records + [found.value.value];
        }
        LiveEntriesFew(e.g, log, startIndex - 1, idx);
      }
      r := Ok(records);
    }

    /** trim(upTo) trims the slots of indices 1..=upTo and counts the live ones among them, or refuses. */
    method Trim(upTo: u64) returns (r: Result<nat, TrimError>)
      requires Valid()
      modifies this`log, media, media.vol
      ensures Valid() && LogOk(e.g, old(log))
      ensures upTo > old(log).tail ==>
                r == Err(TrimBeyondCommitted(upTo, old(log).tail)) && log == old(log) && media.M() == old(media.M())
      ensures upTo <= old(log).tail ==> r == Ok(LiveCount(old(log).slots, upTo)) && log == TrimLog(old(log), upTo)
    {
      hide Represents, Tally, TrimMem, CommittedCount, LiveCount, TrimLog, LogOk;
      ghost var m := media.M();
      RepresentedWords(e, m, log);
      SlotsFit(e.g, log);
      r := Compaction.Trim(e, media, upTo);
      if upTo <= log.tail {
        TrimTrims(e, m, log, upTo);
        TrimMetrics(e, m, upTo);
        SameTally(e.g, m.vol, media.M().vol);
        log := TrimLog(log, upTo);
      }
    }

    /** recover sweeps the tail and changes nothing else of the log; it scans every slot handed out, and counts as
        abandoned no more than the gaps. */
    method Recover() returns (report: Report)
      requires Valid()
      modifies this`log, this`tally, media, media.vol
      ensures Valid() && LogOk(e.g, old(log)) && log == Swept(old(log))
      ensures report.committedTail == log.tail && report.slotsScanned == |log.slots|
      ensures report.abandonedCount <= GapCount(log.slots, |log.slots|) && report.abandonedCount < U64_LIMIT
      ensures tally == RecoveryTally(old(tally), report.abandonedCount)
    {
      hide Represents, Tally, Charge, RecoverAllMem, RecoverReport, LogOk, EndFrom;
      RecoverKeeps(e, media.M(), log, hostId);
      SlotsFit(e.g, log);
      report := RecoverPool(e, media, hostId);
      log := Swept(log);
      tally := Tally(e.g, media.M().vol);
    }

    method CommittedTail() returns (tail: u64)
      requires Valid()
      ensures tail == log.tail
    {
      tail := LoadTail(e, media);
    }

    method ReserveTail() returns (tail: u64)
      requires Valid()
      ensures tail == |log.slots| + log.owed
    {
      hide Rec, SlotHolds, Tally;
      MulLe(0, e.g.capacity, e.g.recordSize);
      tail := media.LoadU64(HDR_RESERVE_TAIL);
      assert media.vol[HDR_RESERVE_TAIL..HDR_RESERVE_TAIL + 8] == media.vol[..][HDR_RESERVE_TAIL..HDR_RESERVE_TAIL + 8];
    }

    method Stats() returns (stats: PoolStats)
      requires Valid()
      ensures stats == tally
    {
      hide Represents, Tally;
      stats := ReadStats(e.g, media);
    }
  }
}
