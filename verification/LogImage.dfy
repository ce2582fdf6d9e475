/** How a pool image represents an abstract log, and what the engine's memory effects do to the log it represents. */
module LogImage {
  import opened Bytes
  import opened Layout
  import opened Media
  import opened Records
  import opened RecoverySpec
  import opened Recovery
  import opened Compaction
  import opened Metrics
  import opened AbstractLog

  // ---- How a pool represents a log ----

  ghost predicate SlotHolds(e: Env, r: seq<byte>, u: nat, x: LogEntry)
    requires Image(e.g, r) && u < e.g.capacity
  {
    match x
    case Live(a) => ArgsOk(e.g, a) && r[REC_STATE] == STATE_COMMITTED && Content(e, r, u, a)
    case Trimmed => r[REC_STATE] == STATE_ABANDONED
    case Gap => r[REC_STATE] != STATE_COMMITTED
  }

  function ReserveOf(e: Env, v: seq<byte>): u64
    requires e.g.Ok() && |v| == e.g.totalSize
  {
    MulLe(0, e.g.capacity, e.g.recordSize);
    WordAt(v, HDR_RESERVE_TAIL)
  }

  /** The header's tails are the log's; the slots handed out hold it; the others are FREE; every record is as durable as
      visible. A gap may hold anything but a COMMITTED record. */
  ghost predicate Represents(e: Env, m: Mem, log: Log) {
    && PoolSized(e, m) && LogOk(e.g, log)
    && Tail(e, m.vol) == log.tail && ReserveOf(e, m.vol) == |log.slots| + log.owed
    && (forall u: nat | u < |log.slots| :: SlotHolds(e, Rec(e.g, m.vol, u), u, log.slots[u]))
    && (forall u: nat | |log.slots| <= u < e.g.capacity :: StateOf(e.g, m.vol, u) == STATE_FREE)
    && (forall u: nat | u < e.g.capacity :: Rec(e.g, m.dur, u) == Rec(e.g, m.vol, u))
  }

  lemma RepresentedWords(e: Env, m: Mem, log: Log)
    requires Represents(e, m, log)
    ensures PoolSized(e, m) && LogOk(e.g, log)
    ensures Tail(e, m.vol) == log.tail && ReserveOf(e, m.vol) == |log.slots| + log.owed
  {
    hide Rec, SlotHolds, LogOk;
  }

  // ---- Memory effects that keep the representation ----

  lemma PrefixSlice(v: seq<byte>, w: seq<byte>, n: nat, lo: nat, len: nat)
    requires n <= |v| && n <= |w| && v[..n] == w[..n] && lo + len <= n
    ensures v[lo..lo + len] == w[lo..lo + len]
  {
    assert v[lo..lo + len] == v[..n][lo..lo + len];
    assert w[lo..lo + len] == w[..n][lo..lo + len];
  }

  lemma SameBelowRecord(g: Geometry, v: seq<byte>, w: seq<byte>, u: nat)
    requires g.Ok() && |v| == |w| == g.totalSize && u < g.capacity
    requires g.RecordsEnd() <= g.totalSize && v[..g.RecordsEnd()] == w[..g.RecordsEnd()]
    ensures Rec(g, v, u) == Rec(g, w, u) && StateOf(g, v, u) == StateOf(g, w, u)
  {
    RecordBounds(g, u);
    PrefixSlice(v, w, g.RecordsEnd(), g.RecordOffset(u), g.recordSize);
  }

  lemma SameBelowWords(e: Env, v: seq<byte>, w: seq<byte>)
    requires e.g.Ok() && |v| == |w| == e.g.totalSize
    requires e.g.RecordsEnd() <= e.g.totalSize && v[..e.g.RecordsEnd()] == w[..e.g.RecordsEnd()]
    ensures Tail(e, v) == Tail(e, w) && ReserveOf(e, v) == ReserveOf(e, w)
  {
    MulLe(0, e.g.capacity, e.g.recordSize);
    PrefixSlice(v, w, e.g.RecordsEnd(), HDR_COMMITTED_TAIL, 8);
    PrefixSlice(v, w, e.g.RecordsEnd(), HDR_RESERVE_TAIL, 8);
  }

  /** Two pools that agree below the metrics blocks represent the same log. */
  lemma SameBelow(e: Env, m: Mem, r: Mem, log: Log)
    requires Represents(e, m, log) && PoolSized(e, r) && r.dur == m.dur && e.g.RecordsEnd() <= e.g.totalSize
    requires r.vol[..e.g.RecordsEnd()] == m.vol[..e.g.RecordsEnd()]
    ensures Represents(e, r, log)
  {
    hide Rec, Tail, ReserveOf, SlotHolds, StateOf, LogOk;
    SlotsFit(e.g, log);
    SameBelowWords(e, m.vol, r.vol);
    forall u: nat | u < e.g.capacity
      ensures Rec(e.g, r.vol, u) == Rec(e.g, m.vol, u) && StateOf(e.g, r.vol, u) == StateOf(e.g, m.vol, u)
    {
      SameBelowRecord(e.g, m.vol, r.vol, u);
    }
  }

  lemma BumpKeeps(e: Env, m: Mem, host: nat, field: nat, n: u64, log: Log)
    requires Represents(e, m, log) && host < e.g.maxHosts && FieldOk(field)
    ensures Represents(e, BumpMem(e.g, m, host, field, n), log)
  {
    hide Represents, BumpMem;
    RepresentedWords(e, m, log);
    BumpExact(e.g, m, host, field, n);
    SameBelow(e, m, BumpMem(e.g, m, host, field, n), log);
  }

  /** Storing the reservation counter. */
  function SetReserve(e: Env, m: Mem, x: u64): (r: Mem)
    requires PoolSized(e, m)
    ensures PoolSized(e, r)
  {
    MulLe(0, e.g.capacity, e.g.recordSize);
    Apply(m, Store(HDR_RESERVE_TAIL, LE(x, 8)))
  }

  lemma SetReserveFacts(e: Env, m: Mem, x: u64)
    requires PoolSized(e, m)
    ensures var r := SetReserve(e, m, x);
            && ReserveOf(e, r.vol) == x && Tail(e, r.vol) == Tail(e, m.vol) && r.dur == m.dur
            && (forall u: nat | u < e.g.capacity :: Rec(e.g, r.vol, u) == Rec(e.g, m.vol, u))
  {
    hide Rec;
    MulLe(0, e.g.capacity, e.g.recordSize);
    WordHere(m.vol, HDR_RESERVE_TAIL, x);
    WordApart(m.vol, HDR_RESERVE_TAIL, LE(x, 8), HDR_COMMITTED_TAIL);
    OutsideFrame(e.g, m.vol, HDR_RESERVE_TAIL, LE(x, 8));
  }

  /** The undo of an overflowing reservation restores memory exactly. */
  lemma UndoRestores(e: Env, m: Mem)
    requires PoolSized(e, m)
    ensures SetReserve(e, SetReserve(e, m, WrapAdd(ReserveOf(e, m.vol), 1)), ReserveOf(e, m.vol)) == m
  {
    MulLe(0, e.g.capacity, e.g.recordSize);
    SameWord(m.vol, HDR_RESERVE_TAIL);
    var x := LE(WrapAdd(ReserveOf(e, m.vol), 1), 8);
    var y := LE(ReserveOf(e, m.vol), 8);
    assert Splice(Splice(m.vol, HDR_RESERVE_TAIL, x), HDR_RESERVE_TAIL, y) == Splice(m.vol, HDR_RESERVE_TAIL, y);
  }

  // ---- The program of an append ----

  /** Steps 3 to 7 of append: the body's stores, the record's flush, the commit and its flush. */
  function AppendProgram(e: Env, u: nat, a: Args): seq<MemOp>
    requires e.g.Ok() && u < e.g.capacity && ArgsOk(e.g, a)
  {
    BodyOps(e, u, a) + FlushOps(e.g.RecordOffset(u), e.g.recordSize)
    + [Store(e.g.RecordOffset(u) + REC_STATE, [STATE_COMMITTED])] + FlushOps(e.g.RecordOffset(u), CACHELINE)
  }

  /** r is m but for record u. */
  ghost predicate OnlySlot(e: Env, m: Mem, r: Mem, u: nat)
    requires PoolSized(e, m) && PoolSized(e, r)
  {
    && SameOutside(e.g, m.vol, r.vol)
    && (forall w: nat | w < e.g.capacity && w != u :: Rec(e.g, r.vol, w) == Rec(e.g, m.vol, w))
  }

  lemma BodyFits(e: Env, u: nat, a: Args)
    requires e.g.Ok() && u < e.g.capacity && ArgsOk(e.g, a)
    ensures AllFit(BodyOps(e, u, a), e.g.totalSize)
  {
    BodyOpsApart(e, u, a);
    RecordBounds(e.g, u);
    var ops := BodyOps(e, u, a);
    forall op | op in ops ensures Fits(op, e.g.totalSize) {
      var j :| 0 <= j < |ops| && ops[j] == op;
    }
  }

  /** The first k body stores, applied. */
  lemma {:induction false} BodyPrefix(e: Env, m: Mem, u: nat, a: Args, k: nat)
    requires PoolSized(e, m) && u < e.g.capacity && ArgsOk(e.g, a) && 1 <= k <= |BodyOps(e, u, a)|
    ensures AllFit(BodyOps(e, u, a)[..k], e.g.totalSize)
    ensures var r := ApplyAll(m, BodyOps(e, u, a)[..k]);
            && PoolSized(e, r) && r.dur == m.dur && OnlySlot(e, m, r, u)
            && Written(e, Rec(e.g, r.vol, u), u, a, k) && StateOf(e.g, r.vol, u) == STATE_WRITING
  {
    hide Rec, BodyOps, Written, SameOutside;
    var ops := BodyOps(e, u, a);
    BodyFits(e, u, a);
    BodyOpsApart(e, u, a);
    if k == 1 {
      assert ops[..1] == [ops[0]];
      assert ApplyAll(m, [ops[0]]) == Apply(m, ops[0]);
      FirstStore(e, m, u, a);
    } else {
      BodyPrefix(e, m, u, a, k - 1);
      var p := ApplyAll(m, ops[..k - 1]);
      assert ops[..k] == ops[..k - 1] + [ops[k - 1]];
      ApplyAllAppend(m, ops[..k - 1], [ops[k - 1]]);
      assert ApplyAll(p, [ops[k - 1]]) == Apply(p, ops[k - 1]);
      NextStore(e, m, p, u, a, k - 1);
    }
  }

  lemma FirstStore(e: Env, m: Mem, u: nat, a: Args)
    requires PoolSized(e, m) && u < e.g.capacity && ArgsOk(e.g, a)
    ensures Fits(BodyOps(e, u, a)[0], e.g.totalSize)
    ensures var r := Apply(m, BodyOps(e, u, a)[0]);
            && PoolSized(e, r) && r.dur == m.dur && OnlySlot(e, m, r, u)
            && Written(e, Rec(e.g, r.vol, u), u, a, 1) && StateOf(e.g, r.vol, u) == STATE_WRITING
  {
    hide Rec, BodyOps;
    BodyOpsApart(e, u, a);
    RecordBounds(e.g, u);
    StoreFrame(e.g, m.vol, u, 0, [STATE_WRITING]);
  }

  lemma NextStore(e: Env, m: Mem, p: Mem, u: nat, a: Args, k: nat)
    requires PoolSized(e, m) && PoolSized(e, p) && u < e.g.capacity && ArgsOk(e.g, a) && 1 <= k < |BodyOps(e, u, a)|
    requires p.dur == m.dur && OnlySlot(e, m, p, u)
    requires Written(e, Rec(e.g, p.vol, u), u, a, k) && StateOf(e.g, p.vol, u) == STATE_WRITING
    ensures Fits(BodyOps(e, u, a)[k], e.g.totalSize)
    ensures var r := Apply(p, BodyOps(e, u, a)[k]);
            && PoolSized(e, r) && r.dur == m.dur && OnlySlot(e, m, r, u)
            && Written(e, Rec(e.g, r.vol, u), u, a, k + 1) && StateOf(e.g, r.vol, u) == STATE_WRITING
  {
    hide Rec, BodyOps, Written;
    WrittenStep(e, Rec(e.g, p.vol, u), u, a, k);
    var op := BodyOps(e, u, a)[k];
    var lo := Rel(e.g, u, op);
    RecordBounds(e.g, u);
    StoreFrame(e.g, p.vol, u, lo, op.bytes);
  }

  /** Memory after the program of an append. */
  function AppendMem(e: Env, m: Mem, u: nat, a: Args): (r: Mem)
    requires PoolSized(e, m) && u < e.g.capacity && ArgsOk(e.g, a)
    ensures PoolSized(e, r)
  {
    BodyFits(e, u, a);
    var b := ApplyAll(m, BodyOps(e, u, a));
    CommitMem(e, FlushRange(b, e.g.RecordOffset(u), e.g.recordSize), u)
  }

  function CommitMem(e: Env, m: Mem, u: nat): (r: Mem)
    requires PoolSized(e, m) && u < e.g.capacity
    ensures PoolSized(e, r)
  {
    RecordBounds(e.g, u);
    FlushRange(Apply(m, Store(e.g.RecordOffset(u) + REC_STATE, [STATE_COMMITTED])), e.g.RecordOffset(u), CACHELINE)
  }

  /** A flush makes durable what it covers, and leaves records that were durable as they were. */
  lemma FlushKeepsDurable(e: Env, m: Mem, off: nat, len: nat, w: nat)
    requires PoolSized(e, m) && w < e.g.capacity
    ensures PoolSized(e, FlushRange(m, off, len)) && FlushRange(m, off, len).vol == m.vol
    ensures Rec(e.g, m.dur, w) == Rec(e.g, m.vol, w) ==> Rec(e.g, FlushRange(m, off, len).dur, w) == Rec(e.g, m.vol, w)
    ensures off <= e.g.RecordOffset(w) && e.g.RecordOffset(w) + e.g.recordSize <= off + len ==>
              Rec(e.g, FlushRange(m, off, len).dur, w) == Rec(e.g, m.vol, w)
  {
    var r := FlushRange(m, off, len);
    FlushCoversExactly(m, off, len);
    RecordBounds(e.g, w);
    var base := e.g.RecordOffset(w);
    forall k | 0 <= k < e.g.recordSize
      ensures Rec(e.g, m.dur, w)[k] == Rec(e.g, m.vol, w)[k] ==> Rec(e.g, r.dur, w)[k] == Rec(e.g, m.vol, w)[k]
      ensures off <= base && base + e.g.recordSize <= off + len ==> Rec(e.g, r.dur, w)[k] == Rec(e.g, m.vol, w)[k]
    {
      if off <= base && base + e.g.recordSize <= off + len {
        MeetsItself(base + k, off, len);
      }
    }
  }

  lemma MeetsItself(i: nat, off: nat, len: nat)
    requires off <= i < off + len
    ensures Meets(i, off, len)
  {
    MeetsByLine(i, off, len);
  }

  /** The commit store and its flush, on a record that was durable. */
  lemma CommitFacts(e: Env, m: Mem, u: nat)
    requires PoolSized(e, m) && u < e.g.capacity && Rec(e.g, m.dur, u) == Rec(e.g, m.vol, u)
    ensures var r := CommitMem(e, m, u);
            && OnlySlot(e, m, r, u) && StateOf(e.g, r.vol, u) == STATE_COMMITTED
            && SameBody(Rec(e.g, m.vol, u), Rec(e.g, r.vol, u)) && Rec(e.g, r.dur, u) == Rec(e.g, r.vol, u)
            && (forall w: nat | w < e.g.capacity && w != u && Rec(e.g, m.dur, w) == Rec(e.g, m.vol, w) ::
                  Rec(e.g, r.dur, w) == Rec(e.g, r.vol, w))
  {
    hide Rec, FlushRange;
    var off := e.g.RecordOffset(u);
    RecordBounds(e.g, u);
    StoreFrame(e.g, m.vol, u, REC_STATE, [STATE_COMMITTED]);
    var m1 := Apply(m, Store(off + REC_STATE, [STATE_COMMITTED]));
    var r := CommitMem(e, m, u);
    CommitDurable(e, m, m1, u);
    forall w: nat | w < e.g.capacity && w != u && Rec(e.g, m.dur, w) == Rec(e.g, m.vol, w)
      ensures Rec(e.g, r.dur, w) == Rec(e.g, r.vol, w)
    {
      FlushKeepsDurable(e, m1, off, CACHELINE, w);
    }
  }

  lemma CommitDurable(e: Env, m: Mem, m1: Mem, u: nat)
    requires PoolSized(e, m) && u < e.g.capacity && Rec(e.g, m.dur, u) == Rec(e.g, m.vol, u)
    requires e.g.RecordOffset(u) + 1 <= |m.vol|
    requires m1 == Apply(m, Store(e.g.RecordOffset(u) + REC_STATE, [STATE_COMMITTED]))
    ensures var r := FlushRange(m1, e.g.RecordOffset(u), CACHELINE);
            PoolSized(e, r) && r.vol == m1.vol && Rec(e.g, r.dur, u) == Rec(e.g, r.vol, u)
  {
    var off := e.g.RecordOffset(u);
    RecordBounds(e.g, u);
    FlushCoversExactly(m1, off, CACHELINE);
    var r := FlushRange(m1, off, CACHELINE);
    MeetsItself(off, off, CACHELINE);
    forall k | 0 <= k < e.g.recordSize ensures Rec(e.g, r.dur, u)[k] == Rec(e.g, r.vol, u)[k] {
      assert Rec(e.g, m.dur, u)[k] == Rec(e.g, m.vol, u)[k];
    }
  }

  /** The program of an append leaves its slot COMMITTED with its content, durably, and touches no other record. */
  lemma AppendFacts(e: Env, m: Mem, u: nat, a: Args)
    requires PoolSized(e, m) && u < e.g.capacity && ArgsOk(e.g, a)
    ensures var r := AppendMem(e, m, u, a);
            && OnlySlot(e, m, r, u)
            && StateOf(e.g, r.vol, u) == STATE_COMMITTED && Content(e, Rec(e.g, r.vol, u), u, a)
            && Rec(e.g, r.dur, u) == Rec(e.g, r.vol, u)
            && (forall w: nat | w < e.g.capacity && w != u && Rec(e.g, m.dur, w) == Rec(e.g, m.vol, w) ::
                  Rec(e.g, r.dur, w) == Rec(e.g, r.vol, w))
  {
    hide Rec, BodyOps, CommitMem, FlushRange, SameOutside, Content;
    var ops := BodyOps(e, u, a);
    BodyPrefix(e, m, u, a, |ops|);
    assert ops[..|ops|] == ops;
    var b := ApplyAll(m, ops);
    AllWritten(e, Rec(e.g, b.vol, u), u, a);
    var f := FlushRange(b, e.g.RecordOffset(u), e.g.recordSize);
    FlushKeepsDurable(e, b, e.g.RecordOffset(u), e.g.recordSize, u);
    forall w: nat | w < e.g.capacity && w != u && Rec(e.g, m.dur, w) == Rec(e.g, m.vol, w)
      ensures Rec(e.g, f.dur, w) == Rec(e.g, f.vol, w)
    {
      FlushKeepsDurable(e, b, e.g.RecordOffset(u), e.g.recordSize, w);
    }
    CommitFacts(e, f, u);
    ContentSameBody(e, Rec(e.g, f.vol, u), Rec(e.g, CommitMem(e, f, u).vol, u), u, a);
    OutsideTrans(e, m, b, CommitMem(e, f, u));
  }

  // ---- Appending, trimming, recovering and power-cycling a represented log ----

  lemma ReserveOutside(e: Env, v: seq<byte>, w: seq<byte>)
    requires e.g.Ok() && |v| == |w| == e.g.totalSize && SameOutside(e.g, v, w)
    ensures ReserveOf(e, w) == ReserveOf(e, v)
  {
    MulLe(0, e.g.capacity, e.g.recordSize);
    assert w[HDR_RESERVE_TAIL..HDR_RESERVE_TAIL + 8] == v[HDR_RESERVE_TAIL..HDR_RESERVE_TAIL + 8];
  }

  /** The tail's counterpart of SetReserveFacts. */
  lemma SetTailReserve(e: Env, m: Mem, tail: u64)
    requires PoolSized(e, m)
    ensures ReserveOf(e, SetTail(e, m, tail).vol) == ReserveOf(e, m.vol)
  {
    MulLe(0, e.g.capacity, e.g.recordSize);
    WordApart(m.vol, HDR_COMMITTED_TAIL, LE(tail, 8), HDR_RESERVE_TAIL);
  }

  /** A slot at or beyond the tail is COMMITTED exactly if it is live. */
  lemma CommittedIsLive(e: Env, m: Mem, log: Log, u: nat)
    requires Represents(e, m, log) && log.tail <= u < e.g.capacity
    ensures StateOf(e.g, m.vol, u) == STATE_COMMITTED <==> u < |log.slots| && log.slots[u].Live?
  {
    hide Rec, Content, Tail, ReserveOf;
    if u < |log.slots| {
      assert SlotHolds(e, Rec(e.g, m.vol, u), u, log.slots[u]);
    }
  }

  lemma {:induction false} SweepEnds(e: Env, m: Mem, log: Log, t: nat)
    requires Represents(e, m, log) && log.tail <= t <= |log.slots|
    ensures TailEnd(e, m.vol, 0, t) == EndFrom(log.slots, t)
    decreases |log.slots| - t
  {
    hide Rec, Content, SlotHolds, Tail, ReserveOf;
    if t < e.g.capacity {
      CommittedIsLive(e, m, log, t);
      if t < |log.slots| && log.slots[t].Live? {
        SweepEnds(e, m, log, t + 1);
      }
    }
  }

  /** advance_committed_tail on a represented log sweeps the log. */
  lemma SweepSweeps(e: Env, m: Mem, log: Log)
    requires Represents(e, m, log)
    ensures LogOk(e.g, log) && PoolSized(e, m) && Tail(e, m.vol) == log.tail
    ensures TailEnd(e, m.vol, 0, log.tail) == Swept(log).tail < U64_LIMIT
    ensures Represents(e, SetTail(e, m, Swept(log).tail), Swept(log))
  {
    hide Rec, Content, StateOf, TailEnd, EndFrom, SlotHolds;
    SweepEnds(e, m, log, log.tail);
    SweptOk(e.g, log);
    var t := Swept(log).tail;
    SetTailFacts(e, m, t);
    SetTailReserve(e, m, t);
    TailMoved(e, m, SetTail(e, m, t), log, Swept(log));
  }

  lemma TailMoved(e: Env, m: Mem, r: Mem, log: Log, moved: Log)
    requires Represents(e, m, log) && LogOk(e.g, moved) && moved == log.(tail := moved.tail) && PoolSized(e, r)
    requires Tail(e, r.vol) == moved.tail && ReserveOf(e, r.vol) == ReserveOf(e, m.vol) && r.dur == m.dur
    requires forall u: nat | u < e.g.capacity :: Rec(e.g, r.vol, u) == Rec(e.g, m.vol, u)
    ensures Represents(e, r, moved)
  {
    hide Rec, SlotHolds, LogOk, Tail, ReserveOf;
    SlotsFit(e.g, log);
    forall u: nat | u < e.g.capacity ensures StateOf(e.g, r.vol, u) == StateOf(e.g, m.vol, u) {
      assert Rec(e.g, r.vol, u) == Rec(e.g, m.vol, u);
    }
  }

  /** One more slot, whatever it holds now. */
  lemma OneMoreSlot(e: Env, m: Mem, r: Mem, log: Log, x: LogEntry)
    requires Represents(e, m, log) && |log.slots| < e.g.capacity && EntryOk(e.g, x) && !x.Trimmed? && PoolSized(e, r)
    requires Tail(e, r.vol) == log.tail && ReserveOf(e, r.vol) == |log.slots| + 1
    requires forall u: nat | u < e.g.capacity && u != |log.slots| :: Rec(e.g, r.vol, u) == Rec(e.g, m.vol, u)
    requires forall u: nat | u < e.g.capacity :: Rec(e.g, r.dur, u) == Rec(e.g, r.vol, u)
    requires SlotHolds(e, Rec(e.g, r.vol, |log.slots|), |log.slots|, x)
    ensures Represents(e, r, Extended(log, x))
  {
    hide Rec, Content, Tail, ReserveOf, StateOf, LogOk, SlotHolds;
    assert LogOk(e.g, log) && log.owed == 0 by {
      NothingOwed(e, m, log);
    }
    ExtendedOk(e.g, log, x);
    var longer := Extended(log, x);
    forall u: nat | u < |longer.slots| ensures SlotHolds(e, Rec(e.g, r.vol, u), u, longer.slots[u]) {
      if u < |log.slots| {
        assert SlotHolds(e, Rec(e.g, m.vol, u), u, log.slots[u]);
      }
    }
    forall u: nat | |longer.slots| <= u < e.g.capacity ensures StateOf(e.g, r.vol, u) == STATE_FREE {
      assert StateOf(e.g, m.vol, u) == STATE_FREE;
      assert Rec(e.g, r.vol, u) == Rec(e.g, m.vol, u);
    }
  }

  lemma NothingOwed(e: Env, m: Mem, log: Log)
    requires Represents(e, m, log) && |log.slots| < e.g.capacity
    ensures LogOk(e.g, log) && log.owed == 0
  {
    hide Rec, SlotHolds;
  }

  /** Reserving the next slot and running the program of an append on it extends the log by the record. */
  lemma AppendExtends(e: Env, m: Mem, log: Log, a: Args)
    requires Represents(e, m, log) && |log.slots| < e.g.capacity && ArgsOk(e.g, a)
    ensures PoolSized(e, m)
    ensures var n := |log.slots|; Represents(e, AppendMem(e, SetReserve(e, m, n + 1), n, a), Extended(log, Live(a)))
  {
    hide Rec, AppendMem, SetReserve, Content, StateOf, SameOutside, Tail, ReserveOf, LogOk;
    var n := |log.slots|;
    SetReserveFacts(e, m, n + 1);
    var p := SetReserve(e, m, n + 1);
    AppendFacts(e, p, n, a);
    var r := AppendMem(e, p, n, a);
    WordsOutside(e, p.vol, r.vol);
    ReserveOutside(e, p.vol, r.vol);
    NothingOwed(e, m, log);
    OneMoreSlot(e, m, r, log, Live(a));
  }

  /** trim(n) of a represented log trims its first n entries and counts the live ones among them. */
  lemma TrimTrims(e: Env, m: Mem, log: Log, n: nat)
    requires Represents(e, m, log) && n <= log.tail
    ensures LogOk(e.g, log) && PoolSized(e, m) && Represents(e, TrimMem(e, m, n), TrimLog(log, n))
    ensures CommittedCount(e, m.vol, n) == LiveCount(log.slots, n)
  {
    hide Rec, TrimMem, Content, StateOf, Tail, ReserveOf, Mixed, SameOutside, SameBody, Passed, SlotHolds;
    TrimOk(e.g, log, n);
    var p, target := TrimMem(e, m, n), TrimmedStates(e, m.vol);
    TrimExact(e, m, n);
    PassedOutside(e, m, p, target, n);
    ReserveOutside(e, m.vol, p.vol);
    CountLive(e, m, log, n);
    forall u: nat | u < e.g.capacity
      ensures Rec(e.g, p.dur, u) == Rec(e.g, p.vol, u)
      ensures u < |log.slots| ==> SlotHolds(e, Rec(e.g, p.vol, u), u, TrimLog(log, n).slots[u])
      ensures |log.slots| <= u ==> StateOf(e.g, p.vol, u) == STATE_FREE
    {
      PassedDurable(e, m, p, target, n, u);
      PassedAt(e, m, p, target, n, u);
      if u < |log.slots| {
        TrimmedSlot(e, Rec(e.g, m.vol, u), Rec(e.g, p.vol, u), u, log.slots[u], u < n);
      }
    }
  }

  lemma PassedOutside(e: Env, m: Mem, p: Mem, target: seq<byte>, n: nat)
    requires PoolSized(e, m) && PoolSized(e, p) && |target| == e.g.capacity && Passed(e, m, p, target, n)
    ensures SameOutside(e.g, m.vol, p.vol)
  {
    hide Rec, StateOf, Mixed, SameOutside, SameBody;
  }

  lemma TrimmedSlot(e: Env, r: seq<byte>, s: seq<byte>, u: nat, x: LogEntry, trimmed: bool)
    requires Image(e.g, r) && Image(e.g, s) && u < e.g.capacity && SlotHolds(e, r, u, x) && SameBody(r, s)
    requires trimmed ==> !x.Gap?
    requires s[REC_STATE] == if trimmed then TrimmedState(r[REC_STATE]) else r[REC_STATE]
    ensures SlotHolds(e, s, u, if trimmed then Trimmed else x)
  {
    hide Content;
    if x.Live? && !trimmed {
      ContentSameBody(e, r, s, u, x.args);
    }
  }

  lemma {:induction false} CountLive(e: Env, m: Mem, log: Log, n: nat)
    requires Represents(e, m, log) && n <= |log.slots|
    ensures PoolSized(e, m) && CommittedCount(e, m.vol, n) == LiveCount(log.slots, n)
  {
    hide Rec, Content;
    if n > 0 {
      CountLive(e, m, log, n - 1);
      assert SlotHolds(e, Rec(e.g, m.vol, n - 1), n - 1, log.slots[n - 1]);
    }
  }

  /** The state recover leaves in a slot: live and trimmed ones stay as they are, gaps stay gaps. */
  lemma FixedSlot(e: Env, r: seq<byte>, s: seq<byte>, u: nat, x: LogEntry)
    requires Image(e.g, r) && Image(e.g, s) && u < e.g.capacity && SlotHolds(e, r, u, x) && SameBody(r, s)
    requires s[REC_STATE] == FixedState(e, r)
    ensures SlotHolds(e, s, u, x) && (!x.Gap? ==> !Broken(e, r))
  {
    hide Content, Intact;
    if x.Live? {
      ContentReadsBack(e, r, u, x.args);
      ContentSameBody(e, r, s, u, x.args);
    }
  }

  /** The scan of recover on a represented log: whatever gaps hold, they are abandoned, and the log stays. */
  lemma ScanKeepsLog(e: Env, m: Mem, log: Log)
    requires Represents(e, m, log)
    ensures PoolSized(e, m) && LogOk(e.g, log) && Represents(e, ScanMem(e, m, |log.slots|), log)
  {
    hide Rec, ScanMem, Content, StateOf, Tail, ReserveOf, Mixed, SameOutside, SameBody, Passed, SlotHolds, FixedState;
    hide FinalState, LogOk;
    RepresentedWords(e, m, log);
    SlotsFit(e.g, log);
    var n := |log.slots|;
    var p, target := ScanMem(e, m, n), FixedStates(e, m.vol);
    ScanExact(e, m, n);
    ScanKeepsWords(e, m, n);
    PassedOutside(e, m, p, target, n);
    ReserveOutside(e, m.vol, p.vol);
    forall u: nat | u < e.g.capacity
      ensures Rec(e.g, p.dur, u) == Rec(e.g, p.vol, u)
      ensures u < n ==> SlotHolds(e, Rec(e.g, p.vol, u), u, log.slots[u])
      ensures n <= u ==> StateOf(e.g, p.vol, u) == STATE_FREE
    {
      FixedMeans(e, Rec(e.g, m.vol, u));
      PassedDurable(e, m, p, target, n, u);
      PassedAt(e, m, p, target, n, u);
      if u < n {
        FixedSlot(e, Rec(e.g, m.vol, u), Rec(e.g, p.vol, u), u, log.slots[u]);
      }
    }
  }

  lemma SlotsFit(g: Geometry, log: Log)
    requires LogOk(g, log)
    ensures log.tail <= |log.slots| <= g.capacity && (log.owed > 0 ==> |log.slots| == g.capacity)
  {
  }

  lemma {:induction false} BrokenAreGaps(e: Env, m: Mem, log: Log, n: nat)
    requires Represents(e, m, log) && n <= |log.slots|
    ensures PoolSized(e, m) && n <= e.g.capacity && BrokenCount(e, m.vol, n) <= GapCount(log.slots, n)
  {
    hide Rec, Content, Broken, SlotHolds, FixedState;
    if n > 0 {
      BrokenAreGaps(e, m, log, n - 1);
      var r := Rec(e.g, m.vol, n - 1);
      assert SlotHolds(e, r, n - 1, log.slots[n - 1]);
      var s := r[REC_STATE := FixedState(e, r)];
      FixedSlot(e, r, s, n - 1, log.slots[n - 1]);
    }
  }

  /** recover on a represented log sweeps it, and changes nothing else of it: every slot handed out is scanned, and only
      gaps can be counted as abandoned. */
  lemma RecoverSweeps(e: Env, m: Mem, log: Log)
    requires Represents(e, m, log)
    ensures PoolSized(e, m) && LogOk(e.g, log) && Represents(e, RecoverMem(e, m), Swept(log))
    ensures var report := RecoverReport(e, m);
            && report.committedTail == Swept(log).tail && report.slotsScanned == |log.slots|
            && report.abandonedCount <= GapCount(log.slots, |log.slots|)
  {
    hide Rec, ScanMem, BrokenCount, FixedState, Represents, SetTail, EndFrom, TailEnd, LogOk;
    RepresentedWords(e, m, log);
    SlotsFit(e.g, log);
    var n := |log.slots|;
    assert Limit(e, m.vol) == n;
    ScanKeepsLog(e, m, log);
    ScanKeepsWords(e, m, n);
    SweepSweeps(e, ScanMem(e, m, n), log);
    SweepAfterScan(e, m, n);
    BrokenAreGaps(e, m, log, n);
  }

  /** Memory after a power cycle: records revert to their durable bytes; header and metrics words are at the media. */
  function PowerCycle(g: Geometry, m: Mem): (r: Mem)
    requires g.Ok() && Sized(m, g.totalSize)
    ensures Sized(r, g.totalSize)
  {
    MulLe(0, g.capacity, g.recordSize);
    m.(vol := m.vol[..HEADER_SIZE] + m.dur[HEADER_SIZE..g.RecordsEnd()] + m.vol[g.RecordsEnd()..])
  }

  /** Between calls nothing acknowledged is only in caches: a power cycle leaves the pool as it was. */
  lemma PowerCycleLosesNothing(e: Env, m: Mem, log: Log)
    requires Represents(e, m, log)
    ensures PoolSized(e, m) && PowerCycle(e.g, m) == m
  {
    hide Rec, Represents;
    RepresentedWords(e, m, log);
    MulLe(0, e.g.capacity, e.g.recordSize);
    var r := PowerCycle(e.g, m);
    forall i | 0 <= i < |m.vol| ensures r.vol[i] == m.vol[i] {
      if HEADER_SIZE <= i < e.g.RecordsEnd() {
        DurableByte(e, m, log, i);
      }
    }
  }

  lemma DurableByte(e: Env, m: Mem, log: Log, i: nat)
    requires Represents(e, m, log) && HEADER_SIZE <= i < e.g.RecordsEnd() && i < |m.vol|
    ensures m.dur[i] == m.vol[i]
  {
    hide Represents, RegionOf, Rec;
    RepresentedWords(e, m, log);
    RegionsTile(e.g, i, Region.Header);
    var x := RegionOf(e.g, i);
    if x.Record? {
      DurableAt(e, m, log, x.slot);
      RecordByte(e.g, m, x.slot, i);
    }
  }

  lemma DurableAt(e: Env, m: Mem, log: Log, u: nat)
    requires Represents(e, m, log) && u < e.g.capacity
    ensures Rec(e.g, m.dur, u) == Rec(e.g, m.vol, u)
  {
    hide SlotHolds, Rec;
  }

  lemma RecordByte(g: Geometry, m: Mem, u: nat, i: nat)
    requires g.Ok() && Sized(m, g.totalSize) && u < g.capacity && Rec(g, m.dur, u) == Rec(g, m.vol, u)
    requires g.RecordOffset(u) <= i < g.RecordOffset(u) + g.recordSize
    ensures i < |m.vol| && m.dur[i] == m.vol[i]
  {
    RecordBounds(g, u);
    assert Rec(g, m.dur, u)[i - g.RecordOffset(u)] == Rec(g, m.vol, u)[i - g.RecordOffset(u)];
  }
}
