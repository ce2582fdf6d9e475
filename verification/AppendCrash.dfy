/** An append cut short by a power failure anywhere between its stores and flushes, with any lines evicted: the pool
    that is found afterwards represents the log without it, with a gap in its place, or with its whole record. */
module AppendCrash {
  import opened Bytes
  import opened Layout
  import opened Media
  import opened Records
  import opened Recovery
  import opened AbstractLog
  import opened LogImage
  import opened CrashRuns

  // ---- What a power cycle leaves ----

  lemma PowerCycleFacts(e: Env, x: Mem)
    requires PoolSized(e, x)
    ensures var y := PowerCycle(e.g, x);
            && PoolSized(e, y) && y.dur == x.dur && Tail(e, y.vol) == Tail(e, x.vol)
            && ReserveOf(e, y.vol) == ReserveOf(e, x.vol)
            && forall u: nat | u < e.g.capacity :: Rec(e.g, y.vol, u) == Rec(e.g, x.dur, u)
  {
    MulLe(0, e.g.capacity, e.g.recordSize);
    var y := PowerCycle(e.g, x);
    assert y.vol[..HEADER_SIZE] == x.vol[..HEADER_SIZE];
    PrefixSlice(y.vol, x.vol, HEADER_SIZE, HDR_COMMITTED_TAIL, 8);
    PrefixSlice(y.vol, x.vol, HEADER_SIZE, HDR_RESERVE_TAIL, 8);
    forall u: nat | u < e.g.capacity ensures Rec(e.g, y.vol, u) == Rec(e.g, x.dur, u) {
      CycledRecord(e, x, u);
    }
  }

  lemma CycledRecord(e: Env, x: Mem, u: nat)
    requires PoolSized(e, x) && u < e.g.capacity
    ensures Rec(e.g, PowerCycle(e.g, x).vol, u) == Rec(e.g, x.dur, u)
  {
    RecordBounds(e.g, u);
    MulLe(0, e.g.capacity, e.g.recordSize);
    var off := e.g.RecordOffset(u);
    MiddleSlice(x.vol, x.dur, HEADER_SIZE, e.g.RecordsEnd(), off, off + e.g.recordSize);
  }

  lemma MiddleSlice(v: seq<byte>, d: seq<byte>, lo: nat, hi: nat, i: nat, j: nat)
    requires |v| == |d| && lo <= i <= j <= hi <= |v|
    ensures (v[..lo] + d[lo..hi] + v[hi..])[i..j] == d[i..j]
  {
    var r := v[..lo] + d[lo..hi] + v[hi..];
    forall k | i <= k < j ensures r[k] == d[k] {
      assert r[k] == (d[lo..hi] + v[hi..])[k - lo];
    }
  }

  /** Every record but that of slot n is durably as m shows it, and the header has the slot reserved. */
  ghost predicate Around(e: Env, m: Mem, x: Mem, n: nat) {
    && PoolSized(e, m) && PoolSized(e, x)
    && Tail(e, x.vol) == Tail(e, m.vol) && ReserveOf(e, x.vol) == n + 1
    && forall w: nat | w < e.g.capacity && w != n :: Rec(e.g, x.dur, w) == Rec(e.g, m.vol, w)
  }

  function EntryAfter(state: byte, a: Args): LogEntry { if state == STATE_COMMITTED then Live(a) else Gap }

  /** After a power cycle the slot is a live entry if its COMMITTED state was durable, and a gap otherwise. */
  lemma CycledLog(e: Env, m: Mem, log: Log, x: Mem, a: Args)
    requires Represents(e, m, log) && |log.slots| < e.g.capacity && ArgsOk(e.g, a) && Around(e, m, x, |log.slots|)
    requires StateOf(e.g, x.dur, |log.slots|) == STATE_COMMITTED ==>
            Content(e, Rec(e.g, x.dur, |log.slots|), |log.slots|, a)
    ensures Represents(e, PowerCycle(e.g, x), Extended(log, EntryAfter(StateOf(e.g, x.dur, |log.slots|), a)))
  {
    hide Rec, Content, Represents, Tail, ReserveOf;
    PowerCycleFacts(e, x);
    RepresentedWords(e, m, log);
    var y := PowerCycle(e.g, x);
    OneMoreSlot(e, m, y, log, EntryAfter(StateOf(e.g, x.dur, |log.slots|), a));
  }

  // ---- The phases of an append ----

  function ReserveOps(n: u64): (ops: seq<MemOp>) { [Store(HDR_RESERVE_TAIL, LE(n, 8))] }

  /** Steps 3 to 6: the body's stores and the record's flush. */
  function FillOps(e: Env, u: nat, a: Args): seq<MemOp>
    requires e.g.Ok() && u < e.g.capacity && ArgsOk(e.g, a)
  {
    BodyOps(e, u, a) + FlushOps(e.g.RecordOffset(u), e.g.recordSize)
  }

  /** Step 7: the commit and its flush. */
  function CommitOps(e: Env, u: nat): seq<MemOp>
  {
    Persist(e.g.RecordOffset(u) + REC_STATE, [STATE_COMMITTED], e.g.RecordOffset(u), CACHELINE)
  }

  /** The reservation, then the program of an append. */
  function AppendOps(e: Env, n: nat, a: Args): seq<MemOp>
    requires e.g.Ok() && n < e.g.capacity && ArgsOk(e.g, a)
  {
    ReserveOps(n + 1) + AppendProgram(e, n, a)
  }

  lemma InPhases(e: Env, n: nat, a: Args)
    requires e.g.Ok() && n < e.g.capacity && ArgsOk(e.g, a)
    ensures AppendOps(e, n, a) == ReserveOps(n + 1) + (FillOps(e, n, a) + CommitOps(e, n))
  {
    hide BodyOps, FlushOps, LE;
    assert AppendProgram(e, n, a) == FillOps(e, n, a) + CommitOps(e, n);
  }

  lemma PhasesFit(e: Env, n: nat, a: Args)
    requires e.g.Ok() && n < e.g.capacity && ArgsOk(e.g, a)
    ensures AllFit(ReserveOps(n + 1), e.g.totalSize)
    ensures StoresWithin(ReserveOps(n + 1), HDR_RESERVE_TAIL, HDR_RESERVE_TAIL + 8)
    ensures var off := e.g.RecordOffset(n);
            && AllFit(FillOps(e, n, a), e.g.totalSize) && StoresWithin(FillOps(e, n, a), off, off + e.g.recordSize)
            && AllFit(CommitOps(e, n), e.g.totalSize) && StoresWithin(CommitOps(e, n), off, off + 1)
            && off + e.g.recordSize <= e.g.totalSize
  {
    hide BodyOps, LE, FlushOps;
    MulLe(0, e.g.capacity, e.g.recordSize);
    RecordBounds(e.g, n);
    BodyFits(e, n, a);
    BodyWithin(e, n, a);
    PersistFits(e.g.RecordOffset(n), [STATE_COMMITTED], e.g.RecordOffset(n), CACHELINE, e.g.totalSize);
    assert AllFit(FlushOps(e.g.RecordOffset(n), e.g.recordSize), e.g.totalSize);
    NoStores(e.g.RecordOffset(n), e.g.recordSize);
  }

  lemma NoStores(off: nat, len: nat)
    ensures forall op | op in FlushOps(off, len) :: !op.Store?
  {
  }

  lemma BodyWithin(e: Env, n: nat, a: Args)
    requires e.g.Ok() && n < e.g.capacity && ArgsOk(e.g, a)
    ensures StoresWithin(BodyOps(e, n, a), e.g.RecordOffset(n), e.g.RecordOffset(n) + e.g.recordSize)
    ensures StoresOnly(BodyOps(e, n, a), e.g.RecordOffset(n), {STATE_WRITING})
  {
    BodyOpsApart(e, n, a);
    var ops := BodyOps(e, n, a);
    forall op | op in ops
      ensures e.g.RecordOffset(n) <= op.off && op.off + |op.bytes| <= e.g.RecordOffset(n) + e.g.recordSize
      ensures op.off == e.g.RecordOffset(n) ==> op.bytes == [STATE_WRITING]
    {
      var j :| 0 <= j < |ops| && ops[j] == op;
      assert j == 0 || 8 <= Rel(e.g, n, ops[j]);
    }
  }

  // ---- Frames of a phase ----

  /** Records that a phase does not store to, durable as visible before it, stay so. */
  lemma RecordFrame(e: Env, x: Mem, prog: seq<MemOp>, run: seq<MemOp>, k: nat, lo: nat, hi: nat, w: nat)
    requires PoolSized(e, x) && Runs(prog, run, k) && AllFit(prog, e.g.totalSize) && StoresWithin(prog, lo, hi)
    requires w < e.g.capacity && Rec(e.g, x.dur, w) == Rec(e.g, x.vol, w)
    requires hi <= e.g.RecordOffset(w) || e.g.RecordOffset(w) + e.g.recordSize <= lo
    ensures var y := RunMem(x, prog, run, k);
            PoolSized(e, y) && Rec(e.g, y.dur, w) == Rec(e.g, x.vol, w) == Rec(e.g, y.vol, w)
  {
    hide RunMem, Runs, Rec;
    var y := RunMem(x, prog, run, k);
    RecordBounds(e.g, w);
    forall i: nat | e.g.RecordOffset(w) <= i < e.g.RecordOffset(w) + e.g.recordSize
      ensures y.dur[i] == x.vol[i] == y.vol[i]
    {
      RecordByte(e.g, x, w, i);
      RunFrame(x, prog, run, k, lo, hi, i);
    }
    SameBytes(e.g, y.dur, x.vol, w);
    SameBytes(e.g, y.vol, x.vol, w);
  }

  /** Images that agree on a record's bytes have the same record. */
  lemma SameBytes(g: Geometry, v: seq<byte>, w: seq<byte>, u: nat)
    requires g.Ok() && |v| == |w| == g.totalSize && u < g.capacity
    requires forall i: nat | g.RecordOffset(u) <= i < g.RecordOffset(u) + g.recordSize :: i < |v| && v[i] == w[i]
    ensures Rec(g, v, u) == Rec(g, w, u)
  {
    RecordBounds(g, u);
  }

  /** So do the header's tails under the phases that store to records only. */
  lemma WordFrame(e: Env, x: Mem, prog: seq<MemOp>, run: seq<MemOp>, k: nat, lo: nat, hi: nat)
    requires PoolSized(e, x) && Runs(prog, run, k) && AllFit(prog, e.g.totalSize) && StoresWithin(prog, lo, hi)
    requires HEADER_SIZE <= lo
    ensures var y := RunMem(x, prog, run, k);
            PoolSized(e, y) && Tail(e, y.vol) == Tail(e, x.vol) && ReserveOf(e, y.vol) == ReserveOf(e, x.vol)
  {
    hide WordAt;
    MulLe(0, e.g.capacity, e.g.recordSize);
    var y := RunMem(x, prog, run, k);
    forall i | 0 <= i < HEADER_SIZE ensures y.vol[i] == x.vol[i] {
      RunVolFrame(x, prog, run, k, lo, hi, i);
    }
    HeadWord(x.vol, y.vol, HDR_COMMITTED_TAIL);
    HeadWord(x.vol, y.vol, HDR_RESERVE_TAIL);
  }

  lemma HeadWord(v: seq<byte>, w: seq<byte>, off: nat)
    requires |v| == |w| && off + 8 <= HEADER_SIZE <= |v| && forall i | 0 <= i < HEADER_SIZE :: w[i] == v[i]
    ensures WordAt(w, off) == WordAt(v, off)
  {
    assert w[off..off + 8] == v[off..off + 8];
  }

  /** A phase that stores inside record n only. */
  lemma AroundStays(e: Env, m: Mem, x: Mem, n: nat, prog: seq<MemOp>, run: seq<MemOp>, k: nat, lo: nat, hi: nat)
    requires Around(e, m, x, n) && n < e.g.capacity && Runs(prog, run, k) && AllFit(prog, e.g.totalSize)
    requires e.g.RecordOffset(n) <= lo && hi <= e.g.RecordOffset(n) + e.g.recordSize && StoresWithin(prog, lo, hi)
    requires forall w: nat | w < e.g.capacity && w != n :: Rec(e.g, x.dur, w) == Rec(e.g, x.vol, w)
    ensures var y := RunMem(x, prog, run, k);
            && Around(e, m, y, n)
            && forall w: nat | w < e.g.capacity && w != n :: Rec(e.g, y.dur, w) == Rec(e.g, y.vol, w)
  {
    hide Rec, Tail, ReserveOf, RunMem, Runs;
    WordFrame(e, x, prog, run, k, lo, hi);
    forall w: nat | w < e.g.capacity && w != n
      ensures var y := RunMem(x, prog, run, k);
              Rec(e.g, y.dur, w) == Rec(e.g, m.vol, w) && Rec(e.g, y.dur, w) == Rec(e.g, y.vol, w)
    {
      Apart(e.g, n, w);
      RecordFrame(e, x, prog, run, k, lo, hi, w);
    }
  }

  lemma Apart(g: Geometry, n: nat, w: nat)
    requires g.Ok() && n != w
    ensures g.RecordOffset(n) + g.recordSize <= g.RecordOffset(w)
            || g.RecordOffset(w) + g.recordSize <= g.RecordOffset(n)
  {
    if n < w {
      RecordsDisjoint(g, n, w);
    } else {
      RecordsDisjoint(g, w, n);
    }
  }

  // ---- Phase 1: the reservation ----

  lemma ReserveRun(e: Env, m: Mem, log: Log, a: Args, run: seq<MemOp>, k: nat)
    requires Represents(e, m, log) && |log.slots| < e.g.capacity && ArgsOk(e.g, a)
    requires Runs(ReserveOps(|log.slots| + 1), run, k)
    ensures AllFit(ReserveOps(|log.slots| + 1), e.g.totalSize) && PoolSized(e, m)
    ensures var x := RunMem(m, ReserveOps(|log.slots| + 1), run, k);
            && PoolSized(e, x)
            && (k == 0 ==> Represents(e, PowerCycle(e.g, x), log))
            && (k > 0 ==> Around(e, m, x, |log.slots|))
            && forall w: nat | w < e.g.capacity :: Rec(e.g, x.dur, w) == Rec(e.g, m.vol, w) == Rec(e.g, x.vol, w)
  {
    hide Rec, Represents, Tail, ReserveOf, RunMem, SetReserve, LogOk;
    RepresentedWords(e, m, log);
    var n := |log.slots|;
    var prog := ReserveOps(n + 1);
    PhasesFit(e, n, a);
    var x := RunMem(m, prog, run, k);
    forall w: nat | w < e.g.capacity ensures Rec(e.g, x.dur, w) == Rec(e.g, m.vol, w) == Rec(e.g, x.vol, w) {
      RecordBounds(e.g, w);
      DurableAt(e, m, log, w);
      RecordFrame(e, m, prog, run, k, HDR_RESERVE_TAIL, HDR_RESERVE_TAIL + 8, w);
    }
    RunVol(m, prog, run, k);
    if k == 0 {
      assert prog[..0] == [];
      assert x.vol == m.vol;
      PowerCycleFacts(e, x);
      Unchanged(e, m, PowerCycle(e.g, x), log);
    } else {
      assert prog[..k] == [prog[0]];
      assert x.vol == SetReserve(e, m, n + 1).vol by {
        OneStore(e, m, n + 1);
      }
      SetReserveFacts(e, m, n + 1);
    }
  }

  lemma OneStore(e: Env, m: Mem, n: u64)
    requires PoolSized(e, m)
    ensures AllFit(ReserveOps(n), e.g.totalSize) && ApplyAll(m, ReserveOps(n)) == SetReserve(e, m, n)
  {
    hide LE;
    MulLe(0, e.g.capacity, e.g.recordSize);
    assert ApplyAll(m, ReserveOps(n)) == Apply(m, ReserveOps(n)[0]);
  }

  /** A pool with the records and words of a represented one represents the same log. */
  lemma Unchanged(e: Env, m: Mem, r: Mem, log: Log)
    requires Represents(e, m, log) && PoolSized(e, r)
    requires Tail(e, r.vol) == Tail(e, m.vol) && ReserveOf(e, r.vol) == ReserveOf(e, m.vol)
    requires forall u: nat | u < e.g.capacity :: Rec(e.g, r.vol, u) == Rec(e.g, m.vol, u) == Rec(e.g, r.dur, u)
    ensures Represents(e, r, log)
  {
    hide Rec, SlotHolds, LogOk, Tail, ReserveOf;
    SlotsFit(e.g, log);
    forall u: nat | u < e.g.capacity ensures StateOf(e.g, r.vol, u) == StateOf(e.g, m.vol, u) {
      assert Rec(e.g, r.vol, u) == Rec(e.g, m.vol, u);
    }
  }

  // ---- Phase 2: the body and its flush ----

  lemma FillStates(e: Env, u: nat, a: Args)
    requires e.g.Ok() && u < e.g.capacity && ArgsOk(e.g, a)
    ensures StoresOnly(FillOps(e, u, a), e.g.RecordOffset(u), {STATE_FREE, STATE_WRITING})
  {
    hide BodyOps, FlushOps;
    BodyWithin(e, u, a);
    NoStores(e.g.RecordOffset(u), e.g.recordSize);
  }

  /** While the body is stored and flushed, the slot's state is FREE or WRITING; after it, the content is durable. */
  lemma FillRun(e: Env, x: Mem, u: nat, a: Args, run: seq<MemOp>, k: nat)
    requires PoolSized(e, x) && u < e.g.capacity && ArgsOk(e.g, a) && Runs(FillOps(e, u, a), run, k)
    requires StateOf(e.g, x.vol, u) == STATE_FREE && StateOf(e.g, x.dur, u) == STATE_FREE
    ensures AllFit(FillOps(e, u, a), e.g.totalSize)
    ensures var y := RunMem(x, FillOps(e, u, a), run, k);
            && PoolSized(e, y) && StateOf(e.g, y.dur, u) != STATE_COMMITTED
            && (k == |FillOps(e, u, a)| ==>
                  && Rec(e.g, y.dur, u) == Rec(e.g, y.vol, u) && Content(e, Rec(e.g, y.vol, u), u, a)
                  && StateOf(e.g, y.vol, u) == STATE_WRITING)
  {
    hide Rec, BodyOps, FlushOps, RunMem, Runs, Content, FillOps;
    PhasesFit(e, u, a);
    FillStates(e, u, a);
    RecordBounds(e.g, u);
    RunByteIn(x, FillOps(e, u, a), run, k, e.g.RecordOffset(u), {STATE_FREE, STATE_WRITING});
    if k == |FillOps(e, u, a)| {
      FillDone(e, x, u, a, run);
    }
  }

  lemma FillDone(e: Env, x: Mem, u: nat, a: Args, run: seq<MemOp>)
    requires PoolSized(e, x) && u < e.g.capacity && ArgsOk(e.g, a) && Runs(FillOps(e, u, a), run, |FillOps(e, u, a)|)
    ensures AllFit(FillOps(e, u, a), e.g.totalSize)
    ensures var y := RunMem(x, FillOps(e, u, a), run, |FillOps(e, u, a)|);
            && PoolSized(e, y) && Rec(e.g, y.dur, u) == Rec(e.g, y.vol, u) && Content(e, Rec(e.g, y.vol, u), u, a)
            && StateOf(e.g, y.vol, u) == STATE_WRITING
  {
    hide Rec, BodyOps, FlushOps, RunMem, Runs, Content, Written;
    PhasesFit(e, u, a);
    BodyFits(e, u, a);
    var b, f := BodyOps(e, u, a), FlushOps(e.g.RecordOffset(u), e.g.recordSize);
    assert AllFit(f, e.g.totalSize);
    var cut := InTwo(x, b, f, run, |b + f|);
    var z := RunMem(x, b, run[..cut], |b|);
    RunVol(x, b, run[..cut], |b|);
    assert b[..|b|] == b;
    BodyPrefix(e, x, u, a, |b|);
    AllWritten(e, Rec(e.g, z.vol, u), u, a);
    FlushedRecord(e, z, u, run[cut..]);
  }

  /** A whole flush of a record makes it durable. */
  lemma FlushedRecord(e: Env, z: Mem, u: nat, run: seq<MemOp>)
    requires PoolSized(e, z) && u < e.g.capacity
    requires var f := FlushOps(e.g.RecordOffset(u), e.g.recordSize); Runs(f, run, |f|)
    ensures var f := FlushOps(e.g.RecordOffset(u), e.g.recordSize);
            AllFit(f, e.g.totalSize)
            && var y := RunMem(z, f, run, |f|);
                PoolSized(e, y) && y.vol == z.vol && Rec(e.g, y.dur, u) == Rec(e.g, y.vol, u)
  {
    hide RunMem, Runs, FlushOps, Rec;
    RecordBounds(e.g, u);
    var off := e.g.RecordOffset(u);
    var f := FlushOps(off, e.g.recordSize);
    assert AllFit(f, e.g.totalSize);
    var y := RunMem(z, f, run, |f|);
    FlushRunDone(z, off, e.g.recordSize, run, off);
    forall i: nat | off <= i < off + e.g.recordSize ensures y.dur[i] == y.vol[i] {
      FlushRunDone(z, off, e.g.recordSize, run, i);
    }
    SameBytes(e.g, y.dur, y.vol, u);
  }

  // ---- Phase 3: the commit ----

  /** While the commit is stored and flushed, the slot's content is durable and its state WRITING or COMMITTED; after
      it, it is COMMITTED. */
  lemma CommitRun(e: Env, y: Mem, u: nat, a: Args, run: seq<MemOp>, k: nat)
    requires PoolSized(e, y) && u < e.g.capacity && ArgsOk(e.g, a) && Runs(CommitOps(e, u), run, k)
    requires Rec(e.g, y.dur, u) == Rec(e.g, y.vol, u) && Content(e, Rec(e.g, y.vol, u), u, a)
    requires StateOf(e.g, y.vol, u) == STATE_WRITING
    ensures AllFit(CommitOps(e, u), e.g.totalSize)
    ensures var z := RunMem(y, CommitOps(e, u), run, k);
            && PoolSized(e, z) && Content(e, Rec(e.g, z.dur, u), u, a)
            && (k == |CommitOps(e, u)| ==> StateOf(e.g, z.dur, u) == STATE_COMMITTED)
  {
    hide Content, RunMem, Runs, FlushOps, BodyOps;
    PhasesFit(e, u, a);
    RecordBounds(e.g, u);
    var off := e.g.RecordOffset(u);
    var prog := CommitOps(e, u);
    var z := RunMem(y, prog, run, k);
    forall j | 1 <= j < e.g.recordSize ensures Rec(e.g, z.dur, u)[j] == Rec(e.g, y.vol, u)[j] {
      assert Rec(e.g, y.dur, u)[j] == Rec(e.g, y.vol, u)[j];
      RunFrame(y, prog, run, k, off, off + 1, off + j);
    }
    ContentSameBody(e, Rec(e.g, y.vol, u), Rec(e.g, z.dur, u), u, a);
    CommitDone(e, y, u, run, k);
  }

  lemma CommitDone(e: Env, y: Mem, u: nat, run: seq<MemOp>, k: nat)
    requires PoolSized(e, y) && u < e.g.capacity && Runs(CommitOps(e, u), run, k)
    requires AllFit(CommitOps(e, u), e.g.totalSize)
    requires Rec(e.g, y.dur, u) == Rec(e.g, y.vol, u)
    ensures var z := RunMem(y, CommitOps(e, u), run, k);
            PoolSized(e, z) && (k == |CommitOps(e, u)| ==> StateOf(e.g, z.dur, u) == STATE_COMMITTED)
  {
    hide RunMem, Runs, FlushOps;
    RecordBounds(e.g, u);
    var off := e.g.RecordOffset(u);
    assert Rec(e.g, y.dur, u)[0] == Rec(e.g, y.vol, u)[0];
    assert At(y.dur, off, 1) == At(y.vol, off, 1) by {
      assert y.dur[off] == y.vol[off];
    }
    OwnLine(off, off, CACHELINE);
    PersistRun(y, off, [STATE_COMMITTED], off, CACHELINE, run, k);
    var z := RunMem(y, CommitOps(e, u), run, k);
    assert At(z.dur, off, 1)[0] == z.dur[off];
  }

  // ---- The whole append ----

  /** From a reserved slot: after the rest of an append, cut short anywhere, a power cycle finds a gap or the record. */
  lemma ReservedRun(e: Env, m: Mem, log: Log, x: Mem, a: Args, run: seq<MemOp>, k: nat)
    requires Represents(e, m, log) && |log.slots| < e.g.capacity && ArgsOk(e.g, a) && Around(e, m, x, |log.slots|)
    requires forall w: nat | w < e.g.capacity :: Rec(e.g, x.dur, w) == Rec(e.g, m.vol, w) == Rec(e.g, x.vol, w)
    requires var n := |log.slots|; Runs(FillOps(e, n, a) + CommitOps(e, n), run, k)
    ensures var n := |log.slots|;
            var prog := FillOps(e, n, a) + CommitOps(e, n);
            AllFit(prog, e.g.totalSize)
            && var y := PowerCycle(e.g, RunMem(x, prog, run, k));
               && (Represents(e, y, Extended(log, Gap)) || Represents(e, y, Extended(log, Live(a))))
               && (k == |prog| ==> Represents(e, y, Extended(log, Live(a))))
  {
    hide Rec, Content, RunMem, Runs, FillOps, CommitOps, Around, Represents, BodyOps;
    var n := |log.slots|;
    AroundSized(e, m, x, n);
    var f, c := FillOps(e, n, a), CommitOps(e, n);
    PhasesFit(e, n, a);
    FreeSlot(e, m, log, x);
    var cut := InTwo(x, f, c, run, k);
    var off := e.g.RecordOffset(n);
    if k < |f| {
      FillRun(e, x, n, a, run, k);
      AroundStays(e, m, x, n, f, run, k, off, off + e.g.recordSize);
      CycledLog(e, m, log, RunMem(x, f, run, k), a);
    } else {
      FillRun(e, x, n, a, run[..cut], |f|);
      AroundStays(e, m, x, n, f, run[..cut], |f|, off, off + e.g.recordSize);
      var y := RunMem(x, f, run[..cut], |f|);
      CommitRun(e, y, n, a, run[cut..], k - |f|);
      AroundStays(e, m, y, n, c, run[cut..], k - |f|, off, off + 1);
      CycledLog(e, m, log, RunMem(y, c, run[cut..], k - |f|), a);
    }
  }

  lemma AroundSized(e: Env, m: Mem, x: Mem, n: nat)
    requires Around(e, m, x, n)
    ensures PoolSized(e, m) && PoolSized(e, x)
  {
    hide Rec;
  }

  lemma FreeSlot(e: Env, m: Mem, log: Log, x: Mem)
    requires Represents(e, m, log) && |log.slots| < e.g.capacity && PoolSized(e, x)
    requires forall w: nat | w < e.g.capacity :: Rec(e.g, x.dur, w) == Rec(e.g, m.vol, w) == Rec(e.g, x.vol, w)
    ensures StateOf(e.g, x.vol, |log.slots|) == STATE_FREE && StateOf(e.g, x.dur, |log.slots|) == STATE_FREE
  {
    hide Rec, SlotHolds, LogOk;
    assert StateOf(e.g, m.vol, |log.slots|) == STATE_FREE;
    assert Rec(e.g, x.dur, |log.slots|) == Rec(e.g, m.vol, |log.slots|) == Rec(e.g, x.vol, |log.slots|);
  }

  /** Cut an append short anywhere between its stores and flushes, evict any lines, power-cycle: the pool represents the
      log as it was, or with a gap in the append's slot, or with its whole record; the last if its flushes were done. */
  lemma AppendIsAtomic(e: Env, m: Mem, log: Log, a: Args, run: seq<MemOp>, k: nat)
    requires Represents(e, m, log) && |log.slots| < e.g.capacity && ArgsOk(e.g, a)
    requires Runs(AppendOps(e, |log.slots|, a), run, k)
    ensures AllFit(AppendOps(e, |log.slots|, a), e.g.totalSize) && PoolSized(e, m)
    ensures var prog := AppendOps(e, |log.slots|, a);
            var y := PowerCycle(e.g, RunMem(m, prog, run, k));
            && (Represents(e, y, log) || Represents(e, y, Extended(log, Gap))
                || Represents(e, y, Extended(log, Live(a))))
            && (k == 0 ==> Represents(e, y, log))
            && (k == |prog| ==> Represents(e, y, Extended(log, Live(a))))
  {
    hide Rec, RunMem, Runs, FillOps, CommitOps, Around, Represents, ReserveOps, AppendOps, BodyOps;
    RepresentedWords(e, m, log);
    var n := |log.slots|;
    var r, rest := ReserveOps(n + 1), FillOps(e, n, a) + CommitOps(e, n);
    InPhases(e, n, a);
    PhasesFit(e, n, a);
    assert AllFit(rest, e.g.totalSize);
    var cut := InTwo(m, r, rest, run, k);
    OneOp(n + 1);
    if k < |r| {
      ReserveRun(e, m, log, a, run, k);
    } else {
      ReserveRun(e, m, log, a, run[..cut], |r|);
      ReservedRun(e, m, log, RunMem(m, r, run[..cut], |r|), a, run[cut..], k - |r|);
    }
  }

  lemma OneOp(n: u64)
    ensures |ReserveOps(n)| == 1
  {
  }

  /** After the power cycle recover settles what is left: no slot is lost or invented, and the tail is swept. */
  lemma CutAppendRecovers(e: Env, m: Mem, log: Log, a: Args, run: seq<MemOp>, k: nat)
    requires Represents(e, m, log) && |log.slots| < e.g.capacity && ArgsOk(e.g, a)
    requires Runs(AppendOps(e, |log.slots|, a), run, k)
    ensures AllFit(AppendOps(e, |log.slots|, a), e.g.totalSize) && PoolSized(e, m) && LogOk(e.g, log)
    ensures var r := RecoverMem(e, PowerCycle(e.g, RunMem(m, AppendOps(e, |log.slots|, a), run, k)));
            || Represents(e, r, Swept(log))
            || Represents(e, r, Swept(Extended(log, Gap)))
            || Represents(e, r, AppendLog(log, a))
  {
    hide Represents, RunMem, AppendOps, RecoverMem, Runs, Swept, Extended, LogOk;
    RepresentedWords(e, m, log);
    AppendIsAtomic(e, m, log, a, run, k);
    var y := PowerCycle(e.g, RunMem(m, AppendOps(e, |log.slots|, a), run, k));
    if Represents(e, y, log) {
      RecoverSweeps(e, y, log);
    } else if Represents(e, y, Extended(log, Gap)) {
      RecoverSweeps(e, y, Extended(log, Gap));
    } else {
      RecoverSweeps(e, y, Extended(log, Live(a)));
    }
  }

  /** A writer that dies between an overflowing reservation and its undo leaves one more undo owed, and nothing else. */
  lemma LostUndo(e: Env, m: Mem, log: Log)
    requires Represents(e, m, log) && |log.slots| == e.g.capacity && |log.slots| + log.owed + 1 < U64_LIMIT
    ensures PoolSized(e, m)
    ensures Represents(e, SetReserve(e, m, |log.slots| + log.owed + 1), log.(owed := log.owed + 1))
  {
    hide Rec, SlotHolds, Tail, ReserveOf, SetReserve;
    var r := |log.slots| + log.owed + 1;
    SetReserveFacts(e, m, r);
    forall u: nat | u < e.g.capacity ensures StateOf(e.g, SetReserve(e, m, r).vol, u) == StateOf(e.g, m.vol, u) {
      assert Rec(e.g, SetReserve(e, m, r).vol, u) == Rec(e.g, m.vol, u);
    }
  }
}
