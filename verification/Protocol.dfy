/** The log protocol as a state machine: any number of threads, one backend call per step,
    with cache-line eviction, thread death and power failure as further steps. */
module Protocol {
  import opened Bytes
  import opened Layout
  import opened Media
  import opened Records

  type Tid = nat

  // ---- Calls and replies ----

  datatype Call =
    | AppendCall(args: Args)
    | ReadCall(host: nat, index: u64)
    | TrimCall(upTo: u64)
    | RecoverCall(host: nat)

  datatype Reply =
    | Appended(slot: nat, args: Args)
    | PayloadTooLarge(max: nat, got: nat)
    | PoolFull(capacity: nat, requestedSlot: nat)
    | ReadSome(index: nat, entry: Entry)
    | ReadNone(index: nat)
    | OutOfBounds(index: nat, tail: nat)
    | ChecksumMismatch(index: nat)
    | Trimmed(upTo: nat, count: nat)
    | TrimBeyondCommitted(upTo: nat, tail: nat)
    | Recovered(abandoned: nat, tail: nat, scanned: nat)

  // ---- Where a thread is ----

  /** advance_committed_tail. `tries` counts failed compare-exchanges, `first` is the first tail loaded. */
  datatype Sweep =
    | LoadTail(tries: nat, first: nat)
    | ScanFrom(tries: nat, first: nat, cur: nat, new_: nat)
    | SwapTail(tries: nat, first: nat, cur: nat, new_: nat)

  datatype Job = ForAppend(slot: nat, args: Args) | ForRecover(host: nat, limit: nat, abandoned: nat)

  datatype Purpose = ForRead(host: nat, index: nat) | ForScan(host: nat, limit: nat, abandoned: nat)

  datatype Field = Term | Index | Writer | Len | Crc | Payload

  /** The fields loaded so far. */
  datatype Fields = Fields(term: u64, index: u64, writer: u64, len: nat, crc: u64)

  datatype Pc =
    | Start(call: Call)
    // append
    | Undo(args: Args, requested: nat)
    | FailMetric(args: Args, requested: nat)
    | Body(slot: nat, args: Args, k: nat)
    | FlushRecord(slot: nat, args: Args, j: nat)
    | Commit(slot: nat, args: Args)
    | FlushState(slot: nat, args: Args, j: nat)
    | CountAppend(slot: nat, args: Args)
    | CountBytes(slot: nat, args: Args)
    // the sweep, run by append and by recover
    | Sweeping(job: Job, sweep: Sweep)
    // read, and the checksum test of recover
    | LoadState(host: nat, index: nat)
    | Load(purpose: Purpose, slot: nat, field: Field, got: Fields)
    | CountRead(host: nat, index: nat, entry: Entry)
    | CountMismatch(host: nat, index: nat)
    // recover
    | Scan(host: nat, limit: nat, slot: nat, abandoned: nat)
    | Mark(host: nat, limit: nat, slot: nat, abandoned: nat)
    | MarkFlush(host: nat, limit: nat, slot: nat, abandoned: nat, j: nat)
    | CountRun(host: nat, report: Reply)
    | CountFound(host: nat, report: Reply)
    // trim
    | TrimScan(upTo: nat, slot: nat, count: nat)
    | TrimMark(upTo: nat, slot: nat, count: nat)
    | TrimFlush(upTo: nat, slot: nat, count: nat, j: nat)
    | Done(reply: Reply)

  // ---- What the threads share ----

  datatype Grant = Grant(owner: Tid, args: Args)

  /** The first four fields are the pool; the rest are history variables that no step reads. grants[u] is the append
      that slot u was handed to; sealed holds the slots whose record flush completed, landed those that have been
      COMMITTED, acked those whose append returned, counted and billed those whose metrics were bumped; horizon is the
      largest bound of any accepted trim; leaked counts threads that died owing an undo. */
  datatype Shared = Shared(
    mem: Mem, committed: nat, reserve: u64, metrics: seq<seq<u64>>,
    grants: seq<Grant>, sealed: set<nat>, landed: set<nat>, acked: set<nat>, counted: set<nat>, billed: set<nat>,
    horizon: nat, overflows: nat, leaked: nat)

  datatype State = State(sh: Shared, threads: map<Tid, Pc>)

  const APPENDS_TOTAL := 0
  const APPENDS_FAILED := 1
  const BYTES_WRITTEN := 2
  const READS_TOTAL := 3
  const CHECKSUM_FAILURES := 4
  const RECOVERY_RUNS := 5
  const ABANDONED_FOUND := 6
  const METRICS_FIELDS := 7

  ghost predicate SharedOk(e: Env, sh: Shared) {
    && e.g.Ok() && Sized(sh.mem, e.g.totalSize)
    && |sh.metrics| == e.g.maxHosts && forall h | 0 <= h < |sh.metrics| :: |sh.metrics[h]| == METRICS_FIELDS
  }

  function Bump(m: seq<seq<u64>>, host: nat, field: nat, n: u64): seq<seq<u64>>
    requires host < |m| && field < |m[host]|
  {
    var block: seq<u64> := m[host][field := WrapAdd(m[host][field], n)];
    m[host := block]
  }

  // ---- What each program point takes for granted about its own operands ----

  predicate CallOk(g: Geometry, c: Call) {
    match c
    case AppendCall(a) => a.host < g.maxHosts && |a.data| < U32_LIMIT
    case ReadCall(h, _) => h < g.maxHosts
    case TrimCall(_) => true
    case RecoverCall(h) => h < g.maxHosts
  }

  predicate SlotOk(g: Geometry, u: nat, a: Args) { u < g.capacity && ArgsOk(g, a) }

  predicate JobOk(g: Geometry, job: Job) {
    match job
    case ForAppend(u, a) => SlotOk(g, u, a)
    case ForRecover(h, limit, n) => h < g.maxHosts && limit <= g.capacity && n <= limit
  }

  predicate PurposeOk(g: Geometry, p: Purpose, u: nat) {
    match p
    case ForRead(h, index) => h < g.maxHosts && index == u + 1
    case ForScan(h, limit, n) => h < g.maxHosts && u < limit <= g.capacity && n <= u
  }

  predicate PcOk(e: Env, pc: Pc)
    requires e.g.Ok()
  {
    var g := e.g;
    match pc
    case Start(c) => CallOk(g, c)
    case Undo(a, _) => ArgsOk(g, a)
    case FailMetric(a, _) => ArgsOk(g, a)
    case Body(u, a, k) => SlotOk(g, u, a) && k < |BodyOps(e, u, a)|
    case FlushRecord(u, a, j) => SlotOk(g, u, a) && j < NumLines(g.RecordOffset(u), g.recordSize)
    case Commit(u, a) => SlotOk(g, u, a)
    case FlushState(u, a, j) => SlotOk(g, u, a) && j < NumLines(g.RecordOffset(u), CACHELINE)
    case CountAppend(u, a) => SlotOk(g, u, a)
    case CountBytes(u, a) => SlotOk(g, u, a)
    case Sweeping(job, _) => JobOk(g, job)
    case LoadState(h, index) => h < g.maxHosts && 0 < index <= g.capacity
    case Load(p, u, _, _) => u < g.capacity && PurposeOk(g, p, u)
    case CountRead(h, _, _) => h < g.maxHosts
    case CountMismatch(h, _) => h < g.maxHosts
    case Scan(h, limit, u, n) => h < g.maxHosts && u <= limit <= g.capacity && n <= u
    case Mark(h, limit, u, n) => h < g.maxHosts && u < limit <= g.capacity && n <= u
    case MarkFlush(h, limit, u, n, j) =>
      h < g.maxHosts && u < limit <= g.capacity && n <= u && j < NumLines(g.RecordOffset(u), CACHELINE)
    case CountRun(h, r) => h < g.maxHosts && r.Recovered? && r.abandoned <= g.capacity
    case CountFound(h, r) => h < g.maxHosts && r.Recovered? && r.abandoned <= g.capacity
    case TrimScan(upTo, u, n) => u <= upTo <= g.capacity && n <= u
    case TrimMark(upTo, u, n) => u < upTo <= g.capacity && n <= u
    case TrimFlush(upTo, u, n, j) => u < upTo <= g.capacity && n <= u && j < NumLines(g.RecordOffset(u), CACHELINE)
    case Done(_) => true
  }

  // ---- One step of one thread ----

  datatype Move = Move(sh: Shared, pc: Pc)

  function StateByte(e: Env, sh: Shared, u: nat): byte
    requires SharedOk(e, sh) && u < e.g.capacity
  {
    StateOf(e.g, sh.mem.vol, u)
  }

  function StoreState(e: Env, sh: Shared, u: nat, x: byte): Shared
    requires SharedOk(e, sh) && u < e.g.capacity
  {
    RecordBounds(e.g, u);
    sh.(mem := Apply(sh.mem, Store(e.g.RecordOffset(u) + REC_STATE, [x])))
  }

  /** The j-th write-back of a flush of record u's bytes. */
  function FlushLine(e: Env, sh: Shared, u: nat, j: nat): Shared
    requires SharedOk(e, sh) && u < e.g.capacity
  {
    sh.(mem := Apply(sh.mem, WriteBack(e.g.RecordOffset(u) / CACHELINE + j)))
  }

  function Count(sh: Shared, host: nat, field: nat, n: u64): Shared
    requires host < |sh.metrics| && field < |sh.metrics[host]|
  {
    sh.(metrics := Bump(sh.metrics, host, field, n))
  }

  function StepAppend(e: Env, sh: Shared, t: Tid, pc: Pc): Move
    requires SharedOk(e, sh) && PcOk(e, pc)
    requires pc.Undo? || pc.FailMetric? || pc.Body? || pc.FlushRecord? || pc.Commit? || pc.FlushState?
          || pc.CountAppend? || pc.CountBytes?
  {
    match pc
    case Undo(a, requested) =>
      Move(sh.(reserve := WrapAdd(sh.reserve, U64_MAX)), FailMetric(a, requested))
    case FailMetric(a, requested) =>
      Move(Count(sh, a.host, APPENDS_FAILED, 1), Done(PoolFull(e.g.capacity, requested)))
    case Body(u, a, k) =>
      var ops := BodyOps(e, u, a);
      RecordBounds(e.g, u);
      BodyOpsApart(e, u, a);
      Move(sh.(mem := Apply(sh.mem, ops[k])), if k + 1 < |ops| then Body(u, a, k + 1) else FlushRecord(u, a, 0))
    case FlushRecord(u, a, j) =>
      var flushed := FlushLine(e, sh, u, j);
      if j + 1 < NumLines(e.g.RecordOffset(u), e.g.recordSize) then Move(flushed, FlushRecord(u, a, j + 1))
      else Move(flushed.(sealed := sh.sealed + {u}), Commit(u, a))
    case Commit(u, a) =>
      Move(StoreState(e, sh, u, STATE_COMMITTED).(landed := sh.landed + {u}), FlushState(u, a, 0))
    case FlushState(u, a, j) =>
      Move(FlushLine(e, sh, u, j),
           if j + 1 < NumLines(e.g.RecordOffset(u), CACHELINE) then FlushState(u, a, j + 1)
           else Sweeping(ForAppend(u, a), LoadTail(0, 0)))
    case CountAppend(u, a) =>
      Move(Count(sh, a.host, APPENDS_TOTAL, 1).(counted := sh.counted + {u}), CountBytes(u, a))
    case CountBytes(u, a) =>
      Move(Count(sh, a.host, BYTES_WRITTEN, |a.data|).(billed := sh.billed + {u}, acked := sh.acked + {u}),
           Done(Appended(u, a)))
  }

  function AfterSweep(job: Job, tail: nat): Pc {
    match job
    case ForAppend(u, a) => CountAppend(u, a)
    case ForRecover(h, limit, n) => CountRun(h, Recovered(n, tail, limit))
  }

  function StepSweep(e: Env, sh: Shared, pc: Pc): Move
    requires SharedOk(e, sh) && PcOk(e, pc) && pc.Sweeping?
  {
    match pc.sweep
    case LoadTail(tries, first) =>
      var cur := sh.committed;
      Move(sh, pc.(sweep := ScanFrom(tries, if tries == 0 then cur else first, cur, cur)))
    case ScanFrom(tries, first, cur, new_) =>
      if new_ < e.g.capacity && StateByte(e, sh, new_) == STATE_COMMITTED then
        Move(sh, pc.(sweep := ScanFrom(tries, first, cur, new_ + 1)))
      else if new_ == cur then
        Move(sh, AfterSweep(pc.job, cur))
      else
        Move(sh, pc.(sweep := SwapTail(tries, first, cur, new_)))
    case SwapTail(tries, first, cur, new_) =>
      if sh.committed == cur then
        Move(sh.(committed := new_), AfterSweep(pc.job, new_))
      else
        Move(sh, pc.(sweep := LoadTail(tries + 1, first)))
  }

  function AfterLoads(p: Purpose, u: nat, entry: Entry, valid: bool): Pc {
    match p
    case ForRead(h, index) => if valid then CountRead(h, index, entry) else CountMismatch(h, index)
    case ForScan(h, limit, n) => if valid then Scan(h, limit, u + 1, n) else Mark(h, limit, u, n)
  }

  function StepRead(e: Env, sh: Shared, pc: Pc): Move
    requires SharedOk(e, sh) && PcOk(e, pc)
    requires pc.LoadState? || pc.Load? || pc.CountRead? || pc.CountMismatch?
  {
    match pc
    case LoadState(h, index) =>
      Move(sh, if StateByte(e, sh, index - 1) == STATE_COMMITTED
               then Load(ForRead(h, index), index - 1, Term, Fields(0, 0, 0, 0, 0))
               else Done(ReadNone(index)))
    case Load(p, u, field, got) =>
      var r := Rec(e.g, sh.mem.vol, u);
      (match field
       case Term => Move(sh, Load(p, u, Index, got.(term := Word(e.g, r, REC_TERM))))
       case Index => Move(sh, Load(p, u, if p.ForRead? then Writer else Len, got.(index := Word(e.g, r, REC_INDEX))))
       case Writer => Move(sh, Load(p, u, Len, got.(writer := Word(e.g, r, REC_WRITER_ID))))
       case Len => Move(sh, Load(p, u, Crc, got.(len := LenOf(e.g, r))))
       case Crc => Move(sh, Load(p, u, Payload, got.(crc := Word(e.g, r, REC_CHECKSUM))))
       case Payload =>
         var data := PayloadOf(e.g, r, got.len);
         Move(sh, AfterLoads(p, u, Entry(got.index, got.term, got.writer, data),
                             e.crc(got.term, got.index, data) == got.crc)))
    case CountRead(h, index, entry) => Move(Count(sh, h, READS_TOTAL, 1), Done(ReadSome(index, entry)))
    case CountMismatch(h, index) => Move(Count(sh, h, CHECKSUM_FAILURES, 1), Done(ChecksumMismatch(index)))
  }

  function StepRecover(e: Env, sh: Shared, pc: Pc): Move
    requires SharedOk(e, sh) && PcOk(e, pc)
    requires pc.Scan? || pc.Mark? || pc.MarkFlush? || pc.CountRun? || pc.CountFound?
  {
    match pc
    case Scan(h, limit, u, n) =>
      if u == limit then Move(sh, Sweeping(ForRecover(h, limit, n), LoadTail(0, 0)))
      else
        var x := StateByte(e, sh, u);
        Move(sh, if x == STATE_WRITING then Mark(h, limit, u, n)
                 else if x == STATE_COMMITTED then Load(ForScan(h, limit, n), u, Term, Fields(0, 0, 0, 0, 0))
                 else if x == STATE_FREE || x == STATE_ABANDONED then Scan(h, limit, u + 1, n)
                 else Mark(h, limit, u, n))
    case Mark(h, limit, u, n) =>
      Move(StoreState(e, sh, u, STATE_ABANDONED), MarkFlush(h, limit, u, n, 0))
    case MarkFlush(h, limit, u, n, j) =>
      Move(FlushLine(e, sh, u, j),
           if j + 1 < NumLines(e.g.RecordOffset(u), CACHELINE) then MarkFlush(h, limit, u, n, j + 1)
           else Scan(h, limit, u + 1, n + 1))
    case CountRun(h, r) =>
      Move(Count(sh, h, RECOVERY_RUNS, 1), if r.abandoned > 0 then CountFound(h, r) else Done(r))
    case CountFound(h, r) =>
      Move(Count(sh, h, ABANDONED_FOUND, r.abandoned), Done(r))
  }

  function StepTrim(e: Env, sh: Shared, pc: Pc): Move
    requires SharedOk(e, sh) && PcOk(e, pc)
    requires pc.TrimScan? || pc.TrimMark? || pc.TrimFlush?
  {
    match pc
    case TrimScan(upTo, u, n) =>
      Move(sh, if u == upTo then Done(Trimmed(upTo, n))
               else if StateByte(e, sh, u) == STATE_COMMITTED then TrimMark(upTo, u, n)
               else TrimScan(upTo, u + 1, n))
    case TrimMark(upTo, u, n) =>
      Move(StoreState(e, sh, u, STATE_ABANDONED), TrimFlush(upTo, u, n, 0))
    case TrimFlush(upTo, u, n, j) =>
      Move(FlushLine(e, sh, u, j),
           if j + 1 < NumLines(e.g.RecordOffset(u), CACHELINE) then TrimFlush(upTo, u, n, j + 1)
           else TrimScan(upTo, u + 1, n + 1))
  }

  /** The first backend call of each operation. */
  function StepStart(e: Env, sh: Shared, t: Tid, call: Call): Move
    requires SharedOk(e, sh) && CallOk(e.g, call)
  {
    match call
    case AppendCall(a) =>
      if |a.data| > e.g.payloadSize then Move(sh, Done(PayloadTooLarge(e.g.payloadSize, |a.data|)))
      else
        var slot := sh.reserve;
        var sh' := sh.(reserve := WrapAdd(sh.reserve, 1));
        if slot >= e.g.capacity then Move(sh'.(overflows := sh.overflows + 1), Undo(a, slot))
        else Move(sh'.(grants := sh.grants + [Grant(t, a)]), Body(slot, a, 0))
    case ReadCall(h, index) =>
      Move(sh, if index == 0 || index > sh.committed then Done(OutOfBounds(index, sh.committed)) else LoadState(h,
          index))
    case TrimCall(upTo) =>
      if upTo > sh.committed then Move(sh, Done(TrimBeyondCommitted(upTo, sh.committed)))
      else Move(sh.(horizon := Max(sh.horizon, upTo)), TrimScan(upTo, 0, 0))
    case RecoverCall(h) =>
      Move(sh, Scan(h, Min(sh.reserve, e.g.capacity), 0, 0))
  }

  function StepPc(e: Env, sh: Shared, t: Tid, pc: Pc): Move
    requires SharedOk(e, sh) && PcOk(e, pc) && !pc.Done?
  {
    match pc
    case Start(call) => StepStart(e, sh, t, call)
    case Undo(_, _) => StepAppend(e, sh, t, pc)
    case FailMetric(_, _) => StepAppend(e, sh, t, pc)
    case Body(_, _, _) => StepAppend(e, sh, t, pc)
    case FlushRecord(_, _, _) => StepAppend(e, sh, t, pc)
    case Commit(_, _) => StepAppend(e, sh, t, pc)
    case FlushState(_, _, _) => StepAppend(e, sh, t, pc)
    case CountAppend(_, _) => StepAppend(e, sh, t, pc)
    case CountBytes(_, _) => StepAppend(e, sh, t, pc)
    case Sweeping(_, _) => StepSweep(e, sh, pc)
    case LoadState(_, _) => StepRead(e, sh, pc)
    case Load(_, _, _, _) => StepRead(e, sh, pc)
    case CountRead(_, _, _) => StepRead(e, sh, pc)
    case CountMismatch(_, _) => StepRead(e, sh, pc)
    case Scan(_, _, _, _) => StepRecover(e, sh, pc)
    case Mark(_, _, _, _) => StepRecover(e, sh, pc)
    case MarkFlush(_, _, _, _, _) => StepRecover(e, sh, pc)
    case CountRun(_, _) => StepRecover(e, sh, pc)
    case CountFound(_, _) => StepRecover(e, sh, pc)
    case TrimScan(_, _, _) => StepTrim(e, sh, pc)
    case TrimMark(_, _, _) => StepTrim(e, sh, pc)
    case TrimFlush(_, _, _, _) => StepTrim(e, sh, pc)
  }

  // ---- Runs ----

  /** Invoke and Return bound an operation; Step is one backend call of thread t; Evict writes a line back
      at any time; Kill stops a thread for good; Crash is a power failure: every thread dies and the volatile
      view is what was durable. Header words and metrics are taken to live at the media. */
  datatype Action = Invoke(t: Tid, call: Call) | Step(t: Tid) | Return(t: Tid) | Evict(line: nat) | Kill(t: Tid) | Crash

  function Those(threads: map<Tid, Pc>, p: Pc -> bool): set<Tid> {
    set t | t in threads && p(threads[t])
  }

  function CountPc(threads: map<Tid, Pc>, p: Pc -> bool): nat {
    |Those(threads, p)|
  }

  function Owes(pc: Pc): bool { pc.Undo? }

  ghost predicate Enabled(e: Env, s: State, a: Action) {
    && SharedOk(e, s.sh)
    && match a
       case Invoke(t, call) => t !in s.threads && CallOk(e.g, call)
       case Step(t) => t in s.threads && !s.threads[t].Done? && PcOk(e, s.threads[t])
       case Return(t) => t in s.threads && s.threads[t].Done?
       case Evict(_) => true
       case Kill(t) => t in s.threads
       case Crash => true
  }

  ghost function Do(e: Env, s: State, a: Action): State
    requires Enabled(e, s, a)
  {
    match a
    case Invoke(t, call) => s.(threads := s.threads[t := Start(call)])
    case Step(t) =>
      var m := StepPc(e, s.sh, t, s.threads[t]);
      State(m.sh, s.threads[t := m.pc])
    case Return(t) => s.(threads := s.threads - {t})
    case Evict(line) => s.(sh := s.sh.(mem := Apply(s.sh.mem, WriteBack(line))))
    case Kill(t) =>
      State(s.sh.(leaked := s.sh.leaked + if Owes(s.threads[t]) then 1 else 0), s.threads - {t})
    case Crash =>
      State(s.sh.(mem := Mem(s.sh.mem.dur, s.sh.mem.dur), leaked := s.sh.leaked + CountPc(s.threads, Owes)), map[])
  }

  /** reserve_tail never reaches its last value: no fetch_add wraps. */
  predicate NoWrapAhead(s: State) { s.sh.reserve < U64_MAX }

  /** as leads from s, every state on the way satisfying `ok`. */
  ghost predicate RunFrom(e: Env, s: State, as_: seq<Action>, ok: (State, Action) -> bool)
    decreases |as_|
  {
    as_ != [] ==> Enabled(e, s, as_[0]) && ok(s, as_[0]) && RunFrom(e, Do(e, s, as_[0]), as_[1..], ok)
  }

  ghost function After(e: Env, s: State, as_: seq<Action>, ok: (State, Action) -> bool): State
    requires RunFrom(e, s, as_, ok)
    decreases |as_|
  {
    if as_ == [] then s else After(e, Do(e, s, as_[0]), as_[1..], ok)
  }

  /** A created pool: zero-filled records, both tails at 0. */
  function Fresh(e: Env): State
    requires e.g.Ok()
  {
    var zeros := seq(e.g.totalSize, _ => 0);
    State(Shared(Mem(zeros, zeros), 0, 0, seq(e.g.maxHosts, _ => seq(METRICS_FIELDS, _ => 0)),
                 [], {}, {}, {}, {}, {}, 0, 0, 0),
          map[])
  }
}
