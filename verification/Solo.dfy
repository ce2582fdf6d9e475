/** What each operation of the state machine does when it runs undisturbed, from any pool contents: the same as the
    operation on the byte array. */
module Solo {
  import opened Bytes
  import opened Layout
  import opened Media
  import opened Records
  import opened RecoverySpec
  import opened Recovery
  import opened Compaction
  import opened LogImage
  import opened Protocol
  import opened ProtocolSteps
  import opened StepEffects
  import opened StepPrograms

  // ---- A thread that runs alone ----

  /** Where n steps of thread t take it and the pool, if it does not finish before. */
  ghost function Walk(e: Env, sh: Shared, t: Tid, pc: Pc, n: nat): Option<Move>
    decreases n
  {
    if n == 0 then Some(Move(sh, pc))
    else if SharedOk(e, sh) && PcOk(e, pc) && !pc.Done? then
      var m := StepPc(e, sh, t, pc);
      Walk(e, m.sh, t, m.pc, n - 1)
    else None
  }

  ghost predicate Goes(e: Env, sh: Shared, t: Tid, pc: Pc, to: Move) {
    exists n: nat :: Walk(e, sh, t, pc, n) == Some(to)
  }

  lemma GoesNow(e: Env, sh: Shared, t: Tid, pc: Pc)
    ensures Goes(e, sh, t, pc, Move(sh, pc))
  {
    assert Walk(e, sh, t, pc, 0) == Some(Move(sh, pc));
  }

  lemma GoesAfterStep(e: Env, sh: Shared, t: Tid, pc: Pc, to: Move)
    requires SharedOk(e, sh) && PcOk(e, pc) && !pc.Done?
    requires var m := StepPc(e, sh, t, pc); Goes(e, m.sh, t, m.pc, to)
    ensures Goes(e, sh, t, pc, to)
  {
    hide StepPc, SharedOk;
    var m := StepPc(e, sh, t, pc);
    var n: nat :| Walk(e, m.sh, t, m.pc, n) == Some(to);
    assert Walk(e, sh, t, pc, n + 1) == Some(to);
  }

  /** One step that finishes. */
  lemma GoesInOne(e: Env, sh: Shared, t: Tid, pc: Pc)
    requires SharedOk(e, sh) && PcOk(e, pc) && !pc.Done?
    ensures Goes(e, sh, t, pc, StepPc(e, sh, t, pc))
  {
    hide StepPc, SharedOk;
    var m := StepPc(e, sh, t, pc);
    GoesNow(e, m.sh, t, m.pc);
    GoesAfterStep(e, sh, t, pc, m);
  }

  lemma {:induction false} WalkOn(e: Env, sh: Shared, t: Tid, pc: Pc, n: nat, k: nat)
    requires Walk(e, sh, t, pc, n).Some?
    ensures var m := Walk(e, sh, t, pc, n).value; Walk(e, sh, t, pc, n + k) == Walk(e, m.sh, t, m.pc, k)
    decreases n
  {
    hide StepPc, SharedOk;
    if n > 0 {
      var m := StepPc(e, sh, t, pc);
      WalkOn(e, m.sh, t, m.pc, n - 1, k);
    }
  }

  lemma GoesOn(e: Env, sh: Shared, t: Tid, pc: Pc, via: Move, to: Move)
    requires Goes(e, sh, t, pc, via) && Goes(e, via.sh, t, via.pc, to)
    ensures Goes(e, sh, t, pc, to)
  {
    var n: nat :| Walk(e, sh, t, pc, n) == Some(via);
    var k: nat :| Walk(e, via.sh, t, via.pc, k) == Some(to);
    WalkOn(e, sh, t, pc, n, k);
  }

  /** A thread alone has one outcome. */
  lemma OneOutcome(e: Env, sh: Shared, t: Tid, pc: Pc, a: Move, b: Move)
    requires Goes(e, sh, t, pc, a) && Goes(e, sh, t, pc, b) && a.pc.Done? && b.pc.Done?
    ensures a == b
  {
    hide StepPc, SharedOk;
    var n: nat :| Walk(e, sh, t, pc, n) == Some(a);
    var k: nat :| Walk(e, sh, t, pc, k) == Some(b);
    if n <= k {
      WalkOn(e, sh, t, pc, n, k - n);
    } else {
      WalkOn(e, sh, t, pc, k, n - k);
    }
  }

  /** The reservation counter has room for what the thread may still add to it. */
  predicate Roomy(sh: Shared, pc: Pc) {
    if pc.Start? then sh.reserve + 1 < U64_MAX else sh.reserve < U64_MAX && (pc.Undo? ==> sh.reserve > 0)
  }

  lemma RoomyStep(e: Env, sh: Shared, t: Tid, pc: Pc)
    requires SharedOk(e, sh) && PcOk(e, pc) && !pc.Done? && Roomy(sh, pc)
    ensures var m := StepPc(e, sh, t, pc); Roomy(m.sh, m.pc)
  {
    hide SharedOk, StepPc;
    NeverRestarts(e, sh, t, pc);
    if pc.Start? || pc.Undo? {
      RoomyReserve(e, sh, t, pc);
    } else {
      ReserveEffect(e, sh, t, pc);
    }
  }

  lemma NeverRestarts(e: Env, sh: Shared, t: Tid, pc: Pc)
    requires SharedOk(e, sh) && PcOk(e, pc) && !pc.Done?
    ensures !StepPc(e, sh, t, pc).pc.Start?
  {
    hide SharedOk, Rec, BodyOps, StateByte, Word, LenOf, PayloadOf;
  }

  lemma RoomyReserve(e: Env, sh: Shared, t: Tid, pc: Pc)
    requires SharedOk(e, sh) && PcOk(e, pc) && (pc.Start? || pc.Undo?) && Roomy(sh, pc)
    ensures var m := StepPc(e, sh, t, pc); m.sh.reserve < U64_MAX && (m.pc.Undo? ==> m.sh.reserve > 0)
  {
    hide SharedOk, BodyOps;
    WrapCases(sh.reserve, U64_MAX);
    WrapCases(sh.reserve, 1);
  }

  /** It is a run of the state machine in which only t steps, and the other threads stay where they are. */
  lemma {:induction false} WalkIsRun(e: Env, s: State, t: Tid, n: nat) returns (as_: seq<Action>)
    requires t in s.threads && Walk(e, s.sh, t, s.threads[t], n).Some? && Roomy(s.sh, s.threads[t])
    ensures RunFrom(e, s, as_, AnyRun) && forall a | a in as_ :: a == Step(t)
    ensures var m := Walk(e, s.sh, t, s.threads[t], n).value;
            After(e, s, as_, AnyRun) == State(m.sh, s.threads[t := m.pc]) && Roomy(m.sh, m.pc)
    decreases n
  {
    hide StepPc, SharedOk;
    if n == 0 {
      as_ := [];
      assert s == State(s.sh, s.threads[t := s.threads[t]]);
    } else {
      RoomyStep(e, s.sh, t, s.threads[t]);
      var rest := WalkIsRun(e, Do(e, s, Step(t)), t, n - 1);
      as_ := [Step(t)] + rest;
      assert as_[1..] == rest;
    }
  }

  lemma GoesIsRun(e: Env, s: State, t: Tid, to: Move) returns (as_: seq<Action>)
    requires t in s.threads && Goes(e, s.sh, t, s.threads[t], to) && Roomy(s.sh, s.threads[t])
    ensures RunFrom(e, s, as_, AnyRun) && forall a | a in as_ :: a == Step(t)
    ensures After(e, s, as_, AnyRun) == State(to.sh, s.threads[t := to.pc])
  {
    var n: nat :| Walk(e, s.sh, t, s.threads[t], n) == Some(to);
    as_ := WalkIsRun(e, s, t, n);
  }

  // ---- read ----

  /** read: out of range exactly for index 0 and indices beyond committed_tail; missing exactly if the slot's state byte
      is not COMMITTED; else the record if its checksum is that of its fields, a mismatch otherwise. Only the last two
      touch anything: one counter of the reader's host. */
  lemma ReadAlone(e: Env, sh: Shared, t: Tid, h: nat, index: u64)
    requires SharedOk(e, sh) && sh.committed <= e.g.capacity && h < e.g.maxHosts
    ensures index == 0 || index > sh.committed ==>
              Goes(e, sh, t, Start(ReadCall(h, index)), Move(sh, Done(OutOfBounds(index, sh.committed))))
    ensures 1 <= index <= sh.committed ==>
              var r := Rec(e.g, sh.mem.vol, index - 1);
              Goes(e, sh, t, Start(ReadCall(h, index)),
                   if r[REC_STATE] != STATE_COMMITTED then Move(sh, Done(ReadNone(index)))
                   else if Intact(e, r) then Move(Count(sh, h, READS_TOTAL, 1), Done(ReadSome(index, Decode(e.g, r))))
                   else Move(Count(sh, h, CHECKSUM_FAILURES, 1), Done(ChecksumMismatch(index))))
  {
    hide Rec, Word, LenOf, PayloadOf;
    var pc := Start(ReadCall(h, index));
    if index == 0 || index > sh.committed {
      GoesInOne(e, sh, t, pc);
    } else {
      var at := LoadState(h, index);
      if StateByte(e, sh, index - 1) != STATE_COMMITTED {
        GoesInOne(e, sh, t, at);
      } else {
        LoadsAlone(e, sh, t, h, index);
        var next := StepPc(e, sh, t, at).pc;
        GoesAfterStep(e, sh, t, at, LoadedMove(e, sh, h, index));
      }
      GoesAfterStep(e, sh, t, pc, if StateByte(e, sh, index - 1) != STATE_COMMITTED then Move(sh, Done(ReadNone(index)))
                                  else LoadedMove(e, sh, h, index));
    }
  }

  ghost function LoadedMove(e: Env, sh: Shared, h: nat, index: nat): Move
    requires SharedOk(e, sh) && h < e.g.maxHosts && 1 <= index <= e.g.capacity
  {
    var r := Rec(e.g, sh.mem.vol, index - 1);
    if Intact(e, r) then Move(Count(sh, h, READS_TOTAL, 1), Done(ReadSome(index, Decode(e.g, r))))
    else Move(Count(sh, h, CHECKSUM_FAILURES, 1), Done(ChecksumMismatch(index)))
  }

  /** A load of one field, and what it adds to the fields known. */
  lemma LoadStep(e: Env, sh: Shared, t: Tid, h: nat, index: nat, field: Field, got: Fields)
    requires SharedOk(e, sh) && h < e.g.maxHosts && 1 <= index <= e.g.capacity
    ensures var pc := Load(ForRead(h, index), index - 1, field, got);
            var r := Rec(e.g, sh.mem.vol, index - 1);
            && PcOk(e, pc)
            && StepPc(e, sh, t, pc) == Move(sh,
                 match field
                 case Term => Load(pc.purpose, pc.slot, Index, got.(term := Word(e.g, r, REC_TERM)))
                 case Index => Load(pc.purpose, pc.slot, Writer, got.(index := Word(e.g, r, REC_INDEX)))
                 case Writer => Load(pc.purpose, pc.slot, Len, got.(writer := Word(e.g, r, REC_WRITER_ID)))
                 case Len => Load(pc.purpose, pc.slot, Crc, got.(len := LenOf(e.g, r)))
                 case Crc => Load(pc.purpose, pc.slot, Payload, got.(crc := Word(e.g, r, REC_CHECKSUM)))
                 case Payload =>
                   var data := PayloadOf(e.g, r, got.len);
                   if e.crc(got.term, got.index, data) == got.crc
                   then CountRead(h, index, Entry(got.index, got.term, got.writer, data))
                   else CountMismatch(h, index))
  {
    hide Rec, Word, LenOf, PayloadOf, SharedOk;
  }

  /** The six loads of a COMMITTED record, its checksum test and the counter. */
  lemma LoadsAlone(e: Env, sh: Shared, t: Tid, h: nat, index: nat)
    requires SharedOk(e, sh) && h < e.g.maxHosts && 1 <= index <= e.g.capacity
    ensures Goes(e, sh, t, Load(ForRead(h, index), index - 1, Term, Fields(0, 0, 0, 0, 0)), LoadedMove(e, sh, h, index))
  {
    hide Rec, Word, LenOf, PayloadOf, StepPc, PcOk, LoadedMove, Goes;
    var p, u := ForRead(h, index), index - 1;
    var r := Rec(e.g, sh.mem.vol, u);
    var f0 := Fields(0, 0, 0, 0, 0);
    var f1 := f0.(term := Word(e.g, r, REC_TERM));
    var f2 := f1.(index := Word(e.g, r, REC_INDEX));
    var f3 := f2.(writer := Word(e.g, r, REC_WRITER_ID));
    var f4 := f3.(len := LenOf(e.g, r));
    var f5 := f4.(crc := Word(e.g, r, REC_CHECKSUM));
    var to := LoadedMove(e, sh, h, index);
    VerifiedMove(e, sh, t, h, index, f5);
    LoadStep(e, sh, t, h, index, Crc, f4);
    GoesAfterStep(e, sh, t, Load(p, u, Crc, f4), to);
    LoadStep(e, sh, t, h, index, Len, f3);
    GoesAfterStep(e, sh, t, Load(p, u, Len, f3), to);
    LoadStep(e, sh, t, h, index, Writer, f2);
    GoesAfterStep(e, sh, t, Load(p, u, Writer, f2), to);
    LoadStep(e, sh, t, h, index, Index, f1);
    GoesAfterStep(e, sh, t, Load(p, u, Index, f1), to);
    LoadStep(e, sh, t, h, index, Term, f0);
    GoesAfterStep(e, sh, t, Load(p, u, Term, f0), to);
  }

  /** The last load, with all fields known. */
  lemma VerifiedMove(e: Env, sh: Shared, t: Tid, h: nat, index: nat, got: Fields)
    requires SharedOk(e, sh) && h < e.g.maxHosts && 1 <= index <= e.g.capacity
    requires var r := Rec(e.g, sh.mem.vol, index - 1);
             got == Fields(Word(e.g, r, REC_TERM), Word(e.g, r, REC_INDEX), Word(e.g, r, REC_WRITER_ID), LenOf(e.g, r),
                           Word(e.g, r, REC_CHECKSUM))
    ensures Goes(e, sh, t, Load(ForRead(h, index), index - 1, Payload, got), LoadedMove(e, sh, h, index))
  {
    hide Rec, Word, LenOf, PayloadOf, Goes;
    var r := Rec(e.g, sh.mem.vol, index - 1);
    LoadStep(e, sh, t, h, index, Payload, got);
    var pc := Load(ForRead(h, index), index - 1, Payload, got);
    var last := StepPc(e, sh, t, pc).pc;
    assert last == if Intact(e, r) then CountRead(h, index, Decode(e.g, r)) else CountMismatch(h, index);
    GoesInOne(e, sh, t, last);
    GoesAfterStep(e, sh, t, pc, LoadedMove(e, sh, h, index));
  }

  // ---- Abandoning a slot ----

  lemma AbandonFrame(e: Env, sh: Shared, t: Tid, pc: Pc)
    requires SharedOk(e, sh) && PcOk(e, pc) && AbandonAt(pc).Some?
    ensures var m := StepPc(e, sh, t, pc); m.sh == sh.(mem := m.sh.mem)
  {
    hide Apply, NumLines;
  }

  lemma NextOk(e: Env, sh: Shared, t: Tid, pc: Pc)
    requires SharedOk(e, sh) && PcOk(e, pc) && AbandonAt(pc).Some?
    ensures SharedOk(e, StepPc(e, sh, t, pc).sh) && PcOk(e, StepPc(e, sh, t, pc).pc)
  {
    hide Rec;
    StepEffect(e, sh, t, pc, 0);
    SomeLines(e.g.RecordOffset(AbandonAt(pc).value.0));
  }

  /** Where recover and trim go on after slot u. */
  function PastSlot(pc: Pc): Pc
    requires AbandonAt(pc).Some?
  {
    match pc
    case Mark(h, limit, u, n) => Scan(h, limit, u + 1, n + 1)
    case MarkFlush(h, limit, u, n, _) => Scan(h, limit, u + 1, n + 1)
    case TrimMark(upTo, u, n) => TrimScan(upTo, u + 1, n + 1)
    case TrimFlush(upTo, u, n, _) => TrimScan(upTo, u + 1, n + 1)
  }

  lemma SamePast(e: Env, sh: Shared, t: Tid, pc: Pc)
    requires SharedOk(e, sh) && PcOk(e, pc) && AbandonAt(pc).Some?
    ensures var next := StepPc(e, sh, t, pc).pc;
            if AbandonAt(next).Some? then PastSlot(next) == PastSlot(pc) else next == PastSlot(pc)
  {
    hide Apply, NumLines;
  }

  /** From the j-th operation of the program on. */
  lemma {:induction false} AbandonRest(e: Env, start: Mem, sh: Shared, t: Tid, pc: Pc)
    requires SharedOk(e, sh) && PcOk(e, pc) && AbandonAt(pc).Some? && PoolSized(e, start)
    requires var (u, j) := AbandonAt(pc).value;
             AllFit(AbandonOps(e, u), e.g.totalSize) && j < |AbandonOps(e, u)|
             && sh.mem == ApplyAll(start, AbandonOps(e, u)[..j])
    ensures var u := AbandonAt(pc).value.0;
            Goes(e, sh, t, pc, Move(sh.(mem := ApplyAll(start, AbandonOps(e, u))), PastSlot(pc)))
    decreases |AbandonOps(e, AbandonAt(pc).value.0)| - AbandonAt(pc).value.1
  {
    hide Apply, NumLines, AbandonOps, StepPc, SharedOk;
    var (u, j) := AbandonAt(pc).value;
    var ops := AbandonOps(e, u);
    AbandonStepIsProgramOp(e, sh, t, pc);
    AbandonFrame(e, sh, t, pc);
    NextOk(e, sh, t, pc);
    SamePast(e, sh, t, pc);
    var m := StepPc(e, sh, t, pc);
    assert ops[..j + 1] == ops[..j] + [ops[j]];
    ApplyAllAppend(start, ops[..j], [ops[j]]);
    assert ApplyAll(sh.mem, [ops[j]]) == Apply(sh.mem, ops[j]);
    assert m.sh.mem == ApplyAll(start, ops[..j + 1]);
    if j + 1 < |ops| {
      AbandonRest(e, start, m.sh, t, m.pc);
    } else {
      assert ops[..j + 1] == ops;
      GoesNow(e, m.sh, t, m.pc);
    }
    GoesAfterStep(e, sh, t, pc, Move(sh.(mem := ApplyAll(start, ops)), PastSlot(pc)));
  }

  lemma AbandonAlone(e: Env, sh: Shared, t: Tid, pc: Pc)
    requires SharedOk(e, sh) && PcOk(e, pc) && (pc.Mark? || pc.TrimMark?)
    ensures Goes(e, sh, t, pc, Move(sh.(mem := Abandon(e, sh.mem, pc.slot)), PastSlot(pc)))
  {
    hide Abandon, StepPc;
    AbandonIsProgram(e, sh.mem, pc.slot);
    assert AbandonOps(e, pc.slot)[..0] == [];
    assert ApplyAll(sh.mem, []) == sh.mem;
    AbandonRest(e, sh.mem, sh, t, pc);
  }

  // ---- trim ----

  /** One look of trim at a slot. */
  lemma TrimLook(e: Env, sh: Shared, t: Tid, upTo: nat, u: nat, n: nat)
    requires SharedOk(e, sh) && n <= u <= upTo <= e.g.capacity
    ensures PcOk(e, TrimScan(upTo, u, n))
    ensures StepPc(e, sh, t, TrimScan(upTo, u, n))
         == Move(sh, if u == upTo then Done(Trimmed(upTo, n))
                     else if StateOf(e.g, sh.mem.vol, u) == STATE_COMMITTED then TrimMark(upTo, u, n)
                     else TrimScan(upTo, u + 1, n))
  {
    hide SharedOk, StateOf;
  }

  lemma TrimMemStep(e: Env, m: Mem, u: nat)
    requires PoolSized(e, m) && u < e.g.capacity
    ensures var p := TrimMem(e, m, u);
            var hit := StateOf(e.g, p.vol, u) == STATE_COMMITTED;
            && TrimMem(e, m, u + 1) == (if hit then Abandon(e, p, u) else p)
            && CommittedCount(e, m.vol, u + 1) == CommittedCount(e, m.vol, u) + if hit then 1 else 0
  {
    hide Rec, Abandon, StateOf;
    StillCommitted(e, m, u);
  }

  lemma {:induction false} TrimFrom(e: Env, m: Mem, sh: Shared, t: Tid, upTo: nat, u: nat)
    requires SharedOk(e, sh) && PoolSized(e, m) && u <= upTo <= e.g.capacity && sh.mem == TrimMem(e, m, u)
    ensures Goes(e, sh, t, TrimScan(upTo, u, CommittedCount(e, m.vol, u)),
                 Move(sh.(mem := TrimMem(e, m, upTo)), Done(Trimmed(upTo, CommittedCount(e, m.vol, upTo)))))
    decreases upTo - u
  {
    hide Rec, Abandon, StateOf, StepPc, TrimMem, CommittedCount, Goes;
    var n := CommittedCount(e, m.vol, u);
    var pc := TrimScan(upTo, u, n);
    var to := Move(sh.(mem := TrimMem(e, m, upTo)), Done(Trimmed(upTo, CommittedCount(e, m.vol, upTo))));
    TrimLook(e, sh, t, upTo, u, n);
    if u == upTo {
      GoesInOne(e, sh, t, pc);
    } else {
      TrimMemStep(e, m, u);
      if StateOf(e.g, sh.mem.vol, u) == STATE_COMMITTED {
        AbandonAlone(e, sh, t, TrimMark(upTo, u, n));
        var next := sh.(mem := Abandon(e, sh.mem, u));
        TrimFrom(e, m, next, t, upTo, u + 1);
        GoesOn(e, sh, t, TrimMark(upTo, u, n), Move(next, TrimScan(upTo, u + 1, n + 1)), to);
      } else {
        TrimFrom(e, m, sh, t, upTo, u + 1);
      }
      GoesAfterStep(e, sh, t, pc, to);
    }
  }

  /** trim: refused exactly if the bound exceeds committed_tail, touching nothing; otherwise it leaves the pool as trim
      on the byte array does, and answers the number of slots below the bound that were COMMITTED. */
  lemma TrimAlone(e: Env, sh: Shared, t: Tid, upTo: u64)
    requires SharedOk(e, sh) && sh.committed <= e.g.capacity
    ensures upTo > sh.committed ==>
              Goes(e, sh, t, Start(TrimCall(upTo)), Move(sh, Done(Reply.TrimBeyondCommitted(upTo, sh.committed))))
    ensures upTo <= sh.committed ==>
              Goes(e, sh, t, Start(TrimCall(upTo)),
                   Move(sh.(mem := TrimMem(e, sh.mem, upTo), horizon := Max(sh.horizon, upTo)),
                        Done(Trimmed(upTo, CommittedCount(e, sh.mem.vol, upTo)))))
  {
    hide TrimMem, CommittedCount;
    var pc := Start(TrimCall(upTo));
    if upTo > sh.committed {
      GoesInOne(e, sh, t, pc);
    } else {
      var begun := sh.(horizon := Max(sh.horizon, upTo));
      NothingTrimmed(e, sh.mem);
      TrimFrom(e, sh.mem, begun, t, upTo, 0);
      GoesAfterStep(e, sh, t, pc, Move(begun.(mem := TrimMem(e, sh.mem, upTo)),
                                       Done(Trimmed(upTo, CommittedCount(e, sh.mem.vol, upTo)))));
    }
  }

  lemma NothingTrimmed(e: Env, m: Mem)
    requires PoolSized(e, m)
    ensures TrimMem(e, m, 0) == m && CommittedCount(e, m.vol, 0) == 0
  {
  }

  // ---- advance_committed_tail ----

  /** One look of a sweep at a slot. */
  lemma SweepLook(e: Env, sh: Shared, t: Tid, job: Job, w: Sweep)
    requires SharedOk(e, sh) && JobOk(e.g, job) && w.ScanFrom? && w.new_ <= e.g.capacity
    ensures PcOk(e, Sweeping(job, w))
    ensures StepPc(e, sh, t, Sweeping(job, w))
         == Move(sh, if w.new_ < e.g.capacity && StateOf(e.g, sh.mem.vol, w.new_) == STATE_COMMITTED
                     then Sweeping(job, ScanFrom(w.tries, w.first, w.cur, w.new_ + 1))
                     else if w.new_ == w.cur then AfterSweep(job, w.cur)
                     else Sweeping(job, SwapTail(w.tries, w.first, w.cur, w.new_)))
  {
    hide SharedOk, StateOf;
  }

  lemma EndStep(e: Env, v: seq<byte>, n: nat)
    requires e.g.Ok() && |v| == e.g.totalSize
    ensures TailEnd(e, v, 0, n)
         == if n < e.g.capacity && StateOf(e.g, v, n) == STATE_COMMITTED then TailEnd(e, v, 0, n + 1) else n
  {
    hide StateOf;
  }

  lemma {:induction false} ScanAlone(e: Env, sh: Shared, t: Tid, job: Job, cur: nat, new_: nat)
    requires SharedOk(e, sh) && JobOk(e.g, job) && sh.committed == cur <= new_ <= e.g.capacity
    ensures var end := TailEnd(e, sh.mem.vol, 0, new_);
            Goes(e, sh, t, Sweeping(job, ScanFrom(0, cur, cur, new_)),
                 Move(sh.(committed := end), AfterSweep(job, end)))
    decreases e.g.capacity - new_
  {
    hide StateOf, TailEnd, Goes, SharedOk;
    Sizes(e, sh);
    var pc := Sweeping(job, ScanFrom(0, cur, cur, new_));
    var end := TailEnd(e, sh.mem.vol, 0, new_);
    var to := Move(sh.(committed := end), AfterSweep(job, end));
    SweepLook(e, sh, t, job, pc.sweep);
    EndStep(e, sh.mem.vol, new_);
    if new_ < e.g.capacity && StateOf(e.g, sh.mem.vol, new_) == STATE_COMMITTED {
      ScanAlone(e, sh, t, job, cur, new_ + 1);
    } else if new_ == cur {
      GoesNow(e, sh, t, AfterSweep(job, cur));
      assert to == Move(sh, AfterSweep(job, cur));
    } else {
      SwapAlone(e, sh, t, job, cur, new_);
    }
    GoesAfterStep(e, sh, t, pc, to);
  }

  lemma Sizes(e: Env, sh: Shared)
    requires SharedOk(e, sh)
    ensures e.g.Ok() && |sh.mem.vol| == e.g.totalSize
  {
  }

  lemma SwapAlone(e: Env, sh: Shared, t: Tid, job: Job, cur: nat, new_: nat)
    requires SharedOk(e, sh) && JobOk(e.g, job) && sh.committed == cur
    ensures Goes(e, sh, t, Sweeping(job, SwapTail(0, cur, cur, new_)),
                 Move(sh.(committed := new_), AfterSweep(job, new_)))
  {
    hide SharedOk, Goes;
    GoesInOne(e, sh, t, Sweeping(job, SwapTail(0, cur, cur, new_)));
  }

  /** The sweep moves the tail to the end of the COMMITTED run from it, in one attempt. */
  lemma SweepAlone(e: Env, sh: Shared, t: Tid, job: Job)
    requires SharedOk(e, sh) && JobOk(e.g, job) && sh.committed <= e.g.capacity
    ensures var end := TailEnd(e, sh.mem.vol, 0, sh.committed);
            Goes(e, sh, t, Sweeping(job, LoadTail(0, 0)), Move(sh.(committed := end), AfterSweep(job, end)))
  {
    hide TailEnd, Goes, SharedOk;
    Sizes(e, sh);
    var end := TailEnd(e, sh.mem.vol, 0, sh.committed);
    ScanAlone(e, sh, t, job, sh.committed, sh.committed);
    GoesAfterStep(e, sh, t, Sweeping(job, LoadTail(0, 0)), Move(sh.(committed := end), AfterSweep(job, end)));
  }

  // ---- recover ----

  lemma {:induction false} LoadsGo(e: Env, sh: Shared, t: Tid, pc: Pc, k: nat)
    requires SharedOk(e, sh) && PcOk(e, pc)
    ensures Goes(e, sh, t, pc, Move(sh, Loads(e, sh, pc, k)))
    decreases k
  {
    hide Rec, Word, LenOf, PayloadOf, SharedOk, Goes;
    if k == 0 || !pc.Load? {
      GoesNow(e, sh, t, pc);
    } else {
      LoadKeepsOk(e, sh, pc);
      LoadStays(e, sh, pc);
      LoadsGo(e, sh, t, StepRead(e, sh, pc).pc, k - 1);
      GoesAfterStep(e, sh, t, pc, Move(sh, Loads(e, sh, pc, k)));
    }
  }

  lemma LoadStays(e: Env, sh: Shared, pc: Pc)
    requires SharedOk(e, sh) && PcOk(e, pc) && pc.Load?
    ensures StepRead(e, sh, pc).sh == sh
  {
    hide Rec, Word, LenOf, PayloadOf, SharedOk;
  }

  lemma ScanMemStep(e: Env, m: Mem, u: nat)
    requires PoolSized(e, m) && u < e.g.capacity
    ensures var p := ScanMem(e, m, u);
            var hit := Broken(e, Rec(e.g, p.vol, u));
            && ScanMem(e, m, u + 1) == (if hit then Abandon(e, p, u) else p)
            && BrokenCount(e, m.vol, u + 1) == BrokenCount(e, m.vol, u) + if hit then 1 else 0
  {
    hide Rec, Abandon, Broken;
    BrokenUnchanged(e, m, u);
  }

  /** recover's look at one slot. */
  lemma LookAlone(e: Env, sh: Shared, t: Tid, h: nat, limit: nat, u: nat, n: nat)
    requires SharedOk(e, sh) && PcOk(e, Scan(h, limit, u, n)) && u < limit
    ensures Goes(e, sh, t, Scan(h, limit, u, n),
                 Move(sh, if Broken(e, Rec(e.g, sh.mem.vol, u)) then Mark(h, limit, u, n)
                          else Scan(h, limit, u + 1, n)))
  {
    hide Rec, Broken, Goes, Loads, StateByte;
    ScanDecides(e, sh, h, limit, u, n);
    var next := StepRecover(e, sh, Scan(h, limit, u, n)).pc;
    LoadsGo(e, sh, t, next, 5);
    GoesAfterStep(e, sh, t, Scan(h, limit, u, n), Move(sh, Loads(e, sh, next, 5)));
  }

  lemma {:induction false} RecoverFrom(e: Env, m: Mem, sh: Shared, t: Tid, h: nat, limit: nat, u: nat)
    requires SharedOk(e, sh) && PoolSized(e, m) && h < e.g.maxHosts && u <= limit <= e.g.capacity
    requires sh.mem == ScanMem(e, m, u)
    ensures Goes(e, sh, t, Scan(h, limit, u, BrokenCount(e, m.vol, u)),
                 Move(sh.(mem := ScanMem(e, m, limit)),
                      Sweeping(ForRecover(h, limit, BrokenCount(e, m.vol, limit)), LoadTail(0, 0))))
    decreases limit - u
  {
    hide Rec, Abandon, Broken, StepPc, ScanMem, BrokenCount, Goes;
    var n := BrokenCount(e, m.vol, u);
    var pc := Scan(h, limit, u, n);
    var to := Move(sh.(mem := ScanMem(e, m, limit)),
                   Sweeping(ForRecover(h, limit, BrokenCount(e, m.vol, limit)), LoadTail(0, 0)));
    if u == limit {
      ScanEnds(e, sh, t, h, limit, n);
      GoesInOne(e, sh, t, pc);
    } else {
      ScanMemStep(e, m, u);
      LookAlone(e, sh, t, h, limit, u, n);
      if Broken(e, Rec(e.g, sh.mem.vol, u)) {
        var mark := Mark(h, limit, u, n);
        AbandonAlone(e, sh, t, mark);
        var next := sh.(mem := Abandon(e, sh.mem, u));
        RecoverFrom(e, m, next, t, h, limit, u + 1);
        GoesOn(e, sh, t, mark, Move(next, Scan(h, limit, u + 1, n + 1)), to);
        GoesOn(e, sh, t, pc, Move(sh, mark), to);
      } else {
        RecoverFrom(e, m, sh, t, h, limit, u + 1);
        GoesOn(e, sh, t, pc, Move(sh, Scan(h, limit, u + 1, n)), to);
      }
    }
  }

  lemma ScanEnds(e: Env, sh: Shared, t: Tid, h: nat, limit: nat, n: nat)
    requires SharedOk(e, sh) && PcOk(e, Scan(h, limit, limit, n))
    ensures StepPc(e, sh, t, Scan(h, limit, limit, n)) == Move(sh, Sweeping(ForRecover(h, limit, n), LoadTail(0, 0)))
  {
    hide SharedOk;
  }

  /** The pool after recover's two counters. */
  function Recounted(sh: Shared, h: nat, n: nat): Shared
    requires h < |sh.metrics| && |sh.metrics[h]| == METRICS_FIELDS && n < U64_LIMIT
  {
    var counted := Count(sh, h, RECOVERY_RUNS, 1);
    if n > 0 then Count(counted, h, ABANDONED_FOUND, n) else counted
  }

  lemma CountsAlone(e: Env, sh: Shared, t: Tid, h: nat, r: Reply)
    requires SharedOk(e, sh) && h < e.g.maxHosts && r.Recovered? && r.abandoned <= e.g.capacity
    ensures Goes(e, sh, t, CountRun(h, r), Move(Recounted(sh, h, r.abandoned), Done(r)))
  {
    hide Goes;
    var next := StepPc(e, sh, t, CountRun(h, r));
    if r.abandoned > 0 {
      GoesInOne(e, next.sh, t, next.pc);
    } else {
      GoesNow(e, next.sh, t, next.pc);
    }
    GoesAfterStep(e, sh, t, CountRun(h, r), Move(Recounted(sh, h, r.abandoned), Done(r)));
  }

  /** recover: it leaves the pool as recover on the byte array does, and reports exactly the number of broken records it
      found, the tail it reached and the slots it scanned; one run is counted, and as many abandoned slots. */
  lemma RecoverAlone(e: Env, sh: Shared, t: Tid, h: nat)
    requires SharedOk(e, sh) && sh.committed <= e.g.capacity && h < e.g.maxHosts
    ensures var limit := Min(sh.reserve, e.g.capacity);
            var tail := TailEnd(e, sh.mem.vol, limit, sh.committed);
            var found := BrokenCount(e, sh.mem.vol, limit);
            Goes(e, sh, t, Start(RecoverCall(h)),
                 Move(Recounted(sh.(mem := ScanMem(e, sh.mem, limit), committed := tail), h, found),
                      Done(Recovered(found, tail, limit))))
  {
    hide ScanMem, BrokenCount, TailEnd, Goes, Rec, Recounted;
    var m, limit := sh.mem, Min(sh.reserve, e.g.capacity);
    var found := BrokenCount(e, m.vol, limit);
    var tail := TailEnd(e, m.vol, limit, sh.committed);
    NothingScanned(e, m);
    RecoverFrom(e, m, sh, t, h, limit, 0);
    var scanned := sh.(mem := ScanMem(e, m, limit));
    SweptAfterScan(e, m, limit, sh.committed);
    SweepAlone(e, scanned, t, ForRecover(h, limit, found));
    var swept := scanned.(committed := tail);
    CountsAlone(e, swept, t, h, Recovered(found, tail, limit));
    var to := Move(Recounted(swept, h, found), Done(Recovered(found, tail, limit)));
    GoesOn(e, scanned, t, Sweeping(ForRecover(h, limit, found), LoadTail(0, 0)),
           Move(swept, CountRun(h, Recovered(found, tail, limit))), to);
    GoesOn(e, sh, t, Scan(h, limit, 0, 0), Move(scanned, Sweeping(ForRecover(h, limit, found), LoadTail(0, 0))), to);
    GoesAfterStep(e, sh, t, Start(RecoverCall(h)), to);
  }

  lemma NothingScanned(e: Env, m: Mem)
    requires PoolSized(e, m)
    ensures ScanMem(e, m, 0) == m && BrokenCount(e, m.vol, 0) == 0
  {
  }

  /** After the scan the sweep finds the tail that the pool before it determines. */
  lemma SweptAfterScan(e: Env, m: Mem, n: nat, c: nat)
    requires PoolSized(e, m) && n <= e.g.capacity
    ensures TailEnd(e, ScanMem(e, m, n).vol, 0, c) == TailEnd(e, m.vol, n, c)
  {
    hide Rec, ScanMem, TailEnd;
    ScanExact(e, m, n);
    var r := ScanMem(e, m, n);
    assert forall u: nat | u < e.g.capacity :: FinalState(e, r.vol, 0, u) == StateOf(e.g, r.vol, u);
    TailEndAfterScan(e, m.vol, r.vol, n, 0, c);
  }

  // ---- append ----

  lemma AppendIsProgram(e: Env, m: Mem, u: nat, a: Args)
    requires PoolSized(e, m) && u < e.g.capacity && ArgsOk(e.g, a)
    ensures AllFit(AppendProgram(e, u, a), e.g.totalSize)
    ensures AppendMem(e, m, u, a) == ApplyAll(m, AppendProgram(e, u, a))
  {
    hide BodyOps, FlushOps, Apply, ApplyAll;
    BodyFits(e, u, a);
    RecordBounds(e.g, u);
    var off := e.g.RecordOffset(u);
    var b, f, op, g := BodyOps(e, u, a), FlushOps(off, e.g.recordSize), Store(off + REC_STATE, [STATE_COMMITTED]),
        FlushOps(off, CACHELINE);
    assert AllFit(f, e.g.totalSize) && AllFit([op], e.g.totalSize) && AllFit(g, e.g.totalSize);
    ApplyAllAppend(m, b, f);
    ApplyAllAppend(m, b + f, [op]);
    ApplyAllAppend(m, b + f + [op], g);
    OnlyOp(ApplyAll(m, b + f), op);
  }

  lemma OnlyOp(m: Mem, op: MemOp)
    requires |m.vol| == |m.dur| && Fits(op, |m.vol|)
    ensures ApplyAll(m, [op]) == Apply(m, op)
  {
  }

  /** What the program of an append leaves alone. */
  ghost predicate OnlyWritten(sh: Shared, to: Shared) {
    to.committed == sh.committed && to.reserve == sh.reserve && to.metrics == sh.metrics && to.grants == sh.grants
  }

  lemma StageFrame(e: Env, sh: Shared, t: Tid, u: nat, a: Args, k: nat)
    requires SharedOk(e, sh) && SlotOk(e.g, u, a) && k < |AppendProgram(e, u, a)|
    requires PcOk(e, Stage(e, u, a, k)) && !Stage(e, u, a, k).Done?
    ensures SharedOk(e, StepPc(e, sh, t, Stage(e, u, a, k)).sh)
    ensures OnlyWritten(sh, StepPc(e, sh, t, Stage(e, u, a, k)).sh)
  {
    hide BodyOps, NumLines, Apply, AppendProgram, Rec;
    ProgramShape(e, u, a);
    StepEffect(e, sh, t, Stage(e, u, a, k), 0);
  }

  lemma {:induction false} StagesAlone(e: Env, start: Mem, sh: Shared, t: Tid, u: nat, a: Args, k: nat)
      returns (to: Shared)
    requires SharedOk(e, sh) && PoolSized(e, start) && SlotOk(e.g, u, a) && k <= |AppendProgram(e, u, a)|
    requires AllFit(AppendProgram(e, u, a), e.g.totalSize) && sh.mem == ApplyAll(start, AppendProgram(e, u, a)[..k])
    ensures Goes(e, sh, t, Stage(e, u, a, k), Move(to, Sweeping(ForAppend(u, a), LoadTail(0, 0))))
    ensures SharedOk(e, to) && OnlyWritten(sh, to) && to.mem == ApplyAll(start, AppendProgram(e, u, a))
    decreases |AppendProgram(e, u, a)| - k
  {
    hide BodyOps, AppendProgram, Stage, StepPc, SharedOk, Goes, Apply, ApplyAll;
    var prog := AppendProgram(e, u, a);
    if k == |prog| {
      LastIsSweep(e, u, a);
      assert prog[..k] == prog;
      to := sh;
      GoesNow(e, sh, t, Stage(e, u, a, k));
    } else {
      StepIsProgramOp(e, sh, t, u, a, k);
      StageFrame(e, sh, t, u, a, k);
      var m := StepPc(e, sh, t, Stage(e, u, a, k));
      OneMoreOp(start, prog, k);
      to := StagesAlone(e, start, m.sh, t, u, a, k + 1);
      GoesAfterStep(e, sh, t, Stage(e, u, a, k), Move(to, Sweeping(ForAppend(u, a), LoadTail(0, 0))));
    }
  }

  lemma OneMoreOp(m: Mem, ops: seq<MemOp>, k: nat)
    requires |m.vol| == |m.dur| && AllFit(ops, |m.vol|) && k < |ops|
    ensures Fits(ops[k], |m.vol|) && ApplyAll(m, ops[..k + 1]) == Apply(ApplyAll(m, ops[..k]), ops[k])
  {
    hide Apply;
    assert ops[..k + 1] == ops[..k] + [ops[k]];
    ApplyAllAppend(m, ops[..k], [ops[k]]);
    var x := ApplyAll(m, ops[..k]);
    assert ApplyAll(x, [ops[k]]) == Apply(x, ops[k]);
  }

  lemma LastIsSweep(e: Env, u: nat, a: Args)
    requires e.g.Ok() && SlotOk(e.g, u, a)
    ensures Stage(e, u, a, |AppendProgram(e, u, a)|) == Sweeping(ForAppend(u, a), LoadTail(0, 0))
  {
    hide BodyOps, NumLines, AppendProgram;
    ProgramShape(e, u, a);
  }

  /** The two counters of a successful append. */
  lemma CountedAlone(e: Env, sh: Shared, t: Tid, u: nat, a: Args) returns (to: Shared)
    requires SharedOk(e, sh) && SlotOk(e.g, u, a)
    ensures Goes(e, sh, t, CountAppend(u, a), Move(to, Done(Appended(u, a))))
    ensures to.mem == sh.mem && to.committed == sh.committed && to.reserve == sh.reserve && to.grants == sh.grants
    ensures a.host < |sh.metrics| && |sh.metrics[a.host]| == METRICS_FIELDS && |a.data| < U64_LIMIT
    ensures to.metrics == Bump(Bump(sh.metrics, a.host, APPENDS_TOTAL, 1), a.host, BYTES_WRITTEN, |a.data|)
    ensures SharedOk(e, to)
  {
    hide Goes;
    var next := StepPc(e, sh, t, CountAppend(u, a));
    to := StepPc(e, next.sh, t, next.pc).sh;
    GoesInOne(e, next.sh, t, next.pc);
    GoesAfterStep(e, sh, t, CountAppend(u, a), Move(to, Done(Appended(u, a))));
  }

  /** append: a payload that is too large touches nothing; a full pool answers PoolFull, with the reservation undone and
      one failure counted; else the record is written to the reserved slot by the append's program, the tail sweeps,
      the append and its bytes are counted, and the slot is answered. */
  lemma AppendAlone(e: Env, sh: Shared, t: Tid, a: Args) returns (to: Shared)
    requires SharedOk(e, sh) && sh.committed <= e.g.capacity && CallOk(e.g, AppendCall(a))
    ensures SharedOk(e, to) && a.host < |sh.metrics| && |sh.metrics[a.host]| == METRICS_FIELDS
    ensures |a.data| > e.g.payloadSize ==>
              Goes(e, sh, t, Start(AppendCall(a)), Move(to, Done(Reply.PayloadTooLarge(e.g.payloadSize, |a.data|))))
              && to == sh
    ensures |a.data| <= e.g.payloadSize && sh.reserve >= e.g.capacity ==>
              Goes(e, sh, t, Start(AppendCall(a)), Move(to, Done(Reply.PoolFull(e.g.capacity, sh.reserve))))
              && to == sh.(metrics := Bump(sh.metrics, a.host, APPENDS_FAILED, 1), overflows := sh.overflows + 1)
    ensures |a.data| <= e.g.payloadSize && sh.reserve < e.g.capacity ==>
              && Goes(e, sh, t, Start(AppendCall(a)), Move(to, Done(Appended(sh.reserve, a))))
              && to.mem == AppendMem(e, sh.mem, sh.reserve, a)
              && to.committed == TailEnd(e, to.mem.vol, 0, sh.committed) && to.reserve == sh.reserve + 1
              && to.metrics == Bump(Bump(sh.metrics, a.host, APPENDS_TOTAL, 1), a.host, BYTES_WRITTEN, |a.data|)
              && to.grants == sh.grants + [Grant(t, a)]
  {
    hide Goes, AppendMem, TailEnd, BodyOps;
    var pc := Start(AppendCall(a));
    if |a.data| > e.g.payloadSize {
      to := sh;
      GoesInOne(e, sh, t, pc);
    } else if sh.reserve >= e.g.capacity {
      to := FullAlone(e, sh, t, a);
    } else {
      var slot := sh.reserve;
      var begun := sh.(reserve := sh.reserve + 1, grants := sh.grants + [Grant(t, a)]);
      to := WrittenAlone(e, begun, t, slot, a);
      Reserves(e, sh, t, a);
      GoesAfterStep(e, sh, t, pc, Move(to, Done(Appended(slot, a))));
    }
  }

  lemma Reserves(e: Env, sh: Shared, t: Tid, a: Args)
    requires SharedOk(e, sh) && ArgsOk(e.g, a) && CallOk(e.g, AppendCall(a)) && sh.reserve < e.g.capacity
    ensures StepPc(e, sh, t, Start(AppendCall(a)))
         == Move(sh.(reserve := sh.reserve + 1, grants := sh.grants + [Grant(t, a)]), Stage(e, sh.reserve, a, 0))
  {
    hide Stage;
    FirstStage(e, sh, t, a);
  }

  lemma FullAlone(e: Env, sh: Shared, t: Tid, a: Args) returns (to: Shared)
    requires SharedOk(e, sh) && ArgsOk(e.g, a) && CallOk(e.g, AppendCall(a)) && sh.reserve >= e.g.capacity
    ensures SharedOk(e, to) && a.host < |sh.metrics| && |sh.metrics[a.host]| == METRICS_FIELDS
    ensures to == sh.(metrics := Bump(sh.metrics, a.host, APPENDS_FAILED, 1), overflows := sh.overflows + 1)
    ensures Goes(e, sh, t, Start(AppendCall(a)), Move(to, Done(Reply.PoolFull(e.g.capacity, sh.reserve))))
  {
    hide Goes;
    to := sh.(metrics := Bump(sh.metrics, a.host, APPENDS_FAILED, 1), overflows := sh.overflows + 1);
    var undo := StepPc(e, sh, t, Start(AppendCall(a)));
    var fail := StepPc(e, undo.sh, t, undo.pc);
    WrapAddMaxIsMinusOne(sh.reserve);
    assert fail.sh.reserve == sh.reserve;
    GoesInOne(e, fail.sh, t, fail.pc);
    var done := Move(to, Done(Reply.PoolFull(e.g.capacity, sh.reserve)));
    GoesAfterStep(e, undo.sh, t, undo.pc, done);
    GoesAfterStep(e, sh, t, Start(AppendCall(a)), done);
  }

  lemma WrittenAlone(e: Env, sh: Shared, t: Tid, u: nat, a: Args) returns (to: Shared)
    requires SharedOk(e, sh) && SlotOk(e.g, u, a) && sh.committed <= e.g.capacity
    ensures SharedOk(e, to) && a.host < |sh.metrics| && |sh.metrics[a.host]| == METRICS_FIELDS && |a.data| < U64_LIMIT
    ensures Goes(e, sh, t, Stage(e, u, a, 0), Move(to, Done(Appended(u, a))))
    ensures to.mem == AppendMem(e, sh.mem, u, a) && to.reserve == sh.reserve && to.grants == sh.grants
    ensures to.committed == TailEnd(e, to.mem.vol, 0, sh.committed)
    ensures to.metrics == Bump(Bump(sh.metrics, a.host, APPENDS_TOTAL, 1), a.host, BYTES_WRITTEN, |a.data|)
  {
    hide Goes, AppendMem, AppendProgram, TailEnd, BodyOps, Stage, ApplyAll;
    AppendIsProgram(e, sh.mem, u, a);
    NoOpsYet(sh.mem, AppendProgram(e, u, a));
    var written := StagesAlone(e, sh.mem, sh, t, u, a, 0);
    var end := TailEnd(e, written.mem.vol, 0, written.committed);
    SweepAlone(e, written, t, ForAppend(u, a));
    var swept := written.(committed := end);
    to := CountedAlone(e, swept, t, u, a);
    var done := Move(to, Done(Appended(u, a)));
    GoesOn(e, written, t, Sweeping(ForAppend(u, a), LoadTail(0, 0)), Move(swept, CountAppend(u, a)), done);
    GoesOn(e, sh, t, Stage(e, u, a, 0), Move(written, Sweeping(ForAppend(u, a), LoadTail(0, 0))), done);
  }

  lemma NoOpsYet(m: Mem, ops: seq<MemOp>)
    requires |m.vol| == |m.dur|
    ensures ops[..0] == [] && ApplyAll(m, ops[..0]) == m
  {
  }
}
