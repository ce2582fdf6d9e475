/** Every action of the log protocol preserves its invariant. */
module ProtocolSteps {
  import opened Bytes
  import opened Layout
  import opened Media
  import opened Records
  import opened Protocol
  import opened ProtocolInv

  /** What a step must establish: the shared invariant, the stepping thread's own, and harmlessness to others. */
  ghost predicate Kept(e: Env, sh: Shared, t: Tid, m: Move) {
    && SharedInv(e, sh) && SharedInv(e, m.sh) && Guar(e, sh, m.sh, t) && ThreadInv(e, m.sh, t, m.pc)
  }

  lemma BodyKept(e: Env, sh: Shared, t: Tid, u: nat, a: Args, k: nat)
    requires SharedInv(e, sh) && ThreadInv(e, sh, t, Body(u, a, k))
    ensures Kept(e, sh, t, StepAppend(e, sh, t, Body(u, a, k)))
  {
    hide SharedInv, Guar, Content, BodyOps, Rec;
    var m := StepAppend(e, sh, t, Body(u, a, k));
    var ops := BodyOps(e, u, a);
    BodyOpsApart(e, u, a);
    if k == 0 {
      assert m.sh == StoreState(e, sh, u, STATE_WRITING);
      StateStoreInv(e, sh, u, STATE_WRITING, t);
      WrittenSameBody(e, V(e, sh, u), V(e, m.sh, u), u, a, 0);
      assert Written(e, V(e, m.sh, u), u, a, 1);
    } else {
      var lo := Rel(e.g, u, ops[k]);
      BodyStoreInv(e, sh, u, lo, ops[k].bytes, t);
      WrittenStep(e, V(e, sh, u), u, a, k);
      if k + 1 == |ops| {
        AllWritten(e, V(e, m.sh, u), u, a);
        LinesStart(e, m.sh, u);
      }
    }
  }

  lemma LinesStart(e: Env, sh: Shared, u: nat)
    requires SharedOk(e, sh) && u < e.g.capacity
    ensures FlushedTo(e, sh, u, 0)
  {
    hide Rec;
    forall k: nat ensures LineOf(e.g, u, 0) <= LineOf(e.g, u, k) {
      DivMono(e.g.RecordOffset(u), e.g.RecordOffset(u) + k);
    }
  }

  lemma FlushedStep(e: Env, sh: Shared, u: nat, j: nat)
    requires SharedOk(e, sh) && u < e.g.capacity && FlushedTo(e, sh, u, j) && V(e, sh, u)[REC_STATE] != STATE_FREE
    ensures SharedOk(e, FlushLine(e, sh, u, j)) && FlushedTo(e, FlushLine(e, sh, u, j), u, j + 1)
  {
    LineFacts(e, sh, e.g.RecordOffset(u) / CACHELINE + j, u);
  }

  lemma LinesCover(g: Geometry, u: nat, k: nat)
    requires g.Ok() && k < g.recordSize
    ensures LineOf(g, u, k) < LineOf(g, u, 0) + NumLines(g.RecordOffset(u), g.recordSize)
  {
  }

  lemma FlushRecordKept(e: Env, sh: Shared, t: Tid, u: nat, a: Args, j: nat)
    requires SharedInv(e, sh) && ThreadInv(e, sh, t, FlushRecord(u, a, j))
    ensures Kept(e, sh, t, StepAppend(e, sh, t, FlushRecord(u, a, j)))
  {
    hide SharedInv, Guar, Content, Rec, NumLines, FlushedTo, Apply;
    var sh1 := FlushLine(e, sh, u, j);
    WriteBackInv(e, sh, e.g.RecordOffset(u) / CACHELINE + j, t);
    LineFacts(e, sh, e.g.RecordOffset(u) / CACHELINE + j, u);
    FlushedStep(e, sh, u, j);
    if j + 1 == NumLines(e.g.RecordOffset(u), e.g.recordSize) {
      AllFlushed(e, sh1, u);
      Seal(e, sh1, u);
      SealGuar(e, sh, sh1, t, u);
    }
  }

  lemma AllFlushed(e: Env, sh: Shared, u: nat)
    requires SharedOk(e, sh) && u < e.g.capacity && FlushedTo(e, sh, u, NumLines(e.g.RecordOffset(u), e.g.recordSize))
    ensures SameBody(V(e, sh, u), D(e, sh, u)) && D(e, sh, u)[REC_STATE] != STATE_FREE
  {
    forall k: nat | k < e.g.recordSize
      ensures if k == REC_STATE then D(e, sh, u)[k] != STATE_FREE else D(e, sh, u)[k] == V(e, sh, u)[k]
    {
      LinesCover(e.g, u, k);
    }
  }

  lemma SealGuar(e: Env, sh: Shared, sh1: Shared, t: Tid, u: nat)
    requires SharedOk(e, sh) && SharedOk(e, sh1) && Guar(e, sh, sh1, t) && Mine(sh1, t, u)
    requires sh1.sealed == sh.sealed
    ensures Guar(e, sh, sh1.(sealed := sh.sealed + {u}), t)
  {
    var sh2 := sh1.(sealed := sh.sealed + {u});
    forall w: nat | w < e.g.capacity ensures GuarSlot(e, sh, sh2, t, w) {
      assert GuarSlot(e, sh, sh1, t, w);
    }
  }

  /** Once a record's body is durable its slot may be counted as sealed. */
  lemma Seal(e: Env, sh: Shared, u: nat)
    requires SharedInv(e, sh) && u < |sh.grants| && u < e.g.capacity && SealedSlot(e, sh, u)
    ensures SharedInv(e, sh.(sealed := sh.sealed + {u}))
  {
    var sh' := sh.(sealed := sh.sealed + {u});
    forall w: nat | w < e.g.capacity ensures SlotInv(e, sh', w) {
      assert SlotInv(e, sh, w);
    }
  }

  lemma BumpOk(m: seq<seq<u64>>, host: nat, field: nat, n: u64)
    requires host < |m| && (forall h | 0 <= h < |m| :: |m[h]| == METRICS_FIELDS) && field < METRICS_FIELDS
    ensures var m' := Bump(m, host, field, n);
            |m'| == |m| && forall h | 0 <= h < |m'| :: |m'[h]| == METRICS_FIELDS
  {
  }

  /** Changing the metrics, the counters or the history of finished appends changes nothing the invariant reads. */
  lemma SideChange(e: Env, sh: Shared, sh': Shared, t: Tid)
    requires SharedInv(e, sh) && SharedOk(e, sh')
    requires sh'.mem == sh.mem && sh'.committed == sh.committed && sh'.grants == sh.grants && sh'.sealed == sh.sealed
    requires sh'.landed == sh.landed
    ensures SharedInv(e, sh') && Guar(e, sh, sh', t)
  {
    forall u: nat | u < e.g.capacity ensures SlotInv(e, sh', u) {
      assert SlotInv(e, sh, u);
    }
    GuarSame(e, sh, sh', t);
  }

  lemma CommitKept(e: Env, sh: Shared, t: Tid, u: nat, a: Args)
    requires SharedInv(e, sh) && ThreadInv(e, sh, t, Commit(u, a))
    ensures Kept(e, sh, t, StepAppend(e, sh, t, Commit(u, a)))
  {
    hide Rec, Content;
    var sh1 := sh.(landed := sh.landed + {u});
    forall w: nat | w < e.g.capacity ensures SlotInv(e, sh1, w) {
      assert SlotInv(e, sh, w);
    }
    StateStoreInv(e, sh1, u, STATE_COMMITTED, t);
    assert StepAppend(e, sh, t, Commit(u, a)).sh == StoreState(e, sh1, u, STATE_COMMITTED);
  }

  lemma AppendKept(e: Env, sh: Shared, t: Tid, pc: Pc)
    requires SharedInv(e, sh) && ThreadInv(e, sh, t, pc)
    requires pc.Undo? || pc.FailMetric? || pc.Body? || pc.FlushRecord? || pc.Commit? || pc.FlushState?
          || pc.CountAppend? || pc.CountBytes?
    ensures Kept(e, sh, t, StepAppend(e, sh, t, pc))
  {
    hide SharedInv, Guar, Rec, Content, Written, BodyOps;
    var m := StepAppend(e, sh, t, pc);
    match pc
    case Undo(a, requested) => SideChange(e, sh, m.sh, t);
    case FailMetric(a, requested) =>
      BumpOk(sh.metrics, a.host, APPENDS_FAILED, 1);
      SideChange(e, sh, m.sh, t);
    case Body(u, a, k) => BodyKept(e, sh, t, u, a, k);
    case FlushRecord(u, a, j) => FlushRecordKept(e, sh, t, u, a, j);
    case Commit(u, a) => CommitKept(e, sh, t, u, a);
    case FlushState(u, a, j) => WriteBackInv(e, sh, e.g.RecordOffset(u) / CACHELINE + j, t);
    case CountAppend(u, a) =>
      BumpOk(sh.metrics, a.host, APPENDS_TOTAL, 1);
      SideChange(e, sh, m.sh, t);
    case CountBytes(u, a) =>
      BumpOk(sh.metrics, a.host, BYTES_WRITTEN, |a.data|);
      SideChange(e, sh, m.sh, t);
  }

  /** Moving the tail over slots that have been COMMITTED. */
  lemma TailKept(e: Env, sh: Shared, t: Tid, new_: nat)
    requires SharedInv(e, sh) && sh.committed <= new_ <= e.g.capacity
    requires forall v: nat | sh.committed <= v < new_ :: v in sh.landed
    ensures var sh' := sh.(committed := new_); SharedInv(e, sh') && Guar(e, sh, sh', t)
  {
    var sh' := sh.(committed := new_);
    forall u: nat | u < e.g.capacity ensures SlotInv(e, sh', u) {
      assert SlotInv(e, sh, u);
    }
    GuarSame(e, sh, sh', t);
  }

  lemma TailBound(e: Env, sh: Shared)
    requires SharedInv(e, sh)
    ensures sh.committed <= e.g.capacity
  {
  }

  lemma ScanFromKept(e: Env, sh: Shared, t: Tid, pc: Pc)
    requires SharedInv(e, sh) && ThreadInv(e, sh, t, pc) && pc.Sweeping? && pc.sweep.ScanFrom?
    ensures Kept(e, sh, t, StepSweep(e, sh, pc))
  {
    hide SharedInv, Guar, Kept, Rec, SealedSlot, StateByte;
    TailBound(e, sh);
    if pc.sweep.new_ < e.g.capacity {
      CommittedIsSealed(e, sh, pc.sweep.new_);
    }
    Quiet(e, sh, t, StepSweep(e, sh, pc).pc);
  }

  lemma SwapTailKept(e: Env, sh: Shared, t: Tid, pc: Pc)
    requires SharedInv(e, sh) && ThreadInv(e, sh, t, pc) && pc.Sweeping? && pc.sweep.SwapTail?
    ensures Kept(e, sh, t, StepSweep(e, sh, pc))
  {
    hide SharedInv, Guar, Rec, SealedSlot, StateByte;
    if sh.committed == pc.sweep.cur {
      TailKept(e, sh, t, pc.sweep.new_);
    } else {
      Quiet(e, sh, t, StepSweep(e, sh, pc).pc);
    }
  }

  lemma LoadTailKept(e: Env, sh: Shared, t: Tid, pc: Pc)
    requires SharedInv(e, sh) && ThreadInv(e, sh, t, pc) && pc.Sweeping? && pc.sweep.LoadTail?
    ensures Kept(e, sh, t, StepSweep(e, sh, pc))
  {
    hide SharedInv, Guar, Kept, Rec, SealedSlot, StateByte;
    TailBound(e, sh);
    Quiet(e, sh, t, StepSweep(e, sh, pc).pc);
  }

  lemma SweepKept(e: Env, sh: Shared, t: Tid, pc: Pc)
    requires SharedInv(e, sh) && ThreadInv(e, sh, t, pc) && pc.Sweeping?
    ensures Kept(e, sh, t, StepSweep(e, sh, pc))
  {
    hide SharedInv, ThreadInv, Kept, StepSweep;
    match pc.sweep
    case LoadTail(_, _) => LoadTailKept(e, sh, t, pc);
    case ScanFrom(_, _, _, _) => ScanFromKept(e, sh, t, pc);
    case SwapTail(_, _, _, _) => SwapTailKept(e, sh, t, pc);
  }

  /** A step that only reads: nothing shared changes. */
  lemma Quiet(e: Env, sh: Shared, t: Tid, pc: Pc)
    requires SharedInv(e, sh) && ThreadInv(e, sh, t, pc)
    ensures Kept(e, sh, t, Move(sh, pc))
  {
    GuarSame(e, sh, sh, t);
  }

  lemma SealedFacts(e: Env, sh: Shared, u: nat)
    requires SharedInv(e, sh) && u in sh.sealed
    ensures u < e.g.capacity && SealedSlot(e, sh, u)
  {
    assert SlotInv(e, sh, u);
  }

  lemma CommittedIsSealed(e: Env, sh: Shared, u: nat)
    requires SharedInv(e, sh) && u < e.g.capacity
    ensures StateByte(e, sh, u) == STATE_COMMITTED ==> u in sh.landed && u in sh.sealed && SealedSlot(e, sh, u)
    ensures StateByte(e, sh, u) <= STATE_ABANDONED
  {
    assert SlotInv(e, sh, u);
  }

  lemma LoadKept(e: Env, sh: Shared, t: Tid, p: Purpose, u: nat, field: Field, got: Fields)
    requires SharedInv(e, sh) && ThreadInv(e, sh, t, Load(p, u, field, got))
    ensures Kept(e, sh, t, StepRead(e, sh, Load(p, u, field, got)))
  {
    hide SharedInv, Kept, Content, Rec, SameBody, Intact, Decode, Word, LenOf, PayloadOf, SealedSlot;
    var m := StepRead(e, sh, Load(p, u, field, got));
    SealedFacts(e, sh, u);
    ContentReadsBack(e, V(e, sh, u), u, sh.grants[u].args);
    assert ThreadInv(e, sh, t, m.pc);
    Quiet(e, sh, t, m.pc);
  }

  lemma ReadKept(e: Env, sh: Shared, t: Tid, pc: Pc)
    requires SharedInv(e, sh) && ThreadInv(e, sh, t, pc)
    requires pc.LoadState? || pc.Load? || pc.CountRead? || pc.CountMismatch?
    ensures Kept(e, sh, t, StepRead(e, sh, pc))
  {
    hide SharedInv, Guar, Content, Rec, SealedSlot;
    var m := StepRead(e, sh, pc);
    match pc
    case LoadState(h, index) =>
      CommittedIsSealed(e, sh, index - 1);
      Quiet(e, sh, t, m.pc);
    case Load(p, u, field, got) => LoadKept(e, sh, t, p, u, field, got);
    case CountRead(h, index, entry) =>
      BumpOk(sh.metrics, h, READS_TOTAL, 1);
      SideChange(e, sh, m.sh, t);
  }

  lemma ScanKept(e: Env, sh: Shared, t: Tid, h: nat, limit: nat, u: nat, n: nat)
    requires SharedInv(e, sh) && ThreadInv(e, sh, t, Scan(h, limit, u, n))
    ensures Kept(e, sh, t, StepRecover(e, sh, Scan(h, limit, u, n)))
  {
    hide SharedInv, Guar, Kept, Rec, SealedSlot, StateByte;
    var m := StepRecover(e, sh, Scan(h, limit, u, n));
    if u < limit {
      CommittedIsSealed(e, sh, u);
    }
    Quiet(e, sh, t, m.pc);
  }

  /** The abandoning store of a recover or a trim, and a write-back of the flush that follows it. */
  lemma MarkKept(e: Env, sh: Shared, t: Tid, pc: Pc)
    requires SharedInv(e, sh) && ThreadInv(e, sh, t, pc) && (pc.Mark? || pc.TrimMark?)
    ensures Kept(e, sh, t, if pc.Mark? then StepRecover(e, sh, pc) else StepTrim(e, sh, pc))
  {
    hide SharedInv, Guar, Rec, Content;
    StateStoreInv(e, sh, pc.slot, STATE_ABANDONED, t);
  }

  lemma MarkFlushKept(e: Env, sh: Shared, t: Tid, pc: Pc)
    requires SharedInv(e, sh) && ThreadInv(e, sh, t, pc) && (pc.MarkFlush? || pc.TrimFlush?)
    ensures Kept(e, sh, t, if pc.MarkFlush? then StepRecover(e, sh, pc) else StepTrim(e, sh, pc))
  {
    hide SharedInv, Guar, Rec, Content;
    WriteBackInv(e, sh, e.g.RecordOffset(pc.slot) / CACHELINE + pc.j, t);
  }

  lemma CountsKept(e: Env, sh: Shared, t: Tid, pc: Pc)
    requires SharedInv(e, sh) && ThreadInv(e, sh, t, pc) && (pc.CountRun? || pc.CountFound?)
    ensures Kept(e, sh, t, StepRecover(e, sh, pc))
  {
    hide SharedInv, Guar, Rec, Content;
    BumpOk(sh.metrics, pc.host, RECOVERY_RUNS, 1);
    BumpOk(sh.metrics, pc.host, ABANDONED_FOUND, pc.report.abandoned);
    SideChange(e, sh, StepRecover(e, sh, pc).sh, t);
  }

  lemma RecoverKept(e: Env, sh: Shared, t: Tid, pc: Pc)
    requires SharedInv(e, sh) && ThreadInv(e, sh, t, pc)
    requires pc.Scan? || pc.Mark? || pc.MarkFlush? || pc.CountRun? || pc.CountFound?
    ensures Kept(e, sh, t, StepRecover(e, sh, pc))
  {
    hide SharedInv, ThreadInv, Kept, StepRecover;
    match pc
    case Scan(h, limit, u, n) => ScanKept(e, sh, t, h, limit, u, n);
    case Mark(_, _, _, _) => MarkKept(e, sh, t, pc);
    case MarkFlush(_, _, _, _, _) => MarkFlushKept(e, sh, t, pc);
    case _ => CountsKept(e, sh, t, pc);
  }

  lemma TrimKept(e: Env, sh: Shared, t: Tid, pc: Pc)
    requires SharedInv(e, sh) && ThreadInv(e, sh, t, pc)
    requires pc.TrimScan? || pc.TrimMark? || pc.TrimFlush?
    ensures Kept(e, sh, t, StepTrim(e, sh, pc))
  {
    hide SharedInv, Kept, Rec, Content;
    match pc
    case TrimScan(_, _, _) => Quiet(e, sh, t, StepTrim(e, sh, pc).pc);
    case TrimMark(_, _, _) => hide StepTrim; MarkKept(e, sh, t, pc);
    case TrimFlush(_, _, _, _) => hide StepTrim; MarkFlushKept(e, sh, t, pc);
  }

  lemma StartKept(e: Env, sh: Shared, t: Tid, call: Call)
    requires SharedInv(e, sh) && ThreadInv(e, sh, t, Start(call))
    requires if sh.reserve < e.g.capacity then sh.reserve == |sh.grants| else |sh.grants| == e.g.capacity
    ensures Kept(e, sh, t, StepStart(e, sh, t, call))
  {
    hide SharedInv, Guar, Rec, BodyOps;
    var m := StepStart(e, sh, t, call);
    if call.AppendCall? && |call.args.data| <= e.g.payloadSize && sh.reserve < e.g.capacity {
      GrantKept(e, sh, m.sh, t, call.args);
    } else {
      SideChange(e, sh, m.sh, t);
    }
  }

  lemma GrantKept(e: Env, sh: Shared, sh': Shared, t: Tid, a: Args)
    requires SharedInv(e, sh) && SharedOk(e, sh') && |sh.grants| < e.g.capacity && ArgsOk(e.g, a)
    requires sh'.mem == sh.mem && sh'.committed == sh.committed && sh'.sealed == sh.sealed && sh'.landed == sh.landed
    requires sh'.grants == sh.grants + [Grant(t, a)]
    ensures SharedInv(e, sh') && Guar(e, sh, sh', t) && |sh.grants| !in sh.sealed
  {
    assert GrantsOk(e, sh');
    forall u: nat | u < e.g.capacity ensures SlotInv(e, sh', u) && (u in sh.sealed ==> u < |sh.grants|) {
      assert SlotInv(e, sh, u);
    }
    GuarSame(e, sh, sh', t);
  }

  lemma StepKept(e: Env, sh: Shared, t: Tid, pc: Pc)
    requires SharedInv(e, sh) && ThreadInv(e, sh, t, pc) && !pc.Done?
    requires if sh.reserve < e.g.capacity then sh.reserve == |sh.grants| else |sh.grants| == e.g.capacity
    ensures Kept(e, sh, t, StepPc(e, sh, t, pc))
  {
    hide Kept, SharedInv, StepStart, StepAppend, StepSweep, StepRead, StepRecover, StepTrim;
    match pc
    case Start(call) => StartKept(e, sh, t, call);
    case Sweeping(_, _) => SweepKept(e, sh, t, pc);
    case LoadState(_, _) => ReadKept(e, sh, t, pc);
    case Load(_, _, _, _) => ReadKept(e, sh, t, pc);
    case CountRead(_, _, _) => ReadKept(e, sh, t, pc);
    case CountMismatch(_, _) => ReadKept(e, sh, t, pc);
    case Scan(_, _, _, _) => RecoverKept(e, sh, t, pc);
    case Mark(_, _, _, _) => RecoverKept(e, sh, t, pc);
    case MarkFlush(_, _, _, _, _) => RecoverKept(e, sh, t, pc);
    case CountRun(_, _) => RecoverKept(e, sh, t, pc);
    case CountFound(_, _) => RecoverKept(e, sh, t, pc);
    case TrimScan(_, _, _) => TrimKept(e, sh, t, pc);
    case TrimMark(_, _, _) => TrimKept(e, sh, t, pc);
    case TrimFlush(_, _, _, _) => TrimKept(e, sh, t, pc);
    case _ => AppendKept(e, sh, t, pc);
  }

  // ---- The reservation counter ----

  lemma CardPlus(s: set<Tid>, t: Tid, here: bool)
    requires t !in s
    ensures |if here then s + {t} else s| == |s| + if here then 1 else 0
  {
  }

  lemma ThoseMove(threads: map<Tid, Pc>, t: Tid, pc: Pc, p: Pc -> bool)
    ensures var others := Those(threads, p) - {t};
            && (Those(threads, p) == if t in threads && p(threads[t]) then others + {t} else others)
            && (Those(threads[t := pc], p) == if p(pc) then others + {t} else others)
  {
  }

  /** Counting threads after one of them moves or appears. */
  lemma CountMove(threads: map<Tid, Pc>, t: Tid, pc: Pc, p: Pc -> bool)
    ensures CountPc(threads[t := pc], p)
         == CountPc(threads, p) - (if t in threads && p(threads[t]) then 1 else 0) + (if p(pc) then 1 else 0)
  {
    hide Those;
    var others := Those(threads, p) - {t};
    ThoseMove(threads, t, pc, p);
    CardPlus(others, t, t in threads && p(threads[t]));
    CardPlus(others, t, p(pc));
  }

  lemma CountGone(threads: map<Tid, Pc>, t: Tid, p: Pc -> bool)
    requires t in threads
    ensures CountPc(threads - {t}, p) == CountPc(threads, p) - if p(threads[t]) then 1 else 0
  {
    var before, after := Those(threads, p), Those(threads - {t}, p);
    assert after == before - {t};
  }

  /** The slot a reservation returns is the next ungranted one, or the pool is full. */
  lemma CounterReads(e: Env, s: State)
    requires CounterInv(e, s) && |s.sh.grants| <= e.g.capacity
    ensures if s.sh.reserve < e.g.capacity then s.sh.reserve == |s.sh.grants| else |s.sh.grants| == e.g.capacity
  {
  }

  lemma ReserveEffect(e: Env, sh: Shared, t: Tid, pc: Pc)
    requires SharedOk(e, sh) && PcOk(e, pc) && !pc.Done? && !pc.Start? && !pc.Undo?
    ensures var m := StepPc(e, sh, t, pc);
            m.sh.reserve == sh.reserve && m.sh.grants == sh.grants && m.sh.leaked == sh.leaked && !Owes(m.pc)
            && m.sh.overflows == sh.overflows
  {
  }

  lemma StartCounter(e: Env, s: State, t: Tid)
    requires SharedInv(e, s.sh) && CounterInv(e, s) && Enabled(e, s, Step(t)) && NoWrapAhead(s) && s.threads[t].Start?
    ensures CounterInv(e, Do(e, s, Step(t)))
  {
    hide SharedInv, CountPc, BodyOps;
    CountMove(s.threads, t, StepPc(e, s.sh, t, s.threads[t]).pc, Owes);
    CounterReads(e, s);
  }

  lemma CounterStep(e: Env, s: State, t: Tid)
    requires Inv(e, s) && Enabled(e, s, Step(t)) && NoWrapAhead(s)
    ensures CounterInv(e, Do(e, s, Step(t)))
  {
    hide SharedInv, ThreadInv, CountPc, StepPc;
    var pc := s.threads[t];
    if pc.Start? {
      StartCounter(e, s, t);
    } else {
      CountMove(s.threads, t, StepPc(e, s.sh, t, pc).pc, Owes);
      CounterReads(e, s);
      if pc.Undo? {
        UndoEffect(e, s, t);
      } else {
        ReserveEffect(e, s.sh, t, pc);
      }
    }
  }

  lemma UndoEffect(e: Env, s: State, t: Tid)
    requires SharedOk(e, s.sh) && t in s.threads && s.threads[t].Undo? && PcOk(e, s.threads[t])
    requires CounterInv(e, s) && s.sh.reserve < U64_MAX
    ensures var m := StepPc(e, s.sh, t, s.threads[t]);
            m.sh.reserve == s.sh.reserve - 1 && m.sh.grants == s.sh.grants && m.sh.leaked == s.sh.leaked
                && m.pc.FailMetric?
            && CountPc(s.threads, Owes) > 0
  {
    assert t in Those(s.threads, Owes);
    WrapAddMaxIsMinusOne(s.sh.reserve);
  }

  // ---- Actions and runs ----

  /** A crash leaves every record as its durable image, where sealed slots are intact. */
  lemma CrashInv(e: Env, sh: Shared)
    requires SharedInv(e, sh)
    ensures SharedInv(e, sh.(mem := Mem(sh.mem.dur, sh.mem.dur)))
  {
    var sh' := sh.(mem := Mem(sh.mem.dur, sh.mem.dur));
    forall u: nat | u < e.g.capacity ensures SlotInv(e, sh', u) {
      assert SlotInv(e, sh, u);
      if u in sh.sealed {
        ContentSameBody(e, V(e, sh, u), D(e, sh, u), u, sh.grants[u].args);
      }
    }
  }

  lemma StepInv(e: Env, s: State, t: Tid)
    requires Inv(e, s) && Enabled(e, s, Step(t)) && NoWrapAhead(s)
    ensures Inv(e, Do(e, s, Step(t)))
  {
    var m := StepPc(e, s.sh, t, s.threads[t]);
    var s' := Do(e, s, Step(t));
    CounterReads(e, s);
    StepKept(e, s.sh, t, s.threads[t]);
    CounterStep(e, s, t);
    forall x | x in s'.threads ensures ThreadInv(e, s'.sh, x, s'.threads[x]) {
      if x != t {
        Stable(e, s.sh, m.sh, t, x, s.threads[x]);
      }
    }
  }

  lemma ActionInv(e: Env, s: State, a: Action)
    requires Inv(e, s) && Enabled(e, s, a) && NoWrapAhead(s)
    ensures Inv(e, Do(e, s, a))
  {
    var s' := Do(e, s, a);
    match a
    case Invoke(t, call) => CountMove(s.threads, t, Start(call), Owes);
    case Step(t) => StepInv(e, s, t);
    case Return(t) => CountGone(s.threads, t, Owes);
    case Evict(line) =>
      WriteBackInv(e, s.sh, line, -1);
      forall x | x in s'.threads ensures ThreadInv(e, s'.sh, x, s'.threads[x]) {
        Stable(e, s.sh, s'.sh, -1, x, s.threads[x]);
      }
    case Kill(t) =>
      CountGone(s.threads, t, Owes);
      forall u: nat | u < e.g.capacity ensures SlotInv(e, s'.sh, u) {
        assert SlotInv(e, s.sh, u);
      }
      forall x | x in s'.threads ensures ThreadInv(e, s'.sh, x, s'.threads[x]) {
        assert ThreadInv(e, s.sh, x, s.threads[x]);
        GuarSame(e, s.sh, s'.sh, -1);
        Stable(e, s.sh, s'.sh, -1, x, s.threads[x]);
      }
    case Crash =>
      CrashInv(e, s.sh);
      SideChange(e, s.sh.(mem := Mem(s.sh.mem.dur, s.sh.mem.dur)), s'.sh, 0);
  }

  lemma FreshInv(e: Env)
    requires e.g.Ok()
    ensures Inv(e, Fresh(e))
  {
    var s := Fresh(e);
    forall u: nat | u < e.g.capacity ensures SlotInv(e, s.sh, u) {
      RecordBounds(e.g, u);
    }
  }

  /** The runs of the protocol: any actions at all, short of wrapping the reservation counter. */
  ghost predicate AnyRun(s: State, a: Action) { NoWrapAhead(s) }

  lemma {:induction false} RunInv(e: Env, s: State, as_: seq<Action>, ok: (State, Action) -> bool)
    requires Inv(e, s) && RunFrom(e, s, as_, ok)
    requires forall x, a :: ok(x, a) ==> NoWrapAhead(x)
    ensures Inv(e, After(e, s, as_, ok))
    decreases |as_|
  {
    if as_ != [] {
      ActionInv(e, s, as_[0]);
      RunInv(e, Do(e, s, as_[0]), as_[1..], ok);
    }
  }

  lemma {:induction false} RunConcat(e: Env, s: State, a: seq<Action>, b: seq<Action>, ok: (State, Action) -> bool)
    requires RunFrom(e, s, a, ok) && RunFrom(e, After(e, s, a, ok), b, ok)
    ensures RunFrom(e, s, a + b, ok) && After(e, s, a + b, ok) == After(e, After(e, s, a, ok), b, ok)
    decreases |a|
  {
    if a == [] {
      assert a + b == b;
    } else {
      assert (a + b)[0] == a[0] && (a + b)[1..] == a[1..] + b;
      RunConcat(e, Do(e, s, a[0]), a[1..], b, ok);
    }
  }
}
