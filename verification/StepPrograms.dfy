/** The two views of the operations agree: the state machine's steps are, one by one, the memory operations that the
    methods perform on the byte array, and they take the methods' decisions. */
module StepPrograms {
  import opened Bytes
  import opened Layout
  import opened Media
  import opened Records
  import Recovery
  import opened LogImage
  import opened Protocol

  /** Where a thread is after k operations of the program of its append. */
  function Stage(e: Env, u: nat, a: Args, k: nat): Pc
    requires e.g.Ok() && SlotOk(e.g, u, a)
  {
    var b := |BodyOps(e, u, a)|;
    var f := NumLines(e.g.RecordOffset(u), e.g.recordSize);
    var s := NumLines(e.g.RecordOffset(u), CACHELINE);
    if k < b then Body(u, a, k)
    else if k < b + f then FlushRecord(u, a, k - b)
    else if k == b + f then Commit(u, a)
    else if k < b + f + 1 + s then FlushState(u, a, k - b - f - 1)
    else Sweeping(ForAppend(u, a), LoadTail(0, 0))
  }

  lemma ProgramShape(e: Env, u: nat, a: Args)
    requires e.g.Ok() && SlotOk(e.g, u, a)
    ensures var b := |BodyOps(e, u, a)|;
            var off := e.g.RecordOffset(u);
            var f, s := NumLines(off, e.g.recordSize), NumLines(off, CACHELINE);
            var prog := AppendProgram(e, u, a);
            && |prog| == b + f + 1 + s && 0 < b && 0 < f && 0 < s
            && (forall k | 0 <= k < b :: prog[k] == BodyOps(e, u, a)[k])
            && (forall k | b <= k < b + f :: prog[k] == WriteBack(off / CACHELINE + (k - b)))
            && prog[b + f] == Store(off + REC_STATE, [STATE_COMMITTED])
            && (forall k | b + f < k < |prog| :: prog[k] == WriteBack(off / CACHELINE + (k - b - f - 1)))
  {
    hide BodyOps, NumLines;
  }

  /** The k-th own step of an append that holds its slot does to memory exactly the k-th operation of its program, and
      moves on to the next; after the last it sweeps. */
  lemma StepIsProgramOp(e: Env, sh: Shared, t: Tid, u: nat, a: Args, k: nat)
    requires SharedOk(e, sh) && SlotOk(e.g, u, a) && k < |AppendProgram(e, u, a)|
    ensures PcOk(e, Stage(e, u, a, k)) && !Stage(e, u, a, k).Done?
    ensures Fits(AppendProgram(e, u, a)[k], e.g.totalSize)
    ensures var m := StepPc(e, sh, t, Stage(e, u, a, k));
            m.sh.mem == Apply(sh.mem, AppendProgram(e, u, a)[k]) && m.pc == Stage(e, u, a, k + 1)
  {
    hide BodyOps, NumLines, Apply, AppendProgram;
    ProgramShape(e, u, a);
    RecordBounds(e.g, u);
    if k < |BodyOps(e, u, a)| {
      BodyFits(e, u, a);
      assert BodyOps(e, u, a)[k] in BodyOps(e, u, a);
    }
  }

  /** The reservation hands its slot to the first stage. */
  lemma FirstStage(e: Env, sh: Shared, t: Tid, a: Args)
    requires SharedOk(e, sh) && ArgsOk(e.g, a) && sh.reserve < e.g.capacity
    ensures SlotOk(e.g, sh.reserve, a) && StepStart(e, sh, t, AppendCall(a)).pc == Stage(e, sh.reserve, a, 0)
  {
    ProgramShape(e, sh.reserve, a);
  }

  // ---- recover and trim ----

  /** What both do to a slot they abandon. */
  function AbandonOps(e: Env, u: nat): seq<MemOp>
  {
    [Store(e.g.RecordOffset(u) + REC_STATE, [STATE_ABANDONED])] + FlushOps(e.g.RecordOffset(u), CACHELINE)
  }

  lemma AbandonIsProgram(e: Env, m: Mem, u: nat)
    requires Recovery.PoolSized(e, m) && u < e.g.capacity
    ensures AllFit(AbandonOps(e, u), e.g.totalSize) && Recovery.Abandon(e, m, u) == ApplyAll(m, AbandonOps(e, u))
  {
    hide FlushOps;
    RecordBounds(e.g, u);
    var op := Store(e.g.RecordOffset(u) + REC_STATE, [STATE_ABANDONED]);
    var f := FlushOps(e.g.RecordOffset(u), CACHELINE);
    assert AllFit(f, e.g.totalSize) && AllFit([op], e.g.totalSize);
    ApplyAllAppend(m, [op], f);
    assert ApplyAll(m, [op]) == Apply(m, op);
  }

  /** How far an abandoning thread is in that program, and what it does next. */
  function AbandonAt(pc: Pc): Option<(nat, nat)> {
    match pc
    case Mark(_, _, u, _) => Some((u, 0))
    case MarkFlush(_, _, u, _, j) => Some((u, j + 1))
    case TrimMark(_, u, _) => Some((u, 0))
    case TrimFlush(_, u, _, j) => Some((u, j + 1))
    case _ => None
  }

  /** Each step of a recover or trim that abandons a slot does the next operation of the program; after the last it goes
      on to the next slot with one more in its count. */
  lemma AbandonStepIsProgramOp(e: Env, sh: Shared, t: Tid, pc: Pc)
    requires SharedOk(e, sh) && PcOk(e, pc) && AbandonAt(pc).Some?
    ensures var (u, j) := AbandonAt(pc).value;
            var m := StepPc(e, sh, t, pc);
            && j < |AbandonOps(e, u)| && Fits(AbandonOps(e, u)[j], e.g.totalSize)
            && m.sh.mem == Apply(sh.mem, AbandonOps(e, u)[j])
            && (if j + 1 < |AbandonOps(e, u)| then AbandonAt(m.pc) == Some((u, j + 1))
                else if pc.MarkFlush? then m.pc == Scan(pc.host, pc.limit, u + 1, pc.abandoned + 1)
                else pc.TrimFlush? && m.pc == TrimScan(pc.upTo, u + 1, pc.count + 1))
  {
    hide NumLines, Apply;
    var (u, j) := AbandonAt(pc).value;
    RecordBounds(e.g, u);
    SomeLines(e.g.RecordOffset(u));
  }

  lemma SomeLines(off: nat)
    ensures 0 < NumLines(off, CACHELINE)
  {
  }

  /** A thread that only loads, for at most k steps. */
  function Loads(e: Env, sh: Shared, pc: Pc, k: nat): (r: Pc)
    requires SharedOk(e, sh) && PcOk(e, pc)
    ensures PcOk(e, r)
    decreases k
  {
    if k == 0 || !pc.Load? then pc
    else
      LoadKeepsOk(e, sh, pc);
      Loads(e, sh, StepRead(e, sh, pc).pc, k - 1)
  }

  lemma LoadKeepsOk(e: Env, sh: Shared, pc: Pc)
    requires SharedOk(e, sh) && PcOk(e, pc) && pc.Load?
    ensures PcOk(e, StepRead(e, sh, pc).pc)
  {
    hide Rec, Word, LenOf, PayloadOf;
  }

  /** Undisturbed, recover's look at a slot, five loads and a checksum test if it is COMMITTED, decides to abandon it
      exactly if the slot's record is broken, and passes on otherwise. */
  lemma ScanDecides(e: Env, sh: Shared, h: nat, limit: nat, u: nat, n: nat)
    requires SharedOk(e, sh) && PcOk(e, Scan(h, limit, u, n)) && u < limit
    ensures var next := StepRecover(e, sh, Scan(h, limit, u, n)).pc;
            && PcOk(e, next)
            && Loads(e, sh, next, 5)
              == if Recovery.Broken(e, Rec(e.g, sh.mem.vol, u)) then Mark(h, limit, u, n) else Scan(h, limit, u + 1, n)
  {
    hide Rec, Word, LenOf, PayloadOf;
    var next := StepRecover(e, sh, Scan(h, limit, u, n)).pc;
    if StateByte(e, sh, u) == STATE_COMMITTED {
      FiveLoads(e, sh, h, limit, u, n);
    } else {
      assert Loads(e, sh, next, 5) == next;
    }
  }

  lemma FiveLoads(e: Env, sh: Shared, h: nat, limit: nat, u: nat, n: nat)
    requires SharedOk(e, sh) && PcOk(e, Scan(h, limit, u, n)) && u < limit
    ensures PcOk(e, Load(ForScan(h, limit, n), u, Term, Fields(0, 0, 0, 0, 0)))
    ensures Loads(e, sh, Load(ForScan(h, limit, n), u, Term, Fields(0, 0, 0, 0, 0)), 5)
         == if Intact(e, Rec(e.g, sh.mem.vol, u)) then Scan(h, limit, u + 1, n) else Mark(h, limit, u, n)
  {
    hide Rec, Word, LenOf, PayloadOf;
    var p := ForScan(h, limit, n);
    var r := Rec(e.g, sh.mem.vol, u);
    var f0 := Fields(0, 0, 0, 0, 0);
    var f1 := f0.(term := Word(e.g, r, REC_TERM));
    var f2 := f1.(index := Word(e.g, r, REC_INDEX));
    var f3 := f2.(len := LenOf(e.g, r));
    var f4 := f3.(crc := Word(e.g, r, REC_CHECKSUM));
    assert StepRead(e, sh, Load(p, u, Term, f0)).pc == Load(p, u, Index, f1);
    assert StepRead(e, sh, Load(p, u, Index, f1)).pc == Load(p, u, Len, f2);
    assert StepRead(e, sh, Load(p, u, Len, f2)).pc == Load(p, u, Crc, f3);
    assert StepRead(e, sh, Load(p, u, Crc, f3)).pc == Load(p, u, Payload, f4);
    var last := StepRead(e, sh, Load(p, u, Payload, f4)).pc;
    assert last == if Intact(e, r) then Scan(h, limit, u + 1, n) else Mark(h, limit, u, n);
    assert Loads(e, sh, last, 0) == last;
    assert Loads(e, sh, Load(p, u, Payload, f4), 1) == last;
    assert Loads(e, sh, Load(p, u, Crc, f3), 2) == last;
    assert Loads(e, sh, Load(p, u, Len, f2), 3) == last;
    assert Loads(e, sh, Load(p, u, Index, f1), 4) == last;
  }
}
