/** Any number of interleaved, crashing recoveries of any pool contents end where a single one does. */
module Confluence {
  import opened Bytes
  import opened Layout
  import opened Media
  import opened Records
  import opened Protocol
  import opened ProtocolInv
  import opened ProtocolSteps
  import opened StepEffects
  import opened RecoverySpec
  import Recovery
  import opened Safety

  /** Only recoveries are started; evictions, deaths and crashes may happen at any time. */
  predicate RecoverOnly(s: State, a: Action) { a.Invoke? ==> a.call.RecoverCall? }

  predicate CrashFree(as_: seq<Action>) { forall a | a in as_ :: !a.Crash? }

  /** The pool that recovery started from: its visible image, its tail, how far it is scanned, and whether all of it
      was durable. */
  datatype Origin = Origin(v: seq<byte>, committed: nat, limit: nat, durable: bool)

  ghost predicate OriginOk(e: Env, o: Origin) { e.g.Ok() && |o.v| == e.g.totalSize && o.limit <= e.g.capacity }

  function Final(e: Env, o: Origin, u: nat): byte
    requires e.g.Ok() && |o.v| == e.g.totalSize && u < e.g.capacity
  {
    FinalState(e, o.v, o.limit, u)
  }

  function End(e: Env, o: Origin): nat
    requires e.g.Ok() && |o.v| == e.g.totalSize
  {
    TailEnd(e, o.v, o.limit, o.committed)
  }

  /** Slot u has its original body, and its original or its final state. */
  ghost predicate Between(e: Env, o: Origin, r: seq<byte>, u: nat)
    requires OriginOk(e, o) && u < e.g.capacity && |r| == e.g.recordSize
  {
    SameBody(Rec(e.g, o.v, u), r) && r[REC_STATE] in {StateOf(e.g, o.v, u), Final(e, o, u)}
  }

  /** The first n slots have visibly reached their final state. */
  ghost predicate FinalTo(e: Env, o: Origin, sh: Shared, n: nat)
    requires OriginOk(e, o) && SharedOk(e, sh)
  {
    forall u: nat | u < n && u < e.g.capacity :: V(e, sh, u)[REC_STATE] == Final(e, o, u)
  }

  ghost predicate ConfShared(e: Env, o: Origin, sh: Shared)
    ensures ConfShared(e, o, sh) ==> OriginOk(e, o) && SharedOk(e, sh)
  {
    && OriginOk(e, o) && SharedOk(e, sh) && ScanLimit(e.g, sh.reserve) == o.limit
    && (forall u: nat | u < e.g.capacity :: Between(e, o, V(e, sh, u), u))
    && (o.durable ==> forall u: nat | u < e.g.capacity :: Between(e, o, D(e, sh, u), u))
    && (sh.committed == o.committed || sh.committed == End(e, o))
  }

  ghost predicate FieldsOf(e: Env, r: seq<byte>, field: Field, got: Fields)
    requires Image(e.g, r)
  {
    && (field != Term ==> got.term == Word(e.g, r, REC_TERM))
    && (field !in {Term, Index} ==> got.index == Word(e.g, r, REC_INDEX))
    && (field in {Crc, Payload} ==> got.len == LenOf(e.g, r))
    && (field == Payload ==> got.crc == Word(e.g, r, REC_CHECKSUM))
  }

  ghost predicate ConfSweep(e: Env, o: Origin, sh: Shared, w: Sweep)
    requires OriginOk(e, o)
  {
    match w
    case LoadTail(_, _) => true
    case ScanFrom(_, _, cur, new_) =>
      (cur == o.committed || cur == End(e, o)) && cur <= new_ <= End(e, o) && (cur == End(e, o) ==> sh.committed == cur)
    case SwapTail(_, _, cur, new_) => cur < new_ == End(e, o)
  }

  ghost predicate ConfDone(e: Env, o: Origin, sh: Shared, r: Reply)
    requires OriginOk(e, o) && SharedOk(e, sh)
  {
    FinalTo(e, o, sh, e.g.capacity) && sh.committed == End(e, o) && r.Recovered? && r.tail == End(e, o)
        && r.scanned == o.limit
  }

  ghost predicate ConfThread(e: Env, o: Origin, sh: Shared, pc: Pc)
    requires OriginOk(e, o) && SharedOk(e, sh)
    ensures ConfThread(e, o, sh, pc) ==> PcOk(e, pc)
  {
    && PcOk(e, pc)
    && match pc
       case Start(c) => c.RecoverCall?
       case Scan(_, limit, u, _) => limit == o.limit && FinalTo(e, o, sh, u)
       case Mark(_, limit, u, _) => limit == o.limit && FinalTo(e, o, sh, u) && Final(e, o, u) == STATE_ABANDONED
       case MarkFlush(_, limit, u, _, _) => limit == o.limit && FinalTo(e, o, sh, u + 1)
       case Load(ForScan(_, limit, _), u, field, got) =>
         && limit == o.limit && FinalTo(e, o, sh, u)
         && StateOf(e.g, o.v, u) == STATE_COMMITTED && field != Writer && FieldsOf(e, Rec(e.g, o.v, u), field, got)
       case Sweeping(ForRecover(_, limit, _), w) =>
         limit == o.limit && FinalTo(e, o, sh, e.g.capacity) && ConfSweep(e, o, sh, w)
       case CountRun(_, r) => ConfDone(e, o, sh, r)
       case CountFound(_, r) => ConfDone(e, o, sh, r)
       case Done(r) => ConfDone(e, o, sh, r)
       case _ => false
  }

  ghost predicate ConfInv(e: Env, o: Origin, s: State) {
    ConfShared(e, o, s.sh) && forall t | t in s.threads :: ConfThread(e, o, s.sh, s.threads[t])
  }

  /** Slots at or above the scan limit are final from the start. */
  lemma UnscannedIsFinal(e: Env, o: Origin, sh: Shared)
    requires ConfShared(e, o, sh) && FinalTo(e, o, sh, o.limit)
    ensures FinalTo(e, o, sh, e.g.capacity)
  {
    hide Rec;
    forall u: nat | u < e.g.capacity ensures V(e, sh, u)[REC_STATE] == Final(e, o, u) {
      assert Between(e, o, V(e, sh, u), u);
    }
  }

  /** Every memory step of a recoverer keeps bodies, and moves states only to their final value. */
  lemma ConfMemStep(e: Env, o: Origin, sh: Shared, t: Tid, pc: Pc, u: nat)
    requires ConfShared(e, o, sh) && ConfThread(e, o, sh, pc) && !pc.Done? && u < e.g.capacity
    ensures var sh' := StepPc(e, sh, t, pc).sh;
            && SharedOk(e, sh') && Between(e, o, V(e, sh', u), u) && (o.durable ==> Between(e, o, D(e, sh', u), u))
            && (V(e, sh, u)[REC_STATE] == Final(e, o, u) ==> V(e, sh', u)[REC_STATE] == Final(e, o, u))
            && (pc.Mark? && pc.slot == u ==> V(e, sh', u)[REC_STATE] == Final(e, o, u))
  {
    hide Rec, StepPc, FinalTo, Final, FieldsOf;
    assert Between(e, o, V(e, sh, u), u) && (o.durable ==> Between(e, o, D(e, sh, u), u));
    StepEffect(e, sh, t, pc, u);
  }

  lemma FinalToStep(e: Env, o: Origin, sh: Shared, t: Tid, pc: Pc, n: nat)
    requires ConfShared(e, o, sh) && ConfThread(e, o, sh, pc) && !pc.Done? && FinalTo(e, o, sh, n)
    ensures var sh' := StepPc(e, sh, t, pc).sh;
            SharedOk(e, sh') && FinalTo(e, o, sh', n) && (pc.Mark? && pc.slot == n ==> FinalTo(e, o, sh', n + 1))
  {
    hide Rec, StepPc, Final, Between, ConfThread;
    ConfMemStep(e, o, sh, t, pc, 0);
    forall u: nat | u <= n && u < e.g.capacity
      ensures u < n || (pc.Mark? && pc.slot == u) ==> V(e, StepPc(e, sh, t, pc).sh, u)[REC_STATE] == Final(e, o, u)
    {
      ConfMemStep(e, o, sh, t, pc, u);
    }
  }

  /** The words of a step other than memory. */
  lemma ConfWords(e: Env, o: Origin, sh: Shared, t: Tid, pc: Pc)
    requires ConfShared(e, o, sh) && ConfThread(e, o, sh, pc) && !pc.Done?
    ensures var sh' := StepPc(e, sh, t, pc).sh;
            && sh'.reserve == sh.reserve
            && (sh'.committed == sh.committed || (sh'.committed == End(e, o) && pc.Sweeping?))
            && (sh.committed == End(e, o) ==> sh'.committed == End(e, o))
  {
    hide Rec, StepPc, FinalTo, Final, Between, FieldsOf;
    TailEffect(e, sh, t, pc);
    ConfReserve(e, sh, t, pc);
  }

  lemma ConfReserve(e: Env, sh: Shared, t: Tid, pc: Pc)
    requires SharedOk(e, sh) && PcOk(e, pc) && !pc.Done? && (pc.Start? ==> pc.call.RecoverCall?) && !pc.Undo?
    ensures StepPc(e, sh, t, pc).sh.reserve == sh.reserve
  {
    hide Rec, BodyOps, StateByte, Word, LenOf, PayloadOf, SharedOk;
  }

  lemma ConfSharedStep(e: Env, o: Origin, sh: Shared, t: Tid, pc: Pc)
    requires ConfShared(e, o, sh) && ConfThread(e, o, sh, pc) && !pc.Done?
    ensures ConfShared(e, o, StepPc(e, sh, t, pc).sh)
  {
    hide Rec, StepPc, FinalTo, Final, Between, ConfThread, End, PcOk;
    ConfWords(e, o, sh, t, pc);
    ConfMemStep(e, o, sh, t, pc, 0);
    forall u: nat | u < e.g.capacity
      ensures Between(e, o, V(e, StepPc(e, sh, t, pc).sh, u), u)
      ensures o.durable ==> Between(e, o, D(e, StepPc(e, sh, t, pc).sh, u), u)
    {
      ConfMemStep(e, o, sh, t, pc, u);
    }
  }

  /** The other threads' obligations survive. */
  lemma ConfStable(e: Env, o: Origin, sh: Shared, t: Tid, pc: Pc, pc2: Pc)
    requires ConfShared(e, o, sh) && ConfThread(e, o, sh, pc) && !pc.Done? && ConfThread(e, o, sh, pc2)
    ensures SharedOk(e, StepPc(e, sh, t, pc).sh) && ConfThread(e, o, StepPc(e, sh, t, pc).sh, pc2)
  {
    hide Rec, StepPc, FinalTo, Final, Between, ConfShared, FieldsOf;
    ConfWords(e, o, sh, t, pc);
    ConfMemStep(e, o, sh, t, pc, 0);
    match pc2
    case Scan(_, _, u, _) => FinalToStep(e, o, sh, t, pc, u);
    case Mark(_, _, u, _) => FinalToStep(e, o, sh, t, pc, u);
    case MarkFlush(_, _, u, _, _) => FinalToStep(e, o, sh, t, pc, u + 1);
    case Load(_, u, _, _) => FinalToStep(e, o, sh, t, pc, u);
    case Start(_) =>
    case _ => FinalToStep(e, o, sh, t, pc, e.g.capacity);
  }

  lemma ConfScan(e: Env, o: Origin, sh: Shared, pc: Pc)
    requires ConfShared(e, o, sh) && ConfThread(e, o, sh, pc) && pc.Scan?
    ensures ConfThread(e, o, sh, StepRecover(e, sh, pc).pc)
  {
    hide Rec, Decode, Word, LenOf;
    if pc.slot < pc.limit {
      assert Between(e, o, V(e, sh, pc.slot), pc.slot);
    } else {
      UnscannedIsFinal(e, o, sh);
    }
  }

  lemma ConfLoad(e: Env, o: Origin, sh: Shared, pc: Pc)
    requires ConfShared(e, o, sh) && ConfThread(e, o, sh, pc) && pc.Load?
    ensures ConfThread(e, o, sh, StepRead(e, sh, pc).pc)
  {
    hide Rec, Word, LenOf, PayloadOf, SameBody;
    var u := pc.slot;
    assert Between(e, o, V(e, sh, u), u);
    LoadedFields(e, o, V(e, sh, u), u);
    LoadVerdict(e, o, sh, u);
  }

  /** What a load finds in the record is what was there at the start. */
  lemma LoadedFields(e: Env, o: Origin, r: seq<byte>, u: nat)
    requires OriginOk(e, o) && u < e.g.capacity && Image(e.g, r) && Between(e, o, r, u)
    ensures var q := Rec(e.g, o.v, u);
            && Word(e.g, r, REC_TERM) == Word(e.g, q, REC_TERM) && Word(e.g, r, REC_INDEX) == Word(e.g, q, REC_INDEX)
            && LenOf(e.g, r) == LenOf(e.g, q) && Word(e.g, r, REC_CHECKSUM) == Word(e.g, q, REC_CHECKSUM)
            && PayloadOf(e.g, r, LenOf(e.g, q)) == PayloadOf(e.g, q, LenOf(e.g, q))
  {
    hide Rec, Intact;
    DecodeSameBody(e, Rec(e.g, o.v, u), r);
  }

  lemma LoadVerdict(e: Env, o: Origin, sh: Shared, u: nat)
    requires ConfShared(e, o, sh) && u < o.limit && FinalTo(e, o, sh, u) && StateOf(e.g, o.v, u) == STATE_COMMITTED
    ensures var q := Rec(e.g, o.v, u);
            var data := PayloadOf(e.g, q, LenOf(e.g, q));
            if e.crc(Word(e.g, q, REC_TERM), Word(e.g, q, REC_INDEX), data) == Word(e.g, q, REC_CHECKSUM)
            then FinalTo(e, o, sh, u + 1) else Final(e, o, u) == STATE_ABANDONED
  {
    hide Rec, Word, LenOf, PayloadOf;
    assert Between(e, o, V(e, sh, u), u);
  }

  /** The tail's end, and what a scan finds at a slot once all are final. */
  lemma EndFacts(e: Env, o: Origin, sh: Shared, n: nat)
    requires OriginOk(e, o) && SharedOk(e, sh) && FinalTo(e, o, sh, e.g.capacity)
    ensures o.committed <= End(e, o)
    ensures o.committed <= n < End(e, o) ==> n < e.g.capacity && StateByte(e, sh, n) == STATE_COMMITTED
    ensures n == End(e, o) && n < e.g.capacity ==> StateByte(e, sh, n) != STATE_COMMITTED
  {
    hide Rec, TailEnd, FinalState;
    TailEndIsMaximal(e, o.v, o.limit, o.committed);
    if n < e.g.capacity {
      assert V(e, sh, n)[REC_STATE] == Final(e, o, n);
    }
  }

  lemma ConfSweepStep(e: Env, o: Origin, sh: Shared, pc: Pc)
    requires ConfShared(e, o, sh) && ConfThread(e, o, sh, pc) && pc.Sweeping?
    ensures var m := StepSweep(e, sh, pc); SharedOk(e, m.sh) && ConfThread(e, o, m.sh, m.pc)
  {
    hide Rec, End, Final, StateByte, Between;
    if pc.sweep.ScanFrom? {
      EndFacts(e, o, sh, pc.sweep.new_);
    } else {
      EndFacts(e, o, sh, 0);
    }
  }

  lemma ConfOwn(e: Env, o: Origin, sh: Shared, t: Tid, pc: Pc)
    requires ConfShared(e, o, sh) && ConfThread(e, o, sh, pc) && !pc.Done?
    ensures var m := StepPc(e, sh, t, pc); SharedOk(e, m.sh) && ConfThread(e, o, m.sh, m.pc)
  {
    hide Rec, Between, FinalTo, Apply, FieldsOf, StepSweep, StepRead, Final, End;
    ConfSharedStep(e, o, sh, t, pc);
    match pc
    case Start(_) => NoneFinal(e, o, sh);
    case Scan(_, _, _, _) => hide StepRecover; ConfScan(e, o, sh, pc);
    case Mark(_, _, u, _) => FinalToStep(e, o, sh, t, pc, u);
    case MarkFlush(_, _, u, _, _) => FinalToStep(e, o, sh, t, pc, u + 1);
    case Load(_, _, _, _) => ConfLoad(e, o, sh, pc); ConfLoadQuiet(e, sh, pc);
    case Sweeping(_, _) => ConfSweepStep(e, o, sh, pc);
    case CountRun(_, r) => FinalToStep(e, o, sh, t, pc, e.g.capacity);
    case CountFound(_, r) => FinalToStep(e, o, sh, t, pc, e.g.capacity);
  }

  lemma NoneFinal(e: Env, o: Origin, sh: Shared)
    requires OriginOk(e, o) && SharedOk(e, sh)
    ensures FinalTo(e, o, sh, 0)
  {
  }

  lemma ConfLoadQuiet(e: Env, sh: Shared, pc: Pc)
    requires SharedOk(e, sh) && PcOk(e, pc) && pc.Load?
    ensures StepRead(e, sh, pc).sh == sh
  {
    hide Rec, Word, LenOf, PayloadOf;
  }

  lemma ConfAction(e: Env, o: Origin, s: State, a: Action)
    requires ConfInv(e, o, s) && Enabled(e, s, a) && RecoverOnly(s, a) && (a.Crash? ==> o.durable)
    ensures ConfInv(e, o, Do(e, s, a))
  {
    hide Rec, ConfThread, StepPc, End;
    var s' := Do(e, s, a);
    match a
    case Step(t) =>
      ConfSharedStep(e, o, s.sh, t, s.threads[t]);
      ConfOwn(e, o, s.sh, t, s.threads[t]);
      forall x | x in s'.threads ensures ConfThread(e, o, s'.sh, s'.threads[x]) {
        if x != t {
          ConfStable(e, o, s.sh, t, s.threads[t], s.threads[x]);
        }
      }
    case Evict(line) => ConfEvict(e, o, s, line);
    case Crash => ConfQuiet(e, o, s, s');
    case Kill(t) => ConfQuiet(e, o, s, s');
    case Return(t) => ConfQuiet(e, o, s, s');
    case Invoke(t, call) => ConfQuiet(e, o, s, s');
  }

  lemma ConfEvict(e: Env, o: Origin, s: State, line: nat)
    requires ConfInv(e, o, s)
    ensures ConfInv(e, o, Do(e, s, Evict(line)))
  {
    hide Rec, End, FieldsOf;
    var sh' := Do(e, s, Evict(line)).sh;
    forall u: nat | u < e.g.capacity
      ensures V(e, sh', u) == V(e, s.sh, u) && (o.durable ==> Between(e, o, D(e, sh', u), u))
    {
      LineFacts(e, s.sh, line, u);
      assert (o.durable ==> Between(e, o, D(e, s.sh, u), u)) && Between(e, o, V(e, s.sh, u), u);
    }
    forall t | t in s.threads ensures ConfThread(e, o, sh', s.threads[t]) {
      SameView(e, o, s.sh, sh', s.threads[t]);
    }
  }

  lemma SameView(e: Env, o: Origin, sh: Shared, sh': Shared, pc: Pc)
    requires OriginOk(e, o) && SharedOk(e, sh) && SharedOk(e, sh') && ConfThread(e, o, sh, pc)
    requires sh.committed == sh'.committed
    requires forall u: nat | u < e.g.capacity :: V(e, sh', u) == V(e, sh, u)
    ensures ConfThread(e, o, sh', pc)
  {
    hide Rec, End, FieldsOf, Final;
    forall n: nat ensures FinalTo(e, o, sh, n) ==> FinalTo(e, o, sh', n) {
    }
  }

  lemma ConfQuiet(e: Env, o: Origin, s: State, s': State)
    requires ConfInv(e, o, s) && SharedOk(e, s'.sh) && s'.sh.committed == s.sh.committed
    requires s'.sh.reserve == s.sh.reserve
    requires s'.sh.mem == s.sh.mem
             || (o.durable && s'.sh.mem == Mem(s.sh.mem.dur, s.sh.mem.dur) && s'.threads == map[])
    requires forall t | t in s'.threads ::
               (t in s.threads && s'.threads[t] == s.threads[t])
               || (s'.threads[t].Start? && s'.threads[t].call.RecoverCall? && PcOk(e, s'.threads[t]))
    ensures ConfInv(e, o, s')
  {
    hide Rec, End, FieldsOf, Final;
    forall u: nat | u < e.g.capacity
      ensures Between(e, o, V(e, s'.sh, u), u) && (o.durable ==> Between(e, o, D(e, s'.sh, u), u))
    {
      assert Between(e, o, V(e, s.sh, u), u) && (o.durable ==> Between(e, o, D(e, s.sh, u), u));
    }
    forall t | t in s'.threads ensures ConfThread(e, o, s'.sh, s'.threads[t]) {
      if t in s.threads && s'.threads[t] == s.threads[t] {
        SameView(e, o, s.sh, s'.sh, s.threads[t]);
      }
    }
  }

  lemma {:induction false} ConfRun(e: Env, o: Origin, s: State, as_: seq<Action>)
    requires ConfInv(e, o, s) && RunFrom(e, s, as_, RecoverOnly) && (o.durable || CrashFree(as_))
    ensures ConfInv(e, o, After(e, s, as_, RecoverOnly))
    decreases |as_|
  {
    if as_ != [] {
      ConfAction(e, o, s, as_[0]);
      ConfRun(e, o, Do(e, s, as_[0]), as_[1..]);
    }
  }

  // ---- How many slots a recoverer counts ----

  /** The slots among the first n that one uninterrupted recovery of the origin abandons. */
  function BrokenTo(e: Env, o: Origin, n: nat): nat
    requires OriginOk(e, o) && n <= e.g.capacity
  {
    Recovery.BrokenCount(e, o.v, n)
  }

  ghost predicate BrokenAt(e: Env, o: Origin, u: nat)
    requires OriginOk(e, o) && u < e.g.capacity
  {
    Recovery.Broken(e, Rec(e.g, o.v, u))
  }

  /** A recoverer has counted at most the broken slots it has passed; some may have been fixed by others. */
  ghost predicate CountOk(e: Env, o: Origin, pc: Pc)
    requires OriginOk(e, o) && PcOk(e, pc)
  {
    match pc
    case Scan(_, _, u, n) => n <= BrokenTo(e, o, u)
    case Mark(_, _, u, n) => n <= BrokenTo(e, o, u) && BrokenAt(e, o, u)
    case MarkFlush(_, _, u, n, _) => n <= BrokenTo(e, o, u) && BrokenAt(e, o, u)
    case Load(ForScan(_, _, n), u, _, _) => n <= BrokenTo(e, o, u)
    case Sweeping(ForRecover(_, _, n), _) => n <= BrokenTo(e, o, o.limit)
    case CountRun(_, r) => r.abandoned <= BrokenTo(e, o, o.limit)
    case CountFound(_, r) => r.abandoned <= BrokenTo(e, o, o.limit)
    case Done(r) => r.Recovered? ==> r.abandoned <= BrokenTo(e, o, o.limit)
    case _ => true
  }

  lemma BrokenUp(e: Env, o: Origin, u: nat)
    requires OriginOk(e, o) && u < e.g.capacity
    ensures BrokenTo(e, o, u + 1) == BrokenTo(e, o, u) + if BrokenAt(e, o, u) then 1 else 0
    ensures BrokenTo(e, o, 0) == 0
  {
    hide Rec;
  }

  /** A slot that a scan finds neither FREE, ABANDONED nor COMMITTED was broken from the start. */
  lemma FoundBroken(e: Env, o: Origin, sh: Shared, u: nat)
    requires ConfShared(e, o, sh) && u < o.limit
    requires StateByte(e, sh, u) !in {STATE_FREE, STATE_ABANDONED, STATE_COMMITTED}
    ensures BrokenAt(e, o, u)
  {
    hide Rec, Intact;
    assert Between(e, o, V(e, sh, u), u);
  }

  lemma VerdictBroken(e: Env, o: Origin, u: nat)
    requires OriginOk(e, o) && u < o.limit && StateOf(e.g, o.v, u) == STATE_COMMITTED
    requires Final(e, o, u) == STATE_ABANDONED
    ensures BrokenAt(e, o, u)
  {
    hide Rec, Intact;
  }

  lemma CountScan(e: Env, o: Origin, sh: Shared, t: Tid, pc: Pc)
    requires ConfShared(e, o, sh) && ConfThread(e, o, sh, pc) && CountOk(e, o, pc) && pc.Scan?
    requires PcOk(e, StepRecover(e, sh, pc).pc)
    ensures CountOk(e, o, StepRecover(e, sh, pc).pc)
  {
    hide Rec, BrokenTo, BrokenAt, FinalTo, Between, StateByte, Final;
    if pc.slot < pc.limit {
      BrokenUp(e, o, pc.slot);
      if StateByte(e, sh, pc.slot) !in {STATE_FREE, STATE_ABANDONED, STATE_COMMITTED} {
        FoundBroken(e, o, sh, pc.slot);
      }
    }
  }

  lemma CountLoad(e: Env, o: Origin, sh: Shared, t: Tid, pc: Pc)
    requires ConfShared(e, o, sh) && ConfThread(e, o, sh, pc) && CountOk(e, o, pc) && pc.Load?
    requires var next := StepRead(e, sh, pc).pc; ConfThread(e, o, sh, next)
    ensures CountOk(e, o, StepRead(e, sh, pc).pc)
  {
    hide Rec, BrokenTo, BrokenAt, FinalTo, Between, Final, Word, LenOf, PayloadOf, FieldsOf;
    BrokenUp(e, o, pc.slot);
    if StepRead(e, sh, pc).pc.Mark? {
      VerdictBroken(e, o, pc.slot);
    }
  }

  lemma CountSweep(e: Env, o: Origin, sh: Shared, pc: Pc)
    requires ConfShared(e, o, sh) && ConfThread(e, o, sh, pc) && CountOk(e, o, pc) && pc.Sweeping?
    requires PcOk(e, StepSweep(e, sh, pc).pc)
    ensures CountOk(e, o, StepSweep(e, sh, pc).pc)
  {
    hide Rec, BrokenTo, FinalTo, Between, StateByte, End, Final;
  }

  lemma CountOwn(e: Env, o: Origin, sh: Shared, t: Tid, pc: Pc)
    requires ConfShared(e, o, sh) && ConfThread(e, o, sh, pc) && CountOk(e, o, pc) && !pc.Done?
    ensures PcOk(e, StepPc(e, sh, t, pc).pc) && CountOk(e, o, StepPc(e, sh, t, pc).pc)
  {
    hide Rec, BrokenTo, BrokenAt, FinalTo, Between, StepSweep, StepRead, Final, End, FieldsOf, Apply;
    ConfOwn(e, o, sh, t, pc);
    match pc
    case Start(_) => BrokenUp(e, o, 0);
    case Scan(_, _, _, _) => CountScan(e, o, sh, t, pc);
    case MarkFlush(_, _, u, _, _) => BrokenUp(e, o, u);
    case Load(_, _, _, _) => ConfLoad(e, o, sh, pc); CountLoad(e, o, sh, t, pc);
    case Sweeping(_, _) => CountSweep(e, o, sh, pc);
    case _ =>
  }

  ghost predicate CountsOk(e: Env, o: Origin, s: State) {
    OriginOk(e, o) && forall t | t in s.threads :: PcOk(e, s.threads[t]) && CountOk(e, o, s.threads[t])
  }

  lemma CountsAction(e: Env, o: Origin, s: State, a: Action)
    requires ConfInv(e, o, s) && CountsOk(e, o, s) && Enabled(e, s, a) && RecoverOnly(s, a)
    ensures CountsOk(e, o, Do(e, s, a))
  {
    hide ConfShared, ConfThread, CountOk, StepPc, PcOk;
    if a.Step? {
      CountOwn(e, o, s.sh, a.t, s.threads[a.t]);
    } else if a.Invoke? {
      StartCounts(e, o, a.call);
    }
  }

  lemma StartCounts(e: Env, o: Origin, call: Call)
    requires OriginOk(e, o) && CallOk(e.g, call)
    ensures PcOk(e, Start(call)) && CountOk(e, o, Start(call))
  {
  }

  lemma {:induction false} CountsRun(e: Env, o: Origin, s: State, as_: seq<Action>)
    requires ConfInv(e, o, s) && CountsOk(e, o, s) && RunFrom(e, s, as_, RecoverOnly) && (o.durable || CrashFree(as_))
    ensures CountsOk(e, o, After(e, s, as_, RecoverOnly))
    decreases |as_|
  {
    hide ConfInv, CountsOk;
    if as_ != [] {
      ConfAction(e, o, s, as_[0]);
      CountsAction(e, o, s, as_[0]);
      CountsRun(e, o, Do(e, s, as_[0]), as_[1..]);
    }
  }

  /** A pool with any contents whatever, durable or not, and nobody at work on it. */
  ghost predicate Stopped(e: Env, s: State) { SharedOk(e, s.sh) && s.threads == map[] }

  function OriginOf(e: Env, s: State): Origin
    requires e.g.Ok()
  {
    Origin(s.sh.mem.vol, s.sh.committed, ScanLimit(e.g, s.sh.reserve), s.sh.mem.vol == s.sh.mem.dur)
  }

  lemma StoppedConf(e: Env, s: State)
    requires Stopped(e, s)
    ensures ConfInv(e, OriginOf(e, s), s)
  {
    hide Rec, End, Final;
  }

  /** From any pool contents, its writers stopped or killed with lines still dirty: whatever recoverers run, however
      they interleave, wherever some of them are killed and with whatever lines written back, whenever a recoverer
      returns, every slot is visibly in the state that one uninterrupted recovery of the original visible contents
      gives it, no other byte of any record has changed, and committed_tail and the reported tail and scan are those of
      that one recovery, which abandons at least as many slots as any of these recoverers reports. If all contents were
      durable at the start, the power may also fail, any number of times and anywhere. */
  lemma RecoveryIsConfluent(e: Env, s: State, as_: seq<Action>, t: Tid)
    requires Stopped(e, s) && RunFrom(e, s, as_, RecoverOnly) && (s.sh.mem.vol == s.sh.mem.dur || CrashFree(as_))
    requires var s' := After(e, s, as_, RecoverOnly); t in s'.threads && s'.threads[t].Done?
    ensures var s' := After(e, s, as_, RecoverOnly);
            var limit := ScanLimit(e.g, s.sh.reserve);
            var tail := TailEnd(e, s.sh.mem.vol, limit, s.sh.committed);
            && SharedOk(e, s'.sh)
            && (forall u: nat | u < e.g.capacity ::
                  && SameBody(V(e, s.sh, u), V(e, s'.sh, u))
                  && V(e, s'.sh, u)[REC_STATE] == FinalState(e, s.sh.mem.vol, limit, u))
            && s'.sh.committed == tail
            && s'.threads[t].reply.Recovered? && s'.threads[t].reply.tail == tail
            && s'.threads[t].reply.scanned == limit
            && s'.threads[t].reply.abandoned <= Recovery.BrokenCount(e, s.sh.mem.vol, limit)
  {
    hide Rec, FinalState, TailEnd, Recovery.BrokenCount;
    var o := OriginOf(e, s);
    StoppedConf(e, s);
    ConfRun(e, o, s, as_);
    CountsRun(e, o, s, as_);
    var s' := After(e, s, as_, RecoverOnly);
    assert ConfThread(e, o, s'.sh, s'.threads[t]);
    forall u: nat | u < e.g.capacity
      ensures SameBody(V(e, s.sh, u), V(e, s'.sh, u))
      ensures V(e, s'.sh, u)[REC_STATE] == FinalState(e, s.sh.mem.vol, o.limit, u)
    {
      assert Between(e, o, V(e, s'.sh, u), u);
    }
  }

  /** What recovery makes of a slot below the tail of a pool that satisfies the invariant. */
  lemma Regained(e: Env, s: State, as_: seq<Action>, t: Tid, u: nat)
    requires SharedInv(e, s.sh) && |s.sh.grants| <= s.sh.reserve && s.threads == map[] && u < s.sh.committed
    requires RunFrom(e, s, as_, RecoverOnly) && (s.sh.mem.vol == s.sh.mem.dur || CrashFree(as_))
    requires var s' := After(e, s, as_, RecoverOnly); t in s'.threads && s'.threads[t].Done?
    ensures var s' := After(e, s, as_, RecoverOnly);
            && SharedOk(e, s'.sh) && u < e.g.capacity && u < |s.sh.grants| && ArgsOk(e.g, s.sh.grants[u].args)
            && V(e, s'.sh, u)[REC_STATE] in {STATE_COMMITTED, STATE_ABANDONED}
            && (V(e, s'.sh, u)[REC_STATE] == STATE_COMMITTED <==> V(e, s.sh, u)[REC_STATE] == STATE_COMMITTED)
            && Content(e, V(e, s'.sh, u), u, s.sh.grants[u].args)
            && s.sh.committed <= s'.sh.committed
  {
    hide Rec, TailEnd, Content, RunFrom, After, Decode;
    RecoveryIsConfluent(e, s, as_, t);
    var s' := After(e, s, as_, RecoverOnly);
    assert SlotInv(e, s.sh, u);
    LandedGranted(e, s.sh, s.sh.committed - 1);
    LandedGranted(e, s.sh, u);
    TailEndIsMaximal(e, s.sh.mem.vol, ScanLimit(e.g, s.sh.reserve), s.sh.committed);
    ContentReadsBack(e, V(e, s.sh, u), u, s.sh.grants[u].args);
    ContentSameBody(e, V(e, s.sh, u), V(e, s'.sh, u), u, s.sh.grants[u].args);
  }

  lemma LandedGranted(e: Env, sh: Shared, u: nat)
    requires SharedInv(e, sh) && u in sh.landed
    ensures u < |sh.grants|
  {
    assert SlotInv(e, sh, u);
  }

  /** After any run whose threads have all returned or died, without a power failure, and a completed recovery: every
      slot below the tail is COMMITTED or ABANDONED with its owner's content, COMMITTED exactly if it visibly was, and
      the tail has not moved back. */
  lemma StopThenRecover(e: Env, before: seq<Action>, s: State, as_: seq<Action>, t: Tid, u: nat)
    requires Reached(e, before, s) && s.threads == map[] && u < s.sh.committed
    requires RunFrom(e, s, as_, RecoverOnly) && CrashFree(as_)
    requires var s' := After(e, s, as_, RecoverOnly); t in s'.threads && s'.threads[t].Done?
    ensures var s' := After(e, s, as_, RecoverOnly);
            && SharedOk(e, s'.sh) && SharedOk(e, s.sh) && u < e.g.capacity && u < |s.sh.grants|
            && ArgsOk(e.g, s.sh.grants[u].args)
            && V(e, s'.sh, u)[REC_STATE] in {STATE_COMMITTED, STATE_ABANDONED}
            && (V(e, s'.sh, u)[REC_STATE] == STATE_COMMITTED <==> V(e, s.sh, u)[REC_STATE] == STATE_COMMITTED)
            && Content(e, V(e, s'.sh, u), u, s.sh.grants[u].args)
            && s.sh.committed <= s'.sh.committed
  {
    hide Rec, Content, RunFrom, After, Reached, SharedInv;
    ReachedInv(e, before, s);
    ReservationsAreExact(e, before, s);
    Regained(e, s, as_, t, u);
  }

  /** After a crash in any run and a completed recovery, every slot below the crashed tail is COMMITTED or ABANDONED
      with its owner's content, COMMITTED exactly if it durably was, and the tail has not moved back. */
  lemma CrashThenRecover(e: Env, before: seq<Action>, s: State, as_: seq<Action>, t: Tid, u: nat)
    requires Reached(e, before, s) && Enabled(e, s, Crash) && u < s.sh.committed
    requires RunFrom(e, Do(e, s, Crash), as_, RecoverOnly)
    requires var s' := After(e, Do(e, s, Crash), as_, RecoverOnly); t in s'.threads && s'.threads[t].Done?
    ensures var s' := After(e, Do(e, s, Crash), as_, RecoverOnly);
            && SharedOk(e, s'.sh) && SharedOk(e, s.sh) && u < e.g.capacity && u < |s.sh.grants|
            && ArgsOk(e.g, s.sh.grants[u].args)
            && V(e, s'.sh, u)[REC_STATE] in {STATE_COMMITTED, STATE_ABANDONED}
            && (V(e, s'.sh, u)[REC_STATE] == STATE_COMMITTED <==> D(e, s.sh, u)[REC_STATE] == STATE_COMMITTED)
            && Content(e, V(e, s'.sh, u), u, s.sh.grants[u].args)
            && s.sh.committed <= s'.sh.committed
  {
    hide Rec, Content, RunFrom, After, Reached, SharedInv, ThreadInv, CounterInv;
    ReachedInv(e, before, s);
    TailNeverOutrunsMedia(e, before, s, u);
    ReservationsAreExact(e, before, s);
    CrashInv(e, s.sh);
    CrashedView(e, s, u);
    Regained(e, Do(e, s, Crash), as_, t, u);
  }

  lemma CrashedView(e: Env, s: State, u: nat)
    requires Enabled(e, s, Crash) && u < e.g.capacity && SharedInv(e, s.sh.(mem := Mem(s.sh.mem.dur, s.sh.mem.dur)))
    ensures var c := Do(e, s, Crash); SharedInv(e, c.sh) && V(e, c.sh, u) == D(e, s.sh, u)
  {
    var c := Do(e, s, Crash);
    forall w: nat | w < e.g.capacity ensures SlotInv(e, c.sh, w) {
      assert SlotInv(e, s.sh.(mem := Mem(s.sh.mem.dur, s.sh.mem.dur)), w);
    }
  }
}
