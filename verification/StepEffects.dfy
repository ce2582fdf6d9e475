/** What one step of one thread does to the state byte of each record, from any pool contents. */
module StepEffects {
  import opened Bytes
  import opened Layout
  import opened Media
  import opened Records
  import opened Protocol
  import opened ProtocolInv

  /** The state byte the next step of a thread at pc stores, and where. */
  function StoredState(pc: Pc): Option<(nat, byte)> {
    match pc
    case Body(u, _, k) => if k == 0 then Some((u, STATE_WRITING)) else None
    case Commit(u, _) => Some((u, STATE_COMMITTED))
    case Mark(_, _, u, _) => Some((u, STATE_ABANDONED))
    case TrimMark(_, u, _) => Some((u, STATE_ABANDONED))
    case _ => None
  }

  /** The line the next step of a thread at pc writes back. */
  function FlushedLine(g: Geometry, pc: Pc): Option<nat> {
    match pc
    case FlushRecord(u, _, j) => Some(g.RecordOffset(u) / CACHELINE + j)
    case FlushState(u, _, j) => Some(g.RecordOffset(u) / CACHELINE + j)
    case MarkFlush(_, _, u, _, j) => Some(g.RecordOffset(u) / CACHELINE + j)
    case TrimFlush(_, u, _, j) => Some(g.RecordOffset(u) / CACHELINE + j)
    case _ => None
  }

  /** The slot whose body the next step of a thread at pc writes. */
  function StoredBody(pc: Pc): Option<nat> {
    match pc
    case Body(u, _, k) => if k > 0 then Some(u) else None
    case _ => None
  }

  ghost predicate VolEffect(e: Env, sh: Shared, sh': Shared, pc: Pc, u: nat)
    requires SharedOk(e, sh) && SharedOk(e, sh') && u < e.g.capacity
  {
    && V(e, sh', u)[REC_STATE] == (if StoredState(pc).Some? && StoredState(pc).value.0 == u then StoredState(pc).value.1
                                   else V(e, sh, u)[REC_STATE])
    && (StoredBody(pc) != Some(u) ==> SameBody(V(e, sh', u), V(e, sh, u)))
  }

  ghost predicate DurEffect(e: Env, sh: Shared, sh': Shared, pc: Pc, u: nat)
    requires SharedOk(e, sh) && SharedOk(e, sh') && u < e.g.capacity
  {
    forall k: nat | k < e.g.recordSize ::
      D(e, sh', u)[k] == if FlushedLine(e.g, pc) == Some(LineOf(e.g, u, k)) then V(e, sh, u)[k] else D(e, sh, u)[k]
  }

  lemma StoreStateEffect(e: Env, sh: Shared, pc: Pc, w: nat, x: byte, u: nat)
    requires SharedOk(e, sh) && w < e.g.capacity && u < e.g.capacity
    requires StoredState(pc) == Some((w, x)) && FlushedLine(e.g, pc) == None
    ensures var sh' := StoreState(e, sh, w, x);
            SharedOk(e, sh') && VolEffect(e, sh, sh', pc, u) && DurEffect(e, sh, sh', pc, u)
  {
    hide Rec;
    StoreFacts(e, sh, w, REC_STATE, [x]);
  }

  lemma FlushLineEffect(e: Env, sh: Shared, pc: Pc, w: nat, j: nat, u: nat)
    requires SharedOk(e, sh) && w < e.g.capacity && u < e.g.capacity
    requires StoredState(pc) == None && StoredBody(pc) == None
    requires FlushedLine(e.g, pc) == Some(e.g.RecordOffset(w) / CACHELINE + j)
    ensures var sh' := FlushLine(e, sh, w, j);
            SharedOk(e, sh') && VolEffect(e, sh, sh', pc, u) && DurEffect(e, sh, sh', pc, u)
  {
    hide Rec;
    LineFacts(e, sh, e.g.RecordOffset(w) / CACHELINE + j, u);
  }

  lemma BodyEffect(e: Env, sh: Shared, t: Tid, w: nat, a: Args, k: nat, u: nat)
    requires SharedOk(e, sh) && PcOk(e, Body(w, a, k)) && u < e.g.capacity
    ensures var sh' := StepAppend(e, sh, t, Body(w, a, k)).sh;
            SharedOk(e, sh') && VolEffect(e, sh, sh', Body(w, a, k), u) && DurEffect(e, sh, sh', Body(w, a, k), u)
  {
    hide Rec, BodyOps;
    BodyOpsApart(e, w, a);
    var op := BodyOps(e, w, a)[k];
    StoreFacts(e, sh, w, Rel(e.g, w, op), op.bytes);
  }

  lemma StepEffect(e: Env, sh: Shared, t: Tid, pc: Pc, u: nat)
    requires SharedOk(e, sh) && PcOk(e, pc) && !pc.Done? && u < e.g.capacity
    ensures var sh' := StepPc(e, sh, t, pc).sh;
            SharedOk(e, sh') && VolEffect(e, sh, sh', pc, u) && DurEffect(e, sh, sh', pc, u)
  {
    hide Rec, BodyOps, Apply, StoreState, FlushLine, VolEffect, DurEffect;
    var m := StepPc(e, sh, t, pc);
    match pc
    case Body(w, a, k) => BodyEffect(e, sh, t, w, a, k, u);
    case Commit(w, a) => StoreStateEffect(e, sh, pc, w, STATE_COMMITTED, u);
        SameMem(e, StoreState(e, sh, w, STATE_COMMITTED), m.sh, sh, pc, u);
    case Mark(_, _, w, _) => StoreStateEffect(e, sh, pc, w, STATE_ABANDONED, u);
    case TrimMark(_, w, _) => StoreStateEffect(e, sh, pc, w, STATE_ABANDONED, u);
    case FlushRecord(w, _, j) => FlushLineEffect(e, sh, pc, w, j, u);
        SameMem(e, FlushLine(e, sh, w, j), m.sh, sh, pc, u);
    case FlushState(w, _, j) => FlushLineEffect(e, sh, pc, w, j, u);
    case MarkFlush(_, _, w, _, j) => FlushLineEffect(e, sh, pc, w, j, u);
    case TrimFlush(_, w, _, j) => FlushLineEffect(e, sh, pc, w, j, u);
    case _ => NoEffect(e, sh, t, pc, u);
  }

  lemma SameMem(e: Env, sh1: Shared, sh2: Shared, sh: Shared, pc: Pc, u: nat)
    requires SharedOk(e, sh) && SharedOk(e, sh1) && SharedOk(e, sh2) && u < e.g.capacity && sh1.mem == sh2.mem
    requires VolEffect(e, sh, sh1, pc, u) && DurEffect(e, sh, sh1, pc, u)
    ensures VolEffect(e, sh, sh2, pc, u) && DurEffect(e, sh, sh2, pc, u)
  {
  }

  lemma NoEffect(e: Env, sh: Shared, t: Tid, pc: Pc, u: nat)
    requires SharedOk(e, sh) && PcOk(e, pc) && !pc.Done? && u < e.g.capacity
    requires !pc.Body? && StoredState(pc) == None && FlushedLine(e.g, pc) == None
    ensures var sh' := StepPc(e, sh, t, pc).sh;
            sh'.mem == sh.mem && SharedOk(e, sh') && VolEffect(e, sh, sh', pc, u) && DurEffect(e, sh, sh', pc, u)
  {
    hide Rec, BodyOps, StateByte, Word, LenOf, PayloadOf;
  }

  /** Only a successful compare-exchange moves the tail. */
  lemma TailEffect(e: Env, sh: Shared, t: Tid, pc: Pc)
    requires SharedOk(e, sh) && PcOk(e, pc) && !pc.Done?
    ensures StepPc(e, sh, t, pc).sh.committed
         == if pc.Sweeping? && pc.sweep.SwapTail? && pc.sweep.cur == sh.committed then pc.sweep.new_ else sh.committed
  {
    hide Rec, BodyOps, StateByte, Word, LenOf, PayloadOf, SharedOk;
  }
}
