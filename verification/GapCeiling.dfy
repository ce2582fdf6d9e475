/** A slot whose writer is gone before committing it stops committed_tail for good. */
module GapCeiling {
  import opened Layout
  import opened Records
  import opened Protocol
  import opened ProtocolInv
  import opened ProtocolSteps
  import opened StepEffects
  import opened Safety

  /** The thread may still store COMMITTED in slot u, or has already passed it in a sweep. */
  predicate Pending(pc: Pc, u: nat) {
    match pc
    case Body(w, _, _) => w == u
    case FlushRecord(w, _, _) => w == u
    case Commit(w, _) => w == u
    case Sweeping(_, ScanFrom(_, _, _, new_)) => new_ > u
    case Sweeping(_, SwapTail(_, _, _, new_)) => new_ > u
    case _ => false
  }

  /** Slot u was granted, the tail is not past it, it is not COMMITTED, and nobody is going to make it so. */
  ghost predicate Gap(e: Env, s: State, u: nat)
  {
    && SharedOk(e, s.sh) && u < e.g.capacity && s.sh.committed <= u < |s.sh.grants|
    && V(e, s.sh, u)[REC_STATE] != STATE_COMMITTED && D(e, s.sh, u)[REC_STATE] != STATE_COMMITTED
    && forall t | t in s.threads :: !Pending(s.threads[t], u)
  }

  /** A stepping thread does not become one that may commit u or has passed it. */
  lemma NotPendingAfter(e: Env, sh: Shared, t: Tid, pc: Pc, u: nat)
    requires SharedOk(e, sh) && PcOk(e, pc) && !pc.Done? && u < e.g.capacity && u < |sh.grants| && sh.committed <= u
    requires !Pending(pc, u) && StateByte(e, sh, u) != STATE_COMMITTED
    requires sh.reserve < e.g.capacity ==> sh.reserve == |sh.grants|
    ensures !Pending(StepPc(e, sh, t, pc).pc, u)
  {
    hide Rec, BodyOps, StateByte, Word, LenOf, PayloadOf, SharedOk;
  }

  lemma GapStep(e: Env, s: State, t: Tid, u: nat)
    requires Inv(e, s) && Enabled(e, s, Step(t)) && NoWrapAhead(s) && Gap(e, s, u)
    ensures Gap(e, Do(e, s, Step(t)), u)
  {
    hide SharedInv, Rec, StepPc, CounterInv, Guar;
    var pc := s.threads[t];
    CounterReads(e, s);
    ActionGrows(e, s, Step(t));
    StepEffect(e, s.sh, t, pc, u);
    TailEffect(e, s.sh, t, pc);
    NotPendingAfter(e, s.sh, t, pc, u);
    assert StoredState(pc).Some? && StoredState(pc).value == (u, STATE_COMMITTED) ==> Pending(pc, u);
    assert u < |Do(e, s, Step(t)).sh.grants|;
  }

  lemma GapAction(e: Env, s: State, a: Action, u: nat)
    requires Inv(e, s) && Enabled(e, s, a) && NoWrapAhead(s) && Gap(e, s, u)
    ensures Gap(e, Do(e, s, a), u)
  {
    hide SharedInv, Rec, StepPc, CounterInv, ThreadInv;
    match a
    case Step(t) => GapStep(e, s, t, u);
    case Evict(line) => LineFacts(e, s.sh, line, u);
    case _ =>
  }

  /** In every continuation of appends, reads, trims, recoveries, deaths and crashes, the tail stays at or below a
      gap. */
  lemma {:induction false} GapIsPermanent(e: Env, s: State, as_: seq<Action>, u: nat)
    requires Inv(e, s) && RunFrom(e, s, as_, AnyRun) && Gap(e, s, u)
    ensures After(e, s, as_, AnyRun).sh.committed <= u && Gap(e, After(e, s, as_, AnyRun), u)
    decreases |as_|
  {
    if as_ != [] {
      ActionInv(e, s, as_[0]);
      GapAction(e, s, as_[0], u);
      GapIsPermanent(e, Do(e, s, as_[0]), as_[1..], u);
    }
  }

  /** After a crash, the gaps are exactly the granted slots at or above the tail whose COMMITTED state did not
      survive. */
  lemma CrashGapsIff(e: Env, s: State, u: nat)
    requires Enabled(e, s, Crash)
    ensures Gap(e, Do(e, s, Crash), u) <==>
              u < e.g.capacity && s.sh.committed <= u < |s.sh.grants| && D(e, s.sh, u)[REC_STATE] != STATE_COMMITTED
  {
    hide Rec;
    if u < e.g.capacity {
      assert V(e, Do(e, s, Crash).sh, u) == D(e, s.sh, u);
    }
  }

  /** Each of them is a ceiling on the tail forever. */
  lemma CrashedWriterIsACeiling(e: Env, before: seq<Action>, s: State, u: nat, as_: seq<Action>)
    requires Reached(e, before, s) && NoWrapAhead(s) && Enabled(e, s, Crash)
    requires u < e.g.capacity && s.sh.committed <= u < |s.sh.grants| && D(e, s.sh, u)[REC_STATE] != STATE_COMMITTED
    requires RunFrom(e, Do(e, s, Crash), as_, AnyRun)
    ensures Gap(e, Do(e, s, Crash), u)
    ensures After(e, Do(e, s, Crash), as_, AnyRun).sh.committed <= u
  {
    ReachedInv(e, before, s);
    ActionInv(e, s, Crash);
    CrashGapsIff(e, s, u);
    GapIsPermanent(e, Do(e, s, Crash), as_, u);
  }

  /** A writer that dies before storing COMMITTED, with its memory intact, leaves the same ceiling. */
  lemma DeadWriterIsACeiling(e: Env, before: seq<Action>, s: State, t: Tid, u: nat, as_: seq<Action>)
    requires Reached(e, before, s) && NoWrapAhead(s) && t in s.threads
    requires var pc := s.threads[t]; (pc.Body? || pc.FlushRecord? || pc.Commit?) && pc.slot == u
    requires Enabled(e, s, Kill(t)) && RunFrom(e, Do(e, s, Kill(t)), as_, AnyRun)
    ensures Gap(e, Do(e, s, Kill(t)), u)
    ensures After(e, Do(e, s, Kill(t)), as_, AnyRun).sh.committed <= u
  {
    ReachedInv(e, before, s);
    UncommittedAhead(e, s, t, u);
    ActionInv(e, s, Kill(t));
    assert Gap(e, Do(e, s, Kill(t)), u) by {
      hide Rec, Written, Content;
    }
    GapIsPermanent(e, Do(e, s, Kill(t)), as_, u);
  }

  lemma UncommittedAhead(e: Env, s: State, t: Tid, u: nat)
    requires Inv(e, s) && t in s.threads
    requires var pc := s.threads[t]; (pc.Body? || pc.FlushRecord? || pc.Commit?) && pc.slot == u
    ensures SharedOk(e, s.sh) && u < e.g.capacity && s.sh.committed <= u < |s.sh.grants|
    ensures V(e, s.sh, u)[REC_STATE] != STATE_COMMITTED && D(e, s.sh, u)[REC_STATE] != STATE_COMMITTED
    ensures forall x | x in s.threads && x != t :: !Pending(s.threads[x], u)
  {
    hide Rec, Written, Content;
    assert ThreadInv(e, s.sh, t, s.threads[t]);
    assert u !in s.sh.landed;
    assert SlotInv(e, s.sh, u);
    forall x | x in s.threads && x != t ensures !Pending(s.threads[x], u) {
      assert ThreadInv(e, s.sh, x, s.threads[x]);
    }
  }

  /** A gap does not stop appends: a reservation in a pool that is not full still gets its slot. */
  lemma AppendsGoOnPastAGap(e: Env, before: seq<Action>, s: State, u: nat, t: Tid, a: Args)
    requires Reached(e, before, s) && NoWrapAhead(s) && Gap(e, s, u) && |s.sh.grants| < e.g.capacity
    requires t in s.threads && s.threads[t] == Start(AppendCall(a)) && |a.data| <= e.g.payloadSize
    ensures Enabled(e, s, Step(t))
    ensures var s' := Do(e, s, Step(t)); s'.threads[t] == Body(|s.sh.grants|, a, 0) && Gap(e, s', u)
  {
    ReservationStep(e, before, s, t, a);
    ReachedInv(e, before, s);
    GapStep(e, s, t, u);
  }
}
