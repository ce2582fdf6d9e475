/** An acknowledged append stays COMMITTED, visibly and durably, until a trim covers it, exactly if no recover has
    already decided to abandon its slot. */
module Durability {
  import opened Bytes
  import opened Layout
  import opened Records
  import opened Protocol
  import opened ProtocolInv
  import opened ProtocolSteps
  import opened StepEffects
  import opened Safety

  /** Between reserving a slot and storing COMMITTED. */
  predicate MidAppend(pc: Pc) { pc.Body? || pc.FlushRecord? || pc.Commit? }

  /** A recover that has found slot u broken, and whose next step abandons it. */
  predicate MarkedBy(pc: Pc, u: nat) { pc.Mark? && pc.slot == u }

  predicate Unmarked(s: State, u: nat) { forall t | t in s.threads :: !MarkedBy(s.threads[t], u) }

  ghost predicate Seen(e: Env, sh: Shared, u: nat)
    requires SharedOk(e, sh) && u < e.g.capacity
  {
    V(e, sh, u)[REC_STATE] == STATE_COMMITTED
  }

  ghost predicate Durable(e: Env, sh: Shared, u: nat)
    requires SharedOk(e, sh) && u < e.g.capacity
  {
    Seen(e, sh, u) && D(e, sh, u)[REC_STATE] == STATE_COMMITTED
  }

  // ---- What the history variables say ----

  /** The bound of every trim under way is counted in the horizon. */
  predicate TrimsBounded(s: State) {
    forall t | t in s.threads ::
      (s.threads[t].TrimScan? || s.threads[t].TrimMark? || s.threads[t].TrimFlush?) ==>
            s.threads[t].upTo <= s.sh.horizon
  }

  lemma HistoryEffect(e: Env, sh: Shared, t: Tid, pc: Pc)
    requires SharedOk(e, sh) && PcOk(e, pc) && !pc.Done?
    ensures var m := StepPc(e, sh, t, pc);
            && sh.acked <= m.sh.acked <= (if pc.CountBytes? then sh.acked + {pc.slot} else sh.acked)
            && sh.horizon <= m.sh.horizon
            && (pc.CountBytes? ==> pc.slot in m.sh.acked)
            && (m.pc.TrimScan? || m.pc.TrimMark? || m.pc.TrimFlush? ==>
                  m.pc.upTo <= m.sh.horizon || (!pc.Start? && (pc.TrimScan? || pc.TrimMark? || pc.TrimFlush?)
                      && m.pc.upTo == pc.upTo))
  {
    hide Rec, BodyOps, StateByte, Word, LenOf, PayloadOf, SharedOk;
  }

  lemma TrimsBoundedAction(e: Env, s: State, a: Action)
    requires Enabled(e, s, a) && TrimsBounded(s)
    ensures TrimsBounded(Do(e, s, a)) && s.sh.horizon <= Do(e, s, a).sh.horizon && s.sh.acked <= Do(e, s, a).sh.acked
  {
    hide SharedOk, StepPc;
    if a.Step? {
      HistoryEffect(e, s.sh, a.t, s.threads[a.t]);
    }
  }

  // ---- A COMMITTED slot beyond every trim, which no recover is about to abandon ----

  /** A step keeps a slot beyond every trim COMMITTED, unless it is the abandoning store of a recover. */
  lemma StepKeepsCommitted(e: Env, sh: Shared, t: Tid, pc: Pc, u: nat)
    requires SharedInv(e, sh) && ThreadInv(e, sh, t, pc) && !pc.Done? && u < e.g.capacity
    requires pc.TrimMark? ==> pc.upTo <= sh.horizon
    requires Seen(e, sh, u) && u >= sh.horizon
    ensures var sh' := StepPc(e, sh, t, pc).sh;
            && SharedOk(e, sh')
            && (Seen(e, sh', u) <==> !MarkedBy(pc, u))
            && (Durable(e, sh, u) && !MarkedBy(pc, u) ==> Durable(e, sh', u))
  {
    hide StepPc, Rec, Content, Written;
    assert SlotInv(e, sh, u);
    StepEffect(e, sh, t, pc, u);
  }

  /** A recover decides to abandon only slots it finds uncommitted: under the invariant a checksum test never fails. */
  lemma NotMarkedAfter(e: Env, sh: Shared, t: Tid, pc: Pc, u: nat)
    requires SharedInv(e, sh) && ThreadInv(e, sh, t, pc) && !pc.Done? && u < e.g.capacity && Seen(e, sh, u)
    ensures !MarkedBy(StepPc(e, sh, t, pc).pc, u)
  {
    hide SharedInv, Rec, BodyOps, StateByte, Word, LenOf, PayloadOf, SharedOk, Content, Written;
    match pc
    case Load(p, w, field, got) => IntactNeverMarked(e, sh, t, p, w, field, got);
    case Scan(h, limit, w, n) => CommittedNotMarked(e, sh, h, limit, w, n, u);
    case _ =>
  }

  lemma CommittedNotMarked(e: Env, sh: Shared, h: nat, limit: nat, w: nat, n: nat, u: nat)
    requires SharedOk(e, sh) && PcOk(e, Scan(h, limit, w, n)) && u < e.g.capacity && Seen(e, sh, u)
    ensures !MarkedBy(StepRecover(e, sh, Scan(h, limit, w, n)).pc, u)
  {
    hide Rec;
  }

  lemma IntactNeverMarked(e: Env, sh: Shared, t: Tid, p: Purpose, u: nat, field: Field, got: Fields)
    requires SharedInv(e, sh) && ThreadInv(e, sh, t, Load(p, u, field, got))
    ensures !StepRead(e, sh, Load(p, u, field, got)).pc.Mark?
  {
    hide SharedInv, Content, Rec, SameBody, Intact, Decode, Word, LenOf, PayloadOf;
    SealedFacts(e, sh, u);
    ContentReadsBack(e, V(e, sh, u), u, sh.grants[u].args);
  }

  /** Slot u is COMMITTED, and no recover is about to abandon it. */
  ghost predicate Safe(e: Env, s: State, u: nat)
    ensures Safe(e, s, u) ==> SharedOk(e, s.sh)
  {
    SharedOk(e, s.sh) && u < e.g.capacity && Seen(e, s.sh, u) && Unmarked(s, u)
  }

  ghost predicate Persists(e: Env, s: State, u: nat)
    ensures Persists(e, s, u) ==> SharedOk(e, s.sh)
  {
    SharedOk(e, s.sh) && u < e.g.capacity && Durable(e, s.sh, u) && Unmarked(s, u)
  }

  lemma StepStaysSafe(e: Env, s: State, t: Tid, u: nat)
    requires Inv(e, s) && Enabled(e, s, Step(t)) && TrimsBounded(s) && Safe(e, s, u) && u >= s.sh.horizon
    ensures Safe(e, Do(e, s, Step(t)), u)
    ensures Persists(e, s, u) ==> Persists(e, Do(e, s, Step(t)), u)
  {
    hide SharedInv, StepPc, Seen, Durable, CounterInv;
    var pc := s.threads[t];
    assert ThreadInv(e, s.sh, t, pc);
    StepKeepsCommitted(e, s.sh, t, pc, u);
    NotMarkedAfter(e, s.sh, t, pc, u);
  }

  lemma EvictStaysSafe(e: Env, s: State, line: nat, u: nat)
    requires SharedOk(e, s.sh) && u < e.g.capacity
    ensures var s' := Do(e, s, Evict(line));
            && SharedOk(e, s'.sh) && (Seen(e, s.sh, u) <==> Seen(e, s'.sh, u))
            && (Durable(e, s.sh, u) ==> Durable(e, s'.sh, u))
  {
    hide Rec;
    LineFacts(e, s.sh, line, u);
  }

  /** No action loses such a slot, but a trim that covers it, and a crash if it was not durable. */
  lemma ActionStaysSafe(e: Env, s: State, a: Action, u: nat)
    requires Inv(e, s) && Enabled(e, s, a) && TrimsBounded(s) && Safe(e, s, u) && u >= s.sh.horizon
    requires a.Crash? ==> Durable(e, s.sh, u)
    ensures Safe(e, Do(e, s, a), u)
    ensures Persists(e, s, u) ==> Persists(e, Do(e, s, a), u)
  {
    hide SharedInv, StepPc, Rec, CounterInv, ThreadInv;
    match a
    case Step(t) => StepStaysSafe(e, s, t, u);
    case Evict(line) => EvictStaysSafe(e, s, line, u);
    case _ =>
  }

  /** In every state of every run from here, u is COMMITTED visibly and durably as long as no trim covers it. */
  ghost predicate DurableIn(e: Env, s: State, later: seq<Action>, u: nat)
    requires RunFrom(e, s, later, AnyRun)
  {
    var s' := After(e, s, later, AnyRun);
    u >= s'.sh.horizon ==> SharedOk(e, s'.sh) && u < e.g.capacity && Durable(e, s'.sh, u)
  }

  ghost predicate DurableForGood(e: Env, s: State, u: nat) {
    forall later | RunFrom(e, s, later, AnyRun) :: DurableIn(e, s, later, u)
  }

  lemma {:induction false} PersistsThrough(e: Env, s: State, later: seq<Action>, u: nat)
    requires Inv(e, s) && TrimsBounded(s) && RunFrom(e, s, later, AnyRun) && (u >= s.sh.horizon ==> Persists(e, s, u))
    ensures DurableIn(e, s, later, u)
    decreases |later|
  {
    hide SharedInv, ThreadInv, StepPc, TrimsBounded, CounterInv, Rec;
    if later != [] {
      var s' := Do(e, s, later[0]);
      ActionInv(e, s, later[0]);
      TrimsBoundedAction(e, s, later[0]);
      if u >= s'.sh.horizon {
        ActionStaysSafe(e, s, later[0], u);
      }
      PersistsThrough(e, s', later[1..], u);
    }
  }

  /** The abandoning store, taken now. */
  lemma MarkingLoses(e: Env, s: State, t: Tid, u: nat)
    requires Inv(e, s) && NoWrapAhead(s) && t in s.threads && MarkedBy(s.threads[t], u)
    ensures RunFrom(e, s, [Step(t)], AnyRun)
    ensures var s' := After(e, s, [Step(t)], AnyRun);
            s'.sh.horizon == s.sh.horizon && SharedOk(e, s'.sh) && u < e.g.capacity && !Seen(e, s'.sh, u)
  {
    hide SharedInv, Rec, CounterInv;
    assert ThreadInv(e, s.sh, t, s.threads[t]);
    StepEffect(e, s.sh, t, s.threads[t], u);
    assert RunFrom(e, Do(e, s, Step(t)), [Step(t)][1..], AnyRun);
    assert After(e, Do(e, s, Step(t)), [Step(t)][1..], AnyRun) == Do(e, s, Step(t));
  }

  /** The exact condition: a durably COMMITTED slot beyond every trim stays so in every continuation, through appends,
      reads, trims of other slots, recoveries, evictions, deaths and crashes, if and only if no recover is at this
      moment about to abandon it. */
  lemma DurableForGoodIff(e: Env, s: State, u: nat)
    requires Inv(e, s) && NoWrapAhead(s) && TrimsBounded(s)
    requires u < e.g.capacity && u >= s.sh.horizon && Durable(e, s.sh, u)
    ensures DurableForGood(e, s, u) <==> Unmarked(s, u)
  {
    hide SharedInv, ThreadInv, CounterInv, TrimsBounded, Durable, Seen, DurableIn;
    if Unmarked(s, u) {
      forall later | RunFrom(e, s, later, AnyRun) ensures DurableIn(e, s, later, u) {
        PersistsThrough(e, s, later, u);
      }
    } else {
      var t :| t in s.threads && MarkedBy(s.threads[t], u);
      MarkingLoses(e, s, t, u);
      NotDurableIn(e, s, [Step(t)], u);
    }
  }

  lemma NotDurableIn(e: Env, s: State, later: seq<Action>, u: nat)
    requires RunFrom(e, s, later, AnyRun)
    requires var s' := After(e, s, later, AnyRun);
             u >= s'.sh.horizon && SharedOk(e, s'.sh) && u < e.g.capacity && !Seen(e, s'.sh, u)
    ensures !DurableIn(e, s, later, u)
  {
  }

  // ---- What is known of a slot once its append is past its commit ----

  /** The thread has stored COMMITTED in slot u and not yet returned. */
  predicate Committing(pc: Pc, u: nat) {
    match pc
    case FlushState(w, _, _) => w == u
    case Sweeping(ForAppend(w, _), _) => w == u
    case CountAppend(w, _) => w == u
    case CountBytes(w, _) => w == u
    case _ => false
  }

  /** It has also written the state's line back. */
  predicate Flushed(pc: Pc, u: nat) { Committing(pc, u) && (pc.FlushState? ==> pc.j > 0) }

  /** Slot u is past its commit: acknowledged, or its append is still at work. */
  predicate PastCommit(s: State, u: nat) {
    u in s.sh.acked || exists t :: t in s.threads && Committing(s.threads[t], u)
  }

  predicate PastFlush(s: State, u: nat) {
    u in s.sh.acked || exists t :: t in s.threads && Flushed(s.threads[t], u)
  }

  /** Slots past their commit have landed; past their flush, COMMITTED is durable if it is visible at all. */
  ghost predicate AckInv(e: Env, s: State)
    ensures AckInv(e, s) ==> SharedOk(e, s.sh)
  {
    && SharedOk(e, s.sh)
    && (forall u: nat | PastCommit(s, u) :: u < e.g.capacity && u in s.sh.landed)
    && (forall u: nat | u < e.g.capacity && PastFlush(s, u) :: Seen(e, s.sh, u) ==> Durable(e, s.sh, u))
    && (forall t | t in s.threads && s.threads[t].Done? && s.threads[t].reply.Appended? ::
          s.threads[t].reply.slot in s.sh.acked)
  }

  /** How a thread gets past its commit, past its flush, and acknowledged. */
  lemma CommitMoves(e: Env, sh: Shared, t: Tid, pc: Pc, u: nat)
    requires SharedOk(e, sh) && PcOk(e, pc) && !pc.Done?
    ensures var m := StepPc(e, sh, t, pc);
            && (Committing(m.pc, u) ==> Committing(pc, u) || (pc.Commit? && pc.slot == u && u in m.sh.landed))
            && (Flushed(m.pc, u) ==> Flushed(pc, u) || (pc.FlushState? && pc.slot == u))
            && (u in m.sh.acked ==> u in sh.acked || (pc.CountBytes? && pc.slot == u))
            && (m.pc.Done? && m.pc.reply.Appended? ==> m.pc.reply.slot in m.sh.acked)
            && sh.landed <= m.sh.landed
  {
    hide Rec, BodyOps, StateByte, Word, LenOf, PayloadOf, SharedOk;
  }

  /** COMMITTED appears only by its owner's commit. */
  lemma SeenBack(e: Env, sh: Shared, t: Tid, pc: Pc, u: nat)
    requires SharedOk(e, sh) && PcOk(e, pc) && !pc.Done? && u < e.g.capacity
    ensures var sh' := StepPc(e, sh, t, pc).sh;
            && SharedOk(e, sh')
            && (Seen(e, sh', u) && !(pc.Commit? && pc.slot == u) ==> Seen(e, sh, u))
            && (Seen(e, sh', u) && Durable(e, sh, u) ==> Durable(e, sh', u))
            && (Seen(e, sh, u) && Seen(e, sh', u) && pc.FlushState? && pc.slot == u && pc.j == 0 ==> Durable(e, sh', u))
  {
    hide StepPc, Rec, BodyOps;
    StepEffect(e, sh, t, pc, u);
    assert pc.FlushState? && pc.slot == u && pc.j == 0 ==> FlushedLine(e.g, pc) == Some(LineOf(e.g, u, REC_STATE));
  }

  lemma AckStepSlot(e: Env, s: State, t: Tid, u: nat)
    requires Inv(e, s) && AckInv(e, s) && Enabled(e, s, Step(t)) && NoWrapAhead(s)
    ensures var s' := Do(e, s, Step(t));
            && SharedOk(e, s'.sh)
            && (PastCommit(s', u) ==> u < e.g.capacity && u in s'.sh.landed)
            && (u < e.g.capacity && PastFlush(s', u) && Seen(e, s'.sh, u) ==> Durable(e, s'.sh, u))
  {
    hide SharedInv, StepPc, CounterInv, Seen, Durable;
    var pc := s.threads[t];
    var s' := Do(e, s, Step(t));
    assert ThreadInv(e, s.sh, t, pc);
    CommitMoves(e, s.sh, t, pc, u);
    assert PastCommit(s', u) ==> PastCommit(s, u) || (pc.Commit? && pc.slot == u && u in s'.sh.landed) by {
      PastBack(e, s, t, u);
    }
    StepEffect(e, s.sh, t, pc, 0);
    if u < e.g.capacity {
      SeenBack(e, s.sh, t, pc, u);
      PastBack(e, s, t, u);
    }
  }

  /** Who is past what was so before, or has just moved. */
  lemma PastBack(e: Env, s: State, t: Tid, u: nat)
    requires Enabled(e, s, Step(t))
    ensures var s' := Do(e, s, Step(t));
            var pc := s.threads[t];
            && (PastCommit(s', u) ==> PastCommit(s, u) || (pc.Commit? && pc.slot == u && u in s'.sh.landed))
            && (PastFlush(s', u) ==> PastFlush(s, u) || (pc.FlushState? && pc.slot == u))
            && s.sh.landed <= s'.sh.landed
  {
    hide SharedOk, StepPc;
    CommitMoves(e, s.sh, t, s.threads[t], u);
    var s' := Do(e, s, Step(t));
    assert u in s'.sh.acked && u !in s.sh.acked ==> Committing(s.threads[t], u) && Flushed(s.threads[t], u);
    if PastCommit(s', u) && u !in s'.sh.acked {
      var x :| x in s'.threads && Committing(s'.threads[x], u);
      assert x != t ==> Committing(s.threads[x], u);
    }
    if PastFlush(s', u) && u !in s'.sh.acked {
      var x :| x in s'.threads && Flushed(s'.threads[x], u);
      assert x != t ==> Flushed(s.threads[x], u);
    }
  }

  lemma AckStep(e: Env, s: State, t: Tid)
    requires Inv(e, s) && AckInv(e, s) && Enabled(e, s, Step(t)) && NoWrapAhead(s)
    ensures AckInv(e, Do(e, s, Step(t)))
  {
    hide Inv, StepPc, Seen, Durable, PastCommit, PastFlush, SharedOk;
    var s' := Do(e, s, Step(t));
    AckStepSlot(e, s, t, 0);
    forall u: nat | PastCommit(s', u) ensures u < e.g.capacity && u in s'.sh.landed {
      AckStepSlot(e, s, t, u);
    }
    forall u: nat | u < e.g.capacity && PastFlush(s', u) ensures Seen(e, s'.sh, u) ==> Durable(e, s'.sh, u) {
      AckStepSlot(e, s, t, u);
    }
    CommitMoves(e, s.sh, t, s.threads[t], 0);
    HistoryEffect(e, s.sh, t, s.threads[t]);
  }

  lemma AckAction(e: Env, s: State, a: Action)
    requires Inv(e, s) && AckInv(e, s) && Enabled(e, s, a) && NoWrapAhead(s)
    ensures AckInv(e, Do(e, s, a))
  {
    hide SharedInv, ThreadInv, StepPc, CounterInv, Rec;
    var s' := Do(e, s, a);
    match a
    case Step(t) => AckStep(e, s, t);
    case Evict(line) =>
      forall u: nat | u < e.g.capacity && PastFlush(s', u) ensures Seen(e, s'.sh, u) ==> Durable(e, s'.sh, u) {
        EvictStaysSafe(e, s, line, u);
        assert PastFlush(s, u);
      }
      forall u: nat | PastCommit(s', u) ensures PastCommit(s, u) {
      }
    case _ =>
      forall u: nat | PastCommit(s', u) ensures PastCommit(s, u) {
      }
      forall u: nat | PastFlush(s', u) ensures PastFlush(s, u) {
      }
  }

  // ---- Runs ----

  lemma FreshAck(e: Env)
    requires e.g.Ok()
    ensures AckInv(e, Fresh(e)) && TrimsBounded(Fresh(e))
  {
  }

  lemma {:induction false} AckRun(e: Env, s: State, as_: seq<Action>, ok: (State, Action) -> bool)
    requires Inv(e, s) && AckInv(e, s) && TrimsBounded(s) && RunFrom(e, s, as_, ok)
    requires forall x, a :: ok(x, a) ==> NoWrapAhead(x)
    ensures var s' := After(e, s, as_, ok); Inv(e, s') && AckInv(e, s') && TrimsBounded(s')
    decreases |as_|
  {
    hide Inv, AckInv, TrimsBounded;
    if as_ != [] {
      ActionInv(e, s, as_[0]);
      AckAction(e, s, as_[0]);
      TrimsBoundedAction(e, s, as_[0]);
      AckRun(e, Do(e, s, as_[0]), as_[1..], ok);
    }
  }

  /** When append has returned Ok(index), in any run whatever: the record is durable for good, until a trim covers it,
      if and only if its state is still COMMITTED and no recover is about to abandon it. */
  lemma AcknowledgedDurableIff(e: Env, before: seq<Action>, s: State, t: Tid, u: nat, a: Args)
    requires Reached(e, before, s) && NoWrapAhead(s) && t in s.threads && s.threads[t] == Done(Appended(u, a))
    requires u >= s.sh.horizon
    ensures SharedOk(e, s.sh) && u < e.g.capacity
    ensures DurableForGood(e, s, u) <==> Seen(e, s.sh, u) && Unmarked(s, u)
  {
    hide Inv, TrimsBounded, Durable, Seen, DurableForGood, Unmarked, RunFrom, Protocol.After;
    FreshInv(e);
    FreshAck(e);
    AckRun(e, Fresh(e), before, AnyRun);
    assert u in s.sh.acked;
    assert PastCommit(s, u) && PastFlush(s, u);
    if Durable(e, s.sh, u) {
      DurableForGoodIff(e, s, u);
      DurableMeansSeen(e, s.sh, u);
    } else {
      NotYetDurable(e, s, u);
    }
  }

  lemma DurableMeansSeen(e: Env, sh: Shared, u: nat)
    requires SharedOk(e, sh) && u < e.g.capacity && Durable(e, sh, u)
    ensures Seen(e, sh, u)
  {
  }

  lemma NotYetDurable(e: Env, s: State, u: nat)
    requires SharedOk(e, s.sh) && u < e.g.capacity && u >= s.sh.horizon && !Durable(e, s.sh, u)
    ensures !DurableForGood(e, s, u)
  {
    assert RunFrom(e, s, [], AnyRun) && !DurableIn(e, s, [], u);
  }

  // ---- Runs in which no recover decides to abandon a slot under its live writer ----

  /** No recover is about to abandon slot u while a live writer is between reserving it and storing COMMITTED. */
  predicate Spared(s: State, u: nat) {
    forall r, w | r in s.threads && w in s.threads ::
          !(MarkedBy(s.threads[r], u) && MidAppend(s.threads[w]) && s.threads[w].slot == u)
  }

  function SparedRun(u: nat): (State, Action) -> bool { (s, a) => NoWrapAhead(s) && Spared(s, u) }

  ghost predicate SparedInv(e: Env, s: State, u: nat)
    ensures SparedInv(e, s, u) ==> SharedOk(e, s.sh)
  {
    SharedOk(e, s.sh) && (PastCommit(s, u) && u >= s.sh.horizon ==> Safe(e, s, u))
  }

  lemma SparedStep(e: Env, s: State, t: Tid, u: nat)
    requires Inv(e, s) && AckInv(e, s) && TrimsBounded(s) && Enabled(e, s, Step(t)) && NoWrapAhead(s) && Spared(s, u)
    requires SparedInv(e, s, u)
    ensures SparedInv(e, Do(e, s, Step(t)), u)
  {
    hide SharedInv, StepPc, CounterInv, Seen, Durable, PastCommit, TrimsBounded;
    var pc := s.threads[t];
    var s' := Do(e, s, Step(t));
    assert ThreadInv(e, s.sh, t, pc);
    StepEffect(e, s.sh, t, pc, 0);
    PastBack(e, s, t, u);
    TrimsBoundedAction(e, s, Step(t));
    if PastCommit(s', u) && u >= s'.sh.horizon {
      if PastCommit(s, u) {
        StepStaysSafe(e, s, t, u);
      } else {
        CommitIsSeen(e, s.sh, t, pc);
      }
    }
  }

  lemma CommitIsSeen(e: Env, sh: Shared, t: Tid, pc: Pc)
    requires SharedOk(e, sh) && PcOk(e, pc) && pc.Commit?
    ensures var m := StepPc(e, sh, t, pc); SharedOk(e, m.sh) && Seen(e, m.sh, pc.slot) && !m.pc.Mark?
  {
    hide Rec;
    StepEffect(e, sh, t, pc, pc.slot);
  }

  lemma SparedAction(e: Env, s: State, a: Action, u: nat)
    requires Inv(e, s) && AckInv(e, s) && TrimsBounded(s) && Enabled(e, s, a) && NoWrapAhead(s) && Spared(s, u)
    requires SparedInv(e, s, u)
    ensures SparedInv(e, Do(e, s, a), u)
  {
    hide SharedInv, ThreadInv, StepPc, CounterInv, Rec, Seen, Durable, Safe, TrimsBounded;
    var s' := Do(e, s, a);
    if a.Step? {
      SparedStep(e, s, a.t, u);
    } else if PastCommit(s', u) && u >= s'.sh.horizon {
      assert PastCommit(s, u);
      assert a.Crash? ==> PastFlush(s, u);
      SafeIsSeen(e, s, u);
      ActionStaysSafe(e, s, a, u);
    }
  }

  lemma SafeIsSeen(e: Env, s: State, u: nat)
    requires Safe(e, s, u)
    ensures u < e.g.capacity && Seen(e, s.sh, u) && Unmarked(s, u)
  {
  }

  lemma {:induction false} SparedThrough(e: Env, s: State, as_: seq<Action>, u: nat)
    requires Inv(e, s) && AckInv(e, s) && TrimsBounded(s) && SparedInv(e, s, u) && RunFrom(e, s, as_, SparedRun(u))
    ensures var s' := After(e, s, as_, SparedRun(u));
            Inv(e, s') && AckInv(e, s') && TrimsBounded(s') && SparedInv(e, s', u)
    decreases |as_|
  {
    hide Inv, AckInv, TrimsBounded, SparedInv, Spared;
    if as_ != [] {
      ActionInv(e, s, as_[0]);
      AckAction(e, s, as_[0]);
      TrimsBoundedAction(e, s, as_[0]);
      SparedAction(e, s, as_[0], u);
      SparedThrough(e, Do(e, s, as_[0]), as_[1..], u);
    }
  }

  /** Once append has returned Ok(index), through any crashes, evictions, deaths, and complete, interrupted or
      overlapping recoveries, its slot stays COMMITTED, visibly and durably, with its own content, until some trim's
      bound exceeds the slot; provided that, up to the acknowledgement, no recover was about to abandon this slot under
      its live writer. Nothing at all is asked of the run that follows. */
  lemma AcknowledgedAppendsAreDurable(e: Env, before: seq<Action>, s: State, t: Tid, u: nat, a: Args,
                                      later: seq<Action>)
    requires e.g.Ok() && RunFrom(e, Fresh(e), before, SparedRun(u)) && s == After(e, Fresh(e), before, SparedRun(u))
    requires t in s.threads && s.threads[t] == Done(Appended(u, a))
    requires RunFrom(e, s, later, AnyRun)
    ensures var s' := After(e, s, later, AnyRun);
            && SharedOk(e, s'.sh) && u < e.g.capacity && u < |s'.sh.grants| && ArgsOk(e.g, a)
            && s'.sh.grants[u].args == a && Content(e, D(e, s'.sh, u), u, a)
            && (u >= s'.sh.horizon ==> Seen(e, s'.sh, u) && Durable(e, s'.sh, u))
  {
    hide Rec, Content, SharedInv, CounterInv, TrimsBounded, Seen, Durable, RunFrom, Protocol.After;
    FreshInv(e);
    FreshAck(e);
    assert SparedInv(e, Fresh(e), u) by {
      assert !PastCommit(Fresh(e), u);
    }
    SparedThrough(e, Fresh(e), before, u);
    assert u in s.sh.acked && PastCommit(s, u) && PastFlush(s, u);
    PersistsThrough(e, s, later, u);
    RunInv(e, s, later, AnyRun);
    assert ThreadInv(e, s.sh, t, s.threads[t]);
    KeptContent(e, s, later, u, a);
    DurableNow(e, s, later, u);
  }

  /** The durable content of a sealed slot, and its state. */
  lemma DurableNow(e: Env, s: State, later: seq<Action>, u: nat)
    requires RunFrom(e, s, later, AnyRun) && DurableIn(e, s, later, u) && Inv(e, After(e, s, later, AnyRun))
    requires u in After(e, s, later, AnyRun).sh.sealed
    ensures var s' := After(e, s, later, AnyRun);
            && u < e.g.capacity && u < |s'.sh.grants| && Content(e, D(e, s'.sh, u), u, s'.sh.grants[u].args)
            && ArgsOk(e.g, s'.sh.grants[u].args)
            && (u >= s'.sh.horizon ==> Seen(e, s'.sh, u) && Durable(e, s'.sh, u))
  {
    hide Rec, Content, ThreadInv, CounterInv;
    var s' := After(e, s, later, AnyRun);
    assert SlotInv(e, s'.sh, u);
    ContentSameBody(e, V(e, s'.sh, u), D(e, s'.sh, u), u, s'.sh.grants[u].args);
  }

  /** The slot stays sealed, with the acknowledged arguments. */
  lemma {:induction false} KeptContent(e: Env, s: State, later: seq<Action>, u: nat, a: Args)
    requires Inv(e, s) && RunFrom(e, s, later, AnyRun) && u in s.sh.sealed && u < |s.sh.grants|
    requires s.sh.grants[u].args == a
    ensures var s' := After(e, s, later, AnyRun);
            u in s'.sh.sealed && u < |s'.sh.grants| && s'.sh.grants[u].args == a
    decreases |later|
  {
    hide SharedInv, ThreadInv, StepPc, GuarSlot;
    if later != [] {
      ActionInv(e, s, later[0]);
      if later[0].Step? {
        CounterReads(e, s);
        StepKept(e, s.sh, later[0].t, s.threads[later[0].t]);
      }
      KeptContent(e, Do(e, s, later[0]), later[1..], u, a);
    }
  }
}
