/** Appends finish in a bounded number of their own steps; and why recover must not overlap them. */
module RecoverRace {
  import opened Layout
  import opened Media
  import opened Records
  import opened Protocol
  import opened ProtocolInv
  import opened ProtocolSteps
  import opened StepEffects
  import opened Safety
  import opened Durability

  /** A thread that holds a slot and has not yet returned. */
  predicate Appending(pc: Pc) {
    || pc.Body? || pc.FlushRecord? || pc.Commit? || pc.FlushState? || pc.CountAppend? || pc.CountBytes?
    || (pc.Sweeping? && pc.job.ForAppend?)
  }

  function SlotOf(pc: Pc): (nat, Args)
    requires Appending(pc)
  {
    match pc
    case Sweeping(ForAppend(u, a), _) => (u, a)
    case _ => (pc.slot, pc.args)
  }

  /** What is left of an append: its stage, then two counters within the stage. */
  function Left(e: Env, pc: Pc): (int, int, int)
    requires e.g.Ok() && PcOk(e, pc) && Appending(pc)
  {
    match pc
    case Body(u, a, k) => (6, |BodyOps(e, u, a)| - k, 0)
    case FlushRecord(u, a, j) => (5, NumLines(e.g.RecordOffset(u), e.g.recordSize) - j, 0)
    case Commit(u, a) => (4, 0, 0)
    case FlushState(u, a, j) => (3, NumLines(e.g.RecordOffset(u), CACHELINE) - j, 0)
    case Sweeping(_, w) => (2, Rank(e.g.capacity, w).0, Rank(e.g.capacity, w).1)
    case CountAppend(_, _) => (1, 0, 0)
    case CountBytes(_, _) => (0, 0, 0)
  }

  predicate Less(a: (int, int, int), b: (int, int, int)) {
    && 0 <= a.0 && 0 <= a.1 && 0 <= a.2
    && (a.0 < b.0 || (a.0 == b.0 && (a.1 < b.1 || (a.1 == b.1 && a.2 < b.2))))
  }

  /** Each own step of an append in a reachable state brings it closer to its reply. */
  lemma AppendAdvances(e: Env, sh: Shared, t: Tid, pc: Pc)
    requires SharedInv(e, sh) && ThreadInv(e, sh, t, pc) && Appending(pc)
    ensures var pc' := StepPc(e, sh, t, pc).pc;
            if pc.CountBytes? then pc' == Done(Appended(SlotOf(pc).0, SlotOf(pc).1))
            else Appending(pc') && SlotOf(pc') == SlotOf(pc) && PcOk(e, pc') && Less(Left(e, pc'), Left(e, pc))
  {
    hide Rec, GrantsOk, BodyOps, Written, Content, SlotInv, Apply, StateByte, NumLines;
    if pc.Sweeping? {
      SweepAdvances(e, sh, t, pc);
    }
  }

  lemma SweepAdvances(e: Env, sh: Shared, t: Tid, pc: Pc)
    requires SharedInv(e, sh) && ThreadInv(e, sh, t, pc) && pc.Sweeping?
    ensures var pc' := StepSweep(e, sh, pc).pc;
            pc'.Sweeping? ==> pc'.job == pc.job && Below(Rank(e.g.capacity, pc'.sweep), Rank(e.g.capacity, pc.sweep))
  {
    hide Rec, SharedOk, GrantsOk, SlotInv, StateByte;
  }

  lemma AppendSideEffects(e: Env, sh: Shared, t: Tid, pc: Pc)
    requires SharedOk(e, sh) && PcOk(e, pc) && Appending(pc)
    ensures var m := StepPc(e, sh, t, pc);
            m.sh.reserve == sh.reserve && m.sh.horizon == sh.horizon && sh.acked <= m.sh.acked
    ensures pc.CountBytes? ==> pc.slot in StepPc(e, sh, t, pc).sh.acked
  {
    hide Rec, BodyOps, StateByte, Word, LenOf, PayloadOf, SharedOk;
  }

  /** An append that holds its slot can always run to its acknowledgement by itself. */
  lemma RunAppendAlone(e: Env, s: State, t: Tid) returns (as_: seq<Action>)
    requires Inv(e, s) && NoWrapAhead(s) && t in s.threads && Appending(s.threads[t])
    ensures RunFrom(e, s, as_, AnyRun)
    ensures var s' := After(e, s, as_, AnyRun);
            var (u, a) := SlotOf(s.threads[t]);
            && s'.threads == s.threads[t := Done(Appended(u, a))]
            && u in s'.sh.acked && s'.sh.horizon == s.sh.horizon && s'.sh.reserve == s.sh.reserve
    decreases Left(e, s.threads[t]).0, Left(e, s.threads[t]).1, Left(e, s.threads[t]).2
  {
    hide SharedInv, ThreadInv, StepPc, Left, SlotOf, CounterInv;
    var pc := s.threads[t];
    AppendAdvances(e, s.sh, t, pc);
    AppendSideEffects(e, s.sh, t, pc);
    var s' := Do(e, s, Step(t));
    if pc.CountBytes? {
      as_ := [Step(t)];
      assert RunFrom(e, s', as_[1..], AnyRun) && After(e, s', as_[1..], AnyRun) == s';
      CountedSlot(pc);
    } else {
      ActionInv(e, s, Step(t));
      var rest := RunAppendAlone(e, s', t);
      as_ := [Step(t)] + rest;
      assert as_[1..] == rest;
    }
  }

  lemma CountedSlot(pc: Pc)
    requires pc.CountBytes?
    ensures SlotOf(pc) == (pc.slot, pc.args)
  {
  }

  /** One more step at the end of a run. */
  lemma Extend(e: Env, s: State, as_: seq<Action>, a: Action)
    requires RunFrom(e, s, as_, AnyRun) && Enabled(e, After(e, s, as_, AnyRun), a)
    requires NoWrapAhead(After(e, s, as_, AnyRun))
    ensures RunFrom(e, s, as_ + [a], AnyRun)
    ensures After(e, s, as_ + [a], AnyRun) == Do(e, After(e, s, as_, AnyRun), a)
  {
    var m := After(e, s, as_, AnyRun);
    assert RunFrom(e, Do(e, m, a), [], AnyRun) && [a][1..] == [];
    assert RunFrom(e, m, [a], AnyRun) && After(e, m, [a], AnyRun) == Do(e, m, a);
    RunConcat(e, s, as_, [a], AnyRun);
  }

  /** A writer reserves slot 0 and marks it WRITING. */
  lemma WriterStarts(e: Env, a: Args) returns (as_: seq<Action>)
    requires e.g.Ok() && ArgsOk(e.g, a)
    ensures RunFrom(e, Fresh(e), as_, AnyRun)
    ensures var s := After(e, Fresh(e), as_, AnyRun);
            && s.threads == map[0 := Body(0, a, 1)] && s.sh.reserve == 1 && s.sh.horizon == 0
            && SharedOk(e, s.sh) && StateByte(e, s.sh, 0) == STATE_WRITING
  {
    hide Rec, BodyOps, RunFrom, After;
    var s0 := Fresh(e);
    FreshInv(e);
    NoSteps(e, s0);
    Extend(e, s0, [], Invoke(0, AppendCall(a)));
    var s1 := Do(e, s0, Invoke(0, AppendCall(a)));
    var one := [] + [Invoke(0, AppendCall(a))];
    Extend(e, s0, one, Step(0));
    var s2 := Do(e, s1, Step(0));
    assert s2.threads == map[0 := Body(0, a, 0)] && s2.sh.reserve == 1;
    Extend(e, s0, one + [Step(0)], Step(0));
    as_ := one + [Step(0)] + [Step(0)];
    StepEffect(e, s2.sh, 0, Body(0, a, 0), 0);
    assert Do(e, s2, Step(0)).threads == map[0 := Body(0, a, 1)];
  }

  lemma NoSteps(e: Env, s: State)
    ensures RunFrom(e, s, [], AnyRun) && After(e, s, [], AnyRun) == s
  {
  }

  /** A recoverer then sees WRITING and is about to abandon the slot. */
  lemma RaceStarts(e: Env, a: Args) returns (as_: seq<Action>)
    requires e.g.Ok() && ArgsOk(e.g, a)
    ensures RunFrom(e, Fresh(e), as_, AnyRun)
    ensures var s := After(e, Fresh(e), as_, AnyRun);
            && s.threads == map[0 := Body(0, a, 1), 1 := Mark(0, 1, 0, 0)]
            && s.sh.reserve == 1 && s.sh.horizon == 0
  {
    hide Rec, BodyOps, RunFrom, After, StateByte;
    var s0 := Fresh(e);
    var three := WriterStarts(e, a);
    var s3 := After(e, s0, three, AnyRun);
    Extend(e, s0, three, Invoke(1, RecoverCall(0)));
    var s4 := Do(e, s3, Invoke(1, RecoverCall(0)));
    var four := three + [Invoke(1, RecoverCall(0))];
    assert s4.threads[1] == Start(RecoverCall(0)) && s4.sh == s3.sh;
    Extend(e, s0, four, Step(1));
    var s5 := Do(e, s4, Step(1));
    assert s5.threads[1] == Scan(0, 1, 0, 0) && s5.sh == s3.sh;
    Extend(e, s0, four + [Step(1)], Step(1));
    as_ := four + [Step(1)] + [Step(1)];
    assert Do(e, s5, Step(1)).threads == map[0 := Body(0, a, 1), 1 := Mark(0, 1, 0, 0)];
  }

  /** From any state in which a recover is about to abandon the slot of a live append, there is a run in which that
      append is acknowledged, no trim covers it, and its record ends ABANDONED. */
  lemma RacedAppendCanBeLost(e: Env, s: State, r: Tid, w: Tid) returns (as_: seq<Action>)
    requires Inv(e, s) && NoWrapAhead(s) && r in s.threads && w in s.threads
    requires Appending(s.threads[w]) && MarkedBy(s.threads[r], SlotOf(s.threads[w]).0)
    ensures RunFrom(e, s, as_, AnyRun)
    ensures var s' := After(e, s, as_, AnyRun);
            var (u, a) := SlotOf(s.threads[w]);
            && w in s'.threads && s'.threads[w] == Done(Appended(u, a)) && u in s'.sh.acked
            && s'.sh.horizon == s.sh.horizon
            && SharedOk(e, s'.sh) && u < e.g.capacity && V(e, s'.sh, u)[REC_STATE] == STATE_ABANDONED
  {
    hide Rec, BodyOps, SharedInv, StepPc, SharedOk;
    var alone := RunAppendAlone(e, s, w);
    var s2 := After(e, s, alone, AnyRun);
    RunInv(e, s, alone, AnyRun);
    assert ThreadInv(e, s2.sh, r, s2.threads[r]);
    Extend(e, s, alone, Step(r));
    as_ := alone + [Step(r)];
    MarkAbandons(e, s2, r);
  }

  /** For every geometry and every append there is such a run from a created pool: the recoverer's stale store abandons
      a slot that was committed and acknowledged in between, and no trim ran. */
  lemma OverlappingRecoverLosesAnAppend(e: Env, a: Args) returns (as_: seq<Action>)
    requires e.g.Ok() && ArgsOk(e.g, a)
    ensures RunFrom(e, Fresh(e), as_, AnyRun)
    ensures var s := After(e, Fresh(e), as_, AnyRun);
            && 0 in s.threads && s.threads[0] == Done(Appended(0, a)) && 0 in s.sh.acked && s.sh.horizon == 0
            && SharedOk(e, s.sh) && V(e, s.sh, 0)[REC_STATE] == STATE_ABANDONED
  {
    hide Rec, BodyOps, SharedInv, ThreadInv, StepPc, SharedOk;
    var first := RaceStarts(e, a);
    var s1 := After(e, Fresh(e), first, AnyRun);
    FreshInv(e);
    RunInv(e, Fresh(e), first, AnyRun);
    var rest := RacedAppendCanBeLost(e, s1, 1, 0);
    RunConcat(e, Fresh(e), first, rest, AnyRun);
    as_ := first + rest;
  }

  lemma MarkAbandons(e: Env, s: State, t: Tid)
    requires SharedOk(e, s.sh) && t in s.threads && s.threads[t].Mark? && PcOk(e, s.threads[t])
    ensures var s' := Do(e, s, Step(t));
            && SharedOk(e, s'.sh) && V(e, s'.sh, s.threads[t].slot)[REC_STATE] == STATE_ABANDONED
            && s'.sh.acked == s.sh.acked && s'.sh.horizon == s.sh.horizon
            && forall x | x in s.threads && x != t :: x in s'.threads && s'.threads[x] == s.threads[x]
  {
    hide Rec;
    StepEffect(e, s.sh, t, s.threads[t], s.threads[t].slot);
  }
}
