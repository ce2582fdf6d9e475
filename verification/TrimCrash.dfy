/** What a power failure can undo of a trim: the abandoning store is flushed by the thread that made it, and another
    trim does not wait for that. */
module TrimCrash {
  import opened Bytes
  import opened Layout
  import opened Records
  import opened RecoverySpec
  import opened LogImage
  import opened Protocol
  import opened ProtocolInv
  import opened ProtocolSteps
  import opened StepEffects
  import opened Safety
  import opened Durability
  import opened Progress
  import opened RecoverRace
  import opened Solo
  import opened Answers

  // ---- When a slot that is no longer COMMITTED can come back ----

  /** Some run from here makes slot u COMMITTED again. */
  ghost predicate CanReturn(e: Env, s: State, u: nat) {
    exists later ::
      && RunFrom(e, s, later, AnyRun)
      && SharedOk(e, After(e, s, later, AnyRun).sh) && SeenAt(e, After(e, s, later, AnyRun).sh, u)
  }

  /** It has been COMMITTED, and is neither visibly nor durably so. */
  ghost predicate Gone(e: Env, sh: Shared, u: nat)
    requires SharedOk(e, sh)
  {
    u in sh.landed && u < e.g.capacity && !Seen(e, sh, u) && D(e, sh, u)[REC_STATE] != STATE_COMMITTED
  }

  lemma StaysGone(e: Env, s: State, a: Action, u: nat)
    requires Inv(e, s) && Enabled(e, s, a) && NoWrapAhead(s) && Gone(e, s.sh, u)
    ensures SharedOk(e, Do(e, s, a).sh) && Gone(e, Do(e, s, a).sh, u)
  {
    hide SharedInv, CounterInv, StepPc, Rec, Written, Content, FlushedTo;
    match a
    case Step(t) =>
      var pc := s.threads[t];
      assert ThreadInv(e, s.sh, t, pc);
      StepEffect(e, s.sh, t, pc, u);
      FillMoves(e, s.sh, t, pc);
      SeenEffect(e, s.sh, t, pc, u);
    case Evict(line) => LineFacts(e, s.sh, line, u);
    case _ =>
  }

  lemma {:induction false} GoneForGood(e: Env, s: State, as_: seq<Action>, u: nat)
    requires SharedOk(e, s.sh) && Inv(e, s) && Gone(e, s.sh, u) && RunFrom(e, s, as_, AnyRun)
    ensures var s' := After(e, s, as_, AnyRun); SharedOk(e, s'.sh) && Gone(e, s'.sh, u)
    decreases |as_|
  {
    hide Inv, Gone;
    if as_ != [] {
      ActionInv(e, s, as_[0]);
      StaysGone(e, s, as_[0], u);
      GoneForGood(e, Do(e, s, as_[0]), as_[1..], u);
    }
  }

  /** The exact condition: a slot that was COMMITTED and is not any more can become COMMITTED again if and only if it
      still is durably; then a power failure now brings it back. */
  lemma CanReturnIff(e: Env, s: State, u: nat)
    requires Inv(e, s) && NoWrapAhead(s) && u in s.sh.landed && u < e.g.capacity && !Seen(e, s.sh, u)
    ensures CanReturn(e, s, u) <==> D(e, s.sh, u)[REC_STATE] == STATE_COMMITTED
  {
    hide SharedInv, ThreadInv, CounterInv, Rec;
    if D(e, s.sh, u)[REC_STATE] == STATE_COMMITTED {
      var c := Do(e, s, Crash);
      assert RunFrom(e, c, [Crash][1..], AnyRun) && After(e, c, [Crash][1..], AnyRun) == c;
      assert RunFrom(e, s, [Crash], AnyRun) && After(e, s, [Crash], AnyRun) == c;
      assert V(e, c.sh, u) == D(e, s.sh, u);
    } else if CanReturn(e, s, u) {
      var later :| RunFrom(e, s, later, AnyRun) && SharedOk(e, After(e, s, later, AnyRun).sh)
                   && SeenAt(e, After(e, s, later, AnyRun).sh, u);
      GoneForGood(e, s, later, u);
    }
  }

  // ---- Who has still to flush it ----

  /** The thread has abandoned a slot and flushes the store next. */
  predicate FlushDue(pc: Pc) { (pc.MarkFlush? || pc.TrimFlush?) && pc.j == 0 }

  predicate Flushing(pc: Pc, u: nat) { FlushDue(pc) && pc.slot == u }

  predicate FlushOwed(s: State, u: nat) { exists x :: x in s.threads && Flushing(s.threads[x], u) }

  /** Nobody dies between an abandoning store and its flush; the power may fail at any time. */
  predicate FlushKept(s: State, a: Action) {
    NoWrapAhead(s) && (a.Kill? && a.t in s.threads ==> !FlushDue(s.threads[a.t]))
  }

  /** Slot u is COMMITTED durably but not visibly. */
  ghost predicate Lingers(e: Env, sh: Shared, u: nat)
    requires SharedOk(e, sh) && u < e.g.capacity
  {
    D(e, sh, u)[REC_STATE] == STATE_COMMITTED && !Seen(e, sh, u)
  }

  /** Such a slot is about to be flushed. */
  ghost predicate FlushInv(e: Env, s: State)
    ensures FlushInv(e, s) ==> SharedOk(e, s.sh)
  {
    && SharedOk(e, s.sh)
    && forall u: nat | u < e.g.capacity && Lingers(e, s.sh, u) :: FlushOwed(s, u)
  }

  /** What a step does to the two state bytes of a slot. */
  lemma StateBytes(e: Env, sh: Shared, t: Tid, pc: Pc, u: nat)
    requires SharedOk(e, sh) && PcOk(e, pc) && !pc.Done? && u < e.g.capacity
    ensures var sh' := StepPc(e, sh, t, pc).sh;
            && SharedOk(e, sh')
            && V(e, sh', u)[REC_STATE] == (if StoredState(pc).Some? && StoredState(pc).value.0 == u
                                           then StoredState(pc).value.1 else V(e, sh, u)[REC_STATE])
            && D(e, sh', u)[REC_STATE] == (if FlushedLine(e.g, pc) == Some(LineOf(e.g, u, REC_STATE))
                                           then V(e, sh, u)[REC_STATE] else D(e, sh, u)[REC_STATE])
  {
    hide StepPc, Rec;
    StepEffect(e, sh, t, pc, u);
  }

  lemma FlushStep(e: Env, s: State, t: Tid, u: nat)
    requires Inv(e, s) && FlushInv(e, s) && Enabled(e, s, Step(t)) && u < e.g.capacity
    ensures var s' := Do(e, s, Step(t));
            && SharedOk(e, s'.sh)
            && (Lingers(e, s'.sh, u) ==> FlushOwed(s', u))
  {
    hide SharedInv, ThreadInv, CounterInv, StepPc, SharedOk;
    var pc, s' := s.threads[t], Do(e, s, Step(t));
    StateBytes(e, s.sh, t, pc, u);
    NextFlush(e, s.sh, t, pc);
    if Lingers(e, s'.sh, u) {
      assert D(e, s.sh, u)[REC_STATE] == STATE_COMMITTED;
      if Seen(e, s.sh, u) {
        DurableLanded(e, s.sh, u);
        NotBegun(e, s.sh, t, pc, u);
        assert t in s'.threads && Flushing(s'.threads[t], u);
      } else {
        assert Lingers(e, s.sh, u);
        var x :| x in s.threads && Flushing(s.threads[x], u);
        assert x in s'.threads && Flushing(s'.threads[x], u);
      }
    }
  }

  /** Nobody marks a sealed slot WRITING. */
  lemma NotBegun(e: Env, sh: Shared, t: Tid, pc: Pc, u: nat)
    requires SharedOk(e, sh) && GrantsOk(e, sh) && ThreadInv(e, sh, t, pc) && u in sh.sealed
    ensures StoredState(pc).Some? && StoredState(pc).value.0 == u ==> pc.Commit? || Abandoning(pc)
  {
    hide SharedOk, GrantsOk, Written;
  }

  lemma DurableLanded(e: Env, sh: Shared, u: nat)
    requires SharedInv(e, sh) && u < e.g.capacity && D(e, sh, u)[REC_STATE] == STATE_COMMITTED
    ensures u in sh.landed && u in sh.sealed
  {
    hide Rec, Content;
    assert SlotInv(e, sh, u);
  }

  lemma NextFlush(e: Env, sh: Shared, t: Tid, pc: Pc)
    requires SharedOk(e, sh) && PcOk(e, pc) && !pc.Done?
    ensures Abandoning(pc) ==> Flushing(StepPc(e, sh, t, pc).pc, pc.slot)
  {
    hide SharedOk, Rec, BodyOps, StateByte, Word, LenOf, PayloadOf;
  }

  lemma FlushQuiet(e: Env, s: State, a: Action, u: nat)
    requires FlushInv(e, s) && Enabled(e, s, a) && !a.Step? && FlushKept(s, a) && u < e.g.capacity
    ensures var s' := Do(e, s, a);
            && SharedOk(e, s'.sh)
            && (Lingers(e, s'.sh, u) ==> FlushOwed(s', u))
  {
    hide Rec;
    var s' := Do(e, s, a);
    if a.Evict? {
      LineFacts(e, s.sh, a.line, u);
    }
    if Lingers(e, s'.sh, u) {
      assert Lingers(e, s.sh, u);
      var x :| x in s.threads && Flushing(s.threads[x], u);
      assert x in s'.threads && Flushing(s'.threads[x], u);
    }
  }

  lemma FlushAction(e: Env, s: State, a: Action)
    requires Inv(e, s) && FlushInv(e, s) && Enabled(e, s, a) && FlushKept(s, a)
    ensures FlushInv(e, Do(e, s, a))
  {
    hide Inv, StepPc, Lingers, FlushOwed;
    var s' := Do(e, s, a);
    forall u: nat | u < e.g.capacity
      ensures SharedOk(e, s'.sh) && (Lingers(e, s'.sh, u) ==> FlushOwed(s', u))
    {
      if a.Step? {
        FlushStep(e, s, a.t, u);
      } else {
        FlushQuiet(e, s, a, u);
      }
    }
    FlushQuietOk(e, s, a);
  }

  lemma FlushQuietOk(e: Env, s: State, a: Action)
    requires Enabled(e, s, a)
    ensures SharedOk(e, Do(e, s, a).sh)
  {
    hide StepPc, Rec;
    if a.Step? {
      StepEffect(e, s.sh, a.t, s.threads[a.t], 0);
    }
  }

  lemma {:induction false} FlushRun(e: Env, s: State, as_: seq<Action>)
    requires Inv(e, s) && FlushInv(e, s) && RunFrom(e, s, as_, FlushKept)
    ensures Inv(e, After(e, s, as_, FlushKept)) && FlushInv(e, After(e, s, as_, FlushKept))
    decreases |as_|
  {
    hide Inv, FlushInv;
    if as_ != [] {
      ActionInv(e, s, as_[0]);
      FlushAction(e, s, as_[0]);
      FlushRun(e, Do(e, s, as_[0]), as_[1..]);
    }
  }

  lemma FreshFlush(e: Env)
    requires e.g.Ok()
    ensures FlushInv(e, Fresh(e))
  {
    hide Rec;
    forall u: nat | u < e.g.capacity ensures D(e, Fresh(e).sh, u) == V(e, Fresh(e).sh, u) {
    }
  }

  predicate Both(t: Tid, s: State, a: Action) { Lives(t, s, a) && FlushKept(s, a) }

  function BothRun(t: Tid): (State, Action) -> bool { (s, a) => Both(t, s, a) }

  lemma {:induction false} RunWeaker(e: Env, s: State, as_: seq<Action>, ok: (State, Action) -> bool,
                                     weaker: (State, Action) -> bool)
    requires RunFrom(e, s, as_, ok) && forall x, a :: ok(x, a) ==> weaker(x, a)
    ensures RunFrom(e, s, as_, weaker) && After(e, s, as_, weaker) == After(e, s, as_, ok)
    decreases |as_|
  {
    if as_ != [] {
      RunWeaker(e, Do(e, s, as_[0]), as_[1..], ok, weaker);
    }
  }

  /** From a created pool, if nobody dies between an abandoning store and its flush: when a trim is done, a slot
      below its bound is durably COMMITTED only while another thread has still to flush its abandoning store. With no
      other trim or recover at that point, the trim is durable. */
  lemma TrimIsDurable(e: Env, before: seq<Action>, s: State, t: Tid, upTo: u64, during: seq<Action>, u: nat)
    requires e.g.Ok() && RunFrom(e, Fresh(e), before, FlushKept) && s == After(e, Fresh(e), before, FlushKept)
    requires t in s.threads && s.threads[t] == Start(TrimCall(upTo)) && RunFrom(e, s, during, BothRun(t))
    requires var s' := After(e, s, during, BothRun(t));
             t in s'.threads && s'.threads[t].Done? && s'.threads[t].reply.Trimmed? && u < upTo
    ensures var s' := After(e, s, during, BothRun(t));
            && SharedOk(e, s'.sh) && u < e.g.capacity && !Seen(e, s'.sh, u)
            && (D(e, s'.sh, u)[REC_STATE] == STATE_COMMITTED ==> FlushOwed(s', u))
  {
    hide SharedInv, ThreadInv, CounterInv, Rec;
    FreshInv(e);
    FreshFlush(e);
    FlushRun(e, Fresh(e), before);
    RunWeaker(e, s, during, BothRun(t), FlushKept);
    RunWeaker(e, s, during, BothRun(t), LivesRun(t));
    FlushRun(e, s, during);
    TrimAnswers(e, s, t, upTo, during);
    TrimRun(e, s, t, upTo, s.sh.committed, during);
    var s' := After(e, s, during, BothRun(t));
    TailInPool(e, s'.sh);
    assert !SeenAt(e, s'.sh, u);
    assert D(e, s'.sh, u)[REC_STATE] == STATE_COMMITTED ==> Lingers(e, s'.sh, u);
  }

  // ---- Two trims at once ----

  /** From a reached state, thread t makes a call and runs alone to where the call takes it. */
  lemma CallAlone(e: Env, as_: seq<Action>, s: State, t: Tid, call: Call, to: Move)
      returns (more: seq<Action>, x: State)
    requires Reached(e, as_, s) && t !in s.threads && SharedOk(e, s.sh) && CallOk(e.g, call)
    requires s.sh.reserve + 1 < U64_MAX && Goes(e, s.sh, t, Start(call), to)
    ensures Reached(e, more, x) && as_ <= more && x == State(to.sh, s.threads[t := to.pc])
  {
    hide RunFrom, Protocol.After, Goes;
    Extend(e, Fresh(e), as_, Invoke(t, call));
    var begun := Do(e, s, Invoke(t, call));
    var steps := GoesIsRun(e, begun, t, to);
    RunConcat(e, Fresh(e), as_ + [Invoke(t, call)], steps, AnyRun);
    more := as_ + [Invoke(t, call)] + steps;
    x := After(e, Fresh(e), more, AnyRun);
    assert s.threads[t := Start(call)][t := to.pc] == s.threads[t := to.pc];
  }

  /** One record is appended to a created pool. */
  lemma OneAppended(e: Env, a: Args) returns (as_: seq<Action>, s: State)
    requires e.g.Ok() && ArgsOk(e.g, a)
    ensures Reached(e, as_, s) && s.threads == map[0 := Done(Appended(0, a))] && SharedOk(e, s.sh)
    ensures s.sh.reserve == 1 && 1 <= s.sh.committed <= e.g.capacity
    ensures D(e, s.sh, 0) == V(e, s.sh, 0) && V(e, s.sh, 0)[REC_STATE] == STATE_COMMITTED
    ensures Content(e, V(e, s.sh, 0), 0, a)
  {
    hide Rec, BodyOps, AppendMem, TailEnd, Goes, RunFrom, Protocol.After, StateOf;
    var f := Fresh(e);
    NoSteps(e, f);
    var to := AppendAlone(e, f.sh, 0, a);
    as_, s := CallAlone(e, [], f, 0, AppendCall(a), Move(to, Done(Appended(0, a))));
    AppendFacts(e, f.sh.mem, 0, a);
    EndStep(e, s.sh.mem.vol, 0);
    ReachedInv(e, as_, s);
    TailInPool(e, s.sh);
  }

  /** A trim of slot 0 abandons it and is about to flush. */
  lemma TrimBegins(e: Env, sh: Shared, t: Tid)
    requires SharedOk(e, sh) && 1 <= sh.committed <= e.g.capacity && V(e, sh, 0)[REC_STATE] == STATE_COMMITTED
    ensures var to := StoreState(e, sh.(horizon := Max(sh.horizon, 1)), 0, STATE_ABANDONED);
            && Goes(e, sh, t, Start(TrimCall(1)), Move(to, TrimFlush(1, 0, 0, 0)))
            && SharedOk(e, to) && V(e, to, 0)[REC_STATE] == STATE_ABANDONED && D(e, to, 0) == D(e, sh, 0)
  {
    hide Goes, Rec;
    var begun := sh.(horizon := Max(sh.horizon, 1));
    var to := StoreState(e, begun, 0, STATE_ABANDONED);
    StoreFacts(e, begun, 0, REC_STATE, [STATE_ABANDONED]);
    var done := Move(to, TrimFlush(1, 0, 0, 0));
    GoesInOne(e, begun, t, TrimMark(1, 0, 0));
    TrimLook(e, begun, t, 1, 0, 0);
    GoesAfterStep(e, begun, t, TrimScan(1, 0, 0), done);
    GoesAfterStep(e, sh, t, Start(TrimCall(1)), done);
  }

  /** A trim of a slot that is no longer COMMITTED changes nothing and is done at once. */
  lemma TrimPassesOver(e: Env, sh: Shared, t: Tid)
    requires SharedOk(e, sh) && 1 <= sh.committed <= e.g.capacity && V(e, sh, 0)[REC_STATE] == STATE_ABANDONED
    ensures Goes(e, sh, t, Start(TrimCall(1)), Move(sh.(horizon := Max(sh.horizon, 1)), Done(Trimmed(1, 0))))
  {
    hide Goes, Rec, StateOf;
    TrimAlone(e, sh, t, 1);
    TrimMemStep(e, sh.mem, 0);
    NothingTrimmed(e, sh.mem);
  }

  /** The record of slot 0 reads back. */
  lemma ReadsSlot0(e: Env, sh: Shared, t: Tid, a: Args) returns (to: Shared)
    requires SharedOk(e, sh) && 1 <= sh.committed <= e.g.capacity && ArgsOk(e.g, a)
    requires V(e, sh, 0)[REC_STATE] == STATE_COMMITTED && Content(e, V(e, sh, 0), 0, a)
    ensures Goes(e, sh, t, Start(ReadCall(0, 1)), Move(to, Done(ReadSome(1, EntryOf(0, a)))))
    ensures to.reserve == sh.reserve
  {
    hide Goes, Rec, Content, Intact, Decode;
    ReadAlone(e, sh, t, 0, 1);
    ContentReadsBack(e, V(e, sh, 0), 0, a);
    to := Count(sh, 0, READS_TOTAL, 1);
  }

  /** For every geometry and payload there is such a run: one trim has abandoned slot 0 and not flushed it, a second
      trim is done, and the pool's state allows a power failure to undo both. */
  lemma SecondTrimDone(e: Env, a: Args) returns (as_: seq<Action>, s: State)
    requires e.g.Ok() && ArgsOk(e.g, a)
    ensures Reached(e, as_, s) && SharedOk(e, s.sh) && s.sh.reserve == 1 && 1 <= s.sh.committed <= e.g.capacity
    ensures s.threads == map[0 := Done(Appended(0, a)), 1 := TrimFlush(1, 0, 0, 0), 2 := Done(Trimmed(1, 0))]
    ensures D(e, s.sh, 0)[REC_STATE] == STATE_COMMITTED && Content(e, D(e, s.sh, 0), 0, a)
    ensures V(e, s.sh, 0)[REC_STATE] == STATE_ABANDONED
  {
    hide Rec, Goes, RunFrom, Protocol.After, Content, Reached, StoreState;
    as_, s := OneAppended(e, a);
    TrimBegins(e, s.sh, 1);
    var to := StoreState(e, s.sh.(horizon := Max(s.sh.horizon, 1)), 0, STATE_ABANDONED);
    StoreLeaves(e, s.sh.(horizon := Max(s.sh.horizon, 1)));
    as_, s := CallAlone(e, as_, s, 1, TrimCall(1), Move(to, TrimFlush(1, 0, 0, 0)));
    TrimPassesOver(e, s.sh, 2);
    as_, s := CallAlone(e, as_, s, 2, TrimCall(1), Move(s.sh.(horizon := Max(s.sh.horizon, 1)), Done(Trimmed(1, 0))));
  }

  lemma StoreLeaves(e: Env, sh: Shared)
    requires SharedOk(e, sh)
    ensures var to := StoreState(e, sh, 0, STATE_ABANDONED); to.committed == sh.committed && to.reserve == sh.reserve
  {
  }

  /** After it a power failure brings the record back: a read returns it, though a trim that covered it was done and no
      append has run since. */
  lemma OverlappingTrimIsUndone(e: Env, a: Args)
      returns (as_: seq<Action>, s: State, later: seq<Action>, x: State)
    requires e.g.Ok() && ArgsOk(e.g, a)
    ensures Reached(e, as_, s) && 2 in s.threads && s.threads[2] == Done(Trimmed(1, 0)) && s.sh.reserve == 1
    ensures SharedOk(e, s.sh) && !SeenAt(e, s.sh, 0)
    ensures Reached(e, later, x) && as_ + [Crash] <= later && x.sh.reserve == 1
    ensures 3 in x.threads && x.threads[3] == Done(ReadSome(1, EntryOf(0, a)))
  {
    hide Rec, Goes, RunFrom, Protocol.After, Content;
    as_, s := SecondTrimDone(e, a);
    Extend(e, Fresh(e), as_, Crash);
    var c := Do(e, s, Crash);
    assert V(e, c.sh, 0) == D(e, s.sh, 0);
    var to := ReadsSlot0(e, c.sh, 3, a);
    later, x := ReadBackRun(e, as_ + [Crash], c, a, to);
  }

  lemma ReadBackRun(e: Env, as_: seq<Action>, c: State, a: Args, to: Shared) returns (later: seq<Action>, x: State)
    requires Reached(e, as_, c) && c.threads == map[] && SharedOk(e, c.sh) && c.sh.reserve == 1
    requires a.host < U16_LIMIT && Goes(e, c.sh, 3, Start(ReadCall(0, 1)), Move(to, Done(ReadSome(1, EntryOf(0, a)))))
    requires to.reserve == 1
    ensures Reached(e, later, x) && as_ <= later && x.sh.reserve == 1
    ensures 3 in x.threads && x.threads[3] == Done(ReadSome(1, EntryOf(0, a)))
  {
    hide Goes, RunFrom, Protocol.After;
    later, x := CallAlone(e, as_, c, 3, ReadCall(0, 1), Move(to, Done(ReadSome(1, EntryOf(0, a)))));
  }
}
