/** How a trim under a sweep loses advancement: a run after which a COMMITTED slot waits at committed_tail and nobody is
    left to advance it. */
module SweepRace {
  import opened Bytes
  import opened Layout
  import opened Media
  import opened Records
  import opened LogImage
  import opened Protocol
  import opened ProtocolInv
  import opened ProtocolSteps
  import opened StepEffects
  import opened Safety
  import opened Progress
  import opened RecoverRace
  import opened StepPrograms

  predicate Calm(as_: seq<Action>) { forall a | a in as_ :: a.Invoke? || a.Step? || a.Return? }

  /** s is reached from a created pool by as_, in which nobody dies and no line is evicted. */
  ghost predicate CalmlyReached(e: Env, as_: seq<Action>, s: State)
    ensures CalmlyReached(e, as_, s) ==> SharedOk(e, s.sh)
  {
    Reached(e, as_, s) && Inv(e, s) && Calm(as_)
  }

  lemma Go(e: Env, as_: seq<Action>, s: State, a: Action)
    requires CalmlyReached(e, as_, s) && Enabled(e, s, a) && NoWrapAhead(s) && (a.Invoke? || a.Step? || a.Return?)
    ensures CalmlyReached(e, as_ + [a], Do(e, s, a))
  {
    hide Inv;
    Extend(e, Fresh(e), as_, a);
    ActionInv(e, s, a);
  }

  /** The state byte of slot u after the next step of a thread at pc. */
  function ByteAfter(pc: Pc, u: nat, now: byte): byte {
    if StoredState(pc).Some? && StoredState(pc).value.0 == u then StoredState(pc).value.1 else now
  }

  /** One step of thread t, and what it leaves of the words and state bytes. */
  lemma Advance(e: Env, as_: seq<Action>, s: State, t: Tid) returns (next: State)
    requires CalmlyReached(e, as_, s) && s.sh.reserve < U64_MAX && t in s.threads && !s.threads[t].Done?
    ensures Enabled(e, s, Step(t)) && next == Do(e, s, Step(t)) && CalmlyReached(e, as_ + [Step(t)], next)
    ensures next.threads == s.threads[t := StepPc(e, s.sh, t, s.threads[t]).pc] && SharedOk(e, next.sh)
    ensures forall u: nat | u < e.g.capacity ::
            StateByte(e, next.sh, u) == ByteAfter(s.threads[t], u, StateByte(e, s.sh, u))
    ensures next.sh.committed == StepPc(e, s.sh, t, s.threads[t]).sh.committed
    ensures !s.threads[t].Start? && !s.threads[t].Undo? ==>
            next.sh.reserve == s.sh.reserve && next.sh.grants == s.sh.grants
  {
    hide StepPc, SharedInv, ThreadInv, CounterInv, PcOk, Rec;
    assert Enabled(e, s, Step(t)) by {
      assert ThreadInv(e, s.sh, t, s.threads[t]);
    }
    next := Do(e, s, Step(t));
    Go(e, as_, s, Step(t));
    forall u: nat | u < e.g.capacity
      ensures SharedOk(e, next.sh) && StateByte(e, next.sh, u) == ByteAfter(s.threads[t], u, StateByte(e, s.sh, u))
    {
      StepEffect(e, s.sh, t, s.threads[t], u);
    }
    StepEffect(e, s.sh, t, s.threads[t], 0);
    if !s.threads[t].Start? && !s.threads[t].Undo? {
      ReserveEffect(e, s.sh, t, s.threads[t]);
    }
  }

  /** The operation of the program that commits. */
  function CommitAt(e: Env, u: nat, a: Args): nat
    requires e.g.Ok() && SlotOk(e.g, u, a)
  {
    |BodyOps(e, u, a)| + NumLines(e.g.RecordOffset(u), e.g.recordSize)
  }

  lemma StageStores(e: Env, u: nat, a: Args, k: nat)
    requires e.g.Ok() && SlotOk(e.g, u, a) && k < |AppendProgram(e, u, a)|
    ensures var pc := Stage(e, u, a, k);
            && !pc.Done? && !pc.Start? && !pc.Undo? && !pc.Sweeping?
            && (StoredState(pc).Some? ==> StoredState(pc).value.0 == u)
            && (k == CommitAt(e, u, a) ==> StoredState(pc) == Some((u, STATE_COMMITTED)))
            && (k > CommitAt(e, u, a) ==> StoredState(pc) == None)
    ensures CommitAt(e, u, a) < |AppendProgram(e, u, a)|
  {
    hide BodyOps, NumLines, AppendProgram;
    ProgramShape(e, u, a);
  }

  /** An append that holds its slot runs alone to the start of its sweep, leaving the slot COMMITTED and all else of
      interest as it was. */
  lemma Drive(e: Env, as_: seq<Action>, s: State, t: Tid, u: nat, a: Args, k: nat) returns (more: seq<Action>, r: State)
    requires CalmlyReached(e, as_, s) && s.sh.reserve < U64_MAX && SlotOk(e.g, u, a)
    requires t in s.threads && s.threads[t] == Stage(e, u, a, k) && k <= |AppendProgram(e, u, a)|
    requires k > CommitAt(e, u, a) ==> StateByte(e, s.sh, u) == STATE_COMMITTED
    ensures CalmlyReached(e, more, r) && SharedOk(e, r.sh)
    ensures r.threads == s.threads[t := Sweeping(ForAppend(u, a), LoadTail(0, 0))]
    ensures r.sh.committed == s.sh.committed && r.sh.reserve == s.sh.reserve && r.sh.grants == s.sh.grants
    ensures forall w: nat | w < e.g.capacity ::
              StateByte(e, r.sh, w) == (if w == u then STATE_COMMITTED else StateByte(e, s.sh, w))
    decreases |AppendProgram(e, u, a)| - k
  {
    hide CalmlyReached, AppendProgram, Stage, StateByte, StepPc, StoredState, CommitAt;
    if k == |AppendProgram(e, u, a)| {
      more, r := as_, s;
      LastStage(e, u, a);
    } else {
      StageStores(e, u, a, k);
      StepIsProgramOp(e, s.sh, t, u, a, k);
      TailEffect(e, s.sh, t, Stage(e, u, a, k));
      var n := Advance(e, as_, s, t);
      more, r := Drive(e, as_ + [Step(t)], n, t, u, a, k + 1);
      assert r.threads == s.threads[t := Sweeping(ForAppend(u, a), LoadTail(0, 0))];
    }
  }

  lemma LastStage(e: Env, u: nat, a: Args)
    requires e.g.Ok() && SlotOk(e.g, u, a)
    ensures Stage(e, u, a, |AppendProgram(e, u, a)|) == Sweeping(ForAppend(u, a), LoadTail(0, 0))
    ensures CommitAt(e, u, a) < |AppendProgram(e, u, a)|
  {
    hide BodyOps, NumLines, AppendProgram;
    ProgramShape(e, u, a);
  }

  /** What the proof tracks of a state: threads, the two tails, and the states of the first two slots. */
  ghost predicate Looks(e: Env, as_: seq<Action>, s: State, threads: map<Tid, Pc>, committed: nat, reserve: nat,
                        b0: byte, b1: byte)
  {
    && CalmlyReached(e, as_, s) && SharedOk(e, s.sh) && e.g.capacity >= 2
    && s.threads == threads && s.sh.committed == committed && s.sh.reserve == reserve
    && StateByte(e, s.sh, 0) == b0 && StateByte(e, s.sh, 1) == b1
  }

  lemma Begin(e: Env, as_: seq<Action>, s: State, t: Tid, call: Call, threads: map<Tid, Pc>, c: nat, r: nat, b0: byte,
              b1: byte)
    requires Looks(e, as_, s, threads, c, r, b0, b1) && t !in threads && CallOk(e.g, call) && r < U64_MAX
    ensures Enabled(e, s, Invoke(t, call))
    ensures Looks(e, as_ + [Invoke(t, call)], Do(e, s, Invoke(t, call)), threads[t := Start(call)], c, r, b0, b1)
  {
    hide Inv, Rec, StateByte, RunFrom, Protocol.After;
    Go(e, as_, s, Invoke(t, call));
  }

  /** Two appends reserve slots 0 and 1. */
  lemma TwoReserve(e: Env, a: Args) returns (as_: seq<Action>, s: State)
    requires e.g.Ok() && e.g.capacity >= 2 && ArgsOk(e.g, a)
    ensures Looks(e, as_, s, map[0 := Body(0, a, 0), 1 := Body(1, a, 0)], 0, 2, STATE_FREE, STATE_FREE)
  {
    hide Inv, RunFrom, Protocol.After, BodyOps, CalmlyReached;
    FreshInv(e);
    FreshLooks(e);
    Begin(e, [], Fresh(e), 0, AppendCall(a), map[], 0, 0, STATE_FREE, STATE_FREE);
    var s1 := Do(e, Fresh(e), Invoke(0, AppendCall(a)));
    as_ := [] + [Invoke(0, AppendCall(a))];
    s := Advance(e, as_, s1, 0);
    as_ := as_ + [Step(0)];
    Begin(e, as_, s, 1, AppendCall(a), map[0 := Body(0, a, 0)], 0, 1, STATE_FREE, STATE_FREE);
    var s2 := Do(e, s, Invoke(1, AppendCall(a)));
    as_ := as_ + [Invoke(1, AppendCall(a))];
    s := Advance(e, as_, s2, 1);
    as_ := as_ + [Step(1)];
    assert s.threads == map[0 := Body(0, a, 0), 1 := Body(1, a, 0)];
  }

  lemma FreshLooks(e: Env)
    requires e.g.Ok() && e.g.capacity >= 2
    ensures Looks(e, [], Fresh(e), map[], 0, 0, STATE_FREE, STATE_FREE)
  {
    FreshInv(e);
    NoSteps(e, Fresh(e));
    RecordBounds(e.g, 0);
    RecordBounds(e.g, 1);
  }

  /** The first append commits slot 0 and scans to slot 1, which is not COMMITTED yet: it is about to set the tail to
      1. */
  lemma FirstStopsAtOne(e: Env, a: Args) returns (as_: seq<Action>, s: State)
    requires e.g.Ok() && e.g.capacity >= 2 && ArgsOk(e.g, a)
    ensures Looks(e, as_, s, map[0 := Sweeping(ForAppend(0, a), SwapTail(0, 0, 0, 1)), 1 := Body(1, a, 0)], 0, 2,
            STATE_COMMITTED, STATE_FREE)
  {
    hide BodyOps, CalmlyReached, StateByte, AppendProgram;
    as_, s := TwoReserve(e, a);
    FirstStages(e, 0, a);
    as_, s := Drive(e, as_, s, 0, 0, a, 0);
    s := Advance(e, as_, s, 0);
    as_ := as_ + [Step(0)];
    s := Advance(e, as_, s, 0);
    as_ := as_ + [Step(0)];
    s := Advance(e, as_, s, 0);
    as_ := as_ + [Step(0)];
    assert s.threads == map[0 := Sweeping(ForAppend(0, a), SwapTail(0, 0, 0, 1)), 1 := Body(1, a, 0)];
  }

  lemma FirstStages(e: Env, u: nat, a: Args)
    requires e.g.Ok() && SlotOk(e.g, u, a)
    ensures Stage(e, u, a, 0) == Body(u, a, 0)
  {
    ProgramShape(e, u, a);
  }

  /** The second append commits slot 1 and loads the tail, which is still 0; then the first sets it to 1 and returns. */
  lemma SecondLoadsOldTail(e: Env, a: Args) returns (as_: seq<Action>, s: State)
    requires e.g.Ok() && e.g.capacity >= 2 && ArgsOk(e.g, a)
    ensures Looks(e, as_, s, map[0 := CountAppend(0, a), 1 := Sweeping(ForAppend(1, a), ScanFrom(0, 0, 0, 0))], 1, 2,
            STATE_COMMITTED, STATE_COMMITTED)
  {
    hide BodyOps, CalmlyReached, StateByte, AppendProgram;
    as_, s := FirstStopsAtOne(e, a);
    FirstStages(e, 1, a);
    as_, s := Drive(e, as_, s, 1, 1, a, 0);
    s := Advance(e, as_, s, 1);
    as_ := as_ + [Step(1)];
    s := Advance(e, as_, s, 0);
    as_ := as_ + [Step(0)];
    assert s.threads == map[0 := CountAppend(0, a), 1 := Sweeping(ForAppend(1, a), ScanFrom(0, 0, 0, 0))];
  }

  /** The first append returns its index. */
  lemma FirstReturns(e: Env, a: Args) returns (as_: seq<Action>, s: State)
    requires e.g.Ok() && e.g.capacity >= 2 && ArgsOk(e.g, a)
    ensures Looks(e, as_, s, map[0 := Done(Appended(0, a)), 1 := Sweeping(ForAppend(1, a), ScanFrom(0, 0, 0, 0))],
                  1, 2, STATE_COMMITTED, STATE_COMMITTED)
  {
    hide BodyOps, CalmlyReached, StateByte;
    as_, s := SecondLoadsOldTail(e, a);
    s := Advance(e, as_, s, 0);
    as_ := as_ + [Step(0)];
    s := Advance(e, as_, s, 0);
    as_ := as_ + [Step(0)];
    assert s.threads == map[0 := Done(Appended(0, a)), 1 := Sweeping(ForAppend(1, a), ScanFrom(0, 0, 0, 0))];
  }

  /** A trim of slot 0 starts, and its next step abandons the slot. That this store dooms can be told before it: the
      state is not doomed, but would be without slot 0. */
  lemma TrimArrives(e: Env, a: Args) returns (as_: seq<Action>, s: State)
    requires e.g.Ok() && e.g.capacity >= 2 && ArgsOk(e.g, a)
    ensures Looks(e, as_, s, map[0 := Done(Appended(0, a)), 1 := Sweeping(ForAppend(1, a), ScanFrom(0, 0, 0, 0)),
                                 2 := TrimMark(1, 0, 0)],
                  1, 2, STATE_COMMITTED, STATE_COMMITTED)
    ensures !Doomed(e, s, {}) && Doomed(e, s, {0})
  {
    hide BodyOps, CalmlyReached, StateByte;
    as_, s := FirstReturns(e, a);
    var two := map[0 := Done(Appended(0, a)), 1 := Sweeping(ForAppend(1, a), ScanFrom(0, 0, 0, 0))];
    Begin(e, as_, s, 2, TrimCall(1), two, 1, 2, STATE_COMMITTED, STATE_COMMITTED);
    as_, s := as_ + [Invoke(2, TrimCall(1))], Do(e, s, Invoke(2, TrimCall(1)));
    s := Advance(e, as_, s, 2);
    as_ := as_ + [Step(2)];
    s := Advance(e, as_, s, 2);
    as_ := as_ + [Step(2)];
    assert s.threads == two[2 := TrimMark(1, 0, 0)];
    StoreDooms(e, s, a);
  }

  lemma StoreDooms(e: Env, s: State, a: Args)
    requires SharedOk(e, s.sh) && e.g.capacity >= 2 && s.sh.committed == 1
    requires StateByte(e, s.sh, 0) == STATE_COMMITTED && StateByte(e, s.sh, 1) == STATE_COMMITTED
    requires s.threads == map[0 := Done(Appended(0, a)), 1 := Sweeping(ForAppend(1, a), ScanFrom(0, 0, 0, 0)),
                              2 := TrimMark(1, 0, 0)]
    ensures !Doomed(e, s, {}) && Doomed(e, s, {0})
  {
    hide SharedOk, StateByte, SeenAt;
    SeenByte(e, s.sh, 0);
    SeenByte(e, s.sh, 1);
    assert 1 in s.threads && Heading(s.threads[1]) && !GivingUp(e, s.sh, {}, s.threads[1]);
    assert Unwatched(e, s, {0});
  }

  /** It abandons it. */
  lemma TrimPasses(e: Env, a: Args) returns (as_: seq<Action>, s: State)
    requires e.g.Ok() && e.g.capacity >= 2 && ArgsOk(e.g, a)
    ensures Looks(e, as_, s, map[0 := Done(Appended(0, a)), 1 := Sweeping(ForAppend(1, a), ScanFrom(0, 0, 0, 0)),
                                 2 := TrimFlush(1, 0, 0, 0)],
                  1, 2, STATE_ABANDONED, STATE_COMMITTED)
  {
    hide BodyOps, CalmlyReached, StateByte, Doomed;
    as_, s := TrimArrives(e, a);
    var two := map[0 := Done(Appended(0, a)), 1 := Sweeping(ForAppend(1, a), ScanFrom(0, 0, 0, 0))];
    s := Advance(e, as_, s, 2);
    as_ := as_ + [Step(2)];
    assert s.threads == two[2 := TrimFlush(1, 0, 0, 0)];
  }

  /** For every pool of at least two slots and every payload there is a run without deaths, crashes or recoveries after
      which both appends have returned, slot 1 is COMMITTED at committed_tail, and no thread is left that will look at
      it: a trim abandoned slot 0 under the second append's sweep. */
  lemma TrimUnderSweepLosesAdvancement(e: Env, a: Args) returns (as_: seq<Action>, s: State)
    requires e.g.Ok() && e.g.capacity >= 2 && ArgsOk(e.g, a)
    ensures Reached(e, as_, s) && Calm(as_) && SharedOk(e, s.sh)
    ensures s.threads == map[0 := Done(Appended(0, a)), 1 := Done(Appended(1, a)), 2 := TrimFlush(1, 0, 0, 0)]
    ensures s.sh.committed == 1 && s.sh.reserve == 2 && Stranded(e, s)
  {
    hide BodyOps, Inv, RunFrom, Protocol.After, StateByte;
    as_, s := TrimPasses(e, a);
    s := Advance(e, as_, s, 1);
    as_ := as_ + [Step(1)];
    s := Advance(e, as_, s, 1);
    as_ := as_ + [Step(1)];
    s := Advance(e, as_, s, 1);
    as_ := as_ + [Step(1)];
    SeenByte(e, s.sh, 1);
    assert s.threads == map[0 := Done(Appended(0, a)), 1 := Done(Appended(1, a)), 2 := TrimFlush(1, 0, 0, 0)];
  }
}
