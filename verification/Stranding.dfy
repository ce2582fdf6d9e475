/** The runs in which advancement is lost: from every doomed state there is one, without any further death, crash or
    abandoning store. */
module Stranding {
  import opened Layout
  import opened Media
  import opened Records
  import opened Protocol
  import opened ProtocolInv
  import opened ProtocolSteps
  import opened StepEffects
  import opened Safety
  import opened Durability
  import opened RecoverRace
  import opened Progress

  /** Some harmless run from here ends with a COMMITTED slot at the tail and nobody on the way to it. */
  ghost predicate CanLose(e: Env, s: State) {
    exists as_ :: RunFrom(e, s, as_, HarmlessRun(e)) && Stranded(e, After(e, s, as_, HarmlessRun(e)))
  }

  lemma LostNow(e: Env, s: State)
    requires Stranded(e, s)
    ensures CanLose(e, s)
  {
    hide Stranded;
    assert RunFrom(e, s, [], HarmlessRun(e)) && After(e, s, [], HarmlessRun(e)) == s;
  }

  lemma LostLater(e: Env, s: State, a: Action)
    requires Enabled(e, s, a) && NoWrapAhead(s) && !Risky(s, a) && CanLose(e, Do(e, s, a))
    ensures CanLose(e, s)
  {
    hide Stranded, Doomed;
    var next := Do(e, s, a);
    var rest :| RunFrom(e, next, rest, HarmlessRun(e)) && Stranded(e, After(e, next, rest, HarmlessRun(e)));
    var as_ := [a] + rest;
    assert as_[0] == a && as_[1..] == rest;
    assert RunFrom(e, s, as_, HarmlessRun(e));
  }

  // ---- A COMMITTED slot at the tail that is unwatched ----

  lemma UnwatchedLoses(e: Env, s: State)
    requires Inv(e, s) && NoWrapAhead(s) && SeenAt(e, s.sh, s.sh.committed) && Unwatched(e, s, {})
    ensures CanLose(e, s)
    decreases CountPc(s.threads, Heading)
  {
    hide SharedInv, ThreadInv, CounterInv, SharedOk, SeenAt, CountPc, StepPc;
    if t :| t in s.threads && GivingUp(e, s.sh, {}, s.threads[t]) {
      GiveUp(e, s, t);
      CountMove(s.threads, t, Do(e, s, Step(t)).threads[t], Heading);
      ActionInv(e, s, Step(t));
      UnwatchedLoses(e, Do(e, s, Step(t)));
      LostLater(e, s, Step(t));
    } else if t :| t in s.threads && Heading(s.threads[t]) {
      SwapStrands(e, s, t);
      LostNow(e, Do(e, s, Step(t)));
      LostLater(e, s, Step(t));
    } else {
      assert Stranded(e, s);
      LostNow(e, s);
    }
  }

  lemma GiveUp(e: Env, s: State, t: Tid)
    requires Inv(e, s) && t in s.threads && GivingUp(e, s.sh, {}, s.threads[t]) && Unwatched(e, s, {})
    ensures Enabled(e, s, Step(t))
    ensures var s' := Do(e, s, Step(t)); s'.sh == s.sh && !Heading(s'.threads[t]) && Unwatched(e, s', {})
  {
    hide SharedInv, CounterInv, SharedOk, SeenAt, StateByte;
    assert ThreadInv(e, s.sh, t, s.threads[t]);
    var n := s.threads[t].sweep.new_;
    if n < e.g.capacity {
      SeenByte(e, s.sh, n);
    }
  }

  /** The last sweep moves the tail to a COMMITTED slot. */
  lemma SwapStrands(e: Env, s: State, t: Tid)
    requires Inv(e, s) && t in s.threads && Swapping(s.sh.committed, s.threads[t])
    requires SeenAt(e, s.sh, s.threads[t].sweep.new_)
    requires forall x | x in s.threads && Heading(s.threads[x]) :: x == t
    ensures Enabled(e, s, Step(t)) && Stranded(e, Do(e, s, Step(t)))
  {
    hide SharedInv, CounterInv, StateByte, Rec;
    assert ThreadInv(e, s.sh, t, s.threads[t]);
  }

  // ---- A sweep that can carry the tail over a slot that is not COMMITTED ----

  /** The tail slot is not COMMITTED, and of all sweeps only that of x can move the tail. */
  ghost predicate Held(e: Env, s: State, x: Tid) {
    && Inv(e, s) && NoWrapAhead(s) && !SeenAt(e, s.sh, s.sh.committed)
    && x in s.threads && Passing(s.sh.committed, s.threads[x])
    && forall t | t in s.threads && Passing(s.sh.committed, s.threads[t]) :: t == x
  }

  /** Nothing another thread does but an abandoning store disturbs that. */
  lemma OtherStep(e: Env, s: State, x: Tid, t: Tid)
    requires Held(e, s, x) && t in s.threads && t != x && !s.threads[t].Done? && !Abandoning(s.threads[t])
    ensures Enabled(e, s, Step(t))
    ensures var s' := Do(e, s, Step(t));
            && (NoWrapAhead(s') ==> Held(e, s', x)) && s'.threads[x] == s.threads[x]
            && s'.sh.committed == s.sh.committed && SharedOk(e, s'.sh)
            && (forall u: nat :: SeenAt(e, s.sh, u) ==> SeenAt(e, s'.sh, u))
            && (s.threads[t].Commit? ==> SeenAt(e, s'.sh, s.threads[t].slot))
  {
    hide SharedInv, ThreadInv, CounterInv, SharedOk, SeenAt, StepPc;
    var pc, c := s.threads[t], s.sh.committed;
    assert ThreadInv(e, s.sh, t, pc) && ThreadInv(e, s.sh, x, s.threads[x]);
    var s' := Do(e, s, Step(t));
    TailEffect(e, s.sh, t, pc);
    SeenEffect(e, s.sh, t, pc, 0);
    forall u: nat
      ensures SeenAt(e, s.sh, u) ==> SeenAt(e, s'.sh, u)
      ensures SeenAt(e, s'.sh, u) ==> SeenAt(e, s.sh, u) || (pc.Commit? && pc.slot == u)
    {
      SeenEffect(e, s.sh, t, pc, u);
    }
    if pc.Commit? {
      PassedIsLanded(e, s.sh, x, s.threads[x], t, pc);
    }
    PassingBack(e, s, t);
    ActionInv(e, s, Step(t));
  }

  lemma PassedIsLanded(e: Env, sh: Shared, x: Tid, p: Pc, t: Tid, pc: Pc)
    requires SharedOk(e, sh) && GrantsOk(e, sh) && ThreadInv(e, sh, x, p) && ThreadInv(e, sh, t, pc)
    requires Passing(sh.committed, p) && pc.Commit?
    ensures pc.slot != sh.committed
  {
    hide SharedOk, GrantsOk;
  }

  /** The remaining steps of a thread on its way. */
  function Ahead(e: Env, pc: Pc): (int, int, int)
    requires e.g.Ok() && PcOk(e, pc) && Heading(pc)
  {
    match pc
    case FlushState(u, _, j) => (1, NumLines(e.g.RecordOffset(u), CACHELINE) - j, 0)
    case Sweeping(_, w) => (0, Rank(e.g.capacity, w).0, Rank(e.g.capacity, w).1)
  }

  lemma HeadingAdvances(e: Env, sh: Shared, t: Tid, pc: Pc)
    requires SharedInv(e, sh) && ThreadInv(e, sh, t, pc) && Heading(pc)
    ensures var m := StepPc(e, sh, t, pc);
            && m.sh.reserve == sh.reserve && m.sh.grants == sh.grants
            && (Heading(m.pc) ==> PcOk(e, m.pc) && Less(Ahead(e, m.pc), Ahead(e, pc)))
  {
    hide Rec, GrantsOk, Content, SlotInv, Apply, StateByte, NumLines;
    if pc.Sweeping? {
      SweepAdvances(e, sh, t, pc);
    }
  }

  /** Everybody else looks at the tail in vain; then x moves it. */
  lemma DrainThenSwap(e: Env, s: State, x: Tid)
    requires Held(e, s, x) && Swapping(s.sh.committed, s.threads[x]) && SeenAt(e, s.sh, s.threads[x].sweep.new_)
    ensures CanLose(e, s)
    decreases CountPc(s.threads, Heading), 1, 0, 0, 0
  {
    hide SharedInv, ThreadInv, CounterInv, SharedOk, SeenAt, CountPc, StepPc, Ahead;
    if t :| t in s.threads && t != x && Heading(s.threads[t]) {
      assert ThreadInv(e, s.sh, t, s.threads[t]);
      DrainOne(e, s, x, t);
    } else {
      SwapStrands(e, s, x);
      LostNow(e, Do(e, s, Step(x)));
      LostLater(e, s, Step(x));
    }
  }

  lemma DrainOne(e: Env, s: State, x: Tid, t: Tid)
    requires Held(e, s, x) && Swapping(s.sh.committed, s.threads[x]) && SeenAt(e, s.sh, s.threads[x].sweep.new_)
    requires t in s.threads && t != x && Heading(s.threads[t]) && PcOk(e, s.threads[t])
    ensures CanLose(e, s)
    decreases CountPc(s.threads, Heading), 0,
              Ahead(e, s.threads[t]).0, Ahead(e, s.threads[t]).1, Ahead(e, s.threads[t]).2
  {
    hide SharedInv, ThreadInv, CounterInv, SharedOk, SeenAt, CountPc, StepPc, Ahead;
    var s' := Do(e, s, Step(t));
    assert ThreadInv(e, s.sh, t, s.threads[t]);
    HeadingAdvances(e, s.sh, t, s.threads[t]);
    OtherStep(e, s, x, t);
    CountMove(s.threads, t, s'.threads[t], Heading);
    if Heading(s'.threads[t]) {
      DrainOne(e, s', x, t);
    } else {
      DrainThenSwap(e, s', x);
    }
    LostLater(e, s, Step(t));
  }

  /** The append that is filling the slot at which x stopped commits it first. */
  lemma FillThenSwap(e: Env, s: State, x: Tid, t: Tid)
    requires Held(e, s, x) && Swapping(s.sh.committed, s.threads[x]) && t in s.threads && t != x
    requires MidAppend(s.threads[t]) && s.threads[t].slot == s.threads[x].sweep.new_ && PcOk(e, s.threads[t])
    ensures CanLose(e, s)
    decreases Left(e, s.threads[t]).0, Left(e, s.threads[t]).1, Left(e, s.threads[t]).2
  {
    hide SharedInv, ThreadInv, CounterInv, SharedOk, SeenAt, StepPc, Left, SlotOf;
    var pc, s' := s.threads[t], Do(e, s, Step(t));
    assert ThreadInv(e, s.sh, t, pc);
    AppendAdvances(e, s.sh, t, pc);
    AppendSideEffects(e, s.sh, t, pc);
    OtherStep(e, s, x, t);
    FillMoves(e, s.sh, t, pc);
    if pc.Commit? {
      DrainThenSwap(e, s', x);
    } else {
      FillThenSwap(e, s', x, t);
    }
    LostLater(e, s, Step(t));
  }

  /** A number that is nobody's. */
  lemma {:induction false} FreshTid(used: set<Tid>) returns (t: Tid)
    ensures forall x | x in used :: x < t
  {
    if used == {} {
      t := 0;
    } else {
      var x :| x in used;
      var above := FreshTid(used - {x});
      t := above + x + 1;
      assert forall y | y in used :: y == x || y in used - {x};
    }
  }

  /** A sweep about to move the tail to a slot that was not handed out: a new append takes it. */
  lemma ReserveThenSwap(e: Env, s: State, x: Tid)
    requires Held(e, s, x) && Swapping(s.sh.committed, s.threads[x])
    requires |s.sh.grants| <= s.threads[x].sweep.new_ < e.g.capacity
    ensures CanLose(e, s)
  {
    hide SharedInv, ThreadInv, CounterInv, SeenAt, BodyOps, Rec;
    var t := FreshTid(s.threads.Keys);
    var call := AppendCall(Args(0, 0, []));
    var s1 := Do(e, s, Invoke(t, call));
    NextIsGranted(e, s, x);
    ActionInv(e, s, Invoke(t, call));
    assert Held(e, s1, x);
    OtherStep(e, s1, x, t);
    var s2 := Do(e, s1, Step(t));
    assert s2.threads[t] == Body(s.sh.reserve, call.args, 0) && s2.sh.reserve == s.sh.reserve + 1;
    FillThenSwap(e, s2, x, t);
    LostLater(e, s1, Step(t));
    LostLater(e, s, Invoke(t, call));
  }

  /** What a sweep has passed was handed out, so the slot it stops at is at most the next to be. */
  lemma NextIsGranted(e: Env, s: State, x: Tid)
    requires Inv(e, s) && x in s.threads && Swapping(s.sh.committed, s.threads[x])
    requires |s.sh.grants| <= s.threads[x].sweep.new_ < e.g.capacity
    ensures s.sh.reserve == |s.sh.grants| == s.threads[x].sweep.new_
  {
    hide Rec, Content;
    CounterReads(e, s);
    assert ThreadInv(e, s.sh, x, s.threads[x]);
    assert s.threads[x].sweep.new_ - 1 in s.sh.landed;
    assert SlotInv(e, s.sh, s.threads[x].sweep.new_ - 1);
  }

  lemma SwapperLoses(e: Env, s: State, x: Tid)
    requires Held(e, s, x) && Swapping(s.sh.committed, s.threads[x])
    requires var j := s.threads[x].sweep.new_; SeenAt(e, s.sh, j) || CanFill(e, s, j)
    ensures CanLose(e, s)
  {
    hide SharedInv, ThreadInv, CounterInv, SharedOk, SeenAt;
    var j := s.threads[x].sweep.new_;
    if SeenAt(e, s.sh, j) {
      DrainThenSwap(e, s, x);
    } else if |s.sh.grants| <= j {
      ReserveThenSwap(e, s, x);
    } else {
      var t :| t in s.threads && MidAppend(s.threads[t]) && s.threads[t].slot == j;
      assert ThreadInv(e, s.sh, t, s.threads[t]);
      FillThenSwap(e, s, x, t);
    }
  }

  /** A sweep that is still scanning reaches the slot it will stop at. */
  lemma StranderLoses(e: Env, s: State, x: Tid, j: nat)
    requires Held(e, s, x) && Strander(e, s, {}, x, j)
    ensures CanLose(e, s)
    decreases j - s.threads[x].sweep.new_, if Swapping(s.sh.committed, s.threads[x]) then 0 else 1
  {
    hide SharedInv, ThreadInv, CounterInv, SharedOk, SeenAt, StepPc, CanFill;
    if Swapping(s.sh.committed, s.threads[x]) {
      SwapperLoses(e, s, x);
    } else {
      ScanOn(e, s, x, j);
      ActionInv(e, s, Step(x));
      StranderLoses(e, Do(e, s, Step(x)), x, j);
      LostLater(e, s, Step(x));
    }
  }

  lemma ScanOn(e: Env, s: State, x: Tid, j: nat)
    requires Held(e, s, x) && Strander(e, s, {}, x, j) && !Swapping(s.sh.committed, s.threads[x])
    ensures Enabled(e, s, Step(x))
    ensures var s' := Do(e, s, Step(x));
            && s'.sh == s.sh && Passing(s.sh.committed, s'.threads[x])
            && s'.threads[x].sweep.new_ <= j && Strander(e, s', {}, x, j)
            && (s'.threads[x].sweep.new_ > s.threads[x].sweep.new_ || Swapping(s.sh.committed, s'.threads[x]))
            && (forall t | t in s.threads && Passing(s.sh.committed, s'.threads[t]) :: t == x)
  {
    hide SharedInv, CounterInv, SharedOk, SeenAt, StateByte;
    var w := s.threads[x].sweep;
    assert ThreadInv(e, s.sh, x, s.threads[x]);
    BeyondUnseen(e, s.sh);
    if w.new_ < e.g.capacity {
      SeenByte(e, s.sh, w.new_);
    }
    assert w.new_ < j ==> Still(e, s.sh, {}, w.new_);
    StillFills(e, s, x, j);
  }

  /** Who fills a slot does not change when a sweeper steps. */
  lemma StillFills(e: Env, s: State, x: Tid, j: nat)
    requires Enabled(e, s, Step(x)) && s.threads[x].Sweeping? && CanFill(e, s, j)
    ensures CanFill(e, Do(e, s, Step(x)), j)
  {
    hide SharedOk, StepPc;
    var s' := Do(e, s, Step(x));
    ReserveEffect(e, s.sh, x, s.threads[x]);
    if Filling(s, j) {
      var t :| t in s.threads && MidAppend(s.threads[t]) && s.threads[t].slot == j;
      assert t in s'.threads && MidAppend(s'.threads[t]);
    }
  }

  // ---- The exact condition ----

  /** From any state of the invariant: some run, in which no death, crash or abandoning store dooms, ends with a
      COMMITTED slot at the tail and nobody on the way to it, if and only if the state is doomed. */
  lemma LostIffDoomed(e: Env, s: State)
    requires Inv(e, s) && NoWrapAhead(s)
    ensures CanLose(e, s) <==> Doomed(e, s, {})
  {
    hide SharedInv, ThreadInv, CounterInv, SharedOk, SeenAt, Unwatched, Strander;
    if Doomed(e, s, {}) {
      if SeenAt(e, s.sh, s.sh.committed) {
        UnwatchedLoses(e, s);
      } else {
        var x, j :| Strander(e, s, {}, x, j);
        StranderHeld(e, s, x, j);
        StranderLoses(e, s, x, j);
      }
    } else if CanLose(e, s) {
      var as_ :| RunFrom(e, s, as_, HarmlessRun(e)) && Stranded(e, After(e, s, as_, HarmlessRun(e)));
      NeverDoomed(e, s, as_);
      StrandedIsDoomed(e, After(e, s, as_, HarmlessRun(e)));
    }
  }

  lemma StranderHeld(e: Env, s: State, x: Tid, j: nat)
    requires Inv(e, s) && NoWrapAhead(s) && !SeenAt(e, s.sh, s.sh.committed) && Strander(e, s, {}, x, j)
    ensures Held(e, s, x)
  {
    hide Inv;
  }

  /** An abandoning store lets advancement be lost in some continuation if and only if the state before it is doomed
      without its slot. */
  lemma AbandonLosesIff(e: Env, s: State, t: Tid)
    requires Inv(e, s) && Enabled(e, s, Step(t)) && NoWrapAhead(s) && Abandoning(s.threads[t])
    ensures CanLose(e, Do(e, s, Step(t))) <==> Doomed(e, s, {s.threads[t].slot})
  {
    hide Inv, Doomed, SharedOk, StepPc;
    ActionInv(e, s, Step(t));
    AbandonDooms(e, s, t);
    AbandonMoves(e, s.sh, t, s.threads[t]);
    LostIffDoomed(e, Do(e, s, Step(t)));
  }

  /** A power failure does if and only if the slot at committed_tail is durably COMMITTED: it then waits for the next
      append or recover. */
  lemma CrashLosesIff(e: Env, s: State)
    requires Inv(e, s) && NoWrapAhead(s)
    ensures CanLose(e, Do(e, s, Crash)) <==>
              s.sh.committed < e.g.capacity && D(e, s.sh, s.sh.committed)[REC_STATE] == STATE_COMMITTED
  {
    hide SharedInv, Doomed;
    ActionInv(e, s, Crash);
    CrashDooms(e, s);
    LostIffDoomed(e, Do(e, s, Crash));
  }
}
