/** When advancement is lost: a COMMITTED slot waits at committed_tail and no thread is left that will move the tail. */
module Progress {
  import opened Bytes
  import opened Layout
  import opened Records
  import opened Protocol
  import opened ProtocolInv
  import opened ProtocolSteps
  import opened StepEffects
  import opened Safety
  import opened Durability

  // ---- What is lost ----

  ghost predicate SeenAt(e: Env, sh: Shared, u: nat)
    requires SharedOk(e, sh)
  {
    u < e.g.capacity && Seen(e, sh, u)
  }

  /** The thread is on its way to look at the tail: it has just stored COMMITTED, or is sweeping. */
  predicate Heading(pc: Pc) { pc.FlushState? || pc.Sweeping? }

  /** The slot at the tail is COMMITTED, and nobody is on the way to advance the tail over it. */
  ghost predicate Stranded(e: Env, s: State) {
    SharedOk(e, s.sh) && SeenAt(e, s.sh, s.sh.committed) && forall t | t in s.threads :: !Heading(s.threads[t])
  }

  // ---- When it can no longer be prevented ----

  /** The thread's next step is a compare-exchange that succeeds if the tail is still c. */
  predicate Swapping(c: nat, pc: Pc) { pc.Sweeping? && pc.sweep.SwapTail? && pc.sweep.cur == c }

  /** The sweep has passed slots from c on, and can still move the tail from c. */
  predicate Passing(c: nat, pc: Pc) {
    Swapping(c, pc) || (pc.Sweeping? && pc.sweep.ScanFrom? && pc.sweep.cur == c < pc.sweep.new_)
  }

  /** COMMITTED, and not one of the slots in gone. */
  ghost predicate Still(e: Env, sh: Shared, gone: set<nat>, u: nat)
    requires SharedOk(e, sh)
  {
    SeenAt(e, sh, u) && u !in gone
  }

  /** The sweep looks next at the slot it loaded as the tail, which the tail has left since: finding it not COMMITTED
      it will end without a look at the tail of now. */
  ghost predicate GivingUp(e: Env, sh: Shared, gone: set<nat>, pc: Pc)
    requires SharedOk(e, sh)
  {
    && pc.Sweeping? && pc.sweep.ScanFrom? && pc.sweep.cur == pc.sweep.new_ < sh.committed
    && !Still(e, sh, gone, pc.sweep.cur)
  }

  /** Of the threads on their way all are giving up but at most one, which is about to move the tail to a slot that is
      COMMITTED by now. */
  ghost predicate Unwatched(e: Env, s: State, gone: set<nat>)
    requires SharedOk(e, s.sh)
  {
    && (forall t | t in s.threads && Heading(s.threads[t]) ::
          || GivingUp(e, s.sh, gone, s.threads[t])
          || (Swapping(s.sh.committed, s.threads[t]) && Still(e, s.sh, gone, s.threads[t].sweep.new_)))
    && (forall t, x | t in s.threads && x in s.threads ::
          Swapping(s.sh.committed, s.threads[t]) && Swapping(s.sh.committed, s.threads[x]) ==> t == x)
  }

  /** A live append is filling slot u. */
  ghost predicate Filling(s: State, u: nat) {
    exists t :: t in s.threads && MidAppend(s.threads[t]) && s.threads[t].slot == u
  }

  /** Slot u can still become COMMITTED: its append is at work, or it has not been handed out. */
  ghost predicate CanFill(e: Env, s: State, u: nat) { u < e.g.capacity && (|s.sh.grants| <= u || Filling(s, u)) }

  /** The sweep will stop at slot j: it has, or all slots before j are COMMITTED and j is not. */
  ghost predicate EndsAt(e: Env, sh: Shared, gone: set<nat>, w: Sweep, j: nat)
    requires SharedOk(e, sh)
  {
    match w
    case LoadTail(_, _) => false
    case ScanFrom(_, _, _, new_) =>
      new_ <= j && (forall i: nat | new_ <= i < j :: Still(e, sh, gone, i)) && !Still(e, sh, gone, j)
    case SwapTail(_, _, _, new_) => j == new_
  }

  /** Of all sweeps only that of thread x can move the tail, and it will stop at a slot j that is COMMITTED or can
      become so. */
  ghost predicate Strander(e: Env, s: State, gone: set<nat>, x: Tid, j: nat)
    requires SharedOk(e, s.sh)
  {
    && x in s.threads && Passing(s.sh.committed, s.threads[x])
    && (forall t | t in s.threads && Passing(s.sh.committed, s.threads[t]) :: t == x)
    && EndsAt(e, s.sh, gone, s.threads[x].sweep, j) && (Still(e, s.sh, gone, j) || CanFill(e, s, j))
  }

  /** Advancement can be lost from here, were the slots in gone no longer COMMITTED. Either the slot at the tail is
      COMMITTED and unwatched; or it is not, and a single sweep, which passed it when it was, can carry the tail over it
      to a COMMITTED slot, after everybody else has looked at the tail in vain. */
  ghost predicate Doomed(e: Env, s: State, gone: set<nat>)
    ensures Doomed(e, s, gone) ==> SharedOk(e, s.sh)
  {
    && SharedOk(e, s.sh)
    && if Still(e, s.sh, gone, s.sh.committed) then Unwatched(e, s, gone)
       else exists x, j :: Strander(e, s, gone, x, j)
  }

  // ---- Only deaths, crashes and abandoning stores can make it so ----

  /** The next step of the thread abandons a slot. */
  predicate Abandoning(pc: Pc) { pc.Mark? || pc.TrimMark? }

  predicate Risky(s: State, a: Action) {
    a.Kill? || a.Crash? || (a.Step? && a.t in s.threads && Abandoning(s.threads[a.t]))
  }

  /** COMMITTED bytes after a step: none are lost but by an abandoning store, none appear but by a commit. */
  lemma SeenEffect(e: Env, sh: Shared, t: Tid, pc: Pc, u: nat)
    requires SharedInv(e, sh) && ThreadInv(e, sh, t, pc) && !pc.Done?
    ensures SharedOk(e, StepPc(e, sh, t, pc).sh)
    ensures var sh' := StepPc(e, sh, t, pc).sh;
            && (!(Abandoning(pc) && pc.slot == u) && SeenAt(e, sh, u) ==> SeenAt(e, sh', u))
            && (SeenAt(e, sh', u) && !(pc.Commit? && pc.slot == u) ==> SeenAt(e, sh, u))
            && (Abandoning(pc) && pc.slot == u ==> !SeenAt(e, sh', u))
            && (pc.Commit? ==> SeenAt(e, sh', pc.slot))
  {
    hide StepPc, Rec, Content, Written;
    StepEffect(e, sh, t, pc, 0);
    if pc.Commit? {
      StepEffect(e, sh, t, pc, pc.slot);
    }
    if u < e.g.capacity {
      assert SlotInv(e, sh, u);
      StepEffect(e, sh, t, pc, u);
    }
  }

  /** How a step that is not a sweep's brings a thread on its way. */
  lemma HeadingStep(e: Env, sh: Shared, t: Tid, pc: Pc)
    requires SharedOk(e, sh) && PcOk(e, pc) && !pc.Done? && !pc.Sweeping?
    ensures var m := StepPc(e, sh, t, pc);
            && (m.pc.Sweeping? ==> m.pc.sweep.LoadTail?)
            && (pc.Commit? ==> m.pc.FlushState?)
            && (Heading(pc) ==> Heading(m.pc))
            && m.sh.committed == sh.committed
  {
    hide Rec, BodyOps, StateByte, Word, LenOf, PayloadOf, SharedOk;
  }

  /** How a step changes who is filling what. */
  lemma FillMoves(e: Env, sh: Shared, t: Tid, pc: Pc)
    requires SharedOk(e, sh) && PcOk(e, pc) && !pc.Done?
    ensures var m := StepPc(e, sh, t, pc);
            && (MidAppend(pc) && !pc.Commit? ==> MidAppend(m.pc) && m.pc.slot == pc.slot)
            && (MidAppend(m.pc) ==>
                  || (MidAppend(pc) && m.pc.slot == pc.slot)
                  || (|m.sh.grants| > |sh.grants| && m.pc.slot == sh.reserve))
            && (|m.sh.grants| > |sh.grants| ==>
                  MidAppend(m.pc) && m.pc.slot == sh.reserve && sh.reserve < e.g.capacity
                      && |m.sh.grants| == |sh.grants| + 1)
            && |sh.grants| <= |m.sh.grants| && m.sh.landed == (if pc.Commit? then sh.landed + {pc.slot} else sh.landed)
  {
    hide Rec, BodyOps, StateByte, Word, LenOf, PayloadOf, SharedOk;
  }

  lemma CanFillBack(e: Env, s: State, t: Tid, u: nat)
    requires Inv(e, s) && Enabled(e, s, Step(t)) && CanFill(e, Do(e, s, Step(t)), u)
    ensures CanFill(e, s, u)
  {
    hide SharedInv, ThreadInv, StepPc, SharedOk;
    FillMoves(e, s.sh, t, s.threads[t]);
    CounterReads(e, s);
    var s' := Do(e, s, Step(t));
    if |s.sh.grants| > u {
      var x :| x in s'.threads && MidAppend(s'.threads[x]) && s'.threads[x].slot == u;
      assert x in s.threads && MidAppend(s.threads[x]) && s.threads[x].slot == u;
    }
  }

  /** A sweep's step that leaves the tail alone, seen from after it: it was on the same way before. */
  lemma SweepStepBack(e: Env, sh: Shared, t: Tid, pc: Pc)
    requires SharedInv(e, sh) && ThreadInv(e, sh, t, pc) && pc.Sweeping?
    requires StepPc(e, sh, t, pc).sh.committed == sh.committed
    ensures var pc', c := StepPc(e, sh, t, pc).pc, sh.committed;
            && StepPc(e, sh, t, pc).sh == sh
            && (Heading(pc') ==>
                  && !GivingUp(e, sh, {}, pc')
                  && !(Swapping(c, pc') && Still(e, sh, {}, pc'.sweep.new_)))
            && (!Heading(pc') && Still(e, sh, {}, c) ==> GivingUp(e, sh, {}, pc))
            && (!Still(e, sh, {}, c) ==> (Passing(c, pc) <==> Passing(c, pc')))
  {
    hide Rec, SlotInv, StateByte;
    var w := pc.sweep;
    if w.ScanFrom? && w.new_ < e.g.capacity {
      SeenByte(e, sh, w.new_);
    }
  }

  lemma SeenByte(e: Env, sh: Shared, u: nat)
    requires SharedOk(e, sh) && u < e.g.capacity
    ensures SeenAt(e, sh, u) <==> StateByte(e, sh, u) == STATE_COMMITTED
  {
  }

  /** A COMMITTED tail slot that is unwatched after a step was doomed before it. */
  lemma UnwatchedBack(e: Env, s: State, t: Tid)
    requires Inv(e, s) && Enabled(e, s, Step(t)) && !Abandoning(s.threads[t])
    requires var s' := Do(e, s, Step(t));
             SharedOk(e, s'.sh) && SeenAt(e, s'.sh, s'.sh.committed) && Unwatched(e, s', {})
    ensures Doomed(e, s, {})
  {
    hide SharedInv, ThreadInv, StepPc, Seen, CounterInv, SharedOk, SeenAt;
    var pc, s' := s.threads[t], Do(e, s, Step(t));
    var c := s.sh.committed;
    assert ThreadInv(e, s.sh, t, pc);
    TailEffect(e, s.sh, t, pc);
    NothingNewSeen(e, s, t);
    if s'.sh.committed == c {
      if pc.Sweeping? {
        SweepStepBack(e, s.sh, t, pc);
      } else {
        HeadingStep(e, s.sh, t, pc);
      }
      assert !Heading(s'.threads[t]);
      forall x | x in s.threads && x != t && GivingUp(e, s'.sh, {}, s'.threads[x])
        ensures GivingUp(e, s.sh, {}, s.threads[x])
      {
        GivingUpBack(e, s, t, x);
      }
      assert SeenAt(e, s.sh, c);
      assert Unwatched(e, s, {});
    } else {
      SwapDooms(e, s, t);
    }
  }

  /** If the tail slot is COMMITTED and unwatched after a step, the step was no commit. */
  lemma NothingNewSeen(e: Env, s: State, t: Tid)
    requires Inv(e, s) && Enabled(e, s, Step(t)) && !Abandoning(s.threads[t])
    requires var s' := Do(e, s, Step(t)); SharedOk(e, s'.sh) && Unwatched(e, s', {})
    ensures !s.threads[t].Commit?
    ensures forall u: nat :: SeenAt(e, s.sh, u) <==> SeenAt(e, Do(e, s, Step(t)).sh, u)
  {
    hide SharedInv, ThreadInv, StepPc, Seen, CounterInv, SharedOk;
    var pc, s' := s.threads[t], Do(e, s, Step(t));
    assert ThreadInv(e, s.sh, t, pc);
    if pc.Commit? {
      HeadingStep(e, s.sh, t, pc);
      NotFlushing(e, s', t);
      assert false;
    }
    forall u: nat ensures SeenAt(e, s.sh, u) <==> SeenAt(e, s'.sh, u) {
      SeenEffect(e, s.sh, t, pc, u);
    }
  }

  lemma NotFlushing(e: Env, s: State, t: Tid)
    requires SharedOk(e, s.sh) && Unwatched(e, s, {}) && t in s.threads
    ensures !s.threads[t].FlushState?
  {
    hide SharedOk, SeenAt;
  }

  lemma GivingUpBack(e: Env, s: State, t: Tid, x: Tid)
    requires Enabled(e, s, Step(t)) && SharedOk(e, Do(e, s, Step(t)).sh) && x in s.threads
    requires var s' := Do(e, s, Step(t)); s'.sh.committed == s.sh.committed && GivingUp(e, s'.sh, {}, s.threads[x])
    requires forall u: nat :: SeenAt(e, s.sh, u) <==> SeenAt(e, Do(e, s, Step(t)).sh, u)
    ensures GivingUp(e, s.sh, {}, s.threads[x])
  {
    hide SharedOk, StepPc, SeenAt;
  }

  /** The step that moved the tail to a COMMITTED slot with nobody left to look at it. */
  lemma SwapDooms(e: Env, s: State, t: Tid)
    requires Inv(e, s) && Enabled(e, s, Step(t)) && !Abandoning(s.threads[t])
    requires var s' := Do(e, s, Step(t));
             && SharedOk(e, s'.sh) && s'.sh.committed != s.sh.committed
             && SeenAt(e, s'.sh, s'.sh.committed) && Unwatched(e, s', {})
    requires forall u: nat :: SeenAt(e, s.sh, u) <==> SeenAt(e, Do(e, s, Step(t)).sh, u)
    ensures Doomed(e, s, {})
  {
    hide SharedInv, ThreadInv, StepPc, Seen, CounterInv, SharedOk, SeenAt;
    var pc, s' := s.threads[t], Do(e, s, Step(t));
    var c := s.sh.committed;
    assert ThreadInv(e, s.sh, t, pc);
    TailEffect(e, s.sh, t, pc);
    SwapMoves(e, s.sh, t, pc);
    forall x | x in s.threads && x != t && Heading(s.threads[x])
      ensures !Passing(c, s.threads[x]) && (SeenAt(e, s.sh, c) ==> GivingUp(e, s.sh, {}, s.threads[x]))
    {
      assert ThreadInv(e, s.sh, x, s.threads[x]);
      LoadedBelow(e, s.sh, x, s.threads[x]);
      assert Heading(s'.threads[x]);
      assert GivingUp(e, s'.sh, {}, s.threads[x]);
    }
    if SeenAt(e, s.sh, c) {
      assert Unwatched(e, s, {});
    } else {
      assert Strander(e, s, {}, t, pc.sweep.new_);
    }
  }

  lemma SwapMoves(e: Env, sh: Shared, t: Tid, pc: Pc)
    requires SharedOk(e, sh) && GrantsOk(e, sh) && ThreadInv(e, sh, t, pc)
    ensures pc.Sweeping? && pc.sweep.SwapTail? ==> pc.sweep.cur < pc.sweep.new_
  {
  }

  lemma LoadedBelow(e: Env, sh: Shared, t: Tid, pc: Pc)
    requires SharedOk(e, sh) && GrantsOk(e, sh) && ThreadInv(e, sh, t, pc)
    ensures pc.Sweeping? && !pc.sweep.LoadTail? ==> pc.sweep.cur <= sh.committed
  {
  }

  /** A sweep that can carry the tail over an uncommitted slot after a step could do so before it. */
  lemma StranderBack(e: Env, s: State, t: Tid, x: Tid, j: nat)
    requires Inv(e, s) && Enabled(e, s, Step(t)) && !Abandoning(s.threads[t])
    requires var s' := Do(e, s, Step(t));
             SharedOk(e, s'.sh) && !SeenAt(e, s'.sh, s'.sh.committed) && Strander(e, s', {}, x, j)
    ensures Doomed(e, s, {})
  {
    hide SharedInv, ThreadInv, StepPc, Seen, CounterInv, SharedOk, SeenAt, CanFill;
    var pc, s' := s.threads[t], Do(e, s, Step(t));
    var c := s.sh.committed;
    assert ThreadInv(e, s.sh, t, pc);
    SeenEffect(e, s.sh, t, pc, c);
    TailStays(e, s, t, x);
    PassingBack(e, s, t);
    if x == t {
      OwnEndBack(e, s, t, j);
    } else {
      OtherEndBack(e, s, t, x, j);
    }
  }

  /** No sweep can move the tail right after it was moved. */
  lemma TailStays(e: Env, s: State, t: Tid, x: Tid)
    requires Inv(e, s) && Enabled(e, s, Step(t)) && x in s.threads
    requires Passing(Do(e, s, Step(t)).sh.committed, Do(e, s, Step(t)).threads[x])
    ensures Do(e, s, Step(t)).sh.committed == s.sh.committed
  {
    hide SharedInv, ThreadInv, StepPc, CounterInv, SharedOk;
    var pc := s.threads[t];
    assert ThreadInv(e, s.sh, t, pc) && ThreadInv(e, s.sh, x, s.threads[x]);
    TailEffect(e, s.sh, t, pc);
    SwapMoves(e, s.sh, t, pc);
    LoadedBelow(e, s.sh, x, s.threads[x]);
    if Do(e, s, Step(t)).sh.committed != s.sh.committed {
      SwapEnds(e, s.sh, t, pc);
    }
  }

  lemma SwapEnds(e: Env, sh: Shared, t: Tid, pc: Pc)
    requires SharedOk(e, sh) && PcOk(e, pc) && pc.Sweeping? && pc.sweep.SwapTail? && pc.sweep.cur == sh.committed
    ensures !Heading(StepPc(e, sh, t, pc).pc)
  {
    hide SharedOk;
  }

  lemma PassingBack(e: Env, s: State, t: Tid)
    requires Inv(e, s) && Enabled(e, s, Step(t)) && !SeenAt(e, s.sh, s.sh.committed)
    requires Do(e, s, Step(t)).sh.committed == s.sh.committed
    ensures forall y | y in s.threads ::
              Passing(s.sh.committed, s.threads[y]) <==> Passing(s.sh.committed, Do(e, s, Step(t)).threads[y])
  {
    hide SharedInv, ThreadInv, StepPc, CounterInv, SharedOk, SeenAt;
    assert ThreadInv(e, s.sh, t, s.threads[t]);
    if s.threads[t].Sweeping? {
      SweepStepBack(e, s.sh, t, s.threads[t]);
    } else {
      HeadingStep(e, s.sh, t, s.threads[t]);
    }
  }

  lemma OwnEndBack(e: Env, s: State, t: Tid, j: nat)
    requires Inv(e, s) && Enabled(e, s, Step(t)) && !SeenAt(e, s.sh, s.sh.committed)
    requires var s' := Do(e, s, Step(t));
             s'.sh.committed == s.sh.committed && SharedOk(e, s'.sh) && Strander(e, s', {}, t, j)
    requires forall y | y in s.threads ::
              Passing(s.sh.committed, s.threads[y]) <==> Passing(s.sh.committed, Do(e, s, Step(t)).threads[y])
    ensures Strander(e, s, {}, t, j)
  {
    hide SharedInv, ThreadInv, StepPc, CounterInv, SharedOk, SeenAt, CanFill;
    var pc, s' := s.threads[t], Do(e, s, Step(t));
    assert ThreadInv(e, s.sh, t, pc);
    SweepStepBack(e, s.sh, t, pc);
    if CanFill(e, s', j) {
      CanFillBack(e, s, t, j);
    }
    EndsBack(e, s.sh, t, pc, j);
  }

  lemma EndsBack(e: Env, sh: Shared, t: Tid, pc: Pc, j: nat)
    requires SharedInv(e, sh) && ThreadInv(e, sh, t, pc) && pc.Sweeping? && Passing(sh.committed, pc)
    requires StepPc(e, sh, t, pc).sh == sh && StepPc(e, sh, t, pc).pc.Sweeping?
    requires EndsAt(e, sh, {}, StepPc(e, sh, t, pc).pc.sweep, j)
    ensures EndsAt(e, sh, {}, pc.sweep, j)
  {
    hide Rec, SlotInv, StateByte;
    if pc.sweep.new_ < e.g.capacity {
      SeenByte(e, sh, pc.sweep.new_);
    }
  }

  /** Where a sweep ends, before slot k was COMMITTED. */
  lemma EndsBefore(e: Env, sh: Shared, sh': Shared, w: Sweep, k: nat, j: nat)
    requires SharedOk(e, sh) && SharedOk(e, sh') && EndsAt(e, sh', {}, w, j)
    requires forall u: nat :: SeenAt(e, sh, u) ==> SeenAt(e, sh', u)
    requires forall u: nat :: SeenAt(e, sh', u) ==> SeenAt(e, sh, u) || u == k
    ensures EndsAt(e, sh, {}, w, j) || (SeenAt(e, sh', k) && !SeenAt(e, sh, k) && EndsAt(e, sh, {}, w, k))
  {
    hide SharedOk, SeenAt;
    if w.ScanFrom? {
      forall i: nat | w.new_ <= i < j ensures SeenAt(e, sh, i) || i == k {
        assert Still(e, sh', {}, i);
      }
      assert !SeenAt(e, sh, j);
      assert w.new_ <= k < j && !SeenAt(e, sh, k) ==> SeenAt(e, sh', k) by {
        assert w.new_ <= k < j ==> Still(e, sh', {}, k);
      }
    }
  }

  lemma OtherEndBack(e: Env, s: State, t: Tid, x: Tid, j: nat)
    requires Inv(e, s) && Enabled(e, s, Step(t)) && !Abandoning(s.threads[t]) && x != t && x in s.threads
    requires !SeenAt(e, s.sh, s.sh.committed)
    requires var s' := Do(e, s, Step(t));
             s'.sh.committed == s.sh.committed && SharedOk(e, s'.sh) && Strander(e, s', {}, x, j)
    requires forall y | y in s.threads ::
              Passing(s.sh.committed, s.threads[y]) <==> Passing(s.sh.committed, Do(e, s, Step(t)).threads[y])
    ensures Doomed(e, s, {})
  {
    hide SharedInv, ThreadInv, StepPc, CounterInv, SharedOk, SeenAt, CanFill;
    var pc, s', w := s.threads[t], Do(e, s, Step(t)), s.threads[x].sweep;
    assert ThreadInv(e, s.sh, t, pc);
    var k := if pc.Commit? then pc.slot else e.g.capacity;
    forall u: nat
      ensures SeenAt(e, s.sh, u) ==> SeenAt(e, s'.sh, u)
      ensures SeenAt(e, s'.sh, u) ==> SeenAt(e, s.sh, u) || u == k
    {
      SeenEffect(e, s.sh, t, pc, u);
    }
    EndsBefore(e, s.sh, s'.sh, w, k, j);
    BeyondUnseen(e, s'.sh);
    if pc.Commit? {
      CommitterFills(e, s, t);
    }
    if CanFill(e, s', j) {
      CanFillBack(e, s, t, j);
    }
    if EndsAt(e, s.sh, {}, w, j) && (SeenAt(e, s.sh, j) || CanFill(e, s, j)) {
      assert Strander(e, s, {}, x, j);
    } else {
      assert Strander(e, s, {}, x, k);
    }
  }

  lemma BeyondUnseen(e: Env, sh: Shared)
    requires SharedOk(e, sh)
    ensures !SeenAt(e, sh, e.g.capacity)
  {
  }

  lemma CommitterFills(e: Env, s: State, t: Tid)
    requires Enabled(e, s, Step(t)) && s.threads[t].Commit?
    ensures CanFill(e, s, s.threads[t].slot)
  {
    hide SharedOk;
    assert MidAppend(s.threads[t]);
  }

  /** Two states with the same tail, COMMITTED slots and threads on their way are doomed alike. */
  lemma DoomedLike(e: Env, s1: State, gone1: set<nat>, s2: State, gone2: set<nat>)
    requires SharedOk(e, s1.sh) && SharedOk(e, s2.sh) && s1.sh.committed == s2.sh.committed
    requires forall j: nat :: Still(e, s1.sh, gone1, j) <==> Still(e, s2.sh, gone2, j)
    requires forall j: nat :: CanFill(e, s1, j) ==> CanFill(e, s2, j)
    requires forall t | t in s1.threads && Heading(s1.threads[t]) :: t in s2.threads && s2.threads[t] == s1.threads[t]
    requires forall t | t in s2.threads && Heading(s2.threads[t]) :: t in s1.threads && s2.threads[t] == s1.threads[t]
    requires Doomed(e, s1, gone1)
    ensures Doomed(e, s2, gone2)
  {
    hide SharedOk, Still, CanFill;
    var c := s1.sh.committed;
    assert Still(e, s1.sh, gone1, c) <==> Still(e, s2.sh, gone2, c);
    if Still(e, s1.sh, gone1, c) {
      assert Unwatched(e, s2, gone2);
    } else {
      var x, j :| Strander(e, s1, gone1, x, j);
      assert EndsAt(e, s2.sh, gone2, s2.threads[x].sweep, j);
      forall t | t in s2.threads && Passing(c, s2.threads[t]) ensures t == x {
        assert Passing(c, s1.threads[t]);
      }
      assert Strander(e, s2, gone2, x, j);
    }
  }

  /** An action that is nobody's step and takes no thread from its way. */
  lemma DoomedSame(e: Env, s: State, a: Action)
    requires Inv(e, s) && Enabled(e, s, a) && !a.Step? && !Risky(s, a) && Doomed(e, Do(e, s, a), {})
    ensures Doomed(e, s, {})
  {
    hide Inv, SharedOk, Rec, Seen, Doomed;
    var s' := Do(e, s, a);
    forall u: nat ensures Still(e, s'.sh, {}, u) <==> Still(e, s.sh, {}, u) {
      if a.Evict? && u < e.g.capacity {
        EvictStaysSafe(e, s, a.line, u);
      }
    }
    forall u: nat ensures CanFill(e, s', u) ==> CanFill(e, s, u) {
    }
    DoomedLike(e, s', {}, s, {});
  }

  /** So no commit, sweep, append, read, reservation or eviction, and no step but an abandoning one, dooms. */
  lemma DoomedBack(e: Env, s: State, a: Action)
    requires Inv(e, s) && Enabled(e, s, a) && !Risky(s, a) && Doomed(e, Do(e, s, a), {})
    ensures Doomed(e, s, {})
  {
    hide Inv, SharedOk, SeenAt, StepPc, Unwatched, Strander;
    var s' := Do(e, s, a);
    if a.Step? {
      if SeenAt(e, s'.sh, s'.sh.committed) {
        UnwatchedBack(e, s, a.t);
      } else {
        var x, j :| Strander(e, s', {}, x, j);
        StranderBack(e, s, a.t, x, j);
      }
    } else {
      DoomedSame(e, s, a);
    }
  }

  // ---- Runs in which no death, crash or abandoning store dooms ----

  /** The action does not doom: it is neither a death nor a crash nor an abandoning store, or it leaves a way out. */
  ghost predicate Harmless(e: Env, s: State, a: Action) {
    NoWrapAhead(s) && (Risky(s, a) ==> Enabled(e, s, a) && !Doomed(e, Do(e, s, a), {}))
  }

  ghost function HarmlessRun(e: Env): (State, Action) -> bool { (s, a) => Harmless(e, s, a) }

  lemma {:induction false} NeverDoomed(e: Env, s: State, as_: seq<Action>)
    requires Inv(e, s) && !Doomed(e, s, {}) && RunFrom(e, s, as_, HarmlessRun(e))
    ensures var s' := After(e, s, as_, HarmlessRun(e)); Inv(e, s') && !Doomed(e, s', {})
    decreases |as_|
  {
    hide Inv, Doomed;
    if as_ != [] {
      ActionInv(e, s, as_[0]);
      if !Risky(s, as_[0]) && Doomed(e, Do(e, s, as_[0]), {}) {
        DoomedBack(e, s, as_[0]);
      }
      NeverDoomed(e, Do(e, s, as_[0]), as_[1..]);
    }
  }

  lemma StrandedIsDoomed(e: Env, s: State)
    requires Stranded(e, s)
    ensures Doomed(e, s, {})
  {
  }

  lemma FreshNotDoomed(e: Env)
    requires e.g.Ok()
    ensures !Doomed(e, Fresh(e), {})
  {
    RecordBounds(e.g, 0);
  }

  /** From any state that is not doomed, in runs in which no death, crash or abandoning store dooms: whenever the slot
      at committed_tail is COMMITTED, some thread is on its way to look at the tail. */
  lemma NoLostAdvancement(e: Env, s: State, as_: seq<Action>)
    requires Inv(e, s) && !Doomed(e, s, {}) && RunFrom(e, s, as_, HarmlessRun(e))
    ensures var s' := After(e, s, as_, HarmlessRun(e));
            && SharedOk(e, s'.sh)
            && (SeenAt(e, s'.sh, s'.sh.committed) ==>
                  exists t :: t in s'.threads && (s'.threads[t].FlushState? || s'.threads[t].Sweeping?))
  {
    hide SharedInv, Doomed;
    NeverDoomed(e, s, as_);
    var s' := After(e, s, as_, HarmlessRun(e));
    if SeenAt(e, s'.sh, s'.sh.committed) && forall t | t in s'.threads :: !Heading(s'.threads[t]) {
      StrandedIsDoomed(e, s');
    }
  }

  // ---- What a death, a crash or an abandoning store does ----

  lemma AbandonMoves(e: Env, sh: Shared, t: Tid, pc: Pc)
    requires SharedOk(e, sh) && PcOk(e, pc) && Abandoning(pc)
    ensures var m := StepPc(e, sh, t, pc);
            && !Heading(m.pc) && !MidAppend(m.pc) && m.sh.committed == sh.committed && m.sh.grants == sh.grants
            && m.sh.reserve == sh.reserve
  {
    hide SharedOk, Rec;
  }

  /** An abandoning store dooms if and only if the state before it would be doomed with its slot not COMMITTED. */
  lemma AbandonDooms(e: Env, s: State, t: Tid)
    requires Inv(e, s) && Enabled(e, s, Step(t)) && Abandoning(s.threads[t])
    ensures Doomed(e, Do(e, s, Step(t)), {}) <==> Doomed(e, s, {s.threads[t].slot})
  {
    hide SharedInv, ThreadInv, CounterInv, SharedOk, StepPc, SeenAt, Doomed;
    var pc, s', u := s.threads[t], Do(e, s, Step(t)), s.threads[t].slot;
    assert ThreadInv(e, s.sh, t, pc);
    AbandonMoves(e, s.sh, t, pc);
    SeenEffect(e, s.sh, t, pc, 0);
    forall j: nat ensures Still(e, s'.sh, {}, j) <==> Still(e, s.sh, {u}, j) {
      SeenEffect(e, s.sh, t, pc, j);
    }
    forall j: nat ensures CanFill(e, s', j) <==> CanFill(e, s, j) {
      FillSame(e, s, s', t, j);
    }
    if Doomed(e, s', {}) {
      DoomedLike(e, s', {}, s, {u});
    }
    if Doomed(e, s, {u}) {
      DoomedLike(e, s, {u}, s', {});
    }
  }

  lemma FillSame(e: Env, s: State, s': State, t: Tid, j: nat)
    requires t in s.threads && !MidAppend(s.threads[t]) && s'.sh.grants == s.sh.grants
    requires t in s'.threads && s'.threads == s.threads[t := s'.threads[t]] && !MidAppend(s'.threads[t])
    ensures CanFill(e, s', j) <==> CanFill(e, s, j)
  {
    if Filling(s, j) {
      var x :| x in s.threads && MidAppend(s.threads[x]) && s.threads[x].slot == j;
      assert x in s'.threads && MidAppend(s'.threads[x]);
    }
  }

  /** A power failure dooms exactly if the slot at committed_tail is durably COMMITTED. */
  lemma CrashDooms(e: Env, s: State)
    requires Enabled(e, s, Crash)
    ensures Doomed(e, Do(e, s, Crash), {}) <==>
              s.sh.committed < e.g.capacity && D(e, s.sh, s.sh.committed)[REC_STATE] == STATE_COMMITTED
  {
    hide Rec;
  }

  /** There are only two ways for an abandoning store to doom: on the COMMITTED slot at the tail itself, under a sweep
      that has passed it; or on a slot behind the tail that some sweep loaded as the tail and has not looked at yet,
      while a COMMITTED slot waits at the tail. A trim, whose slots are behind the tail, has only the second. */
  lemma TwoWaysToDoom(e: Env, s: State, u: nat)
    requires Inv(e, s) && !Doomed(e, s, {}) && Doomed(e, s, {u})
    ensures SeenAt(e, s.sh, u) && u <= s.sh.committed && SeenAt(e, s.sh, s.sh.committed)
    ensures if u == s.sh.committed then exists x :: x in s.threads && Passing(u, s.threads[x])
            else exists x :: x in s.threads && GivingUp(e, s.sh, {u}, s.threads[x]) && s.threads[x].sweep.cur == u
  {
    hide SharedInv, ThreadInv, CounterInv, SharedOk, SeenAt, Doomed, CanFill;
    var c := s.sh.committed;
    if !SeenAt(e, s.sh, u) {
      DoomedLike(e, s, {u}, s, {});
    }
    DoomedBy(e, s, {u});
    if !SeenAt(e, s.sh, c) || u > c {
      OtherSlots(e, s, u);
    }
    if u < c && !(exists x :: x in s.threads && GivingUp(e, s.sh, {u}, s.threads[x]) && s.threads[x].sweep.cur == u) {
      assert Unwatched(e, s, {u});
      assert Unwatched(e, s, {});
      DoomedBy(e, s, {});
    }
  }

  lemma DoomedBy(e: Env, s: State, gone: set<nat>)
    requires SharedOk(e, s.sh)
    ensures Doomed(e, s, gone) <==> if Still(e, s.sh, gone, s.sh.committed) then Unwatched(e, s, gone)
                                    else exists x, j :: Strander(e, s, gone, x, j)
  {
  }

  /** A slot beyond the tail, or any slot while the one at the tail is not COMMITTED. */
  lemma OtherSlots(e: Env, s: State, u: nat)
    requires Inv(e, s) && Doomed(e, s, {u}) && SeenAt(e, s.sh, u)
    requires !SeenAt(e, s.sh, s.sh.committed) || u > s.sh.committed
    ensures Doomed(e, s, {})
  {
    hide SharedInv, ThreadInv, CounterInv, SharedOk, SeenAt, CanFill;
    if SeenAt(e, s.sh, s.sh.committed) {
      assert Unwatched(e, s, {});
    } else {
      var x, j :| Strander(e, s, {u}, x, j);
      assert ThreadInv(e, s.sh, x, s.threads[x]);
      SeenNotFilled(e, s, u);
      assert EndsAt(e, s.sh, {}, s.threads[x].sweep, j) by {
        if s.threads[x].sweep.ScanFrom? {
          forall i: nat | s.threads[x].sweep.new_ <= i < j ensures Still(e, s.sh, {}, i) {
            assert Still(e, s.sh, {u}, i);
          }
        }
      }
      assert Strander(e, s, {}, x, j);
    }
  }

  lemma SeenNotFilled(e: Env, s: State, u: nat)
    requires Inv(e, s) && SeenAt(e, s.sh, u)
    ensures !CanFill(e, s, u)
  {
    hide Rec, Content, Written, FlushedTo;
    assert SlotInv(e, s.sh, u);
  }

  // ---- At quiescence ----

  /** No deaths and no crashes; abandoning stores do not doom. */
  ghost predicate Deathless(e: Env, s: State, a: Action) { Harmless(e, s, a) && !a.Kill? && !a.Crash? }

  ghost function DeathlessRun(e: Env): (State, Action) -> bool { (s, a) => Deathless(e, s, a) }

  /** Every granted slot is being filled or has been COMMITTED, and is COMMITTED or ABANDONED since. */
  ghost predicate SlotsInv(e: Env, s: State)
    ensures SlotsInv(e, s) ==> SharedOk(e, s.sh)
  {
    && SharedOk(e, s.sh)
    && (forall u: nat | u < |s.sh.grants| :: u in s.sh.landed || Filling(s, u))
    && (forall u: nat | u in s.sh.landed && u < e.g.capacity ::
          StateByte(e, s.sh, u) in {STATE_COMMITTED, STATE_ABANDONED})
  }

  lemma FillStep(e: Env, s: State, t: Tid, u: nat)
    requires Inv(e, s) && SlotsInv(e, s) && Enabled(e, s, Step(t)) && u < |Do(e, s, Step(t)).sh.grants|
    ensures var s' := Do(e, s, Step(t)); u in s'.sh.landed || Filling(s', u)
  {
    hide SharedInv, ThreadInv, StepPc, CounterInv, StateByte, SharedOk;
    var pc, s' := s.threads[t], Do(e, s, Step(t));
    FillMoves(e, s.sh, t, pc);
    CounterReads(e, s);
    if u >= |s.sh.grants| {
      assert MidAppend(s'.threads[t]) && s'.threads[t].slot == u;
    } else if u !in s'.sh.landed {
      var x :| x in s.threads && MidAppend(s.threads[x]) && s.threads[x].slot == u;
      assert x in s'.threads && MidAppend(s'.threads[x]) && s'.threads[x].slot == u;
    }
  }

  lemma LandedStep(e: Env, s: State, t: Tid, u: nat)
    requires Inv(e, s) && SlotsInv(e, s) && Enabled(e, s, Step(t)) && u < e.g.capacity
    requires u in Do(e, s, Step(t)).sh.landed
    ensures var sh' := Do(e, s, Step(t)).sh;
            SharedOk(e, sh') && StateByte(e, sh', u) in {STATE_COMMITTED, STATE_ABANDONED}
  {
    hide SharedInv, StepPc, CounterInv, Rec, Written, Content;
    var pc := s.threads[t];
    assert ThreadInv(e, s.sh, t, pc);
    FillMoves(e, s.sh, t, pc);
    StepEffect(e, s.sh, t, pc, u);
    LandedIsSealed(e, s.sh);
  }

  lemma LandedIsSealed(e: Env, sh: Shared)
    requires SharedInv(e, sh)
    ensures sh.landed <= sh.sealed
  {
  }

  lemma SlotsAction(e: Env, s: State, a: Action)
    requires Inv(e, s) && SlotsInv(e, s) && Enabled(e, s, a) && !a.Kill? && !a.Crash?
    ensures SlotsInv(e, Do(e, s, a))
  {
    hide SharedInv, StepPc, ThreadInv, CounterInv, Rec;
    var s' := Do(e, s, a);
    match a
    case Step(t) =>
      StepEffect(e, s.sh, t, s.threads[t], 0);
      forall u: nat | u < |s'.sh.grants| ensures u in s'.sh.landed || Filling(s', u) {
        FillStep(e, s, t, u);
      }
      forall u: nat | u in s'.sh.landed && u < e.g.capacity
        ensures StateByte(e, s'.sh, u) in {STATE_COMMITTED, STATE_ABANDONED}
      {
        LandedStep(e, s, t, u);
      }
    case _ => SlotsQuiet(e, s, a);
  }

  lemma SlotsQuiet(e: Env, s: State, a: Action)
    requires SlotsInv(e, s) && Enabled(e, s, a) && !a.Step? && !a.Kill? && !a.Crash?
    ensures SlotsInv(e, Do(e, s, a))
  {
    hide Rec;
    var s' := Do(e, s, a);
    forall u: nat | u < e.g.capacity ensures StateByte(e, s'.sh, u) == StateByte(e, s.sh, u) {
      if a.Evict? {
        LineFacts(e, s.sh, a.line, u);
      }
    }
    forall u: nat | Filling(s, u) ensures Filling(s', u) {
      var x :| x in s.threads && MidAppend(s.threads[x]) && s.threads[x].slot == u;
      assert x in s'.threads && MidAppend(s'.threads[x]);
    }
  }

  lemma {:induction false} SlotsRun(e: Env, s: State, as_: seq<Action>)
    requires Inv(e, s) && !Doomed(e, s, {}) && SlotsInv(e, s) && RunFrom(e, s, as_, DeathlessRun(e))
    ensures var s' := After(e, s, as_, DeathlessRun(e)); Inv(e, s') && !Doomed(e, s', {}) && SlotsInv(e, s')
    decreases |as_|
  {
    hide Inv, Doomed, SlotsInv;
    if as_ != [] {
      ActionInv(e, s, as_[0]);
      SlotsAction(e, s, as_[0]);
      if !Risky(s, as_[0]) && Doomed(e, Do(e, s, as_[0]), {}) {
        DoomedBack(e, s, as_[0]);
      }
      SlotsRun(e, Do(e, s, as_[0]), as_[1..]);
    }
  }

  /** No append, no flush of a commit and no sweep is under way, a recover's included. */
  predicate Quiescent(s: State) {
    forall t | t in s.threads :: !MidAppend(s.threads[t]) && !Heading(s.threads[t])
  }

  /** The exact condition, from a created pool: at quiescence committed_tail has caught up with the granted slots if and
      only if it does not stand at a slot that was handed out and is ABANDONED. */
  lemma TailCaughtUpIff(e: Env, as_: seq<Action>)
    requires e.g.Ok() && RunFrom(e, Fresh(e), as_, DeathlessRun(e))
    requires Quiescent(After(e, Fresh(e), as_, DeathlessRun(e)))
    ensures var s := After(e, Fresh(e), as_, DeathlessRun(e));
            && SharedOk(e, s.sh) && s.sh.committed <= |s.sh.grants| == Min(s.sh.reserve, e.g.capacity)
            && (s.sh.committed == |s.sh.grants| <==>
                  !(s.sh.committed < |s.sh.grants| && StateByte(e, s.sh, s.sh.committed) == STATE_ABANDONED))
  {
    hide Rec, SharedInv, ThreadInv, Doomed, StateByte;
    FreshInv(e);
    FreshNotDoomed(e);
    SlotsRun(e, Fresh(e), as_);
    QuietTail(e, After(e, Fresh(e), as_, DeathlessRun(e)));
  }

  lemma QuietTail(e: Env, s: State)
    requires Inv(e, s) && !Doomed(e, s, {}) && SlotsInv(e, s) && Quiescent(s)
    ensures s.sh.committed <= |s.sh.grants| == Min(s.sh.reserve, e.g.capacity)
    ensures s.sh.committed < |s.sh.grants| ==> StateByte(e, s.sh, s.sh.committed) == STATE_ABANDONED
  {
    hide ThreadInv, Doomed, Rec;
    CounterReads(e, s);
    var c := s.sh.committed;
    assert c > 0 ==> SlotInv(e, s.sh, c - 1);
    if c < |s.sh.grants| {
      assert !Filling(s, c) && c in s.sh.landed;
      SeenByte(e, s.sh, c);
      if SeenAt(e, s.sh, c) {
        assert Stranded(e, s);
        StrandedIsDoomed(e, s);
      }
    }
  }

  /** Deathless, and no recover abandons a COMMITTED slot at or above the tail. */
  ghost predicate Gapless(e: Env, s: State, a: Action) {
    && Deathless(e, s, a) && SharedOk(e, s.sh)
    && !(a.Step? && a.t in s.threads && s.threads[a.t].Mark? && s.threads[a.t].slot >= s.sh.committed
         && SeenAt(e, s.sh, s.threads[a.t].slot))
  }

  ghost function GaplessRun(e: Env): (State, Action) -> bool { (s, a) => Gapless(e, s, a) }

  /** Every granted slot from the tail on is COMMITTED or being filled. */
  ghost predicate FillInv(e: Env, s: State) {
    SharedOk(e, s.sh) && forall u: nat | s.sh.committed <= u < |s.sh.grants| :: SeenAt(e, s.sh, u) || Filling(s, u)
  }

  lemma FillInvAction(e: Env, s: State, a: Action)
    requires Inv(e, s) && FillInv(e, s) && SlotsInv(e, s) && Enabled(e, s, a) && Gapless(e, s, a)
    ensures FillInv(e, Do(e, s, a))
  {
    hide SharedInv, ThreadInv, StepPc, CounterInv, StateByte, Seen, SeenAt, Doomed;
    var s' := Do(e, s, a);
    SlotsAction(e, s, a);
    ActionGrows(e, s, a);
    forall u: nat | s'.sh.committed <= u < |s'.sh.grants| ensures SeenAt(e, s'.sh, u) || Filling(s', u) {
      if a.Step? {
        FillInvStep(e, s, a.t, u);
      } else if SeenAt(e, s.sh, u) {
        SeenSame(e, s, a, u);
      } else {
        var x :| x in s.threads && MidAppend(s.threads[x]) && s.threads[x].slot == u;
        assert x in s'.threads && MidAppend(s'.threads[x]);
      }
    }
  }

  lemma SeenSame(e: Env, s: State, a: Action, u: nat)
    requires Enabled(e, s, a) && SharedOk(e, Do(e, s, a).sh) && !a.Step? && !a.Crash? && SeenAt(e, s.sh, u)
    ensures SeenAt(e, Do(e, s, a).sh, u)
  {
    hide Rec;
    if a.Evict? {
      EvictStaysSafe(e, s, a.line, u);
    }
  }

  lemma FillInvStep(e: Env, s: State, t: Tid, u: nat)
    requires Inv(e, s) && FillInv(e, s) && Enabled(e, s, Step(t)) && Gapless(e, s, Step(t))
    requires var s' := Do(e, s, Step(t)); s.sh.committed <= s'.sh.committed <= u < |s'.sh.grants|
    ensures var s' := Do(e, s, Step(t)); SharedOk(e, s'.sh) && (SeenAt(e, s'.sh, u) || Filling(s', u))
  {
    hide SharedInv, StepPc, CounterInv, Seen, SeenAt, Doomed, Rec, Written, Content;
    var pc, s' := s.threads[t], Do(e, s, Step(t));
    assert ThreadInv(e, s.sh, t, pc);
    SeenEffect(e, s.sh, t, pc, u);
    FillMoves(e, s.sh, t, pc);
    CounterReads(e, s);
    if u >= |s.sh.grants| {
      assert MidAppend(s'.threads[t]) && s'.threads[t].slot == u;
    } else if !SeenAt(e, s.sh, u) {
      var x :| x in s.threads && MidAppend(s.threads[x]) && s.threads[x].slot == u;
      if x != t || !pc.Commit? {
        assert x in s'.threads && MidAppend(s'.threads[x]) && s'.threads[x].slot == u;
      }
    }
  }

  lemma {:induction false} FillRun(e: Env, s: State, as_: seq<Action>)
    requires Inv(e, s) && !Doomed(e, s, {}) && SlotsInv(e, s) && FillInv(e, s) && RunFrom(e, s, as_, GaplessRun(e))
    ensures var s' := After(e, s, as_, GaplessRun(e));
            Inv(e, s') && !Doomed(e, s', {}) && SlotsInv(e, s') && FillInv(e, s')
    decreases |as_|
  {
    hide Inv, Doomed, SlotsInv, FillInv;
    if as_ != [] {
      ActionInv(e, s, as_[0]);
      SlotsAction(e, s, as_[0]);
      FillInvAction(e, s, as_[0]);
      if !Risky(s, as_[0]) && Doomed(e, Do(e, s, as_[0]), {}) {
        DoomedBack(e, s, as_[0]);
      }
      FillRun(e, Do(e, s, as_[0]), as_[1..]);
    }
  }

  /** From a created pool, in deathless runs in which no recover abandons a COMMITTED slot at or above the tail:
      whenever no append, no flush of a commit and no sweep is under way, committed_tail equals the number of granted
      slots. */
  lemma TailCatchesUp(e: Env, as_: seq<Action>)
    requires e.g.Ok() && RunFrom(e, Fresh(e), as_, GaplessRun(e)) && Quiescent(After(e, Fresh(e), as_, GaplessRun(e)))
    ensures var s := After(e, Fresh(e), as_, GaplessRun(e));
            s.sh.committed == |s.sh.grants| == Min(s.sh.reserve, e.g.capacity)
  {
    hide SharedInv, ThreadInv, Doomed;
    FreshInv(e);
    FreshNotDoomed(e);
    FillRun(e, Fresh(e), as_);
    var s := After(e, Fresh(e), as_, GaplessRun(e));
    QuietTail(e, s);
    if s.sh.committed < |s.sh.grants| {
      SeenByte(e, s.sh, s.sh.committed);
    }
  }
}
