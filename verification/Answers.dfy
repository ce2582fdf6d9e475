/** What read and trim answer in the midst of other threads, and what trim's answer is worth. */
module Answers {
  import opened Bytes
  import opened Media
  import opened Records
  import opened Protocol
  import opened ProtocolInv
  import opened ProtocolSteps
  import opened StepEffects
  import opened Safety
  import opened Durability
  import opened Progress

  /** Thread t does not die and has not taken its answer away; the power does not fail. */
  predicate Lives(t: Tid, s: State, a: Action) {
    NoWrapAhead(s) && !a.Crash? && a != Kill(t) && a != Return(t)
  }

  function LivesRun(t: Tid): (State, Action) -> bool { (s, a) => Lives(t, s, a) }

  /** A slot that has been COMMITTED once and is not COMMITTED now will not be again, without a power failure. */
  lemma UnseenStays(e: Env, s: State, a: Action, u: nat)
    requires Inv(e, s) && Enabled(e, s, a) && !a.Crash? && NoWrapAhead(s)
    requires u in s.sh.landed && !SeenAt(e, s.sh, u)
    ensures SharedOk(e, Do(e, s, a).sh) && !SeenAt(e, Do(e, s, a).sh, u)
  {
    hide SharedInv, CounterInv, StepPc, Rec, Written, Content, FlushedTo;
    if a.Step? {
      assert ThreadInv(e, s.sh, a.t, s.threads[a.t]);
      SeenEffect(e, s.sh, a.t, s.threads[a.t], u);
    } else if a.Evict? && u < e.g.capacity {
      EvictStaysSafe(e, s, a.line, u);
    }
  }

  lemma BelowTailLanded(e: Env, sh: Shared, u: nat)
    requires SharedInv(e, sh) && u < sh.committed
    ensures u in sh.landed && u < e.g.capacity && u < |sh.grants| && ArgsOk(e.g, sh.grants[u].args)
  {
    hide Rec, Content;
    assert SlotInv(e, sh, u);
  }

  // ---- read ----

  /** Where a read of index i is, and what it has found. `was` tells whether the slot was COMMITTED when it began. */
  ghost predicate ReadAt(e: Env, sh: Shared, pc: Pc, h: nat, i: u64, was: bool)
    requires SharedOk(e, sh) && i > 0
  {
    && (!was ==> !SeenAt(e, sh, i - 1))
    && match pc
       case Start(c) => c == ReadCall(h, i)
       case LoadState(g, j) => g == h && j == i
       case Load(p, u, _, _) => was && p == ForRead(h, i) && u == i - 1
       case CountRead(g, j, _) => was && g == h && j == i
       case Done(r) => (r.ReadNone? && r.index == i && !SeenAt(e, sh, i - 1)) || (was && r.ReadSome? && r.index == i)
       case _ => false
  }

  lemma ReadOwn(e: Env, sh: Shared, t: Tid, pc: Pc, h: nat, i: u64, was: bool)
    requires SharedInv(e, sh) && ThreadInv(e, sh, t, pc) && !pc.Done?
    requires 1 <= i <= sh.committed && ReadAt(e, sh, pc, h, i, was)
    ensures SharedOk(e, StepPc(e, sh, t, pc).sh)
    ensures var m := StepPc(e, sh, t, pc);
            SharedInv(e, m.sh) && ThreadInv(e, m.sh, t, m.pc) ==> ReadAt(e, m.sh, m.pc, h, i, was)
  {
    hide SharedInv, Rec, Word, LenOf, PayloadOf, Content;
    StepEffect(e, sh, t, pc, 0);
    BelowTailLanded(e, sh, i - 1);
    SeenEffect(e, sh, t, pc, i - 1);
    SeenByte(e, sh, i - 1);
  }

  /** The steps of others, and evictions, calls and returns. */
  lemma ReadOther(e: Env, s: State, a: Action, t: Tid, h: nat, i: u64, was: bool)
    requires Inv(e, s) && Enabled(e, s, a) && Lives(t, s, a) && a != Step(t) && t in s.threads
    requires 1 <= i <= s.sh.committed && ReadAt(e, s.sh, s.threads[t], h, i, was)
    ensures var s' := Do(e, s, a);
            SharedOk(e, s'.sh) && t in s'.threads && s'.threads[t] == s.threads[t]
            && ReadAt(e, s'.sh, s'.threads[t], h, i, was)
  {
    hide SharedInv, ThreadInv, CounterInv, StepPc, SeenAt;
    BelowTailLanded(e, s.sh, i - 1);
    if !SeenAt(e, s.sh, i - 1) {
      UnseenStays(e, s, a, i - 1);
    } else if a.Step? {
      SeenEffect(e, s.sh, a.t, s.threads[a.t], 0);
    }
  }

  lemma ReadAction(e: Env, s: State, a: Action, t: Tid, h: nat, i: u64, was: bool)
    requires Inv(e, s) && Enabled(e, s, a) && Lives(t, s, a) && t in s.threads && 1 <= i <= s.sh.committed
    requires ReadAt(e, s.sh, s.threads[t], h, i, was)
    ensures var s' := Do(e, s, a);
            Inv(e, s') && t in s'.threads && ReadAt(e, s'.sh, s'.threads[t], h, i, was)
  {
    hide SharedInv, ThreadInv, CounterInv, StepPc, ReadAt;
    ActionInv(e, s, a);
    if a == Step(t) {
      ReadOwn(e, s.sh, t, s.threads[t], h, i, was);
      assert ThreadInv(e, Do(e, s, a).sh, t, Do(e, s, a).threads[t]);
    } else {
      ReadOther(e, s, a, t, h, i, was);
    }
  }

  lemma {:induction false} ReadRun(e: Env, s: State, t: Tid, h: nat, i: u64, was: bool, as_: seq<Action>)
    requires Inv(e, s) && t in s.threads && 1 <= i <= s.sh.committed && ReadAt(e, s.sh, s.threads[t], h, i, was)
    requires RunFrom(e, s, as_, LivesRun(t))
    ensures var s' := After(e, s, as_, LivesRun(t));
            && Inv(e, s') && t in s'.threads && ReadAt(e, s'.sh, s'.threads[t], h, i, was)
            && s.sh.grants <= s'.sh.grants && s.sh.committed <= s'.sh.committed
    decreases |as_|
  {
    hide Inv, StepPc, ReadAt;
    if as_ != [] {
      ActionGrows(e, s, as_[0]);
      ReadAction(e, s, as_[0], t, h, i, was);
      ReadRun(e, Do(e, s, as_[0]), t, h, i, was, as_[1..]);
    }
  }

  /** Whatever others do while a read of an index up to committed_tail is under way: it returns the record of the append
      that owns the slot, or that there is none; the record if the slot is COMMITTED when it answers, so if it has been
      COMMITTED throughout; none if the slot was not COMMITTED when the read began. */
  lemma ReadAnswers(e: Env, s: State, t: Tid, h: nat, i: u64, as_: seq<Action>)
    requires Inv(e, s) && t in s.threads && s.threads[t] == Start(ReadCall(h, i)) && 1 <= i <= s.sh.committed
    requires RunFrom(e, s, as_, LivesRun(t))
    requires var s' := After(e, s, as_, LivesRun(t)); t in s'.threads && s'.threads[t].Done?
    ensures i <= |s.sh.grants| && i <= U32_LIMIT && s.sh.grants[i - 1].args.host < U16_LIMIT
    ensures var s' := After(e, s, as_, LivesRun(t));
            var r := s'.threads[t].reply;
            && SharedOk(e, s.sh) && SharedOk(e, s'.sh)
            && (r == ReadNone(i) || r == ReadSome(i, EntryOf(i - 1, s.sh.grants[i - 1].args)))
            && (SeenAt(e, s'.sh, i - 1) ==> r.ReadSome?)
            && (!SeenAt(e, s.sh, i - 1) ==> r.ReadNone?)
  {
    hide SharedInv, CounterInv, SeenAt, Rec;
    BelowTailLanded(e, s.sh, i - 1);
    ReadRun(e, s, t, h, i, SeenAt(e, s.sh, i - 1), as_);
    var s' := After(e, s, as_, LivesRun(t));
    assert ThreadInv(e, s'.sh, t, s'.threads[t]);
  }

  /** A read of index 0, or of an index beyond the tail at its answer, is out of bounds. */
  ghost predicate OutAt(sh: Shared, pc: Pc, h: nat, i: u64) {
    || 1 <= i <= sh.committed
    || pc == Start(ReadCall(h, i))
    || (pc.Done? && pc.reply.OutOfBounds? && pc.reply.index == i && pc.reply.tail <= sh.committed)
  }

  lemma {:induction false} OutRun(e: Env, s: State, t: Tid, h: nat, i: u64, as_: seq<Action>)
    requires Inv(e, s) && t in s.threads && OutAt(s.sh, s.threads[t], h, i) && RunFrom(e, s, as_, LivesRun(t))
    ensures var s' := After(e, s, as_, LivesRun(t)); t in s'.threads && OutAt(s'.sh, s'.threads[t], h, i)
    decreases |as_|
  {
    hide SharedInv, ThreadInv, CounterInv;
    if as_ != [] {
      var a := as_[0];
      ActionInv(e, s, a);
      ActionGrows(e, s, a);
      OutStep(e, s, a, t, h, i);
      OutRun(e, Do(e, s, a), t, h, i, as_[1..]);
    }
  }

  lemma OutStep(e: Env, s: State, a: Action, t: Tid, h: nat, i: u64)
    requires Enabled(e, s, a) && Lives(t, s, a) && t in s.threads && OutAt(s.sh, s.threads[t], h, i)
    requires s.sh.committed <= Do(e, s, a).sh.committed
    ensures t in Do(e, s, a).threads && OutAt(Do(e, s, a).sh, Do(e, s, a).threads[t], h, i)
  {
    hide SharedOk, StepPc;
    if a == Step(t) && s.threads[t] == Start(ReadCall(h, i)) {
      ReadStarts(e, s.sh, t, h, i);
    }
  }

  lemma ReadStarts(e: Env, sh: Shared, t: Tid, h: nat, i: u64)
    requires SharedOk(e, sh) && h < e.g.maxHosts
    requires PcOk(e, Start(ReadCall(h, i)))
    ensures StepPc(e, sh, t, Start(ReadCall(h, i)))
         == Move(sh, if i == 0 || i > sh.committed then Done(OutOfBounds(i, sh.committed)) else LoadState(h, i))
  {
    hide SharedOk;
  }

  lemma ReadRefused(e: Env, s: State, t: Tid, h: nat, i: u64, as_: seq<Action>)
    requires Inv(e, s) && t in s.threads && s.threads[t] == Start(ReadCall(h, i)) && RunFrom(e, s, as_, LivesRun(t))
    requires var s' := After(e, s, as_, LivesRun(t));
             t in s'.threads && s'.threads[t].Done? && (i == 0 || i > s'.sh.committed)
    ensures var s' := After(e, s, as_, LivesRun(t));
            var r := s'.threads[t].reply;
            r.OutOfBounds? && r.index == i && r.tail <= s'.sh.committed
  {
    hide SharedInv, ThreadInv, CounterInv;
    OutRun(e, s, t, h, i, as_);
  }

  // ---- trim ----

  ghost predicate Cleared(e: Env, sh: Shared, n: nat)
    requires SharedOk(e, sh)
  {
    forall v: nat | v < n :: !SeenAt(e, sh, v)
  }

  /** Where a trim with that bound is, and what it has cleared. It was not refused if the tail was at least its bound
      when it began, at tail lo. */
  ghost predicate TrimAt(e: Env, sh: Shared, pc: Pc, upTo: u64, lo: nat)
    requires SharedOk(e, sh)
  {
    && lo <= sh.committed
    && match pc
       case Start(c) => c == TrimCall(upTo)
       case TrimScan(b, u, n) => b == upTo <= sh.committed && Cleared(e, sh, u)
       case TrimMark(b, u, n) => b == upTo <= sh.committed && Cleared(e, sh, u)
       case TrimFlush(b, u, n, _) => b == upTo <= sh.committed && Cleared(e, sh, u + 1)
       case Done(r) =>
         || (r.Trimmed? && r.upTo == upTo <= sh.committed && r.count <= upTo && Cleared(e, sh, upTo))
         || (r.TrimBeyondCommitted? && r.upTo == upTo > r.tail && lo <= r.tail <= sh.committed)
       case _ => false
  }

  lemma TrimOwn(e: Env, sh: Shared, t: Tid, pc: Pc, upTo: u64, lo: nat)
    requires SharedInv(e, sh) && ThreadInv(e, sh, t, pc) && !pc.Done? && TrimAt(e, sh, pc, upTo, lo)
    requires sh.committed <= e.g.capacity
    ensures SharedOk(e, StepPc(e, sh, t, pc).sh)
    ensures TrimAt(e, StepPc(e, sh, t, pc).sh, StepPc(e, sh, t, pc).pc, upTo, lo)
  {
    hide SharedInv, Rec, Apply, NumLines;
    StepEffect(e, sh, t, pc, 0);
    forall v: nat | !SeenAt(e, sh, v) || (pc.TrimMark? && pc.slot == v)
      ensures !SeenAt(e, StepPc(e, sh, t, pc).sh, v)
    {
      hide StepPc;
      SeenEffect(e, sh, t, pc, v);
    }
    if pc.TrimScan? && pc.slot < pc.upTo {
      SeenByte(e, sh, pc.slot);
    }
  }

  lemma TrimOther(e: Env, s: State, a: Action, t: Tid, upTo: u64, lo: nat)
    requires Inv(e, s) && Enabled(e, s, a) && Lives(t, s, a) && a != Step(t) && t in s.threads
    requires TrimAt(e, s.sh, s.threads[t], upTo, lo) && s.sh.committed <= Do(e, s, a).sh.committed
    ensures var s' := Do(e, s, a);
            SharedOk(e, s'.sh) && t in s'.threads && s'.threads[t] == s.threads[t]
            && TrimAt(e, s'.sh, s'.threads[t], upTo, lo)
  {
    hide SharedInv, CounterInv, StepPc, SeenAt;
    ActionInv(e, s, a);
    assert ThreadInv(e, s.sh, t, s.threads[t]);
    forall v: nat | v < s.sh.committed && !SeenAt(e, s.sh, v) ensures !SeenAt(e, Do(e, s, a).sh, v) {
      BelowTailLanded(e, s.sh, v);
      UnseenStays(e, s, a, v);
    }
  }

  lemma TailInPool(e: Env, sh: Shared)
    requires SharedInv(e, sh)
    ensures sh.committed <= e.g.capacity
  {
  }

  lemma {:induction false} TrimRun(e: Env, s: State, t: Tid, upTo: u64, lo: nat, as_: seq<Action>)
    requires Inv(e, s) && t in s.threads && TrimAt(e, s.sh, s.threads[t], upTo, lo) && RunFrom(e, s, as_, LivesRun(t))
    ensures var s' := After(e, s, as_, LivesRun(t));
            Inv(e, s') && t in s'.threads && TrimAt(e, s'.sh, s'.threads[t], upTo, lo)
    decreases |as_|
  {
    hide SharedInv, ThreadInv, CounterInv, StepPc, TrimAt;
    if as_ != [] {
      var a := as_[0];
      ActionInv(e, s, a);
      ActionGrows(e, s, a);
      if a == Step(t) {
        TailInPool(e, s.sh);
        TrimOwn(e, s.sh, t, s.threads[t], upTo, lo);
      } else {
        TrimOther(e, s, a, t, upTo, lo);
      }
      TrimRun(e, Do(e, s, a), t, upTo, lo, as_[1..]);
    }
  }

  /** Whatever others do while a trim is under way: it is done if its bound was within the tail when it began, and
      refused if it is beyond the tail at the answer; when it is done, no slot below its bound is visibly COMMITTED. */
  lemma TrimAnswers(e: Env, s: State, t: Tid, upTo: u64, as_: seq<Action>)
    requires Inv(e, s) && t in s.threads && s.threads[t] == Start(TrimCall(upTo)) && RunFrom(e, s, as_, LivesRun(t))
    requires var s' := After(e, s, as_, LivesRun(t)); t in s'.threads && s'.threads[t].Done?
    ensures var s' := After(e, s, as_, LivesRun(t));
            var r := s'.threads[t].reply;
            && SharedOk(e, s'.sh)
            && (r.Trimmed? || r.TrimBeyondCommitted?) && r.upTo == upTo
            && (upTo <= s.sh.committed ==> r.Trimmed?)
            && (upTo > s'.sh.committed ==> r.TrimBeyondCommitted?)
            && (r.TrimBeyondCommitted? ==> s.sh.committed <= r.tail < upTo && r.tail <= s'.sh.committed)
            && (r.Trimmed? ==> r.count <= upTo && forall u: nat | u < upTo :: !SeenAt(e, s'.sh, u))
  {
    hide SharedInv, ThreadInv, CounterInv, SeenAt;
    TrimRun(e, s, t, upTo, s.sh.committed, as_);
  }
}
