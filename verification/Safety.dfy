/** What holds in every state of every run of the log protocol. */
module Safety {
  import opened Bytes
  import opened Layout
  import opened Records
  import opened Protocol
  import opened ProtocolInv
  import opened ProtocolSteps

  /** s is reached from a created pool by some interleaving of operations, evictions, deaths and crashes. */
  ghost predicate Reached(e: Env, as_: seq<Action>, s: State) {
    e.g.Ok() && RunFrom(e, Fresh(e), as_, AnyRun) && s == After(e, Fresh(e), as_, AnyRun)
  }

  lemma ReachedInv(e: Env, as_: seq<Action>, s: State)
    requires Reached(e, as_, s)
    ensures Inv(e, s)
  {
    FreshInv(e);
    RunInv(e, Fresh(e), as_, AnyRun);
  }

  /** No operand of a thread is ever out of place: every thread that has not finished can take its next step. */
  lemma NeverStuck(e: Env, as_: seq<Action>, s: State, t: Tid)
    requires Reached(e, as_, s) && t in s.threads
    ensures if s.threads[t].Done? then Enabled(e, s, Return(t)) else Enabled(e, s, Step(t))
  {
    hide SharedInv, PcOk;
    ReachedInv(e, as_, s);
    assert ThreadInv(e, s.sh, t, s.threads[t]);
  }

  // ---- The tail never outruns the media ----

  /** Every slot below committed_tail belongs to one append, whose fields, payload and checksum are durable and
      visible, whose state byte is durably not FREE, and which has been COMMITTED. */
  lemma TailNeverOutrunsMedia(e: Env, as_: seq<Action>, s: State, u: nat)
    requires Reached(e, as_, s) && u < s.sh.committed
    ensures SharedOk(e, s.sh) && u < e.g.capacity && u < |s.sh.grants| && ArgsOk(e.g, s.sh.grants[u].args)
    ensures Content(e, D(e, s.sh, u), u, s.sh.grants[u].args) && Content(e, V(e, s.sh, u), u, s.sh.grants[u].args)
    ensures D(e, s.sh, u)[REC_STATE] in {STATE_WRITING, STATE_COMMITTED, STATE_ABANDONED}
    ensures u in s.sh.landed
  {
    hide Content, Rec;
    ReachedInv(e, as_, s);
    assert SlotInv(e, s.sh, u);
    ContentSameBody(e, V(e, s.sh, u), D(e, s.sh, u), u, s.sh.grants[u].args);
  }

  /** A COMMITTED state byte, visible or durable, is backed by durable content wherever it appears. */
  lemma CommittedMeansDurable(e: Env, as_: seq<Action>, s: State, u: nat)
    requires Reached(e, as_, s) && u < e.g.capacity && SharedOk(e, s.sh)
    requires STATE_COMMITTED in {V(e, s.sh, u)[REC_STATE], D(e, s.sh, u)[REC_STATE]}
    ensures u < |s.sh.grants| && ArgsOk(e.g, s.sh.grants[u].args) && Content(e, D(e, s.sh, u), u, s.sh.grants[u].args)
  {
    hide Content, Rec;
    ReachedInv(e, as_, s);
    assert SlotInv(e, s.sh, u);
    ContentSameBody(e, V(e, s.sh, u), D(e, s.sh, u), u, s.sh.grants[u].args);
  }

  // ---- Reads ----

  /** A read that returns a record returns exactly the append that owns the slot; none reports a checksum mismatch. */
  lemma ReadAgreement(e: Env, as_: seq<Action>, s: State, t: Tid)
    requires Reached(e, as_, s) && t in s.threads && s.threads[t].Done?
    ensures !s.threads[t].reply.ChecksumMismatch?
    ensures s.threads[t].reply.ReadSome? ==>
              var ReadSome(index, entry) := s.threads[t].reply;
              && 1 <= index <= |s.sh.grants|
              && var a := s.sh.grants[index - 1].args;
                 entry.index == index && entry.term == a.term && entry.writer == a.host && entry.data == a.data
  {
    hide SharedInv;
    ReachedInv(e, as_, s);
    assert ThreadInv(e, s.sh, t, s.threads[t]);
  }

  /** Grants are never revised: the owner of a slot is the same in every later state. */
  lemma {:induction false} GrantsArePermanent(e: Env, s: State, as_: seq<Action>)
    requires Inv(e, s) && RunFrom(e, s, as_, AnyRun)
    ensures s.sh.grants <= After(e, s, as_, AnyRun).sh.grants
    ensures s.sh.committed <= After(e, s, as_, AnyRun).sh.committed
    ensures s.sh.landed <= After(e, s, as_, AnyRun).sh.landed
    decreases |as_|
  {
    if as_ != [] {
      ActionInv(e, s, as_[0]);
      ActionGrows(e, s, as_[0]);
      GrantsArePermanent(e, Do(e, s, as_[0]), as_[1..]);
    }
  }

  lemma ActionGrows(e: Env, s: State, a: Action)
    requires Inv(e, s) && Enabled(e, s, a) && NoWrapAhead(s)
    ensures var s' := Do(e, s, a);
            s.sh.grants <= s'.sh.grants && s.sh.committed <= s'.sh.committed && s.sh.landed <= s'.sh.landed
  {
    hide SharedInv, ThreadInv, StepPc, GuarSlot;
    if a.Step? {
      CounterReads(e, s);
      StepKept(e, s.sh, a.t, s.threads[a.t]);
    }
  }

  // ---- Slot ownership ----

  /** The slot a thread is filling, committing or reporting. */
  function Held(pc: Pc): Option<nat> {
    match pc
    case Body(u, _, _) => Some(u)
    case FlushRecord(u, _, _) => Some(u)
    case Commit(u, _) => Some(u)
    case FlushState(u, _, _) => Some(u)
    case CountAppend(u, _) => Some(u)
    case CountBytes(u, _) => Some(u)
    case Sweeping(ForAppend(u, _), _) => Some(u)
    case Done(Appended(u, _)) => Some(u)
    case _ => None
  }

  /** No two threads ever hold the same slot, and no two appends are told the same index. */
  lemma SlotsAreExclusive(e: Env, as_: seq<Action>, s: State, t1: Tid, t2: Tid)
    requires Reached(e, as_, s) && t1 in s.threads && t2 in s.threads && t1 != t2
    requires Held(s.threads[t1]).Some?
    ensures Held(s.threads[t1]) != Held(s.threads[t2])
  {
    hide SharedInv;
    ReachedInv(e, as_, s);
    assert ThreadInv(e, s.sh, t1, s.threads[t1]) && ThreadInv(e, s.sh, t2, s.threads[t2]);
  }

  /** reserve_tail counts the granted slots and the overflows not yet undone, which exist only in a full pool;
      the next reservation gets the first ungranted slot, or finds the pool really full. */
  lemma ReservationsAreExact(e: Env, as_: seq<Action>, s: State)
    requires Reached(e, as_, s)
    ensures var owed := CountPc(s.threads, Owes) + s.sh.leaked;
            && s.sh.reserve == |s.sh.grants| + owed
            && (owed > 0 ==> |s.sh.grants| == e.g.capacity)
            && Min(s.sh.reserve, e.g.capacity) == |s.sh.grants|
            && s.sh.committed <= |s.sh.grants| <= e.g.capacity
            && (s.sh.reserve < e.g.capacity <==> |s.sh.grants| < e.g.capacity)
  {
    ReachedInv(e, as_, s);
    if s.sh.committed > 0 {
      assert SlotInv(e, s.sh, s.sh.committed - 1);
    }
  }

  /** An append's reservation step, from any reachable state: fresh slot below capacity, or PoolFull in a full pool. */
  lemma ReservationStep(e: Env, as_: seq<Action>, s: State, t: Tid, a: Args)
    requires Reached(e, as_, s) && NoWrapAhead(s) && t in s.threads && s.threads[t] == Start(AppendCall(a))
    requires |a.data| <= e.g.payloadSize
    ensures Enabled(e, s, Step(t))
    ensures var s' := Do(e, s, Step(t));
            if |s.sh.grants| < e.g.capacity then
              s'.threads[t] == Body(|s.sh.grants|, a, 0) && s'.sh.grants == s.sh.grants + [Grant(t, a)]
            else s'.threads[t] == Undo(a, s.sh.reserve) && s'.sh.grants == s.sh.grants
  {
    hide SharedInv;
    ReachedInv(e, as_, s);
    ReservationsAreExact(e, as_, s);
    assert ThreadInv(e, s.sh, t, s.threads[t]);
  }

  /** PoolFull is only ever answered by a pool whose slots have all been granted. */
  lemma PoolFullIsNeverSpurious(e: Env, as_: seq<Action>, s: State, t: Tid)
    requires Reached(e, as_, s) && t in s.threads && s.threads[t].Done? && s.threads[t].reply.PoolFull?
    ensures |s.sh.grants| == e.g.capacity
  {
    hide SharedInv;
    ReachedInv(e, as_, s);
    assert ThreadInv(e, s.sh, t, s.threads[t]);
  }

  /** The counter is a 64-bit word. A reservation leaves it exact, that is equal to the granted slots plus the undos
      owed, and these owed only in a full pool, if and only if the word before it is not u64::MAX, which any caller can
      read. */
  lemma ReservationRightIff(e: Env, s: State, t: Tid, a: Args)
    requires Inv(e, s) && t in s.threads && s.threads[t] == Start(AppendCall(a)) && |a.data| <= e.g.payloadSize
    ensures Enabled(e, s, Step(t))
    ensures CounterInv(e, Do(e, s, Step(t))) <==> NoWrapAhead(s)
  {
    hide SharedInv, CountPc, BodyOps;
    assert ThreadInv(e, s.sh, t, s.threads[t]);
    if NoWrapAhead(s) {
      CounterStep(e, s, t);
    } else {
      WrappedReserve(e, s, t, a);
    }
  }

  /** At u64::MAX the word wraps to 0, and the append is told the pool is full. */
  lemma WrappedReserve(e: Env, s: State, t: Tid, a: Args)
    requires SharedOk(e, s.sh) && CounterInv(e, s) && s.sh.reserve == U64_MAX && |s.sh.grants| <= e.g.capacity
    requires t in s.threads && s.threads[t] == Start(AppendCall(a)) && CallOk(e.g, AppendCall(a))
    requires |a.data| <= e.g.payloadSize
    ensures Enabled(e, s, Step(t))
    ensures var s' := Do(e, s, Step(t));
            && s' == State(s.sh.(reserve := 0, overflows := s.sh.overflows + 1), s.threads[t := Undo(a, U64_MAX)])
            && |s.sh.grants| == e.g.capacity && !CounterInv(e, s')
  {
    hide CountPc, BodyOps;
  }

  // ---- The sweep ----

  /** A bound on the steps left in a sweep, lexicographically: tails still to try, then slots still to scan. */
  function Rank(cap: nat, w: Sweep): (int, int) {
    match w
    case LoadTail(tries, first) => (if tries == 0 then cap + 1 else cap - first - tries, cap + 2)
    case ScanFrom(tries, first, cur, new_) => (cap - first - tries, cap - new_ + 1)
    case SwapTail(tries, first, cur, new_) => (cap - first - tries, 0)
  }

  predicate Below(a: (int, int), b: (int, int)) {
    0 <= a.0 && 0 <= a.1 && (a.0 < b.0 || (a.0 == b.0 && a.1 < b.1))
  }

  /** Every own step of a sweeper lowers its rank or ends the sweep, whatever the others did in between; a failed
      compare-exchange has met a strictly larger tail; so a sweep retries at most capacity minus its first tail
      times. */
  lemma SweepMakesProgress(e: Env, as_: seq<Action>, s: State, t: Tid)
    requires Reached(e, as_, s) && NoWrapAhead(s) && t in s.threads && s.threads[t].Sweeping?
    ensures Enabled(e, s, Step(t))
    ensures var pc' := Do(e, s, Step(t)).threads[t];
            pc'.Sweeping? ==>
              && pc'.job == s.threads[t].job
              && Below(Rank(e.g.capacity, pc'.sweep), Rank(e.g.capacity, s.threads[t].sweep))
    ensures s.threads[t].sweep.SwapTail? && s.sh.committed != s.threads[t].sweep.cur ==>
            s.sh.committed > s.threads[t].sweep.cur
    ensures var w := s.threads[t].sweep; w.tries > 0 ==> w.tries <= e.g.capacity - w.first
  {
    hide SharedOk, Rec;
    ReachedInv(e, as_, s);
    assert ThreadInv(e, s.sh, t, s.threads[t]);
  }
}
