/** The metrics blocks: per-host counters, their aggregation, and what the totals mean while nobody dies. */
module Accounting {
  import opened Bytes
  import opened Media
  import opened Records
  import opened Protocol
  import opened ProtocolInv
  import opened ProtocolSteps
  import opened RecoverRace

  // ---- Sums over hosts ----

  /** One counter summed over the first n hosts, in 64-bit arithmetic. */
  function Total(m: seq<seq<u64>>, field: nat, n: nat): u64
    requires n <= |m| && forall h | 0 <= h < |m| :: field < |m[h]|
  {
    if n == 0 then 0 else WrapAdd(Total(m, field, n - 1), m[n - 1][field])
  }

  /** Adding to one host's counter adds to that counter's total, and to no other total. */
  lemma {:induction false} BumpTotal(m: seq<seq<u64>>, host: nat, field: nat, x: u64, g: nat, n: nat)
    requires host < |m| && n <= |m| && (forall h | 0 <= h < |m| :: |m[h]| == METRICS_FIELDS)
    requires field < METRICS_FIELDS && g < METRICS_FIELDS
    ensures var m' := Bump(m, host, field, x);
            && |m'| == |m| && (forall h | 0 <= h < |m'| :: |m'[h]| == METRICS_FIELDS)
            && Total(m', g, n) == if g == field && host < n then WrapAdd(Total(m, g, n), x) else Total(m, g, n)
  {
    hide WrapAdd;
    var m' := Bump(m, host, field, x);
    if n > 0 {
      BumpTotal(m, host, field, x, g, n - 1);
      if host == n - 1 {
        WrapAssoc(Total(m, g, n - 1), m[n - 1][g], x);
      } else {
        WrapAddSwap(Total(m, g, n - 1), m[n - 1][g], x);
        assert m'[n - 1] == m[n - 1];
      }
    }
  }

  // ---- What a step counts ----

  predicate Uncounted(pc: Pc) { Appending(pc) && !pc.CountBytes? }
  predicate FailPending(pc: Pc) { pc.Undo? || pc.FailMetric? }

  datatype Tick = Tick(host: nat, field: nat, n: u64)

  /** The counter the next step of a thread adds to. */
  function Ticks(e: Env, pc: Pc): Option<Tick>
    requires e.g.Ok() && PcOk(e, pc)
  {
    match pc
    case FailMetric(a, _) => Some(Tick(a.host, APPENDS_FAILED, 1))
    case CountAppend(_, a) => Some(Tick(a.host, APPENDS_TOTAL, 1))
    case CountBytes(_, a) => Some(Tick(a.host, BYTES_WRITTEN, |a.data|))
    case CountRead(h, _, _) => Some(Tick(h, READS_TOTAL, 1))
    case CountMismatch(h, _) => Some(Tick(h, CHECKSUM_FAILURES, 1))
    case CountRun(h, _) => Some(Tick(h, RECOVERY_RUNS, 1))
    case CountFound(h, r) => Some(Tick(h, ABANDONED_FOUND, r.abandoned))
    case _ => None
  }

  /** Each step adds to at most one counter, of the block of the host that runs it. */
  lemma MetricsEffect(e: Env, sh: Shared, t: Tid, pc: Pc)
    requires SharedOk(e, sh) && PcOk(e, pc) && !pc.Done?
    ensures var k := Ticks(e, pc);
            && (k.Some? ==> k.value.host < e.g.maxHosts && k.value.field < METRICS_FIELDS)
            && StepPc(e, sh, t, pc).sh.metrics
              == if k.Some? then Bump(sh.metrics, k.value.host, k.value.field, k.value.n) else sh.metrics
  {
    hide Rec, BodyOps, StateByte, Word, LenOf, PayloadOf;
  }

  /** Each host changes only its own block. */
  lemma OwnBlockOnly(e: Env, sh: Shared, t: Tid, pc: Pc, h: nat)
    requires SharedOk(e, sh) && PcOk(e, pc) && !pc.Done? && h < e.g.maxHosts
    requires Ticks(e, pc).Some? ==> Ticks(e, pc).value.host != h
    ensures h < |StepPc(e, sh, t, pc).sh.metrics| && StepPc(e, sh, t, pc).sh.metrics[h] == sh.metrics[h]
  {
    hide StepPc;
    MetricsEffect(e, sh, t, pc);
  }

  /** How a step moves a slot through granted, counted and billed. */
  ghost predicate Moved(e: Env, sh: Shared, t: Tid, pc: Pc, m: Move) {
    && m.sh.counted == (if pc.CountAppend? then sh.counted + {pc.slot} else sh.counted)
    && m.sh.billed == (if pc.CountBytes? then sh.billed + {pc.slot} else sh.billed)
    && (if Appending(pc) then
          && m.sh.grants == sh.grants
          && (pc.CountBytes? ==> !Appending(m.pc))
          && (!pc.CountBytes? ==>
                Appending(m.pc) && SlotOf(m.pc) == SlotOf(pc) && (m.pc.CountBytes? <==> pc.CountAppend?))
        else if Appending(m.pc) then
          && m.pc.Body? && m.pc.slot == sh.reserve && sh.reserve < e.g.capacity
          && m.sh.grants == sh.grants + [Grant(t, m.pc.args)]
        else m.sh.grants == sh.grants)
    && m.sh.overflows == sh.overflows + (if m.pc.Undo? then 1 else 0)
    && (FailPending(m.pc) <==> m.pc.Undo? || pc.Undo?) && (m.pc.Undo? ==> pc.Start?)
  }

  lemma BooksEffect(e: Env, sh: Shared, t: Tid, pc: Pc)
    requires SharedOk(e, sh) && PcOk(e, pc) && !pc.Done?
    ensures Moved(e, sh, t, pc, StepPc(e, sh, t, pc))
  {
    hide Rec, BodyOps, StateByte, Word, LenOf, PayloadOf, SharedOk, Apply, NumLines;
    if Appending(pc) {
      AppendMoved(e, sh, t, pc);
    }
  }

  lemma AppendMoved(e: Env, sh: Shared, t: Tid, pc: Pc)
    requires SharedOk(e, sh) && PcOk(e, pc) && !pc.Done? && Appending(pc)
    ensures Moved(e, sh, t, pc, StepPc(e, sh, t, pc))
  {
    hide Rec, BodyOps, StateByte, SharedOk, Apply, NumLines;
  }

  // ---- The books ----

  /** The bytes of the billed appends among the first n. */
  function BytesOf(grants: seq<Grant>, billed: set<nat>, n: nat): nat
    requires n <= |grants|
  {
    if n == 0 then 0
    else BytesOf(grants, billed, n - 1) + if n - 1 in billed then |grants[n - 1].args.data| else 0
  }

  lemma {:induction false} BytesAdd(grants: seq<Grant>, billed: set<nat>, n: nat, u: nat)
    requires n <= |grants| && u !in billed
    ensures BytesOf(grants, billed + {u}, n) == BytesOf(grants, billed, n) + if u < n then |grants[u].args.data| else 0
  {
    if n > 0 {
      BytesAdd(grants, billed, n - 1, u);
    }
  }

  lemma {:induction false} BytesPrefix(grants: seq<Grant>, more: seq<Grant>, billed: set<nat>, n: nat)
    requires n <= |grants|
    ensures BytesOf(grants + more, billed, n) == BytesOf(grants, billed, n)
  {
    if n > 0 {
      BytesPrefix(grants, more, billed, n - 1);
    }
  }

  ghost predicate SlotBooks(sh: Shared, pc: Pc) {
    Appending(pc) ==> SlotOf(pc).0 !in sh.billed && (pc.CountBytes? <==> SlotOf(pc).0 in sh.counted)
  }

  /** Slots granted, counted and billed; and reservations that failed. */
  ghost predicate Books(e: Env, s: State) {
    && SharedOk(e, s.sh)
    && |s.sh.grants| == |s.sh.counted| + CountPc(s.threads, Uncounted)
    && |s.sh.grants| == |s.sh.billed| + CountPc(s.threads, Appending)
    && (forall u | u in s.sh.counted || u in s.sh.billed :: u < |s.sh.grants|)
    && (forall t | t in s.threads :: SlotBooks(s.sh, s.threads[t]))
    && CountPc(s.threads, FailPending) <= s.sh.overflows
    && var m := s.sh.metrics;
       && Total(m, APPENDS_TOTAL, |m|) == |s.sh.counted| % U64_LIMIT
       && Total(m, BYTES_WRITTEN, |m|) == BytesOf(s.sh.grants, s.sh.billed, |s.sh.grants|) % U64_LIMIT
       && Total(m, APPENDS_FAILED, |m|) == (s.sh.overflows - CountPc(s.threads, FailPending)) % U64_LIMIT
  }

  predicate DeathFree(s: State, a: Action) { NoWrapAhead(s) && !a.Kill? && !a.Crash? }

  lemma ModAdd(a: nat, b: nat)
    requires b < U64_LIMIT
    ensures WrapAdd(a % U64_LIMIT, b) == (a + b) % U64_LIMIT
  {
  }

  /** The three totals after a step. */
  lemma TotalsStep(e: Env, s: State, t: Tid)
    requires Inv(e, s) && Books(e, s) && Enabled(e, s, Step(t)) && NoWrapAhead(s)
    ensures var s' := Do(e, s, Step(t));
            var m := s'.sh.metrics;
            && SharedOk(e, s'.sh)
            && Total(m, APPENDS_TOTAL, |m|) == (|s.sh.counted| + if s.threads[t].CountAppend? then 1 else 0) % U64_LIMIT
            && Total(m, BYTES_WRITTEN, |m|)
            == (BytesOf(s.sh.grants, s.sh.billed, |s.sh.grants|)
                + if s.threads[t].CountBytes? then |s.threads[t].args.data| else 0) % U64_LIMIT
            && Total(m, APPENDS_FAILED, |m|) == (s.sh.overflows - CountPc(s.threads, FailPending)
                                                 + if s.threads[t].FailMetric? then 1 else 0) % U64_LIMIT
  {
    hide SharedInv, ThreadInv, StepPc, CounterInv, CountPc, BytesOf, Bump, Total;
    var pc := s.threads[t];
    StepStaysOk(e, s, t);
    MetricsEffect(e, s.sh, t, pc);
    var k := Ticks(e, pc);
    var n := |s.sh.metrics|;
    if k.Some? {
      BumpTotal(s.sh.metrics, k.value.host, k.value.field, k.value.n, APPENDS_TOTAL, n);
      BumpTotal(s.sh.metrics, k.value.host, k.value.field, k.value.n, BYTES_WRITTEN, n);
      BumpTotal(s.sh.metrics, k.value.host, k.value.field, k.value.n, APPENDS_FAILED, n);
      ModAdd(|s.sh.counted|, 1);
      ModAdd(BytesOf(s.sh.grants, s.sh.billed, |s.sh.grants|), k.value.n);
      ModAdd(s.sh.overflows - CountPc(s.threads, FailPending), 1);
    }
  }

  lemma StepStaysOk(e: Env, s: State, t: Tid)
    requires Inv(e, s) && Enabled(e, s, Step(t)) && NoWrapAhead(s)
    ensures SharedOk(e, Do(e, s, Step(t)).sh)
  {
    hide SharedInv, ThreadInv, StepPc;
    CounterReads(e, s);
    StepKept(e, s.sh, t, s.threads[t]);
  }

  lemma CountsStep(e: Env, s: State, t: Tid)
    requires Inv(e, s) && Books(e, s) && Enabled(e, s, Step(t)) && NoWrapAhead(s)
    ensures var s' := Do(e, s, Step(t));
            && |s'.sh.grants| == |s'.sh.counted| + CountPc(s'.threads, Uncounted)
            && |s'.sh.grants| == |s'.sh.billed| + CountPc(s'.threads, Appending)
            && CountPc(s'.threads, FailPending) <= s'.sh.overflows
            && s'.sh.overflows - CountPc(s'.threads, FailPending)
               == s.sh.overflows - CountPc(s.threads, FailPending) + if s.threads[t].FailMetric? then 1 else 0
  {
    hide SharedInv, ThreadInv, StepPc, CounterInv, CountPc, BytesOf, Total, SharedOk;
    var pc := s.threads[t];
    var m := StepPc(e, s.sh, t, pc);
    BooksEffect(e, s.sh, t, pc);
    assert SlotBooks(s.sh, pc);
    CountMove(s.threads, t, m.pc, Uncounted);
    CountMove(s.threads, t, m.pc, Appending);
    CountMove(s.threads, t, m.pc, FailPending);
  }

  /** A stepping thread's slot is not in another thread's books. */
  lemma SlotsApart(e: Env, s: State, t: Tid, x: Tid)
    requires Inv(e, s) && t in s.threads && x in s.threads && t != x && Appending(s.threads[t])
    requires Appending(s.threads[x])
    ensures SlotOf(s.threads[t]).0 != SlotOf(s.threads[x]).0
  {
    hide SharedInv, Written, Content, FlushedTo;
    assert ThreadInv(e, s.sh, t, s.threads[t]) && ThreadInv(e, s.sh, x, s.threads[x]);
  }

  lemma OwnedSlot(e: Env, s: State, t: Tid)
    requires Inv(e, s) && t in s.threads && Appending(s.threads[t])
    ensures var (u, a) := SlotOf(s.threads[t]); u < |s.sh.grants| && s.sh.grants[u] == Grant(t, a)
  {
    hide SharedInv, Written, Content, FlushedTo;
    assert ThreadInv(e, s.sh, t, s.threads[t]);
  }

  lemma SlotBooksStep(e: Env, s: State, t: Tid, x: Tid)
    requires Inv(e, s) && Books(e, s) && Enabled(e, s, Step(t)) && NoWrapAhead(s) && x in Do(e, s, Step(t)).threads
    ensures var s' := Do(e, s, Step(t)); SlotBooks(s'.sh, s'.threads[x])
  {
    hide StepPc, CountPc, BytesOf, Total, SharedOk, Inv;
    var pc := s.threads[t];
    BooksEffect(e, s.sh, t, pc);
    FreshSlot(e, s);
    assert SlotBooks(s.sh, pc);
    if x != t {
      assert SlotBooks(s.sh, s.threads[x]);
      if Appending(pc) && Appending(s.threads[x]) {
        SlotsApart(e, s, t, x);
      }
    }
  }

  lemma BooksStep(e: Env, s: State, t: Tid)
    requires Inv(e, s) && Books(e, s) && Enabled(e, s, Step(t)) && NoWrapAhead(s)
    ensures Books(e, Do(e, s, Step(t)))
  {
    hide StepPc, CountPc, BytesOf, Total, SharedOk, Inv, SlotBooks;
    var pc := s.threads[t];
    var s' := Do(e, s, Step(t));
    TotalsStep(e, s, t);
    CountsStep(e, s, t);
    BytesStep(e, s, t);
    SlotsListed(e, s, t);
    forall x | x in s'.threads ensures SlotBooks(s'.sh, s'.threads[x]) {
      SlotBooksStep(e, s, t, x);
    }
  }

  lemma SlotsListed(e: Env, s: State, t: Tid)
    requires Inv(e, s) && Books(e, s) && Enabled(e, s, Step(t)) && NoWrapAhead(s)
    ensures var sh' := Do(e, s, Step(t)).sh;
            && (forall u | u in sh'.counted || u in sh'.billed :: u < |sh'.grants|)
            && |sh'.counted| == |s.sh.counted| + if s.threads[t].CountAppend? then 1 else 0
  {
    hide StepPc, CountPc, BytesOf, Total, SharedOk, Inv;
    var pc := s.threads[t];
    BooksEffect(e, s.sh, t, pc);
    assert SlotBooks(s.sh, pc);
    if Appending(pc) {
      OwnedSlot(e, s, t);
    }
  }

  lemma FreshSlot(e: Env, s: State)
    requires Inv(e, s)
    ensures s.sh.reserve < e.g.capacity ==> s.sh.reserve == |s.sh.grants|
  {
    CounterReads(e, s);
  }

  lemma BytesStep(e: Env, s: State, t: Tid)
    requires Inv(e, s) && Books(e, s) && Enabled(e, s, Step(t)) && NoWrapAhead(s)
    ensures var s' := Do(e, s, Step(t));
            BytesOf(s'.sh.grants, s'.sh.billed, |s'.sh.grants|)
            == BytesOf(s.sh.grants, s.sh.billed, |s.sh.grants|)
                + if s.threads[t].CountBytes? then |s.threads[t].args.data| else 0
  {
    hide SharedInv, ThreadInv, StepPc, CounterInv, CountPc, Total, SharedOk, Inv;
    var pc := s.threads[t];
    var s' := Do(e, s, Step(t));
    BooksEffect(e, s.sh, t, pc);
    assert SlotBooks(s.sh, pc);
    var n := |s.sh.grants|;
    if pc.CountBytes? {
      OwnedSlot(e, s, t);
      BytesAdd(s.sh.grants, s.sh.billed, n, pc.slot);
    } else if |s'.sh.grants| > n {
      BytesPrefix(s.sh.grants, s'.sh.grants[n..], s.sh.billed, n);
      assert s'.sh.grants == s.sh.grants + s'.sh.grants[n..];
      assert n !in s.sh.billed;
    }
  }

  lemma BooksAction(e: Env, s: State, a: Action)
    requires Inv(e, s) && Books(e, s) && Enabled(e, s, a) && DeathFree(s, a)
    ensures Books(e, Do(e, s, a))
  {
    hide SharedInv, ThreadInv, StepPc, CounterInv, CountPc, BytesOf, Total;
    match a
    case Step(t) => BooksStep(e, s, t);
    case Invoke(t, call) =>
      CountMove(s.threads, t, Start(call), Uncounted);
      CountMove(s.threads, t, Start(call), Appending);
      CountMove(s.threads, t, Start(call), FailPending);
    case Return(t) =>
      CountGone(s.threads, t, Uncounted);
      CountGone(s.threads, t, Appending);
      CountGone(s.threads, t, FailPending);
    case Evict(line) =>
  }

  lemma {:induction false} ZeroTotal(m: seq<seq<u64>>, field: nat, n: nat)
    requires n <= |m| && (forall h | 0 <= h < |m| :: field < |m[h]| && m[h][field] == 0)
    ensures Total(m, field, n) == 0
  {
    if n > 0 {
      ZeroTotal(m, field, n - 1);
    }
  }

  lemma {:induction false} BooksRun(e: Env, s: State, as_: seq<Action>)
    requires Inv(e, s) && Books(e, s) && RunFrom(e, s, as_, DeathFree)
    ensures Inv(e, After(e, s, as_, DeathFree)) && Books(e, After(e, s, as_, DeathFree))
    decreases |as_|
  {
    if as_ != [] {
      ActionInv(e, s, as_[0]);
      BooksAction(e, s, as_[0]);
      BooksRun(e, Do(e, s, as_[0]), as_[1..]);
    }
  }

  lemma FreshBooks(e: Env)
    requires e.g.Ok()
    ensures Books(e, Fresh(e))
  {
    var m := Fresh(e).sh.metrics;
    ZeroTotal(m, APPENDS_TOTAL, |m|);
    ZeroTotal(m, BYTES_WRITTEN, |m|);
    ZeroTotal(m, APPENDS_FAILED, |m|);
  }

  /** While nobody dies, the granted slots are those counted in appends_total over all hosts plus those held by
      threads that have not counted theirs yet. */
  lemma AppendsAreConserved(e: Env, as_: seq<Action>)
    requires e.g.Ok() && RunFrom(e, Fresh(e), as_, DeathFree)
    ensures var s := After(e, Fresh(e), as_, DeathFree);
            && SharedOk(e, s.sh)
            && Min(s.sh.reserve, e.g.capacity) == |s.sh.grants|
            && |s.sh.grants| == Total(s.sh.metrics, APPENDS_TOTAL, e.g.maxHosts) + CountPc(s.threads, Uncounted)
  {
    hide SharedInv, ThreadInv, CountPc, Total, BytesOf, Fresh, RunFrom, After, SlotBooks;
    FreshInv(e);
    FreshBooks(e);
    BooksRun(e, Fresh(e), as_);
    var s := After(e, Fresh(e), as_, DeathFree);
    CounterReads(e, s);
    Small(|s.sh.counted|);
  }

  lemma Small(n: nat)
    ensures n < U32_LIMIT ==> n % U64_LIMIT == n
  {
  }

  // ---- PoolFull answers ----

  predicate Refusing(pc: Pc) { pc.Done? && pc.reply.PoolFull? }

  /** The PoolFull answers that the run has delivered. */
  ghost function Delivered(e: Env, s: State, as_: seq<Action>): nat
    requires RunFrom(e, s, as_, DeathFree)
    decreases |as_|
  {
    if as_ == [] then 0
    else Delivered(e, Do(e, s, as_[0]), as_[1..]) + if as_[0].Return? && Refusing(s.threads[as_[0].t]) then 1 else 0
  }

  /** Failures counted so far, less the answers that wait to be delivered. */
  function Unanswered(s: State): int { s.sh.overflows - CountPc(s.threads, FailPending) - CountPc(s.threads, Refusing) }

  lemma RefusingStep(e: Env, sh: Shared, t: Tid, pc: Pc)
    requires SharedOk(e, sh) && PcOk(e, pc) && !pc.Done?
    ensures Refusing(StepPc(e, sh, t, pc).pc) <==> pc.FailMetric?
  {
    hide Rec, BodyOps, StateByte, Word, LenOf, PayloadOf, SharedOk;
  }

  lemma AnswersAction(e: Env, s: State, a: Action)
    requires Inv(e, s) && Books(e, s) && Enabled(e, s, a) && DeathFree(s, a)
    ensures Unanswered(Do(e, s, a)) == Unanswered(s) + if a.Return? && Refusing(s.threads[a.t]) then 1 else 0
  {
    hide SharedInv, ThreadInv, CountPc, StepPc, Books, CounterInv;
    match a
    case Step(t) =>
      var pc := s.threads[t];
      CountsStep(e, s, t);
      RefusingStep(e, s.sh, t, pc);
      CountMove(s.threads, t, StepPc(e, s.sh, t, pc).pc, Refusing);
    case Invoke(t, call) =>
      CountMove(s.threads, t, Start(call), FailPending);
      CountMove(s.threads, t, Start(call), Refusing);
    case Return(t) =>
      CountGone(s.threads, t, FailPending);
      CountGone(s.threads, t, Refusing);
    case Evict(_) =>
  }

  lemma {:induction false} AnswersRun(e: Env, s: State, as_: seq<Action>)
    requires Inv(e, s) && Books(e, s) && RunFrom(e, s, as_, DeathFree)
    ensures Unanswered(After(e, s, as_, DeathFree)) == Unanswered(s) + Delivered(e, s, as_)
    decreases |as_|
  {
    hide Inv, Books, Unanswered;
    if as_ != [] {
      ActionInv(e, s, as_[0]);
      BooksAction(e, s, as_[0]);
      AnswersAction(e, s, as_[0]);
      AnswersRun(e, Do(e, s, as_[0]), as_[1..]);
    }
  }

  /** While nobody dies, appends_failed summed over all hosts is at every moment the number of PoolFull answers
      delivered, or ready to be delivered, modulo 2^64. */
  lemma FailuresAreAnswers(e: Env, as_: seq<Action>)
    requires e.g.Ok() && RunFrom(e, Fresh(e), as_, DeathFree)
    ensures var s := After(e, Fresh(e), as_, DeathFree);
            && SharedOk(e, s.sh)
            && Total(s.sh.metrics, APPENDS_FAILED, e.g.maxHosts)
            == (Delivered(e, Fresh(e), as_) + CountPc(s.threads, Refusing)) % U64_LIMIT
  {
    hide SharedInv, ThreadInv, Total, RunFrom, After, CounterInv, Delivered, CountPc, BytesOf, SlotBooks;
    FreshInv(e);
    FreshBooks(e);
    BooksRun(e, Fresh(e), as_);
    AnswersRun(e, Fresh(e), as_);
    NobodyYet(e);
  }

  lemma NobodyYet(e: Env)
    requires e.g.Ok()
    ensures Unanswered(Fresh(e)) == 0
  {
    assert Those(Fresh(e).threads, FailPending) == {} && Those(Fresh(e).threads, Refusing) == {};
  }

  // ---- At quiescence ----

  predicate NoneAppending(s: State) {
    forall t | t in s.threads :: !Appending(s.threads[t]) && !FailPending(s.threads[t])
  }

  /** With no append in flight the totals are exact: one appends_total per slot, the sum of all data lengths, and,
      modulo 2^64, one appends_failed per reservation that found the pool full and per PoolFull answer. */
  lemma QuiescentTotals(e: Env, as_: seq<Action>)
    requires e.g.Ok() && RunFrom(e, Fresh(e), as_, DeathFree)
    requires NoneAppending(After(e, Fresh(e), as_, DeathFree))
    ensures var s := After(e, Fresh(e), as_, DeathFree);
            && SharedOk(e, s.sh)
            && Total(s.sh.metrics, APPENDS_TOTAL, e.g.maxHosts) == |s.sh.grants|
            && Total(s.sh.metrics, BYTES_WRITTEN, e.g.maxHosts) == AllBytes(s.sh.grants, |s.sh.grants|)
            && Total(s.sh.metrics, APPENDS_FAILED, e.g.maxHosts) == s.sh.overflows % U64_LIMIT
            && Total(s.sh.metrics, APPENDS_FAILED, e.g.maxHosts)
            == (Delivered(e, Fresh(e), as_) + CountPc(s.threads, Refusing)) % U64_LIMIT
  {
    hide SharedInv, ThreadInv, Total, Books, RunFrom, After, Fresh, CounterInv, NoneAppending, AllBytes, Delivered;
    hide CountPc;
    FailuresAreAnswers(e, as_);
    FreshInv(e);
    FreshBooks(e);
    BooksRun(e, Fresh(e), as_);
    QuietBooks(e, After(e, Fresh(e), as_, DeathFree));
  }

  lemma QuietBooks(e: Env, s: State)
    requires Books(e, s) && SharedInv(e, s.sh)
    requires NoneAppending(s)
    ensures && Total(s.sh.metrics, APPENDS_TOTAL, e.g.maxHosts) == |s.sh.grants|
            && Total(s.sh.metrics, BYTES_WRITTEN, e.g.maxHosts) == AllBytes(s.sh.grants, |s.sh.grants|)
            && Total(s.sh.metrics, APPENDS_FAILED, e.g.maxHosts) == s.sh.overflows % U64_LIMIT
  {
    hide SharedInv, CountPc, Total, BytesOf, AllBytes, SlotBooks;
    NobodyLeft(s.threads);
    FullSet(s.sh.billed, |s.sh.grants|);
    AllBilled(e, s.sh.grants, s.sh.billed, |s.sh.grants|);
    Small(|s.sh.grants|);
    Within(AllBytes(s.sh.grants, |s.sh.grants|));
  }

  lemma Within(n: nat)
    ensures n < U64_LIMIT ==> n % U64_LIMIT == n
  {
  }

  lemma NobodyLeft(threads: map<Tid, Pc>)
    ensures (forall t | t in threads :: !Appending(threads[t]) && !FailPending(threads[t])) ==>
              CountPc(threads, Appending) == 0 && CountPc(threads, Uncounted) == 0 && CountPc(threads, FailPending) == 0
  {
    if forall t | t in threads :: !Appending(threads[t]) && !FailPending(threads[t]) {
      assert Those(threads, Appending) == {} && Those(threads, Uncounted) == {} && Those(threads, FailPending) == {};
    }
  }

  /** The data lengths of the first n appends. */
  function AllBytes(grants: seq<Grant>, n: nat): nat
    requires n <= |grants|
  {
    if n == 0 then 0 else AllBytes(grants, n - 1) + |grants[n - 1].args.data|
  }

  lemma {:induction false} AllBilled(e: Env, grants: seq<Grant>, billed: set<nat>, n: nat)
    requires e.g.Ok() && n <= |grants| <= e.g.capacity && (forall u | 0 <= u < |grants| :: ArgsOk(e.g, grants[u].args))
    requires forall u: nat | u < n :: u in billed
    ensures BytesOf(grants, billed, n) == AllBytes(grants, n) <= n * 65536
    ensures AllBytes(grants, n) < U64_LIMIT
  {
    if n > 0 {
      AllBilled(e, grants, billed, n - 1);
    }
  }

  /** n numbers below n are all of them. */
  lemma {:induction false} FullSet(s: set<nat>, n: nat)
    requires |s| == n && forall u | u in s :: u < n
    ensures forall u: nat | u < n :: u in s
  {
    if n > 0 {
      if n - 1 in s {
        FullSet(s - {n - 1}, n - 1);
      } else {
        Crowded(s, n - 1);
      }
    }
  }

  lemma {:induction false} Crowded(s: set<nat>, n: nat)
    requires forall u | u in s :: u < n
    ensures |s| <= n
  {
    if n > 0 {
      Crowded(s - {n - 1}, n - 1);
    } else {
      assert s == {};
    }
  }
}
