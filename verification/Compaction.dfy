/** trim on a byte array (compaction.rs). `trim(upTo)` covers slots 0..upTo, that is indices 1..=upTo. */
module Compaction {
  import opened Bytes
  import opened Layout
  import opened Media
  import opened Records
  import opened Recovery

  datatype TrimError = TrimBeyondCommitted(requested: u64, committedTail: u64)

  /** Memory after trim has gone over the first n slots. */
  function TrimMem(e: Env, m: Mem, n: nat): (r: Mem)
    requires PoolSized(e, m) && n <= e.g.capacity
    ensures PoolSized(e, r)
  {
    if n == 0 then m
    else
      var p := TrimMem(e, m, n - 1);
      if StateOf(e.g, p.vol, n - 1) == STATE_COMMITTED then Abandon(e, p, n - 1) else p
  }

  /** How many of the first n records are COMMITTED. */
  function CommittedCount(e: Env, v: seq<byte>, n: nat): (c: nat)
    requires e.g.Ok() && |v| == e.g.totalSize && n <= e.g.capacity
    ensures c <= n
  {
    if n == 0 then 0 else CommittedCount(e, v, n - 1) + if StateOf(e.g, v, n - 1) == STATE_COMMITTED then 1 else 0
  }

  /** The count, without the loop. */
  lemma {:induction false} CommittedCountIs(e: Env, v: seq<byte>, n: nat)
    requires e.g.Ok() && |v| == e.g.totalSize && n <= e.g.capacity
    ensures CommittedCount(e, v, n) == |set u: nat | u < n && StateOf(e.g, v, u) == STATE_COMMITTED|
  {
    hide StateOf;
    if n > 0 {
      CommittedCountIs(e, v, n - 1);
      var before := set u: nat | u < n - 1 && StateOf(e.g, v, u) == STATE_COMMITTED;
      var after := set u: nat | u < n && StateOf(e.g, v, u) == STATE_COMMITTED;
      assert after == if StateOf(e.g, v, n - 1) == STATE_COMMITTED then before + {n - 1} else before;
    }
  }

  function TrimmedState(x: byte): byte { if x == STATE_COMMITTED then STATE_ABANDONED else x }

  function TrimmedStates(e: Env, v: seq<byte>): (s: seq<byte>)
    requires e.g.Ok() && |v| == e.g.totalSize
    ensures |s| == e.g.capacity && forall u | 0 <= u < |s| :: s[u] == TrimmedState(StateOf(e.g, v, u))
  {
    seq(e.g.capacity, u requires 0 <= u < e.g.capacity => TrimmedState(StateOf(e.g, v, u)))
  }

  /** trim makes exactly the COMMITTED slots among the first n ABANDONED, durably; every other byte of the pool, the
      tails included, is as it was. */
  lemma {:induction false} TrimExact(e: Env, m: Mem, n: nat)
    requires PoolSized(e, m) && n <= e.g.capacity
    ensures Passed(e, m, TrimMem(e, m, n), TrimmedStates(e, m.vol), n)
    ensures Tail(e, TrimMem(e, m, n).vol) == Tail(e, m.vol) && Limit(e, TrimMem(e, m, n).vol) == Limit(e, m.vol)
  {
    hide Rec, Abandon;
    if n > 0 {
      TrimExact(e, m, n - 1);
      var p := TrimMem(e, m, n - 1);
      assert StateOf(e.g, p.vol, n - 1) == StateOf(e.g, m.vol, n - 1);
      PassStep(e, m, p, TrimmedStates(e, m.vol), n - 1);
    }
    WordsOutside(e, m.vol, TrimMem(e, m, n).vol);
  }

  lemma WordsOutside(e: Env, v: seq<byte>, w: seq<byte>)
    requires e.g.Ok() && |v| == |w| == e.g.totalSize && SameOutside(e.g, v, w)
    ensures Tail(e, w) == Tail(e, v) && Limit(e, w) == Limit(e, v)
  {
    MulLe(0, e.g.capacity, e.g.recordSize);
    assert w[HDR_RESERVE_TAIL..HDR_RESERVE_TAIL + 8] == v[HDR_RESERVE_TAIL..HDR_RESERVE_TAIL + 8];
    assert w[HDR_COMMITTED_TAIL..HDR_COMMITTED_TAIL + 8] == v[HDR_COMMITTED_TAIL..HDR_COMMITTED_TAIL + 8];
  }

  /** Trimming a prefix of what was trimmed before changes nothing. */
  lemma {:induction false} TrimAgain(e: Env, m: Mem, n: nat, k: nat)
    requires PoolSized(e, m) && k <= n <= e.g.capacity
    ensures var r := TrimMem(e, m, n); TrimMem(e, r, k) == r && CommittedCount(e, r.vol, k) == 0
  {
    hide Rec, Abandon;
    if k > 0 {
      TrimAgain(e, m, n, k - 1);
      TrimExact(e, m, n);
      assert StateOf(e.g, TrimMem(e, m, n).vol, k - 1) == TrimmedState(StateOf(e.g, m.vol, k - 1));
    }
  }

  /** For a <= b, trim(a) then trim(b) is trim(b), on the visible and the durable view alike, and the counts add up. */
  lemma {:induction false} TrimComposes(e: Env, m: Mem, a: nat, b: nat)
    requires PoolSized(e, m) && a <= b <= e.g.capacity
    ensures var r := TrimMem(e, m, a);
            && TrimMem(e, r, b) == TrimMem(e, m, b)
            && CommittedCount(e, m.vol, a) + CommittedCount(e, r.vol, b) == CommittedCount(e, m.vol, b)
  {
    hide Rec, Abandon;
    if a == b {
      TrimAgain(e, m, a, a);
    } else {
      TrimComposes(e, m, a, b - 1);
      TrimExact(e, m, a);
      assert StateOf(e.g, TrimMem(e, m, a).vol, b - 1) == StateOf(e.g, m.vol, b - 1);
    }
  }

  /** x is what some interrupted trims of at most n slots of m, and a crash, may have left. */
  ghost predicate Interrupted(e: Env, m: Mem, x: Mem, n: nat)
    requires PoolSized(e, m) && PoolSized(e, x)
  {
    && (forall u: nat | u < e.g.capacity :: SameBody(Rec(e.g, m.vol, u), Rec(e.g, x.vol, u)))
    && (forall u: nat | u < e.g.capacity ::
          StateOf(e.g, x.vol, u) in {StateOf(e.g, m.vol, u),
              if u < n then TrimmedState(StateOf(e.g, m.vol, u)) else StateOf(e.g, m.vol, u)})
  }

  /** From any such memory, the same trim ends in the record images of the uninterrupted trim. */
  lemma TrimAfterInterruption(e: Env, m: Mem, x: Mem, n: nat)
    requires PoolSized(e, m) && PoolSized(e, x) && n <= e.g.capacity && Interrupted(e, m, x, n)
    ensures forall u: nat | u < e.g.capacity :: Rec(e.g, TrimMem(e, x, n).vol, u) == Rec(e.g, TrimMem(e, m, n).vol, u)
  {
    hide Rec, TrimMem;
    TrimExact(e, m, n);
    TrimExact(e, x, n);
    forall u: nat | u < e.g.capacity ensures Rec(e.g, TrimMem(e, x, n).vol, u) == Rec(e.g, TrimMem(e, m, n).vol, u) {
      var p, q := Rec(e.g, TrimMem(e, x, n).vol, u), Rec(e.g, TrimMem(e, m, n).vol, u);
      assert StateOf(e.g, TrimMem(e, x, n).vol, u) == StateOf(e.g, TrimMem(e, m, n).vol, u);
      assert SameBody(Rec(e.g, x.vol, u), p) && SameBody(Rec(e.g, m.vol, u), q)
          && SameBody(Rec(e.g, m.vol, u), Rec(e.g, x.vol, u));
      assert forall k | 0 <= k < |p| :: p[k] == q[k];
    }
  }

  /** What can happen while trims of at most n slots are under way: a trim abandons a COMMITTED slot, a line is written
      back, by a flush or by eviction, or the power fails. */
  datatype Event = Marked(slot: nat) | WrittenBack(line: nat) | PowerFailed

  ghost predicate Possible(e: Env, x: Mem, n: nat, v: Event)
    requires PoolSized(e, x) && n <= e.g.capacity
  {
    v.Marked? ==> v.slot < n && StateOf(e.g, x.vol, v.slot) == STATE_COMMITTED
  }

  function Happen(e: Env, x: Mem, n: nat, v: Event): (r: Mem)
    requires PoolSized(e, x) && n <= e.g.capacity && Possible(e, x, n, v)
    ensures PoolSized(e, r)
  {
    match v
    case Marked(u) =>
      RecordBounds(e.g, u);
      Apply(x, Store(e.g.RecordOffset(u) + REC_STATE, [STATE_ABANDONED]))
    case WrittenBack(line) => Apply(x, WriteBack(line))
    case PowerFailed => Mem(x.dur, x.dur)
  }

  ghost predicate History(e: Env, x: Mem, n: nat, vs: seq<Event>)
    requires PoolSized(e, x) && n <= e.g.capacity
    decreases |vs|
  {
    vs != [] ==> Possible(e, x, n, vs[0]) && History(e, Happen(e, x, n, vs[0]), n, vs[1..])
  }

  ghost function AfterAll(e: Env, x: Mem, n: nat, vs: seq<Event>): (r: Mem)
    requires PoolSized(e, x) && n <= e.g.capacity && History(e, x, n, vs)
    ensures PoolSized(e, r)
    decreases |vs|
  {
    if vs == [] then x else AfterAll(e, Happen(e, x, n, vs[0]), n, vs[1..])
  }

  lemma EventKeeps(e: Env, m: Mem, x: Mem, n: nat, v: Event)
    requires PoolSized(e, m) && PoolSized(e, x) && n <= e.g.capacity && Possible(e, x, n, v)
    requires Interrupted(e, m, x, n) && Interrupted(e, m, Mem(x.dur, x.dur), n)
    ensures var r := Happen(e, x, n, v); Interrupted(e, m, r, n) && Interrupted(e, m, Mem(r.dur, r.dur), n)
  {
    hide Rec;
    var r := Happen(e, x, n, v);
    match v
    case Marked(u) => StoreFrame(e.g, x.vol, u, REC_STATE, [STATE_ABANDONED]);
    case WrittenBack(line) =>
      forall w: nat | w < e.g.capacity
        ensures SameBody(Rec(e.g, m.vol, w), Rec(e.g, r.dur, w))
        ensures StateOf(e.g, r.dur, w) in {StateOf(e.g, x.dur, w), StateOf(e.g, x.vol, w)}
      {
        BodyWrittenBack(e, m, x, n, line, w);
      }
    case PowerFailed =>
  }

  lemma BodyWrittenBack(e: Env, m: Mem, x: Mem, n: nat, line: nat, w: nat)
    requires PoolSized(e, m) && PoolSized(e, x) && n <= e.g.capacity && w < e.g.capacity
    requires Interrupted(e, m, x, n) && Interrupted(e, m, Mem(x.dur, x.dur), n)
    ensures var dur := CopyLine(x.dur, x.vol, line);
            && SameBody(Rec(e.g, m.vol, w), Rec(e.g, dur, w))
            && StateOf(e.g, dur, w) in {StateOf(e.g, x.dur, w), StateOf(e.g, x.vol, w)}
  {
    hide Rec;
    var dur := CopyLine(x.dur, x.vol, line);
    assert SameBody(Rec(e.g, m.vol, w), Rec(e.g, Mem(x.dur, x.dur).vol, w))
        && SameBody(Rec(e.g, m.vol, w), Rec(e.g, x.vol, w));
    forall k: nat | k < e.g.recordSize
      ensures Rec(e.g, dur, w)[k] in {Rec(e.g, x.dur, w)[k], Rec(e.g, x.vol, w)[k]}
    {
      WriteBackFrame(e.g, x.dur, x.vol, line, w, k);
    }
  }

  lemma {:induction false} HistoryKeeps(e: Env, m: Mem, x: Mem, n: nat, vs: seq<Event>)
    requires PoolSized(e, m) && PoolSized(e, x) && n <= e.g.capacity && History(e, x, n, vs)
    requires Interrupted(e, m, x, n) && Interrupted(e, m, Mem(x.dur, x.dur), n)
    ensures Interrupted(e, m, AfterAll(e, x, n, vs), n)
    decreases |vs|
  {
    hide Interrupted;
    if vs != [] {
      EventKeeps(e, m, x, n, vs[0]);
      HistoryKeeps(e, m, Happen(e, x, n, vs[0]), n, vs[1..]);
    }
  }

  /** A trim of memory that is as durable as visible leaves it so. */
  lemma TrimDurable(e: Env, m: Mem, n: nat, u: nat)
    requires PoolSized(e, m) && n <= e.g.capacity && u < e.g.capacity && Rec(e.g, m.dur, u) == Rec(e.g, m.vol, u)
    ensures Rec(e.g, TrimMem(e, m, n).dur, u) == Rec(e.g, TrimMem(e, m, n).vol, u)
  {
    hide Rec, TrimMem, Passed;
    TrimExact(e, m, n);
    PassedDurable(e, m, TrimMem(e, m, n), TrimmedStates(e, m.vol), n, u);
  }

  /** A history that is empty or ends with a power failure leaves memory as durable as visible. */
  lemma {:induction false} LastPowerFailed(e: Env, x: Mem, n: nat, vs: seq<Event>)
    requires PoolSized(e, x) && n <= e.g.capacity && History(e, x, n, vs)
    requires (vs == [] && x.vol == x.dur) || (vs != [] && vs[|vs| - 1].PowerFailed?)
    ensures AfterAll(e, x, n, vs).vol == AfterAll(e, x, n, vs).dur
    decreases |vs|
  {
    hide Possible;
    if |vs| == 1 {
      assert vs[1..] == [];
    } else if vs != [] {
      LastPowerFailed(e, Happen(e, x, n, vs[0]), n, vs[1..]);
    }
  }

  /** Trims of up to n slots interrupted anywhere, any number of times, by power failures with any lines written back,
      and then trim(n) again: every record ends as if trim(n) had run once, undisturbed; durably so, if what interrupted
      the last of them was a power failure. */
  lemma InterruptedTrimsConverge(e: Env, m: Mem, n: nat, vs: seq<Event>)
    requires PoolSized(e, m) && m.vol == m.dur && n <= e.g.capacity && History(e, m, n, vs)
    ensures forall u: nat | u < e.g.capacity ::
              Rec(e.g, TrimMem(e, AfterAll(e, m, n, vs), n).vol, u) == Rec(e.g, TrimMem(e, m, n).vol, u)
    ensures vs == [] || vs[|vs| - 1].PowerFailed? ==> forall u: nat | u < e.g.capacity ::
              && Rec(e.g, TrimMem(e, AfterAll(e, m, n, vs), n).dur, u) == Rec(e.g, TrimMem(e, m, n).dur, u)
              && Rec(e.g, TrimMem(e, m, n).dur, u) == Rec(e.g, TrimMem(e, m, n).vol, u)
  {
    hide Rec, TrimMem, History, AfterAll, Interrupted;
    SelfInterrupted(e, m, n);
    HistoryKeeps(e, m, m, n, vs);
    var x := AfterAll(e, m, n, vs);
    TrimAfterInterruption(e, m, x, n);
    if vs == [] || vs[|vs| - 1].PowerFailed? {
      LastPowerFailed(e, m, n, vs);
      forall u: nat | u < e.g.capacity
        ensures Rec(e.g, TrimMem(e, x, n).dur, u) == Rec(e.g, TrimMem(e, m, n).dur, u)
                == Rec(e.g, TrimMem(e, m, n).vol, u)
      {
        TrimDurable(e, m, n, u);
        TrimDurable(e, x, n, u);
      }
    }
  }

  lemma SelfInterrupted(e: Env, m: Mem, n: nat)
    requires PoolSized(e, m) && m.vol == m.dur
    ensures Interrupted(e, m, m, n) && Interrupted(e, m, Mem(m.dur, m.dur), n)
  {
    hide Rec;
  }

  lemma StillCommitted(e: Env, m: Mem, n: nat)
    requires PoolSized(e, m) && n < e.g.capacity
    ensures StateOf(e.g, TrimMem(e, m, n).vol, n) == StateOf(e.g, m.vol, n)
  {
    hide Rec, TrimMem;
    TrimExact(e, m, n);
  }

  /** One iteration of the loop: abandon the record if it is COMMITTED. */
  method TrimSlot(e: Env, media: Backend, slot: nat) returns (trimmed: bool)
    requires e.g.Ok() && media.Valid() && media.vol.Length == e.g.totalSize && slot < e.g.capacity
    modifies media, media.vol
    ensures media.Valid() && trimmed == (StateOf(e.g, old(media.vol[..]), slot) == STATE_COMMITTED)
    ensures media.M() == if trimmed then Abandon(e, old(media.M()), slot) else old(media.M())
  {
    hide Rec, Abandon;
    RecordBounds(e.g, slot);
    var state := media.LoadU8(e.g.RecordOffset(slot) + REC_STATE);
    assert state == StateOf(e.g, media.vol[..], slot);
    trimmed := state == STATE_COMMITTED;
    if trimmed {
      AbandonSlot(e, media, slot);
    }
  }

  method Trim(e: Env, media: Backend, upTo: u64) returns (r: Result<nat, TrimError>)
    requires e.g.Ok() && media.Valid() && media.vol.Length == e.g.totalSize
    requires Tail(e, media.vol[..]) <= e.g.capacity
    modifies media, media.vol
    ensures media.Valid()
    ensures var m := old(media.M());
            var tail := Tail(e, m.vol);
            if upTo > tail then r == Err(TrimBeyondCommitted(upTo, tail)) && media.M() == m
            else r == Ok(CommittedCount(e, m.vol, upTo)) && media.M() == TrimMem(e, m, upTo)
  {
    hide Rec, Abandon, StateOf;
    MulLe(0, e.g.capacity, e.g.recordSize);
    ghost var m := media.M();
    var committedTail := media.LoadU64(HDR_COMMITTED_TAIL);
    assert media.vol[HDR_COMMITTED_TAIL..HDR_COMMITTED_TAIL + 8] == m.vol[HDR_COMMITTED_TAIL..HDR_COMMITTED_TAIL + 8];
    if upTo > committedTail {
      return Err(TrimBeyondCommitted(upTo, committedTail));
    }
    var trimmedCount := 0;
    for slot := 0 to upTo
      invariant media.Valid() && media.M() == TrimMem(e, m, slot)
      invariant trimmedCount == CommittedCount(e, m.vol, slot)
    {
      StillCommitted(e, m, slot);
      var trimmed := TrimSlot(e, media, slot);
      if trimmed {
        trimmedCount := trimmedCount + 1;
      }
    }
    r := Ok(trimmedCount);
  }
}
