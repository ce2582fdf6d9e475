/** recover and advance_committed_tail on a byte array with arbitrary contents (recovery.rs). */
module Recovery {
  import opened Bytes
  import opened Layout
  import opened Media
  import opened Records
  import opened RecoverySpec

  // ---- Header words ----

  function WordAt(v: seq<byte>, off: nat): u64
    requires off + 8 <= |v|
  {
    WordSizes();
    FromLE(v[off..off + 8])
  }

  lemma WordApart(v: seq<byte>, off: nat, b: seq<byte>, w: nat)
    requires off + |b| <= |v| && w + 8 <= |v| && (off + |b| <= w || w + 8 <= off)
    ensures WordAt(Splice(v, off, b), w) == WordAt(v, w)
  {
    SliceApart(v, off, b, w, 8);
  }

  lemma WordHere(v: seq<byte>, off: nat, x: u64)
    requires off + 8 <= |v|
    ensures WordAt(Splice(v, off, LE(x, 8)), off) == x
  {
    Word64(x);
    assert Splice(v, off, LE(x, 8))[off..off + 8] == LE(x, 8);
  }

  /** Storing the word that is already there changes nothing. */
  lemma SameWord(v: seq<byte>, off: nat)
    requires off + 8 <= |v|
    ensures Splice(v, off, LE(WordAt(v, off), 8)) == v
  {
    EncodeDecode(v[off..off + 8]);
  }

  // ---- The specification: one slot at a time ----

  ghost predicate PoolSized(e: Env, m: Mem) { e.g.Ok() && Sized(m, e.g.totalSize) }

  /** Store ABANDONED in slot u and flush the record's first cache line's worth of bytes. */
  function Abandon(e: Env, m: Mem, u: nat): (r: Mem)
    requires PoolSized(e, m) && u < e.g.capacity
    ensures PoolSized(e, r)
  {
    RecordBounds(e.g, u);
    FlushRange(Apply(m, Store(e.g.RecordOffset(u) + REC_STATE, [STATE_ABANDONED])), e.g.RecordOffset(u), CACHELINE)
  }

  /** Does recover abandon this record? */
  predicate Broken(e: Env, r: seq<byte>)
    requires Image(e.g, r)
  {
    FixedState(e, r) != r[REC_STATE]
  }

  /** Memory after recover has scanned the first n slots. */
  function ScanMem(e: Env, m: Mem, n: nat): (r: Mem)
    requires PoolSized(e, m) && n <= e.g.capacity
    ensures PoolSized(e, r)
  {
    if n == 0 then m
    else
      var p := ScanMem(e, m, n - 1);
      if Broken(e, Rec(e.g, p.vol, n - 1)) then Abandon(e, p, n - 1) else p
  }

  /** How many of the first n records of image v are broken. */
  function BrokenCount(e: Env, v: seq<byte>, n: nat): (c: nat)
    requires e.g.Ok() && |v| == e.g.totalSize && n <= e.g.capacity
    ensures c <= n
  {
    if n == 0 then 0 else BrokenCount(e, v, n - 1) + if Broken(e, Rec(e.g, v, n - 1)) then 1 else 0
  }

  /** Neither FREE nor ABANDONED nor COMMITTED with a checksum that verifies. */
  lemma BrokenMeans(e: Env, r: seq<byte>)
    requires Image(e.g, r)
    ensures Broken(e, r) <==>
              r[REC_STATE] != STATE_FREE && r[REC_STATE] != STATE_ABANDONED
              && !(r[REC_STATE] == STATE_COMMITTED && Intact(e, r))
  {
    hide Intact;
  }

  /** The count, without the loop. */
  lemma {:induction false} BrokenCountIs(e: Env, v: seq<byte>, n: nat)
    requires e.g.Ok() && |v| == e.g.totalSize && n <= e.g.capacity
    ensures BrokenCount(e, v, n) == |set u: nat | u < n && Broken(e, Rec(e.g, v, u))|
  {
    hide Broken, Rec;
    if n > 0 {
      BrokenCountIs(e, v, n - 1);
      var before := set u: nat | u < n - 1 && Broken(e, Rec(e.g, v, u));
      var after := set u: nat | u < n && Broken(e, Rec(e.g, v, u));
      assert after == if Broken(e, Rec(e.g, v, n - 1)) then before + {n - 1} else before;
    }
  }

  // ---- What abandoning does ----

  /** Outside the records region. */
  ghost predicate SameOutside(g: Geometry, v: seq<byte>, w: seq<byte>) {
    |v| == |w| && forall i | 0 <= i < |v| && (i < HEADER_SIZE || g.RecordsEnd() <= i) :: v[i] == w[i]
  }

  /** Each byte of `now` is durable as before, or what is visible. */
  ghost predicate Mixed(now: seq<byte>, was: seq<byte>, vol: seq<byte>) {
    |now| == |was| == |vol| && forall i | 0 <= i < |now| :: now[i] == was[i] || now[i] == vol[i]
  }

  lemma AbandonVol(e: Env, m: Mem, u: nat)
    requires PoolSized(e, m) && u < e.g.capacity
    ensures var r := Abandon(e, m, u);
            && e.g.RecordOffset(u) < |m.vol| && r.vol == Splice(m.vol, e.g.RecordOffset(u), [STATE_ABANDONED])
            && Rec(e.g, r.vol, u) == Splice(Rec(e.g, m.vol, u), REC_STATE, [STATE_ABANDONED])
            && (forall w: nat | w < e.g.capacity && w != u :: Rec(e.g, r.vol, w) == Rec(e.g, m.vol, w))
            && SameOutside(e.g, m.vol, r.vol)
  {
    RecordBounds(e.g, u);
    StoreFrame(e.g, m.vol, u, REC_STATE, [STATE_ABANDONED]);
    var m1 := Apply(m, Store(e.g.RecordOffset(u) + REC_STATE, [STATE_ABANDONED]));
    FlushCoversExactly(m1, e.g.RecordOffset(u), CACHELINE);
  }

  lemma AbandonDur(e: Env, m: Mem, u: nat)
    requires PoolSized(e, m) && u < e.g.capacity
    ensures var r := Abandon(e, m, u);
            && StateOf(e.g, r.dur, u) == STATE_ABANDONED
            && Mixed(r.dur, m.dur, r.vol)
  {
    var off := e.g.RecordOffset(u);
    RecordBounds(e.g, u);
    var m1 := Apply(m, Store(off + REC_STATE, [STATE_ABANDONED]));
    FlushCoversExactly(m1, off, CACHELINE);
    assert off <= off < off + CACHELINE && off / CACHELINE == off / CACHELINE;
    assert Meets(off, off, CACHELINE);
  }

  // ---- Passes that abandon some slots in order ----

  /** A pass over m that turns state[u] into target[u], which differs only by being ABANDONED, has done its first n
      slots and is now at p: changes are durable, and nothing but those state bytes differs. */
  ghost predicate Passed(e: Env, m: Mem, p: Mem, target: seq<byte>, n: nat)
    requires PoolSized(e, m) && PoolSized(e, p) && |target| == e.g.capacity
  {
    && (forall u: nat | u < e.g.capacity ::
          StateOf(e.g, p.vol, u) == if u < n then target[u] else StateOf(e.g, m.vol, u))
    && (forall u: nat | u < e.g.capacity :: SameBody(Rec(e.g, m.vol, u), Rec(e.g, p.vol, u)))
    && (forall u: nat | u < n && u < e.g.capacity && target[u] != StateOf(e.g, m.vol, u) ::
          StateOf(e.g, p.dur, u) == STATE_ABANDONED)
    && SameOutside(e.g, m.vol, p.vol)
    && Mixed(p.dur, m.dur, p.vol)
  }

  lemma PassStep(e: Env, m: Mem, p: Mem, target: seq<byte>, w: nat)
    requires PoolSized(e, m) && PoolSized(e, p) && |target| == e.g.capacity && w < e.g.capacity
    requires Passed(e, m, p, target, w)
    requires forall u: nat | u <= w :: target[u] in {StateOf(e.g, m.vol, u), STATE_ABANDONED}
    ensures Passed(e, m, if target[w] != StateOf(e.g, m.vol, w) then Abandon(e, p, w) else p, target, w + 1)
  {
    hide Rec, Abandon, Mixed, SameOutside;
    if target[w] != StateOf(e.g, m.vol, w) {
      var r := Abandon(e, p, w);
      AbandonVol(e, p, w);
      AbandonDur(e, p, w);
      forall u: nat | u < e.g.capacity
        ensures StateOf(e.g, r.vol, u) == (if u < w + 1 then target[u] else StateOf(e.g, m.vol, u))
        ensures SameBody(Rec(e.g, m.vol, u), Rec(e.g, r.vol, u))
      {
        assert u != w ==> Rec(e.g, r.vol, u) == Rec(e.g, p.vol, u);
      }
      forall u: nat | u < w && target[u] != StateOf(e.g, m.vol, u) ensures StateOf(e.g, r.dur, u) == STATE_ABANDONED {
        StaysAbandoned(e, p, r, u);
      }
      MixedTrans(e, m, p, r, w);
      OutsideTrans(e, m, p, r);
    }
  }

  lemma OutsideTrans(e: Env, m: Mem, p: Mem, r: Mem)
    requires PoolSized(e, m) && PoolSized(e, p) && PoolSized(e, r)
    requires SameOutside(e.g, m.vol, p.vol) && SameOutside(e.g, p.vol, r.vol)
    ensures SameOutside(e.g, m.vol, r.vol)
  {
  }

  /** A slot durably abandoned before still is: its visible state is ABANDONED too. */
  lemma StaysAbandoned(e: Env, p: Mem, r: Mem, u: nat)
    requires PoolSized(e, p) && PoolSized(e, r) && u < e.g.capacity && Mixed(r.dur, p.dur, r.vol)
    requires StateOf(e.g, p.dur, u) == STATE_ABANDONED && StateOf(e.g, r.vol, u) == STATE_ABANDONED
    ensures StateOf(e.g, r.dur, u) == STATE_ABANDONED
  {
    RecordBounds(e.g, u);
    assert r.dur[e.g.RecordOffset(u)] in {p.dur[e.g.RecordOffset(u)], r.vol[e.g.RecordOffset(u)]};
  }

  lemma MixedTrans(e: Env, m: Mem, p: Mem, r: Mem, w: nat)
    requires PoolSized(e, m) && PoolSized(e, p) && PoolSized(e, r) && w < e.g.capacity
    requires Mixed(p.dur, m.dur, p.vol) && Mixed(r.dur, p.dur, r.vol)
    requires e.g.RecordOffset(w) < |p.vol| && r.vol == Splice(p.vol, e.g.RecordOffset(w), [STATE_ABANDONED])
    requires StateOf(e.g, r.dur, w) == STATE_ABANDONED
    ensures Mixed(r.dur, m.dur, r.vol)
  {
    var off := e.g.RecordOffset(w);
    assert r.dur[off] == STATE_ABANDONED == r.vol[off];
    forall i | 0 <= i < |r.dur| ensures r.dur[i] == m.dur[i] || r.dur[i] == r.vol[i] {
      if i != off {
        assert r.vol[i] == p.vol[i];
      }
    }
  }

  /** A pass that abandons slots of an image as durable as visible leaves it so. */
  lemma PassedDurable(e: Env, m: Mem, p: Mem, target: seq<byte>, n: nat, u: nat)
    requires PoolSized(e, m) && PoolSized(e, p) && |target| == e.g.capacity && u < e.g.capacity
    requires Passed(e, m, p, target, n) && Rec(e.g, m.dur, u) == Rec(e.g, m.vol, u)
    requires target[u] in {StateOf(e.g, m.vol, u), STATE_ABANDONED}
    ensures Rec(e.g, p.dur, u) == Rec(e.g, p.vol, u)
  {
    hide Passed, SameOutside;
    PassedAt(e, m, p, target, n, u);
    RecordBounds(e.g, u);
    var off := e.g.RecordOffset(u);
    forall k | 0 <= k < e.g.recordSize ensures Rec(e.g, p.dur, u)[k] == Rec(e.g, p.vol, u)[k] {
      assert p.dur[off + k] in {m.dur[off + k], p.vol[off + k]};
      assert Rec(e.g, m.dur, u)[k] == Rec(e.g, m.vol, u)[k];
      assert k >= 1 ==> Rec(e.g, p.vol, u)[k] == Rec(e.g, m.vol, u)[k];
    }
  }

  lemma PassedAt(e: Env, m: Mem, p: Mem, target: seq<byte>, n: nat, u: nat)
    requires PoolSized(e, m) && PoolSized(e, p) && |target| == e.g.capacity && u < e.g.capacity
    requires Passed(e, m, p, target, n)
    ensures Mixed(p.dur, m.dur, p.vol) && SameBody(Rec(e.g, m.vol, u), Rec(e.g, p.vol, u))
    ensures StateOf(e.g, p.vol, u) == if u < n then target[u] else StateOf(e.g, m.vol, u)
    ensures u < n && target[u] != StateOf(e.g, m.vol, u) ==> StateOf(e.g, p.dur, u) == STATE_ABANDONED
  {
    hide Rec, StateOf, Mixed, SameOutside, SameBody;
  }

  // ---- The exact contract of the scan ----

  ghost predicate FixedMeaning(e: Env, r: seq<byte>)
    requires Image(e.g, r)
  {
    && (FixedState(e, r) == STATE_COMMITTED <==> r[REC_STATE] == STATE_COMMITTED && Intact(e, r))
    && (FixedState(e, r) == STATE_FREE <==> r[REC_STATE] == STATE_FREE)
    && FixedState(e, r) in {STATE_COMMITTED, STATE_FREE, STATE_ABANDONED}
    && FixedState(e, r) in {r[REC_STATE], STATE_ABANDONED}
  }

  lemma FixedMeans(e: Env, r: seq<byte>)
    requires Image(e.g, r)
    ensures FixedMeaning(e, r)
  {
    hide Intact;
  }

  /** The fixed state of every slot of an image. */
  function FixedStates(e: Env, v: seq<byte>): (s: seq<byte>)
    requires e.g.Ok() && |v| == e.g.totalSize
    ensures |s| == e.g.capacity && forall u | 0 <= u < |s| :: s[u] == FixedState(e, Rec(e.g, v, u))
  {
    seq(e.g.capacity, u requires 0 <= u < e.g.capacity => FixedState(e, Rec(e.g, v, u)))
  }

  /** Each scanned slot ends in its fixed state, durably if that is a change; nothing else of the pool changes. */
  lemma {:induction false} ScanExact(e: Env, m: Mem, n: nat)
    requires PoolSized(e, m) && n <= e.g.capacity
    ensures Passed(e, m, ScanMem(e, m, n), FixedStates(e, m.vol), n)
    ensures forall u: nat | u < e.g.capacity :: StateOf(e.g, ScanMem(e, m, n).vol, u) == FinalState(e, m.vol, n, u)
  {
    hide Rec, Abandon, FixedState;
    if n > 0 {
      var w, p, target := n - 1, ScanMem(e, m, n - 1), FixedStates(e, m.vol);
      ScanExact(e, m, w);
      forall u: nat | u <= w ensures target[u] in {StateOf(e.g, m.vol, u), STATE_ABANDONED} {
        FixedMeans(e, Rec(e.g, m.vol, u));
      }
      assert StateOf(e.g, p.vol, w) == StateOf(e.g, m.vol, w);
      FixedTwice(e, Rec(e.g, m.vol, w), Rec(e.g, p.vol, w));
      PassStep(e, m, p, target, w);
    }
  }

  /** The scan's second pass finds nothing to do, in memory or on the media. */
  lemma {:induction false} ScanIdempotent(e: Env, m: Mem, n: nat, k: nat)
    requires PoolSized(e, m) && k <= n <= e.g.capacity
    ensures var r := ScanMem(e, m, n); ScanMem(e, r, k) == r && BrokenCount(e, r.vol, k) == 0
  {
    hide Rec, Abandon, Broken;
    if k > 0 {
      ScanIdempotent(e, m, n, k - 1);
      NotBrokenAfter(e, m, n, k - 1);
    }
  }

  lemma NotBrokenAfter(e: Env, m: Mem, n: nat, u: nat)
    requires PoolSized(e, m) && u < n <= e.g.capacity
    ensures !Broken(e, Rec(e.g, ScanMem(e, m, n).vol, u))
  {
    hide Rec, ScanMem, Intact;
    ScanExact(e, m, n);
    var r := ScanMem(e, m, n);
    assert StateOf(e.g, r.vol, u) == FinalState(e, m.vol, n, u);
    FixedTwice(e, Rec(e.g, m.vol, u), Rec(e.g, r.vol, u));
  }

  /** What follows from the final states alone: after a scan, the tail's end is that of the original contents, and
      does not move again. */
  lemma {:induction false} TailEndAfterScan(e: Env, v: seq<byte>, w: seq<byte>, n: nat, limit: nat, c: nat)
    requires e.g.Ok() && |v| == |w| == e.g.totalSize
    requires forall u: nat | u < e.g.capacity :: FinalState(e, w, limit, u) == FinalState(e, v, n, u)
    ensures TailEnd(e, w, limit, c) == TailEnd(e, v, n, c)
    decreases e.g.capacity - c
  {
    hide FinalState;
    if c < e.g.capacity && FinalState(e, v, n, c) == STATE_COMMITTED {
      TailEndAfterScan(e, v, w, n, limit, c + 1);
    }
  }

  // ---- recover as a whole ----

  datatype Report = Report(abandonedCount: nat, committedTail: u64, slotsScanned: nat)

  function Limit(e: Env, v: seq<byte>): (n: nat)
    requires e.g.Ok() && |v| == e.g.totalSize
    ensures n <= e.g.capacity
  {
    MulLe(0, e.g.capacity, e.g.recordSize);
    ScanLimit(e.g, WordAt(v, HDR_RESERVE_TAIL))
  }

  function Tail(e: Env, v: seq<byte>): u64
    requires e.g.Ok() && |v| == e.g.totalSize
  {
    MulLe(0, e.g.capacity, e.g.recordSize);
    WordAt(v, HDR_COMMITTED_TAIL)
  }

  function SetTail(e: Env, m: Mem, tail: u64): (r: Mem)
    requires PoolSized(e, m)
    ensures PoolSized(e, r)
  {
    MulLe(0, e.g.capacity, e.g.recordSize);
    Apply(m, Store(HDR_COMMITTED_TAIL, LE(tail, 8)))
  }

  /** The tail recovery reaches. */
  function RecoveredTail(e: Env, v: seq<byte>): (t: u64)
    requires e.g.Ok() && |v| == e.g.totalSize
  {
    TailEnd(e, v, Limit(e, v), Tail(e, v))
  }

  /** Memory after recover, from any contents. */
  function RecoverMem(e: Env, m: Mem): (r: Mem)
    requires PoolSized(e, m)
    ensures PoolSized(e, r)
  {
    SetTail(e, ScanMem(e, m, Limit(e, m.vol)), RecoveredTail(e, m.vol))
  }

  function RecoverReport(e: Env, m: Mem): Report
    requires PoolSized(e, m)
  {
    Report(BrokenCount(e, m.vol, Limit(e, m.vol)), RecoveredTail(e, m.vol), Limit(e, m.vol))
  }

  /** The report: how many of the first min(reserve_tail, capacity) records were broken, the tail that is in the header
      afterwards, and how many slots were scanned. */
  lemma ReportMeans(e: Env, m: Mem)
    requires PoolSized(e, m)
    ensures e.g.totalSize >= HEADER_SIZE
    ensures var n := Min(WordAt(m.vol, HDR_RESERVE_TAIL), e.g.capacity);
            var r := RecoverReport(e, m);
            && r.slotsScanned == n && r.committedTail == WordAt(RecoverMem(e, m).vol, HDR_COMMITTED_TAIL)
            && r.abandonedCount == |set u: nat | u < n && Broken(e, Rec(e.g, m.vol, u))|
  {
    hide Rec, ScanMem, Broken, SetTail, RecoveredTail;
    MulLe(0, e.g.capacity, e.g.recordSize);
    BrokenCountIs(e, m.vol, Limit(e, m.vol));
    SetTailFacts(e, ScanMem(e, m, Limit(e, m.vol)), RecoveredTail(e, m.vol));
  }

  lemma SetTailFacts(e: Env, m: Mem, tail: u64)
    requires PoolSized(e, m)
    ensures var r := SetTail(e, m, tail);
            && Tail(e, r.vol) == tail && Limit(e, r.vol) == Limit(e, m.vol) && r.dur == m.dur
            && (forall u: nat | u < e.g.capacity :: Rec(e.g, r.vol, u) == Rec(e.g, m.vol, u))
            && (forall i | 0 <= i < |m.vol| && !(HDR_COMMITTED_TAIL <= i < HDR_COMMITTED_TAIL + 8) ::
                  r.vol[i] == m.vol[i])
  {
    hide Rec;
    MulLe(0, e.g.capacity, e.g.recordSize);
    WordHere(m.vol, HDR_COMMITTED_TAIL, tail);
    WordApart(m.vol, HDR_COMMITTED_TAIL, LE(tail, 8), HDR_RESERVE_TAIL);
    OutsideFrame(e.g, m.vol, HDR_COMMITTED_TAIL, LE(tail, 8));
  }

  lemma ScanKeepsWords(e: Env, m: Mem, n: nat)
    requires PoolSized(e, m) && n <= e.g.capacity
    ensures Limit(e, ScanMem(e, m, n).vol) == Limit(e, m.vol) && Tail(e, ScanMem(e, m, n).vol) == Tail(e, m.vol)
  {
    hide ScanMem, FinalState;
    ScanExact(e, m, n);
    var r := ScanMem(e, m, n);
    assert r.vol[HDR_RESERVE_TAIL..HDR_RESERVE_TAIL + 8] == m.vol[HDR_RESERVE_TAIL..HDR_RESERVE_TAIL + 8];
    assert r.vol[HDR_COMMITTED_TAIL..HDR_COMMITTED_TAIL + 8] == m.vol[HDR_COMMITTED_TAIL..HDR_COMMITTED_TAIL + 8];
  }

  /** The exact contract of recover, from arbitrary bytes: a scanned slot ends COMMITTED iff it was COMMITTED with a
      matching checksum, FREE iff it was FREE, and ABANDONED otherwise, durably so if that is new; other slots keep
      their state; no body, no other header byte and no metrics byte changes; the tail ends at the maximal COMMITTED
      run from the old tail. */
  lemma RecoverExact(e: Env, m: Mem)
    requires PoolSized(e, m)
    ensures var r := RecoverMem(e, m);
            var n := Limit(e, m.vol);
            && (forall u: nat | u < n ::
                  && (StateOf(e.g, r.vol, u) == STATE_COMMITTED <==>
                        StateOf(e.g, m.vol, u) == STATE_COMMITTED && Intact(e, Rec(e.g, m.vol, u)))
                  && (StateOf(e.g, r.vol, u) == STATE_FREE <==> StateOf(e.g, m.vol, u) == STATE_FREE)
                  && StateOf(e.g, r.vol, u) in {STATE_COMMITTED, STATE_FREE, STATE_ABANDONED}
                  && (StateOf(e.g, r.vol, u) != StateOf(e.g, m.vol, u) ==> StateOf(e.g, r.dur, u) == STATE_ABANDONED))
            && (forall u: nat | n <= u < e.g.capacity :: StateOf(e.g, r.vol, u) == StateOf(e.g, m.vol, u))
            && (forall u: nat | u < e.g.capacity :: SameBody(Rec(e.g, m.vol, u), Rec(e.g, r.vol, u)))
            && (forall i | 0 <= i < |m.vol| && (i < HEADER_SIZE || e.g.RecordsEnd() <= i)
                           && !(HDR_COMMITTED_TAIL <= i < HDR_COMMITTED_TAIL + 8) :: r.vol[i] == m.vol[i])
            && Mixed(r.dur, m.dur, ScanMem(e, m, n).vol)
            && Tail(e, r.vol) == RecoveredTail(e, m.vol)
  {
    hide Rec, ScanMem, RecoveredTail, Intact, Mixed, FixedState, SetTail;
    var n := Limit(e, m.vol);
    ScanExact(e, m, n);
    SetTailFacts(e, ScanMem(e, m, n), RecoveredTail(e, m.vol));
    var r := RecoverMem(e, m);
    forall u: nat | u < e.g.capacity
      ensures StateOf(e.g, r.vol, u) == FinalState(e, m.vol, n, u) && SameBody(Rec(e.g, m.vol, u), Rec(e.g, r.vol, u))
    {
      assert Rec(e.g, r.vol, u) == Rec(e.g, ScanMem(e, m, n).vol, u);
      assert StateOf(e.g, ScanMem(e, m, n).vol, u) == FinalState(e, m.vol, n, u);
    }
    forall u: nat | u < n ensures FixedMeaning(e, Rec(e.g, m.vol, u)) {
      FixedMeans(e, Rec(e.g, m.vol, u));
    }
  }

  /** Running recover again changes nothing at all, abandons nothing, and reports the same tail. */
  lemma RecoverIdempotent(e: Env, m: Mem)
    requires PoolSized(e, m)
    ensures var r := RecoverMem(e, m);
            && RecoverMem(e, r) == r
            && RecoverReport(e, r) == RecoverReport(e, m).(abandonedCount := 0)
  {
    hide Rec, ScanMem, TailEnd, SetTail, FixedState, BrokenCount, Limit, Tail;
    var n := Limit(e, m.vol);
    var t := RecoveredTail(e, m.vol);
    var p := ScanMem(e, m, n);
    var r := RecoverMem(e, m);
    ScanKeepsWords(e, m, n);
    SetTailFacts(e, p, t);
    ScanIdempotent(e, m, n, n);
    ScanAfterTail(e, p, n, t, n);
    SecondTail(e, m);
    SetTailTwice(e, p, t);
  }

  lemma SetTailTwice(e: Env, p: Mem, t: u64)
    requires PoolSized(e, p)
    ensures SetTail(e, SetTail(e, p, t), t) == SetTail(e, p, t)
  {
    MulLe(0, e.g.capacity, e.g.recordSize);
    assert Splice(Splice(p.vol, HDR_COMMITTED_TAIL, LE(t, 8)), HDR_COMMITTED_TAIL, LE(t, 8))
        == Splice(p.vol, HDR_COMMITTED_TAIL, LE(t, 8));
  }

  /** A scan that finds nothing broken finds nothing broken after the tail word is set either. */
  lemma {:induction false} ScanAfterTail(e: Env, p: Mem, n: nat, t: u64, k: nat)
    requires PoolSized(e, p) && k <= n <= e.g.capacity && ScanMem(e, p, n) == p && BrokenCount(e, p.vol, n) == 0
    ensures ScanMem(e, SetTail(e, p, t), k) == SetTail(e, p, t) && BrokenCount(e, SetTail(e, p, t).vol, k) == 0
  {
    hide Rec, SetTail, Broken, Abandon, Tail, Limit;
    if k > 0 {
      ScanAfterTail(e, p, n, t, k - 1);
      SetTailFacts(e, p, t);
      NoneBroken(e, p.vol, n, k - 1);
    }
  }

  lemma {:induction false} NoneBroken(e: Env, v: seq<byte>, n: nat, u: nat)
    requires e.g.Ok() && |v| == e.g.totalSize && u < n <= e.g.capacity && BrokenCount(e, v, n) == 0
    ensures !Broken(e, Rec(e.g, v, u))
  {
    hide Broken, Rec;
    if u < n - 1 {
      NoneBroken(e, v, n - 1, u);
    }
  }

  lemma SecondTail(e: Env, m: Mem)
    requires PoolSized(e, m)
    ensures RecoveredTail(e, RecoverMem(e, m).vol) == RecoveredTail(e, m.vol)
  {
    hide Rec, ScanMem, TailEnd, SetTail, FixedState;
    var n := Limit(e, m.vol);
    var t := RecoveredTail(e, m.vol);
    var p := ScanMem(e, m, n);
    var r := RecoverMem(e, m);
    ScanKeepsWords(e, m, n);
    SetTailFacts(e, p, t);
    ScanExact(e, m, n);
    forall u: nat | u < e.g.capacity ensures FinalState(e, r.vol, n, u) == FinalState(e, m.vol, n, u) {
      assert Rec(e.g, r.vol, u) == Rec(e.g, p.vol, u);
      assert StateOf(e.g, r.vol, u) == FinalState(e, m.vol, n, u);
      FixedTwice(e, Rec(e.g, m.vol, u), Rec(e.g, r.vol, u));
    }
    TailEndAfterScan(e, m.vol, r.vol, n, n, t);
    TailEndIsMaximal(e, m.vol, n, Tail(e, m.vol));
  }

  // ---- The methods ----

  /** The inner loop of advance_committed_tail: over the COMMITTED slots from `from`. */
  method SweepFrom(e: Env, media: Backend, from: u64) returns (newTail: u64)
    requires e.g.Ok() && media.vol.Length == e.g.totalSize
    ensures newTail == TailEnd(e, media.vol[..], 0, from)
  {
    hide Rec;
    ghost var v := media.vol[..];
    newTail := from;
    while newTail < e.g.capacity
      invariant from <= newTail <= Max(from, e.g.capacity)
      invariant TailEnd(e, v, 0, newTail) == TailEnd(e, v, 0, from)
    {
      RecordBounds(e.g, newTail);
      var state := media.LoadU8(e.g.RecordOffset(newTail) + REC_STATE);
      assert state == FinalState(e, v, 0, newTail);
      if state != STATE_COMMITTED {
        break;
      }
      newTail := newTail + 1;
    }
  }

  /** One attempt of advance_committed_tail: load the tail, sweep, and swing the tail if there is anywhere to go. */
  method TryAdvance(e: Env, media: Backend) returns (failed: bool, tail: u64)
    requires e.g.Ok() && media.Valid() && media.vol.Length == e.g.totalSize
    modifies media, media.vol
    ensures media.Valid() && !failed
    ensures tail == TailEnd(e, old(media.vol[..]), 0, Tail(e, old(media.vol[..])))
    ensures media.M() == SetTail(e, old(media.M()), tail)
    ensures old(media.trace) <= media.trace
  {
    hide TailEnd, LE;
    MulLe(0, e.g.capacity, e.g.recordSize);
    ghost var v := media.vol[..];
    var currentTail := media.LoadU64(HDR_COMMITTED_TAIL);
    assert media.vol[HDR_COMMITTED_TAIL..HDR_COMMITTED_TAIL + 8] == v[HDR_COMMITTED_TAIL..HDR_COMMITTED_TAIL + 8];
    tail := SweepFrom(e, media, currentTail);
    failed := false;
    if tail != currentTail {
      var actual := media.CompareExchangeU64(HDR_COMMITTED_TAIL, currentTail, tail);
      failed := actual.Some?;
    } else {
      SameWord(v, HDR_COMMITTED_TAIL);
    }
  }

  /** advance_committed_tail: retry until the compare-exchange takes. Without interference the first one does. */
  method AdvanceCommittedTail(e: Env, media: Backend) returns (tail: u64)
    requires e.g.Ok() && media.Valid() && media.vol.Length == e.g.totalSize
    modifies media, media.vol
    ensures media.Valid()
    ensures tail == TailEnd(e, old(media.vol[..]), 0, Tail(e, old(media.vol[..])))
    ensures media.M() == SetTail(e, old(media.M()), tail)
    ensures old(media.trace) <= media.trace
  {
    hide TailEnd, SetTail, Tail;
    ghost var m, start := media.M(), media.trace;
    var again := true;
    tail := 0;
    while again
      invariant media.Valid() && start <= media.trace
      invariant again ==> media.M() == m
      invariant !again ==> tail == TailEnd(e, m.vol, 0, Tail(e, m.vol)) && media.M() == SetTail(e, m, tail)
      decreases again
    {
      again, tail := TryAdvance(e, media);
    }
  }

  /** The fields of a record, read at their absolute offsets. */
  lemma FieldSlices(g: Geometry, v: seq<byte>, u: nat, lo: nat, n: nat)
    requires g.Ok() && |v| == g.totalSize && u < g.capacity && lo + n <= g.recordSize
    ensures g.RecordOffset(u) + lo + n <= |v|
    ensures v[g.RecordOffset(u) + lo..g.RecordOffset(u) + lo + n] == Rec(g, v, u)[lo..lo + n]
  {
    RecordBounds(g, u);
    SubSlice(v, g.RecordOffset(u), g.recordSize, lo, n);
  }

  lemma SubSlice(v: seq<byte>, a: nat, len: nat, lo: nat, n: nat)
    requires a + len <= |v| && lo + n <= len
    ensures v[a + lo..a + lo + n] == v[a..a + len][lo..lo + n]
  {
    var x, y := v[a + lo..a + lo + n], v[a..a + len][lo..lo + n];
    assert |x| == |y| && forall i | 0 <= i < n :: x[i] == y[i];
  }

  lemma FieldAligned(g: Geometry, u: nat, lo: nat)
    requires g.Ok() && lo % 8 == 0
    ensures (g.RecordOffset(u) + lo) % 8 == 0
  {
    RecordAligned(g, u);
    Aligned(g.RecordOffset(u), lo);
  }

  lemma Aligned(a: nat, b: nat)
    requires a % 8 == 0 && b % 8 == 0
    ensures (a + b) % 8 == 0
  {
  }

  method LoadWord(e: Env, media: Backend, slot: nat, field: nat) returns (x: u64)
    requires e.g.Ok() && media.vol.Length == e.g.totalSize && slot < e.g.capacity
    requires field % 8 == 0 && field + 8 <= RECORD_META_SIZE
    ensures x == Word(e.g, Rec(e.g, media.vol[..], slot), field)
  {
    FieldSlices(e.g, media.vol[..], slot, field, 8);
    FieldAligned(e.g, slot, field);
    x := media.LoadU64(e.g.RecordOffset(slot) + field);
    assert media.vol[e.g.RecordOffset(slot) + field..e.g.RecordOffset(slot) + field + 8]
        == media.vol[..][e.g.RecordOffset(slot) + field..e.g.RecordOffset(slot) + field + 8];
  }

  method LoadBytes(e: Env, media: Backend, slot: nat, lo: nat, n: nat) returns (b: seq<byte>)
    requires e.g.Ok() && media.vol.Length == e.g.totalSize && slot < e.g.capacity && lo + n <= e.g.recordSize
    ensures b == Rec(e.g, media.vol[..], slot)[lo..lo + n]
  {
    FieldSlices(e.g, media.vol[..], slot, lo, n);
    b := media.Read(e.g.RecordOffset(slot) + lo, n);
    assert b == media.vol[..][e.g.RecordOffset(slot) + lo..e.g.RecordOffset(slot) + lo + n];
  }

  /** Read a record's fields and verify its checksum. */
  method Verify(e: Env, media: Backend, slot: nat) returns (ok: bool)
    requires e.g.Ok() && media.vol.Length == e.g.totalSize && slot < e.g.capacity
    ensures ok == Intact(e, Rec(e.g, media.vol[..], slot))
  {
    hide Rec;
    var term := LoadWord(e, media, slot, REC_TERM);
    var index := LoadWord(e, media, slot, REC_INDEX);
    var lenBytes := LoadBytes(e, media, slot, REC_DATA_LEN, 4);
    var dataLen := FromLE(lenBytes);
    var stored := LoadWord(e, media, slot, REC_CHECKSUM);
    var payloadLen := Min(dataLen, e.g.payloadSize);
    var payload := LoadBytes(e, media, slot, RECORD_META_SIZE, payloadLen);
    ok := e.crc(term, index, payload) == stored;
  }

  method AbandonSlot(e: Env, media: Backend, slot: nat)
    requires e.g.Ok() && media.Valid() && media.vol.Length == e.g.totalSize && slot < e.g.capacity
    modifies media, media.vol
    ensures media.Valid() && media.M() == Abandon(e, old(media.M()), slot)
  {
    RecordBounds(e.g, slot);
    media.StoreU8(e.g.RecordOffset(slot) + REC_STATE, STATE_ABANDONED);
    media.Flush(e.g.RecordOffset(slot), CACHELINE);
  }

  /** One iteration of the scan: abandon the record if it is broken. */
  method ScanSlot(e: Env, media: Backend, slot: nat) returns (broken: bool)
    requires e.g.Ok() && media.Valid() && media.vol.Length == e.g.totalSize && slot < e.g.capacity
    modifies media, media.vol
    ensures media.Valid() && broken == Broken(e, Rec(e.g, old(media.vol[..]), slot))
    ensures media.M() == if broken then Abandon(e, old(media.M()), slot) else old(media.M())
  {
    hide Rec, Intact, Abandon;
    RecordBounds(e.g, slot);
    var state := media.LoadU8(e.g.RecordOffset(slot) + REC_STATE);
    assert state == StateOf(e.g, media.vol[..], slot);
    broken := false;
    if state == STATE_WRITING {
      broken := true;
    } else if state == STATE_COMMITTED {
      var ok := Verify(e, media, slot);
      broken := !ok;
    } else if state == STATE_FREE || state == STATE_ABANDONED {
    } else {
      broken := true;
    }
    if broken {
      AbandonSlot(e, media, slot);
    }
  }

  /** recover: scan the claimed slots, abandoning broken records, then advance the tail. */
  method Recover(e: Env, media: Backend) returns (report: Report)
    requires e.g.Ok() && media.Valid() && media.vol.Length == e.g.totalSize
    modifies media, media.vol
    ensures media.Valid()
    ensures media.M() == RecoverMem(e, old(media.M())) && report == RecoverReport(e, old(media.M()))
  {
    hide Rec, Broken, TailEnd, Abandon;
    MulLe(0, e.g.capacity, e.g.recordSize);
    ghost var m := media.M();
    var reserveTail := media.LoadU64(HDR_RESERVE_TAIL);
    assert media.vol[HDR_RESERVE_TAIL..HDR_RESERVE_TAIL + 8] == m.vol[HDR_RESERVE_TAIL..HDR_RESERVE_TAIL + 8];
    var slotsToScan := Min(reserveTail, e.g.capacity);
    var abandonedCount := 0;
    for slot := 0 to slotsToScan
      invariant media.Valid() && media.M() == ScanMem(e, m, slot)
      invariant abandonedCount == BrokenCount(e, m.vol, slot)
    {
      BrokenUnchanged(e, m, slot);
      var broken := ScanSlot(e, media, slot);
      if broken {
        abandonedCount := abandonedCount + 1;
      }
    }
    ScanKeepsWords(e, m, slotsToScan);
    SweepAfterScan(e, m, slotsToScan);
    var tail := AdvanceCommittedTail(e, media);
    report := Report(abandonedCount, tail, slotsToScan);
  }

  lemma BrokenUnchanged(e: Env, m: Mem, n: nat)
    requires PoolSized(e, m) && n < e.g.capacity
    ensures Broken(e, Rec(e.g, ScanMem(e, m, n).vol, n)) == Broken(e, Rec(e.g, m.vol, n))
  {
    hide Rec, ScanMem, Intact;
    ScanExact(e, m, n);
    var r := ScanMem(e, m, n);
    assert StateOf(e.g, r.vol, n) == FinalState(e, m.vol, n, n);
    FixedTwice(e, Rec(e.g, m.vol, n), Rec(e.g, r.vol, n));
  }

  lemma SweepAfterScan(e: Env, m: Mem, n: nat)
    requires PoolSized(e, m) && n <= e.g.capacity
    ensures TailEnd(e, ScanMem(e, m, n).vol, 0, Tail(e, m.vol)) == TailEnd(e, m.vol, n, Tail(e, m.vol))
  {
    hide Rec, ScanMem, TailEnd;
    ScanExact(e, m, n);
    var r := ScanMem(e, m, n);
    assert forall u: nat | u < e.g.capacity :: FinalState(e, r.vol, 0, u) == StateOf(e.g, r.vol, u);
    TailEndAfterScan(e, m.vol, r.vol, n, 0, Tail(e, m.vol));
  }
}
