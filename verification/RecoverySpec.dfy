/** What recovery makes of any pool contents: the state each slot ends in, and where the tail stops. */
module RecoverySpec {
  import opened Bytes
  import opened Layout
  import opened Records

  /** The state byte recover leaves in a record it scans. */
  function FixedState(e: Env, r: seq<byte>): byte
    requires Image(e.g, r)
  {
    if r[REC_STATE] == STATE_FREE || r[REC_STATE] == STATE_ABANDONED then r[REC_STATE]
    else if r[REC_STATE] == STATE_COMMITTED && Intact(e, r) then STATE_COMMITTED
    else STATE_ABANDONED
  }

  /** The slots recover scans: those below min(reserve_tail, capacity). */
  function ScanLimit(g: Geometry, reserve: nat): nat { Min(reserve, g.capacity) }

  /** The state of slot u of image v after recover has scanned `limit` slots. */
  function FinalState(e: Env, v: seq<byte>, limit: nat, u: nat): byte
    requires e.g.Ok() && |v| == e.g.totalSize && u < e.g.capacity
  {
    if u < limit then FixedState(e, Rec(e.g, v, u)) else StateOf(e.g, v, u)
  }

  /** The end of the run of finally COMMITTED slots from c. */
  function TailEnd(e: Env, v: seq<byte>, limit: nat, c: nat): (n: nat)
    requires e.g.Ok() && |v| == e.g.totalSize
    ensures c <= n <= Max(c, e.g.capacity)
    decreases e.g.capacity - c
  {
    if c < e.g.capacity && FinalState(e, v, limit, c) == STATE_COMMITTED then TailEnd(e, v, limit, c + 1) else c
  }

  /** TailEnd is the maximal run: everything passed is COMMITTED, and it stops at the end or at a slot that is not. */
  lemma {:induction false} TailEndIsMaximal(e: Env, v: seq<byte>, limit: nat, c: nat)
    requires e.g.Ok() && |v| == e.g.totalSize
    ensures var n := TailEnd(e, v, limit, c);
            && (forall j: nat | c <= j < n :: j < e.g.capacity && FinalState(e, v, limit, j) == STATE_COMMITTED)
            && (n < e.g.capacity ==> FinalState(e, v, limit, n) != STATE_COMMITTED)
            && (n > c ==> n <= e.g.capacity)
            && TailEnd(e, v, limit, n) == n
    decreases e.g.capacity - c
  {
    hide FinalState;
    if c < e.g.capacity && FinalState(e, v, limit, c) == STATE_COMMITTED {
      TailEndIsMaximal(e, v, limit, c + 1);
    }
  }

  /** Fixing is idempotent: it changes no body, and a fixed state stays as it is. */
  lemma FixedTwice(e: Env, r: seq<byte>, s: seq<byte>)
    requires Image(e.g, r) && Image(e.g, s) && SameBody(r, s) && s[REC_STATE] in {r[REC_STATE], FixedState(e, r)}
    ensures FixedState(e, s) == FixedState(e, r)
  {
    DecodeSameBody(e, r, s);
  }
}
