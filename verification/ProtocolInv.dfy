/** The invariant of the log protocol, and its preservation by every step of every thread. */
module ProtocolInv {
  import opened Bytes
  import opened Layout
  import opened Media
  import opened Records
  import opened Protocol

  // ---- The invariant ----

  /** Record u as threads see it, and as a power failure would leave it. */
  ghost function V(e: Env, sh: Shared, u: nat): (r: seq<byte>)
    requires SharedOk(e, sh) && u < e.g.capacity
    ensures |r| == e.g.recordSize
  {
    Rec(e.g, sh.mem.vol, u)
  }

  ghost function D(e: Env, sh: Shared, u: nat): (r: seq<byte>)
    requires SharedOk(e, sh) && u < e.g.capacity
    ensures |r| == e.g.recordSize
  {
    Rec(e.g, sh.mem.dur, u)
  }

  ghost predicate GrantsOk(e: Env, sh: Shared) {
    |sh.grants| <= e.g.capacity && forall u | 0 <= u < |sh.grants| :: ArgsOk(e.g, sh.grants[u].args)
  }

  /** A sealed slot holds its owner's append, durably, and its state can never be FREE again. */
  ghost predicate SealedSlot(e: Env, sh: Shared, u: nat)
    requires SharedOk(e, sh) && GrantsOk(e, sh) && u < e.g.capacity
  {
    && u < |sh.grants|
    && SameBody(V(e, sh, u), D(e, sh, u))
    && Content(e, V(e, sh, u), u, sh.grants[u].args)
    && V(e, sh, u)[REC_STATE] != STATE_FREE && D(e, sh, u)[REC_STATE] != STATE_FREE
  }

  ghost predicate SlotInv(e: Env, sh: Shared, u: nat)
    requires SharedOk(e, sh) && GrantsOk(e, sh) && u < e.g.capacity
  {
    && V(e, sh, u)[REC_STATE] <= STATE_ABANDONED && D(e, sh, u)[REC_STATE] <= STATE_ABANDONED
    && (V(e, sh, u)[REC_STATE] == STATE_COMMITTED || D(e, sh, u)[REC_STATE] == STATE_COMMITTED ==> u in sh.landed)
    && (u in sh.sealed ==> SealedSlot(e, sh, u))
  }

  ghost predicate SharedInv(e: Env, sh: Shared)
    ensures SharedInv(e, sh) ==> SharedOk(e, sh) && GrantsOk(e, sh)
  {
    && SharedOk(e, sh) && GrantsOk(e, sh)
    && (forall u: nat | u < e.g.capacity :: SlotInv(e, sh, u))
    && (forall u | u in sh.sealed :: u < e.g.capacity)
    && sh.landed <= sh.sealed
    && sh.committed <= e.g.capacity
    && (forall u: nat | u < sh.committed :: u in sh.landed)
  }

  ghost predicate Owns(sh: Shared, t: Tid, u: nat, a: Args) { u < |sh.grants| && sh.grants[u] == Grant(t, a) }

  ghost predicate SweepInv(e: Env, sh: Shared, w: Sweep) {
    match w
    case LoadTail(tries, first) => tries > 0 ==> first + tries <= sh.committed
    case ScanFrom(tries, first, cur, new_) => PassInv(e, sh, tries, first, cur, new_)
    case SwapTail(tries, first, cur, new_) => PassInv(e, sh, tries, first, cur, new_) && cur < new_
  }

  /** A sweeper's loaded tail is a lower bound of the tail, and the slots it passed over have been COMMITTED. */
  ghost predicate PassInv(e: Env, sh: Shared, tries: nat, first: nat, cur: nat, new_: nat) {
    && first + tries <= cur <= new_ <= e.g.capacity && cur <= sh.committed
    && forall v: nat | cur <= v < new_ :: v in sh.landed
  }

  /** Bytes of the record that the first j write-backs of its flush reached are durable. */
  ghost predicate FlushedTo(e: Env, sh: Shared, u: nat, j: nat)
    requires SharedOk(e, sh) && u < e.g.capacity
  {
    forall k: nat | k < e.g.recordSize && LineOf(e.g, u, k) < LineOf(e.g, u, 0) + j ::
      if k == REC_STATE then D(e, sh, u)[k] != STATE_FREE else D(e, sh, u)[k] == V(e, sh, u)[k]
  }

  /** The fields loaded so far are those of the append that owns the slot. */
  ghost predicate FieldsInv(e: Env, u: nat, a: Args, p: Purpose, field: Field, got: Fields) {
    && (field != Term ==> got.term == a.term)
    && (field !in {Term, Index} ==> got.index == u + 1)
    && (field !in {Term, Index, Writer} && p.ForRead? ==> got.writer == a.host)
    && (field in {Crc, Payload} ==> got.len == |a.data|)
    && (field == Payload ==> u < U32_LIMIT && got.crc == e.crc(a.term, u + 1, a.data))
  }

  ghost predicate ReadBack(e: Env, sh: Shared, index: nat, entry: Entry)
    requires GrantsOk(e, sh)
  {
    && 0 < index <= |sh.grants| && index < U32_LIMIT && e.g.maxHosts <= 256
    && entry == EntryOf(index - 1, sh.grants[index - 1].args)
  }

  ghost predicate ReplyInv(e: Env, sh: Shared, t: Tid, r: Reply)
    requires GrantsOk(e, sh)
  {
    match r
    case Appended(u, a) => Owns(sh, t, u, a) && u in sh.sealed
    case PoolFull(_, _) => |sh.grants| == e.g.capacity
    case ReadSome(index, entry) => ReadBack(e, sh, index, entry)
    case ChecksumMismatch(_) => false
    case Recovered(_, tail, _) => tail <= sh.committed
    case _ => true
  }

  ghost predicate ThreadInv(e: Env, sh: Shared, t: Tid, pc: Pc)
    requires SharedOk(e, sh) && GrantsOk(e, sh)
    ensures ThreadInv(e, sh, t, pc) ==> PcOk(e, pc)
  {
    && PcOk(e, pc)
    && match pc
       case Undo(_, _) => |sh.grants| == e.g.capacity
       case FailMetric(_, _) => |sh.grants| == e.g.capacity
       case Body(u, a, k) =>
         Owns(sh, t, u, a) && u !in sh.sealed && (k > 0 ==>
               V(e, sh, u)[REC_STATE] != STATE_FREE) && Written(e, V(e, sh, u), u, a, k)
       case FlushRecord(u, a, j) =>
         && Owns(sh, t, u, a) && u !in sh.sealed && V(e, sh, u)[REC_STATE] != STATE_FREE
         && Content(e, V(e, sh, u), u, a) && FlushedTo(e, sh, u, j)
       case Commit(u, a) => Owns(sh, t, u, a) && u in sh.sealed && u !in sh.landed
       case FlushState(u, a, _) => Owns(sh, t, u, a) && u in sh.sealed
       case CountAppend(u, a) => Owns(sh, t, u, a) && u in sh.sealed
       case CountBytes(u, a) => Owns(sh, t, u, a) && u in sh.sealed
       case Sweeping(job, w) =>
         (job.ForAppend? ==> Owns(sh, t, job.slot, job.args) && job.slot in sh.sealed) && SweepInv(e, sh, w)
       case LoadState(_, index) => index <= sh.committed
       case Load(p, u, field, got) => u in sh.sealed && u < |sh.grants|
           && FieldsInv(e, u, sh.grants[u].args, p, field, got)
       case CountRead(_, index, entry) => ReadBack(e, sh, index, entry)
       case CountMismatch(_, _) => false
       case CountRun(_, r) => ReplyInv(e, sh, t, r)
       case CountFound(_, r) => ReplyInv(e, sh, t, r)
       case TrimScan(upTo, _, _) => upTo <= sh.committed
       case TrimMark(upTo, _, _) => upTo <= sh.committed
       case TrimFlush(upTo, _, _, _) => upTo <= sh.committed
       case Done(r) => ReplyInv(e, sh, t, r)
       case _ => true
  }

  /** Slots handed out plus reservations past the end not yet undone, which exist only when the pool is full. */
  ghost predicate CounterInv(e: Env, s: State) {
    var owed := CountPc(s.threads, Owes) + s.sh.leaked;
    s.sh.reserve == |s.sh.grants| + owed && (owed > 0 ==> |s.sh.grants| == e.g.capacity)
  }

  ghost predicate Inv(e: Env, s: State) {
    && SharedInv(e, s.sh)
    && (forall t | t in s.threads :: ThreadInv(e, s.sh, t, s.threads[t]))
    && CounterInv(e, s)
  }

  // ---- What a step of thread t may do to the others ----

  ghost predicate Mine(sh: Shared, t: int, u: nat) { u < |sh.grants| && sh.grants[u].owner == t }

  ghost predicate GuarSlot(e: Env, sh: Shared, sh': Shared, t: int, u: nat)
    requires SharedOk(e, sh) && SharedOk(e, sh') && u < e.g.capacity
  {
    var v, v', d, d' := V(e, sh, u), V(e, sh', u), D(e, sh, u), D(e, sh', u);
    && (SameBody(v', v) || (Mine(sh', t, u) && u !in sh.sealed))
    && (v'[REC_STATE] == v[REC_STATE] || v'[REC_STATE] == STATE_ABANDONED
        || (Mine(sh', t, u) && v'[REC_STATE] != STATE_FREE))
    && (d' == d || (v' == v && forall k | 0 <= k < |d| :: d'[k] == d[k] || d'[k] == v[k]))
  }

  ghost predicate Guar(e: Env, sh: Shared, sh': Shared, t: int)
    requires SharedOk(e, sh) && SharedOk(e, sh')
  {
    && sh.grants <= sh'.grants && (forall u | |sh.grants| <= u < |sh'.grants| :: sh'.grants[u].owner == t)
    && sh.sealed <= sh'.sealed && (forall u | u in sh'.sealed && u !in sh.sealed :: Mine(sh', t, u))
    && sh.landed <= sh'.landed && (forall u | u in sh'.landed && u !in sh.landed :: Mine(sh', t, u))
    && sh.committed <= sh'.committed
    && forall u: nat | u < e.g.capacity :: GuarSlot(e, sh, sh', t, u)
  }

  lemma GuarSame(e: Env, sh: Shared, sh': Shared, t: int)
    requires SharedOk(e, sh) && SharedOk(e, sh') && sh.mem == sh'.mem
    requires sh.grants <= sh'.grants && (forall u | |sh.grants| <= u < |sh'.grants| :: sh'.grants[u].owner == t)
    requires sh.sealed == sh'.sealed && sh.landed == sh'.landed && sh.committed <= sh'.committed
    ensures Guar(e, sh, sh', t)
  {
  }

  /** A thread's invariant survives the steps of every other thread. */
  lemma Stable(e: Env, sh: Shared, sh': Shared, t: int, t2: Tid, pc: Pc)
    requires SharedInv(e, sh) && SharedOk(e, sh') && GrantsOk(e, sh') && Guar(e, sh, sh', t) && t != t2
    requires ThreadInv(e, sh, t2, pc)
    ensures ThreadInv(e, sh', t2, pc)
  {
    match pc
    case Body(u, a, k) =>
      assert GuarSlot(e, sh, sh', t, u);
      WrittenSameBody(e, V(e, sh, u), V(e, sh', u), u, a, k);
    case FlushRecord(u, a, j) =>
      assert GuarSlot(e, sh, sh', t, u);
      ContentSameBody(e, V(e, sh, u), V(e, sh', u), u, a);
    case _ =>
  }

  // ---- The three kinds of memory step ----

  lemma LineFacts(e: Env, sh: Shared, line: nat, u: nat)
    requires SharedOk(e, sh) && u < e.g.capacity
    ensures var sh' := sh.(mem := Apply(sh.mem, WriteBack(line)));
            && SharedOk(e, sh') && V(e, sh', u) == V(e, sh, u)
            && forall k: nat | k < e.g.recordSize ::
                 D(e, sh', u)[k] == if LineOf(e.g, u, k) == line then V(e, sh, u)[k] else D(e, sh, u)[k]
  {
    forall k: nat | k < e.g.recordSize
      ensures D(e, sh.(mem := Apply(sh.mem, WriteBack(line))), u)[k]
              == if LineOf(e.g, u, k) == line then V(e, sh, u)[k] else D(e, sh, u)[k]
    {
      WriteBackFrame(e.g, sh.mem.dur, sh.mem.vol, line, u, k);
    }
  }

  /** Writing a line back, by a flush or by eviction, is harmless at any time. */
  lemma WriteBackInv(e: Env, sh: Shared, line: nat, t: int)
    requires SharedInv(e, sh)
    ensures var sh' := sh.(mem := Apply(sh.mem, WriteBack(line)));
            SharedInv(e, sh') && Guar(e, sh, sh', t)
  {
    var sh' := sh.(mem := Apply(sh.mem, WriteBack(line)));
    forall u: nat | u < e.g.capacity ensures SlotInv(e, sh', u) && GuarSlot(e, sh, sh', t, u) {
      LineFacts(e, sh, line, u);
      assert SlotInv(e, sh, u);
      var d, d', v := D(e, sh, u), D(e, sh', u), V(e, sh, u);
      assert forall k: nat | k < e.g.recordSize :: d'[k] == d[k] || d'[k] == v[k];
      assert d'[REC_STATE] == d[REC_STATE] || d'[REC_STATE] == v[REC_STATE];
    }
  }

  /** A store to record u, as seen by every record. */
  lemma StoreFacts(e: Env, sh: Shared, u: nat, lo: nat, b: seq<byte>)
    requires SharedOk(e, sh) && u < e.g.capacity && lo + |b| <= e.g.recordSize
    ensures e.g.RecordOffset(u) + lo + |b| <= e.g.totalSize
    ensures var sh' := sh.(mem := Apply(sh.mem, Store(e.g.RecordOffset(u) + lo, b)));
            && SharedOk(e, sh') && V(e, sh', u) == Splice(V(e, sh, u), lo, b)
            && (forall w: nat | w < e.g.capacity && w != u :: V(e, sh', w) == V(e, sh, w))
            && (forall w: nat | w < e.g.capacity :: D(e, sh', w) == D(e, sh, w))
  {
    StoreFrame(e.g, sh.mem.vol, u, lo, b);
  }

  /** Storing a state byte: ABANDONED by anyone, another state by the slot's owner, COMMITTED only once sealed. */
  lemma StateStoreInv(e: Env, sh: Shared, u: nat, x: byte, t: int)
    requires SharedInv(e, sh) && u < e.g.capacity
    requires STATE_FREE < x <= STATE_ABANDONED
    requires x == STATE_COMMITTED ==> u in sh.landed
    requires x == STATE_ABANDONED || Mine(sh, t, u)
    ensures var sh' := StoreState(e, sh, u, x);
            && SharedInv(e, sh') && Guar(e, sh, sh', t)
            && V(e, sh', u)[REC_STATE] == x && SameBody(V(e, sh', u), V(e, sh, u))
            && D(e, sh', u) == D(e, sh, u)
            && (forall w: nat | w < e.g.capacity && w != u ::
                  V(e, sh', w) == V(e, sh, w) && D(e, sh', w) == D(e, sh, w))
  {
    hide Rec, Content;
    var sh' := StoreState(e, sh, u, x);
    StoreFacts(e, sh, u, REC_STATE, [x]);
    assert SlotInv(e, sh, u);
    assert SameBody(V(e, sh', u), V(e, sh, u));
    if u in sh.sealed {
      ContentSameBody(e, V(e, sh, u), V(e, sh', u), u, sh.grants[u].args);
    }
    forall w: nat | w < e.g.capacity && w != u ensures SlotInv(e, sh', w) {
      assert SlotInv(e, sh, w);
    }
  }

  /** The owner of an unsealed slot may store anywhere in the record's body. */
  lemma BodyStoreInv(e: Env, sh: Shared, u: nat, lo: nat, b: seq<byte>, t: int)
    requires SharedInv(e, sh) && u < e.g.capacity && u !in sh.sealed && Mine(sh, t, u)
    requires 1 <= lo && lo + |b| <= e.g.recordSize
    ensures e.g.RecordOffset(u) + lo + |b| <= e.g.totalSize
    ensures var sh' := sh.(mem := Apply(sh.mem, Store(e.g.RecordOffset(u) + lo, b)));
            && SharedInv(e, sh') && Guar(e, sh, sh', t)
            && V(e, sh', u) == Splice(V(e, sh, u), lo, b)
  {
    StoreFacts(e, sh, u, lo, b);
    var sh' := sh.(mem := Apply(sh.mem, Store(e.g.RecordOffset(u) + lo, b)));
    assert SlotInv(e, sh, u);
    forall w: nat | w < e.g.capacity && w != u ensures SlotInv(e, sh', w) {
      assert SlotInv(e, sh, w);
    }
  }
}
