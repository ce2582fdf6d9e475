/** Record images: the fields of one slot, what an append writes there, and how stores and
    write-backs to one place of the pool show up in every record. */
module Records {
  import opened Bytes
  import opened Layout
  import opened Media

  /** The checksum is any deterministic function of (term, index, payload). */
  type Checksum = (u64, u64, seq<byte>) -> u64

  /** The pool's dimensions and the checksum in use. */
  datatype Env = Env(g: Geometry, crc: Checksum)

  /** The arguments of an append, with the host that makes it. */
  datatype Args = Args(term: u64, host: nat, data: seq<byte>)

  predicate ArgsOk(g: Geometry, a: Args) { a.host < g.maxHosts && |a.data| <= g.payloadSize }

  datatype Entry = Entry(index: u64, term: u64, writer: u64, data: seq<byte>)

  /** The record that an append with arguments a leaves in slot u. */
  function EntryOf(u: nat, a: Args): Entry
    requires u < U32_LIMIT && a.host < U16_LIMIT
  {
    Entry(u + 1, a.term, a.host, a.data)
  }

  /** The bytes of record u within a pool image. */
  function Rec(g: Geometry, v: seq<byte>, u: nat): (r: seq<byte>)
    requires g.Ok() && |v| == g.totalSize && u < g.capacity
    ensures |r| == g.recordSize
  {
    RecordBounds(g, u);
    v[g.RecordOffset(u)..g.RecordOffset(u) + g.recordSize]
  }

  function StateOf(g: Geometry, v: seq<byte>, u: nat): (x: byte)
    requires g.Ok() && |v| == g.totalSize && u < g.capacity
    ensures x == Rec(g, v, u)[REC_STATE]
  {
    RecordBounds(g, u);
    v[g.RecordOffset(u) + REC_STATE]
  }

  // ---- Decoding one record image ----

  predicate Image(g: Geometry, r: seq<byte>) { g.Ok() && |r| == g.recordSize }

  function Word(g: Geometry, r: seq<byte>, off: nat): (x: u64)
    requires Image(g, r) && off + 8 <= RECORD_META_SIZE
  {
    WordSizes();
    FromLE(r[off..off + 8])
  }

  function LenOf(g: Geometry, r: seq<byte>): nat
    requires Image(g, r)
  {
    FromLE(r[REC_DATA_LEN..REC_DATA_LEN + 4])
  }

  /** The payload bytes a reader takes for a stored length: never more than the slot holds. */
  function PayloadOf(g: Geometry, r: seq<byte>, len: nat): seq<byte>
    requires Image(g, r)
  {
    r[RECORD_META_SIZE..RECORD_META_SIZE + Min(len, g.payloadSize)]
  }

  function Decode(g: Geometry, r: seq<byte>): Entry
    requires Image(g, r)
  {
    Entry(Word(g, r, REC_INDEX), Word(g, r, REC_TERM), Word(g, r, REC_WRITER_ID), PayloadOf(g, r, LenOf(g, r)))
  }

  /** checksum::verify on the stored fields. */
  predicate Intact(e: Env, r: seq<byte>)
    requires Image(e.g, r)
  {
    var d := Decode(e.g, r);
    e.crc(d.term, d.index, d.data) == Word(e.g, r, REC_CHECKSUM)
  }

  /** Field by field, in bytes: what a reader takes from a record, and what it compares the stored checksum with. */
  lemma DecodeMeans(e: Env, r: seq<byte>)
    requires Image(e.g, r)
    ensures var d := Decode(e.g, r);
            && d.term == FromLE(r[8..16]) && d.index == FromLE(r[16..24]) && d.writer == FromLE(r[24..32])
            && d.data == r[64..64 + Min(FromLE(r[32..36]), e.g.payloadSize)]
            && FromLE(r[40..48]) < U64_LIMIT
            && (Intact(e, r) <==> FromLE(r[40..48]) == e.crc(d.term, d.index, d.data))
  {
    WordSizes();
  }

  /** r holds every field, the payload and the checksum of an append with arguments a to slot u. */
  ghost predicate Content(e: Env, r: seq<byte>, u: nat, a: Args)
    requires Image(e.g, r) && u < e.g.capacity && ArgsOk(e.g, a)
  {
    && r[REC_TERM..REC_TERM + 8] == LE(a.term, 8)
    && r[REC_INDEX..REC_INDEX + 8] == LE(u + 1, 8)
    && r[REC_WRITER_ID..REC_WRITER_ID + 8] == LE(a.host, 8)
    && r[REC_DATA_LEN..REC_DATA_LEN + 4] == LE(|a.data|, 4)
    && r[REC_CHECKSUM..REC_CHECKSUM + 8] == LE(e.crc(a.term, u + 1, a.data), 8)
    && r[RECORD_META_SIZE..RECORD_META_SIZE + |a.data|] == a.data
  }

  /** A record with an append's content reads back as exactly that append, and passes its checksum. */
  lemma ContentReadsBack(e: Env, r: seq<byte>, u: nat, a: Args)
    requires Image(e.g, r) && u < e.g.capacity && ArgsOk(e.g, a) && Content(e, r, u, a)
    ensures Decode(e.g, r) == EntryOf(u, a)
    ensures Word(e.g, r, REC_TERM) == a.term && Word(e.g, r, REC_INDEX) == u + 1
    ensures Word(e.g, r, REC_WRITER_ID) == a.host
    ensures LenOf(e.g, r) == |a.data| && PayloadOf(e.g, r, |a.data|) == a.data
    ensures Word(e.g, r, REC_CHECKSUM) == e.crc(a.term, u + 1, a.data)
    ensures Intact(e, r)
  {
    Word64(a.term);
    Word64(u + 1);
    Word64(a.host);
    Word32(|a.data|);
    Word64(e.crc(a.term, u + 1, a.data));
  }

  /** The body of a record: everything but its state byte. */
  ghost predicate SameBody(r: seq<byte>, s: seq<byte>) { |r| == |s| && forall k | 1 <= k < |r| :: r[k] == s[k] }

  lemma ContentSameBody(e: Env, r: seq<byte>, s: seq<byte>, u: nat, a: Args)
    requires Image(e.g, r) && Image(e.g, s) && u < e.g.capacity && ArgsOk(e.g, a)
    requires SameBody(r, s) && Content(e, r, u, a)
    ensures Content(e, s, u, a)
  {
    assert s[REC_TERM..REC_TERM + 8] == r[REC_TERM..REC_TERM + 8];
    assert s[REC_INDEX..REC_INDEX + 8] == r[REC_INDEX..REC_INDEX + 8];
    assert s[REC_WRITER_ID..REC_WRITER_ID + 8] == r[REC_WRITER_ID..REC_WRITER_ID + 8];
    assert s[REC_DATA_LEN..REC_DATA_LEN + 4] == r[REC_DATA_LEN..REC_DATA_LEN + 4];
    assert s[REC_CHECKSUM..REC_CHECKSUM + 8] == r[REC_CHECKSUM..REC_CHECKSUM + 8];
    assert s[RECORD_META_SIZE..RECORD_META_SIZE + |a.data|] == r[RECORD_META_SIZE..RECORD_META_SIZE + |a.data|];
  }

  lemma DecodeSameBody(e: Env, r: seq<byte>, s: seq<byte>)
    requires Image(e.g, r) && Image(e.g, s) && SameBody(r, s)
    ensures Decode(e.g, r) == Decode(e.g, s) && LenOf(e.g, r) == LenOf(e.g, s)
    ensures Word(e.g, r, REC_CHECKSUM) == Word(e.g, s, REC_CHECKSUM)
    ensures Intact(e, r) == Intact(e, s)
  {
    assert s[REC_TERM..REC_TERM + 8] == r[REC_TERM..REC_TERM + 8];
    assert s[REC_INDEX..REC_INDEX + 8] == r[REC_INDEX..REC_INDEX + 8];
    assert s[REC_WRITER_ID..REC_WRITER_ID + 8] == r[REC_WRITER_ID..REC_WRITER_ID + 8];
    assert s[REC_DATA_LEN..REC_DATA_LEN + 4] == r[REC_DATA_LEN..REC_DATA_LEN + 4];
    assert s[REC_CHECKSUM..REC_CHECKSUM + 8] == r[REC_CHECKSUM..REC_CHECKSUM + 8];
    var n := Min(LenOf(e.g, r), e.g.payloadSize);
    assert s[RECORD_META_SIZE..RECORD_META_SIZE + n] == r[RECORD_META_SIZE..RECORD_META_SIZE + n];
  }

  // ---- The stores of an append ----

  /** The stores of steps 3 to 5 of append, in program order. */
  function BodyOps(e: Env, u: nat, a: Args): (ops: seq<MemOp>)
    requires e.g.Ok() && u < e.g.capacity && ArgsOk(e.g, a)
    ensures |ops| == if a.data == [] then 6 else 7
    ensures forall j | 0 <= j < |ops| :: ops[j].Store?
  {
    var off := e.g.RecordOffset(u);
    [ Store(off + REC_STATE, [STATE_WRITING]),
      Store(off + REC_TERM, LE(a.term, 8)),
      Store(off + REC_INDEX, LE(u + 1, 8)),
      Store(off + REC_WRITER_ID, LE(a.host, 8)),
      Store(off + REC_DATA_LEN, LE(|a.data|, 4)) ]
    + (if a.data == [] then [] else [Store(off + RECORD_META_SIZE, a.data)])
    + [Store(off + REC_CHECKSUM, LE(e.crc(a.term, u + 1, a.data), 8))]
  }

  /** Where op stores, relative to the start of record u. */
  function Rel(g: Geometry, u: nat, op: MemOp): int
    requires op.Store?
  {
    op.off - g.RecordOffset(u)
  }

  /** The first store marks the state; the others stay inside the record's body and off one another. */
  lemma BodyOpsApart(e: Env, u: nat, a: Args)
    requires e.g.Ok() && u < e.g.capacity && ArgsOk(e.g, a)
    ensures var ops := BodyOps(e, u, a);
            && Rel(e.g, u, ops[0]) == 0 && ops[0].bytes == [STATE_WRITING]
            && (forall j | 1 <= j < |ops| ::
                  8 <= Rel(e.g, u, ops[j]) && Rel(e.g, u, ops[j]) + |ops[j].bytes| <= e.g.recordSize)
            && (forall i, j | 1 <= i < |ops| && 1 <= j < |ops| && i != j ::
                  Rel(e.g, u, ops[i]) + |ops[i].bytes| <= Rel(e.g, u, ops[j])
                  || Rel(e.g, u, ops[j]) + |ops[j].bytes| <= Rel(e.g, u, ops[i]))
  {
  }

  /** The body stores before the k-th are all visible in r. */
  ghost predicate Written(e: Env, r: seq<byte>, u: nat, a: Args, k: nat)
    requires Image(e.g, r) && u < e.g.capacity && ArgsOk(e.g, a)
    requires k <= |BodyOps(e, u, a)|
  {
    var ops := BodyOps(e, u, a);
    forall j | 1 <= j < k :: Shows(e.g, r, u, ops[j])
  }

  ghost predicate Shows(g: Geometry, r: seq<byte>, u: nat, op: MemOp)
    requires op.Store?
  {
    var lo := Rel(g, u, op);
    0 <= lo && lo + |op.bytes| <= |r| && r[lo..lo + |op.bytes|] == op.bytes
  }

  lemma WrittenStep(e: Env, r: seq<byte>, u: nat, a: Args, k: nat)
    requires Image(e.g, r) && u < e.g.capacity && ArgsOk(e.g, a)
    requires 1 <= k < |BodyOps(e, u, a)| && Written(e, r, u, a, k)
    ensures var op := BodyOps(e, u, a)[k];
            var lo := Rel(e.g, u, op);
            && 8 <= lo && lo + |op.bytes| <= e.g.recordSize
            && Written(e, Splice(r, lo, op.bytes), u, a, k + 1)
  {
    BodyOpsApart(e, u, a);
    var ops := BodyOps(e, u, a);
    var op := ops[k];
    var r' := Splice(r, Rel(e.g, u, op), op.bytes);
    forall j | 1 <= j < k + 1 ensures Shows(e.g, r', u, ops[j]) {
      var lo := Rel(e.g, u, ops[j]);
      if j < k {
        assert Shows(e.g, r, u, ops[j]);
        assert r'[lo..lo + |ops[j].bytes|] == r[lo..lo + |ops[j].bytes|];
      } else {
        assert r'[lo..lo + |op.bytes|] == op.bytes;
      }
    }
  }

  lemma WrittenSameBody(e: Env, r: seq<byte>, s: seq<byte>, u: nat, a: Args, k: nat)
    requires Image(e.g, r) && Image(e.g, s) && u < e.g.capacity && ArgsOk(e.g, a)
    requires k <= |BodyOps(e, u, a)| && Written(e, r, u, a, k) && SameBody(r, s)
    ensures Written(e, s, u, a, k)
  {
    BodyOpsApart(e, u, a);
    var ops := BodyOps(e, u, a);
    forall j | 1 <= j < k ensures Shows(e.g, s, u, ops[j]) {
      var lo := Rel(e.g, u, ops[j]);
      assert Shows(e.g, r, u, ops[j]);
      assert s[lo..lo + |ops[j].bytes|] == r[lo..lo + |ops[j].bytes|];
    }
  }

  lemma AllWritten(e: Env, r: seq<byte>, u: nat, a: Args)
    requires Image(e.g, r) && u < e.g.capacity && ArgsOk(e.g, a)
    requires Written(e, r, u, a, |BodyOps(e, u, a)|)
    ensures Content(e, r, u, a)
  {
    var ops := BodyOps(e, u, a);
    var n := |ops|;
    assert Shows(e.g, r, u, ops[1]) && Shows(e.g, r, u, ops[2]) && Shows(e.g, r, u, ops[3]) && Shows(e.g, r, u, ops[4]);
    assert Shows(e.g, r, u, ops[n - 1]);
    if a.data != [] {
      assert Shows(e.g, r, u, ops[5]);
    }
  }

  // ---- Frames ----

  lemma SliceApart(v: seq<byte>, off: nat, b: seq<byte>, lo: nat, n: nat)
    requires off + |b| <= |v| && lo + n <= |v| && (off + |b| <= lo || lo + n <= off)
    ensures Splice(v, off, b)[lo..lo + n] == v[lo..lo + n]
  {
  }

  lemma SliceInside(v: seq<byte>, off: nat, b: seq<byte>, lo: nat, n: nat)
    requires lo + off + |b| <= lo + n <= |v|
    ensures Splice(v, lo + off, b)[lo..lo + n] == Splice(v[lo..lo + n], off, b)
  {
  }

  /** A store inside record u changes that record only. */
  lemma StoreFrame(g: Geometry, v: seq<byte>, u: nat, lo: nat, b: seq<byte>)
    requires g.Ok() && |v| == g.totalSize && u < g.capacity && lo + |b| <= g.recordSize
    ensures g.RecordOffset(u) + lo + |b| <= |v|
    ensures var v' := Splice(v, g.RecordOffset(u) + lo, b);
            && Rec(g, v', u) == Splice(Rec(g, v, u), lo, b)
            && (forall w: nat | w < g.capacity && w != u :: Rec(g, v', w) == Rec(g, v, w))
  {
    RecordBounds(g, u);
    SliceInside(v, lo, b, g.RecordOffset(u), g.recordSize);
    var v' := Splice(v, g.RecordOffset(u) + lo, b);
    forall w: nat | w < g.capacity && w != u ensures Rec(g, v', w) == Rec(g, v, w) {
      StoreElsewhere(g, v, u, lo, b, w);
    }
  }

  lemma StoreElsewhere(g: Geometry, v: seq<byte>, u: nat, lo: nat, b: seq<byte>, w: nat)
    requires g.Ok() && |v| == g.totalSize && u < g.capacity && lo + |b| <= g.recordSize && w < g.capacity && w != u
    ensures g.RecordOffset(u) + lo + |b| <= |v|
    ensures Rec(g, Splice(v, g.RecordOffset(u) + lo, b), w) == Rec(g, v, w)
  {
    RecordBounds(g, u);
    RecordBounds(g, w);
    if w < u {
      RecordsDisjoint(g, w, u);
    } else {
      RecordsDisjoint(g, u, w);
    }
    SliceApart(v, g.RecordOffset(u) + lo, b, g.RecordOffset(w), g.recordSize);
  }

  /** A store that misses the records region changes no record. */
  lemma OutsideFrame(g: Geometry, v: seq<byte>, off: nat, b: seq<byte>)
    requires g.Ok() && |v| == g.totalSize && off + |b| <= |v|
    requires off + |b| <= HEADER_SIZE || g.RecordsEnd() <= off
    ensures forall w: nat | w < g.capacity :: Rec(g, Splice(v, off, b), w) == Rec(g, v, w)
  {
    forall w: nat | w < g.capacity ensures Rec(g, Splice(v, off, b), w) == Rec(g, v, w) {
      RecordBounds(g, w);
      SliceApart(v, off, b, g.RecordOffset(w), g.recordSize);
    }
  }

  /** The cache line of byte k of record u. */
  function LineOf(g: Geometry, u: nat, k: nat): nat { (g.RecordOffset(u) + k) / CACHELINE }

  /** Writing back a line copies exactly the bytes of each record that lie on it. */
  lemma WriteBackFrame(g: Geometry, dur: seq<byte>, vol: seq<byte>, line: nat, u: nat, k: nat)
    requires g.Ok() && |vol| == |dur| == g.totalSize && u < g.capacity && k < g.recordSize
    ensures Rec(g, CopyLine(dur, vol, line), u)[k]
          == if LineOf(g, u, k) == line then Rec(g, vol, u)[k] else Rec(g, dur, u)[k]
  {
    RecordBounds(g, u);
  }
}
