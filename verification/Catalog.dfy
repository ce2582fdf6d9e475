/** The region catalog's byte layout: a header line and 256 entries of one line's size each (catalog.rs). */
module Catalog {
  import opened Bytes
  import opened Media
  import opened Records
  import opened Recovery
  import opened CrashRuns

  const ALLOC_MAGIC: u64 := 0x46454E43455F414C
  const CATALOG_HEADER_SIZE := 64
  const CATALOG_ENTRY_SIZE := 64
  const MAX_NAME_LEN := 24
  const MAX_REGIONS := 256
  const CATALOG_SIZE := CATALOG_HEADER_SIZE + MAX_REGIONS * CATALOG_ENTRY_SIZE

  const CAT_HDR_MAGIC := 0
  const CAT_HDR_REGION_COUNT := 8
  const CAT_HDR_TOTAL_SIZE := 16
  const CAT_HDR_DATA_START := 24

  const ENT_STATE := 0
  const ENT_NAME_LEN := 2
  const ENT_NAME := 4
  const ENT_OFFSET := 32
  const ENT_SIZE := 40
  const ENT_EPOCH := 48

  datatype RegionState = Free | Allocating | Active | Freeing

  function ToU8(s: RegionState): byte {
    match s
    case Free => 0
    case Allocating => 1
    case Active => 2
    case Freeing => 3
  }

  /** from_u8, None for bytes that name no state. */
  function FromU8(x: byte): (s: Option<RegionState>)
    ensures s.Some? ==> ToU8(s.value) == x
    ensures s == None <==> forall t :: ToU8(t) != x
  {
    if x == 0 then Some(Free)
    else if x == 1 then Some(Allocating)
    else if x == 2 then Some(Active)
    else if x == 3 then Some(Freeing)
    else assert forall t :: ToU8(t) != x; None
  }

  /** Names are the bytes of their UTF-8 form. */
  datatype CatalogEntry = CatalogEntry(state: RegionState, name: seq<byte>, offset: u64, size: u64, epoch: u64)

  /** The catalog as its readers see it. */
  datatype Cat = Cat(entries: seq<CatalogEntry>, count: u64, dataStart: u64)

  function EntryOffset(base: nat, index: nat): nat {
    base + CATALOG_HEADER_SIZE + index * CATALOG_ENTRY_SIZE
  }

  /** The catalog at `base` lies inside an image, where its words are aligned. */
  predicate Placed(v: seq<byte>, base: nat) { base % 8 == 0 && base + CATALOG_SIZE <= |v| }

  function EntryBytes(v: seq<byte>, base: nat, index: nat): (b: seq<byte>)
    requires Placed(v, base) && index < MAX_REGIONS
    ensures |b| == CATALOG_ENTRY_SIZE
  {
    v[EntryOffset(base, index)..EntryOffset(base, index) + CATALOG_ENTRY_SIZE]
  }

  function U64At(b: seq<byte>, off: nat): u64
    requires off + 8 <= |b|
  {
    WordSizes();
    FromLE(b[off..off + 8])
  }

  /** read_entry on the entry's bytes. An unknown state reads as Free; a name length of 0 or over 24 reads as no
      name. */
  function DecodeEntry(b: seq<byte>): CatalogEntry
    requires |b| == CATALOG_ENTRY_SIZE
  {
    var state := FromU8(b[ENT_STATE]);
    var len := FromLE(b[ENT_NAME_LEN..ENT_NAME_LEN + 2]);
    CatalogEntry(if state.Some? then state.value else Free,
                 if 0 < len <= MAX_NAME_LEN then b[ENT_NAME..ENT_NAME + len] else [],
                 U64At(b, ENT_OFFSET), U64At(b, ENT_SIZE), U64At(b, ENT_EPOCH))
  }

  /** Field by field, in bytes: what a reader takes from an entry, whatever it holds. */
  lemma DecodeEntryMeans(b: seq<byte>)
    requires |b| == CATALOG_ENTRY_SIZE
    ensures var d, len := DecodeEntry(b), FromLE(b[2..4]);
            && (d.state == Allocating <==> b[0] == 1) && (d.state == Active <==> b[0] == 2)
            && (d.state == Freeing <==> b[0] == 3) && (d.state == Free <==> b[0] == 0 || b[0] > 3)
            && (1 <= len <= 24 ==> d.name == b[4..4 + len]) && (len == 0 || len > 24 ==> d.name == [])
            && d.offset == FromLE(b[32..40]) && d.size == FromLE(b[40..48]) && d.epoch == FromLE(b[48..56])
  {
    WordSizes();
  }

  function View(v: seq<byte>, base: nat): (c: Cat)
    requires Placed(v, base)
    ensures |c.entries| == MAX_REGIONS
  {
    Cat(seq(MAX_REGIONS, i requires 0 <= i < MAX_REGIONS => DecodeEntry(EntryBytes(v, base, i))),
        WordAt(v, base + CAT_HDR_REGION_COUNT), WordAt(v, base + CAT_HDR_DATA_START))
  }

  // ---- write_entry ----

  /** The stores of an entry's fields, all but its state. */
  function FieldOps(off: nat, e: CatalogEntry): seq<MemOp> {
    var n := Min(|e.name|, MAX_NAME_LEN);
    [Store(off + ENT_NAME_LEN, LE(n, 2))]
    + (if n > 0 then [Store(off + ENT_NAME, e.name[..n])] else [])
    + [Store(off + ENT_OFFSET, LE(e.offset, 8)), Store(off + ENT_SIZE, LE(e.size, 8)),
        Store(off + ENT_EPOCH, LE(e.epoch, 8))]
  }

  /** Store the state byte of the entry at off, durably. */
  function StateOps(off: nat, s: RegionState): seq<MemOp> {
    Persist(off + ENT_STATE, [ToU8(s)], off, CATALOG_ENTRY_SIZE)
  }

  /** Fields first, flushed; then the state, flushed: what write_entry does, in order. */
  function WriteProgram(off: nat, e: CatalogEntry): seq<MemOp> {
    FieldOps(off, e) + (FlushOps(off, CATALOG_ENTRY_SIZE) + StateOps(off, e.state))
  }

  /** An entry's bytes after its fields are stored. */
  function WithFields(b: seq<byte>, e: CatalogEntry): (r: seq<byte>)
    requires |b| == CATALOG_ENTRY_SIZE
    ensures |r| == CATALOG_ENTRY_SIZE
  {
    var n := Min(|e.name|, MAX_NAME_LEN);
    var b1 := Splice(b, ENT_NAME_LEN, LE(n, 2));
    var b2 := Splice(b1, ENT_NAME, e.name[..n]);
    Splice(Splice(Splice(b2, ENT_OFFSET, LE(e.offset, 8)), ENT_SIZE, LE(e.size, 8)), ENT_EPOCH, LE(e.epoch, 8))
  }

  lemma Word16(x: nat)
    requires x < U16_LIMIT
    ensures FromLE(LE(x, 2)) == x
  {
    WordSizes();
    DecodeEncode(x, 2);
  }

  /** The fields read back as written, the name cut to 24 bytes, under whatever state the entry has. */
  lemma FieldsReadBack(b: seq<byte>, e: CatalogEntry)
    requires |b| == CATALOG_ENTRY_SIZE
    ensures WithFields(b, e)[ENT_STATE] == b[ENT_STATE]
    ensures DecodeEntry(WithFields(b, e))
            == e.(name := e.name[..Min(|e.name|, MAX_NAME_LEN)], state := DecodeEntry(b).state)
  {
    hide LE, FromLE;
    var n := Min(|e.name|, MAX_NAME_LEN);
    var r := WithFields(b, e);
    Word16(n);
    Word64(e.offset);
    Word64(e.size);
    Word64(e.epoch);
    assert r[ENT_NAME_LEN..ENT_NAME_LEN + 2] == LE(n, 2);
    assert r[ENT_NAME..ENT_NAME + n] == e.name[..n];
    assert r[ENT_OFFSET..ENT_OFFSET + 8] == LE(e.offset, 8);
    assert r[ENT_SIZE..ENT_SIZE + 8] == LE(e.size, 8);
    assert r[ENT_EPOCH..ENT_EPOCH + 8] == LE(e.epoch, 8);
  }

  /** Storing the state byte changes the state that is read, and nothing else. */
  lemma StateReadBack(b: seq<byte>, r: seq<byte>, s: RegionState)
    requires |b| == |r| == CATALOG_ENTRY_SIZE && r[ENT_STATE] == ToU8(s) && forall i | 1 <= i < CATALOG_ENTRY_SIZE ::
            r[i] == b[i]
    ensures DecodeEntry(r) == DecodeEntry(b).(state := s)
  {
    hide FromLE;
    assert r[ENT_NAME_LEN..ENT_NAME_LEN + 2] == b[ENT_NAME_LEN..ENT_NAME_LEN + 2];
    var n := FromLE(b[ENT_NAME_LEN..ENT_NAME_LEN + 2]);
    assert n <= MAX_NAME_LEN ==> r[ENT_NAME..ENT_NAME + n] == b[ENT_NAME..ENT_NAME + n];
    assert r[ENT_OFFSET..ENT_OFFSET + 8] == b[ENT_OFFSET..ENT_OFFSET + 8];
    assert r[ENT_SIZE..ENT_SIZE + 8] == b[ENT_SIZE..ENT_SIZE + 8];
    assert r[ENT_EPOCH..ENT_EPOCH + 8] == b[ENT_EPOCH..ENT_EPOCH + 8];
  }

  /** The image after the field stores. */
  function FieldsOver(v: seq<byte>, off: nat, e: CatalogEntry): (w: seq<byte>)
    requires off + CATALOG_ENTRY_SIZE <= |v|
    ensures |w| == |v|
  {
    var n := Min(|e.name|, MAX_NAME_LEN);
    var w1 := Splice(v, off + ENT_NAME_LEN, LE(n, 2));
    var w2 := Splice(w1, off + ENT_NAME, e.name[..n]);
    var w3 := Splice(w2, off + ENT_OFFSET, LE(e.offset, 8));
    var w4 := Splice(w3, off + ENT_SIZE, LE(e.size, 8));
    Splice(w4, off + ENT_EPOCH, LE(e.epoch, 8))
  }

  lemma FieldsFit(off: nat, e: CatalogEntry, n: nat)
    requires off + CATALOG_ENTRY_SIZE <= n
    ensures AllFit(FieldOps(off, e), n) && StoresWithin(FieldOps(off, e), off + 1, off + CATALOG_ENTRY_SIZE)
  {
    hide LE;
  }

  lemma FieldsUnrolled(m: Mem, off: nat, e: CatalogEntry)
    requires |m.vol| == |m.dur| && off + CATALOG_ENTRY_SIZE <= |m.vol|
    ensures AllFit(FieldOps(off, e), |m.vol|)
    ensures ApplyAll(m, FieldOps(off, e)) == Mem(FieldsOver(m.vol, off, e), m.dur)
  {
    hide LE, Splice, ApplyAll;
    FieldsFit(off, e, |m.vol|);
    var n := Min(|e.name|, MAX_NAME_LEN);
    var ops := FieldOps(off, e);
    if n == 0 {
      NoBytes(Splice(m.vol, off + ENT_NAME_LEN, LE(n, 2)), off + ENT_NAME);
      Unroll4(m, ops);
    } else {
      Unroll5(m, ops);
    }
  }

  lemma NoBytes(v: seq<byte>, off: nat)
    requires off <= |v|
    ensures Splice(v, off, []) == v
  {
  }

  /** A store inside the 64 bytes at off, but not at their first. */
  lemma StoreInEntry(v: seq<byte>, off: nat, rel: nat, bytes: seq<byte>)
    requires off + CATALOG_ENTRY_SIZE <= |v| && 1 <= rel && rel + |bytes| <= CATALOG_ENTRY_SIZE
    ensures At(Splice(v, off + rel, bytes), off, CATALOG_ENTRY_SIZE)
            == Splice(At(v, off, CATALOG_ENTRY_SIZE), rel, bytes)
    ensures SameButBody(v, Splice(v, off + rel, bytes), off)
  {
    SliceInside(v, rel, bytes, off, CATALOG_ENTRY_SIZE);
  }

  ghost predicate SameButBody(v: seq<byte>, w: seq<byte>, off: nat) {
    |v| == |w| && forall i | 0 <= i < |v| && !(off < i < off + CATALOG_ENTRY_SIZE) :: w[i] == v[i]
  }

  lemma SameButBodyTrans(u: seq<byte>, v: seq<byte>, w: seq<byte>, off: nat)
    requires SameButBody(u, v, off) && SameButBody(v, w, off)
    ensures SameButBody(u, w, off)
  {
  }

  lemma FieldsOverAt(v: seq<byte>, off: nat, e: CatalogEntry)
    requires off + CATALOG_ENTRY_SIZE <= |v|
    ensures At(FieldsOver(v, off, e), off, CATALOG_ENTRY_SIZE) == WithFields(At(v, off, CATALOG_ENTRY_SIZE), e)
    ensures SameButBody(v, FieldsOver(v, off, e), off)
  {
    hide LE, Splice, At, SameButBody;
    var n := Min(|e.name|, MAX_NAME_LEN);
    var w1 := Splice(v, off + ENT_NAME_LEN, LE(n, 2));
    var w2 := Splice(w1, off + ENT_NAME, e.name[..n]);
    var w3 := Splice(w2, off + ENT_OFFSET, LE(e.offset, 8));
    var w4 := Splice(w3, off + ENT_SIZE, LE(e.size, 8));
    var w5 := Splice(w4, off + ENT_EPOCH, LE(e.epoch, 8));
    StoreInEntry(v, off, ENT_NAME_LEN, LE(n, 2));
    StoreInEntry(w1, off, ENT_NAME, e.name[..n]);
    StoreInEntry(w2, off, ENT_OFFSET, LE(e.offset, 8));
    StoreInEntry(w3, off, ENT_SIZE, LE(e.size, 8));
    StoreInEntry(w4, off, ENT_EPOCH, LE(e.epoch, 8));
    SameButBodyTrans(v, w1, w2, off);
    SameButBodyTrans(v, w2, w3, off);
    SameButBodyTrans(v, w3, w4, off);
    SameButBodyTrans(v, w4, w5, off);
  }

  /** The field stores turn an entry's bytes into WithFields of them, and touch nothing else, its state least of all. */
  lemma FieldsApplied(m: Mem, off: nat, e: CatalogEntry)
    requires |m.vol| == |m.dur| && off + CATALOG_ENTRY_SIZE <= |m.vol|
    ensures AllFit(FieldOps(off, e), |m.vol|)
    ensures var r := ApplyAll(m, FieldOps(off, e));
            && r.dur == m.dur && SameButBody(m.vol, r.vol, off)
            && At(r.vol, off, CATALOG_ENTRY_SIZE) == WithFields(At(m.vol, off, CATALOG_ENTRY_SIZE), e)
  {
    hide FieldOps, FieldsOver, WithFields;
    FieldsUnrolled(m, off, e);
    FieldsOverAt(m.vol, off, e);
  }

  lemma Head(m: Mem, ops: seq<MemOp>)
    requires |m.vol| == |m.dur| && AllFit(ops, |m.vol|) && ops != []
    ensures Fits(ops[0], |m.vol|) && AllFit(ops[1..], |m.vol|)
    ensures ApplyAll(m, ops) == ApplyAll(Apply(m, ops[0]), ops[1..])
  {
  }

  lemma Unroll2(m: Mem, ops: seq<MemOp>)
    requires |m.vol| == |m.dur| && AllFit(ops, |m.vol|) && |ops| == 2
    ensures ApplyAll(m, ops) == Apply(Apply(m, ops[0]), ops[1])
  {
    hide Apply;
    Head(m, ops);
    Head(Apply(m, ops[0]), ops[1..]);
  }

  lemma Unroll4(m: Mem, ops: seq<MemOp>)
    requires |m.vol| == |m.dur| && AllFit(ops, |m.vol|) && |ops| == 4
    ensures ApplyAll(m, ops) == Apply(Apply(Apply(Apply(m, ops[0]), ops[1]), ops[2]), ops[3])
  {
    hide Apply;
    assert ops == ops[..2] + ops[2..];
    ApplyAllAppend(m, ops[..2], ops[2..]);
    Unroll2(m, ops[..2]);
    Unroll2(ApplyAll(m, ops[..2]), ops[2..]);
  }

  lemma Unroll5(m: Mem, ops: seq<MemOp>)
    requires |m.vol| == |m.dur| && AllFit(ops, |m.vol|) && |ops| == 5
    ensures ApplyAll(m, ops) == Apply(Apply(Apply(Apply(Apply(m, ops[0]), ops[1]), ops[2]), ops[3]), ops[4])
  {
    hide Apply;
    Head(m, ops);
    Unroll4(Apply(m, ops[0]), ops[1..]);
  }

  // ---- Which part of the catalog a byte belongs to ----

  lemma EntriesApart(base: nat, i: nat, j: nat)
    requires i < j
    ensures EntryOffset(base, i) + CATALOG_ENTRY_SIZE <= EntryOffset(base, j)
  {
  }

  lemma EntryInside(v: seq<byte>, base: nat, i: nat)
    requires Placed(v, base) && i < MAX_REGIONS
    ensures base + CATALOG_HEADER_SIZE <= EntryOffset(base, i)
    ensures EntryOffset(base, i) + CATALOG_ENTRY_SIZE <= base + CATALOG_SIZE
    ensures EntryOffset(base, i) % 8 == 0
  {
  }

  /** Images that agree on the catalog but for bytes [lo, hi). */
  ghost predicate AgreeBut(v: seq<byte>, w: seq<byte>, base: nat, lo: nat, hi: nat) {
    |v| == |w| && forall i | base <= i < base + CATALOG_SIZE && i < |v| && !(lo <= i < hi) :: v[i] == w[i]
  }

  /** A difference within one entry shows as a different entry, nothing else. */
  lemma OneEntry(v: seq<byte>, w: seq<byte>, base: nat, slot: nat)
    requires Placed(v, base) && slot < MAX_REGIONS
    requires AgreeBut(v, w, base, EntryOffset(base, slot), EntryOffset(base, slot) + CATALOG_ENTRY_SIZE)
    ensures Placed(w, base)
    ensures View(w, base) == View(v,
            base).(entries := View(v, base).entries[slot := DecodeEntry(EntryBytes(w, base, slot))])
  {
    hide DecodeEntry, FromLE;
    EntryInside(v, base, slot);
    SameWordIn(v, w, base, base + CAT_HDR_REGION_COUNT, EntryOffset(base, slot), EntryOffset(base, slot)
        + CATALOG_ENTRY_SIZE);
    SameWordIn(v, w, base, base + CAT_HDR_DATA_START, EntryOffset(base, slot), EntryOffset(base, slot)
        + CATALOG_ENTRY_SIZE);
    forall i: nat | i < MAX_REGIONS && i != slot ensures EntryBytes(w, base, i) == EntryBytes(v, base, i) {
      SameEntryIn(v, w, base, i, slot);
    }
    var es := View(v, base).entries[slot := DecodeEntry(EntryBytes(w, base, slot))];
    assert View(w, base).entries == es;
  }

  lemma SameEntryIn(v: seq<byte>, w: seq<byte>, base: nat, i: nat, slot: nat)
    requires Placed(v, base) && Placed(w, base) && i < MAX_REGIONS && slot < MAX_REGIONS && i != slot
    requires AgreeBut(v, w, base, EntryOffset(base, slot), EntryOffset(base, slot) + CATALOG_ENTRY_SIZE)
    ensures EntryBytes(w, base, i) == EntryBytes(v, base, i)
  {
    EntryInside(v, base, i);
    if i < slot {
      EntriesApart(base, i, slot);
    } else {
      EntriesApart(base, slot, i);
    }
  }

  lemma SameWordIn(v: seq<byte>, w: seq<byte>, base: nat, off: nat, lo: nat, hi: nat)
    requires AgreeBut(v, w, base, lo, hi) && base <= off && off + 8 <= base + CATALOG_SIZE && off + 8 <= |v|
    requires off + 8 <= lo || hi <= off
    ensures WordAt(v, off) == WordAt(w, off)
  {
    assert v[off..off + 8] == w[off..off + 8];
  }

  /** A difference within the count word shows as a different count, nothing else. */
  lemma OnlyCount(v: seq<byte>, w: seq<byte>, base: nat)
    requires Placed(v, base)
    requires AgreeBut(v, w, base, base + CAT_HDR_REGION_COUNT, base + CAT_HDR_REGION_COUNT + 8)
    ensures Placed(w, base)
    ensures View(w, base) == View(v, base).(count := WordAt(w, base + CAT_HDR_REGION_COUNT))
  {
    hide DecodeEntry, FromLE;
    SameWordIn(v, w, base, base + CAT_HDR_DATA_START, base + CAT_HDR_REGION_COUNT, base + CAT_HDR_REGION_COUNT + 8);
    forall i: nat | i < MAX_REGIONS ensures EntryBytes(w, base, i) == EntryBytes(v, base, i) {
      EntryInside(v, base, i);
    }
    assert View(w, base).entries == View(v, base).entries;
  }

  // ---- write_entry, then read_entry ----

  /** Memory after write_entry: the entry's fields and state are in place, durable, and no other byte is touched. */
  lemma WriteApplied(m: Mem, off: nat, e: CatalogEntry)
    requires |m.vol| == |m.dur| && off + CATALOG_ENTRY_SIZE <= |m.vol|
    ensures AllFit(WriteProgram(off, e), |m.vol|)
    ensures var r := ApplyAll(m, WriteProgram(off, e));
            && At(r.vol, off, CATALOG_ENTRY_SIZE)
                == WithFields(At(m.vol, off, CATALOG_ENTRY_SIZE), e)[ENT_STATE := ToU8(e.state)]
            && At(r.dur, off, CATALOG_ENTRY_SIZE) == At(r.vol, off, CATALOG_ENTRY_SIZE)
            && forall i | 0 <= i < |m.vol| && !(off <= i < off + CATALOG_ENTRY_SIZE) :: r.vol[i] == m.vol[i]
  {
    hide FieldOps, FlushOps, WithFields, ApplyAll;
    var f, l, t := FieldOps(off, e), FlushOps(off, CATALOG_ENTRY_SIZE), StateOps(off, e.state);
    FieldsApplied(m, off, e);
    PersistFits(off, [ToU8(e.state)], off, CATALOG_ENTRY_SIZE, |m.vol|);
    var y := ApplyAll(m, f);
    FlushCoversExactly(y, off, CATALOG_ENTRY_SIZE);
    var z := ApplyAll(y, l);
    StateApplied(z, off, e.state);
    ApplyAllAppend(y, l, t);
    ApplyAllAppend(m, f, l + t);
  }

  lemma StateApplied(z: Mem, off: nat, s: RegionState)
    requires |z.vol| == |z.dur| && off + CATALOG_ENTRY_SIZE <= |z.vol|
    ensures AllFit(StateOps(off, s), |z.vol|)
    ensures var r := ApplyAll(z, StateOps(off, s));
            && r.vol == z.vol[off := ToU8(s)]
            && At(r.dur, off, CATALOG_ENTRY_SIZE) == At(r.vol, off, CATALOG_ENTRY_SIZE)
  {
    hide FlushOps, At, ApplyAll;
    PersistFits(off, [ToU8(s)], off, CATALOG_ENTRY_SIZE, |z.vol|);
    var op, b := Store(off + ENT_STATE, [ToU8(s)]), FlushOps(off, CATALOG_ENTRY_SIZE);
    var prog := StateOps(off, s);
    assert prog[0] == op && prog[1..] == b;
    Head(z, prog);
    FlushedAt(Apply(z, op), off);
  }

  lemma FlushedAt(y: Mem, off: nat)
    requires |y.vol| == |y.dur| && off + CATALOG_ENTRY_SIZE <= |y.vol|
    ensures var r := FlushRange(y, off, CATALOG_ENTRY_SIZE);
            && |r.dur| == |r.vol| && r.vol == y.vol
            && At(r.dur, off, CATALOG_ENTRY_SIZE) == At(r.vol, off, CATALOG_ENTRY_SIZE)
  {
    hide FlushOps, ApplyAll;
    FlushCoversExactly(y, off, CATALOG_ENTRY_SIZE);
    forall i | off <= i < off + CATALOG_ENTRY_SIZE ensures Meets(i, off, CATALOG_ENTRY_SIZE) {
      MeetsByLine(i, off, CATALOG_ENTRY_SIZE);
      OwnLine(i, off, CATALOG_ENTRY_SIZE);
    }
  }

  /** read_entry after write_entry returns the entry, for names of at most 24 bytes; every other entry and the header
      read as before. */
  lemma ReadAfterWrite(m: Mem, base: nat, slot: nat, e: CatalogEntry)
    requires |m.vol| == |m.dur| && Placed(m.vol, base) && slot < MAX_REGIONS && |e.name| <= MAX_NAME_LEN
    ensures AllFit(WriteProgram(EntryOffset(base, slot), e), |m.vol|)
    ensures var r := ApplyAll(m, WriteProgram(EntryOffset(base, slot), e));
            Placed(r.vol, base) && View(r.vol, base)
                == View(m.vol, base).(entries := View(m.vol, base).entries[slot := e])
  {
    hide WriteProgram, WithFields, DecodeEntry, View;
    var off := EntryOffset(base, slot);
    EntryInside(m.vol, base, slot);
    WriteApplied(m, off, e);
    var r := ApplyAll(m, WriteProgram(off, e));
    OneEntry(m.vol, r.vol, base, slot);
    var b := WithFields(EntryBytes(m.vol, base, slot), e);
    assert EntryBytes(r.vol, base, slot) == b[ENT_STATE := ToU8(e.state)];
    FieldsReadBack(EntryBytes(m.vol, base, slot), e);
    StateReadBack(b, b[ENT_STATE := ToU8(e.state)], e.state);
    assert e.name[..|e.name|] == e.name;
  }

  // ---- The methods ----

  method LoadField(media: Backend, base: nat, index: nat, field: nat) returns (x: u64)
    requires Placed(media.vol[..], base) && index < MAX_REGIONS && field % 8 == 0 && field + 8 <= CATALOG_ENTRY_SIZE
    ensures x == U64At(EntryBytes(media.vol[..], base, index), field)
  {
    var off := EntryOffset(base, index);
    EntryInside(media.vol[..], base, index);
    SubSlice(media.vol[..], off, CATALOG_ENTRY_SIZE, field, 8);
    Aligned(off, field);
    x := media.LoadU64(off + field);
    assert media.vol[off + field..off + field + 8] == media.vol[..][off + field..off + field + 8];
  }

  method LoadPart(media: Backend, base: nat, index: nat, lo: nat, n: nat) returns (b: seq<byte>)
    requires Placed(media.vol[..], base) && index < MAX_REGIONS && lo + n <= CATALOG_ENTRY_SIZE
    ensures b == EntryBytes(media.vol[..], base, index)[lo..lo + n]
  {
    var off := EntryOffset(base, index);
    EntryInside(media.vol[..], base, index);
    SubSlice(media.vol[..], off, CATALOG_ENTRY_SIZE, lo, n);
    b := media.Read(off + lo, n);
    assert b == media.vol[..][off + lo..off + lo + n];
  }

  method LoadState(media: Backend, base: nat, index: nat) returns (x: byte)
    requires Placed(media.vol[..], base) && index < MAX_REGIONS
    ensures x == EntryBytes(media.vol[..], base, index)[ENT_STATE]
  {
    EntryInside(media.vol[..], base, index);
    x := media.LoadU8(EntryOffset(base, index) + ENT_STATE);
  }

  /** read_entry. */
  method ReadEntry(media: Backend, base: nat, index: nat) returns (e: CatalogEntry)
    requires Placed(media.vol[..], base) && index < MAX_REGIONS
    ensures e == View(media.vol[..], base).entries[index]
  {
    hide EntryBytes, U64At;
    var stateByte := LoadState(media, base, index);
    var state := FromU8(stateByte);
    var lenBytes := LoadPart(media, base, index, ENT_NAME_LEN, 2);
    var nameLen := FromLE(lenBytes);
    var name := [];
    if nameLen > 0 && nameLen <= MAX_NAME_LEN {
      name := LoadPart(media, base, index, ENT_NAME, nameLen);
    }
    var regionOffset := LoadField(media, base, index, ENT_OFFSET);
    var size := LoadField(media, base, index, ENT_SIZE);
    var epoch := LoadField(media, base, index, ENT_EPOCH);
    e := CatalogEntry(if state.Some? then state.value else Free, name, regionOffset, size, epoch);
  }

  /** Store an entry's fields, all but its state. */
  method WriteFields(media: Backend, off: nat, e: CatalogEntry)
    requires media.Valid() && off % 8 == 0 && off + CATALOG_ENTRY_SIZE <= media.vol.Length
    modifies media, media.vol
    ensures Did(media, old(media.M()), old(media.trace), FieldOps(off, e))
  {
    hide LE, Did;
    Aligned(off, ENT_OFFSET);
    Aligned(off, ENT_SIZE);
    Aligned(off, ENT_EPOCH);
    ghost var m, start, done: seq<MemOp> := media.M(), media.trace, [];
    NothingDone(media);
    var nameLen := Min(|e.name|, MAX_NAME_LEN);
    done := WriteStep(media, off + ENT_NAME_LEN, LE(nameLen, 2), m, start, done);
    if nameLen > 0 {
      done := WriteStep(media, off + ENT_NAME, e.name[..nameLen], m, start, done);
    }
    done := StoreStep(media, off + ENT_OFFSET, e.offset, m, start, done);
    done := StoreStep(media, off + ENT_SIZE, e.size, m, start, done);
    done := StoreStep(media, off + ENT_EPOCH, e.epoch, m, start, done);
    assert done == FieldOps(off, e);
  }

  /** Store the state of the entry at off and flush the entry. */
  method StateStep(media: Backend, off: nat, s: RegionState, ghost m: Mem, ghost start: seq<MemOp>,
                   ghost done: seq<MemOp>)
    returns (ghost doneNow: seq<MemOp>)
    requires off + CATALOG_ENTRY_SIZE <= media.vol.Length && Did(media, m, start, done)
    modifies media, media.vol
    ensures doneNow == done + StateOps(off, s) && Did(media, m, start, doneNow)
  {
    hide Did, FlushOps;
    doneNow := WriteStep(media, off + ENT_STATE, [ToU8(s)], m, start, done);
    doneNow := FlushStep(media, off, CATALOG_ENTRY_SIZE, m, start, doneNow);
    assert doneNow == done + StateOps(off, s);
  }

  /** write_entry. */
  method WriteEntry(media: Backend, base: nat, index: nat, e: CatalogEntry)
    requires media.Valid() && Placed(media.vol[..], base) && index < MAX_REGIONS
    modifies media, media.vol
    ensures Did(media, old(media.M()), old(media.trace), WriteProgram(EntryOffset(base, index), e))
  {
    hide Did, FlushOps, FieldOps, StateOps;
    var off := EntryOffset(base, index);
    EntryInside(media.vol[..], base, index);
    ghost var m, start := media.M(), media.trace;
    WriteFields(media, off, e);
    ghost var done := FlushStep(media, off, CATALOG_ENTRY_SIZE, m, start, FieldOps(off, e));
    done := StateStep(media, off, e.state, m, start, done);
    assert done == WriteProgram(off, e);
  }
}
