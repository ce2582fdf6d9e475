/** The allocator's calls as programs of stores and flushes, cut short anywhere by a crash, with any lines evicted. */
module AllocatorCrash {
  import opened Bytes
  import opened Layout
  import opened Media
  import opened Recovery
  import opened CrashRuns
  import opened Catalog
  import opened Regions

  /** The whole catalog is as durable as visible. */
  ghost predicate Settled(m: Mem, base: nat) {
    |m.vol| == |m.dur| && Placed(m.vol, base) && forall i | base <= i < base + CATALOG_SIZE :: m.dur[i] == m.vol[i]
  }

  // ---- The programs ----

  function CountOps(base: nat, x: u64): seq<MemOp> {
    Persist(base + CAT_HDR_REGION_COUNT, LE(x, 8), base, CATALOG_HEADER_SIZE)
  }

  function CountOpsIf(base: nat, x: Option<u64>): seq<MemOp> {
    if x.Some? then CountOps(base, x.value) else []
  }

  /** Two state changes of one entry, then the count if it changes: the end of create, and all of free. */
  function TwoStates(base: nat, slot: nat, first: RegionState, second: RegionState, count: Option<u64>): seq<MemOp> {
    StateOps(EntryOffset(base, slot), first) + (StateOps(EntryOffset(base, slot), second) + CountOpsIf(base, count))
  }

  function CreateProgram(base: nat, h: RegionHandle, count: u64): seq<MemOp> {
    var off := EntryOffset(base, h.slot);
    FieldOps(off, NewEntry(h, Allocating))
    + (FlushOps(off, CATALOG_ENTRY_SIZE) + TwoStates(base, h.slot, Allocating, Active, Some(WrapAdd(count, 1))))
  }

  function FreeProgram(base: nat, slot: nat, count: u64): seq<MemOp> {
    TwoStates(base, slot, Freeing, Free, if count > 0 then Some(count - 1) else None)
  }

  function RecoverProgram(base: nat, es: Entries, n: nat): seq<MemOp>
    requires n <= |es|
  {
    if n == 0 then []
    else
      var last := if Unfinished(es[n - 1]) then StateOps(EntryOffset(base, n - 1), Free) else [];
      RecoverProgram(base, es, n - 1) + last
  }

  /** What a call does to memory, in order. */
  function ProgramOf(p: Pool, c: Cat, call: Call): seq<MemOp>
    requires p.Ok()
  {
    match call
    case Create(name, size) =>
      var r := CreateResult(p, c, name, size);
      if r.Ok? then CreateProgram(p.base, r.value, c.count) else []
    case FreeRegion(name) =>
      var r := FindFrom(c.entries, name, 0);
      if r.Some? then FreeProgram(p.base, r.value, c.count) else []
    case Recover => RecoverProgram(p.base, c.entries, |c.entries|)
  }

  lemma EntryRoom(m: Mem, base: nat, slot: nat)
    requires Placed(m.vol, base) && slot < MAX_REGIONS
    ensures base + CATALOG_HEADER_SIZE <= EntryOffset(base, slot)
    ensures EntryOffset(base, slot) + CATALOG_ENTRY_SIZE <= base + CATALOG_SIZE <= |m.vol|
  {
  }

  // ---- One durable state change ----

  lemma StateFits(m: Mem, base: nat, slot: nat, s: RegionState)
    requires Placed(m.vol, base) && slot < MAX_REGIONS
    ensures var off := EntryOffset(base, slot);
            AllFit(StateOps(off, s), |m.vol|) && StoresWithin(StateOps(off, s), off, off + 1)
  {
    EntryRoom(m, base, slot);
    PersistFits(EntryOffset(base, slot), [ToU8(s)], EntryOffset(base, slot), CATALOG_ENTRY_SIZE, |m.vol|);
  }

  /** An image equal to v on the catalog, but for the state byte of one entry, which is v's or names s. */
  lemma StateImage(v: seq<byte>, w: seq<byte>, base: nat, slot: nat, s: RegionState)
    requires Placed(v, base) && slot < MAX_REGIONS
    requires AgreeBut(v, w, base, EntryOffset(base, slot), EntryOffset(base, slot) + 1)
    ensures Placed(w, base)
    ensures w[EntryOffset(base, slot)] == v[EntryOffset(base, slot)] ==> View(w, base) == View(v, base)
    ensures w[EntryOffset(base, slot)] == ToU8(s) ==> View(w, base) == SetState(View(v, base), slot, s)
  {
    hide DecodeEntry;
    EntryInside(v, base, slot);
    OneEntry(v, w, base, slot);
    var off := EntryOffset(base, slot);
    if w[off] == v[off] {
      assert EntryBytes(w, base, slot) == EntryBytes(v, base, slot);
    }
    if w[off] == ToU8(s) {
      StateReadBack(EntryBytes(v, base, slot), EntryBytes(w, base, slot), s);
    }
  }

  lemma FrameAll(m: Mem, base: nat, prog: seq<MemOp>, run: seq<MemOp>, k: nat, lo: nat, hi: nat)
    requires Settled(m, base) && Runs(prog, run, k) && AllFit(prog, |m.vol|) && StoresWithin(prog, lo, hi)
    ensures var x := RunMem(m, prog, run, k);
            AgreeBut(m.vol, x.vol, base, lo, hi) && AgreeBut(m.vol, x.dur, base, lo, hi)
  {
    var x := RunMem(m, prog, run, k);
    forall i | base <= i < base + CATALOG_SIZE && !(lo <= i < hi) ensures x.vol[i] == m.vol[i] == x.dur[i] {
      RunFrame(m, prog, run, k, lo, hi, i);
    }
  }

  /** During a state change the durable catalog is the old one or the new one; after it, memory is settled on the
      new. */
  lemma StateRun(m: Mem, base: nat, slot: nat, s: RegionState, run: seq<MemOp>, k: nat)
    requires Settled(m, base) && slot < MAX_REGIONS && Runs(StateOps(EntryOffset(base, slot), s), run, k)
    ensures AllFit(StateOps(EntryOffset(base, slot), s), |m.vol|)
    ensures var prog := StateOps(EntryOffset(base, slot), s);
            var x := RunMem(m, prog, run, k);
            && Placed(x.dur, base) && View(x.dur, base) in {View(m.vol, base), SetState(View(m.vol, base), slot, s)}
            && (k == |prog| ==> Settled(x, base) && View(x.vol, base) == SetState(View(m.vol, base), slot, s))
  {
    hide View, StateOps, At;
    var off := EntryOffset(base, slot);
    var x := StateRunBytes(m, base, slot, s, run, k);
    EntryRoom(m, base, slot);
    StateImage(m.vol, x.dur, base, slot, s);
    StateImage(m.vol, x.vol, base, slot, s);
  }

  lemma StateRunBytes(m: Mem, base: nat, slot: nat, s: RegionState, run: seq<MemOp>, k: nat) returns (x: Mem)
    requires Settled(m, base) && slot < MAX_REGIONS && Runs(StateOps(EntryOffset(base, slot), s), run, k)
    ensures AllFit(StateOps(EntryOffset(base, slot), s), |m.vol|)
    ensures x == RunMem(m, StateOps(EntryOffset(base, slot), s), run, k)
    ensures var off := EntryOffset(base, slot);
            && off + 1 <= |m.vol| && AgreeBut(m.vol, x.vol, base, off, off + 1)
            && AgreeBut(m.vol, x.dur, base, off, off + 1)
            && (x.dur[off] == m.vol[off] || x.dur[off] == ToU8(s))
            && (k == |StateOps(off, s)| ==> x.dur[off] == x.vol[off] == ToU8(s))
  {
    var off := EntryOffset(base, slot);
    EntryRoom(m, base, slot);
    StateFits(m, base, slot, s);
    var prog := StateOps(off, s);
    x := RunMem(m, prog, run, k);
    FrameAll(m, base, prog, run, k, off, off + 1);
    assert m.dur[off] == m.vol[off];
    OneByte(m, off);
    PersistRun(m, off, [ToU8(s)], off, CATALOG_ENTRY_SIZE, run, k);
    assert At(x.vol, off, 1)[0] == x.vol[off] && At(x.dur, off, 1)[0] == x.dur[off]
        && At(m.vol, off, 1)[0] == m.vol[off];
  }

  lemma OneByte(m: Mem, off: nat)
    requires |m.vol| == |m.dur| && off < |m.vol| && m.dur[off] == m.vol[off]
    ensures At(m.dur, off, 1) == At(m.vol, off, 1)
  {
  }

  // ---- The durable count ----

  lemma CountFits(m: Mem, base: nat, x: u64)
    requires Placed(m.vol, base)
    ensures AllFit(CountOps(base, x), |m.vol|)
    ensures StoresWithin(CountOps(base, x), base + CAT_HDR_REGION_COUNT, base + CAT_HDR_REGION_COUNT + 8)
  {
    PersistFits(base + CAT_HDR_REGION_COUNT, LE(x, 8), base, CATALOG_HEADER_SIZE, |m.vol|);
  }

  lemma AtIsWord(v: seq<byte>, off: nat, x: u64)
    requires off + 8 <= |v|
    ensures At(v, off, 8) == LE(x, 8) ==> WordAt(v, off) == x
  {
    Word64(x);
  }

  lemma SameAtSameWord(v: seq<byte>, w: seq<byte>, off: nat)
    requires off + 8 <= |v| && off + 8 <= |w| && At(v, off, 8) == At(w, off, 8)
    ensures WordAt(v, off) == WordAt(w, off)
  {
  }

  lemma CountRun(m: Mem, base: nat, n: u64, run: seq<MemOp>, k: nat)
    requires Settled(m, base) && Runs(CountOps(base, n), run, k)
    ensures AllFit(CountOps(base, n), |m.vol|)
    ensures var x := RunMem(m, CountOps(base, n), run, k);
            && Placed(x.dur, base) && View(x.dur, base) in {View(m.vol, base), View(m.vol, base).(count := n)}
            && (k == |CountOps(base, n)| ==> Settled(x, base) && View(x.vol, base) == View(m.vol, base).(count := n))
  {
    hide View, CountOps, At, WordAt, RunMem;
    var off := base + CAT_HDR_REGION_COUNT;
    var x := CountRunBytes(m, base, n, run, k);
    OnlyCount(m.vol, x.dur, base);
    OnlyCount(m.vol, x.vol, base);
    ViewCount(m.vol, base);
    AtIsWord(x.dur, off, n);
    AtIsWord(x.vol, off, n);
    if At(x.dur, off, 8) == At(m.vol, off, 8) {
      SameAtSameWord(x.dur, m.vol, off);
    }
    if k == |CountOps(base, n)| {
      SettledAgain(m, x, base, off, 8);
    }
  }

  lemma ViewCount(v: seq<byte>, base: nat)
    requires Placed(v, base)
    ensures View(v, base).count == WordAt(v, base + CAT_HDR_REGION_COUNT)
  {
    hide DecodeEntry;
  }

  lemma SettledAgain(m: Mem, x: Mem, base: nat, off: nat, n: nat)
    requires Settled(m, base) && Sized(x, |m.vol|) && off + n <= |m.vol|
    requires AgreeBut(m.vol, x.vol, base, off, off + n) && AgreeBut(m.vol, x.dur, base, off, off + n)
    requires At(x.dur, off, n) == At(x.vol, off, n)
    ensures Settled(x, base)
  {
    forall i | base <= i < base + CATALOG_SIZE ensures x.dur[i] == x.vol[i] {
      if off <= i < off + n {
        assert At(x.dur, off, n)[i - off] == At(x.vol, off, n)[i - off];
      }
    }
  }

  lemma CountRunBytes(m: Mem, base: nat, n: u64, run: seq<MemOp>, k: nat) returns (x: Mem)
    requires Settled(m, base) && Runs(CountOps(base, n), run, k)
    ensures AllFit(CountOps(base, n), |m.vol|)
    ensures x == RunMem(m, CountOps(base, n), run, k)
    ensures var off := base + CAT_HDR_REGION_COUNT;
            && off + 8 <= |m.vol| && AgreeBut(m.vol, x.vol, base, off, off + 8)
            && AgreeBut(m.vol, x.dur, base, off, off + 8)
            && At(x.dur, off, 8) in {At(m.vol, off, 8), LE(n, 8)}
            && (k == |CountOps(base, n)| ==> At(x.dur, off, 8) == At(x.vol, off, 8) == LE(n, 8))
  {
    hide RunMem, LE, NumLines, FlushOps;
    var off := base + CAT_HDR_REGION_COUNT;
    CountFits(m, base, n);
    var prog := CountOps(base, n);
    x := RunMem(m, prog, run, k);
    FrameAll(m, base, prog, run, k, off, off + 8);
    assert At(m.dur, off, 8) == At(m.vol, off, 8) by {
      assert forall i | off <= i < off + 8 :: m.dur[i] == m.vol[i];
    }
    CountLine(base);
    PersistRun(m, off, LE(n, 8), base, CATALOG_HEADER_SIZE, run, k);
  }

  /** The count does not straddle lines, and the header's flush reaches its line. */
  lemma CountLine(base: nat)
    requires base % 8 == 0
    ensures var off := base + CAT_HDR_REGION_COUNT;
            && off / CACHELINE == (off + 7) / CACHELINE
            && off / CACHELINE - base / CACHELINE < NumLines(base, CATALOG_HEADER_SIZE)
  {
    AlignedWord(base + CAT_HDR_REGION_COUNT);
    OwnLine(base + CAT_HDR_REGION_COUNT, base, CATALOG_HEADER_SIZE);
  }

  // ---- Two state changes and a count ----

  function CountIf(c: Cat, n: Option<u64>): Cat { if n.Some? then c.(count := n.value) else c }

  lemma CountIfRun(m: Mem, base: nat, n: Option<u64>, run: seq<MemOp>, k: nat)
    requires Settled(m, base) && Runs(CountOpsIf(base, n), run, k)
    ensures AllFit(CountOpsIf(base, n), |m.vol|)
    ensures var x := RunMem(m, CountOpsIf(base, n), run, k);
            && Placed(x.dur, base) && View(x.dur, base) in {View(m.vol, base), CountIf(View(m.vol, base), n)}
            && (k == |CountOpsIf(base, n)| ==> Settled(x, base) && View(x.vol, base) == CountIf(View(m.vol, base), n))
  {
    hide View, CountOps;
    if n.Some? {
      CountRun(m, base, n.value, run, k);
    } else {
      IdleRun(m, base, run, k);
    }
  }

  /** Evictions alone leave a settled catalog as it is. */
  lemma IdleRun(m: Mem, base: nat, run: seq<MemOp>, k: nat)
    requires Settled(m, base) && Runs([], run, k)
    ensures k == 0 && Settled(RunMem(m, [], run, k), base)
    ensures View(RunMem(m, [], run, k).vol, base) == View(m.vol, base) == View(RunMem(m, [], run, k).dur, base)
  {
    hide View;
    RunsBound([], run, k);
    FrameAll(m, base, [], run, k, base, base);
    var x := RunMem(m, [], run, k);
    assert AgreeBut(m.vol, x.vol, base, base + CAT_HDR_REGION_COUNT, base + CAT_HDR_REGION_COUNT + 8);
    SameView(m.vol, x.vol, base);
    SameView(m.vol, x.dur, base);
  }

  lemma SameView(v: seq<byte>, w: seq<byte>, base: nat)
    requires Placed(v, base) && AgreeBut(v, w, base, base, base)
    ensures Placed(w, base) && View(v, base) == View(w, base)
  {
    hide DecodeEntry, WordAt;
    OnlyCount(v, w, base);
    SameWordIn(v, w, base, base + CAT_HDR_REGION_COUNT, base, base);
  }

  lemma StateThenCount(m: Mem, base: nat, slot: nat, s: RegionState, n: Option<u64>, run: seq<MemOp>, k: nat)
    requires Settled(m, base) && slot < MAX_REGIONS
    requires Runs(StateOps(EntryOffset(base, slot), s) + CountOpsIf(base, n), run, k)
    ensures var prog := StateOps(EntryOffset(base, slot), s) + CountOpsIf(base, n);
            AllFit(prog, |m.vol|)
            && var x := RunMem(m, prog, run, k);
               var c := View(m.vol, base);
               && Placed(x.dur, base)
               && View(x.dur, base) in {c, SetState(c, slot, s), CountIf(SetState(c, slot, s), n)}
               && (k == |prog| ==> Settled(x, base) && View(x.vol, base) == CountIf(SetState(c, slot, s), n))
  {
    hide View, StateOps, CountOpsIf, RunMem, SetState;
    var a, b := StateOps(EntryOffset(base, slot), s), CountOpsIf(base, n);
    StateFits(m, base, slot, s);
    CountIfFits(m, base, n);
    var cut := InTwo(m, a, b, run, k);
    if k < |a| {
      StateRun(m, base, slot, s, run, k);
    } else {
      StateRun(m, base, slot, s, run[..cut], |a|);
      CountIfRun(RunMem(m, a, run[..cut], |a|), base, n, run[cut..], k - |a|);
    }
  }

  lemma CountIfFits(m: Mem, base: nat, n: Option<u64>)
    requires Placed(m.vol, base)
    ensures AllFit(CountOpsIf(base, n), |m.vol|)
  {
    if n.Some? {
      CountFits(m, base, n.value);
    }
  }

  lemma TwoStatesFit(m: Mem, base: nat, slot: nat, s: RegionState, t: RegionState, n: Option<u64>)
    requires Placed(m.vol, base) && slot < MAX_REGIONS
    ensures AllFit(TwoStates(base, slot, s, t, n), |m.vol|)
    ensures AllFit(StateOps(EntryOffset(base, slot), t) + CountOpsIf(base, n), |m.vol|)
  {
    hide StateOps, CountOpsIf;
    StateFits(m, base, slot, s);
    StateFits(m, base, slot, t);
    CountIfFits(m, base, n);
  }

  lemma StateTwice(c: Cat, slot: nat, s: RegionState, t: RegionState)
    requires slot < |c.entries|
    ensures SetState(SetState(c, slot, s), slot, t) == SetState(c, slot, t)
  {
  }

  lemma TwoStatesRun(m: Mem, base: nat, slot: nat, s: RegionState, t: RegionState, n: Option<u64>, run: seq<MemOp>,
                     k: nat)
    requires Settled(m, base) && slot < MAX_REGIONS && Runs(TwoStates(base, slot, s, t, n), run, k)
    ensures var prog := TwoStates(base, slot, s, t, n);
            AllFit(prog, |m.vol|)
            && var x := RunMem(m, prog, run, k);
               var c := View(m.vol, base);
               && Placed(x.dur, base)
               && View(x.dur, base) in {c, SetState(c, slot, s), SetState(c, slot, t), CountIf(SetState(c, slot, t), n)}
               && (k == |prog| ==> Settled(x, base) && View(x.vol, base) == CountIf(SetState(c, slot, t), n))
  {
    hide View, StateOps, CountOpsIf, RunMem, SetState;
    StateTwice(View(m.vol, base), slot, s, t);
    var a, b := StateOps(EntryOffset(base, slot), s), StateOps(EntryOffset(base, slot), t) + CountOpsIf(base, n);
    StateFits(m, base, slot, s);
    TwoStatesFit(m, base, slot, s, t, n);
    var cut := InTwo(m, a, b, run, k);
    if k < |a| {
      StateRun(m, base, slot, s, run, k);
    } else {
      StateRun(m, base, slot, s, run[..cut], |a|);
      StateThenCount(RunMem(m, a, run[..cut], |a|), base, slot, t, n, run[cut..], k - |a|);
    }
  }

  // ---- The fields of a free entry ----

  /** Memory settled and as it was, but for the body of one entry. */
  ghost predicate BodyDirty(m: Mem, x: Mem, base: nat, slot: nat) {
    && Sized(x, |m.vol|)
    && AgreeBut(m.vol, x.vol, base, EntryOffset(base, slot) + 1, EntryOffset(base, slot) + CATALOG_ENTRY_SIZE)
    && AgreeBut(m.vol, x.dur, base, EntryOffset(base, slot) + 1, EntryOffset(base, slot) + CATALOG_ENTRY_SIZE)
  }

  /** What readers make of an image in which only the body of one entry differs: that entry, with its state. */
  lemma BodyImage(v: seq<byte>, w: seq<byte>, base: nat, slot: nat)
    requires Placed(v, base) && slot < MAX_REGIONS
    requires AgreeBut(v, w, base, EntryOffset(base, slot) + 1, EntryOffset(base, slot) + CATALOG_ENTRY_SIZE)
    ensures Placed(w, base) && View(w, base) == SetEntry(View(v, base), slot, DecodeEntry(EntryBytes(w, base, slot)))
    ensures View(w, base).entries[slot].state == View(v, base).entries[slot].state
  {
    OneEntry(v, w, base, slot);
    EntryInside(v, base, slot);
    SameState(EntryBytes(v, base, slot), EntryBytes(w, base, slot));
  }

  lemma SameState(a: seq<byte>, b: seq<byte>)
    requires |a| == |b| == CATALOG_ENTRY_SIZE && a[ENT_STATE] == b[ENT_STATE]
    ensures DecodeEntry(a).state == DecodeEntry(b).state
  {
  }

  lemma FieldsRun(m: Mem, base: nat, slot: nat, e: CatalogEntry, run: seq<MemOp>, k: nat)
    requires Settled(m, base) && slot < MAX_REGIONS && Runs(FieldOps(EntryOffset(base, slot), e), run, k)
    ensures AllFit(FieldOps(EntryOffset(base, slot), e), |m.vol|)
    ensures var x := RunMem(m, FieldOps(EntryOffset(base, slot), e), run, k);
            && BodyDirty(m, x, base, slot)
            && (k == |FieldOps(EntryOffset(base, slot), e)| ==>
                  EntryBytes(x.vol, base, slot) == WithFields(EntryBytes(m.vol, base, slot), e))
  {
    hide FieldOps, RunMem, WithFields;
    var off := EntryOffset(base, slot);
    var prog := FieldOps(off, e);
    EntryRoom(m, base, slot);
    FieldsFit(off, e, |m.vol|);
    FrameAll(m, base, prog, run, k, off + 1, off + CATALOG_ENTRY_SIZE);
    if k == |prog| {
      RunVol(m, prog, run, k);
      assert prog[..k] == prog;
      FieldsApplied(m, off, e);
    }
  }

  lemma FlushBodyRun(m: Mem, y: Mem, base: nat, slot: nat, run: seq<MemOp>, k: nat)
    requires Settled(m, base) && slot < MAX_REGIONS && BodyDirty(m, y, base, slot)
    requires Runs(FlushOps(EntryOffset(base, slot), CATALOG_ENTRY_SIZE), run, k)
    ensures var prog := FlushOps(EntryOffset(base, slot), CATALOG_ENTRY_SIZE);
            AllFit(prog, |m.vol|)
            && var x := RunMem(y, prog, run, k);
               && BodyDirty(m, x, base, slot) && x.vol == y.vol
               && (k == |prog| ==> Settled(x, base))
  {
    hide RunMem, FlushOps;
    var off := EntryOffset(base, slot);
    var prog := FlushOps(off, CATALOG_ENTRY_SIZE);
    assert AllFit(prog, |m.vol|);
    var x := RunMem(y, prog, run, k);
    FlushVol(y, off, CATALOG_ENTRY_SIZE, run, k);
    forall i | base <= i < base + CATALOG_SIZE
      ensures !(off + 1 <= i < off + CATALOG_ENTRY_SIZE) ==> m.vol[i] == x.dur[i]
      ensures k == |prog| ==> x.dur[i] == x.vol[i]
    {
      FlushRun(y, off, CATALOG_ENTRY_SIZE, run, k, i);
      if k == |prog| && off <= i < off + CATALOG_ENTRY_SIZE {
        FlushRunDone(y, off, CATALOG_ENTRY_SIZE, run, i);
      }
    }
  }

  lemma FlushVol(y: Mem, off: nat, len: nat, run: seq<MemOp>, k: nat)
    requires |y.vol| == |y.dur| && Runs(FlushOps(off, len), run, k) && 0 < |y.vol|
    ensures AllFit(FlushOps(off, len), |y.vol|) && RunMem(y, FlushOps(off, len), run, k).vol == y.vol
  {
    FlushRun(y, off, len, run, k, 0);
  }

  // ---- create ----

  /** During the first half of create the durable catalog differs in one free entry only; after it the entry's fields
      are settled, under its old state. */
  lemma FillRun(m: Mem, base: nat, slot: nat, e: CatalogEntry, run: seq<MemOp>, k: nat)
    requires Settled(m, base) && slot < MAX_REGIONS && |e.name| <= MAX_NAME_LEN
    requires Runs(FieldOps(EntryOffset(base, slot), e) + FlushOps(EntryOffset(base, slot), CATALOG_ENTRY_SIZE), run, k)
    ensures var prog := FieldOps(EntryOffset(base, slot), e) + FlushOps(EntryOffset(base, slot), CATALOG_ENTRY_SIZE);
            AllFit(prog, |m.vol|)
            && var x := RunMem(m, prog, run, k);
               && BodyDirty(m, x, base, slot)
               && (k == |prog| ==> Settled(x, base))
               && (k == |prog| ==> EntryBytes(x.vol, base, slot) == WithFields(EntryBytes(m.vol, base, slot), e))
  {
    hide FieldOps, FlushOps, RunMem, WithFields, EntryBytes, BodyDirty;
    var off := EntryOffset(base, slot);
    var a, b := FieldOps(off, e), FlushOps(off, CATALOG_ENTRY_SIZE);
    EntryRoom(m, base, slot);
    FieldsFit(off, e, |m.vol|);
    assert AllFit(b, |m.vol|);
    var cut := InTwo(m, a, b, run, k);
    if k < |a| {
      FieldsRun(m, base, slot, e, run, k);
    } else {
      FieldsRun(m, base, slot, e, run[..cut], |a|);
      FlushBodyRun(m, RunMem(m, a, run[..cut], |a|), base, slot, run[cut..], k - |a|);
    }
  }

  /** The view once the fields are filled in. */
  lemma FilledView(m: Mem, x: Mem, base: nat, slot: nat, e: CatalogEntry)
    requires Settled(m, base) && slot < MAX_REGIONS && |e.name| <= MAX_NAME_LEN && BodyDirty(m, x, base, slot)
    requires EntryBytes(x.vol, base, slot) == WithFields(EntryBytes(m.vol, base, slot), e)
    ensures View(x.vol, base) == SetEntry(View(m.vol, base), slot, e.(state := View(m.vol, base).entries[slot].state))
  {
    hide WithFields, EntryBytes, DecodeEntry, WordAt;
    BodyImage(m.vol, x.vol, base, slot);
    FieldsReadBack(EntryBytes(m.vol, base, slot), e);
    assert e.name[..|e.name|] == e.name;
  }

  /** A crash anywhere during create, with any lines evicted: the durable catalog is the old one with something under a
      FREE entry, or has the whole entry as ALLOCATING or ACTIVE, or is the final one. */
  lemma CreateRun(m: Mem, base: nat, h: RegionHandle, run: seq<MemOp>, k: nat)
    requires Settled(m, base) && h.slot < MAX_REGIONS && |h.name| <= MAX_NAME_LEN
    requires Runs(CreateProgram(base, h, View(m.vol, base).count), run, k)
    ensures var c := View(m.vol, base);
            var prog := CreateProgram(base, h, c.count);
            AllFit(prog, |m.vol|)
            && var x := RunMem(m, prog, run, k);
               && Placed(x.dur, base)
               && CreateLeaves(c, h, View(x.dur, base))
               && (k == |prog| ==> Settled(x, base))
               && (k == |prog| ==>
                     View(x.vol, base) == SetEntry(c, h.slot, NewEntry(h, Active)).(count := WrapAdd(c.count, 1)))
  {
    hide View, FieldOps, FlushOps, TwoStates, RunMem, EntryBytes, WithFields, BodyDirty, WrapAdd;
    var c := View(m.vol, base);
    var off := EntryOffset(base, h.slot);
    var e := NewEntry(h, Allocating);
    var f, l := FieldOps(off, e), FlushOps(off, CATALOG_ENTRY_SIZE);
    var b := TwoStates(base, h.slot, Allocating, Active, Some(WrapAdd(c.count, 1)));
    EntryRoom(m, base, h.slot);
    FieldsFit(off, e, |m.vol|);
    assert AllFit(f + l, |m.vol|);
    TwoStatesFit(m, base, h.slot, Allocating, Active, Some(WrapAdd(c.count, 1)));
    assert CreateProgram(base, h, c.count) == (f + l) + b;
    var cut := InTwo(m, f + l, b, run, k);
    if k < |f + l| {
      FillRun(m, base, h.slot, e, run, k);
      DirtyLeaves(m, RunMem(m, f + l, run, k), base, h);
    } else {
      FillRun(m, base, h.slot, e, run[..cut], |f + l|);
      var y := RunMem(m, f + l, run[..cut], |f + l|);
      FilledView(m, y, base, h.slot, e);
      TwoStatesRun(y, base, h.slot, Allocating, Active, Some(WrapAdd(c.count, 1)), run[cut..], k - |f + l|);
      StatesOfFilled(c, h, c.entries[h.slot].state);
    }
  }

  /** The catalogs a crash during a successful create may leave. */
  ghost predicate CreateLeaves(c: Cat, h: RegionHandle, x: Cat)
    requires h.slot < |c.entries|
  {
    || (|x.entries| == |c.entries| && x.entries[h.slot].state == c.entries[h.slot].state
        && x == SetEntry(c, h.slot, x.entries[h.slot]))
    || x == SetEntry(c, h.slot, NewEntry(h, Allocating))
    || x == SetEntry(c, h.slot, NewEntry(h, Active))
    || x == SetEntry(c, h.slot, NewEntry(h, Active)).(count := WrapAdd(c.count, 1))
  }

  lemma DirtyLeaves(m: Mem, x: Mem, base: nat, h: RegionHandle)
    requires Settled(m, base) && h.slot < MAX_REGIONS && BodyDirty(m, x, base, h.slot)
    ensures Placed(x.dur, base) && CreateLeaves(View(m.vol, base), h, View(x.dur, base))
  {
    hide DecodeEntry, EntryBytes, WordAt;
    BodyImage(m.vol, x.dur, base, h.slot);
  }

  lemma StatesOfFilled(c: Cat, h: RegionHandle, s: RegionState)
    requires h.slot < |c.entries|
    ensures var f := SetEntry(c, h.slot, NewEntry(h, s));
            && SetState(f, h.slot, Allocating) == SetEntry(c, h.slot, NewEntry(h, Allocating))
            && SetState(f, h.slot, Active) == SetEntry(c, h.slot, NewEntry(h, Active))
            && (s == c.entries[h.slot].state ==> CreateLeaves(c, h, f))
  {
  }

  // ---- recover ----

  lemma {:induction false} RecoverFits(m: Mem, base: nat, es: Entries, n: nat)
    requires Placed(m.vol, base) && n <= |es| == MAX_REGIONS
    ensures AllFit(RecoverProgram(base, es, n), |m.vol|)
  {
    hide StateOps;
    if n > 0 {
      RecoverFits(m, base, es, n - 1);
      StateFits(m, base, n - 1, Free);
    }
  }

  ghost predicate PartlyRecovered(c: Cat, n: nat, x: Cat) {
    exists j: nat :: j <= n && j <= |c.entries| && x == RecoveredTo(c, j)
  }

  lemma OneMoreRecovered(c: Cat, n: nat, x: Cat)
    requires n < |c.entries|
    ensures PartlyRecovered(c, n, x) ==> PartlyRecovered(c, n + 1, x)
    ensures PartlyRecovered(c, n + 1, RecoveredTo(c, n)) && PartlyRecovered(c, n + 1, RecoveredTo(c, n + 1))
    ensures Unfinished(c.entries[n]) ==> SetState(RecoveredTo(c, n), n, Free) == RecoveredTo(c, n + 1)
    ensures !Unfinished(c.entries[n]) ==> RecoveredTo(c, n) == RecoveredTo(c, n + 1)
  {
    assert Unfinished(c.entries[n]) ==> SetState(RecoveredTo(c, n), n, Free).entries == RecoveredTo(c, n + 1).entries;
    assert !Unfinished(c.entries[n]) ==> RecoveredTo(c, n).entries == RecoveredTo(c, n + 1).entries;
  }

  lemma NoneRecovered(c: Cat)
    ensures RecoveredTo(c, 0) == c && PartlyRecovered(c, 0, c)
  {
    assert RecoveredTo(c, 0).entries == c.entries;
  }

  /** A crash anywhere during recover leaves some first entries fixed and the rest as they were. */
  lemma {:induction false} RecoverRun(m: Mem, base: nat, n: nat, run: seq<MemOp>, k: nat)
    requires Settled(m, base) && n <= MAX_REGIONS && Runs(RecoverProgram(base, View(m.vol, base).entries, n), run, k)
    ensures var c := View(m.vol, base);
            var prog := RecoverProgram(base, c.entries, n);
            AllFit(prog, |m.vol|)
            && var x := RunMem(m, prog, run, k);
               && Placed(x.dur, base)
               && PartlyRecovered(c, n, View(x.dur, base))
               && (k == |prog| ==> Settled(x, base) && View(x.vol, base) == RecoveredTo(c, n))
  {
    hide View, StateOps, RunMem, RecoveredTo, PartlyRecovered, SetState;
    var c := View(m.vol, base);
    if n == 0 {
      IdleRun(m, base, run, k);
      NoneRecovered(c);
    } else {
      RecoverFits(m, base, c.entries, n);
      RecoverFits(m, base, c.entries, n - 1);
      OneMoreRecovered(c, n - 1, View(RunMem(m, RecoverProgram(base, c.entries, n), run, k).dur, base));
      var a := RecoverProgram(base, c.entries, n - 1);
      if Unfinished(c.entries[n - 1]) {
        StateFits(m, base, n - 1, Free);
        var b := StateOps(EntryOffset(base, n - 1), Free);
        var cut := InTwo(m, a, b, run, k);
        if k < |a| {
          RecoverRun(m, base, n - 1, run, k);
        } else {
          RecoverRun(m, base, n - 1, run[..cut], |a|);
          StateRun(RunMem(m, a, run[..cut], |a|), base, n - 1, Free, run[cut..], k - |a|);
        }
      } else {
        assert RecoverProgram(base, c.entries, n) == a;
        RecoverRun(m, base, n - 1, run, k);
      }
    }
  }

  // ---- Every call ----

  /** A call interrupted by a crash at any point between its stores and flushes, whatever cache lines were evicted on
      the way, leaves a durable catalog of CrashLeaves; a call that completes ends settled on AfterCall. */
  lemma CallRun(p: Pool, m: Mem, call: Call, run: seq<MemOp>, k: nat)
    requires p.Ok() && Settled(m, p.base) && Runs(ProgramOf(p, View(m.vol, p.base), call), run, k)
    ensures var c := View(m.vol, p.base);
            var prog := ProgramOf(p, c, call);
            AllFit(prog, |m.vol|)
            && var x := RunMem(m, prog, run, k);
               && Placed(x.dur, p.base)
               && CrashLeaves(p, c, call, View(x.dur, p.base))
               && (k == |prog| ==> Settled(x, p.base) && View(x.vol, p.base) == AfterCall(p, c, call))
  {
    hide View, RunMem, CreateResult, FindFrom, CreateProgram, TwoStates, RecoverProgram;
    var c := View(m.vol, p.base);
    match call {
      case Create(name, size) =>
        var r := CreateResult(p, c, name, size);
        if r.Ok? {
          CreatedSlot(p, c, name, size);
          CreateRun(m, p.base, r.value, run, k);
        } else {
          IdleRun(m, p.base, run, k);
        }
      case FreeRegion(name) =>
        var r := FindFrom(c.entries, name, 0);
        FoundActive(c.entries, name);
        if r.Some? {
          TwoStatesRun(m, p.base, r.value, Freeing, Free, if c.count > 0 then Some(c.count - 1) else None, run, k);
        } else {
          IdleRun(m, p.base, run, k);
        }
      case Recover =>
        RecoverRun(m, p.base, MAX_REGIONS, run, k);
    }
  }

  /** Crash atomicity on bytes: cut create, free or recover short anywhere, evict what you like, recover, and the
      listing is that of before the call or that of after it. */
  lemma CrashIsAtomic(p: Pool, m: Mem, call: Call, run: seq<MemOp>, k: nat)
    requires p.Ok() && Settled(m, p.base) && Runs(ProgramOf(p, View(m.vol, p.base), call), run, k)
    ensures AllFit(ProgramOf(p, View(m.vol, p.base), call), |m.vol|)
    ensures var c := View(m.vol, p.base);
            var x := RunMem(m, ProgramOf(p, c, call), run, k);
            && Placed(x.dur, p.base)
            && List(AfterRecover(View(x.dur, p.base))) in {List(c), List(AfterCall(p, c, call))}
  {
    hide View, RunMem, ProgramOf, CrashLeaves, List, AfterRecover, AfterCall;
    CallRun(p, m, call, run, k);
    CallsAreAtomic(p, View(m.vol, p.base), call,
        View(RunMem(m, ProgramOf(p, View(m.vol, p.base), call), run, k).dur, p.base));
  }

  /** A program run without evictions is a run of it. */
  lemma {:induction false} WholeRun(prog: seq<MemOp>, k: nat)
    requires k <= |prog|
    ensures Runs(prog, prog[..k], k)
  {
    if k > 0 {
      WholeRun(prog, k - 1);
      assert prog[..k][..k - 1] == prog[..k - 1];
    }
  }
}
