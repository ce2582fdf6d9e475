/** The region allocator on a byte array (allocator.rs). */
module Allocator {
  import opened Bytes
  import opened Media
  import opened Recovery
  import opened CrashRuns
  import opened Catalog
  import opened Regions
  import opened AllocatorCrash

  /** A call whose program ran to its end leaves memory settled on what the call promises. */
  lemma Completed(p: Pool, m: Mem, x: Mem, call: Call)
    requires p.Ok() && Settled(m, p.base)
    requires AllFit(ProgramOf(p, View(m.vol, p.base), call), |m.vol|)
    requires x == ApplyAll(m, ProgramOf(p, View(m.vol, p.base), call))
    ensures Settled(x, p.base) && View(x.vol, p.base) == AfterCall(p, View(m.vol, p.base), call)
  {
    hide View, ProgramOf, AfterCall, ApplyAll;
    var prog := ProgramOf(p, View(m.vol, p.base), call);
    WholeRun(prog, |prog|);
    assert prog[..|prog|] == prog;
    CallRun(p, m, call, prog, |prog|);
  }

  // ---- init ----

  /** Everything init has stored so far, but for the flush of the entries. */
  ghost predicate Initialised(p: Pool, m: Mem, n: nat)
    requires p.Ok()
  {
    && |m.vol| == |m.dur| && Placed(m.vol, p.base) && n <= MAX_REGIONS
    && WordAt(m.vol, p.base + CAT_HDR_MAGIC) == ALLOC_MAGIC
    && WordAt(m.vol, p.base + CAT_HDR_REGION_COUNT) == 0
    && WordAt(m.vol, p.base + CAT_HDR_TOTAL_SIZE) == p.size
    && WordAt(m.vol, p.base + CAT_HDR_DATA_START) == p.DataStart()
    && (forall i | p.base <= i < p.base + CATALOG_HEADER_SIZE :: m.dur[i] == m.vol[i])
    && (forall j | 0 <= j < n :: m.vol[EntryOffset(p.base, j)] == ToU8(Free))
  }

  lemma StoreFree(p: Pool, m: Mem, n: nat)
    requires p.Ok() && n < MAX_REGIONS && Initialised(p, m, n)
    ensures EntryOffset(p.base, n) < |m.vol|
    ensures Initialised(p, Apply(m, Store(EntryOffset(p.base, n), [ToU8(Free)])), n + 1)
  {
    hide WordAt;
    EntryInside(m.vol, p.base, n);
    var off := EntryOffset(p.base, n);
    WordApart(m.vol, off, [ToU8(Free)], p.base + CAT_HDR_MAGIC);
    WordApart(m.vol, off, [ToU8(Free)], p.base + CAT_HDR_REGION_COUNT);
    WordApart(m.vol, off, [ToU8(Free)], p.base + CAT_HDR_TOTAL_SIZE);
    WordApart(m.vol, off, [ToU8(Free)], p.base + CAT_HDR_DATA_START);
  }

  /** The last flush settles the catalog. */
  lemma FlushEntries(p: Pool, m: Mem)
    requires p.Ok() && Initialised(p, m, MAX_REGIONS)
    ensures var x := FlushRange(m, p.base + CATALOG_HEADER_SIZE, MAX_REGIONS * CATALOG_ENTRY_SIZE);
            Settled(x, p.base) && x.vol == m.vol
  {
    hide WordAt;
    var from, len := p.base + CATALOG_HEADER_SIZE, MAX_REGIONS * CATALOG_ENTRY_SIZE;
    FlushCoversExactly(m, from, len);
    forall i | p.base <= i < p.base + CATALOG_SIZE ensures FlushRange(m, from, len).dur[i] == m.vol[i] {
      if from <= i {
        MeetsByLine(i, from, len);
        OwnLine(i, from, len);
      }
    }
  }

  lemma InitialisedIsFresh(p: Pool, m: Mem)
    requires p.Ok() && Initialised(p, m, MAX_REGIONS)
    ensures Fresh(p, View(m.vol, p.base))
  {
    hide FromLE, WordAt;
  }

  method SetWord(media: Backend, base: nat, field: nat, x: u64)
    requires media.Valid() && Placed(media.vol[..], base) && field % 8 == 0 && field + 8 <= CATALOG_HEADER_SIZE
    modifies media, media.vol
    ensures media.Valid() && Placed(media.M().vol, base)
    ensures forall w: nat | w % 8 == 0 && w + 8 <= CATALOG_HEADER_SIZE ::
              WordAt(media.M().vol, base + w) == (if w == field then x else WordAt(old(media.M().vol), base + w))
  {
    hide WordAt;
    ghost var v := media.M().vol;
    Aligned(base, field);
    media.StoreU64(base + field, x);
    WordHere(v, base + field, x);
    forall w: nat | w % 8 == 0 && w + 8 <= CATALOG_HEADER_SIZE && w != field
      ensures WordAt(media.M().vol, base + w) == WordAt(v, base + w)
    {
      WordApart(v, base + field, LE(x, 8), base + w);
    }
  }

  method WriteHeader(media: Backend, p: Pool)
    requires p.Ok() && media.Valid() && p.End() <= media.vol.Length
    modifies media, media.vol
    ensures media.Valid() && Initialised(p, media.M(), 0)
  {
    hide WordAt, FlushRange;
    SetWord(media, p.base, CAT_HDR_MAGIC, ALLOC_MAGIC);
    SetWord(media, p.base, CAT_HDR_REGION_COUNT, 0);
    SetWord(media, p.base, CAT_HDR_TOTAL_SIZE, p.size);
    SetWord(media, p.base, CAT_HDR_DATA_START, p.DataStart());
    FlushHeader(media.M(), p.base);
    media.Flush(p.base, CATALOG_HEADER_SIZE);
  }

  lemma FlushHeader(m: Mem, base: nat)
    requires |m.vol| == |m.dur| && Placed(m.vol, base)
    ensures var x := FlushRange(m, base, CATALOG_HEADER_SIZE);
            |x.dur| == |x.vol| && x.vol == m.vol && forall i | base <= i < base + CATALOG_HEADER_SIZE ::
                  x.dur[i] == x.vol[i]
  {
    FlushCoversExactly(m, base, CATALOG_HEADER_SIZE);
    forall i | base <= i < base + CATALOG_HEADER_SIZE
      ensures FlushRange(m, base, CATALOG_HEADER_SIZE).dur[i] == m.vol[i]
    {
      MeetsByLine(i, base, CATALOG_HEADER_SIZE);
      OwnLine(i, base, CATALOG_HEADER_SIZE);
    }
  }

  /** The four words of the catalog's header. */
  predicate HeaderWritten(p: Pool, v: seq<byte>)
    requires p.Ok()
  {
    && Placed(v, p.base)
    && WordAt(v, p.base) == ALLOC_MAGIC && WordAt(v, p.base + 8) == 0
    && WordAt(v, p.base + 16) == p.size && WordAt(v, p.base + 24) == p.DataStart()
  }

  /** The stores and flushes of init, over any contents. */
  method Format(media: Backend, p: Pool)
    requires p.Ok() && media.Valid() && p.End() <= media.vol.Length
    modifies media, media.vol
    ensures media.Valid() && Settled(media.M(), p.base)
    ensures Fresh(p, View(media.M().vol, p.base)) && HeaderWritten(p, media.M().vol)
  {
    hide WordAt, FlushRange, View;
    WriteHeader(media, p);
    for i := 0 to MAX_REGIONS
      invariant media.Valid() && Initialised(p, media.M(), i)
    {
      StoreFree(p, media.M(), i);
      media.StoreU8(EntryOffset(p.base, i) + ENT_STATE, ToU8(Free));
    }
    InitialisedIsFresh(p, media.M());
    FlushEntries(p, media.M());
    media.Flush(p.base + CATALOG_HEADER_SIZE, MAX_REGIONS * CATALOG_ENTRY_SIZE);
  }

  // ---- The allocator ----

  class RegionAllocator {
    const media: Backend
    const pool: Pool

    /** Between calls the catalog is as durable as visible. */
    ghost predicate Valid()
      reads this, media, media.vol
    {
      media.Valid() && pool.Ok() && pool.End() <= media.vol.Length && Settled(media.M(), pool.base)
    }

    ghost function Catalog(): (c: Cat)
      reads this, media, media.vol
      requires Valid()
      ensures |c.entries| == MAX_REGIONS
    {
      View(media.M().vol, pool.base)
    }

    constructor (media: Backend, pool: Pool)
      requires media.Valid() && pool.Ok() && pool.End() <= media.vol.Length && Settled(media.M(), pool.base)
      ensures Valid() && this.media == media && this.pool == pool
    {
      this.media := media;
      this.pool := pool;
    }

    /** init: a fresh catalog over any contents, or OutOfSpace if the catalog itself does not fit. */
    static method Init(media: Backend, base: nat, size: nat) returns (r: Result<RegionAllocator, AllocError>)
      requires media.Valid() && base % 8 == 0 && base + size <= media.vol.Length && base + size < 0x8000_0000_0000_0000
      modifies media, media.vol
      ensures size < CATALOG_SIZE ==> r == Err(OutOfSpace(CATALOG_SIZE, size)) && media.M() == old(media.M())
      ensures size >= CATALOG_SIZE ==>
                && r.Ok? && fresh(r.value) && r.value.media == media && r.value.pool == Pool(base, size)
                && r.value.Valid() && Fresh(r.value.pool, r.value.Catalog())
                && HeaderWritten(r.value.pool, media.M().vol)
    {
      hide View;
      if size < CATALOG_SIZE {
        return Err(OutOfSpace(CATALOG_SIZE, size));
      }
      Format(media, Pool(base, size));
      var a := new RegionAllocator(media, Pool(base, size));
      r := Ok(a);
    }

    /** open: only the magic number is checked. */
    static method Open(media: Backend, pool: Pool) returns (r: Result<RegionAllocator, AllocError>)
      requires media.Valid() && pool.Ok() && pool.End() <= media.vol.Length && Settled(media.M(), pool.base)
      ensures var magic := WordAt(media.M().vol, pool.base + CAT_HDR_MAGIC);
              if magic != ALLOC_MAGIC then r == Err(BadMagic(magic))
              else r.Ok? && fresh(r.value) && r.value.media == media && r.value.pool == pool && r.value.Valid()
    {
      var magic := media.LoadU64(pool.base + CAT_HDR_MAGIC);
      assert media.vol[pool.base + CAT_HDR_MAGIC..pool.base + CAT_HDR_MAGIC + 8]
          == media.M().vol[pool.base + CAT_HDR_MAGIC..pool.base + CAT_HDR_MAGIC + 8];
      if magic != ALLOC_MAGIC {
        return Err(BadMagic(magic));
      }
      var a := new RegionAllocator(media, pool);
      r := Ok(a);
    }

    /** find_region: the first active entry of that name. */
    method FindRegion(name: seq<byte>) returns (r: Result<RegionHandle, AllocError>)
      requires Valid()
      ensures r == FindResult(Catalog(), name)
    {
      hide View;
      ghost var c := Catalog();
      for i := 0 to MAX_REGIONS
        invariant FindFrom(c.entries, name, 0) == FindFrom(c.entries, name, i)
      {
        var entry := ReadEntry(media, pool.base, i);
        if entry.state == Active && entry.name == name {
          return Ok(RegionHandle(i, entry.name, entry.offset, entry.size));
        }
      }
      r := Err(NotFound(name));
    }

    method FindFreeSlot() returns (r: Option<nat>)
      requires Valid()
      ensures r == FreeFrom(Catalog().entries, 0)
    {
      hide View;
      ghost var c := Catalog();
      for i := 0 to MAX_REGIONS
        invariant FreeFrom(c.entries, 0) == FreeFrom(c.entries, i)
      {
        var entry := ReadEntry(media, pool.base, i);
        if entry.state == Free {
          return Some(i);
        }
      }
      r := None;
    }

    method NextFreeOffset(dataStart: u64) returns (r: u64)
      requires Valid()
      ensures r == AlignUp(MaxEnd(Catalog().entries, MAX_REGIONS, dataStart))
    {
      hide View, WrapAdd;
      ghost var c := Catalog();
      var maxEnd := dataStart;
      for i := 0 to MAX_REGIONS
        invariant maxEnd == MaxEnd(c.entries, i, dataStart)
      {
        var entry := ReadEntry(media, pool.base, i);
        if entry.state == Active || entry.state == Allocating {
          var end := WrapAdd(entry.offset, entry.size);
          if end > maxEnd {
            maxEnd := end;
          }
        }
      }
      r := AlignUp(maxEnd);
    }

    /** list_regions: the active regions, in catalog order. */
    method ListRegions() returns (regions: seq<RegionHandle>)
      requires Valid()
      ensures regions == List(Catalog())
    {
      hide View;
      ghost var c := Catalog();
      regions := [];
      for i := 0 to MAX_REGIONS
        invariant regions == ListOf(c.entries, i)
      {
        var entry := ReadEntry(media, pool.base, i);
        if entry.state == Active {
          regions := regions + [RegionHandle(i, entry.name, entry.offset, entry.size)];
        }
      }
    }

    method LoadHeader(field: nat) returns (x: u64)
      requires Valid() && field % 8 == 0 && field + 8 <= CATALOG_HEADER_SIZE
      ensures x == WordAt(media.M().vol, pool.base + field)
    {
      Aligned(pool.base, field);
      x := media.LoadU64(pool.base + field);
      assert media.vol[pool.base + field..pool.base + field + 8]
          == media.M().vol[pool.base + field..pool.base + field + 8];
    }

    /** The stores and flushes of create once its handle is settled. */
    method WriteRegion(h: RegionHandle)
      requires Valid() && h.slot < MAX_REGIONS
      modifies media, media.vol
      ensures Did(media, old(media.M()), old(media.trace), CreateProgram(pool.base, h, old(Catalog()).count))
    {
      hide View, Did, FieldOps, FlushOps, StateOps, CountOps, LE, WordAt, WrapAdd, EntryOffset;
      ghost var m, start, c := media.M(), media.trace, Catalog();
      EntryRoom(m, pool.base, h.slot);
      var off := EntryOffset(pool.base, h.slot);
      WriteEntry(media, pool.base, h.slot, NewEntry(h, Allocating));
      ghost var done := StateStep(media, off, Active, m, start, WriteProgram(off, NewEntry(h, Allocating)));
      CreateStores(off, NewEntry(h, Allocating), media.vol.Length);
      CountUntouched(media, m, pool.base, h.slot, start, done);
      var count := LoadCount(media, pool.base);
      done := CountStep(media, pool.base, WrapAdd(count, 1), m, start, done);
      assert done == CreateProgram(pool.base, h, c.count);
    }

    /** create_region: the result and the catalog it promises, by exactly the program whose every crash point is
        covered. */
    method CreateRegion(name: seq<byte>, size: u64) returns (r: Result<RegionHandle, AllocError>)
      requires Valid()
      modifies media, media.vol
      ensures Valid() && r == CreateResult(pool, old(Catalog()), name, size)
      ensures Catalog() == AfterCreate(pool, old(Catalog()), name, size)
      ensures media.trace == old(media.trace) + ProgramOf(pool, old(Catalog()), Create(name, size))
    {
      hide View, Settled, CreateProgram, WrapAdd, WordAt, AlignUp;
      ghost var m, c := media.M(), Catalog();
      if |name| > MAX_NAME_LEN {
        return Err(NameTooLong);
      }
      var existing := FindRegion(name);
      if existing.Ok? {
        return Err(NameExists(name));
      }
      var slot := FindFreeSlot();
      if slot == None {
        return Err(CatalogFull);
      }
      var dataStart := LoadHeader(CAT_HDR_DATA_START);
      ViewWords(m.vol, pool.base);
      var regionOffset := NextFreeOffset(dataStart);
      var poolEnd := pool.base + pool.size;
      if WrapAdd(regionOffset, size) > poolEnd {
        return Err(OutOfSpace(size, Max(poolEnd - regionOffset, 0)));
      }
      var h := RegionHandle(slot.value, name, regionOffset, size);
      WriteRegion(h);
      Completed(pool, m, media.M(), Create(name, size));
      r := Ok(h);
    }

    /** The stores and flushes of free on an active entry. */
    method EraseRegion(slot: nat)
      requires Valid() && slot < MAX_REGIONS
      modifies media, media.vol
      ensures Did(media, old(media.M()), old(media.trace), FreeProgram(pool.base, slot, old(Catalog()).count))
    {
      hide View, Did, FlushOps, StateOps, CountOps, LE, WordAt, EntryOffset;
      ghost var m, start, c := media.M(), media.trace, Catalog();
      EntryRoom(m, pool.base, slot);
      var off := EntryOffset(pool.base, slot);
      NothingDone(media);
      ghost var done := StateStep(media, off, Freeing, m, start, []);
      done := StateStep(media, off, Free, m, start, done);
      FreeStores(off, media.vol.Length);
      CountUntouched(media, m, pool.base, slot, start, done);
      var count := LoadCount(media, pool.base);
      if count > 0 {
        done := CountStep(media, pool.base, count - 1, m, start, done);
      }
      assert done == FreeProgram(pool.base, slot, c.count);
    }

    /** free_region: the first active entry of that name, freed through FREEING. */
    method FreeRegion(name: seq<byte>) returns (r: Result<(), AllocError>)
      requires Valid()
      modifies media, media.vol
      ensures Valid() && Catalog() == AfterFree(old(Catalog()), name)
      ensures r == if FindResult(old(Catalog()), name).Ok? then Ok(()) else Err(NotFound(name))
      ensures media.trace == old(media.trace) + ProgramOf(pool, old(Catalog()), Call.FreeRegion(name))
    {
      hide View, Settled, FreeProgram, FindFrom;
      ghost var m := media.M();
      var handle := FindRegion(name);
      if handle.Err? {
        return Err(handle.error);
      }
      FoundActive(Catalog().entries, name);
      EraseRegion(handle.value.slot);
      Completed(pool, m, media.M(), Call.FreeRegion(name));
      r := Ok(());
    }

    /** recover: every ALLOCATING or FREEING entry becomes FREE, in catalog order; returns how many there were. */
    method Recover() returns (fixed: nat)
      requires Valid()
      modifies media, media.vol
      ensures Valid() && Catalog() == AfterRecover(old(Catalog()))
      ensures fixed == UnfinishedCount(old(Catalog()).entries, MAX_REGIONS)
      ensures media.trace == old(media.trace) + ProgramOf(pool, old(Catalog()), Call.Recover)
    {
      hide View, Settled, Did, StateOps, EntryOffset;
      ghost var m, start, c := media.M(), media.trace, Catalog();
      NothingDone(media);
      fixed := 0;
      for i := 0 to MAX_REGIONS
        invariant Did(media, m, start, RecoverProgram(pool.base, c.entries, i))
        invariant fixed == UnfinishedCount(c.entries, i)
      {
        EntryRoom(m, pool.base, i);
        RecoverSoFar(media, m, pool.base, start, i);
        var entry := ReadEntry(media, pool.base, i);
        if entry.state == Allocating || entry.state == Freeing {
          ghost var done := StateStep(media, EntryOffset(pool.base, i), Free, m, start,
              RecoverProgram(pool.base, c.entries, i));
          fixed := fixed + 1;
        } else {
          assert RecoverProgram(pool.base, c.entries, i) + [] == RecoverProgram(pool.base, c.entries, i);
        }
      }
      DidMeans(media, m, start, RecoverProgram(pool.base, c.entries, MAX_REGIONS));
      Completed(pool, m, media.M(), Call.Recover);
    }
  }

  // ---- Along the way ----

  lemma DidMeans(media: Backend, m: Mem, start: seq<MemOp>, done: seq<MemOp>)
    requires Did(media, m, start, done)
    ensures media.Valid() && Sized(m, media.vol.Length) && AllFit(done, media.vol.Length)
    ensures media.M() == ApplyAll(m, done) && media.trace == start + done
  {
  }

  lemma ViewWords(v: seq<byte>, base: nat)
    requires Placed(v, base)
    ensures View(v, base).count == WordAt(v, base + CAT_HDR_REGION_COUNT)
    ensures View(v, base).dataStart == WordAt(v, base + CAT_HDR_DATA_START)
  {
    hide DecodeEntry;
  }

  method LoadCount(media: Backend, base: nat) returns (x: u64)
    requires Placed(media.vol[..], base)
    ensures x == View(media.vol[..], base).count
  {
    ViewWords(media.vol[..], base);
    Aligned(base, CAT_HDR_REGION_COUNT);
    x := media.LoadU64(base + CAT_HDR_REGION_COUNT);
    assert media.vol[base + CAT_HDR_REGION_COUNT..base + CAT_HDR_REGION_COUNT + 8]
        == media.vol[..][base + CAT_HDR_REGION_COUNT..base + CAT_HDR_REGION_COUNT + 8];
  }

  method CountStep(media: Backend, base: nat, x: u64, ghost m: Mem, ghost start: seq<MemOp>, ghost done: seq<MemOp>)
    returns (ghost doneNow: seq<MemOp>)
    requires Placed(media.vol[..], base) && Did(media, m, start, done)
    modifies media, media.vol
    ensures doneNow == done + CountOps(base, x) && Did(media, m, start, doneNow)
  {
    hide Did, FlushOps, LE;
    Aligned(base, CAT_HDR_REGION_COUNT);
    doneNow := StoreStep(media, base + CAT_HDR_REGION_COUNT, x, m, start, done);
    doneNow := FlushStep(media, base, CATALOG_HEADER_SIZE, m, start, doneNow);
    assert doneNow == done + CountOps(base, x);
  }

  lemma CreateStores(off: nat, e: CatalogEntry, n: nat)
    requires off + CATALOG_ENTRY_SIZE <= n
    ensures StoresWithin(WriteProgram(off, e) + StateOps(off, Active), off, off + CATALOG_ENTRY_SIZE)
  {
    hide FieldOps, LE;
    FieldsFit(off, e, n);
  }

  lemma FreeStores(off: nat, n: nat)
    requires off + CATALOG_ENTRY_SIZE <= n
    ensures StoresWithin([] + StateOps(off, Freeing) + StateOps(off, Free), off, off + CATALOG_ENTRY_SIZE)
  {
  }

  /** Stores to one entry leave the count as it was. */
  lemma CountUntouched(media: Backend, m: Mem, base: nat, slot: nat, start: seq<MemOp>, done: seq<MemOp>)
    requires Settled(m, base) && slot < MAX_REGIONS && Did(media, m, start, done)
    requires StoresWithin(done, EntryOffset(base, slot), EntryOffset(base, slot) + CATALOG_ENTRY_SIZE)
    ensures Placed(media.vol[..], base) && View(media.vol[..], base).count == View(m.vol, base).count
  {
    hide View, WordAt;
    var off := EntryOffset(base, slot);
    WholeRun(done, |done|);
    assert done[..|done|] == done;
    FrameAll(m, base, done, done, |done|, off, off + CATALOG_ENTRY_SIZE);
    var v := media.vol[..];
    assert v == RunMem(m, done, done, |done|).vol;
    SameWordIn(m.vol, v, base, base + CAT_HDR_REGION_COUNT, off, off + CATALOG_ENTRY_SIZE);
    ViewWords(m.vol, base);
    ViewWords(v, base);
  }

  /** Part of recover's way, entry i reads as it did at the start. */
  lemma RecoverSoFar(media: Backend, m: Mem, base: nat, start: seq<MemOp>, i: nat)
    requires Settled(m, base) && i < MAX_REGIONS
    requires Did(media, m, start, RecoverProgram(base, View(m.vol, base).entries, i))
    ensures Placed(media.vol[..], base) && View(media.vol[..], base).entries[i] == View(m.vol, base).entries[i]
  {
    hide View, RecoverProgram;
    var prog := RecoverProgram(base, View(m.vol, base).entries, i);
    WholeRun(prog, |prog|);
    assert prog[..|prog|] == prog;
    RecoverRun(m, base, i, prog, |prog|);
    assert media.M() == RunMem(m, prog, prog, |prog|);
    assert media.vol[..] == media.M().vol;
  }
}
