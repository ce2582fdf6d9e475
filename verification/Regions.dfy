/** The region allocator on the catalog its readers see: placement, counting, and whole histories with crashes. */
module Regions {
  import opened Bytes
  import opened Catalog

  /** Where an allocator lives. A mapping never exceeds 2^63 - 1 bytes, the largest object Rust allows. */
  datatype Pool = Pool(base: nat, size: nat)
  {
    predicate Ok() { base % 8 == 0 && CATALOG_SIZE <= size && base + size < 0x8000_0000_0000_0000 }

    function DataStart(): nat { base + CATALOG_SIZE }

    function End(): nat { base + size }
  }

  datatype RegionHandle = RegionHandle(slot: nat, name: seq<byte>, offset: u64, size: u64)
  {
    /** Machine arithmetic: both sums wrap. */
    predicate Contains(byteOffset: u64, len: u64) {
      byteOffset >= offset && WrapAdd(byteOffset, len) <= WrapAdd(offset, size)
    }

    function AbsoluteOffset(relative: u64): u64 { WrapAdd(offset, relative) }
  }

  datatype AllocError =
    | CatalogFull
    | NameExists(name: seq<byte>)
    | OutOfSpace(requested: u64, available: u64)
    | NotFound(name: seq<byte>)
    | NameTooLong
    | BadMagic(found: u64)

  type Entries = seq<CatalogEntry>

  // ---- The loops of the allocator ----

  predicate Named(e: CatalogEntry, name: seq<byte>) { e.state == Active && e.name == name }

  /** The first active entry of that name, from i on. */
  function FindFrom(es: Entries, name: seq<byte>, i: nat): (r: Option<nat>)
    requires i <= |es|
    ensures r.Some? ==> i <= r.value < |es| && Named(es[r.value], name) && forall k | i <= k < r.value ::
            !Named(es[k], name)
    ensures r == None ==> forall k | i <= k < |es| :: !Named(es[k], name)
    decreases |es| - i
  {
    if i == |es| then None else if Named(es[i], name) then Some(i) else FindFrom(es, name, i + 1)
  }

  /** The first free entry, from i on. */
  function FreeFrom(es: Entries, i: nat): (r: Option<nat>)
    requires i <= |es|
    ensures r.Some? ==> i <= r.value < |es| && es[r.value].state == Free && forall k | i <= k < r.value ::
            es[k].state != Free
    ensures r == None ==> forall k | i <= k < |es| :: es[k].state != Free
    decreases |es| - i
  {
    if i == |es| then None else if es[i].state == Free then Some(i) else FreeFrom(es, i + 1)
  }

  predicate Takes(e: CatalogEntry) { e.state == Active || e.state == Allocating }

  /** The highest end of the space taken by the first n entries, never below `start`. */
  function MaxEnd(es: Entries, n: nat, start: u64): u64
    requires n <= |es|
  {
    if n == 0 then start
    else
      var m := MaxEnd(es, n - 1, start);
      var end := WrapAdd(es[n - 1].offset, es[n - 1].size);
      if Takes(es[n - 1]) && end > m then end else m
  }

  /** (x + 63) & !63 */
  function AlignUp(x: u64): u64 { WrapAdd(x, 63) / 64 * 64 }

  function NextFree(c: Cat): u64 { AlignUp(MaxEnd(c.entries, |c.entries|, c.dataStart)) }

  /** The active regions among the first n entries, in catalog order. */
  function ListOf(es: Entries, n: nat): seq<RegionHandle>
    requires n <= |es|
  {
    if n == 0 then []
    else
      var last := es[n - 1];
      ListOf(es, n - 1) + (if last.state
          == Active then [RegionHandle(n - 1, last.name, last.offset, last.size)] else [])
  }

  function List(c: Cat): seq<RegionHandle> { ListOf(c.entries, |c.entries|) }

  function ActiveCount(es: Entries, n: nat): (k: nat)
    requires n <= |es|
    ensures k <= n
  {
    if n == 0 then 0 else ActiveCount(es, n - 1) + if es[n - 1].state == Active then 1 else 0
  }

  // ---- The calls ----

  function FindResult(c: Cat, name: seq<byte>): Result<RegionHandle, AllocError> {
    match FindFrom(c.entries, name, 0)
    case Some(i) => Ok(RegionHandle(i, c.entries[i].name, c.entries[i].offset, c.entries[i].size))
    case None => Err(NotFound(name))
  }

  function CreateResult(p: Pool, c: Cat, name: seq<byte>, size: u64): Result<RegionHandle, AllocError>
    requires p.Ok()
  {
    if |name| > MAX_NAME_LEN then Err(NameTooLong)
    else if FindFrom(c.entries, name, 0).Some? then Err(NameExists(name))
    else
      match FreeFrom(c.entries, 0)
      case None => Err(CatalogFull)
      case Some(slot) =>
        if WrapAdd(NextFree(c), size) > p.End() then Err(OutOfSpace(size, Max(p.End() - NextFree(c), 0)))
        else Ok(RegionHandle(slot, name, NextFree(c), size))
  }

  function NewEntry(h: RegionHandle, state: RegionState): CatalogEntry {
    CatalogEntry(state, h.name, h.offset, h.size, 0)
  }

  function SetEntry(c: Cat, slot: nat, e: CatalogEntry): Cat
    requires slot < |c.entries|
  {
    c.(entries := c.entries[slot := e])
  }

  function SetState(c: Cat, slot: nat, s: RegionState): Cat
    requires slot < |c.entries|
  {
    SetEntry(c, slot, c.entries[slot].(state := s))
  }

  function Decremented(x: u64): u64 { if x > 0 then x - 1 else x }

  function AfterCreate(p: Pool, c: Cat, name: seq<byte>, size: u64): Cat
    requires p.Ok()
  {
    match CreateResult(p, c, name, size)
    case Ok(h) => SetEntry(c, h.slot, NewEntry(h, Active)).(count := WrapAdd(c.count, 1))
    case Err(_) => c
  }

  function AfterFree(c: Cat, name: seq<byte>): Cat {
    match FindFrom(c.entries, name, 0)
    case Some(i) => SetState(c, i, Free).(count := Decremented(c.count))
    case None => c
  }

  predicate Unfinished(e: CatalogEntry) { e.state == Allocating || e.state == Freeing }

  /** recover has gone over the first n entries. */
  function FixedEntries(es: Entries, n: nat): (r: Entries)
    requires n <= |es|
    ensures |r| == |es|
    ensures forall i | 0 <= i < |es| :: r[i] == if i < n && Unfinished(es[i]) then es[i].(state := Free) else es[i]
  {
    seq(|es|, i requires 0 <= i < |es| => if i < n && Unfinished(es[i]) then es[i].(state := Free) else es[i])
  }

  function UnfinishedCount(es: Entries, n: nat): (k: nat)
    requires n <= |es|
    ensures k <= n
  {
    if n == 0 then 0 else UnfinishedCount(es, n - 1) + if Unfinished(es[n - 1]) then 1 else 0
  }

  function AfterRecover(c: Cat): Cat { c.(entries := FixedEntries(c.entries, |c.entries|)) }

  // ---- What the loops compute ----

  /** With nothing wrapping, MaxEnd is the least upper bound of the ends it covers. */
  lemma {:induction false} MaxEndBounds(es: Entries, n: nat, start: u64, limit: u64)
    requires n <= |es| && start <= limit
    requires forall i | 0 <= i < n && Takes(es[i]) :: es[i].offset + es[i].size <= limit
    ensures start <= MaxEnd(es, n, start) <= limit
    ensures forall i | 0 <= i < n && Takes(es[i]) :: es[i].offset + es[i].size <= MaxEnd(es, n, start)
  {
    if n > 0 {
      MaxEndBounds(es, n - 1, start, limit);
    }
  }

  lemma AlignUpBounds(x: u64)
    requires x + 63 < U64_LIMIT
    ensures x <= AlignUp(x) < x + 64 && AlignUp(x) % 64 == 0
  {
  }

  lemma {:induction false} ListHas(es: Entries, n: nat, h: RegionHandle)
    requires n <= |es|
    ensures h in ListOf(es, n) <==>
              h.slot < n && es[h.slot].state == Active
              && h == RegionHandle(h.slot, es[h.slot].name, es[h.slot].offset, es[h.slot].size)
  {
    if n > 0 {
      ListHas(es, n - 1, h);
    }
  }

  lemma {:induction false} ListLength(es: Entries, n: nat)
    requires n <= |es|
    ensures |ListOf(es, n)| == ActiveCount(es, n)
  {
    if n > 0 {
      ListLength(es, n - 1);
    }
  }

  /** Lists depend on the active entries only. */
  ghost predicate SameActive(es: Entries, fs: Entries) {
    |es| == |fs| && forall i | 0 <= i < |es| :: es[i] == fs[i] || (es[i].state != Active && fs[i].state != Active)
  }

  lemma {:induction false} SameActiveList(es: Entries, fs: Entries, n: nat)
    requires SameActive(es, fs) && n <= |es|
    ensures ListOf(es, n) == ListOf(fs, n) && ActiveCount(es, n) == ActiveCount(fs, n)
  {
    if n > 0 {
      SameActiveList(es, fs, n - 1);
    }
  }

  /** recover changes no list. */
  lemma RecoverKeepsList(c: Cat)
    ensures List(AfterRecover(c)) == List(c)
    ensures ActiveCount(AfterRecover(c).entries, |c.entries|) == ActiveCount(c.entries, |c.entries|)
  {
    SameActiveList(c.entries, AfterRecover(c).entries, |c.entries|);
  }

  lemma {:induction false} CountUpdate(es: Entries, slot: nat, e: CatalogEntry, n: nat)
    requires slot < |es| && n <= |es|
    ensures ActiveCount(es[slot := e], n) ==
            ActiveCount(es, n) + (if slot < n && e.state == Active then 1 else 0)
                - (if slot < n && es[slot].state == Active then 1 else 0)
  {
    if n > 0 {
      CountUpdate(es, slot, e, n - 1);
    }
  }

  // ---- Placement ----

  /** Entry e lies between the catalog and the pool's end, on a line boundary. */
  predicate InPlace(p: Pool, e: CatalogEntry) {
    p.DataStart() <= e.offset && e.offset % 64 == 0 && e.offset + e.size <= p.End()
  }

  predicate Apart(d: CatalogEntry, e: CatalogEntry) {
    d.offset + d.size <= e.offset || e.offset + e.size <= d.offset
  }

  /** Regions that are active, or may have been about to be, are in the pool past the catalog, line-aligned, pairwise
      disjoint; the active ones have pairwise different names. */
  ghost predicate WellPlaced(p: Pool, c: Cat) {
    && |c.entries| == MAX_REGIONS && c.dataStart == p.DataStart()
    && (forall i | 0 <= i < MAX_REGIONS && Takes(c.entries[i]) :: InPlace(p, c.entries[i]))
    && (forall i, j | 0 <= i < j < MAX_REGIONS && Takes(c.entries[i]) && Takes(c.entries[j]) ::
          Apart(c.entries[i], c.entries[j]))
    && (forall i, j | 0 <= i < j < MAX_REGIONS && c.entries[i].state == Active && c.entries[j].state == Active ::
          c.entries[i].name != c.entries[j].name)
  }

  /** The next free offset is aligned, past the catalog and past everything taken. */
  lemma NextFreePast(p: Pool, c: Cat)
    requires p.Ok() && WellPlaced(p, c)
    ensures p.DataStart() <= NextFree(c) && NextFree(c) % 64 == 0 && NextFree(c) < p.End() + 64
    ensures forall i | 0 <= i < MAX_REGIONS && Takes(c.entries[i]) ::
            c.entries[i].offset + c.entries[i].size <= NextFree(c)
  {
    MaxEndBounds(c.entries, MAX_REGIONS, c.dataStart, p.End());
    AlignUpBounds(MaxEnd(c.entries, MAX_REGIONS, c.dataStart));
  }

  /** The condition under which create's space check means what it says. */
  predicate SizeAddsUp(c: Cat, size: u64) { NextFree(c) + size < U64_LIMIT }

  /** A size no larger than the pool always meets it. */
  lemma PoolSizesAddUp(p: Pool, c: Cat, size: u64)
    requires p.Ok() && WellPlaced(p, c) && size <= p.size
    ensures SizeAddsUp(c, size)
  {
    NextFreePast(p, c);
  }

  /** A successful create keeps every region well placed exactly when its offset plus its size does not wrap. */
  lemma CreatePlacesIff(p: Pool, c: Cat, name: seq<byte>, size: u64)
    requires p.Ok() && WellPlaced(p, c) && CreateResult(p, c, name, size).Ok?
    ensures WellPlaced(p, AfterCreate(p, c, name, size)) <==> SizeAddsUp(c, size)
  {
    hide NextFree, FindFrom, FreeFrom;
    NextFreePast(p, c);
    var h := CreateResult(p, c, name, size).value;
    var r := AfterCreate(p, c, name, size);
    assert r.entries[h.slot] == NewEntry(h, Active);
    if !SizeAddsUp(c, size) {
      assert !InPlace(p, r.entries[h.slot]);
    }
  }

  /** With a size that wraps, create hands out a region reaching far beyond the pool. */
  lemma WrappedCreateOverruns()
    ensures var p := Pool(0, CATALOG_SIZE);
            var c := Cat(seq(MAX_REGIONS, _ => CatalogEntry(Free, [], 0, 0, 0)), 0, CATALOG_SIZE);
            var size := U64_LIMIT - CATALOG_SIZE;
            && p.Ok() && WellPlaced(p, c)
            && CreateResult(p, c, [], size) == Ok(RegionHandle(0, [], CATALOG_SIZE, size))
            && !WellPlaced(p, AfterCreate(p, c, [], size))
  {
    var p := Pool(0, CATALOG_SIZE);
    var c := Cat(seq(MAX_REGIONS, _ => CatalogEntry(Free, [], 0, 0, 0)), 0, CATALOG_SIZE);
    MaxEndBounds(c.entries, MAX_REGIONS, CATALOG_SIZE, CATALOG_SIZE);
    assert NextFree(c) == CATALOG_SIZE;
    var size := U64_LIMIT - CATALOG_SIZE;
    assert WrapAdd(CATALOG_SIZE, size) == 0;
    assert FindFrom(c.entries, [], 0) == None;
    CreatePlacesIff(p, c, [], size);
  }

  // ---- Isolation ----

  /** contains accepts exactly the ranges inside the region, if the range itself does not wrap. */
  lemma ContainsMeansInside(h: RegionHandle, b: u64, len: u64)
    requires h.offset + h.size < U64_LIMIT && b + len < U64_LIMIT
    ensures h.Contains(b, len) <==> h.offset <= b && b + len <= h.offset + h.size
  {
  }

  /** A range of a well-placed region's handle that wraps is accepted though it runs past the end of memory. */
  lemma ContainsAcceptsWrapped(h: RegionHandle, b: u64, len: u64)
    requires h.offset + h.size < U64_LIMIT && h.offset <= b && b + len >= U64_LIMIT
    ensures h.Contains(b, len) <==> b + len - U64_LIMIT <= h.offset + h.size
  {
  }

  /** A range given relative to the region, if it lies within its size, is accepted at its absolute offset. */
  lemma RelativeRangesAccepted(h: RegionHandle, relative: u64, len: u64)
    requires h.offset + h.size < U64_LIMIT
    ensures relative + len <= h.size ==>
            h.AbsoluteOffset(relative) == h.offset + relative && h.Contains(h.AbsoluteOffset(relative), len)
    ensures h.Contains(h.AbsoluteOffset(relative), len) && h.offset + relative + len < U64_LIMIT ==>
            relative + len <= h.size
  {
    WrapCases(h.offset, relative);
    WrapCases(h.offset, h.size);
    WrapCases(WrapAdd(h.offset, relative), len);
  }

  /** An access one live handle accepts touches no byte of another live region, and none of the catalog. */
  lemma RegionsAreIsolated(p: Pool, c: Cat, g: RegionHandle, h: RegionHandle, b: u64, len: u64, i: int)
    requires p.Ok() && WellPlaced(p, c) && g in List(c) && h in List(c)
    requires g.Contains(b, len) && b + len < U64_LIMIT && b <= i < b + len
    ensures p.DataStart() <= i < p.End()
    ensures h.offset <= i < h.offset + h.size <==> h == g
  {
    ListHas(c.entries, MAX_REGIONS, g);
    ListHas(c.entries, MAX_REGIONS, h);
    assert InPlace(p, c.entries[g.slot]);
    ContainsMeansInside(g, b, len);
    if h.slot < g.slot {
      assert Apart(c.entries[h.slot], c.entries[g.slot]);
    } else if g.slot < h.slot {
      assert Apart(c.entries[g.slot], c.entries[h.slot]);
    }
  }

  // ---- Histories ----

  datatype Call = Create(name: seq<byte>, size: u64) | FreeRegion(name: seq<byte>) | Recover

  function AfterCall(p: Pool, c: Cat, call: Call): Cat
    requires p.Ok()
  {
    match call
    case Create(name, size) => AfterCreate(p, c, name, size)
    case FreeRegion(name) => AfterFree(c, name)
    case Recover => AfterRecover(c)
  }

  /** The catalogs a crash during a call may leave behind. */
  ghost predicate CrashLeaves(p: Pool, c: Cat, call: Call, x: Cat)
    requires p.Ok()
  {
    match call
    case Create(name, size) =>
      if CreateResult(p, c, name, size).Err? then x == c
      else
        var h := CreateResult(p, c, name, size).value;
        || (|x.entries| == |c.entries| && x.entries[h.slot].state == Free
            && x == SetEntry(c, h.slot, x.entries[h.slot]))
        || x == SetEntry(c, h.slot, NewEntry(h, Allocating))
        || x == SetEntry(c, h.slot, NewEntry(h, Active))
        || x == AfterCreate(p, c, name, size)
    case FreeRegion(name) =>
      if FindFrom(c.entries, name, 0) == None then x == c
      else
        var i := FindFrom(c.entries, name, 0).value;
        x == c || x == SetState(c, i, Freeing) || x == SetState(c, i, Free) || x == AfterFree(c, name)
    case Recover => exists n: nat :: n <= |c.entries| && x == RecoveredTo(c, n)
  }

  /** recover, stopped after n entries. */
  function RecoveredTo(c: Cat, n: nat): Cat
    requires n <= |c.entries|
  {
    c.(entries := FixedEntries(c.entries, n))
  }

  /** Crash atomicity: whatever a crash during a call leaves, after recovery the regions listed are those from before
      the call or those from after it. */
  lemma CallsAreAtomic(p: Pool, c: Cat, call: Call, x: Cat)
    requires p.Ok() && CrashLeaves(p, c, call, x)
    ensures List(AfterRecover(x)) == List(c) || List(AfterRecover(x)) == List(AfterCall(p, c, call))
  {
    hide CreateResult, FindFrom;
    RecoverKeepsList(x);
    match call {
      case Create(name, size) =>
        if CreateResult(p, c, name, size).Ok? {
          var h := CreateResult(p, c, name, size).value;
          CreatedSlot(p, c, name, size);
          if x.entries[h.slot].state != Active {
            SameActiveList(x.entries, c.entries, |c.entries|);
          } else {
            assert x.entries == AfterCreate(p, c, name, size).entries;
          }
        }
      case FreeRegion(name) =>
        if FindFrom(c.entries, name, 0).Some? {
          if x != c {
            SameActiveList(x.entries, AfterFree(c, name).entries, |c.entries|);
          }
        }
      case Recover =>
        SameActiveList(x.entries, c.entries, |c.entries|);
    }
  }

  lemma CreatedSlot(p: Pool, c: Cat, name: seq<byte>, size: u64)
    requires p.Ok() && CreateResult(p, c, name, size).Ok?
    ensures var h := CreateResult(p, c, name, size).value;
            && h.slot < |c.entries| && c.entries[h.slot].state == Free
            && h.name == name && |name| <= MAX_NAME_LEN && h.size == size && h.offset == NextFree(c)
            && FindFrom(c.entries, name, 0) == None
  {
    hide NextFree;
  }

  /** One thing that happens to a pool: a call that completes, or one that a crash cuts short. */
  datatype Event = Done(call: Call) | Crashed(call: Call, left: Cat)

  ghost predicate Happens(p: Pool, c: Cat, ev: Event)
    requires p.Ok()
  {
    ev.Crashed? ==> CrashLeaves(p, c, ev.call, ev.left)
  }

  function After(p: Pool, c: Cat, ev: Event): Cat
    requires p.Ok()
  {
    match ev
    case Done(call) => AfterCall(p, c, call)
    case Crashed(_, left) => left
  }

  /** A possible sequence of calls and crashes, in any order. */
  ghost predicate History(p: Pool, c: Cat, evs: seq<Event>)
    requires p.Ok()
    decreases |evs|
  {
    evs != [] ==> Happens(p, c, evs[0]) && History(p, After(p, c, evs[0]), evs[1..])
  }

  function AfterAll(p: Pool, c: Cat, evs: seq<Event>): Cat
    requires p.Ok()
    decreases |evs|
  {
    if evs == [] then c else AfterAll(p, After(p, c, evs[0]), evs[1..])
  }

  function Crashes(evs: seq<Event>): nat
    decreases |evs|
  {
    if evs == [] then 0 else Crashes(evs[1..]) + if evs[0].Crashed? then 1 else 0
  }

  /** Every create of the history was asked for a size that adds up. */
  ghost predicate SizesAddUp(p: Pool, c: Cat, evs: seq<Event>)
    requires p.Ok()
    decreases |evs|
  {
    evs != [] ==>
      && (evs[0].call.Create? ==> SizeAddsUp(c, evs[0].call.size))
      && SizesAddUp(p, After(p, c, evs[0]), evs[1..])
  }

  /** Freeing or forgetting entries keeps the rest well placed. */
  lemma FewerStayPlaced(p: Pool, c: Cat, x: Cat)
    requires WellPlaced(p, c) && |x.entries| == MAX_REGIONS && x.dataStart == c.dataStart
    requires forall i | 0 <= i < MAX_REGIONS && Takes(x.entries[i]) :: c.entries[i] == x.entries[i]
    ensures WellPlaced(p, x)
  {
  }

  lemma EventKeepsPlaced(p: Pool, c: Cat, ev: Event)
    requires p.Ok() && WellPlaced(p, c) && Happens(p, c, ev)
    requires ev.call.Create? ==> SizeAddsUp(c, ev.call.size)
    ensures WellPlaced(p, After(p, c, ev))
  {
    hide WellPlaced, SizeAddsUp, CreateResult, FindFrom;
    PlacedCount(p, c);
    var x := After(p, c, ev);
    match ev.call {
      case Create(name, size) =>
        if CreateResult(p, c, name, size).Ok? {
          CreatePlacesIff(p, c, name, size);
          CreatedSlot(p, c, name, size);
          var r := AfterCreate(p, c, name, size);
          var h := CreateResult(p, c, name, size).value;
          PlacedCount(p, r);
          if x.entries[h.slot].state == Free {
            FewerStayPlaced(p, c, x);
          } else if x.entries[h.slot].state == Allocating {
            AllocatingPlaced(p, r, x, h.slot);
          } else {
            FewerStayPlaced(p, r, x);
          }
        }
      case FreeRegion(name) =>
        if x != c {
          FewerStayPlaced(p, c, x);
        }
      case Recover =>
        FewerStayPlaced(p, c, x);
    }
  }

  lemma PlacedCount(p: Pool, c: Cat)
    requires WellPlaced(p, c)
    ensures |c.entries| == MAX_REGIONS && c.dataStart == p.DataStart()
  {
  }

  /** An allocating entry may stand where an active one may. */
  lemma AllocatingPlaced(p: Pool, r: Cat, x: Cat, slot: nat)
    requires WellPlaced(p, r) && slot < |r.entries| && r.entries[slot].state == Active && x.dataStart == r.dataStart
    requires x.entries == r.entries[slot := r.entries[slot].(state := Allocating)]
    ensures WellPlaced(p, x)
  {
    hide Pool.DataStart, Pool.End;
    forall i, j | 0 <= i < j < MAX_REGIONS && Takes(x.entries[i]) && Takes(x.entries[j])
      ensures Apart(x.entries[i], x.entries[j])
    {
      assert Apart(r.entries[i], r.entries[j]);
    }
  }

  /** Over every history of creates, frees, recoveries and crashes whose sizes add up, live regions stay pairwise
      disjoint, aligned, inside the pool, past the catalog and uniquely named. */
  lemma {:induction false} PlacementHolds(p: Pool, c: Cat, evs: seq<Event>)
    requires p.Ok() && WellPlaced(p, c) && History(p, c, evs) && SizesAddUp(p, c, evs)
    ensures WellPlaced(p, AfterAll(p, c, evs))
    decreases |evs|
  {
    hide WellPlaced, Happens;
    if evs != [] {
      EventKeepsPlaced(p, c, evs[0]);
      PlacementHolds(p, After(p, c, evs[0]), evs[1..]);
    }
  }

  // ---- The region count ----

  /** The header's count is off by at most d. */
  predicate OffBy(c: Cat, d: nat) {
    c.count <= ActiveCount(c.entries, |c.entries|) + d && ActiveCount(c.entries, |c.entries|) <= c.count + d
  }

  lemma EventCounts(p: Pool, c: Cat, ev: Event, d: nat)
    requires p.Ok() && |c.entries| == MAX_REGIONS && Happens(p, c, ev) && OffBy(c, d) && d + MAX_REGIONS + 1 < U64_LIMIT
    ensures |After(p, c, ev).entries| == MAX_REGIONS
    ensures OffBy(After(p, c, ev), if ev.Crashed? then d + 1 else d)
  {
    hide CreateResult, FindFrom, ActiveCount;
    match ev.call {
      case Create(name, size) =>
        if CreateResult(p, c, name, size).Ok? {
          CreatedSlot(p, c, name, size);
          var h := CreateResult(p, c, name, size).value;
          CountUpdate(c.entries, h.slot, After(p, c, ev).entries[h.slot], MAX_REGIONS);
          WrapCases(c.count, 1);
        }
      case FreeRegion(name) =>
        FoundActive(c.entries, name);
        if FindFrom(c.entries, name, 0).Some? {
          var i := FindFrom(c.entries, name, 0).value;
          CountUpdate(c.entries, i, After(p, c, ev).entries[i], MAX_REGIONS);
        }
      case Recover =>
        SameActiveList(c.entries, After(p, c, ev).entries, MAX_REGIONS);
    }
  }

  lemma FoundActive(es: Entries, name: seq<byte>)
    ensures var r := FindFrom(es, name, 0); r.Some? ==> r.value < |es| && es[r.value].state == Active
  {
  }

  /** The header's region count is exact while nothing crashes, and never off by more than the number of crashes,
      through saturating decrements and through recover, which leaves it alone. */
  lemma {:induction false} CountTracksReality(p: Pool, c: Cat, evs: seq<Event>, d: nat)
    requires p.Ok() && |c.entries| == MAX_REGIONS && History(p, c, evs)
    requires OffBy(c, d) && d + Crashes(evs) + MAX_REGIONS + 1 < U64_LIMIT
    ensures |AfterAll(p, c, evs).entries| == MAX_REGIONS && OffBy(AfterAll(p, c, evs), d + Crashes(evs))
    decreases |evs|
  {
    hide OffBy, Happens;
    if evs != [] {
      EventCounts(p, c, evs[0], d);
      CountTracksReality(p, After(p, c, evs[0]), evs[1..], if evs[0].Crashed? then d + 1 else d);
    }
  }

  /** On a fresh catalog both start out right. */
  predicate Fresh(p: Pool, c: Cat) {
    && |c.entries| == MAX_REGIONS && c.dataStart == p.DataStart() && c.count == 0
    && forall i | 0 <= i < MAX_REGIONS :: c.entries[i].state == Free
  }

  lemma {:induction false} NoneActive(es: Entries, n: nat)
    requires n <= |es| && forall i | 0 <= i < |es| :: es[i].state != Active
    ensures ActiveCount(es, n) == 0
  {
    if n > 0 {
      NoneActive(es, n - 1);
    }
  }

  /** From init on: placement over every history, the count exact without crashes and within their number otherwise. */
  lemma FromInit(p: Pool, c: Cat, evs: seq<Event>)
    requires p.Ok() && Fresh(p, c) && History(p, c, evs)
    ensures SizesAddUp(p, c, evs) ==> WellPlaced(p, AfterAll(p, c, evs))
    ensures Crashes(evs) + MAX_REGIONS + 1 < U64_LIMIT ==> OffBy(AfterAll(p, c, evs), Crashes(evs))
    ensures Crashes(evs) == 0 ==> AfterAll(p, c, evs).count == |List(AfterAll(p, c, evs))|
  {
    hide WellPlaced, History, SizesAddUp, AfterAll;
    assert WellPlaced(p, c) by {
      FreshPlaced(p, c);
    }
    NoneActive(c.entries, MAX_REGIONS);
    if SizesAddUp(p, c, evs) {
      PlacementHolds(p, c, evs);
    }
    if Crashes(evs) + MAX_REGIONS + 1 < U64_LIMIT {
      CountTracksReality(p, c, evs, 0);
    }
    ListLength(AfterAll(p, c, evs).entries, |AfterAll(p, c, evs).entries|);
  }

  lemma FreshPlaced(p: Pool, c: Cat)
    requires Fresh(p, c)
    ensures WellPlaced(p, c)
  {
  }
}
