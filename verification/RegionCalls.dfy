/** What the allocator's calls answer and change, in terms of the catalog's entries and the regions listed. */
module RegionCalls {
  import opened Bytes
  import opened Catalog
  import opened Regions

  // ---- list_regions and find_region ----

  lemma ListStep(es: Entries, n: nat)
    requires n < |es|
    ensures ListOf(es, 0) == []
    ensures ListOf(es, n + 1)
         == if es[n].state == Active then ListOf(es, n) + [RegionHandle(n, es[n].name, es[n].offset, es[n].size)]
            else ListOf(es, n)
  {
  }

  /** list_regions goes by catalog slot: its slots are strictly increasing. */
  lemma {:induction false} ListInOrder(es: Entries, n: nat)
    requires n <= |es|
    ensures var hs := ListOf(es, n);
            && (forall i | 0 <= i < |hs| :: hs[i].slot < n)
            && (forall i, j | 0 <= i < j < |hs| :: hs[i].slot < hs[j].slot)
  {
    if n > 0 {
      ListStep(es, n - 1);
      ListInOrder(es, n - 1);
      hide ListOf;
    }
  }

  /** find_region returns a region that is listed, under the name asked for, and NotFound exactly if none is. */
  lemma FindMeans(c: Cat, name: seq<byte>)
    ensures var r := FindResult(c, name);
            && (r.Ok? ==> r.value in List(c) && r.value.name == name)
            && (r.Err? ==> r.error == NotFound(name))
            && (r.Err? <==> forall h | h in List(c) :: h.name != name)
  {
    hide FindFrom, ListOf;
    match FindFrom(c.entries, name, 0) {
      case Some(i) =>
        ListHas(c.entries, |c.entries|, FindResult(c, name).value);
      case None =>
        forall h | h in List(c) ensures h.name != name {
          ListHas(c.entries, |c.entries|, h);
          assert !Named(c.entries[h.slot], name);
        }
    }
  }

  /** Names are unique in a well-placed catalog, so it is the only region of that name. */
  lemma FindIsTheOne(p: Pool, c: Cat, h: RegionHandle)
    requires WellPlaced(p, c) && h in List(c)
    ensures FindResult(c, h.name) == Ok(h)
  {
    hide FindFrom, ListOf;
    FindMeans(c, h.name);
    var g := FindResult(c, h.name).value;
    ListHas(c.entries, |c.entries|, h);
    ListHas(c.entries, |c.entries|, g);
    assert g.slot < h.slot || h.slot < g.slot || g == h;
  }

  // ---- create_region ----

  /** x is a line-aligned offset past the catalog and every region, with room for size bytes in the pool. */
  predicate Room(p: Pool, c: Cat, size: nat, x: nat) {
    && x % 64 == 0 && p.DataStart() <= x && x + size <= p.End()
    && forall i | 0 <= i < |c.entries| && (c.entries[i].state == Active || c.entries[i].state == Allocating) ::
         c.entries[i].offset + c.entries[i].size <= x
  }

  /** The next free offset is the least line-aligned one past the catalog and every region. */
  lemma NextFreeIsLeast(p: Pool, c: Cat, size: nat, x: nat)
    requires p.Ok() && WellPlaced(p, c) && Room(p, c, size, x)
    ensures NextFree(c) <= x
  {
    hide MaxEnd;
    MaxEndBounds(c.entries, MAX_REGIONS, c.dataStart, x);
    MaxEndBounds(c.entries, MAX_REGIONS, c.dataStart, p.End());
    AlignUpBounds(MaxEnd(c.entries, MAX_REGIONS, c.dataStart));
  }

  /** When create_region succeeds, for a size that adds up: the name is short enough and not in use, some entry is free,
      and there is room, an exact fit included. */
  lemma CreateSucceedsIff(p: Pool, c: Cat, name: seq<byte>, size: u64)
    requires p.Ok() && WellPlaced(p, c) && SizeAddsUp(c, size)
    ensures CreateResult(p, c, name, size).Ok? <==>
              && |name| <= 24 && (forall h | h in List(c) :: h.name != name)
              && (exists i :: 0 <= i < |c.entries| && c.entries[i].state == Free)
              && (exists x: nat :: Room(p, c, size, x))
  {
    hide FindFrom, FreeFrom, ListOf, NextFree;
    FindMeans(c, name);
    FindAgrees(c, name);
    NextFreePast(p, c);
    WrapCases(NextFree(c), size);
    if NextFree(c) + size <= p.End() {
      assert Room(p, c, size, NextFree(c));
    }
    if x: nat :| Room(p, c, size, x) {
      NextFreeIsLeast(p, c, size, x);
    }
  }

  lemma FindAgrees(c: Cat, name: seq<byte>)
    ensures FindResult(c, name).Ok? <==> FindFrom(c.entries, name, 0).Some?
  {
  }

  /** What it returns then: the first free slot, the name and size asked for, and the least offset with room. */
  lemma CreateReturns(p: Pool, c: Cat, name: seq<byte>, size: u64)
    requires p.Ok() && WellPlaced(p, c) && SizeAddsUp(c, size) && CreateResult(p, c, name, size).Ok?
    ensures var h := CreateResult(p, c, name, size).value;
            && h.slot < |c.entries| && c.entries[h.slot].state == Free
            && (forall k | 0 <= k < h.slot :: c.entries[k].state != Free)
            && h.name == name && h.size == size
            && Room(p, c, size, h.offset) && forall x: nat | Room(p, c, size, x) :: h.offset <= x
  {
    hide FindFrom, FreeFrom, NextFree;
    NextFreePast(p, c);
    WrapCases(NextFree(c), size);
    forall x: nat | Room(p, c, size, x) ensures NextFree(c) <= x {
      NextFreeIsLeast(p, c, size, x);
    }
  }

  /** Why it fails otherwise, in the order of the checks. */
  lemma CreateFailsBy(p: Pool, c: Cat, name: seq<byte>, size: u64)
    requires p.Ok()
    ensures var r := CreateResult(p, c, name, size);
            var taken := exists h :: h in List(c) && h.name == name;
            var full := forall i | 0 <= i < |c.entries| :: c.entries[i].state != Free;
            && (|name| > 24 ==> r == Err(NameTooLong))
            && (|name| <= 24 && taken ==> r == Err(NameExists(name)))
            && (|name| <= 24 && !taken && full ==> r == Err(CatalogFull))
            && (|name| <= 24 && !taken && !full ==>
                  if (NextFree(c) + size) % U64_LIMIT > p.End()
                  then r == Err(OutOfSpace(size, Max(p.End() - NextFree(c), 0))) else r.Ok?)
  {
    hide FindFrom, FreeFrom, ListOf, NextFree;
    FindMeans(c, name);
    FindAgrees(c, name);
  }

  /** After a create the regions listed are those of before and the new one; no other entry has changed. */
  lemma CreateAdds(p: Pool, c: Cat, name: seq<byte>, size: u64, g: RegionHandle)
    requires p.Ok() && CreateResult(p, c, name, size).Ok?
    ensures var h := CreateResult(p, c, name, size).value;
            var r := AfterCreate(p, c, name, size);
            && (g in List(r) <==> g == h || g in List(c))
            && |r.entries| == |c.entries|
            && h.slot < |c.entries| && r.entries[h.slot] == CatalogEntry(Active, name, h.offset, size, 0)
            && (forall i | 0 <= i < |c.entries| && i != h.slot :: r.entries[i] == c.entries[i])
            && r.count == WrapAdd(c.count, 1) && r.dataStart == c.dataStart
  {
    hide FindFrom, FreeFrom, ListOf, NextFree, WrapAdd;
    CreatedSlot(p, c, name, size);
    var r := AfterCreate(p, c, name, size);
    ListHas(c.entries, |c.entries|, g);
    ListHas(r.entries, |r.entries|, g);
  }

  /** So find_region then returns exactly the handle that create returned. */
  lemma FindAfterCreate(p: Pool, c: Cat, name: seq<byte>, size: u64)
    requires p.Ok() && CreateResult(p, c, name, size).Ok?
    ensures FindResult(AfterCreate(p, c, name, size), name) == CreateResult(p, c, name, size)
  {
    hide FindFrom, FreeFrom, ListOf, NextFree, WrapAdd;
    var h := CreateResult(p, c, name, size).value;
    var r := AfterCreate(p, c, name, size);
    CreatedSlot(p, c, name, size);
    FindMeans(r, name);
    CreateAdds(p, c, name, size, h);
    var g := FindResult(r, name).value;
    CreateAdds(p, c, name, size, g);
    if g != h {
      FindMeans(c, name);
      FindAgrees(c, name);
      assert false;
    }
  }

  // ---- free_region ----

  /** free_region frees a region exactly if one of that name is listed; on a well-placed catalog the regions listed
      afterwards are those of other names, and no other entry has changed. */
  lemma FreeRemoves(p: Pool, c: Cat, name: seq<byte>, g: RegionHandle)
    requires WellPlaced(p, c)
    ensures g in List(AfterFree(c, name)) <==> g in List(c) && g.name != name
    ensures FindResult(AfterFree(c, name), name) == Err(NotFound(name))
    ensures var r := AfterFree(c, name);
            && |r.entries| == |c.entries| && r.dataStart == c.dataStart
            && (forall i | 0 <= i < |c.entries| && !(c.entries[i].state == Active && c.entries[i].name == name) ::
                  r.entries[i] == c.entries[i])
            && (forall i | 0 <= i < |c.entries| && c.entries[i].state == Active && c.entries[i].name == name ::
                  r.entries[i] == c.entries[i].(state := Free))
  {
    hide FindFrom, ListOf;
    var r := AfterFree(c, name);
    OthersDiffer(p, c, name);
    ListHas(c.entries, |c.entries|, g);
    ListHas(r.entries, |r.entries|, g);
    FindMeans(r, name);
    forall h | h in List(r) ensures h.name != name {
      ListHas(r.entries, |r.entries|, h);
    }
  }

  /** Only the entry found has that name. */
  lemma OthersDiffer(p: Pool, c: Cat, name: seq<byte>)
    requires WellPlaced(p, c)
    ensures var f := FindFrom(c.entries, name, 0);
            && (f.Some? ==> f.value < |c.entries| && Named(c.entries[f.value], name))
            && forall i | 0 <= i < |c.entries| && Named(c.entries[i], name) :: f == Some(i)
  {
    hide FindFrom;
    var f := FindFrom(c.entries, name, 0);
    forall i | 0 <= i < |c.entries| && Named(c.entries[i], name) ensures f == Some(i) {
    }
  }

  /** The count goes down by one if a region was freed, but never below 0. */
  lemma FreeCounts(c: Cat, name: seq<byte>)
    ensures AfterFree(c, name).count
         == if (exists h :: h in List(c) && h.name == name) && c.count > 0 then c.count - 1 else c.count
  {
    hide FindFrom, ListOf;
    FindMeans(c, name);
    FindAgrees(c, name);
  }

  // ---- recover ----

  /** recover frees exactly the entries that are ALLOCATING or FREEING, changing nothing of them but the state, and
      leaves all others, the count and the data start alone; so every entry ends FREE or ACTIVE. */
  lemma RecoverFrees(c: Cat, i: nat)
    requires i < |c.entries|
    ensures var r := AfterRecover(c);
            && |r.entries| == |c.entries| && r.count == c.count && r.dataStart == c.dataStart
            && r.entries[i] == (if c.entries[i].state == Allocating || c.entries[i].state == Freeing
                                then c.entries[i].(state := Free) else c.entries[i])
            && (r.entries[i].state == Free || r.entries[i].state == Active)
  {
  }

  lemma {:induction false} UnfinishedAre(es: Entries, n: nat)
    requires n <= |es|
    ensures UnfinishedCount(es, n) == |set i: nat | i < n && Unfinished(es[i])|
  {
    hide Unfinished;
    if n > 0 {
      UnfinishedAre(es, n - 1);
      var before := set i: nat | i < n - 1 && Unfinished(es[i]);
      var after := set i: nat | i < n && Unfinished(es[i]);
      assert after == if Unfinished(es[n - 1]) then before + {n - 1} else before;
    }
  }

  /** It returns how many there were. */
  lemma RecoverCounts(es: Entries)
    ensures UnfinishedCount(es, |es|)
         == |set i: nat | i < |es| && (es[i].state == Allocating || es[i].state == Freeing)|
  {
    UnfinishedAre(es, |es|);
    assert (set i: nat | i < |es| && Unfinished(es[i]))
        == (set i: nat | i < |es| && (es[i].state == Allocating || es[i].state == Freeing));
  }

  /** A second recover changes nothing and returns 0. */
  lemma RecoverTwice(c: Cat)
    ensures AfterRecover(AfterRecover(c)) == AfterRecover(c)
    ensures UnfinishedCount(AfterRecover(c).entries, |c.entries|) == 0
  {
    var r := AfterRecover(c);
    assert AfterRecover(r).entries == r.entries;
    RecoverCounts(r.entries);
    assert (set i: nat | i < |c.entries| && (r.entries[i].state == Allocating || r.entries[i].state == Freeing)) == {};
  }

  /** After any crash during any call, recover leaves no entry ALLOCATING or FREEING: every slot is free or in use,
      and one that was being created or freed is free again unless it is listed. */
  lemma SettledAfterCrash(p: Pool, c: Cat, call: Call, x: Cat, i: nat)
    requires p.Ok() && CrashLeaves(p, c, call, x) && i < |c.entries|
    ensures var r := AfterRecover(x);
            && |r.entries| == |c.entries|
            && (r.entries[i].state == Free || r.entries[i].state == Active)
            && (r.entries[i].state == Active <==> exists h :: h in List(r) && h.slot == i)
            && (c.entries[i].state == Free && !call.Create? ==> r.entries[i].state == Free)
  {
    hide CreateResult, FindFrom, ListOf;
    var r := AfterRecover(x);
    LeftSized(p, c, call, x);
    RecoverFrees(x, i);
    if r.entries[i].state == Active {
      var h := RegionHandle(i, r.entries[i].name, r.entries[i].offset, r.entries[i].size);
      ListHas(r.entries, |r.entries|, h);
      assert h in List(r) && h.slot == i;
    } else {
      forall h | h in List(r) ensures h.slot != i {
        ListHas(r.entries, |r.entries|, h);
      }
    }
  }

  lemma LeftSized(p: Pool, c: Cat, call: Call, x: Cat)
    requires p.Ok() && CrashLeaves(p, c, call, x)
    ensures |x.entries| == |c.entries|
    ensures !call.Create? ==>
              forall i | 0 <= i < |c.entries| && c.entries[i].state == Free :: x.entries[i].state == Free
  {
    hide CreateResult, FindFrom;
    if call.Create? && CreateResult(p, c, call.name, call.size).Ok? {
      CreatedSlot(p, c, call.name, call.size);
    }
    if call.FreeRegion? {
      FoundActive(c.entries, call.name);
    }
  }
}
