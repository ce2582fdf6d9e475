/** Whole lives of a pool on bytes: calls, completed or cut short by a crash, client writes and evictions. */
module AllocatorHistory {
  import opened Bytes
  import opened Media
  import opened CrashRuns
  import opened Catalog
  import opened Regions
  import opened AllocatorCrash

  /** A call with some run of its program, which a crash cuts short or which goes through; a client's store to region
      data; the eviction of a line between calls. */
  datatype Episode =
    | Calling(call: Call, run: seq<MemOp>, k: nat, crash: bool)
    | DataWrite(off: nat, bytes: seq<byte>)
    | Evicted(line: nat)

  ghost predicate Playable(p: Pool, m: Mem, ep: Episode)
    requires p.Ok() && Settled(m, p.base)
  {
    match ep
    case Calling(call, run, k, crash) =>
      var prog := ProgramOf(p, View(m.vol, p.base), call);
      Runs(prog, run, k) && (!crash ==> k == |prog|)
    case DataWrite(off, bytes) => p.DataStart() <= off && off + |bytes| <= |m.vol|
    case Evicted(_) => true
  }

  /** Memory after an episode. A crash leaves what is durable. */
  ghost function Played(p: Pool, m: Mem, ep: Episode): (r: Mem)
    requires p.Ok() && Settled(m, p.base) && Playable(p, m, ep)
    ensures Settled(r, p.base)
  {
    match ep
    case Calling(call, run, k, crash) =>
      CallRun(p, m, call, run, k);
      var x := RunMem(m, ProgramOf(p, View(m.vol, p.base), call), run, k);
      if crash then Mem(x.dur, x.dur) else x
    case DataWrite(off, bytes) => Apply(m, Store(off, bytes))
    case Evicted(line) => Apply(m, WriteBack(line))
  }

  ghost predicate Life(p: Pool, m: Mem, eps: seq<Episode>)
    requires p.Ok() && Settled(m, p.base)
    decreases |eps|
  {
    eps != [] ==> Playable(p, m, eps[0]) && Life(p, Played(p, m, eps[0]), eps[1..])
  }

  ghost function AfterLife(p: Pool, m: Mem, eps: seq<Episode>): (r: Mem)
    requires p.Ok() && Settled(m, p.base) && Life(p, m, eps)
    ensures Settled(r, p.base)
    decreases |eps|
  {
    if eps == [] then m else AfterLife(p, Played(p, m, eps[0]), eps[1..])
  }

  function CrashCount(eps: seq<Episode>): nat {
    if eps == [] then 0 else CrashCount(eps[1..]) + if eps[0].Calling? && eps[0].crash then 1 else 0
  }

  /** Every create asks for a size that adds up when it is called. */
  ghost predicate LifeAddsUp(p: Pool, m: Mem, eps: seq<Episode>)
    requires p.Ok() && Settled(m, p.base) && Life(p, m, eps)
    decreases |eps|
  {
    eps != [] ==>
      && (eps[0].Calling? && eps[0].call.Create? ==> SizeAddsUp(View(m.vol, p.base), eps[0].call.size))
      && LifeAddsUp(p, Played(p, m, eps[0]), eps[1..])
  }

  /** An episode as the catalog sees it. */
  ghost function EventOf(p: Pool, m: Mem, ep: Episode): (ev: Event)
    requires p.Ok() && Settled(m, p.base) && Playable(p, m, ep) && ep.Calling?
  {
    if ep.crash then Crashed(ep.call, View(Played(p, m, ep).vol, p.base)) else Done(ep.call)
  }

  lemma EpisodeIsEvent(p: Pool, m: Mem, ep: Episode)
    requires p.Ok() && Settled(m, p.base) && Playable(p, m, ep)
    ensures Settled(Played(p, m, ep), p.base)
    ensures ep.Calling? ==>
              && Happens(p, View(m.vol, p.base), EventOf(p, m, ep))
              && View(Played(p, m, ep).vol, p.base) == After(p, View(m.vol, p.base), EventOf(p, m, ep))
    ensures !ep.Calling? ==> View(Played(p, m, ep).vol, p.base) == View(m.vol, p.base)
  {
    hide View, ProgramOf, RunMem, CrashLeaves, AfterCall;
    match ep {
      case Calling(call, run, k, crash) => CallRun(p, m, call, run, k);
      case DataWrite(off, bytes) => SameView(m.vol, Played(p, m, ep).vol, p.base);
      case Evicted(line) =>
    }
  }

  /** Over every life of a pool whose sizes add up, live regions stay disjoint, aligned, inside the pool, off the
      catalog and uniquely named; and the header's count is off by at most the number of crashes. */
  lemma {:induction false} LivesAreSafe(p: Pool, m: Mem, eps: seq<Episode>, d: nat)
    requires p.Ok() && Settled(m, p.base) && Life(p, m, eps)
    requires OffBy(View(m.vol, p.base), d) && d + CrashCount(eps) + MAX_REGIONS + 1 < U64_LIMIT
    ensures OffBy(View(AfterLife(p, m, eps).vol, p.base), d + CrashCount(eps))
    ensures WellPlaced(p, View(m.vol, p.base)) && LifeAddsUp(p, m, eps) ==>
            WellPlaced(p, View(AfterLife(p, m, eps).vol, p.base))
    decreases |eps|
  {
    hide View, Playable, Played, WellPlaced, OffBy, Happens, After, EventOf, SizeAddsUp;
    if eps != [] {
      var c := View(m.vol, p.base);
      EpisodeIsEvent(p, m, eps[0]);
      if eps[0].Calling? {
        var ev := EventOf(p, m, eps[0]);
        EventShape(p, m, eps[0]);
        EventCounts(p, c, ev, d);
        if WellPlaced(p, c) && LifeAddsUp(p, m, eps) {
          EventKeepsPlaced(p, c, ev);
        }
      }
      LivesAreSafe(p, Played(p, m, eps[0]), eps[1..], if eps[0].Calling? && eps[0].crash then d + 1 else d);
    }
  }

  lemma EventShape(p: Pool, m: Mem, ep: Episode)
    requires p.Ok() && Settled(m, p.base) && Playable(p, m, ep) && ep.Calling?
    ensures EventOf(p, m, ep).call == ep.call && EventOf(p, m, ep).Crashed? == ep.crash
    ensures |View(m.vol, p.base).entries| == MAX_REGIONS
  {
    hide View, Played;
  }

  /** A life without crashes after init: the header's count is the number of regions listed. */
  lemma CountExactWithoutCrashes(p: Pool, m: Mem, eps: seq<Episode>)
    requires p.Ok() && Settled(m, p.base) && Life(p, m, eps) && Fresh(p, View(m.vol, p.base)) && CrashCount(eps) == 0
    ensures var c := View(AfterLife(p, m, eps).vol, p.base); c.count == |List(c)|
  {
    hide View, Life, AfterLife;
    var c := View(m.vol, p.base);
    NoneActive(c.entries, MAX_REGIONS);
    LivesAreSafe(p, m, eps, 0);
    var x := View(AfterLife(p, m, eps).vol, p.base);
    ListLength(x.entries, |x.entries|);
  }
}
