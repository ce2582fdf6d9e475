/** The metrics blocks on a byte array (metrics.rs). */
module Metrics {
  import opened Bytes
  import opened Layout
  import opened Media
  import opened Recovery

  const METRICS_APPENDS_TOTAL := 0
  const METRICS_APPENDS_FAILED := 8
  const METRICS_BYTES_WRITTEN := 16
  const METRICS_READS_TOTAL := 24
  const METRICS_CHECKSUM_FAILURES := 32
  const METRICS_RECOVERY_RUNS := 40
  const METRICS_ABANDONED_FOUND := 48

  datatype PoolStats = PoolStats(appendsTotal: u64, appendsFailed: u64, bytesWritten: u64, readsTotal: u64,
                                 checksumFailures: u64, recoveryRuns: u64, abandonedFound: u64)

  predicate FieldOk(field: nat) { field % 8 == 0 && field <= METRICS_ABANDONED_FOUND }

  /** One counter of one host. */
  function Counter(g: Geometry, v: seq<byte>, host: nat, field: nat): u64
    requires g.Ok() && |v| == g.totalSize && host < g.maxHosts && FieldOk(field)
  {
    WordAt(v, g.MetricsOffset(host) + field)
  }

  /** Memory after n is added to one counter. */
  function BumpMem(g: Geometry, m: Mem, host: nat, field: nat, n: u64): (r: Mem)
    requires g.Ok() && Sized(m, g.totalSize) && host < g.maxHosts && FieldOk(field)
    ensures Sized(r, g.totalSize)
  {
    Apply(m, Store(g.MetricsOffset(host) + field, LE(WrapAdd(Counter(g, m.vol, host, field), n), 8)))
  }

  /** An increment changes its counter by n, no other counter of any host, and nothing below the metrics blocks. */
  lemma BumpExact(g: Geometry, m: Mem, host: nat, field: nat, n: u64)
    requires g.Ok() && Sized(m, g.totalSize) && host < g.maxHosts && FieldOk(field)
    ensures var r := BumpMem(g, m, host, field, n);
            && r.dur == m.dur
            && (forall h: nat, f: nat | h < g.maxHosts && FieldOk(f) ::
                  Counter(g, r.vol, h, f)
                    == if h == host && f == field then WrapAdd(Counter(g, m.vol, h, f), n) else Counter(g, m.vol, h, f))
            && g.RecordsEnd() <= |m.vol| && r.vol[..g.RecordsEnd()] == m.vol[..g.RecordsEnd()]
  {
    hide WrapAdd, BumpMem;
    BumpBelow(g, m, host, field, n);
    forall h: nat, f: nat | h < g.maxHosts && FieldOk(f)
      ensures Counter(g, BumpMem(g, m, host, field, n).vol, h, f)
           == if h == host && f == field then WrapAdd(Counter(g, m.vol, h, f), n) else Counter(g, m.vol, h, f)
    {
      BumpCounter(g, m, host, field, n, h, f);
    }
  }

  lemma BumpBelow(g: Geometry, m: Mem, host: nat, field: nat, n: u64)
    requires g.Ok() && Sized(m, g.totalSize) && host < g.maxHosts && FieldOk(field)
    ensures var r := BumpMem(g, m, host, field, n);
            && r.dur == m.dur
            && g.RecordsEnd() <= |m.vol| && r.vol[..g.RecordsEnd()] == m.vol[..g.RecordsEnd()]
  {
    hide WrapAdd, Counter;
  }

  lemma BumpCounter(g: Geometry, m: Mem, host: nat, field: nat, n: u64, h: nat, f: nat)
    requires g.Ok() && Sized(m, g.totalSize) && host < g.maxHosts && FieldOk(field) && h < g.maxHosts && FieldOk(f)
    ensures Counter(g, BumpMem(g, m, host, field, n).vol, h, f)
         == if h == host && f == field then WrapAdd(Counter(g, m.vol, h, f), n) else Counter(g, m.vol, h, f)
  {
    hide WrapAdd, WordAt;
    var off := g.MetricsOffset(host) + field;
    var x := WrapAdd(Counter(g, m.vol, host, field), n);
    if h == host && f == field {
      WordHere(m.vol, off, x);
    } else {
      CountersApart(g, host, field, h, f);
      WordApart(m.vol, off, LE(x, 8), g.MetricsOffset(h) + f);
    }
  }

  lemma CountersApart(g: Geometry, host: nat, field: nat, h: nat, f: nat)
    requires g.Ok() && FieldOk(field) && FieldOk(f) && !(h == host && f == field)
    ensures g.MetricsOffset(host) + field + 8 <= g.MetricsOffset(h) + f
            || g.MetricsOffset(h) + f + 8 <= g.MetricsOffset(host) + field
  {
    BlocksApart(g.RecordsEnd(), host, field, h, f);
  }

  lemma BlocksApart(base: nat, host: nat, field: nat, h: nat, f: nat)
    requires FieldOk(field) && FieldOk(f) && !(h == host && f == field)
    ensures var a, b := base + host * CACHELINE + field, base + h * CACHELINE + f; a + 8 <= b || b + 8 <= a
  {
  }

  lemma CounterAligned(g: Geometry, host: nat, field: nat)
    requires g.Ok() && host < g.maxHosts && FieldOk(field)
    ensures (g.MetricsOffset(host) + field) % 8 == 0
  {
    AlignedField(g, Region.Metrics(host), field);
  }

  method Increment(g: Geometry, media: Backend, host: nat, field: nat, n: u64)
    requires g.Ok() && media.Valid() && media.vol.Length == g.totalSize && host < g.maxHosts && FieldOk(field)
    modifies media, media.vol
    ensures media.Valid() && media.M() == BumpMem(g, old(media.M()), host, field, n)
    ensures old(media.trace) <= media.trace
  {
    CounterAligned(g, host, field);
    var off := g.MetricsOffset(host) + field;
    assert media.vol[off..off + 8] == media.vol[..][off..off + 8];
    var previous := media.FetchAddU64(off, n);
  }

  /** A counter summed over the first n hosts, as read_stats adds them up. */
  function SumOver(g: Geometry, v: seq<byte>, field: nat, n: nat): u64
    requires g.Ok() && |v| == g.totalSize && FieldOk(field) && n <= g.maxHosts
  {
    if n == 0 then 0 else WrapAdd(SumOver(g, v, field, n - 1), Counter(g, v, n - 1, field))
  }

  /** What read_stats reports. */
  function Tally(g: Geometry, v: seq<byte>): PoolStats
    requires g.Ok() && |v| == g.totalSize
  {
    PoolStats(SumOver(g, v, METRICS_APPENDS_TOTAL, g.maxHosts), SumOver(g, v, METRICS_APPENDS_FAILED, g.maxHosts),
              SumOver(g, v, METRICS_BYTES_WRITTEN, g.maxHosts), SumOver(g, v, METRICS_READS_TOTAL, g.maxHosts),
              SumOver(g, v, METRICS_CHECKSUM_FAILURES, g.maxHosts), SumOver(g, v, METRICS_RECOVERY_RUNS, g.maxHosts),
              SumOver(g, v, METRICS_ABANDONED_FOUND, g.maxHosts))
  }

  /** The aggregate after n is added to one counter of one host. */
  function Charge(t: PoolStats, field: nat, n: u64): PoolStats
    requires FieldOk(field)
  {
    if field == METRICS_APPENDS_TOTAL then t.(appendsTotal := WrapAdd(t.appendsTotal, n))
    else if field == METRICS_APPENDS_FAILED then t.(appendsFailed := WrapAdd(t.appendsFailed, n))
    else if field == METRICS_BYTES_WRITTEN then t.(bytesWritten := WrapAdd(t.bytesWritten, n))
    else if field == METRICS_READS_TOTAL then t.(readsTotal := WrapAdd(t.readsTotal, n))
    else if field == METRICS_CHECKSUM_FAILURES then t.(checksumFailures := WrapAdd(t.checksumFailures, n))
    else if field == METRICS_RECOVERY_RUNS then t.(recoveryRuns := WrapAdd(t.recoveryRuns, n))
    else t.(abandonedFound := WrapAdd(t.abandonedFound, n))
  }

  lemma {:induction false} SumBumped(g: Geometry, m: Mem, host: nat, field: nat, n: u64, f: nat, k: nat)
    requires g.Ok() && Sized(m, g.totalSize) && host < g.maxHosts && FieldOk(field) && FieldOk(f) && k <= g.maxHosts
    ensures SumOver(g, BumpMem(g, m, host, field, n).vol, f, k)
         == if f == field && host < k then WrapAdd(SumOver(g, m.vol, f, k), n) else SumOver(g, m.vol, f, k)
  {
    hide WrapAdd, Counter, BumpMem;
    if k > 0 {
      SumBumped(g, m, host, field, n, f, k - 1);
      BumpExact(g, m, host, field, n);
      WrapAddSwap(SumOver(g, m.vol, f, k - 1), Counter(g, m.vol, k - 1, f), n);
      WrapAssoc(SumOver(g, m.vol, f, k - 1), Counter(g, m.vol, k - 1, f), n);
    }
  }

  /** One host's increment shows up, once, in the aggregate of its counter and in no other. */
  lemma BumpTally(g: Geometry, m: Mem, host: nat, field: nat, n: u64)
    requires g.Ok() && Sized(m, g.totalSize) && host < g.maxHosts && FieldOk(field)
    ensures Tally(g, BumpMem(g, m, host, field, n).vol) == Charge(Tally(g, m.vol), field, n)
  {
    hide WrapAdd, Counter, BumpMem, SumOver;
    SumBumped(g, m, host, field, n, METRICS_APPENDS_TOTAL, g.maxHosts);
    SumBumped(g, m, host, field, n, METRICS_APPENDS_FAILED, g.maxHosts);
    SumBumped(g, m, host, field, n, METRICS_BYTES_WRITTEN, g.maxHosts);
    SumBumped(g, m, host, field, n, METRICS_READS_TOTAL, g.maxHosts);
    SumBumped(g, m, host, field, n, METRICS_CHECKSUM_FAILURES, g.maxHosts);
    SumBumped(g, m, host, field, n, METRICS_RECOVERY_RUNS, g.maxHosts);
    SumBumped(g, m, host, field, n, METRICS_ABANDONED_FOUND, g.maxHosts);
  }

  /** Which aggregate each counter of a block feeds, by their offsets in the block. */
  lemma CountersByName(g: Geometry, m: Mem, host: nat, n: u64)
    requires g.Ok() && Sized(m, g.totalSize) && host < g.maxHosts
    ensures var t := Tally(g, m.vol);
            && Tally(g, BumpMem(g, m, host, 0, n).vol) == t.(appendsTotal := WrapAdd(t.appendsTotal, n))
            && Tally(g, BumpMem(g, m, host, 8, n).vol) == t.(appendsFailed := WrapAdd(t.appendsFailed, n))
            && Tally(g, BumpMem(g, m, host, 16, n).vol) == t.(bytesWritten := WrapAdd(t.bytesWritten, n))
            && Tally(g, BumpMem(g, m, host, 24, n).vol) == t.(readsTotal := WrapAdd(t.readsTotal, n))
            && Tally(g, BumpMem(g, m, host, 32, n).vol) == t.(checksumFailures := WrapAdd(t.checksumFailures, n))
            && Tally(g, BumpMem(g, m, host, 40, n).vol) == t.(recoveryRuns := WrapAdd(t.recoveryRuns, n))
            && Tally(g, BumpMem(g, m, host, 48, n).vol) == t.(abandonedFound := WrapAdd(t.abandonedFound, n))
  {
    hide WrapAdd, BumpMem, Tally;
    forall f: nat | FieldOk(f) ensures Tally(g, BumpMem(g, m, host, f, n).vol) == Charge(Tally(g, m.vol), f, n) {
      BumpTally(g, m, host, f, n);
    }
  }

  /** Pools that agree on the metrics blocks have the same counters. */
  ghost predicate SameMetrics(g: Geometry, v: seq<byte>, w: seq<byte>) {
    |v| == |w| && forall i | 0 <= i < |v| && g.RecordsEnd() <= i :: v[i] == w[i]
  }

  lemma {:induction false} SameSums(g: Geometry, v: seq<byte>, w: seq<byte>, f: nat, k: nat)
    requires g.Ok() && |v| == g.totalSize && SameMetrics(g, v, w) && FieldOk(f) && k <= g.maxHosts
    ensures SumOver(g, v, f, k) == SumOver(g, w, f, k)
  {
    hide WrapAdd;
    if k > 0 {
      SameSums(g, v, w, f, k - 1);
      SameWordAt(v, w, g.MetricsOffset(k - 1) + f, g.RecordsEnd());
    }
  }

  lemma SameWordAt(v: seq<byte>, w: seq<byte>, off: nat, lo: nat)
    requires |v| == |w| && lo <= off && off + 8 <= |v| && forall i | 0 <= i < |v| && lo <= i :: v[i] == w[i]
    ensures WordAt(v, off) == WordAt(w, off)
  {
    assert v[off..off + 8] == w[off..off + 8];
  }

  lemma SameTally(g: Geometry, v: seq<byte>, w: seq<byte>)
    requires g.Ok() && |v| == g.totalSize && SameMetrics(g, v, w)
    ensures Tally(g, v) == Tally(g, w)
  {
    hide SumOver, SameMetrics;
    SameSums(g, v, w, METRICS_APPENDS_TOTAL, g.maxHosts);
    SameSums(g, v, w, METRICS_APPENDS_FAILED, g.maxHosts);
    SameSums(g, v, w, METRICS_BYTES_WRITTEN, g.maxHosts);
    SameSums(g, v, w, METRICS_READS_TOTAL, g.maxHosts);
    SameSums(g, v, w, METRICS_CHECKSUM_FAILURES, g.maxHosts);
    SameSums(g, v, w, METRICS_RECOVERY_RUNS, g.maxHosts);
    SameSums(g, v, w, METRICS_ABANDONED_FOUND, g.maxHosts);
  }

  method LoadCounter(g: Geometry, media: Backend, host: nat, field: nat) returns (x: u64)
    requires g.Ok() && media.vol.Length == g.totalSize && host < g.maxHosts && FieldOk(field)
    ensures x == Counter(g, media.vol[..], host, field)
  {
    CounterAligned(g, host, field);
    var off := g.MetricsOffset(host) + field;
    x := media.LoadU64(off);
    assert media.vol[off..off + 8] == media.vol[..][off..off + 8];
  }

  method ReadStats(g: Geometry, media: Backend) returns (stats: PoolStats)
    requires g.Ok() && media.vol.Length == g.totalSize
    ensures stats == Tally(g, media.vol[..])
  {
    hide Counter;
    stats := PoolStats(0, 0, 0, 0, 0, 0, 0);
    ghost var v := media.vol[..];
    for host := 0 to g.maxHosts
      invariant stats == PoolStats(SumOver(g, v, METRICS_APPENDS_TOTAL, host),
              SumOver(g, v, METRICS_APPENDS_FAILED, host),
                                   SumOver(g, v, METRICS_BYTES_WRITTEN, host), SumOver(g, v, METRICS_READS_TOTAL, host),
                                   SumOver(g, v, METRICS_CHECKSUM_FAILURES, host),
                                       SumOver(g, v, METRICS_RECOVERY_RUNS, host),
                                   SumOver(g, v, METRICS_ABANDONED_FOUND, host))
    {
      var appends := LoadCounter(g, media, host, METRICS_APPENDS_TOTAL);
      var failed := LoadCounter(g, media, host, METRICS_APPENDS_FAILED);
      var written := LoadCounter(g, media, host, METRICS_BYTES_WRITTEN);
      var served := LoadCounter(g, media, host, METRICS_READS_TOTAL);
      var mismatches := LoadCounter(g, media, host, METRICS_CHECKSUM_FAILURES);
      var runs := LoadCounter(g, media, host, METRICS_RECOVERY_RUNS);
      var abandoned := LoadCounter(g, media, host, METRICS_ABANDONED_FOUND);
      stats := PoolStats(WrapAdd(stats.appendsTotal, appends), WrapAdd(stats.appendsFailed, failed),
                         WrapAdd(stats.bytesWritten, written), WrapAdd(stats.readsTotal, served),
                         WrapAdd(stats.checksumFailures, mismatches), WrapAdd(stats.recoveryRuns, runs),
                         WrapAdd(stats.abandonedFound, abandoned));
    }
  }
}
