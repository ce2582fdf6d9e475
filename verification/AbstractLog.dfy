/** The abstract log that a pool stands for between calls, gaps left by crashed writers included. */
module AbstractLog {
  import opened Bytes
  import opened Layout
  import opened Records

  /** A slot that was handed out: it holds an append's record, or a record that was trimmed since, or nothing, because
      its writer was gone before its COMMITTED state was durable. */
  datatype LogEntry = Live(args: Args) | Trimmed | Gap

  type Slots = seq<LogEntry>

  /** The slots handed out so far, the committed tail, and the reservations past the end that were never undone. */
  datatype Log = Log(slots: Slots, tail: nat, owed: nat)

  predicate EntryOk(g: Geometry, x: LogEntry) { x.Live? ==> ArgsOk(g, x.args) }

  /** The tail has passed records only, and nothing beyond it was trimmed; undos are owed only in a full pool. */
  ghost predicate LogOk(g: Geometry, log: Log) {
    && g.Ok() && log.tail <= |log.slots| <= g.capacity
    && (log.owed > 0 ==> |log.slots| == g.capacity) && |log.slots| + log.owed < U64_LIMIT
    && (forall u | 0 <= u < |log.slots| :: EntryOk(g, log.slots[u]))
    && (forall u | 0 <= u < log.tail :: !log.slots[u].Gap?)
    && (forall u | log.tail <= u < |log.slots| :: !log.slots[u].Trimmed?)
  }

  const EMPTY := Log([], 0, 0)

  /** The end of the run of live slots from t. */
  function EndFrom(slots: Slots, t: nat): (n: nat)
    requires t <= |slots|
    ensures t <= n <= |slots|
    decreases |slots| - t
  {
    if t < |slots| && slots[t].Live? then EndFrom(slots, t + 1) else t
  }

  /** It is maximal: everything passed is live, and it stops at the end of the log or at a gap. */
  lemma {:induction false} EndFromIsMaximal(slots: Slots, t: nat)
    requires t <= |slots|
    ensures var n := EndFrom(slots, t);
            && (forall u | t <= u < n :: slots[u].Live?)
            && (n < |slots| ==> !slots[n].Live?)
            && EndFrom(slots, n) == n
    decreases |slots| - t
  {
    if t < |slots| && slots[t].Live? {
      EndFromIsMaximal(slots, t + 1);
    }
  }

  /** A sweep moves the tail over the live slots from it. */
  function Swept(log: Log): Log
    requires log.tail <= |log.slots|
  {
    log.(tail := EndFrom(log.slots, log.tail))
  }

  /** An append extends the log by its record and sweeps. */
  function Extended(log: Log, x: LogEntry): Log { log.(slots := log.slots + [x]) }

  function AppendLog(log: Log, a: Args): Log
    requires log.tail <= |log.slots|
  {
    Swept(Extended(log, Live(a)))
  }

  function TrimSlots(slots: Slots, n: nat): (r: Slots)
    requires n <= |slots|
    ensures |r| == |slots|
    ensures forall u | 0 <= u < |slots| :: r[u] == if u < n then Trimmed else slots[u]
  {
    seq(|slots|, u requires 0 <= u < |slots| => if u < n then Trimmed else slots[u])
  }

  function TrimLog(log: Log, n: nat): Log
    requires n <= |log.slots|
  {
    log.(slots := TrimSlots(log.slots, n))
  }

  function LiveCount(slots: Slots, n: nat): nat
    requires n <= |slots|
  {
    if n == 0 then 0 else LiveCount(slots, n - 1) + if slots[n - 1].Live? then 1 else 0
  }

  function GapCount(slots: Slots, n: nat): (c: nat)
    requires n <= |slots|
    ensures c <= n
  {
    if n == 0 then 0 else GapCount(slots, n - 1) + if slots[n - 1].Gap? then 1 else 0
  }

  /** The records of slots [lo, hi) in order, trimmed ones left out. */
  ghost function LiveEntries(g: Geometry, log: Log, lo: nat, hi: nat): seq<Entry>
    requires LogOk(g, log) && lo <= hi <= log.tail
  {
    if lo == hi then []
    else
      var x := log.slots[hi - 1];
      LiveEntries(g, log, lo, hi - 1) + (if x.Live? then [EntryOf(hi - 1, x.args)] else [])
  }

  lemma {:induction false} LiveEntriesFew(g: Geometry, log: Log, lo: nat, hi: nat)
    requires LogOk(g, log) && lo <= hi <= log.tail
    ensures |LiveEntries(g, log, lo, hi)| <= hi - lo
  {
    if lo < hi {
      LiveEntriesFew(g, log, lo, hi - 1);
    }
  }

  lemma LogBounds(g: Geometry, log: Log)
    requires LogOk(g, log)
    ensures log.tail <= |log.slots| <= g.capacity < U32_LIMIT
    ensures forall u | 0 <= u < |log.slots| && log.slots[u].Live? :: log.slots[u].args.host < U16_LIMIT
  {
  }

  lemma LastEntry(g: Geometry, log: Log, lo: nat, hi: nat)
    requires LogOk(g, log) && lo < hi <= log.tail && hi - 1 < |log.slots|
    ensures hi <= U32_LIMIT && (log.slots[hi - 1].Live? ==> log.slots[hi - 1].args.host < U16_LIMIT)
    ensures LiveEntries(g, log, lo, hi)
         == if log.slots[hi - 1].Live?
            then LiveEntries(g, log, lo, hi - 1) + [EntryOf(hi - 1, log.slots[hi - 1].args)]
            else LiveEntries(g, log, lo, hi - 1)
  {
    LogBounds(g, log);
    hide LogOk;
  }

  /** They come in strictly increasing order of their indices. */
  lemma {:induction false} LiveEntriesInOrder(g: Geometry, log: Log, lo: nat, hi: nat)
    requires LogOk(g, log) && lo <= hi <= log.tail
    ensures var es := LiveEntries(g, log, lo, hi);
            && (forall i | 0 <= i < |es| :: lo < es[i].index <= hi)
            && (forall i, j | 0 <= i < j < |es| :: es[i].index < es[j].index)
  {
    hide LogOk, LiveEntries;
    LogBounds(g, log);
    if lo < hi {
      LastEntry(g, log, lo, hi);
      LiveEntriesInOrder(g, log, lo, hi - 1);
    } else {
      NoEntries(g, log, lo);
    }
  }

  lemma NoEntries(g: Geometry, log: Log, lo: nat)
    requires LogOk(g, log) && lo <= log.tail
    ensures LiveEntries(g, log, lo, lo) == []
  {
  }

  /** They are exactly the records of the live slots. */
  lemma {:induction false} LiveEntriesAre(g: Geometry, log: Log, lo: nat, hi: nat, x: Entry)
    requires LogOk(g, log) && lo <= hi <= log.tail <= |log.slots| < U32_LIMIT
    requires forall u | 0 <= u < |log.slots| && log.slots[u].Live? :: log.slots[u].args.host < U16_LIMIT
    ensures x in LiveEntries(g, log, lo, hi) <==>
              exists u: nat :: lo <= u < hi && log.slots[u].Live? && x == EntryOf(u, log.slots[u].args)
  {
    hide LogOk, LiveEntries;
    if lo < hi {
      LastEntry(g, log, lo, hi);
      LiveEntriesAre(g, log, lo, hi - 1, x);
      var last := log.slots[hi - 1];
      if last.Live? && x == EntryOf(hi - 1, last.args) {
        assert lo <= hi - 1 < hi && log.slots[hi - 1].Live? && x == EntryOf(hi - 1, log.slots[hi - 1].args);
      }
    } else {
      NoEntries(g, log, lo);
    }
  }

  /** The counts, without the loops. */
  lemma {:induction false} CountsAre(slots: Slots, n: nat)
    requires n <= |slots|
    ensures LiveCount(slots, n) == |set u: nat | u < n && slots[u].Live?|
    ensures GapCount(slots, n) == |set u: nat | u < n && slots[u].Gap?|
  {
    if n > 0 {
      CountsAre(slots, n - 1);
      var live, gaps := set u: nat | u < n - 1 && slots[u].Live?, set u: nat | u < n - 1 && slots[u].Gap?;
      assert (set u: nat | u < n && slots[u].Live?) == if slots[n - 1].Live? then live + {n - 1} else live;
      assert (set u: nat | u < n && slots[u].Gap?) == if slots[n - 1].Gap? then gaps + {n - 1} else gaps;
    }
  }

  /** Every operation keeps the log well-formed. */
  lemma SweptOk(g: Geometry, log: Log)
    requires LogOk(g, log)
    ensures LogOk(g, Swept(log))
  {
    EndFromIsMaximal(log.slots, log.tail);
  }

  lemma ExtendedOk(g: Geometry, log: Log, x: LogEntry)
    requires LogOk(g, log) && |log.slots| < g.capacity && EntryOk(g, x) && !x.Trimmed?
    ensures LogOk(g, Extended(log, x))
  {
  }

  lemma TrimOk(g: Geometry, log: Log, n: nat)
    requires LogOk(g, log) && n <= log.tail
    ensures LogOk(g, TrimLog(log, n))
  {
  }

  /** What an append does: its record is the new last slot, every other slot and the undos owed are as before, and the
      tail has passed live slots only and stands at the end of the log or at a slot that is not live. If it stood at the
      end before, it does so again. */
  lemma AppendMeans(log: Log, a: Args)
    requires log.tail <= |log.slots|
    ensures var r := AppendLog(log, a);
            && r.slots == log.slots + [Live(a)] && r.owed == log.owed
            && log.tail <= r.tail <= |r.slots|
            && (forall u | log.tail <= u < r.tail :: r.slots[u].Live?)
            && (r.tail < |r.slots| ==> !r.slots[r.tail].Live?)
            && (log.tail == |log.slots| ==> r.tail == |r.slots|)
  {
    EndFromIsMaximal(Extended(log, Live(a)).slots, log.tail);
  }

  /** What recover does: no slot changes, and the tail is moved in the same way. */
  lemma SweepMeans(log: Log)
    requires log.tail <= |log.slots|
    ensures var r := Swept(log);
            && r.slots == log.slots && r.owed == log.owed
            && log.tail <= r.tail <= |r.slots|
            && (forall u | log.tail <= u < r.tail :: r.slots[u].Live?)
            && (r.tail < |r.slots| ==> !r.slots[r.tail].Live?)
  {
    EndFromIsMaximal(log.slots, log.tail);
  }

  /** What trim does: the first n slots become trimmed, and nothing else changes. */
  lemma TrimMeans(log: Log, n: nat)
    requires n <= |log.slots|
    ensures var r := TrimLog(log, n);
            && |r.slots| == |log.slots| && r.tail == log.tail && r.owed == log.owed
            && forall u | 0 <= u < |log.slots| :: r.slots[u] == if u < n then Trimmed else log.slots[u]
  {
  }

  /** Once there is a gap at or beyond the tail, the tail stops there for good, though the log still grows. */
  lemma {:induction false} GapStopsTail(slots: Slots, t: nat, u: nat)
    requires t <= u < |slots| && slots[u].Gap?
    ensures EndFrom(slots, t) <= u
    decreases |slots| - t
  {
    if t < u && slots[t].Live? {
      GapStopsTail(slots, t + 1, u);
    }
  }
}
