/** A program of stores and flushes, interrupted anywhere, with any cache lines evicted in between. */
module CrashRuns {
  import opened Bytes
  import opened Layout
  import opened Media

  /** `run` is the first k operations of `prog` in order, with write-backs of any lines in between. */
  ghost predicate Runs(prog: seq<MemOp>, run: seq<MemOp>, k: nat)
    decreases |run|
  {
    if run == [] then k == 0
    else
      var last, r := run[|run| - 1], run[..|run| - 1];
      || (0 < k <= |prog| && last == prog[k - 1] && Runs(prog, r, k - 1))
      || (last.WriteBack? && Runs(prog, r, k))
  }

  lemma {:induction false} RunsBound(prog: seq<MemOp>, run: seq<MemOp>, k: nat)
    requires Runs(prog, run, k)
    ensures k <= |prog|
    decreases |run|
  {
    if run != [] {
      var last, r := run[|run| - 1], run[..|run| - 1];
      if !(0 < k <= |prog| && last == prog[k - 1] && Runs(prog, r, k - 1)) {
        RunsBound(prog, r, k);
      }
    }
  }

  lemma {:induction false} RunsFit(prog: seq<MemOp>, run: seq<MemOp>, k: nat, n: nat)
    requires Runs(prog, run, k) && AllFit(prog, n)
    ensures AllFit(run, n)
    decreases |run|
  {
    if run != [] {
      var last, r := run[|run| - 1], run[..|run| - 1];
      if 0 < k <= |prog| && last == prog[k - 1] && Runs(prog, r, k - 1) {
        RunsFit(prog, r, k - 1, n);
      } else {
        RunsFit(prog, r, k, n);
      }
      assert run == r + [last];
    }
  }

  /** Memory after the run. */
  ghost function RunMem(m: Mem, prog: seq<MemOp>, run: seq<MemOp>, k: nat): (r: Mem)
    requires |m.vol| == |m.dur| && Runs(prog, run, k) && AllFit(prog, |m.vol|)
    ensures Sized(r, |m.vol|)
  {
    RunsFit(prog, run, k, |m.vol|);
    ApplyAll(m, run)
  }

  lemma LastOp(m: Mem, run: seq<MemOp>)
    requires |m.vol| == |m.dur| && AllFit(run, |m.vol|) && run != []
    ensures AllFit(run[..|run| - 1], |m.vol|) && Fits(run[|run| - 1], |m.vol|)
    ensures ApplyAll(m, run) == Apply(ApplyAll(m, run[..|run| - 1]), run[|run| - 1])
  {
    var last, r := run[|run| - 1], run[..|run| - 1];
    assert run == r + [last];
    ApplyAllAppend(m, r, [last]);
    assert ApplyAll(ApplyAll(m, r), [last]) == Apply(ApplyAll(m, r), last);
  }

  /** A run of a + b that is past a splits into a whole run of a and a run of b. */
  lemma {:induction false} RunsSplit(a: seq<MemOp>, b: seq<MemOp>, run: seq<MemOp>, k: nat) returns (s: nat)
    requires Runs(a + b, run, k) && |a| <= k
    ensures s <= |run| && Runs(a, run[..s], |a|) && Runs(b, run[s..], k - |a|)
    decreases |run|
  {
    RunsBound(a + b, run, k);
    if k == |a| {
      s := |run|;
      assert run[..s] == run;
      RunsWithin(a, b, run, k);
    } else {
      var last, r := run[|run| - 1], run[..|run| - 1];
      if last == (a + b)[k - 1] && Runs(a + b, r, k - 1) {
        s := RunsSplit(a, b, r, k - 1);
      } else {
        s := RunsSplit(a, b, r, k);
      }
      assert run[..s] == r[..s];
      var q := run[s..];
      assert q[|q| - 1] == last && q[..|q| - 1] == r[s..];
    }
  }

  /** A run of a + b that is not past a is a run of a. */
  lemma {:induction false} RunsWithin(a: seq<MemOp>, b: seq<MemOp>, run: seq<MemOp>, k: nat)
    requires Runs(a + b, run, k) && k <= |a|
    ensures Runs(a, run, k)
    decreases |run|
  {
    if run != [] {
      var last, r := run[|run| - 1], run[..|run| - 1];
      if 0 < k && last == (a + b)[k - 1] && Runs(a + b, r, k - 1) {
        RunsWithin(a, b, r, k - 1);
      } else {
        RunsWithin(a, b, r, k);
      }
    }
  }

  /** Memory after a run that splits. */
  lemma RunMemSplit(m: Mem, a: seq<MemOp>, b: seq<MemOp>, run: seq<MemOp>, k: nat, s: nat)
    requires |m.vol| == |m.dur| && Runs(a + b, run, k) && |a| <= k && AllFit(a, |m.vol|) && AllFit(b, |m.vol|)
    requires s <= |run| && Runs(a, run[..s], |a|) && Runs(b, run[s..], k - |a|)
    ensures AllFit(a + b, |m.vol|)
    ensures RunMem(m, a + b, run, k) == RunMem(RunMem(m, a, run[..s], |a|), b, run[s..], k - |a|)
  {
    RunsFit(a, run[..s], |a|, |m.vol|);
    RunsFit(b, run[s..], k - |a|, |m.vol|);
    assert run == run[..s] + run[s..];
    ApplyAllAppend(m, run[..s], run[s..]);
  }

  lemma RunMemWithin(m: Mem, a: seq<MemOp>, b: seq<MemOp>, run: seq<MemOp>, k: nat)
    requires |m.vol| == |m.dur| && Runs(a + b, run, k) && k <= |a| && AllFit(a, |m.vol|) && AllFit(b, |m.vol|)
    ensures AllFit(a + b, |m.vol|) && Runs(a, run, k) && RunMem(m, a + b, run, k) == RunMem(m, a, run, k)
  {
    RunsWithin(a, b, run, k);
  }

  /** Either the run is still in a, or it has done a whole and is in b. */
  lemma InTwo(m: Mem, a: seq<MemOp>, b: seq<MemOp>, run: seq<MemOp>, k: nat) returns (s: nat)
    requires |m.vol| == |m.dur| && Runs(a + b, run, k) && AllFit(a, |m.vol|) && AllFit(b, |m.vol|)
    ensures AllFit(a + b, |m.vol|)
    ensures k < |a| ==> Runs(a, run, k) && RunMem(m, a + b, run, k) == RunMem(m, a, run, k)
    ensures k >= |a| ==>
              && s <= |run| && Runs(a, run[..s], |a|) && Runs(b, run[s..], k - |a|)
              && RunMem(m, a + b, run, k) == RunMem(RunMem(m, a, run[..s], |a|), b, run[s..], k - |a|)
  {
    s := 0;
    if k < |a| {
      RunMemWithin(m, a, b, run, k);
    } else {
      s := RunsSplit(a, b, run, k);
      RunMemSplit(m, a, b, run, k, s);
    }
  }

  /** Evictions do not show in the visible view: it is what the program alone makes it. */
  lemma {:induction false} RunVol(m: Mem, prog: seq<MemOp>, run: seq<MemOp>, k: nat)
    requires |m.vol| == |m.dur| && Runs(prog, run, k) && AllFit(prog, |m.vol|)
    ensures k <= |prog| && AllFit(prog[..k], |m.vol|)
    ensures RunMem(m, prog, run, k).vol == ApplyAll(m, prog[..k]).vol
    decreases |run|
  {
    RunsBound(prog, run, k);
    RunsFit(prog, run, k, |m.vol|);
    if run != [] {
      LastOp(m, run);
      var last, r := run[|run| - 1], run[..|run| - 1];
      if 0 < k && last == prog[k - 1] && Runs(prog, r, k - 1) {
        RunVol(m, prog, r, k - 1);
        assert prog[..k] == prog[..k - 1] + [last];
        assert prog[..k][..k - 1] == prog[..k - 1];
        LastOp(m, prog[..k]);
        SameVolAfter(ApplyAll(m, r), ApplyAll(m, prog[..k - 1]), last);
      } else {
        RunVol(m, prog, r, k);
      }
    }
  }

  lemma SameVolAfter(x: Mem, y: Mem, op: MemOp)
    requires |x.vol| == |x.dur| == |y.dur| && x.vol == y.vol && Fits(op, |x.vol|)
    ensures Apply(x, op).vol == Apply(y, op).vol
  {
  }

  /** Every store of the program lies inside [lo, hi). */
  ghost predicate StoresWithin(prog: seq<MemOp>, lo: nat, hi: nat) {
    forall op | op in prog && op.Store? :: lo <= op.off && op.off + |op.bytes| <= hi
  }

  /** A byte the program does not store to, durable as it was visible before the run, stays so throughout. */
  lemma {:induction false} RunFrame(m: Mem, prog: seq<MemOp>, run: seq<MemOp>, k: nat, lo: nat, hi: nat, i: nat)
    requires |m.vol| == |m.dur| && Runs(prog, run, k) && AllFit(prog, |m.vol|) && StoresWithin(prog, lo, hi)
    requires i < |m.vol| && !(lo <= i < hi) && m.dur[i] == m.vol[i]
    ensures RunMem(m, prog, run, k).vol[i] == m.vol[i] == RunMem(m, prog, run, k).dur[i]
    decreases |run|
  {
    RunsFit(prog, run, k, |m.vol|);
    if run != [] {
      LastOp(m, run);
      var last, r := run[|run| - 1], run[..|run| - 1];
      if 0 < k <= |prog| && last == prog[k - 1] && Runs(prog, r, k - 1) {
        RunFrame(m, prog, r, k - 1, lo, hi, i);
        assert last in prog;
      } else {
        RunFrame(m, prog, r, k, lo, hi, i);
      }
    }
  }

  /** In the visible view it stays whatever was durable. */
  lemma {:induction false} RunVolFrame(m: Mem, prog: seq<MemOp>, run: seq<MemOp>, k: nat, lo: nat, hi: nat, i: nat)
    requires |m.vol| == |m.dur| && Runs(prog, run, k) && AllFit(prog, |m.vol|) && StoresWithin(prog, lo, hi)
    requires i < |m.vol| && !(lo <= i < hi)
    ensures RunMem(m, prog, run, k).vol[i] == m.vol[i]
    decreases |run|
  {
    RunsFit(prog, run, k, |m.vol|);
    if run != [] {
      LastOp(m, run);
      var last, r := run[|run| - 1], run[..|run| - 1];
      if 0 < k <= |prog| && last == prog[k - 1] && Runs(prog, r, k - 1) {
        RunVolFrame(m, prog, r, k - 1, lo, hi, i);
        assert last in prog;
      } else {
        RunVolFrame(m, prog, r, k, lo, hi, i);
      }
    }
  }

  /** Every value the program stores at byte i is one of `values`. */
  ghost predicate StoresOnly(prog: seq<MemOp>, i: nat, values: set<byte>) {
    forall op | op in prog && op.Store? && op.off <= i < op.off + |op.bytes| :: op.bytes[i - op.off] in values
  }

  /** Then byte i is always one of them, in both views, if it was before. */
  lemma {:induction false} RunByteIn(m: Mem, prog: seq<MemOp>, run: seq<MemOp>, k: nat, i: nat, values: set<byte>)
    requires |m.vol| == |m.dur| && Runs(prog, run, k) && AllFit(prog, |m.vol|) && StoresOnly(prog, i, values)
    requires i < |m.vol| && m.vol[i] in values && m.dur[i] in values
    ensures RunMem(m, prog, run, k).vol[i] in values && RunMem(m, prog, run, k).dur[i] in values
    decreases |run|
  {
    RunsFit(prog, run, k, |m.vol|);
    if run != [] {
      LastOp(m, run);
      var last, r := run[|run| - 1], run[..|run| - 1];
      if 0 < k <= |prog| && last == prog[k - 1] && Runs(prog, r, k - 1) {
        RunByteIn(m, prog, r, k - 1, i, values);
        assert last in prog;
      } else {
        RunByteIn(m, prog, r, k, i, values);
      }
    }
  }

  /** After a whole flush, evictions or not, its range is durable as visible. */
  lemma {:induction false} FlushRun(m: Mem, off: nat, len: nat, run: seq<MemOp>, k: nat, i: nat)
    requires |m.vol| == |m.dur| && Runs(FlushOps(off, len), run, k) && i < |m.vol|
    ensures var x := RunMem(m, FlushOps(off, len), run, k);
            && x.vol == m.vol && (x.dur[i] == m.dur[i] || x.dur[i] == m.vol[i])
            && (off / CACHELINE <= i / CACHELINE < off / CACHELINE + k ==> x.dur[i] == m.vol[i])
    decreases |run|
  {
    var prog := FlushOps(off, len);
    RunsFit(prog, run, k, |m.vol|);
    if run != [] {
      LastOp(m, run);
      var last, r := run[|run| - 1], run[..|run| - 1];
      if 0 < k <= |prog| && last == prog[k - 1] && Runs(prog, r, k - 1) {
        FlushRun(m, off, len, r, k - 1, i);
      } else {
        FlushRun(m, off, len, r, k, i);
      }
    }
  }

  lemma FlushRunDone(m: Mem, off: nat, len: nat, run: seq<MemOp>, i: nat)
    requires |m.vol| == |m.dur| && Runs(FlushOps(off, len), run, NumLines(off, len)) && i < |m.vol|
    requires off <= i < off + len
    ensures var x := RunMem(m, FlushOps(off, len), run, NumLines(off, len)); x.vol == m.vol && x.dur[i] == m.vol[i]
  {
    FlushRun(m, off, len, run, NumLines(off, len), i);
    MeetsByLine(i, off, len);
    OwnLine(i, off, len);
  }

  lemma OwnLine(i: nat, off: nat, len: nat)
    requires off <= i < off + len
    ensures off / CACHELINE <= i / CACHELINE < off / CACHELINE + NumLines(off, len)
  {
  }

  // ---- One store followed by a flush that covers it ----

  function Persist(off: nat, bytes: seq<byte>, from: nat, len: nat): (p: seq<MemOp>)
    ensures |p| == 1 + NumLines(from, len)
  {
    [Store(off, bytes)] + FlushOps(from, len)
  }

  /** The durable bytes at [off, off + n). */
  function At(v: seq<byte>, off: nat, n: nat): (b: seq<byte>)
    requires off + n <= |v|
    ensures |b| == n
  {
    v[off..off + n]
  }

  lemma PersistFits(off: nat, bytes: seq<byte>, from: nat, len: nat, n: nat)
    requires off + |bytes| <= n
    ensures AllFit(Persist(off, bytes, from, len), n)
    ensures StoresWithin(Persist(off, bytes, from, len), off, off + |bytes|)
  {
    assert AllFit(FlushOps(from, len), n);
  }

  /** A range that does not straddle two lines is written back whole or not at all. */
  lemma LineWhole(x: Mem, line: nat, off: nat, n: nat)
    requires |x.vol| == |x.dur| && 0 < n && off + n <= |x.vol| && off / CACHELINE == (off + n - 1) / CACHELINE
    ensures At(CopyLine(x.dur, x.vol, line), off, n)
          == if off / CACHELINE == line then At(x.vol, off, n) else At(x.dur, off, n)
  {
    forall i | off <= i < off + n ensures i / CACHELINE == off / CACHELINE {
      DivMono(off, i);
      DivMono(i, off + n - 1);
    }
    assert At(CopyLine(x.dur, x.vol, line), off, n)
      == if off / CACHELINE == line then At(x.vol, off, n) else At(x.dur, off, n);
  }

  /** Persisting a value that fits one line is atomic: at any moment the durable value is the old or the new one, and
      the new one once the flush is done. */
  lemma {:induction false} PersistRun(m: Mem, off: nat, bytes: seq<byte>, from: nat, len: nat, run: seq<MemOp>, k: nat)
    requires |m.vol| == |m.dur| && 0 < |bytes| && off + |bytes| <= |m.vol|
    requires off / CACHELINE == (off + |bytes| - 1) / CACHELINE && from <= off && off + |bytes| <= from + len
    requires At(m.dur, off, |bytes|) == At(m.vol, off, |bytes|)
    requires Runs(Persist(off, bytes, from, len), run, k) && AllFit(Persist(off, bytes, from, len), |m.vol|)
    ensures var x := RunMem(m, Persist(off, bytes, from, len), run, k);
            && At(x.vol, off, |bytes|) == (if k == 0 then At(m.vol, off, |bytes|) else bytes)
            && (At(x.dur, off, |bytes|) == At(m.vol, off, |bytes|) || (k > 0 && At(x.dur, off, |bytes|) == bytes))
            && (k > 1 + off / CACHELINE - from / CACHELINE ==> At(x.dur, off, |bytes|) == bytes)
    decreases |run|
  {
    hide At;
    var prog := Persist(off, bytes, from, len);
    RunsFit(prog, run, k, |m.vol|);
    if run != [] {
      LastOp(m, run);
      var last, r := run[|run| - 1], run[..|run| - 1];
      if 0 < k <= |prog| && last == prog[k - 1] && Runs(prog, r, k - 1) {
        PersistRun(m, off, bytes, from, len, r, k - 1);
        var y := ApplyAll(m, r);
        if k == 1 {
          StoredAt(y.vol, off, bytes);
        } else {
          assert last == WriteBack(from / CACHELINE + k - 2);
          LineWhole(y, last.line, off, |bytes|);
        }
      } else {
        PersistRun(m, off, bytes, from, len, r, k);
        LineWhole(ApplyAll(m, r), last.line, off, |bytes|);
      }
    }
  }

  lemma StoredAt(v: seq<byte>, off: nat, bytes: seq<byte>)
    requires off + |bytes| <= |v|
    ensures At(Splice(v, off, bytes), off, |bytes|) == bytes
  {
  }
}
