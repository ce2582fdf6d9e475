/** The memory model: a coherent volatile view over a durable view that changes a cache line at a time. */
module Media {
  import opened Bytes
  import opened Layout

  datatype Mem = Mem(vol: seq<byte>, dur: seq<byte>)

  /** What a backend call does to memory: a store to the volatile view, or one line written back. */
  datatype MemOp = Store(off: nat, bytes: seq<byte>) | WriteBack(line: nat)

  ghost predicate Sized(m: Mem, n: nat) { |m.vol| == n && |m.dur| == n }

  predicate Fits(op: MemOp, n: nat) { op.Store? ==> op.off + |op.bytes| <= n }

  /** dur with the bytes of one cache line replaced by those of vol. */
  function CopyLine(dur: seq<byte>, vol: seq<byte>, line: nat): (r: seq<byte>)
    requires |dur| == |vol|
    ensures |r| == |dur|
    ensures forall i | 0 <= i < |r| :: r[i] == if i / CACHELINE == line then vol[i] else dur[i]
  {
    seq(|dur|, i requires 0 <= i < |dur| => if i / CACHELINE == line then vol[i] else dur[i])
  }

  function Apply(m: Mem, op: MemOp): (r: Mem)
    requires |m.vol| == |m.dur| && Fits(op, |m.vol|)
    ensures Sized(r, |m.vol|)
  {
    match op
    case Store(off, bytes) => m.(vol := Splice(m.vol, off, bytes))
    case WriteBack(line) => m.(dur := CopyLine(m.dur, m.vol, line))
  }

  predicate AllFit(ops: seq<MemOp>, n: nat) { forall op | op in ops :: Fits(op, n) }

  function ApplyAll(m: Mem, ops: seq<MemOp>): (r: Mem)
    requires |m.vol| == |m.dur| && AllFit(ops, |m.vol|)
    ensures Sized(r, |m.vol|)
    decreases |ops|
  {
    if ops == [] then m
    else ApplyAll(Apply(m, ops[0]), ops[1..])
  }

  lemma {:induction false} ApplyAllAppend(m: Mem, a: seq<MemOp>, b: seq<MemOp>)
    requires |m.vol| == |m.dur| && AllFit(a, |m.vol|) && AllFit(b, |m.vol|)
    ensures AllFit(a + b, |m.vol|)
    ensures ApplyAll(m, a + b) == ApplyAll(ApplyAll(m, a), b)
    decreases |a|
  {
    if a == [] {
      assert a + b == b;
    } else {
      assert (a + b)[0] == a[0] && (a + b)[1..] == a[1..] + b;
      ApplyAllAppend(Apply(m, a[0]), a[1..], b);
    }
  }

  /** How many cache lines meet [off, off + len). */
  function NumLines(off: nat, len: nat): (n: nat)
    ensures n > 0 <==> len > 0
  {
    if len == 0 then 0 else (off + len - 1) / CACHELINE - off / CACHELINE + 1
  }

  /** The write-backs of flush_range, in its order. */
  function FlushOps(off: nat, len: nat): (ops: seq<MemOp>)
    ensures |ops| == NumLines(off, len)
    ensures forall j | 0 <= j < |ops| :: ops[j] == WriteBack(off / CACHELINE + j)
    ensures forall n :: AllFit(ops, n)
  {
    seq(NumLines(off, len), j requires 0 <= j < NumLines(off, len) => WriteBack(off / CACHELINE + j))
  }

  /** Byte i shares a cache line with some byte of [off, off + len). */
  ghost predicate Meets(i: nat, off: nat, len: nat) {
    exists b :: off <= b < off + len && b / CACHELINE == i / CACHELINE
  }

  lemma MeetsByLine(i: nat, off: nat, len: nat)
    ensures Meets(i, off, len) <==> off / CACHELINE <= i / CACHELINE < off / CACHELINE + NumLines(off, len)
  {
    if len > 0 && off / CACHELINE <= i / CACHELINE <= (off + len - 1) / CACHELINE {
      var b := if i / CACHELINE == off / CACHELINE then off else (i / CACHELINE) * CACHELINE;
      assert off <= b < off + len && b / CACHELINE == i / CACHELINE;
    }
  }

  lemma {:induction false} WriteBackPrefix(m: Mem, off: nat, len: nat, j: nat)
    requires |m.vol| == |m.dur| && j <= NumLines(off, len)
    ensures AllFit(FlushOps(off, len)[..j], |m.vol|)
    ensures var r := ApplyAll(m, FlushOps(off, len)[..j]);
            && r.vol == m.vol
            && forall i | 0 <= i < |m.vol| ::
              r.dur[i] == if off / CACHELINE <= i / CACHELINE < off / CACHELINE + j then m.vol[i] else m.dur[i]
  {
    if j > 0 {
      WriteBackPrefix(m, off, len, j - 1);
      var ops := FlushOps(off, len);
      assert ops[..j] == ops[..j - 1] + [ops[j - 1]];
      ApplyAllAppend(m, ops[..j - 1], [ops[j - 1]]);
      var before := ApplyAll(m, ops[..j - 1]);
      assert ApplyAll(before, [ops[j - 1]]) == Apply(before, ops[j - 1]);
    }
  }

  /** flush_range makes durable exactly the cache lines that meet its range, whatever its alignment. */
  lemma FlushCoversExactly(m: Mem, off: nat, len: nat)
    requires |m.vol| == |m.dur|
    ensures var r := ApplyAll(m, FlushOps(off, len));
            && r.vol == m.vol
            && forall i | 0 <= i < |m.vol| :: r.dur[i] == if Meets(i, off, len) then m.vol[i] else m.dur[i]
  {
    var ops := FlushOps(off, len);
    assert ops[..|ops|] == ops;
    WriteBackPrefix(m, off, len, |ops|);
    forall i | 0 <= i < |m.vol| ensures ApplyAll(m, ops).dur[i] == if Meets(i, off, len) then m.vol[i] else m.dur[i] {
      MeetsByLine(i, off, len);
    }
  }

  function FlushRange(m: Mem, off: nat, len: nat): Mem
    requires |m.vol| == |m.dur|
  {
    ApplyAll(m, FlushOps(off, len))
  }

  /** The memory backend. `dur` is what a crash would leave; `trace` records every effect in order. */
  class Backend {
    const vol: array<byte>
    ghost var dur: seq<byte>
    ghost var trace: seq<MemOp>

    constructor (size: nat)
      ensures Valid() && fresh(vol) && vol.Length == size && trace == []
      ensures forall i | 0 <= i < size :: vol[i] == 0 && dur[i] == 0
    {
      vol := new byte[size](_ => 0);
      dur := seq(size, _ => 0);
      trace := [];
    }

    ghost predicate Valid()
      reads this, vol
    {
      |dur| == vol.Length
    }

    ghost function M(): Mem
      reads this, vol
    {
      Mem(vol[..], dur)
    }

    /** Copy bytes into the volatile view. */
    method Write(off: nat, src: seq<byte>)
      requires Valid() && off + |src| <= vol.Length
      modifies this, vol
      ensures Valid() && M() == Apply(old(M()), Store(off, src)) && trace == old(trace) + [Store(off, src)]
    {
      for i := 0 to |src|
        invariant Valid() && dur == old(dur) && trace == old(trace)
        invariant forall k | 0 <= k < vol.Length :: vol[k] == if off <= k < off + i then src[k - off] else old(vol[k])
      {
        vol[off + i] := src[i];
      }
      trace := trace + [Store(off, src)];
      assert vol[..] == Splice(old(vol[..]), off, src);
    }

    method Read(off: nat, len: nat) returns (dst: seq<byte>)
      requires off + len <= vol.Length
      ensures dst == vol[off..off + len]
    {
      dst := vol[off..off + len];
    }

    method LoadU8(off: nat) returns (x: byte)
      requires off < vol.Length
      ensures x == vol[off]
    {
      x := vol[off];
    }

    method StoreU8(off: nat, x: byte)
      requires Valid() && off < vol.Length
      modifies this, vol
      ensures Valid() && M() == Apply(old(M()), Store(off, [x])) && trace == old(trace) + [Store(off, [x])]
    {
      Write(off, [x]);
    }

    method LoadU64(off: nat) returns (x: u64)
      requires off % 8 == 0 && off + 8 <= vol.Length
      ensures x == FromLE(vol[off..off + 8])
    {
      WordSizes();
      x := FromLE(vol[off..off + 8]);
    }

    method StoreU64(off: nat, x: u64)
      requires Valid() && off % 8 == 0 && off + 8 <= vol.Length
      modifies this, vol
      ensures Valid() && M() == Apply(old(M()), Store(off, LE(x, 8))) && trace == old(trace) + [Store(off, LE(x, 8))]
    {
      Write(off, LE(x, 8));
    }

    method FetchAddU64(off: nat, delta: u64) returns (previous: u64)
      requires Valid() && off % 8 == 0 && off + 8 <= vol.Length
      modifies this, vol
      ensures Valid() && previous == FromLE(old(vol[off..off + 8]))
      ensures var s := Store(off, LE(WrapAdd(previous, delta), 8));
              M() == Apply(old(M()), s) && trace == old(trace) + [s]
    {
      previous := LoadU64(off);
      StoreU64(off, WrapAdd(previous, delta));
    }

    /** Some(actual) is the failure case, with the value found. */
    method CompareExchangeU64(off: nat, expected: u64, desired: u64) returns (failed: Option<u64>)
      requires Valid() && off % 8 == 0 && off + 8 <= vol.Length
      modifies this, vol
      ensures Valid()
      ensures var actual := FromLE(old(vol[off..off + 8]));
              if actual == expected then
                && failed == None
                && M() == Apply(old(M()), Store(off, LE(desired, 8)))
                && trace == old(trace) + [Store(off, LE(desired, 8))]
              else failed == Some(actual) && M() == old(M()) && trace == old(trace)
    {
      var actual := LoadU64(off);
      if actual == expected {
        StoreU64(off, desired);
        failed := None;
      } else {
        failed := Some(actual);
      }
    }

    /** clwb: write back the line that holds `addr`. */
    ghost method Clwb(addr: nat)
      requires Valid()
      modifies this
      ensures Valid() && M() == Apply(old(M()), WriteBack(addr / CACHELINE))
      ensures trace == old(trace) + [WriteBack(addr / CACHELINE)]
    {
      dur := CopyLine(dur, vol[..], addr / CACHELINE);
      trace := trace + [WriteBack(addr / CACHELINE)];
    }

    /** flush_range: step through the lines from the one that holds `off` until the end is passed. */
    method Flush(off: nat, len: nat)
      requires Valid() && off + len <= vol.Length
      modifies this
      ensures Valid() && M() == FlushRange(old(M()), off, len) && trace == old(trace) + FlushOps(off, len)
    {
      if len == 0 {
        return;
      }
      var start := off - off % CACHELINE;
      var end := off + len;
      var ptr := start;
      ghost var ops := FlushOps(off, len);
      ghost var j := 0;
      while ptr < end
        invariant Valid() && j <= |ops| && ptr == start + j * CACHELINE && (ptr < end <==> j < |ops|)
        invariant M() == ApplyAll(old(M()), ops[..j]) && trace == old(trace) + ops[..j]
      {
        Clwb(ptr);
        ApplyAllAppend(old(M()), ops[..j], [ops[j]]);
        assert ops[..j + 1] == ops[..j] + [ops[j]];
        ghost var before := ApplyAll(old(M()), ops[..j]);
        assert ApplyAll(before, [ops[j]]) == Apply(before, ops[j]);
        ptr := ptr + CACHELINE;
        j := j + 1;
      }
      assert ops[..j] == ops;
    }
  }

  lemma OneMoreOp(m: Mem, done: seq<MemOp>, op: MemOp)
    requires |m.vol| == |m.dur| && AllFit(done, |m.vol|) && Fits(op, |m.vol|)
    ensures AllFit(done + [op], |m.vol|) && ApplyAll(m, done + [op]) == Apply(ApplyAll(m, done), op)
  {
    ApplyAllAppend(m, done, [op]);
    assert ApplyAll(ApplyAll(m, done), [op]) == Apply(ApplyAll(m, done), op);
  }

  /** Since memory was m and the trace `start`, exactly the stores `done` happened. */
  ghost predicate Did(media: Backend, m: Mem, start: seq<MemOp>, done: seq<MemOp>)
    reads media, media.vol
  {
    && media.Valid() && Sized(m, media.vol.Length) && AllFit(done, media.vol.Length)
    && media.M() == ApplyAll(m, done) && media.trace == start + done
  }

  lemma NothingDone(media: Backend)
    requires media.Valid()
    ensures Did(media, media.M(), media.trace, [])
  {
  }

  method WriteStep(media: Backend, off: nat, bytes: seq<byte>, ghost m: Mem, ghost start: seq<MemOp>,
                   ghost done: seq<MemOp>)
    returns (ghost doneNow: seq<MemOp>)
    requires off + |bytes| <= media.vol.Length && Did(media, m, start, done)
    modifies media, media.vol
    ensures doneNow == done + [Store(off, bytes)] && Did(media, m, start, doneNow)
  {
    media.Write(off, bytes);
    OneMoreOp(m, done, Store(off, bytes));
    doneNow := done + [Store(off, bytes)];
  }

  method StoreStep(media: Backend, off: nat, x: u64, ghost m: Mem, ghost start: seq<MemOp>, ghost done: seq<MemOp>)
    returns (ghost doneNow: seq<MemOp>)
    requires off % 8 == 0 && off + 8 <= media.vol.Length && Did(media, m, start, done)
    modifies media, media.vol
    ensures doneNow == done + [Store(off, LE(x, 8))] && Did(media, m, start, doneNow)
  {
    media.StoreU64(off, x);
    OneMoreOp(m, done, Store(off, LE(x, 8)));
    doneNow := done + [Store(off, LE(x, 8))];
  }

  method FlushStep(media: Backend, off: nat, len: nat, ghost m: Mem, ghost start: seq<MemOp>, ghost done: seq<MemOp>)
    returns (ghost doneNow: seq<MemOp>)
    requires off + len <= media.vol.Length && Did(media, m, start, done)
    modifies media
    ensures doneNow == done + FlushOps(off, len) && Did(media, m, start, doneNow)
  {
    media.Flush(off, len);
    ApplyAllAppend(m, done, FlushOps(off, len));
    doneNow := done + FlushOps(off, len);
  }
}
