/** Bytes, machine words, and the little-endian encoding every field of the pool uses. */
module Bytes {

  const U16_LIMIT := 0x1_0000
  const U32_LIMIT := 0x1_0000_0000
  const U64_LIMIT := 0x1_0000_0000_0000_0000
  const U64_MAX := U64_LIMIT - 1

  type byte = x: int | 0 <= x < 256
  type u64 = x: int | 0 <= x < U64_LIMIT

  datatype Option<+T> = None | Some(value: T)
  datatype Result<+T, +E> = Ok(value: T) | Err(error: E)

  function Min(a: int, b: int): int { if a <= b then a else b }
  function Max(a: int, b: int): int { if a <= b then b else a }

  /** Atomic addition on a 64-bit word: it wraps. */
  function WrapAdd(a: u64, b: u64): u64 { (a + b) % U64_LIMIT }

  /** Adding u64::MAX subtracts one, and undoes an addition of one. */
  lemma WrapAddMaxIsMinusOne(a: u64)
    ensures WrapAdd(a, U64_MAX) == if a == 0 then U64_MAX else a - 1
    ensures WrapAdd(WrapAdd(a, 1), U64_MAX) == a
  {
    if a > 0 {
      assert a + U64_MAX == (a - 1) + U64_LIMIT;
    }
  }

  /** Wrapping addition is commutative and associative, as the sums of the counters need. */
  lemma WrapAddSwap(a: u64, b: u64, c: u64)
    ensures WrapAdd(WrapAdd(a, b), c) == WrapAdd(WrapAdd(a, c), b)
  {
    WrapCases(a, b);
    WrapCases(a, c);
    WrapCases(WrapAdd(a, b), c);
    WrapCases(WrapAdd(a, c), b);
  }

  lemma WrapAssoc(a: u64, b: u64, c: u64)
    ensures WrapAdd(a, WrapAdd(b, c)) == WrapAdd(WrapAdd(a, b), c)
  {
    WrapCases(a, b);
    WrapCases(b, c);
    WrapCases(WrapAdd(a, b), c);
    WrapCases(a, WrapAdd(b, c));
  }

  lemma WrapCases(a: u64, b: u64)
    ensures WrapAdd(a, b) == if a + b < U64_LIMIT then a + b else a + b - U64_LIMIT
  {
  }

  function Pow256(n: nat): (p: nat)
    ensures p > 0
  {
    if n == 0 then 1 else 256 * Pow256(n - 1)
  }

  /** The n-byte little-endian encoding of x (the low n bytes). */
  function LE(x: nat, n: nat): (b: seq<byte>)
    ensures |b| == n
  {
    if n == 0 then [] else [x % 256] + LE(x / 256, n - 1)
  }

  function FromLE(b: seq<byte>): (x: nat)
    ensures x < Pow256(|b|)
  {
    if b == [] then 0 else b[0] + 256 * FromLE(b[1..])
  }

  lemma {:induction false} DecodeEncode(x: nat, n: nat)
    requires x < Pow256(n)
    ensures FromLE(LE(x, n)) == x
  {
    if n > 0 {
      DecodeEncode(x / 256, n - 1);
      assert LE(x, n)[1..] == LE(x / 256, n - 1);
    }
  }

  lemma {:induction false} EncodeDecode(b: seq<byte>)
    ensures LE(FromLE(b), |b|) == b
  {
    if b != [] {
      EncodeDecode(b[1..]);
      var x := FromLE(b);
      assert x == b[0] + 256 * FromLE(b[1..]);
      assert x % 256 == b[0] && x / 256 == FromLE(b[1..]);
      assert LE(x, |b|) == [b[0]] + LE(FromLE(b[1..]), |b| - 1);
    }
  }

  /** The byte order: one more byte at the end counts 256^n for the n bytes before it. */
  lemma {:induction false} LastByteCountsMost(b: seq<byte>, x: byte)
    ensures FromLE(b + [x]) == FromLE(b) + Pow256(|b|) * x
  {
    if b != [] {
      var p, rest := Pow256(|b| - 1), b[1..];
      LastByteCountsMost(rest, x);
      assert (b + [x])[1..] == rest + [x];
      Times256(p, x);
    }
  }

  lemma Times256(p: nat, x: nat)
    ensures 256 * (p * x) == (256 * p) * x
  {
  }

  lemma WordSizes()
    ensures Pow256(2) == U16_LIMIT && Pow256(4) == U32_LIMIT && Pow256(8) == U64_LIMIT
  {
    assert Pow256(2) == 256 * Pow256(1);
    assert Pow256(3) == 256 * Pow256(2);
    assert Pow256(4) == 256 * Pow256(3);
    assert Pow256(5) == 256 * Pow256(4);
    assert Pow256(6) == 256 * Pow256(5);
    assert Pow256(7) == 256 * Pow256(6);
    assert Pow256(8) == 256 * Pow256(7);
  }

  lemma Word64(x: u64)
    ensures FromLE(LE(x, 8)) == x
  {
    WordSizes();
    DecodeEncode(x, 8);
  }

  lemma Word32(x: nat)
    requires x < U32_LIMIT
    ensures FromLE(LE(x, 4)) == x
  {
    WordSizes();
    DecodeEncode(x, 4);
  }

  /** s with b written over it from position off. */
  function Splice(s: seq<byte>, off: nat, b: seq<byte>): (r: seq<byte>)
    requires off + |b| <= |s|
    ensures |r| == |s|
    ensures forall i | 0 <= i < |s| :: r[i] == if off <= i < off + |b| then b[i - off] else s[i]
  {
    s[..off] + b + s[off + |b|..]
  }
}
