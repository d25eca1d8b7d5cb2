/** Bytes, fixed-width little-endian numbers, and records laid out as consecutive chunks. */
module Bytes {
  newtype byte = x: int | 0 <= x < 256
  type Bytes = seq<byte>

  /** Block size of the device, in bytes. */
  const BLK: nat := 4096
  const U16: nat := 0x1_0000
  const U32: nat := 0x1_0000_0000
  const U64: nat := 0x1_0000_0000_0000_0000

  datatype Option<+T> = None | Some(value: T)
  datatype Result<+T, +E> = Ok(value: T) | Err(error: E)

  function Min(a: nat, b: nat): nat { if a <= b then a else b }
  function Max(a: nat, b: nat): nat { if a <= b then b else a }
  function DivCeil(n: nat, d: nat): nat requires d > 0 { (n + d - 1) / d }
  function Zeros(n: nat): (z: Bytes) ensures |z| == n { seq(n, _ => 0) }

  function Pow256(k: nat): nat { if k == 0 then 1 else 256 * Pow256(k - 1) }

  lemma Pow256Values()
    ensures Pow256(1) == 256 && Pow256(2) == U16 && Pow256(4) == U32 && Pow256(8) == U64
  {
    assert Pow256(3) == 0x100_0000;
    assert Pow256(4) == U32;
    assert Pow256(5) == 256 * U32;
    assert Pow256(6) == 65536 * U32;
    assert Pow256(7) == 0x100_0000 * U32;
  }

  /** `to_le_bytes` of an unsigned number of `k` bytes. */
  function Le(n: nat, k: nat): (b: Bytes)
    ensures |b| == k
  {
    if k == 0 then [] else [(n % 256) as byte] + Le(n / 256, k - 1)
  }

  /** `from_le_bytes`. */
  function UnLe(b: Bytes): nat {
    if b == [] then 0 else b[0] as nat + 256 * UnLe(b[1..])
  }

  lemma {:induction false} UnLeInvertsLe(n: nat, k: nat)
    requires n < Pow256(k)
    ensures UnLe(Le(n, k)) == n
  {
    if k > 0 {
      UnLeInvertsLe(n / 256, k - 1);
      assert Le(n, k)[1..] == Le(n / 256, k - 1);
    }
  }

  lemma {:induction false} UnLeBound(b: Bytes)
    ensures UnLe(b) < Pow256(|b|)
  {
    if b != [] {
      UnLeBound(b[1..]);
    }
  }

  lemma LeWidths(n: nat)
    ensures n < U16 ==> UnLe(Le(n, 2)) == n
    ensures n < U32 ==> UnLe(Le(n, 4)) == n
    ensures n < U64 ==> UnLe(Le(n, 8)) == n
  {
    Pow256Values();
    if n < U16 { UnLeInvertsLe(n, 2); }
    if n < U32 { UnLeInvertsLe(n, 4); }
    if n < U64 { UnLeInvertsLe(n, 8); }
  }

  /** The chunks one after the other. */
  function Flat(chunks: seq<Bytes>): Bytes {
    if chunks == [] then [] else Flat(chunks[..|chunks| - 1]) + chunks[|chunks| - 1]
  }

  /** Where chunk `j` starts. */
  function Off(chunks: seq<Bytes>, j: nat): nat
    requires j <= |chunks|
  {
    if j == 0 then 0 else Off(chunks, j - 1) + |chunks[j - 1]|
  }

  lemma {:induction false} OffOfPrefix(chunks: seq<Bytes>, m: nat, j: nat)
    requires j <= m <= |chunks|
    ensures Off(chunks[..m], j) == Off(chunks, j)
  {
    if j > 0 {
      OffOfPrefix(chunks, m, j - 1);
    }
  }

  lemma {:induction false} FlatLen(chunks: seq<Bytes>)
    ensures |Flat(chunks)| == Off(chunks, |chunks|)
  {
    if chunks != [] {
      var n := |chunks| - 1;
      FlatLen(chunks[..n]);
      OffOfPrefix(chunks, n, n);
    }
  }

  lemma {:induction false} OffMonotone(chunks: seq<Bytes>, i: nat, j: nat)
    requires i <= j <= |chunks|
    ensures Off(chunks, i) <= Off(chunks, j)
  {
    if i < j {
      OffMonotone(chunks, i, j - 1);
    }
  }

  /** Every chunk can be read back at its offset. */
  lemma {:induction false} FlatAt(chunks: seq<Bytes>, j: nat)
    requires j < |chunks|
    ensures Off(chunks, j) <= Off(chunks, j + 1) <= |Flat(chunks)|
    ensures Flat(chunks)[Off(chunks, j)..Off(chunks, j + 1)] == chunks[j]
  {
    var n := |chunks| - 1;
    FlatLen(chunks);
    FlatLen(chunks[..n]);
    OffOfPrefix(chunks, n, n);
    OffMonotone(chunks, j + 1, |chunks|);
    if j < n {
      FlatAt(chunks[..n], j);
      OffOfPrefix(chunks, n, j);
      OffOfPrefix(chunks, n, j + 1);
    }
  }

  lemma {:induction false} FlatSplit(a: seq<Bytes>, b: seq<Bytes>)
    ensures Flat(a + b) == Flat(a) + Flat(b)
  {
    if b == [] {
      assert a + b == a;
    } else {
      var n := |b| - 1;
      assert (a + b)[..|a + b| - 1] == a + b[..n];
      FlatSplit(a, b[..n]);
    }
  }

  /** Chunks of one width: chunk `j` starts at `j * w`. */
  lemma {:induction false} OffUniform(chunks: seq<Bytes>, w: nat, j: nat)
    requires forall i :: 0 <= i < |chunks| ==> |chunks[i]| == w
    requires j <= |chunks|
    ensures Off(chunks, j) == j * w
  {
    if j > 0 {
      OffUniform(chunks, w, j - 1);
    }
  }

  // ----- buffers -----

  /** `s` with `src` copied over it from position `at`. */
  ghost function Patch(s: Bytes, at: nat, src: Bytes): (r: Bytes)
    requires at + |src| <= |s|
    ensures |r| == |s|
  {
    s[..at] + src + s[at + |src|..]
  }

  lemma PatchTwice(s: Bytes, at: nat, a: Bytes, b: Bytes)
    requires at + |a| + |b| <= |s|
    ensures Patch(Patch(s, at, a), at + |a|, b) == Patch(s, at, a + b)
  {}

  /** `copy_from_slice` into a part of a buffer. */
  method CopyInto(dst: array<byte>, at: nat, src: Bytes)
    requires at + |src| <= dst.Length
    modifies dst
    ensures dst[..] == Patch(old(dst[..]), at, src)
  {
    var i := 0;
    while i < |src|
      invariant 0 <= i <= |src|
      invariant dst[..] == Patch(old(dst[..]), at, src[..i])
    {
      dst[at + i] := src[i];
      i := i + 1;
      assert src[..i] == src[..i - 1] + [src[i - 1]];
    }
    assert src[..i] == src;
  }
}
