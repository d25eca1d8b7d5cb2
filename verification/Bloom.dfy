/** The blocked Bloom filter: all probes of a key fall into one 512-bit block. */
module Bloom {
  import opened Bytes
  import opened Alloc

  const BLOCK_BITS: nat := 512
  const BLOCK_WORDS: nat := 8

  /** The two 64-bit halves of a key's hash. */
  datatype Hash = Hash(hi: nat, lo: nat)

  ghost predicate HashOk(h: Hash) { h.hi < U64 && h.lo < U64 }

  datatype Filter = Filter(words: seq<bv64>, numBlocks: nat, k: nat)

  ghost predicate FilterOk(f: Filter) {
    1 <= f.numBlocks && f.k >= 1 && |f.words| == f.numBlocks * BLOCK_WORDS
  }

  // ----- where the probes fall -----

  /** Fastrange: the high half scaled down to a block number by a widening multiply and shift. */
  function BlockIndex(hi: nat, numBlocks: nat): nat { (hi * numBlocks) / U64 }

  lemma BlockInRange(hi: nat, numBlocks: nat)
    requires hi < U64 && numBlocks >= 1
    ensures BlockIndex(hi, numBlocks) < numBlocks
  {
    assert hi * numBlocks < U64 * numBlocks;
    DivBelow(hi * numBlocks, U64, numBlocks);
  }

  lemma DivBelow(a: nat, d: nat, n: nat)
    requires d > 0 && a < d * n
    ensures a / d < n
  {
    assert (a / d) * d <= a;
    TimesGrows(n, a / d, d);
  }

  lemma TimesGrows(x: nat, y: nat, d: nat)
    ensures x <= y ==> d * x <= y * d
  {}

  /** `(lo >> 32) | 1`: an odd stride. */
  function Stride(lo: nat): nat { var x := lo / U32; x + (1 - x % 2) }

  /** The enhanced double-hash state after `i` probes: position and stride, both 32 bits wide. */
  function Probe(lo: nat, i: nat): (nat, nat) {
    if i == 0 then (lo % U32, Stride(lo) % U32) else
    var (a, b) := Probe(lo, i - 1);
    ((a + b) % U32, (b + (i - 1)) % U32)
  }

  /** The bit, counted over the whole word array, that probe `i` of a key touches. */
  function BitOf(numBlocks: nat, h: Hash, i: nat): nat {
    BlockIndex(h.hi, numBlocks) * BLOCK_BITS + Probe(h.lo, i).0 % BLOCK_BITS
  }

  /** Every probe of every hash stays inside the array. */
  lemma ProbeInRange(f: Filter, h: Hash, i: nat)
    requires FilterOk(f) && HashOk(h)
    ensures BitOf(f.numBlocks, h, i) < 64 * |f.words|
  {
    BlockInRange(h.hi, f.numBlocks);
  }

  // ----- adding and testing -----

  function AddBits(f: Filter, h: Hash, n: nat): (words: seq<bv64>)
    requires FilterOk(f) && HashOk(h)
    ensures |words| == |f.words|
  {
    if n == 0 then f.words else
    var w := AddBits(f, h, n - 1);
    var bit := BitOf(f.numBlocks, h, n - 1);
    ProbeInRange(f, h, n - 1);
    w[bit / 64 := WordSet(w[bit / 64], bit % 64)]
  }

  function Add(f: Filter, h: Hash): (f': Filter)
    requires FilterOk(f) && HashOk(h)
    ensures FilterOk(f') && f'.numBlocks == f.numBlocks && f'.k == f.k
  {
    f.(words := AddBits(f, h, f.k))
  }

  predicate Test(f: Filter, h: Hash)
    requires FilterOk(f) && HashOk(h)
  {
    forall i :: 0 <= i < f.k ==> (ProbeInRange(f, h, i); GetBit(f.words, BitOf(f.numBlocks, h, i)))
  }

  /** Adding sets exactly the probed bits of the key. */
  lemma {:induction false} AddedBits(f: Filter, h: Hash, n: nat, j: nat)
    requires FilterOk(f) && HashOk(h) && j < 64 * |f.words|
    ensures GetBit(AddBits(f, h, n), j) == (GetBit(f.words, j)
              || exists i :: 0 <= i < n && BitOf(f.numBlocks, h, i) == j)
  {
    hide TestBit, WordSet, BitOf;
    if n > 0 {
      AddedBits(f, h, n - 1, j);
      ProbeInRange(f, h, n - 1);
      BitUpdate(AddBits(f, h, n - 1), AddBits(f, h, n), BitOf(f.numBlocks, h, n - 1), j, true);
    }
  }

  /** An added key tests true. */
  lemma AddedTests(f: Filter, h: Hash)
    requires FilterOk(f) && HashOk(h)
    ensures Test(Add(f, h), h)
  {
    hide TestBit, WordSet, BitOf;
    var f' := Add(f, h);
    forall i | 0 <= i < f.k ensures (ProbeInRange(f', h, i); GetBit(f'.words, BitOf(f.numBlocks, h, i))) {
      ProbeInRange(f, h, i);
      AddedBits(f, h, f.k, BitOf(f.numBlocks, h, i));
    }
  }

  /** A key that tests true keeps testing true whatever is added. */
  lemma TestStays(f: Filter, h: Hash, other: Hash)
    requires FilterOk(f) && HashOk(h) && HashOk(other) && Test(f, h)
    ensures Test(Add(f, other), h)
  {
    hide TestBit, WordSet, BitOf;
    var f' := Add(f, other);
    forall i | 0 <= i < f.k ensures (ProbeInRange(f', h, i); GetBit(f'.words, BitOf(f.numBlocks, h, i))) {
      ProbeInRange(f, h, i);
      AddedBits(f, other, f.k, BitOf(f.numBlocks, h, i));
    }
  }

  /** Whatever tests true in `f` tests true in `g`. */
  ghost predicate Covers(g: Filter, f: Filter) {
    FilterOk(f) && FilterOk(g) && forall h: Hash :: HashOk(h) && Test(f, h) ==> Test(g, h)
  }

  lemma AddCovers(f: Filter, h: Hash)
    requires FilterOk(f) && HashOk(h)
    ensures Covers(Add(f, h), f) && Test(Add(f, h), h)
  {
    hide Test, Add;
    AddedTests(f, h);
    forall x: Hash | HashOk(x) && Test(f, x) ensures Test(Add(f, h), x) { TestStays(f, x, h); }
  }

  /** An empty filter of the given shape. */
  function Empty(numBlocks: nat, k: nat): (f: Filter)
    ensures FilterOk(f)
  {
    var n := Max(numBlocks, 1);
    Filter(seq(n * BLOCK_WORDS, _ => 0 as bv64), n, Max(k, 1))
  }

  /** A filter with some keys added. */
  ghost function AddAll(f: Filter, hs: seq<Hash>): (f': Filter)
    requires FilterOk(f) && forall j :: 0 <= j < |hs| ==> HashOk(hs[j])
    ensures FilterOk(f') && f'.numBlocks == f.numBlocks && f'.k == f.k
  {
    if hs == [] then f else Add(AddAll(f, hs[..|hs| - 1]), hs[|hs| - 1])
  }

  lemma {:induction false} AddAllMore(f: Filter, a: seq<Hash>, b: seq<Hash>)
    requires FilterOk(f) && (forall j :: 0 <= j < |a| ==> HashOk(a[j])) && forall j :: 0 <= j < |b| ==> HashOk(b[j])
    ensures AddAll(AddAll(f, a), b) == AddAll(f, a + b)
  {
    hide Add;
    if b == [] {
      assert a + b == a;
    } else {
      var n := |b| - 1;
      AddAllMore(f, a, b[..n]);
      assert (a + b)[..|a + b| - 1] == a + b[..n];
    }
  }

  ghost predicate Touched(f: Filter, hs: seq<Hash>, bit: nat) {
    exists j, i :: 0 <= j < |hs| && 0 <= i < f.k && BitOf(f.numBlocks, hs[j], i) == bit
  }

  lemma {:induction false} AllBits(f: Filter, hs: seq<Hash>, bit: nat)
    requires FilterOk(f) && bit < 64 * |f.words| && forall j :: 0 <= j < |hs| ==> HashOk(hs[j])
    ensures |AddAll(f, hs).words| == |f.words|
    ensures GetBit(AddAll(f, hs).words, bit) <==> GetBit(f.words, bit) || Touched(f, hs, bit)
  {
    hide TestBit, BitOf;
    if hs != [] {
      var n := |hs| - 1;
      AllBits(f, hs[..n], bit);
      AddedBits(AddAll(f, hs[..n]), hs[n], f.k, bit);
      if Touched(f, hs, bit) {
        var j, i :| 0 <= j < |hs| && 0 <= i < f.k && BitOf(f.numBlocks, hs[j], i) == bit;
        if j < n { assert hs[..n][j] == hs[j]; }
      }
      if Touched(f, hs[..n], bit) {
        var j, i :| 0 <= j < n && 0 <= i < f.k && BitOf(f.numBlocks, hs[..n][j], i) == bit;
        assert hs[j] == hs[..n][j];
      }
    }
  }

  /**
   What a filter says no to: a key tests true exactly when each of its probes falls on a probe of some added key. So a
   key with one probe of its own is denied.
   */
  lemma TestExact(numBlocks: nat, k: nat, hs: seq<Hash>, h: Hash)
    requires HashOk(h) && forall j :: 0 <= j < |hs| ==> HashOk(hs[j])
    ensures var f := Empty(numBlocks, k);
            Test(AddAll(f, hs), h) <==> forall i :: 0 <= i < f.k ==> Touched(f, hs, BitOf(f.numBlocks, h, i))
  {
    hide BitOf, Touched, TestBit;
    var f := Empty(numBlocks, k);
    var g := AddAll(f, hs);
    forall i | 0 <= i < f.k
      ensures (ProbeInRange(g, h, i); GetBit(g.words, BitOf(f.numBlocks, h, i))) <==>
                Touched(f, hs, BitOf(f.numBlocks, h, i))
    {
      ProbeInRange(f, h, i);
      AllBits(f, hs, BitOf(f.numBlocks, h, i));
      EmptyBit(numBlocks, k, BitOf(f.numBlocks, h, i));
    }
  }

  /** An empty filter has the blocks and probes it is asked for, at least one of each. */
  lemma EmptyShape(numBlocks: nat, k: nat)
    ensures var f := Empty(numBlocks, k);
            f.numBlocks == Max(numBlocks, 1) && f.k == Max(k, 1) && |f.words| == f.numBlocks * BLOCK_WORDS
  {}

  /** The stride is the high half of the low word, made odd. */
  lemma StrideOdd(lo: nat)
    ensures Stride(lo) % 2 == 1 && lo / U32 <= Stride(lo) <= lo / U32 + 1
  {}

  lemma EmptyBit(numBlocks: nat, k: nat, bit: nat)
    requires bit < 64 * |Empty(numBlocks, k).words|
    ensures !GetBit(Empty(numBlocks, k).words, bit)
  {}

  /** Fastrange is the scaled quotient, rounded down. */
  lemma BlockScales(hi: nat, numBlocks: nat)
    ensures BlockIndex(hi, numBlocks) * U64 <= hi * numBlocks < (BlockIndex(hi, numBlocks) + 1) * U64
  {}

  /** The filter as it is used: one word array, changed in place. */
  class BlockedFilter {
    const words: array<bv64>
    const numBlocks: nat
    const k: nat

    ghost function View(): Filter reads words { Filter(words[..], numBlocks, k) }

    ghost predicate Valid() reads words { FilterOk(View()) }

    constructor (numBlocks: nat, k: nat)
      ensures Valid() && fresh(words) && View() == Empty(numBlocks, k)
    {
      this.numBlocks, this.k := Max(numBlocks, 1), Max(k, 1);
      words := new bv64[Max(numBlocks, 1) * BLOCK_WORDS](_ => 0);
    }

    method Insert(h: Hash)
      requires Valid() && HashOk(h)
      modifies words
      ensures Valid() && View() == Add(old(View()), h)
    {
      hide TestBit, WordSet, BitOf, Stride, BlockIndex;
      ghost var f := View();
      var off := BlockIndex(h.hi, numBlocks) * BLOCK_WORDS;
      var a, b := h.lo % U32, Stride(h.lo) % U32;
      var i := 0;
      while i < k
        invariant 0 <= i <= k && words[..] == AddBits(f, h, i) && (a, b) == Probe(h.lo, i)
      {
        var bit := a % BLOCK_BITS;
        ProbeInRange(f, h, i);
        WordIndex(f.numBlocks, h, i, off, bit);
        words[off + bit / 64] := WordSet(words[off + bit / 64], bit % 64);
        a, b := (a + b) % U32, (b + i) % U32;
        i := i + 1;
      }
    }

    method Contains(h: Hash) returns (maybe: bool)
      requires Valid() && HashOk(h)
      ensures maybe == Test(View(), h)
    {
      hide TestBit, BitOf, Stride;
      ghost var f := View();
      var off := BlockIndex(h.hi, numBlocks) * BLOCK_WORDS;
      var a, b := h.lo % U32, Stride(h.lo) % U32;
      var i := 0;
      while i < k
        invariant 0 <= i <= k && (a, b) == Probe(h.lo, i)
        invariant forall j :: 0 <= j < i ==> (ProbeInRange(f, h, j); GetBit(f.words, BitOf(f.numBlocks, h, j)))
      {
        var bit := a % BLOCK_BITS;
        ProbeInRange(f, h, i);
        WordIndex(f.numBlocks, h, i, off, bit);
        if !TestBit(words[off + bit / 64], bit % 64) {
          return false;
        }
        a, b := (a + b) % U32, (b + i) % U32;
        i := i + 1;
      }
      return true;
    }
  }

  lemma WordIndex(numBlocks: nat, h: Hash, i: nat, off: nat, bit: nat)
    requires off == BlockIndex(h.hi, numBlocks) * BLOCK_WORDS && bit == Probe(h.lo, i).0 % BLOCK_BITS
    ensures BitOf(numBlocks, h, i) / 64 == off + bit / 64 && BitOf(numBlocks, h, i) % 64 == bit % 64
  {
    hide Probe, BlockIndex;
  }
}
