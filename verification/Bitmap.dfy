/** The free-space allocator: one bit per cluster, packed into 64-bit words. */
module Alloc {
  import opened Bytes

  datatype Error = NoSpace | ZeroCount | Short

  /** A contiguous run of clusters. */
  datatype Range = Range(start: nat, count: nat)

  /** The persistent part of a bitmap: `total` clusters and the words that hold their bits. */
  datatype Words = Words(total: nat, bits: seq<bv64>)

  ghost predicate Shaped(w: Words) { |w.bits| == DivCeil(w.total, 64) }

  // ----- single bits -----

  function Mask(k: nat): bv64 requires k < 64 { (1 as bv64) << (k as bv6) }
  predicate TestBit(x: bv64, k: nat) requires k < 64 { x & Mask(k) != 0 }
  function WordSet(x: bv64, k: nat): bv64 requires k < 64 { x | Mask(k) }
  function WordClr(x: bv64, k: nat): bv64 requires k < 64 { x & !Mask(k) }

  predicate GetBit(bits: seq<bv64>, i: nat)
    requires i < 64 * |bits|
  {
    TestBit(bits[i / 64], i % 64)
  }

  lemma SmallShift(n: nat) requires n < 64 ensures (n as bv6) as nat == n {}

  lemma DistinctShifts(a: nat, b: nat)
    requires a < 64 && b < 64 && a != b
    ensures (a as bv6) != (b as bv6)
  {
    SmallShift(a);
    SmallShift(b);
  }

  lemma OtherBit(x: bv64, a: bv6, b: bv6)
    requires a != b
    ensures (x | ((1 as bv64) << a)) & ((1 as bv64) << b) == x & ((1 as bv64) << b)
    ensures (x & !((1 as bv64) << a)) & ((1 as bv64) << b) == x & ((1 as bv64) << b)
  {}

  lemma SameBit(x: bv64, a: bv6)
    ensures (x | ((1 as bv64) << a)) & ((1 as bv64) << a) != 0
    ensures (x & !((1 as bv64) << a)) & ((1 as bv64) << a) == 0
  {}

  lemma BitOfZero(a: nat) requires a < 64 ensures !TestBit(0, a) {}

  lemma WordBitSame(x: bv64, a: nat)
    requires a < 64
    ensures TestBit(WordSet(x, a), a) && !TestBit(WordClr(x, a), a)
  {
    SameBit(x, a as bv6);
  }

  lemma WordSetOther(x: bv64, a: nat, b: nat)
    requires a < 64 && b < 64 && a != b
    ensures TestBit(WordSet(x, a), b) == TestBit(x, b)
  {
    DistinctShifts(a, b);
    OtherBit(x, a as bv6, b as bv6);
  }

  lemma WordClrOther(x: bv64, a: nat, b: nat)
    requires a < 64 && b < 64 && a != b
    ensures TestBit(WordClr(x, a), b) == TestBit(x, b)
  {
    DistinctShifts(a, b);
    OtherBit(x, a as bv6, b as bv6);
  }

  /** Writing bit `i` of a word array changes bit `i` and nothing else. */
  lemma BitUpdate(bits: seq<bv64>, bits': seq<bv64>, i: nat, j: nat, on: bool)
    requires i < 64 * |bits| && j < 64 * |bits| && |bits'| == |bits|
    requires bits' == bits[i / 64 := if on then WordSet(bits[i / 64], i % 64) else WordClr(bits[i / 64], i % 64)]
    ensures GetBit(bits', j) == if i == j then on else GetBit(bits, j)
  {
    hide TestBit, WordSet, WordClr;
    if i / 64 == j / 64 {
      if i == j {
        WordBitSame(bits[i / 64], i % 64);
      } else {
        WordSetOther(bits[i / 64], i % 64, j % 64);
        WordClrOther(bits[i / 64], i % 64, j % 64);
      }
    }
  }

  ghost predicate Used(w: Words, i: nat) {
    i < w.total && i < 64 * |w.bits| && GetBit(w.bits, i)
  }

  // ----- what the operations mean, bit by bit -----

  ghost predicate InRun(i: nat, start: nat, count: nat) { start <= i < start + count }

  ghost predicate InRanges(i: nat, rs: seq<Range>) {
    exists k :: 0 <= k < |rs| && InRun(i, rs[k].start, rs[k].count)
  }

  ghost predicate SameShape(w: Words, w': Words) { w'.total == w.total && |w'.bits| == |w.bits| }

  /** `w'` is `w` with exactly the run marked used. */
  ghost predicate Marked(w: Words, w': Words, start: nat, count: nat) {
    SameShape(w, w') && forall i :: 0 <= i < w.total ==> Used(w', i) == (Used(w, i) || InRun(i, start, count))
  }

  /** `w'` is `w` with exactly the run freed. */
  ghost predicate Cleared(w: Words, w': Words, start: nat, count: nat) {
    SameShape(w, w') && forall i :: 0 <= i < w.total ==> Used(w', i) == (Used(w, i) && !InRun(i, start, count))
  }

  /** `w'` is `w` with exactly the listed ranges freed. */
  ghost predicate Applied(w: Words, w': Words, rs: seq<Range>) {
    SameShape(w, w') && forall i :: 0 <= i < w.total ==> Used(w', i) == (Used(w, i) && !InRanges(i, rs))
  }

  ghost predicate FreeRun(w: Words, start: nat, count: nat) {
    start + count <= w.total && forall i :: start <= i < start + count ==> !Used(w, i)
  }

  /** The least start of a free run of the requested length. */
  ghost predicate FirstFit(w: Words, count: nat, start: nat) {
    FreeRun(w, start, count) && forall s :: 0 <= s < start ==> !FreeRun(w, s, count)
  }

  // ----- counting -----

  ghost function CountUsed(w: Words, n: nat): nat {
    if n == 0 then 0 else CountUsed(w, n - 1) + (if Used(w, n - 1) then 1 else 0)
  }

  lemma {:induction false} CountSame(w: Words, w': Words, n: nat)
    requires forall i :: 0 <= i < n ==> Used(w', i) == Used(w, i)
    ensures CountUsed(w', n) == CountUsed(w, n)
  {
    if n > 0 {
      CountSame(w, w', n - 1);
    }
  }

  lemma {:induction false} CountFlip(w: Words, w': Words, i: nat, n: nat)
    requires i < n
    requires forall j :: 0 <= j < n && j != i ==> Used(w', j) == Used(w, j)
    requires Used(w', i) && !Used(w, i)
    ensures CountUsed(w', n) == CountUsed(w, n) + 1
  {
    if i == n - 1 {
      CountSame(w, w', n - 1);
    } else {
      CountFlip(w, w', i, n - 1);
    }
  }

  lemma {:induction false} CountBound(w: Words, n: nat)
    ensures CountUsed(w, n) <= n
  {
    if n > 0 { CountBound(w, n - 1); }
  }

  lemma {:induction false} CountPositive(w: Words, i: nat, n: nat)
    requires i < n && Used(w, i)
    ensures CountUsed(w, n) > 0
  {
    if i < n - 1 { CountPositive(w, i, n - 1); }
  }

  // ----- persistence -----

  function WordChunks(bits: seq<bv64>): (c: seq<Bytes>)
    ensures |c| == |bits|
    ensures forall i :: 0 <= i < |c| ==> |c[i]| == 8
  {
    if bits == [] then [] else WordChunks(bits[..|bits| - 1]) + [Le(bits[|bits| - 1] as nat, 8)]
  }

  lemma {:induction false} WordChunkAt(bits: seq<bv64>, i: nat)
    requires i < |bits|
    ensures WordChunks(bits)[i] == Le(bits[i] as nat, 8)
  {
    if i < |bits| - 1 { WordChunkAt(bits[..|bits| - 1], i); }
  }

  /** Total header followed by the raw words. */
  function Marshal(w: Words): Bytes { Le(w.total, 8) + Flat(WordChunks(w.bits)) }

  lemma MarshalLen(w: Words)
    ensures |Marshal(w)| == 8 + 8 * |w.bits|
  {
    FlatLen(WordChunks(w.bits));
    OffUniform(WordChunks(w.bits), 8, |w.bits|);
  }

  function Unmarshal(data: Bytes): Result<Words, Error> {
    if |data| < 8 then Err(Short) else
    var total := UnLe(data[..8]);
    var n := DivCeil(total, 64);
    if |data| - 8 < 8 * n then Err(Short) else
    Ok(Words(total, seq(n, i requires 0 <= i < n => ReadWord(data, i))))
  }

  /** Bytes give a bitmap exactly when they hold a bit for every block they announce. */
  lemma UnmarshalChecks(data: Bytes)
    ensures Unmarshal(data).Ok? <==> |data| >= 8 && UnLe(data[..8]) <= (|data| - 8) / 8 * 64
    ensures Unmarshal(data).Ok? ==> Unmarshal(data).value.total == UnLe(data[..8])
  {}

  /** Eight little-endian bytes as a word. */
  function WordOf(b: Bytes): bv64
    requires |b| == 8
  {
    UnLeBound(b);
    Pow256Values();
    UnLe(b) as bv64
  }

  function ReadWord(data: Bytes, i: nat): bv64
    requires 8 + 8 * i + 8 <= |data|
  {
    WordOf(data[8 + 8 * i..8 + 8 * i + 8])
  }

  lemma WordOfLe(x: bv64)
    ensures WordOf(Le(x as nat, 8)) == x
  {
    LeWidths(x as nat);
  }

  lemma MarshalSlice(w: Words, i: nat)
    requires i < |w.bits|
    ensures 8 + 8 * i + 8 <= |Marshal(w)| && Marshal(w)[8 + 8 * i..8 + 8 * i + 8] == WordChunks(w.bits)[i]
  {
    var c := WordChunks(w.bits);
    OffUniform(c, 8, i);
    OffUniform(c, 8, i + 1);
    FlatAt(c, i);
    assert Marshal(w)[8 + 8 * i..8 + 8 * i + 8] == Flat(c)[8 * i..8 * i + 8];
  }

  lemma MarshalWord(w: Words, i: nat)
    requires i < |w.bits|
    ensures 8 + 8 * i + 8 <= |Marshal(w)| && ReadWord(Marshal(w), i) == w.bits[i]
  {
    hide WordOf;
    MarshalSlice(w, i);
    WordChunkAt(w.bits, i);
    WordOfLe(w.bits[i]);
  }

  /** A bitmap survives a save and a load, word for word. */
  lemma BitmapRoundTrip(w: Words)
    requires Shaped(w) && w.total < U64
    ensures Unmarshal(Marshal(w)) == Ok(w)
  {
    MarshalLen(w);
    LeWidths(w.total);
    assert Marshal(w)[..8] == Le(w.total, 8);
    forall i | 0 <= i < |w.bits|
      ensures 8 + 8 * i + 8 <= |Marshal(w)| && ReadWord(Marshal(w), i) == w.bits[i]
    {
      MarshalWord(w, i);
    }
    assert Unmarshal(Marshal(w)).value.bits == w.bits;
  }

  class Bitmap {
    const bits: array<bv64>
    const total: nat
    var used: nat
    /** Ranges released in the current transaction: their bits stay set until the next commit. */
    var deferred: seq<Range>

    ghost function Image(): Words reads this, bits { Words(total, bits[..]) }

    ghost predicate Valid() reads this, bits {
      bits.Length == DivCeil(total, 64) && used == CountUsed(Image(), total)
    }

    constructor (total: nat)
      ensures Valid() && fresh(bits) && this.total == total && deferred == []
      ensures forall i :: 0 <= i < total ==> !Used(Image(), i)
    {
      this.total := total;
      bits := new bv64[DivCeil(total, 64)](_ => 0);
      used := 0;
      deferred := [];
      new;
      forall i | 0 <= i < total ensures !Used(Image(), i) {
        BitOfZero(i % 64);
      }
      NoneUsed(Image(), total);
    }

    /** A bitmap from its saved words; the count of used clusters is recomputed. */
    constructor Load(w: Words)
      requires Shaped(w)
      ensures Valid() && fresh(bits) && Image() == w && deferred == []
    {
      var n := CountBits(w);
      total := w.total;
      bits := new bv64[|w.bits|](i requires 0 <= i < |w.bits| => w.bits[i]);
      used := n;
      deferred := [];
      new;
      assert bits[..] == w.bits;
    }

    static method CountBits(w: Words) returns (n: nat)
      requires Shaped(w)
      ensures n == CountUsed(w, w.total)
    {
      hide TestBit;
      n := 0;
      var i := 0;
      while i < w.total
        invariant 0 <= i <= w.total && n == CountUsed(w, i)
      {
        if GetBit(w.bits, i) {
          n := n + 1;
        }
        i := i + 1;
      }
    }

    static lemma {:induction false} NoneUsed(w: Words, n: nat)
      requires forall i :: 0 <= i < n ==> !Used(w, i)
      ensures CountUsed(w, n) == 0
    {
      if n > 0 { NoneUsed(w, n - 1); }
    }

    predicate Get(i: nat)
      requires Valid() && i < total
      reads this, bits
      ensures Get(i) == Used(Image(), i)
    {
      TestBit(bits[i / 64], i % 64)
    }

    /** Set one bit, and count it if it was clear. */
    method SetBit(i: nat)
      requires Valid() && i < total
      modifies this`used, bits
      ensures Valid() && Marked(old(Image()), Image(), i, 1)
      ensures used == old(used) + if old(Get(i)) then 0 else 1
    {
      hide TestBit, WordSet, WordClr;
      if Get(i) {
        return;
      }
      ghost var w := Image();
      bits[i / 64] := WordSet(bits[i / 64], i % 64);
      used := used + 1;
      assert Image().bits == w.bits[i / 64 := WordSet(w.bits[i / 64], i % 64)];
      forall j | 0 <= j < total ensures Used(Image(), j) == (Used(w, j) || j == i) {
        BitUpdate(w.bits, bits[..], i, j, true);
      }
      CountFlip(w, Image(), i, total);
    }

    /** Clear one bit, and count it if it was set. */
    method ClearBit(i: nat)
      requires Valid() && i < total
      modifies this`used, bits
      ensures Valid() && Cleared(old(Image()), Image(), i, 1)
      ensures used == old(used) - if old(Get(i)) then 1 else 0
    {
      hide TestBit, WordSet, WordClr;
      if !Get(i) {
        return;
      }
      ghost var w := Image();
      CountPositive(w, i, total);
      bits[i / 64] := WordClr(bits[i / 64], i % 64);
      used := used - 1;
      assert Image().bits == w.bits[i / 64 := WordClr(w.bits[i / 64], i % 64)];
      forall j | 0 <= j < total ensures Used(Image(), j) == (Used(w, j) && j != i) {
        BitUpdate(w.bits, bits[..], i, j, false);
      }
      CountFlip(Image(), w, i, total);
    }

    method Reserve(start: nat, count: nat)
      requires Valid()
      modifies this`used, bits
      ensures Valid() && Marked(old(Image()), Image(), start, count)
    {
      var i := start;
      while i < start + count && i < total
        invariant start <= i <= start + count && Valid()
        invariant Marked(old(Image()), Image(), start, i - start)
      {
        SetBit(i);
        i := i + 1;
      }
    }

    /** First fit: the least start of a free run of `count` clusters, or `NoSpace` when there is none. */
    method Alloc(count: nat) returns (r: Result<nat, Error>)
      requires Valid()
      modifies this`used, bits
      ensures Valid()
      ensures r.Ok? ==> count > 0 && FirstFit(old(Image()), count, r.value)
      ensures r.Ok? ==> Marked(old(Image()), Image(), r.value, count) && used == old(used) + count
      ensures r.Err? ==> Image() == old(Image()) && used == old(used)
      ensures r == Err(ZeroCount) <==> count == 0
      ensures r == Err(NoSpace) <==> count > 0 && forall s :: 0 <= s < total ==> !FreeRun(old(Image()), s, count)
      ensures r.Err? ==> r.error == if count == 0 then ZeroCount else NoSpace
    {
      hide TestBit, CountUsed;
      if count == 0 {
        return Err(ZeroCount);
      }
      ghost var w := Image();
      var run, start, i := 0, 0, 0;
      while i < total
        invariant 0 <= i <= total && run <= i && run < count && Valid() && Image() == w && used == old(used)
        invariant run > 0 ==> start == i - run
        invariant forall j :: i - run <= j < i ==> !Used(w, j)
        invariant run < i ==> Used(w, i - run - 1)
        invariant forall s :: 0 <= s && s + count <= i ==> !FreeRun(w, s, count)
      {
        if Get(i) {
          assert forall s :: 0 <= s && s + count == i + 1 ==> !FreeRun(w, s, count);
          run := 0;
        } else {
          if run == 0 {
            start := i;
          }
          run := run + 1;
          if run == count {
            assert FreeRun(w, start, count);
            MarkRun(start, count);
            return Ok(start);
          }
          assert forall s :: 0 <= s && s + count == i + 1 ==> s <= i - run && !FreeRun(w, s, count);
        }
        i := i + 1;
      }
      return Err(NoSpace);
    }

    /** Mark a free run used. */
    method MarkRun(start: nat, count: nat)
      requires Valid() && FreeRun(Image(), start, count)
      modifies this`used, bits
      ensures Valid() && Marked(old(Image()), Image(), start, count) && used == old(used) + count
    {
      var j := start;
      while j < start + count
        invariant start <= j <= start + count && Valid()
        invariant Marked(old(Image()), Image(), start, j - start) && used == old(used) + (j - start)
      {
        SetBit(j);
        j := j + 1;
      }
    }

    method Free(start: nat, count: nat)
      requires Valid()
      modifies this`used, bits
      ensures Valid() && Cleared(old(Image()), Image(), start, count)
    {
      var i := start;
      while i < start + count && i < total
        invariant start <= i <= start + count && Valid()
        invariant Cleared(old(Image()), Image(), start, i - start)
      {
        ClearBit(i);
        i := i + 1;
      }
    }

    method Defer(start: nat, count: nat)
      requires Valid()
      modifies this`deferred
      ensures Valid() && deferred == old(deferred) + [Range(start, count)]
    {
      deferred := deferred + [Range(start, count)];
    }

    method ApplyDeferred()
      requires Valid()
      modifies this, bits
      ensures Valid() && deferred == [] && Applied(old(Image()), Image(), old(deferred))
    {
      var ranges := deferred;
      deferred := [];
      var k := 0;
      while k < |ranges|
        invariant 0 <= k <= |ranges| && Valid() && deferred == []
        invariant Applied(old(Image()), Image(), ranges[..k])
      {
        ghost var before := Image();
        Free(ranges[k].start, ranges[k].count);
        AppliedStep(old(Image()), before, Image(), ranges, k);
        k := k + 1;
      }
      assert ranges[..k] == ranges;
    }

    static lemma AppliedStep(w0: Words, w1: Words, w2: Words, rs: seq<Range>, k: nat)
      requires k < |rs| && Applied(w0, w1, rs[..k]) && Cleared(w1, w2, rs[k].start, rs[k].count)
      ensures Applied(w0, w2, rs[..k + 1])
    {
      forall i | 0 <= i < w0.total ensures InRanges(i, rs[..k + 1]) ==
        (InRanges(i, rs[..k]) || InRun(i, rs[k].start, rs[k].count)) {
        if InRanges(i, rs[..k]) {
          var m :| 0 <= m < k && InRun(i, rs[..k][m].start, rs[..k][m].count);
          assert rs[..k + 1][m] == rs[m];
        }
        if InRun(i, rs[k].start, rs[k].count) {
          assert rs[..k + 1][k] == rs[k];
        }
      }
    }

    /** Serialize into a caller's buffer at `at`, leaving the rest of it alone. */
    method MarshalInto(dst: array<byte>, at: nat)
      requires Valid() && at + 8 + 8 * bits.Length <= dst.Length
      modifies dst
      ensures at + |Marshal(Image())| <= dst.Length && dst[..] == Patch(old(dst[..]), at, Marshal(Image()))
    {
      hide Patch, CountUsed;
      ghost var before := dst[..];
      CopyInto(dst, at, Le(total, 8));
      var i := 0;
      WordsLen(bits[..0]);
      PatchNothing(before, at, Le(total, 8));
      while i < bits.Length
        invariant 0 <= i <= bits.Length && |Flat(WordChunks(bits[..i]))| == 8 * i
        invariant at + |Le(total, 8) + Flat(WordChunks(bits[..i]))| <= |before|
        invariant dst[..] == Patch(before, at, Le(total, 8) + Flat(WordChunks(bits[..i])))
      {
        CopyInto(dst, at + 8 + 8 * i, Le(bits[i] as nat, 8));
        PatchWord(before, at, Le(total, 8), bits[..], i);
        WordsLen(bits[..i + 1]);
        assert bits[..][..i + 1] == bits[..i + 1] && bits[..][..i] == bits[..i];
        i := i + 1;
      }
      assert bits[..i] == bits[..];
    }
  }

  lemma PatchNothing(s: Bytes, at: nat, a: Bytes)
    requires at + |a| <= |s|
    ensures Flat(WordChunks([])) == [] && Patch(s, at, a) == Patch(s, at, a + [])
  {
    assert a + [] == a;
  }

  lemma WordsLen(bits: seq<bv64>)
    ensures |Flat(WordChunks(bits))| == 8 * |bits|
  {
    FlatLen(WordChunks(bits));
    OffUniform(WordChunks(bits), 8, |bits|);
  }

  lemma WordsNext(bits: seq<bv64>, i: nat)
    requires i < |bits|
    ensures Flat(WordChunks(bits[..i + 1])) == Flat(WordChunks(bits[..i])) + Le(bits[i] as nat, 8)
  {
    hide Le;
    assert bits[..i + 1][..i] == bits[..i];
    var c := WordChunks(bits[..i + 1]);
    assert c[..i] == WordChunks(bits[..i]);
  }

  /** Writing one more word after `p` and the words before it. */
  lemma PatchWord(s: Bytes, at: nat, p: Bytes, bits: seq<bv64>, i: nat)
    requires i < |bits| && at + |p| + |Flat(WordChunks(bits[..i]))| + 8 <= |s|
    ensures at + |p + Flat(WordChunks(bits[..i + 1]))| <= |s|
    ensures Patch(Patch(s, at, p + Flat(WordChunks(bits[..i]))), at + |p + Flat(WordChunks(bits[..i]))|,
              Le(bits[i] as nat, 8))
              == Patch(s, at, p + Flat(WordChunks(bits[..i + 1])))
  {
    hide Patch, Le;
    WordsNext(bits, i);
    var f := Flat(WordChunks(bits[..i]));
    PatchTwice(s, at, p + f, Le(bits[i] as nat, 8));
    assert p + f + Le(bits[i] as nat, 8) == p + (f + Le(bits[i] as nat, 8));
  }
}
