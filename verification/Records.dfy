/** Files as sequences of fixed-size records: the arithmetic and the block-map encoding, on values. */
module Records {
  import opened Bytes
  import opened Store

  // ----- record sizes -----

  /** Record size and its logarithm for a file of the given size. */
  function RecordSizeFor(size: nat): (nat, nat) {
    if size < 32 * 1024 then (4096, 12)
    else if size < 256 * 1024 then (8192, 13)
    else if size < 2 * 1024 * 1024 then (16384, 14)
    else (32768, 15)
  }

  function Shift(l: nat): (n: nat) ensures n > 0 { if l == 0 then 1 else 2 * Shift(l - 1) }

  lemma ShiftValues()
    ensures Shift(12) == 4096 && Shift(13) == 8192 && Shift(14) == 16384 && Shift(15) == 32768
  {
    assert Shift(2) == 4;
    assert Shift(4) == 16;
    assert Shift(6) == 64;
    assert Shift(8) == 256;
    assert Shift(10) == 1024;
    assert Shift(12) == 4096;
    assert Shift(14) == 16384;
  }

  lemma RecordSizeIsShift(size: nat)
    ensures RecordSizeFor(size).0 == Shift(RecordSizeFor(size).1) && 12 <= RecordSizeFor(size).1 <= 15
  {
    ShiftValues();
  }

  /** The exponent is at least 12; it reaches 13, 14 and 15 at 32 KiB, 256 KiB and 2 MiB. */
  lemma RecordSizeGrows(size: nat, l: nat)
    requires 13 <= l <= 15
    ensures RecordSizeFor(size).1 >= l <==> size >= Shift(3 * l - 24)
  {
    ShiftValues();
    assert Shift(18) == 8 * Shift(15);
    assert Shift(21) == 8 * Shift(18);
  }

  lemma ShiftAtLeast(l: nat)
    requires 12 <= l <= 15
    ensures 4096 <= Shift(l) <= 32768
  {
    ShiftValues();
  }

  // ----- cutting and joining -----

  /** Where record `i` starts. */
  function RecStart(rs: nat, i: nat): nat { i * rs }

  lemma NextStart(rs: nat, i: nat)
    ensures RecStart(rs, i + 1) == RecStart(rs, i) + rs && RecStart(rs, 0) == 0
  {}

  function RecordEnd(size: nat, rs: nat, i: nat): nat { Min(RecStart(rs, i) + rs, size) }

  function RecordCount(size: nat, rs: nat): nat requires rs > 0 { DivCeil(size, rs) }

  function Record(b: Bytes, rs: nat, i: nat): (r: Bytes)
    requires RecStart(rs, i) <= |b|
    ensures |r| == RecordEnd(|b|, rs, i) - RecStart(rs, i)
  {
    b[RecStart(rs, i)..RecordEnd(|b|, rs, i)]
  }

  lemma RecordStarts(size: nat, rs: nat, i: nat)
    requires rs > 0 && i < RecordCount(size, rs)
    ensures RecStart(rs, i) < size
  {
    var n := RecordCount(size, rs);
    assert (n - 1) * rs < size by {
      assert n * rs <= size + rs - 1;
      assert (n - 1) * rs == n * rs - rs;
    }
    assert i * rs <= (n - 1) * rs;
  }

  lemma RecordsCover(size: nat, rs: nat)
    requires rs > 0
    ensures RecStart(rs, RecordCount(size, rs)) >= size
  {
    var n := RecordCount(size, rs);
    assert size + rs - 1 < n * rs + rs;
  }

  lemma StartsGrow(rs: nat, i: nat, j: nat)
    ensures i <= j ==> RecStart(rs, i) <= RecStart(rs, j)
  {}

  /** The record byte `off` falls into. */
  function RecIndex(rs: nat, off: nat): nat requires rs > 0 { off / rs }

  lemma IndexIs(rs: nat, off: nat)
    requires rs > 0
    ensures RecStart(rs, RecIndex(rs, off)) <= off < RecStart(rs, RecIndex(rs, off) + 1)
  {}

  lemma IndexGrows(rs: nat, a: nat, b: nat)
    requires rs > 0 && a <= b
    ensures RecIndex(rs, a) <= RecIndex(rs, b)
  {
    hide RecStart, RecIndex;
    IndexIs(rs, a);
    IndexIs(rs, b);
    StartsGrow(rs, RecIndex(rs, b) + 1, RecIndex(rs, a));
  }

  /** A record starts inside the file exactly when its number is below the count. */
  lemma RecordInside(size: nat, rs: nat, i: nat)
    requires rs > 0 && RecStart(rs, i) < size
    ensures i < RecordCount(size, rs)
  {
    hide RecStart;
    RecordsCover(size, rs);
    StartsGrow(rs, RecordCount(size, rs), i);
  }

  lemma CountMonotone(a: nat, b: nat, rs: nat)
    requires rs > 0 && a <= b
    ensures RecordCount(a, rs) <= RecordCount(b, rs)
  {
    hide RecStart;
    var n := RecordCount(a, rs);
    if n > 0 {
      RecordStarts(a, rs, n - 1);
      RecordInside(b, rs, n - 1);
    }
  }

  /** The texts are the records of `b`, in order. */
  ghost predicate AreRecords(texts: seq<Bytes>, b: Bytes, rs: nat) {
    rs > 0 && |texts| <= RecordCount(|b|, rs)
    && forall i :: 0 <= i < |texts| ==> RecStart(rs, i) <= |b| && texts[i] == Record(b, rs, i)
  }

  lemma TakeMore(b: Bytes, lo: nat, rs: nat)
    requires lo < |b|
    ensures b[..Min(lo, |b|)] + b[lo..Min(lo + rs, |b|)] == b[..Min(lo + rs, |b|)]
  {}

  lemma {:induction false} JoinPrefix(texts: seq<Bytes>, b: Bytes, rs: nat, n: nat)
    requires AreRecords(texts, b, rs) && n <= |texts|
    ensures Flat(texts[..n]) == b[..Min(RecStart(rs, n), |b|)]
  {
    hide RecordCount, RecStart;
    if n > 0 {
      JoinPrefix(texts, b, rs, n - 1);
      RecordStarts(|b|, rs, n - 1);
      NextStart(rs, n - 1);
      assert texts[..n][..n - 1] == texts[..n - 1];
      assert texts[n - 1] == Record(b, rs, n - 1);
      TakeMore(b, RecStart(rs, n - 1), rs);
    } else {
      NextStart(rs, 0);
    }
  }

  /** All records joined are the whole. */
  lemma JoinRecords(texts: seq<Bytes>, b: Bytes, rs: nat)
    requires AreRecords(texts, b, rs) && |texts| == RecordCount(|b|, rs)
    ensures Flat(texts) == b
  {
    hide RecStart, Record;
    JoinPrefix(texts, b, rs, |texts|);
    RecordsCover(|b|, rs);
    assert texts[..|texts|] == texts;
  }

  /** Texts of the right lengths are the records of their concatenation. */
  lemma SplitJoined(texts: seq<Bytes>, rs: nat, size: nat)
    requires rs > 0 && |texts| == RecordCount(size, rs)
    requires forall i :: 0 <= i < |texts| ==>
              RecStart(rs, i) <= size && |texts[i]| == RecordEnd(size, rs, i) - RecStart(rs, i)
    ensures |Flat(texts)| == size && AreRecords(texts, Flat(texts), rs)
  {
    hide RecStart, RecordCount;
    var b := Flat(texts);
    FlatLen(texts);
    OffRecords(texts, rs, size, |texts|);
    RecordsCover(size, rs);
    forall i | 0 <= i < |texts| ensures RecStart(rs, i) <= |b| && texts[i] == Record(b, rs, i) {
      OffRecords(texts, rs, size, i);
      OffRecords(texts, rs, size, i + 1);
      RecordStarts(size, rs, i);
      NextStart(rs, i);
      FlatAt(texts, i);
    }
  }

  lemma {:induction false} OffRecords(texts: seq<Bytes>, rs: nat, size: nat, i: nat)
    requires rs > 0 && |texts| == RecordCount(size, rs) && i <= |texts|
    requires forall j :: 0 <= j < |texts| ==>
              RecStart(rs, j) <= size && |texts[j]| == RecordEnd(size, rs, j) - RecStart(rs, j)
    ensures Off(texts, i) == Min(RecStart(rs, i), size)
  {
    hide RecStart, RecordCount;
    if i > 0 {
      OffRecords(texts, rs, size, i - 1);
      RecordStarts(size, rs, i - 1);
      NextStart(rs, i - 1);
    } else {
      NextStart(rs, 0);
    }
  }

  // ----- what a write, a read and a truncation mean on one byte sequence -----

  /** `data` placed at `off`, the gap before it filled with zeros. */
  function Splice(was: Bytes, off: nat, data: Bytes): (b: Bytes)
    ensures |b| == Max(|was|, off + |data|)
  {
    if off <= |was| then was[..off] + data + (if off + |data| <= |was| then was[off + |data|..] else [])
    else was + Zeros(off - |was|) + data
  }

  function Resize(was: Bytes, size: nat): (b: Bytes)
    ensures |b| == size
  {
    if size <= |was| then was[..size] else was + Zeros(size - |was|)
  }

  function SliceOf(b: Bytes, off: nat, length: nat): Bytes {
    if off >= |b| then [] else b[off..Min(off + length, |b|)]
  }

  lemma SpliceAt(was: Bytes, off: nat, data: Bytes, j: nat)
    requires j < |Splice(was, off, data)|
    ensures Splice(was, off, data)[j] ==
      if off <= j < off + |data| then data[j - off] else if j < |was| then was[j] else 0
  {}

  /** `now` is `was` cut or zero-extended to `size` bytes. */
  ghost predicate CutTo(was: Bytes, now: Bytes, size: nat) {
    |now| == size && forall j :: 0 <= j < size ==> now[j] == if j < |was| then was[j] else 0
  }

  lemma ResizeCuts(was: Bytes, size: nat)
    ensures CutTo(was, Resize(was, size), size)
  {}

  /** `part` is what `b` holds from `off` on, `length` bytes or as many as there are. */
  ghost predicate PartOf(b: Bytes, off: nat, length: nat, part: Bytes) {
    && |part| == (if off < |b| then Min(length, |b| - off) else 0)
    && forall j :: 0 <= j < |part| ==> off + j < |b| && part[j] == b[off + j]
  }

  lemma SliceParts(b: Bytes, off: nat, length: nat)
    ensures PartOf(b, off, length, SliceOf(b, off, length))
  {}

  /** `now` is `was` with `data` at `off`, zeros in a gap before it, and nothing else changed. */
  ghost predicate SplicedTo(was: Bytes, off: nat, data: Bytes, now: Bytes) {
    && |now| == Max(|was|, off + |data|)
    && forall j :: 0 <= j < |now| ==>
         now[j] == if off <= j < off + |data| then data[j - off] else if j < |was| then was[j] else 0
  }

  lemma SplicePlaces(was: Bytes, off: nat, data: Bytes)
    ensures SplicedTo(was, off, data, Splice(was, off, data))
  {
    hide Splice;
    forall j | 0 <= j < |Splice(was, off, data)|
      ensures Splice(was, off, data)[j] ==
                if off <= j < off + |data| then data[j - off] else if j < |was| then was[j] else 0
    {
      SpliceAt(was, off, data, j);
    }
  }

  /** The old bytes of a record, cut or zero-extended to its new length. */
  function Underlay(was: Bytes, len: nat): (base: Bytes)
    ensures |base| == len && forall j :: 0 <= j < len ==> base[j] == if j < |was| then was[j] else 0
  {
    was[..Min(|was|, len)] + Zeros(len - Min(|was|, len))
  }

  function Patched(base: Bytes, mid: Bytes, at: nat): (b: Bytes)
    requires at + |mid| <= |base|
    ensures |b| == |base|
    ensures forall j :: 0 <= j < |b| ==> b[j] == if at <= j < at + |mid| then mid[j - at] else base[j]
  {
    base[..at] + mid + base[at + |mid|..]
  }

  /** One record rewritten: old bytes first, zeros after them, then the overlap with the new data on top. */
  function Overlay(was: Bytes, len: nat, start: nat, off: nat, data: Bytes): (rec: Bytes)
    ensures |rec| == len
  {
    var lo, hi := Max(off, start), Min(off + |data|, start + len);
    if lo < hi then Patched(Underlay(was, len), data[lo - off..hi - off], lo - start) else Underlay(was, len)
  }

  lemma OverlayAt(was: Bytes, len: nat, start: nat, off: nat, data: Bytes, j: nat)
    requires j < len
    ensures Overlay(was, len, start, off, data)[j] ==
      if off <= start + j < off + |data| then data[start + j - off] else if j < |was| then was[j] else 0
  {
    hide Underlay, Patched;
  }

  /** Rewriting record `i` of `was` gives record `i` of the spliced contents. */
  lemma OverlayIsRecord(was: Bytes, off: nat, data: Bytes, rs: nat, i: nat)
    requires RecStart(rs, i) < |Splice(was, off, data)|
    ensures var b, start := Splice(was, off, data), RecStart(rs, i);
            var part := if start < |was| then Record(was, rs, i) else [];
            Overlay(part, RecordEnd(|b|, rs, i) - start, start, off, data) == Record(b, rs, i)
  {
    hide RecStart, Splice, Overlay;
    var b, start := Splice(was, off, data), RecStart(rs, i);
    var part := if start < |was| then Record(was, rs, i) else [];
    var len := RecordEnd(|b|, rs, i) - start;
    forall j | 0 <= j < len ensures Overlay(part, len, start, off, data)[j] == Record(b, rs, i)[j] {
      OverlayAt(part, len, start, off, data, j);
      SpliceAt(was, off, data, start + j);
    }
  }

  /** A record the write does not touch, and that was complete, is unchanged. */
  lemma CarriedRecord(was: Bytes, off: nat, data: Bytes, rs: nat, i: nat)
    requires RecStart(rs, i) < |was| && RecordEnd(|Splice(was, off, data)|, rs, i) <= |was|
    requires !(off + |data| > RecStart(rs, i) && off < RecordEnd(|Splice(was, off, data)|, rs, i))
    ensures Record(Splice(was, off, data), rs, i) == Record(was, rs, i)
  {
    hide RecStart, Splice;
    var b, start := Splice(was, off, data), RecStart(rs, i);
    forall j | 0 <= j < |Record(b, rs, i)| ensures Record(b, rs, i)[j] == Record(was, rs, i)[j] {
      SpliceAt(was, off, data, start + j);
    }
  }

  // ----- the block map -----

  function RefChunksOf(refs: seq<Ref>): (c: seq<Bytes>)
    ensures |c| == |refs|
  {
    if refs == [] then [] else RefChunksOf(refs[..|refs| - 1]) + [EncodeRef(refs[|refs| - 1])]
  }

  function EncodeRefs(refs: seq<Ref>): Bytes { Le(|refs|, 4) + Flat(RefChunksOf(refs)) }

  function RefAt(b: Bytes, i: nat): Ref
    requires 4 + (i + 1) * REF_SIZE <= |b|
  {
    DecodeRef(b[4 + i * REF_SIZE..])
  }

  /** `None` stands for corrupt data. */
  function DecodeRefs(b: Bytes): Option<seq<Ref>> {
    if |b| < 4 then None else
    var n := UnLe(b[..4]);
    if |b| < 4 + n * REF_SIZE then None
    else Some(seq(n, i requires 0 <= i < n => RefAt(b, i)))
  }

  /** Bytes give a block map exactly when they hold the refs they announce, one after the other. */
  lemma DecodeChecks(b: Bytes)
    ensures DecodeRefs(b).Some? <==> |b| >= 4 && UnLe(b[..4]) <= (|b| - 4) / REF_SIZE
    ensures DecodeRefs(b).Some? ==>
              |DecodeRefs(b).value| == UnLe(b[..4])
              && forall i :: 0 <= i < UnLe(b[..4]) ==>
                   4 + (i + 1) * REF_SIZE <= |b| && DecodeRefs(b).value[i] == RefAt(b, i)
  {}

  lemma {:induction false} RefChunkAt(refs: seq<Ref>, i: nat)
    requires i < |refs|
    ensures RefChunksOf(refs)[i] == EncodeRef(refs[i])
  {
    if i < |refs| - 1 { RefChunkAt(refs[..|refs| - 1], i); }
  }

  lemma EncodeRefsLen(refs: seq<Ref>)
    requires forall i :: 0 <= i < |refs| ==> RefFits(refs[i])
    ensures |EncodeRefs(refs)| == 4 + |refs| * REF_SIZE
    ensures forall i :: 0 <= i < |refs| ==> |RefChunksOf(refs)[i]| == REF_SIZE
  {
    hide EncodeRef, RefFits, RefChunksOf;
    var c := RefChunksOf(refs);
    forall i | 0 <= i < |refs| ensures |c[i]| == REF_SIZE {
      RefChunkAt(refs, i);
      RefRoundTrip(refs[i], []);
    }
    FlatLen(c);
    OffUniform(c, REF_SIZE, |c|);
  }

  lemma EncodedRefAt(refs: seq<Ref>, i: nat)
    requires i < |refs| && forall j :: 0 <= j < |refs| ==> RefFits(refs[j])
    ensures 4 + (i + 1) * REF_SIZE <= |EncodeRefs(refs)| && RefAt(EncodeRefs(refs), i) == refs[i]
  {
    hide EncodeRef, DecodeRef, RefFits, RefChunksOf;
    var c, b := RefChunksOf(refs), EncodeRefs(refs);
    EncodeRefsLen(refs);
    OffUniform(c, REF_SIZE, i);
    OffUniform(c, REF_SIZE, i + 1);
    FlatAt(c, i);
    RefChunkAt(refs, i);
    assert b[4 + i * REF_SIZE..4 + i * REF_SIZE + REF_SIZE] == Flat(c)[i * REF_SIZE..i * REF_SIZE + REF_SIZE];
    var tail := b[4 + (i + 1) * REF_SIZE..];
    assert b[4 + i * REF_SIZE..] == c[i] + tail;
    RefRoundTrip(refs[i], tail);
  }

  /** A ref list survives encoding. */
  lemma RefsRoundTrip(refs: seq<Ref>)
    requires |refs| < U32 && forall i :: 0 <= i < |refs| ==> RefFits(refs[i])
    ensures DecodeRefs(EncodeRefs(refs)) == Some(refs)
  {
    hide RefAt, RefFits, RefChunksOf;
    EncodeRefsLen(refs);
    LeWidths(|refs|);
    var b := EncodeRefs(refs);
    assert b[..4] == Le(|refs|, 4);
    forall i | 0 <= i < |refs| ensures 4 + (i + 1) * REF_SIZE <= |b| && RefAt(b, i) == refs[i] {
      EncodedRefAt(refs, i);
    }
    assert DecodeRefs(b).value == refs;
  }
}
