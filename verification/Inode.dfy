/** The 128-byte inode, its fixed layout, and the table that is saved as part of every commit. */
module Inodes {
  import opened Bytes

  datatype Error = BadInodeSize | OutOfRange

  const SIZE: nat := 128
  const TYPE_REGULAR: nat := 0
  const TYPE_DIR: nat := 1
  const TYPE_LINK: nat := 2

  datatype Inode = Inode(
    size: nat, nlink: nat, generation: nat, uid: nat, gid: nat,
    atime: nat, mtime: nat, ctime: nat, mode: nat, kind: nat, recordSizeLog2: nat, flags: nat,
    checksum: Bytes, blockMap: Bytes)

  function Blank(): Inode { Inode(0, 0, 0, 0, 0, 0, 0, 0, 0, 0, 0, 0, Zeros(8), Zeros(64)) }

  /** Every field fits its width on disk. */
  predicate Fits(i: Inode) {
    && i.size < U64 && i.nlink < U32 && i.generation < U32 && i.uid < U32 && i.gid < U32
    && i.atime < U64 && i.mtime < U64 && i.ctime < U64 && i.mode < U16
    && i.kind < 256 && i.recordSizeLog2 < 256 && i.flags < 256
    && |i.checksum| == 8 && |i.blockMap| == 64
  }

  function Chunks(i: Inode): seq<Bytes>
    requires Fits(i)
  {
    [Le(i.size, 8), Le(i.nlink, 4), Le(i.generation, 4), Le(i.uid, 4), Le(i.gid, 4),
     Le(i.atime, 8), Le(i.mtime, 8), Le(i.ctime, 8), Le(i.mode, 2),
     [i.kind as byte, i.recordSizeLog2 as byte, i.flags as byte, 0, 0, 0],
     i.checksum, i.blockMap]
  }

  function Encode(i: Inode): Bytes
    requires Fits(i)
  {
    Flat(Chunks(i))
  }

  /** A blank slot is all zeros on disk. */
  lemma BlankZero()
    ensures Encode(Blank()) == Zeros(SIZE)
  {
    var c := Chunks(Blank());
    assert forall j :: 0 <= j < |c| ==> c[j] == Zeros(|c[j]|) by { ZerosLe(); }
    FlatZeros(c, |c|);
    assert c[..|c|] == c;
    InodeRoundTrip(Blank());
  }

  lemma ZerosLe()
    ensures Le(0, 2) == Zeros(2) && Le(0, 4) == Zeros(4) && Le(0, 8) == Zeros(8)
  {
    LeZero(2);
    LeZero(4);
    LeZero(8);
  }

  lemma {:induction false} LeZero(k: nat)
    ensures Le(0, k) == Zeros(k)
  {
    if k > 0 { LeZero(k - 1); }
  }

  lemma {:induction false} FlatZeros(c: seq<Bytes>, n: nat)
    requires n <= |c| && forall j :: 0 <= j < |c| ==> c[j] == Zeros(|c[j]|)
    ensures Flat(c[..n]) == Zeros(|Flat(c[..n])|)
  {
    if n > 0 {
      FlatZeros(c, n - 1);
      assert c[..n][..n - 1] == c[..n - 1];
    }
  }

  function Decode(b: Bytes): Result<Inode, Error> {
    if |b| != SIZE then Err(BadInodeSize) else Ok(DecodeFields(b))
  }

  function DecodeFields(b: Bytes): Inode
    requires |b| == SIZE
  {
    Inode(UnLe(b[0..8]), UnLe(b[8..12]), UnLe(b[12..16]), UnLe(b[16..20]), UnLe(b[20..24]),
          UnLe(b[24..32]), UnLe(b[32..40]), UnLe(b[40..48]), UnLe(b[48..50]),
          b[50] as nat, b[51] as nat, b[52] as nat, b[56..64], b[64..128])
  }

  lemma Offsets(i: Inode)
    requires Fits(i)
    ensures var c := Chunks(i);
            Off(c, 0) == 0 && Off(c, 1) == 8 && Off(c, 2) == 12 && Off(c, 3) == 16 && Off(c, 4) == 20
            && Off(c, 5) == 24 && Off(c, 6) == 32 && Off(c, 7) == 40 && Off(c, 8) == 48 && Off(c, 9) == 50
            && Off(c, 10) == 56 && Off(c, 11) == 64 && Off(c, 12) == 128
  {
    var c := Chunks(i);
    assert Off(c, 1) == 8;
    assert Off(c, 2) == 12;
    assert Off(c, 3) == 16;
    assert Off(c, 4) == 20;
    assert Off(c, 5) == 24;
    assert Off(c, 6) == 32;
    assert Off(c, 7) == 40;
    assert Off(c, 8) == 48;
    assert Off(c, 9) == 50;
    assert Off(c, 10) == 56;
    assert Off(c, 11) == 64;
  }

  lemma EncodeSlices(i: Inode)
    requires Fits(i)
    ensures |Encode(i)| == SIZE
    ensures var b, c := Encode(i), Chunks(i);
            && b[0..8] == c[0] && b[8..12] == c[1] && b[12..16] == c[2] && b[16..20] == c[3] && b[20..24] == c[4]
            && b[24..32] == c[5] && b[32..40] == c[6] && b[40..48] == c[7] && b[48..50] == c[8]
            && b[50..56] == c[9] && b[56..64] == c[10] && b[64..128] == c[11]
  {
    hide Flat;
    var c := Chunks(i);
    Offsets(i);
    FlatLen(c);
    forall j | 0 <= j < 12 ensures Encode(i)[Off(c, j)..Off(c, j + 1)] == c[j] {
      FlatAt(c, j);
    }
  }

  lemma NumbersRoundTrip(i: Inode)
    requires Fits(i)
    ensures UnLe(Le(i.size, 8)) == i.size && UnLe(Le(i.nlink, 4)) == i.nlink
    ensures UnLe(Le(i.generation, 4)) == i.generation && UnLe(Le(i.uid, 4)) == i.uid && UnLe(Le(i.gid, 4)) == i.gid
    ensures UnLe(Le(i.atime, 8)) == i.atime && UnLe(Le(i.mtime, 8)) == i.mtime && UnLe(Le(i.ctime, 8)) == i.ctime
    ensures UnLe(Le(i.mode, 2)) == i.mode
  {
    LeWidths(i.size);
    LeWidths(i.nlink);
    LeWidths(i.generation);
    LeWidths(i.uid);
    LeWidths(i.gid);
    LeWidths(i.atime);
    LeWidths(i.mtime);
    LeWidths(i.ctime);
    LeWidths(i.mode);
  }

  lemma InodeRoundTrip(i: Inode)
    requires Fits(i)
    ensures Decode(Encode(i)) == Ok(i)
  {
    hide Le, UnLe, Encode;
    EncodeSlices(i);
    NumbersRoundTrip(i);
    var b := Encode(i);
    assert b[50..56][0] == b[50] && b[50..56][1] == b[51] && b[50..56][2] == b[52];
  }

  // ----- the table -----

  /** All slots, and the number of leading slots ever written. */
  datatype Slots = Slots(inodes: seq<Inode>, count: nat)

  /** Slots past the high-water mark were never written. */
  ghost predicate WellFormed(t: Slots) {
    && t.count <= |t.inodes| < U64
    && (forall i :: 0 <= i < |t.inodes| ==> Fits(t.inodes[i]))
    && (forall i :: t.count <= i < |t.inodes| ==> t.inodes[i] == Blank())
  }

  function EmptyTable(capacity: nat): (t: Slots)
    ensures capacity < U64 ==> WellFormed(t)
  {
    Slots(seq(capacity, _ => Blank()), 0)
  }

  function PutSlot(t: Slots, id: nat, i: Inode): (t': Slots)
    requires id < |t.inodes|
    ensures WellFormed(t) && Fits(i) ==> WellFormed(t')
  {
    Slots(t.inodes[id := i], if id >= t.count then id + 1 else t.count)
  }

  function SlotChunks(s: seq<Inode>): (c: seq<Bytes>)
    requires forall i :: 0 <= i < |s| ==> Fits(s[i])
    ensures |c| == |s|
  {
    if s == [] then [] else SlotChunks(s[..|s| - 1]) + [Encode(s[|s| - 1])]
  }

  function Marshal(t: Slots): Bytes
    requires WellFormed(t)
  {
    Flat(SlotChunks(t.inodes[..t.count]))
  }

  function SlotAt(b: Bytes, i: nat): (s: Bytes)
    requires SIZE * (i + 1) <= |b|
    ensures |s| == SIZE
  {
    b[SIZE * i..SIZE * i + SIZE]
  }

  /** Bytes give a table exactly when they are a whole number of inodes within the capacity. */
  lemma UnmarshalChecks(b: Bytes, capacity: nat)
    ensures Unmarshal(b, capacity).Ok? <==> exists n: nat :: |b| == n * SIZE && n <= capacity
    ensures Unmarshal(b, capacity) == Err(OutOfRange) <==> exists n: nat :: |b| == n * SIZE && n > capacity
  {
    if |b| % SIZE == 0 { assert |b| == |b| / SIZE * SIZE; }
  }

  function Unmarshal(b: Bytes, capacity: nat): Result<Slots, Error> {
    if |b| % SIZE != 0 then Err(BadInodeSize) else
    var n := |b| / SIZE;
    if n > capacity then Err(OutOfRange) else
    Ok(Slots(seq(capacity, i requires 0 <= i < capacity => if i < n then DecodeFields(SlotAt(b, i)) else Blank()), n))
  }

  lemma {:induction false} SlotChunkAt(s: seq<Inode>, i: nat)
    requires forall j :: 0 <= j < |s| ==> Fits(s[j])
    requires i < |s|
    ensures SlotChunks(s)[i] == Encode(s[i]) && |SlotChunks(s)[i]| == SIZE
  {
    EncodeSlices(s[i]);
    if i < |s| - 1 { SlotChunkAt(s[..|s| - 1], i); }
  }

  lemma MarshalLen(t: Slots)
    requires WellFormed(t)
    ensures |Marshal(t)| == SIZE * t.count
  {
    var s := t.inodes[..t.count];
    forall i | 0 <= i < |s| ensures |SlotChunks(s)[i]| == SIZE { SlotChunkAt(s, i); }
    FlatLen(SlotChunks(s));
    OffUniform(SlotChunks(s), SIZE, |s|);
  }

  lemma MarshalSlot(t: Slots, i: nat)
    requires WellFormed(t) && i < t.count
    ensures SIZE * (i + 1) <= |Marshal(t)| && SlotAt(Marshal(t), i) == Encode(t.inodes[i])
  {
    hide Encode, SlotChunks, Fits;
    var s := t.inodes[..t.count];
    var c := SlotChunks(s);
    forall j | 0 <= j < |s| ensures |c[j]| == SIZE { SlotChunkAt(s, j); }
    SlotChunkAt(s, i);
    MarshalLen(t);
    OffUniform(c, SIZE, i);
    OffUniform(c, SIZE, i + 1);
    FlatAt(c, i);
  }

  /** The table survives a save and a load: touched slots are read back, the rest are blank again. */
  lemma TableRoundTrip(t: Slots)
    requires WellFormed(t)
    ensures Unmarshal(Marshal(t), |t.inodes|) == Ok(t)
  {
    hide Encode, DecodeFields, Fits, Marshal;
    var b := Marshal(t);
    MarshalLen(t);
    assert |b| % SIZE == 0 && |b| / SIZE == t.count;
    forall i | 0 <= i < t.count ensures SIZE * (i + 1) <= |b| && DecodeFields(SlotAt(b, i)) == t.inodes[i] {
      MarshalSlot(t, i);
      InodeRoundTrip(t.inodes[i]);
    }
    assert Unmarshal(b, |t.inodes|).value.inodes == t.inodes;
  }

  /** The table in memory. A caller gets a copy and must put it back to change anything. */
  class Table {
    var slots: Slots

    constructor (slots: Slots) ensures this.slots == slots { this.slots := slots; }

    function Get(id: nat): Result<Inode, Error>
      reads this
    {
      if id >= |slots.inodes| then Err(OutOfRange) else Ok(slots.inodes[id])
    }

    /** Only slot `id` changes; the high-water mark covers it afterwards. */
    method Put(id: nat, i: Inode) returns (r: Result<(), Error>)
      modifies this
      ensures r == if id < |old(slots).inodes| then Ok(()) else Err(OutOfRange)
      ensures slots == if r.Ok? then PutSlot(old(slots), id, i) else old(slots)
    {
      if id >= |slots.inodes| {
        return Err(OutOfRange);
      }
      slots := Slots(slots.inodes[id := i], if id >= slots.count then id + 1 else slots.count);
      return Ok(());
    }

    /** Serialize the touched slots into a caller's buffer at `at`. */
    method MarshalInto(dst: array<byte>, at: nat)
      requires WellFormed(slots) && at + SIZE * slots.count <= dst.Length
      modifies dst
      ensures at + |Marshal(slots)| <= dst.Length && dst[..] == Patch(old(dst[..]), at, Marshal(slots))
    {
      hide Encode, Patch, SlotChunks;
      ghost var before := dst[..];
      PatchNone(before, at);
      var i := 0;
      while i < slots.count
        invariant 0 <= i <= slots.count && |Flat(SlotChunks(slots.inodes[..i]))| == SIZE * i
        invariant at + SIZE * i <= |before| && dst[..] == Patch(before, at, Flat(SlotChunks(slots.inodes[..i])))
      {
        EncodeSlices(slots.inodes[i]);
        CopyInto(dst, at + SIZE * i, Encode(slots.inodes[i]));
        PatchTwice(before, at, Flat(SlotChunks(slots.inodes[..i])), Encode(slots.inodes[i]));
        SlotsNext(slots.inodes, i);
        i := i + 1;
      }
    }
  }

  lemma PatchNone(s: Bytes, at: nat)
    requires at <= |s|
    ensures Flat(SlotChunks([])) == [] && Patch(s, at, []) == s
  {}

  lemma SlotsNext(s: seq<Inode>, i: nat)
    requires i < |s| && forall j :: 0 <= j < |s| ==> Fits(s[j])
    ensures Flat(SlotChunks(s[..i + 1])) == Flat(SlotChunks(s[..i])) + Encode(s[i])
  {
    hide Encode, Fits;
    assert s[..i + 1][..i] == s[..i];
    var c := SlotChunks(s[..i + 1]);
    assert c[..i] == SlotChunks(s[..i]);
  }
}
