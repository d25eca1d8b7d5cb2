/** The uberblock: the commit root, sealed by a checksum so that a torn write is rejected. */
module Uber {
  import opened Bytes

  datatype Error = BadUber

  const MAGIC: nat := 0x00B1_00F5_C0FF_EE01
  const CHECKSUM_OFF: nat := 104

  datatype Uberblock = Uberblock(
    seqNo: nat, blockSize: nat, activeMeta: nat, totalBlocks: nat, metaA: nat, metaB: nat, metaBlocks: nat,
    inodeCount: nat, dataStart: nat, rootInode: nat, nextInode: nat,
    bitmapLen: nat, ddtLen: nat, inodeLen: nat)
  {
    /** First block of the active metadata slot. */
    function MetaStart(): nat { if activeMeta == 1 then metaB else metaA }
  }

  ghost predicate Fits(u: Uberblock) {
    && u.seqNo < U64 && u.blockSize < U32 && u.activeMeta < 256 && u.totalBlocks < U64 && u.metaA < U64
    && u.metaB < U64 && u.metaBlocks < U64 && u.inodeCount < U64 && u.dataStart < U64 && u.rootInode < U64
    && u.nextInode < U64 && u.bitmapLen < U32 && u.ddtLen < U32 && u.inodeLen < U32
  }

  /** A checksum yields 32 bytes. */
  ghost predicate ChecksumOk(hash: Bytes -> Bytes) { forall b :: |hash(b)| == 32 }

  function Chunks(u: Uberblock): seq<Bytes>
    requires Fits(u)
  {
    [Le(MAGIC, 8), Le(u.seqNo, 8), Le(u.blockSize, 4), [u.activeMeta as byte, 0, 0, 0],
     Le(u.totalBlocks, 8), Le(u.metaA, 8), Le(u.metaB, 8), Le(u.metaBlocks, 8), Le(u.inodeCount, 8),
     Le(u.dataStart, 8), Le(u.rootInode, 8), Le(u.nextInode, 8),
     Le(u.bitmapLen, 4), Le(u.ddtLen, 4), Le(u.inodeLen, 4), Zeros(4)]
  }

  function Body(u: Uberblock): Bytes
    requires Fits(u)
  {
    Flat(Chunks(u))
  }

  /** A full block: the fields, their checksum, zero padding. */
  function Marshal(hash: Bytes -> Bytes, u: Uberblock): Bytes
    requires Fits(u)
  {
    Body(u) + hash(Body(u)) + Zeros(BLK - CHECKSUM_OFF - 32)
  }

  function Parse(hash: Bytes -> Bytes, b: Bytes): Result<Uberblock, Error> {
    if |b| < BLK then Err(BadUber)
    else if UnLe(b[0..8]) != MAGIC then Err(BadUber)
    else if hash(b[..CHECKSUM_OFF]) != b[CHECKSUM_OFF..CHECKSUM_OFF + 32] then Err(BadUber)
    else Ok(Fields(b))
  }

  function Fields(b: Bytes): Uberblock
    requires |b| >= CHECKSUM_OFF
  {
    Uberblock(UnLe(b[8..16]), UnLe(b[16..20]), b[20] as nat, UnLe(b[24..32]), UnLe(b[32..40]), UnLe(b[40..48]),
              UnLe(b[48..56]), UnLe(b[56..64]), UnLe(b[64..72]), UnLe(b[72..80]), UnLe(b[80..88]),
              UnLe(b[88..92]), UnLe(b[92..96]), UnLe(b[96..100]))
  }

  /** A block is taken for an uberblock exactly when its magic number and its checksum are right. */
  lemma ParseChecks(hash: Bytes -> Bytes, b: Bytes)
    ensures Parse(hash, b).Ok? <==>
              |b| >= BLK && UnLe(b[0..8]) == MAGIC && hash(b[..CHECKSUM_OFF]) == b[CHECKSUM_OFF..CHECKSUM_OFF + 32]
  {}

  lemma Offsets(u: Uberblock)
    requires Fits(u)
    ensures var c := Chunks(u);
            && Off(c, 0) == 0 && Off(c, 1) == 8 && Off(c, 2) == 16 && Off(c, 3) == 20 && Off(c, 4) == 24
            && Off(c, 5) == 32 && Off(c, 6) == 40 && Off(c, 7) == 48 && Off(c, 8) == 56 && Off(c, 9) == 64
            && Off(c, 10) == 72 && Off(c, 11) == 80 && Off(c, 12) == 88 && Off(c, 13) == 92 && Off(c, 14) == 96
            && Off(c, 15) == 100 && Off(c, 16) == 104
  {
    var c := Chunks(u);
    assert Off(c, 1) == 8;
    assert Off(c, 2) == 16;
    assert Off(c, 3) == 20;
    assert Off(c, 4) == 24;
    assert Off(c, 5) == 32;
    assert Off(c, 6) == 40;
    assert Off(c, 7) == 48;
    assert Off(c, 8) == 56;
    assert Off(c, 9) == 64;
    assert Off(c, 10) == 72;
    assert Off(c, 11) == 80;
    assert Off(c, 12) == 88;
    assert Off(c, 13) == 92;
    assert Off(c, 14) == 96;
    assert Off(c, 15) == 100;
  }

  lemma BodySlices(u: Uberblock)
    requires Fits(u)
    ensures |Body(u)| == CHECKSUM_OFF
    ensures var b, c := Body(u), Chunks(u);
            && b[0..8] == c[0] && b[8..16] == c[1] && b[16..20] == c[2] && b[20..24] == c[3] && b[24..32] == c[4]
            && b[32..40] == c[5] && b[40..48] == c[6] && b[48..56] == c[7] && b[56..64] == c[8] && b[64..72] == c[9]
            && b[72..80] == c[10] && b[80..88] == c[11] && b[88..92] == c[12] && b[92..96] == c[13]
            && b[96..100] == c[14]
  {
    hide Flat, Off;
    var c := Chunks(u);
    Offsets(u);
    FlatLen(c);
    FlatAt(c, 0);
    FlatAt(c, 1);
    FlatAt(c, 2);
    FlatAt(c, 3);
    FlatAt(c, 4);
    FlatAt(c, 5);
    FlatAt(c, 6);
    FlatAt(c, 7);
    FlatAt(c, 8);
    FlatAt(c, 9);
    FlatAt(c, 10);
    FlatAt(c, 11);
    FlatAt(c, 12);
    FlatAt(c, 13);
    FlatAt(c, 14);
  }

  lemma WideNumbers(u: Uberblock)
    requires Fits(u)
    ensures UnLe(Le(MAGIC, 8)) == MAGIC && UnLe(Le(u.seqNo, 8)) == u.seqNo
              && UnLe(Le(u.totalBlocks, 8)) == u.totalBlocks
    ensures UnLe(Le(u.metaA, 8)) == u.metaA && UnLe(Le(u.metaB, 8)) == u.metaB
              && UnLe(Le(u.metaBlocks, 8)) == u.metaBlocks
    ensures UnLe(Le(u.inodeCount, 8)) == u.inodeCount && UnLe(Le(u.dataStart, 8)) == u.dataStart
    ensures UnLe(Le(u.rootInode, 8)) == u.rootInode && UnLe(Le(u.nextInode, 8)) == u.nextInode
  {
    LeWidths(MAGIC);
    LeWidths(u.seqNo);
    LeWidths(u.totalBlocks);
    LeWidths(u.metaA);
    LeWidths(u.metaB);
    LeWidths(u.metaBlocks);
    LeWidths(u.inodeCount);
    LeWidths(u.dataStart);
    LeWidths(u.rootInode);
    LeWidths(u.nextInode);
  }

  lemma NarrowNumbers(u: Uberblock)
    requires Fits(u)
    ensures UnLe(Le(u.blockSize, 4)) == u.blockSize && UnLe(Le(u.bitmapLen, 4)) == u.bitmapLen
    ensures UnLe(Le(u.ddtLen, 4)) == u.ddtLen && UnLe(Le(u.inodeLen, 4)) == u.inodeLen
  {
    LeWidths(u.blockSize);
    LeWidths(u.bitmapLen);
    LeWidths(u.ddtLen);
    LeWidths(u.inodeLen);
  }

  lemma FieldsOfBody(u: Uberblock)
    requires Fits(u)
    ensures |Body(u)| == CHECKSUM_OFF && UnLe(Body(u)[0..8]) == MAGIC && Fields(Body(u)) == u
  {
    hide Le, UnLe, Body;
    BodySlices(u);
    WideNumbers(u);
    NarrowNumbers(u);
    assert Body(u)[20..24][0] == Body(u)[20];
  }

  lemma FieldsPrefix(b: Bytes, p: Bytes)
    requires |p| == CHECKSUM_OFF <= |b| && b[..CHECKSUM_OFF] == p
    ensures Fields(b) == Fields(p) && UnLe(b[0..8]) == UnLe(p[0..8])
  {
    hide UnLe;
    forall lo: nat, hi: nat | lo <= hi <= CHECKSUM_OFF ensures b[lo..hi] == p[lo..hi] { SlicePrefix(b, p, lo, hi); }
    assert b[20] == p[20];
  }

  lemma SlicePrefix(b: Bytes, p: Bytes, lo: nat, hi: nat)
    requires |p| <= |b| && b[..|p|] == p && lo <= hi <= |p|
    ensures b[lo..hi] == p[lo..hi]
  {
    forall j | lo <= j < hi ensures b[j] == p[j] { assert b[j] == b[..|p|][j]; }
  }

  /** A sealed uberblock parses back to itself. */
  lemma UberRoundTrip(hash: Bytes -> Bytes, u: Uberblock)
    requires Fits(u) && ChecksumOk(hash)
    ensures |Marshal(hash, u)| == BLK
    ensures Parse(hash, Marshal(hash, u)) == Ok(u)
  {
    hide Body, Fields, UnLe;
    var b := Marshal(hash, u);
    FieldsOfBody(u);
    assert b[..CHECKSUM_OFF] == Body(u);
    assert b[CHECKSUM_OFF..CHECKSUM_OFF + 32] == hash(Body(u));
    FieldsPrefix(b, Body(u));
  }
}
