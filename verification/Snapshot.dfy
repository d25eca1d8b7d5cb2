/** A metadata snapshot `[bitmap | dedup table | inode table]`, and how a mount finds and loads one. */
module Snapshot {
  import opened Bytes
  import opened Uber
  import Alloc
  import Dedup
  import Inodes
  import Store

  datatype MountError = NotFormatted | BadMetadata | DeviceError

  type Image = Store.Image

  /** Everything a commit makes durable besides the uberblock. */
  datatype Meta = Meta(bm: Alloc.Words, ddt: Dedup.Map, tbl: Inodes.Slots)

  ghost predicate MetaOk(m: Meta) {
    Alloc.Shaped(m.bm) && m.bm.total < U64 && Dedup.AllFit(m.ddt) && Inodes.WellFormed(m.tbl)
  }

  // ----- loading -----

  function Region(img: Image, start: nat, n: nat): Bytes
    requires start + n <= |img|
  {
    Flat(img[start..start + n])
  }

  /** The tail past the three lengths is never looked at. */
  function LoadBuf(u: Uberblock, buf: Bytes): (r: Result<Meta, MountError>)
    ensures r.Err? ==> r.error == BadMetadata
  {
    var bmEnd := u.bitmapLen;
    var ddEnd := bmEnd + u.ddtLen;
    var inEnd := ddEnd + u.inodeLen;
    if inEnd > |buf| then Err(BadMetadata) else
    match (Alloc.Unmarshal(buf[..bmEnd]), Dedup.Unmarshal(buf[bmEnd..ddEnd]),
      Inodes.Unmarshal(buf[ddEnd..inEnd], u.inodeCount))
    case (Ok(bm), Ok(ddt), Ok(tbl)) => Ok(Meta(bm, ddt, tbl))
    case _ => Err(BadMetadata)
  }

  function Load(u: Uberblock, img: Image): Result<Meta, MountError> {
    if u.MetaStart() + u.metaBlocks > |img| then Err(BadMetadata)
    else LoadBuf(u, Region(img, u.MetaStart(), u.metaBlocks))
  }

  /** The highest-sequence valid uberblock of the two slots. */
  function Best(hash: Bytes -> Bytes, img: Image): Option<Uberblock>
    requires |img| >= 2
  {
    match (Parse(hash, img[0]), Parse(hash, img[1]))
    case (Err(_), Err(_)) => None
    case (Ok(u), Err(_)) => Some(u)
    case (Err(_), Ok(v)) => Some(v)
    case (Ok(u), Ok(v)) => Some(if v.seqNo > u.seqNo then v else u)
  }

  function Mount(hash: Bytes -> Bytes, img: Image): Result<(Uberblock, Meta), MountError> {
    if |img| < 2 then Err(NotFormatted) else
    match Best(hash, img)
    case None => Err(NotFormatted)
    case Some(u) =>
      match Load(u, img)
      case Err(e) => Err(e)
      case Ok(m) => Ok((u, m))
  }

  // ----- saving -----

  /** `buf` starts with the encodings of `m`; anything may follow them. */
  ghost predicate Carries(buf: Bytes, m: Meta, order: seq<Dedup.Key>)
    requires MetaOk(m) && Dedup.Enumerates(order, m.ddt)
  {
    Alloc.Marshal(m.bm) + Dedup.Marshal(m.ddt, order) + Inodes.Marshal(m.tbl) <= buf
  }

  /** The uberblock records the three lengths and the table capacity. */
  ghost predicate Describes(u: Uberblock, m: Meta)
  {
    && u.bitmapLen == 8 + 8 * |m.bm.bits| && u.ddtLen == 8 + Dedup.REC * |m.ddt|
    && u.inodeLen == Inodes.SIZE * m.tbl.count && u.inodeCount == |m.tbl.inodes|
  }

  ghost function SavedLen(m: Meta): nat {
    8 + 8 * |m.bm.bits| + 8 + Dedup.REC * |m.ddt| + Inodes.SIZE * m.tbl.count
  }

  /** Loading what was saved gives back the bitmap, the dedup table and the inode table. */
  lemma SnapshotRoundTrip(u: Uberblock, m: Meta, order: seq<Dedup.Key>, buf: Bytes)
    requires MetaOk(m) && Dedup.Enumerates(order, m.ddt) && Describes(u, m) && Carries(buf, m, order)
    requires |m.ddt| < U64
    ensures LoadBuf(u, buf) == Ok(m)
  {
    hide Alloc.Marshal, Dedup.Marshal, Inodes.Marshal, Alloc.Unmarshal, Dedup.Unmarshal, Inodes.Unmarshal;
    Alloc.MarshalLen(m.bm);
    Dedup.MarshalLen(m.ddt, order);
    Inodes.MarshalLen(m.tbl);
    var a, b, c := Alloc.Marshal(m.bm), Dedup.Marshal(m.ddt, order), Inodes.Marshal(m.tbl);
    assert buf[..|a + b + c|] == a + b + c;
    assert buf[..|a|] == (a + b + c)[..|a|] == a;
    assert buf[|a|..|a| + |b|] == (a + b + c)[|a|..|a| + |b|] == b;
    assert buf[|a| + |b|..|a| + |b| + |c|] == (a + b + c)[|a| + |b|..|a| + |b| + |c|] == c;
    Alloc.BitmapRoundTrip(m.bm);
    Dedup.TableRoundTrip(m.ddt, order);
    Inodes.TableRoundTrip(m.tbl);
  }

  /** Blocks cut from a buffer and written one after the other hold the buffer. */
  lemma RegionOfSlices(img: Image, start: nat, n: nat, buf: Bytes)
    requires start + n <= |img| && |buf| == n * BLK
    requires forall i :: 0 <= i < n ==> (i + 1) * BLK <= |buf| && img[start + i] == Store.Slice(buf, i)
    ensures Region(img, start, n) == buf
  {
    var c := img[start..start + n];
    forall i | 0 <= i < n ensures c[i] == Store.Slice(buf, i) {
      assert c[i] == img[start + i];
    }
    FlatOfSlices(c, buf, n);
    assert c[..n] == c && buf[..n * BLK] == buf;
  }

  lemma {:induction false} FlatOfSlices(c: seq<Bytes>, buf: Bytes, n: nat)
    requires n <= |c| && |c| * BLK == |buf|
    requires forall i :: 0 <= i < |c| ==> (i + 1) * BLK <= |buf| && c[i] == Store.Slice(buf, i)
    ensures n * BLK <= |buf| && Flat(c[..n]) == buf[..n * BLK]
  {
    if n > 0 {
      FlatOfSlices(c, buf, n - 1);
      assert c[..n][..n - 1] == c[..n - 1];
      assert (n - 1 + 1) * BLK <= |buf|;
      assert buf[..n * BLK] == buf[..(n - 1) * BLK] + Store.Slice(buf, n - 1);
    }
  }

  /** Loading depends on the active metadata slot only. */
  lemma LoadFrame(u: Uberblock, a: Image, b: Image)
    requires Store.AgreeOn(a, b, u.MetaStart(), u.metaBlocks)
    ensures Load(u, a) == Load(u, b)
  {
    if u.MetaStart() + u.metaBlocks <= |a| {
      assert a[u.MetaStart()..u.MetaStart() + u.metaBlocks] == b[u.MetaStart()..u.MetaStart() + u.metaBlocks];
    }
  }

  // ----- geometry -----

  ghost predicate Geometry(u: Uberblock) {
    && u.metaA == 2 && u.metaB == 2 + u.metaBlocks && u.dataStart == 2 + 2 * u.metaBlocks
    && u.dataStart < u.totalBlocks && u.activeMeta <= 1 && u.metaBlocks * BLK < U32 && Fits(u)
  }

  /** The size `format` gives a metadata slot. */
  function SlotBlocks(total: nat, inodeCount: nat, ddtReserve: nat): nat {
    DivCeil(64 + (8 + DivCeil(total, 8)) + ddtReserve + inodeCount * Inodes.SIZE, BLK)
  }

  /**
   The slot always suffices while the dedup table stays within its reserve: the bitmap is sized in whole
   bytes but written in whole words, and the 64 spare bytes cover the difference with 57 bytes, one more
   dedup record, to spare.
   */
  lemma SlotSuffices(m: Meta, inodeCount: nat, ddtReserve: nat)
    requires MetaOk(m) && |m.tbl.inodes| == inodeCount
    requires 8 + Dedup.REC * |m.ddt| <= ddtReserve + Dedup.REC
    ensures SavedLen(m) <= SlotBlocks(m.bm.total, inodeCount, ddtReserve) * BLK
  {
    assert 8 * DivCeil(m.bm.total, 64) <= DivCeil(m.bm.total, 8) + 7;
    assert Inodes.SIZE * m.tbl.count <= Inodes.SIZE * inodeCount;
  }

  /** The slot is no larger than it must be: a header, the bitmap in bytes, the dedup reserve and all inodes. */
  lemma SlotTight(total: nat, inodeCount: nat, ddtReserve: nat, bitmap: nat)
    requires 8 * bitmap < total + 8 <= 8 * bitmap + 8
    ensures var n := SlotBlocks(total, inodeCount, ddtReserve);
            n > 0 && (n - 1) * BLK < 72 + bitmap + ddtReserve + Inodes.SIZE * inodeCount <= n * BLK
  {}

  /** Mount takes the valid uberblock with the higher sequence number. */
  lemma BestWins(hash: Bytes -> Bytes, img: Image)
    requires |img| >= 2
    ensures Best(hash, img).None? <==> Parse(hash, img[0]).Err? && Parse(hash, img[1]).Err?
    ensures Best(hash, img).Some? ==>
              && (exists i :: 0 <= i < 2 && Parse(hash, img[i]) == Ok(Best(hash, img).value))
              && forall i :: 0 <= i < 2 && Parse(hash, img[i]).Ok? ==>
                   Parse(hash, img[i]).value.seqNo <= Best(hash, img).value.seqNo
  {
    hide Parse;
    if Best(hash, img).Some? {
      assert Parse(hash, img[0]) == Ok(Best(hash, img).value) || Parse(hash, img[1]) == Ok(Best(hash, img).value);
    }
  }

  /** Bytes a fresh image saves: its bitmap and two empty tables. */
  function FreshLen(total: nat): nat { 8 + 8 * DivCeil(total, 64) + 8 }

  lemma FreshFits(total: nat, inodeCount: nat, ddtReserve: nat)
    ensures FreshLen(total) <= SlotBlocks(total, inodeCount, ddtReserve) * BLK
  {
    assert 8 * DivCeil(total, 64) <= DivCeil(total, 8) + 7;
  }

  /** Serialize all three structures to the front of a buffer whose old contents do not matter. */
  method Serialize(bm: Alloc.Bitmap, ddt: Dedup.Table, tbl: Inodes.Table, dst: array<byte>)
      returns (ghost order: seq<Dedup.Key>)
    requires bm.Valid() && MetaOk(Meta(bm.Image(), ddt.m, tbl.slots))
              && SavedLen(Meta(bm.Image(), ddt.m, tbl.slots)) <= dst.Length
    modifies dst
    ensures Dedup.Enumerates(order, ddt.m) && Carries(dst[..], Meta(bm.Image(), ddt.m, tbl.slots), order)
  {
    hide Patch, Alloc.Marshal, Dedup.Marshal, Inodes.Marshal;
    var a, b := 8 + 8 * bm.bits.Length, 8 + Dedup.REC * |ddt.m|;
    ghost var before := dst[..];
    bm.MarshalInto(dst, 0);
    order := ddt.MarshalInto(dst, a);
    tbl.MarshalInto(dst, a + b);
    Alloc.MarshalLen(bm.Image());
    Dedup.MarshalLen(ddt.m, order);
    Inodes.MarshalLen(tbl.slots);
    PatchTwice(before, 0, Alloc.Marshal(bm.Image()), Dedup.Marshal(ddt.m, order));
    PatchTwice(before, 0, Alloc.Marshal(bm.Image()) + Dedup.Marshal(ddt.m, order), Inodes.Marshal(tbl.slots));
    PatchPrefix(before, Alloc.Marshal(bm.Image()) + Dedup.Marshal(ddt.m, order) + Inodes.Marshal(tbl.slots));
  }

  lemma PatchPrefix(s: Bytes, a: Bytes)
    requires |a| <= |s|
    ensures a <= Patch(s, 0, a)
  {}
}
