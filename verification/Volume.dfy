/** The mounted volume: device, allocator, dedup table, inode table and uberblock, changed in place. */
module Volumes {
  import opened Bytes
  import opened Store
  import opened Machine
  import Alloc
  import Dedup
  import Inodes
  import Uber
  import Snapshot

  /**
   A block device. A reliable one serves every read inside it, every write and every sync; any other may fail at its own
   choice. The ghost fields say what would survive a power failure.
   */
  class Device {
    var cur: Image
    ghost var durable: Image
    ghost var pending: map<nat, set<Bytes>>
    const hash: Bytes -> Bytes
    const reliable: bool

    ghost function Disk(): Disk reads this { Machine.Disk(durable, cur, pending) }

    constructor (img: Image, hash: Bytes -> Bytes, reliable: bool)
      ensures Disk() == Machine.Disk(img, img, map[]) && this.hash == hash && this.reliable == reliable
    {
      cur, durable, pending := img, img, map[];
      this.hash, this.reliable := hash, reliable;
    }

    method ReadBlock(n: nat) returns (r: Option<Bytes>)
      ensures r.Some? ==> n < |cur| && r.value == cur[n]
      ensures reliable && n < |cur| ==> r.Some?
    {
      var fails: bool := *;
      if (fails && !reliable) || n >= |cur| {
        return None;
      }
      return Some(cur[n]);
    }

    /**
     A failed write may leave anything behind, what was there included; an uberblock slot keeps what it held, or holds
     the new uberblock, or does not parse.
     */
    method WriteBlock(n: nat, data: Bytes) returns (ok: bool, ghost landed: Option<Bytes>)
      requires n < |cur|
      modifies this
      ensures Disk() == if landed.Some? then WriteTo(old(Disk()), n, landed.value) else old(Disk())
      ensures ok ==> landed == Some(data)
      ensures n >= 2 ==> landed.Some?
      ensures n < 2 && landed.Some? ==> landed.value == data || Uber.Parse(hash, landed.value).Err?
      ensures reliable ==> ok
    {
      ok := *;
      ok := ok || reliable;
      var refused: bool := *;
      if !ok && refused && n < 2 {
        landed := None;
        return;
      }
      var torn: Bytes := *;
      var whole: bool := *;
      var stored := if ok || whole then data else if n < 2 then [] else torn;
      pending := pending[n := {stored} + (if n in pending then pending[n] else {})];
      cur := cur[n := stored];
      landed := Some(stored);
    }

    method Sync() returns (ok: bool)
      modifies this
      ensures Disk() == if ok then Synced(old(Disk())) else old(Disk())
      ensures reliable ==> ok
    {
      ok := *;
      ok := ok || reliable;
      if ok {
        durable, pending := cur, map[];
      }
    }
  }

  // ----- what the store operations mean -----

  /** Entries present on both sides are stored at the same place. */
  ghost predicate Unmoved(m: Dedup.Map, m': Dedup.Map) {
    forall k :: k in m && k in m' ==> RefFrom(k, m'[k]) == RefFrom(k, m[k])
  }

  /** The reference counts differ by `d` at `h` and nowhere else. */
  ghost predicate Counts(m: Dedup.Map, m': Dedup.Map, h: Key, d: int) {
    forall k :: Dedup.RefsOf(m', k) == Dedup.RefsOf(m, k) + (if k == h then d else 0)
  }

  /** `text` gained one reference; it became readable unless its hash already named a stored block. */
  ghost predicate Stored(c: Codec, s: State, s': State, text: Bytes) {
    var h := c.hash(text);
    && h in s'.meta.ddt && Counts(s.meta.ddt, s'.meta.ddt, h, 1) && Unmoved(s.meta.ddt, s'.meta.ddt)
    && s'.plain == (if h in s.plain then s.plain else s.plain[h := text])
    && s'.meta.tbl == s.meta.tbl && s'.ub.nextInode == s.ub.nextInode
  }

  /** Nothing a client can see changed. */
  ghost predicate SameView(s: State, s': State) {
    s'.meta.ddt == s.meta.ddt && s'.plain == s.plain && s'.meta.tbl == s.meta.tbl && s'.ub.nextInode == s.ub.nextInode
  }

  /** The last commit is unchanged, or recorded exactly what memory held before the operation. */
  ghost predicate BaseFrom(s: State, s': State) {
    || s'.base == s.base
    || (s'.base.meta.ddt == s.meta.ddt && s'.base.plain == s.plain && s'.base.meta.tbl == s.meta.tbl)
  }

  class Volume {
    const codec: Codec
    const dev: Device
    const bm: Alloc.Bitmap
    const ddt: Dedup.Table
    const tbl: Inodes.Table
    /** Reusable buffer for serializing a snapshot; its contents between commits are stale. */
    const scratch: array<byte>
    var ub: Uber.Uberblock

    /** What the client promises of every view it commits. */
    ghost const good: View -> bool
    /** The state of the step system, and the run that led to it. */
    ghost var s: State
    ghost var trace: seq<State>

    constructor Attach(codec: Codec, dev: Device, bm: Alloc.Bitmap, ddt: Dedup.Table, tbl: Inodes.Table,
        scratch: array<byte>,
                       ub: Uber.Uberblock, ghost good: View -> bool, ghost s: State, ghost trace: seq<State>)
      ensures this.codec == codec && this.dev == dev && this.bm == bm && this.ddt == ddt && this.tbl == tbl
                && this.scratch == scratch
      ensures this.ub == ub && this.good == good && this.s == s && this.trace == trace
    {
      this.codec, this.dev, this.bm, this.ddt, this.tbl, this.scratch := codec, dev, bm, ddt, tbl, scratch;
      this.ub, this.good, this.s, this.trace := ub, good, s, trace;
    }

    ghost predicate Linked()
      reads this, dev, bm, bm.bits, ddt, tbl
    {
      && dev.hash == codec.hash && bm.Valid()
      && s.disk == dev.Disk() && s.deferred == bm.deferred && s.ub == ub
      && s.meta == Snapshot.Meta(bm.Image(), ddt.m, tbl.slots)
    }

    ghost predicate OnTrack()
      reads this
    {
      Inv(codec, s) && Accounted(s) && IsRun(codec, trace) && GoodRun(good, trace) && |trace| > 0
        && trace[|trace| - 1] == s
    }

    ghost predicate Valid()
      reads this, dev, bm, bm.bits, ddt, tbl
    {
      Linked() && OnTrack()
    }

    ghost predicate Ready()
      reads this, dev, bm, bm.bits, ddt, tbl
    {
      Valid() && s.phase.Idle?
    }

    /** Record a step of the run. */
    ghost method Advance(s': State, step: Step)
      requires OnTrack() && Next(codec, s, s', step)
      requires s'.base == s.base || good(SnapView(s'.base))
      requires s'.phase.Flipped? || s'.phase.DeadFlip? ==> good(Memory(s'))
      modifies this`s, this`trace
      ensures OnTrack() && s == s' && trace == old(trace) + [s']
      ensures s'.base == old(s).base && !Flipping(s') ==> Unflipped(old(trace), trace)
    {
      hide Inv, Accounted, Next;
      assert Good(good, trace[|trace| - 1]);
      StepKeeps(codec, s, s', step);
      StepAccounts(codec, s, s', step);
      assert Steps(codec, s, s');
      s, trace := s', trace + [s'];
    }

    // ----- the store -----

    /** Take one more reference to a stored block. */
    method Hit(key: Key) returns (r: Result<Ref, Error>)
      requires Ready() && key in ddt.m
      modifies this`s, this`trace, ddt
      ensures Valid() && Unflipped(old(trace), trace)
      ensures r.Ok? <==> old(s).meta.ddt[key].refs + 1 < U32
      ensures r.Ok? ==> Ready() && NextHit(old(s), s, key) && r.value == RefFrom(key, s.meta.ddt[key])
      ensures r.Err? ==> r.error == Ended && s == old(s).(phase := Dead)
    {
      hide Inv, Accounted, IsRun, GoodRun, NextBegin, NextPut, NextPutFail, NextFinish, NextDrop, NextTouch,
        NextCommitBegin, NextMetaPut, NextMetaSync, NextUberPut, NextCommitEnd, NextMetaFail, NextUberFail,
        NextSyncFail, NextCrash;
      var e := ddt.m[key];
      if e.refs + 1 >= U32 {
        Advance(s.(phase := Dead), Stop);
        return Err(Ended);
      }
      var present := ddt.Incr(key);
      Advance(s.(meta := s.meta.(ddt := ddt.m)), Step.Hit(key));
      return Ok(RefFrom(key, e));
    }

    /** Write cluster `i` of a packed block; on a device error free all its clusters again. */
    method WriteCluster(text: Bytes, packed: Packed, start: nat, i: nat) returns (ok: bool)
      requires Valid() && s.phase == Storing(text, packed, start, i) && i < Clusters(|packed.payload|)
      modifies this`s, this`trace, dev, bm`used, bm.bits
      ensures Valid() && Unflipped(old(trace), trace) && (dev.reliable ==> ok)
      ensures ok ==> s == old(s).(disk := s.disk, phase := Storing(text, packed, start, i + 1))
      ensures !ok ==> s == old(s).(disk := s.disk, meta := old(s).meta.(bm := s.meta.bm), phase := Idle)
                      && Alloc.Cleared(old(s).meta.bm, s.meta.bm, start, Clusters(|packed.payload|))
    {
      hide Inv, Accounted, IsRun, GoodRun, Cluster, Clusters, Padded, Alloc.CountUsed, Alloc.Cleared, NextHit,
        NextBegin, NextFinish, NextDrop, NextTouch, NextCommitBegin, NextMetaPut, NextMetaSync, NextUberPut,
        NextCommitEnd, NextMetaFail, NextUberFail, NextSyncFail, NextStop, NextCrash;
      var count := Clusters(|packed.payload|);
      var buf := Padded(packed.payload);
      StoringInside(codec, s);
      SliceInside(buf, count, i);
      ClusterIs(codec, start, packed.payload, i);
      ghost var landed;
      ok, landed := dev.WriteBlock(start + i, codec.encrypt(start + i, Slice(buf, i)));
      if ok {
        Advance(s.(disk := dev.Disk(), phase := Storing(text, packed, start, i + 1)), Put);
      } else {
        bm.Free(start, count);
        Advance(s.(disk := dev.Disk(), meta := s.meta.(bm := bm.Image()), phase := Idle),
          PutFail(landed.value, bm.Image()));
      }
    }

    /** Write all clusters of a packed block. */
    method WriteClusters(text: Bytes, packed: Packed, start: nat) returns (ok: bool)
      requires Valid() && s.phase == Storing(text, packed, start, 0)
      modifies this`s, this`trace, dev, bm`used, bm.bits
      ensures Valid() && Unflipped(old(trace), trace) && (dev.reliable ==> ok)
      ensures ok ==> s == old(s).(disk := s.disk, phase := Storing(text, packed, start, Clusters(|packed.payload|)))
      ensures !ok ==> s == old(s).(disk := s.disk, meta := old(s).meta.(bm := s.meta.bm), phase := Idle)
                      && Alloc.Cleared(old(s).meta.bm, s.meta.bm, start, Clusters(|packed.payload|))
    {
      hide Inv, Accounted, IsRun, GoodRun, Clusters, Alloc.CountUsed, Alloc.Cleared;
      var i := 0;
      while i < Clusters(|packed.payload|)
        invariant 0 <= i <= Clusters(|packed.payload|) && Valid() && Unflipped(old(trace), trace)
        invariant s == old(s).(disk := s.disk, phase := Storing(text, packed, start, i))
      {
        ghost var run := trace;
        ok := WriteCluster(text, packed, start, i);
        UnflippedTwice(old(trace), run, trace);
        if !ok {
          return false;
        }
        i := i + 1;
      }
      return true;
    }

    /** Fill freshly allocated clusters and add the entry, or give the clusters back. */
    method Place(text: Bytes, packed: Packed, start: nat) returns (r: Result<Ref, Error>)
      requires Valid() && s.phase == Storing(text, packed, start, 0) && codec.hash(text) !in ddt.m
      modifies this`s, this`trace, dev, bm`used, bm.bits, ddt
      ensures Ready() && Unflipped(old(trace), trace) && s.base == old(s).base && s.deferred == old(s).deferred
      ensures r.Ok? ==>
                Stored(codec, old(s), s, text) && r.value == RefFrom(codec.hash(text), s.meta.ddt[codec.hash(text)])
      ensures r.Ok? ==> s.meta.bm == old(s).meta.bm
      ensures r.Ok? ==>
                s.meta.ddt[codec.hash(text)] ==
                Dedup.Entry(start, Clusters(|packed.payload|), |packed.payload|, |text|, packed.raw, 1)
      ensures r.Err? ==> r.error == Block && !dev.reliable && SameView(old(s), s)
                         && Alloc.Cleared(old(s).meta.bm, s.meta.bm, start, Clusters(|packed.payload|))
    {
      hide Inv, Accounted, IsRun, GoodRun, Clusters, Alloc.CountUsed, Alloc.Cleared, NextHit, NextBegin, NextPut,
        NextPutFail, NextDrop, NextTouch, NextCommitBegin, NextMetaPut, NextMetaSync, NextUberPut, NextCommitEnd,
        NextMetaFail, NextUberFail, NextSyncFail, NextStop, NextCrash;
      var ok := WriteClusters(text, packed, start);
      if !ok {
        return Err(Block);
      }
      var key := codec.hash(text);
      var e := Dedup.Entry(start, Clusters(|packed.payload|), |packed.payload|, |text|, packed.raw, 0);
      ddt.Add(key, e);
      KeysAgree(codec, s);
      Advance(s.(meta := s.meta.(ddt := ddt.m), plain := s.plain[key := text], phase := Idle), Finish);
      return Ok(RefFrom(key, e));
    }

    /** Store a logical block that is not present yet: pack it, take the first run that fits, write it. */
    method Miss(text: Bytes) returns (r: Result<Ref, Error>)
      requires Ready() && codec.hash(text) !in ddt.m && |text| < U32
      modifies this`s, this`trace, dev, bm`used, bm.bits, ddt
      ensures Ready() && Unflipped(old(trace), trace) && s.base == old(s).base && s.deferred == old(s).deferred
      ensures r.Ok? ==>
                Stored(codec, old(s), s, text) && r.value == RefFrom(codec.hash(text), s.meta.ddt[codec.hash(text)])
      ensures r.Err? ==> SameView(old(s), s) && SameBits(old(s).meta.bm, s.meta.bm)
      ensures r.Err? ==> r.error == NoSpace || r.error == Compress || (r.error == Block && !dev.reliable)
      ensures r == Err(NoSpace) <==> NoRoom(codec, old(s), text)
      ensures r == Err(Compress) <==> codec.compress(text).None?
      ensures r.Ok? ==> Takes(codec, old(s).meta.bm, s.meta.bm, text)
      ensures r.Ok? ==> EntryFor(codec, text, s.meta.ddt[codec.hash(text)])
    {
      hide Inv, Accounted, IsRun, GoodRun, Clusters, Alloc.CountUsed, Alloc.Used, Alloc.Cleared, Alloc.Marked, Pack,
        NextHit, NextPut, NextPutFail, NextFinish, NextDrop, NextTouch, NextCommitBegin, NextMetaPut, NextMetaSync,
        NextUberPut, NextCommitEnd, NextMetaFail, NextUberFail, NextSyncFail, NextStop, NextCrash;
      var packed := Pack(codec, text);
      PackShortest(codec, text);
      if packed.None? {
        return Err(Compress);
      }
      ghost var w := bm.Image();
      var count := Clusters(|packed.value.payload|);
      ClustersLeast(|packed.value.payload|);
      var a := bm.Alloc(count);
      if a.Err? {
        assert a == Err(Alloc.NoSpace);
        assert forall start :: 0 <= start < w.total ==> !Alloc.FreeRun(w, start, count);
        return Err(NoSpace);
      }
      PackedFits(codec, text);
      ghost var marked := bm.Image();
      Advance(s.(meta := s.meta.(bm := bm.Image()), phase := Storing(text, packed.value, a.value, 0)),
              Begin(text, packed.value, a.value, bm.Image()));
      r := Place(text, packed.value, a.value);
      if r.Err? {
        MarkThenClear(w, marked, s.meta.bm, a.value, count);
      }
    }

    /** Store a logical block and return a ref to it; identical content is stored once. */
    method Write(text: Bytes) returns (r: Result<Ref, Error>)
      requires Ready() && |text| < U32
      modifies this`s, this`trace, dev, bm`used, bm.bits, ddt
      ensures Valid() && Unflipped(old(trace), trace) && s.base == old(s).base && s.deferred == old(s).deferred
      ensures r.Ok? ==>
                Ready() && Stored(codec, old(s), s, text)
                && r.value == RefFrom(codec.hash(text), s.meta.ddt[codec.hash(text)])
      ensures r.Err? ==> SameView(old(s), s)
      ensures r.Err? && r.error != Ended ==> Ready() && SameBits(old(s).meta.bm, s.meta.bm)
      ensures r == Err(NoSpace) <==> codec.hash(text) !in old(s).meta.ddt && NoRoom(codec, old(s), text)
      ensures r == Err(Compress) <==> codec.hash(text) !in old(s).meta.ddt && codec.compress(text).None?
      ensures r == Err(Ended) <==> Dedup.RefsOf(old(s).meta.ddt, codec.hash(text)) + 1 >= U32
      ensures r.Err? ==> r.error in {NoSpace, Compress, Ended} || (r.error == Block && !dev.reliable)
      ensures r.Ok? && codec.hash(text) !in old(s).meta.ddt ==>
                Takes(codec, old(s).meta.bm, s.meta.bm, text) && EntryFor(codec, text, s.meta.ddt[codec.hash(text)])
      ensures r == Err(Ended) ==> s.phase.Dead?
    {
      hide Inv, Accounted, IsRun, GoodRun, NoRoom, SameBits, Takes, EntryFor;
      var key := codec.hash(text);
      KeysAgree(codec, s);
      if key in ddt.m {
        r := Hit(key);
      } else {
        r := Miss(text);
      }
    }

    /** Reconstruct the text of a ref and check it against its content hash. */
    method Read(ref: Ref) returns (r: Result<Bytes, Error>)
      requires Valid()
      ensures r.Ok? || r.error != Block || dev.reliable ==> r == ReadRef(codec, dev.cur, ref)
      ensures r.Ok? ==> codec.hash(r.value) == ref.hash && |r.value| == ref.logical
    {
      hide Inv, Accounted, IsRun, GoodRun, Gathered;
      ReadMatches(codec, dev.cur, ref);
      var buf := Gather(ref.start, ref.count);
      if buf.None? {
        return Err(Block);
      }
      return Unpack(codec, buf.value, ref);
    }

    /** Read and decrypt a run of clusters. */
    method Gather(start: nat, count: nat) returns (r: Option<Bytes>)
      ensures r.Some? ==> start + count <= |dev.cur| && r.value == Gathered(codec, dev.cur, start, count)
      ensures dev.reliable && start + count <= |dev.cur| ==> r.Some?
    {
      var buf: Bytes := [];
      var i := 0;
      while i < count
        invariant 0 <= i <= count && (i > 0 ==> start + i <= |dev.cur|)
        invariant start + i <= |dev.cur| ==> buf == Gathered(codec, dev.cur, start, i)
      {
        var sector := dev.ReadBlock(start + i);
        if sector.None? {
          return None;
        }
        buf := buf + codec.decrypt(start + i, sector.value);
        i := i + 1;
      }
      if start + count > |dev.cur| {
        return None;
      }
      return Some(buf);
    }

    /** A ref handed out by `Write` reads back its text for as long as a reference is held. */
    method ReadLive(ref: Ref) returns (r: Result<Bytes, Error>)
      requires Valid() && ref.hash in s.meta.ddt && ref == RefFrom(ref.hash, s.meta.ddt[ref.hash])
      ensures r.Err? ==> r.error == Block && !dev.reliable
      ensures r.Ok? ==> ref.hash in s.plain && r.value == s.plain[ref.hash]
    {
      hide Inv, Accounted, IsRun, GoodRun, ReadRef;
      r := Read(ref);
      LiveReads(codec, s, ref.hash);
    }

    /** Drop one reference; the last one defers the release of the clusters to the next commit. */
    method Release(ref: Ref)
      requires Ready()
      modifies this`s, this`trace, bm`deferred, ddt
      ensures Ready() && Unflipped(old(trace), trace)
      ensures if ref.hash in old(s).meta.ddt then NextDrop(old(s), s, ref.hash) else s == old(s)
    {
      hide Inv, Accounted, IsRun, GoodRun, Alloc.CountUsed, NextHit, NextBegin, NextPut, NextPutFail, NextFinish,
        NextTouch, NextCommitBegin, NextMetaPut, NextMetaSync, NextUberPut, NextCommitEnd, NextMetaFail, NextUberFail,
        NextSyncFail, NextStop, NextCrash;
      var k := ref.hash;
      if k in ddt.m {
        LiveRefs(codec, s, k);
      }
      ghost var held := k in ddt.m;
      var freed := ddt.Decr(k);
      if freed.Some? {
        bm.Defer(freed.value.start, freed.value.count);
        Advance(s.(meta := s.meta.(ddt := ddt.m), plain := s.plain - {k}, deferred := bm.deferred), Drop(k));
      } else if held {
        Advance(s.(meta := s.meta.(ddt := ddt.m)), Drop(k));
      }
    }

    /** The run ends here. */
    method End()
      requires Ready()
      modifies this`s, this`trace
      ensures Valid() && Unflipped(old(trace), trace) && s == old(s).(phase := Dead)
    {
      hide Inv, Accounted, IsRun, GoodRun, Alloc.CountUsed, NextHit, NextBegin, NextPut, NextPutFail, NextFinish,
        NextTouch, NextCommitBegin, NextMetaPut, NextMetaSync, NextUberPut, NextCommitEnd, NextMetaFail, NextDrop,
        NextUberFail, NextSyncFail, NextCrash;
      Advance(s.(phase := Dead), Stop);
    }

    // ----- the inode table -----

    method PutInode(id: nat, i: Inodes.Inode) returns (r: Result<(), Inodes.Error>)
      requires Ready() && Inodes.Fits(i)
      modifies this`s, this`trace, tbl
      ensures Ready() && Unflipped(old(trace), trace)
      ensures r.Ok? <==> id < |old(s).meta.tbl.inodes|
      ensures s == if r.Ok? then old(s).(meta := old(s).meta.(tbl := Inodes.PutSlot(old(s).meta.tbl, id, i)))
                else old(s)
    {
      hide Inv, Accounted, IsRun, GoodRun, NextHit, NextBegin, NextPut, NextPutFail, NextFinish, NextDrop,
        NextCommitBegin, NextMetaPut, NextMetaSync, NextUberPut, NextCommitEnd, NextMetaFail, NextUberFail,
        NextSyncFail, NextStop, NextCrash, Inodes.WellFormed, Inodes.Fits;
      r := tbl.Put(id, i);
      if r.Ok? {
        TableIs(codec, s);
        Advance(s.(meta := s.meta.(tbl := tbl.slots)), Touch(tbl.slots, s.ub.nextInode));
      }
    }

    method SetNextInode(n: nat)
      requires Ready() && n < U64
      modifies this`s, this`trace, this`ub
      ensures Ready() && Unflipped(old(trace), trace) && s == old(s).(ub := old(s).ub.(nextInode := n))
    {
      hide Inv, Accounted, IsRun, GoodRun, NextHit, NextBegin, NextPut, NextPutFail, NextFinish, NextDrop,
        NextCommitBegin, NextMetaPut, NextMetaSync, NextUberPut, NextCommitEnd, NextMetaFail, NextUberFail,
        NextSyncFail, NextStop, NextCrash, Inodes.WellFormed;
      TableIs(codec, s);
      ub := ub.(nextInode := n);
      Advance(s.(ub := ub), Touch(tbl.slots, n));
    }

    // ----- the commit -----

    /** Write block `i` of the serialized snapshot. */
    method WriteSnapshotBlock(next: Uber.Uberblock, buf: array<byte>, i: nat) returns (ok: bool)
      requires Valid() && ub.metaBlocks * BLK <= buf.Length && i < ub.metaBlocks
      requires s.phase == Snapping(next, buf[..ub.metaBlocks * BLK], i)
      modifies this`s, this`trace, dev
      ensures Valid() && Unflipped(old(trace), trace) && (dev.reliable ==> ok)
      ensures s == old(s).(disk := s.disk, phase := if ok then Snapping(next, buf[..ub.metaBlocks * BLK], i + 1)
                else Dead)
    {
      hide Inv, Accounted, IsRun, GoodRun, Slice, Alloc.CountUsed, NextHit, NextBegin, NextPut, NextPutFail, NextFinish,
        NextDrop, NextTouch, NextCommitBegin, NextMetaSync, NextUberPut, NextCommitEnd, NextUberFail, NextSyncFail,
        NextStop, NextCrash;
      SnappingInside(codec, s, i);
      BlockOf(buf[..], ub.metaBlocks, i);
      ghost var landed;
      ok, landed := dev.WriteBlock(next.MetaStart() + i, buf[i * BLK..(i + 1) * BLK]);
      if ok {
        Advance(s.(disk := dev.Disk(), phase := Snapping(next, buf[..ub.metaBlocks * BLK], i + 1)), MetaPut);
      } else {
        Advance(s.(disk := dev.Disk(), phase := Dead), MetaFail(landed.value));
      }
    }

    /** Write the serialized snapshot to the inactive metadata slot, block by block, and sync. */
    method WriteSnapshot(next: Uber.Uberblock, buf: array<byte>) returns (ok: bool)
      requires Valid() && ub.metaBlocks * BLK <= buf.Length && s.phase == Snapping(next, buf[..ub.metaBlocks * BLK], 0)
      modifies this`s, this`trace, dev
      ensures Valid() && Unflipped(old(trace), trace) && (dev.reliable ==> ok)
      ensures s == old(s).(disk := s.disk, phase := if ok then Sealed(next) else Dead)
    {
      hide Inv, Accounted, IsRun, GoodRun, Slice, Alloc.CountUsed, NextHit, NextBegin, NextPut, NextPutFail, NextFinish,
        NextDrop, NextTouch, NextCommitBegin, NextMetaPut, NextUberPut, NextCommitEnd, NextMetaFail, NextUberFail,
        NextStop, NextCrash;
      var i := 0;
      while i < ub.metaBlocks
        invariant 0 <= i <= ub.metaBlocks && Valid() && Unflipped(old(trace), trace)
        invariant s == old(s).(disk := s.disk, phase := Snapping(next, buf[..ub.metaBlocks * BLK], i))
      {
        ghost var run := trace;
        ok := WriteSnapshotBlock(next, buf, i);
        UnflippedTwice(old(trace), run, trace);
        if !ok {
          return false;
        }
        i := i + 1;
      }
      ghost var run := trace;
      ok := dev.Sync();
      if ok {
        Advance(s.(disk := dev.Disk(), phase := Sealed(next)), MetaSync);
      } else {
        Advance(s.(phase := Dead), SyncFail);
      }
      UnflippedTwice(old(trace), run, trace);
    }

    /** Write the uberblock to its slot. */
    method WriteSlot(next: Uber.Uberblock) returns (ok: bool)
      requires good(Memory(s))
      requires Valid() && s.phase == Sealed(next)
      modifies this`s, this`trace, dev
      ensures Valid() && Leads(old(trace), trace, Memory(old(s)), next.nextInode) && (dev.reliable ==> ok)
      ensures if ok then s == old(s).(disk := s.disk, phase := Flipped(next))
              else s == old(s).(disk := s.disk, phase := DeadFlip(next)) || s == old(s).(phase := Dead)
    {
      hide Inv, Accounted, IsRun, GoodRun, Uber.Marshal, Uber.Parse, Alloc.CountUsed, NextHit, NextBegin, NextPut,
        NextPutFail, NextFinish, NextDrop, NextTouch, NextCommitBegin, NextMetaPut, NextMetaSync, NextCommitEnd,
        NextMetaFail, NextStop, NextCrash;
      SealedOk(codec, s);
      ghost var landed;
      ok, landed := dev.WriteBlock(next.seqNo % 2, Uber.Marshal(codec.hash, next));
      if ok {
        Advance(s.(disk := dev.Disk(), phase := Flipped(next)), UberPut);
      } else if landed.Some? {
        Advance(s.(disk := dev.Disk(), phase := DeadFlip(next)), UberFail(landed.value));
      } else {
        Advance(s.(phase := Dead), SyncFail);
      }
      LeadsOne(old(trace), s, Memory(old(s)), next.nextInode);
    }

    /** The atomic flip: write the uberblock, sync, and only then apply the deferred frees. */
    method WriteUber(next: Uber.Uberblock) returns (ok: bool)
      requires good(Memory(s))
      requires Valid() && s.phase == Sealed(next)
      modifies this`s, this`trace, this`ub, dev, bm, bm.bits
      ensures Valid() && Leads(old(trace), trace, Memory(old(s)), next.nextInode) && (dev.reliable ==> ok)
      ensures ok ==> s.phase.Idle? && s.ub == next && s.base == Snap(next, old(s).meta, old(s).plain)
                     && s.deferred == [] && s.meta == old(s).meta.(bm := s.meta.bm)
                     && Alloc.Applied(old(s).meta.bm, s.meta.bm, old(s).deferred) && s.plain == old(s).plain
      ensures !ok ==> s == old(s).(disk := s.disk, phase := DeadFlip(next)) || s == old(s).(phase := Dead)
    {
      hide Inv, Accounted, IsRun, GoodRun, Alloc.CountUsed, Alloc.Applied, Uber.Fits, NextHit, NextBegin, NextPut,
        NextPutFail, NextFinish, NextDrop, NextTouch, NextCommitBegin, NextMetaPut, NextMetaSync, NextUberPut,
        NextMetaFail, NextUberFail, NextStop, NextCrash, Leads, Candidate, Unflipped;
      ok := WriteSlot(next);
      if !ok {
        return false;
      }
      ghost var run := trace;
      ok := dev.Sync();
      if !ok {
        Advance(s.(phase := DeadFlip(next)), SyncFail);
        LeadsOne(run, s, Memory(old(s)), next.nextInode);
        LeadsTwice(old(trace), run, trace, Memory(old(s)), next.nextInode);
        return false;
      }
      bm.ApplyDeferred();
      ub := next;
      Advance(s.(disk := dev.Disk(), meta := s.meta.(bm := bm.Image()), deferred := [], ub := next,
                 base := Snap(next, s.meta, s.plain), phase := Idle), CommitEnd(bm.Image()));
      LeadsOne(run, s, Memory(old(s)), next.nextInode);
      LeadsTwice(old(trace), run, trace, Memory(old(s)), next.nextInode);
    }

    /** Serialize the metadata and start writing it. */
    method BeginCommit() returns (next: Uber.Uberblock, buf: array<byte>)
      requires Ready() && Snapshot.SavedLen(s.meta) <= ub.metaBlocks * BLK && ub.seqNo + 1 < U64
      modifies this`s, this`trace, scratch
      ensures Valid() && Unflipped(old(trace), trace) && ub == old(ub)
      ensures ub.metaBlocks * BLK <= buf.Length
      ensures s == old(s).(phase := Snapping(next, buf[..ub.metaBlocks * BLK], 0))
      ensures ub.activeMeta <= 1 && next == NextUber(old(s))
    {
      hide Inv, Accounted, IsRun, GoodRun, Alloc.CountUsed, Snapshot.Carries, Dedup.Enumerates, Snapshot.MetaOk,
        NextHit, NextBegin, NextPut, NextPutFail, NextFinish, NextDrop, NextTouch, NextMetaPut, NextMetaSync,
        NextUberPut, NextCommitEnd, NextMetaFail, NextUberFail, NextSyncFail, NextStop, NextCrash;
      var need := ub.metaBlocks * BLK;
      MetaIsOk(codec, s);
      buf := scratch;
      if scratch.Length < need {
        buf := new byte[need](_ => 0);
      }
      ghost var order := Snapshot.Serialize(bm, ddt, tbl, buf);
      next := ub.(seqNo := ub.seqNo + 1, activeMeta := 1 - ub.activeMeta, bitmapLen := 8 + 8 * bm.bits.Length,
                  ddtLen := 8 + Dedup.REC * |ddt.m|, inodeLen := Inodes.SIZE * tbl.slots.count);
      CarriesPrefix(buf[..], need, s.meta, order);
      Advance(s.(phase := Snapping(next, buf[..need], 0)), CommitBegin(order, buf[..need]));
    }

    method Commit() returns (r: Result<(), CommitError>)
      requires good(Memory(s))
      requires Ready()
      modifies this`s, this`trace, this`ub, dev, bm, bm.bits, scratch
      ensures Valid() && Leads(old(trace), trace, Memory(old(s)), old(s).ub.nextInode) && SameView(old(s), s)
      ensures r.Ok? ==> Ready() && Committed(old(s), s)
      ensures r == Err(MetaTooBig) ==> s == old(s)
      ensures r == Err(MetaTooBig) <==>
                old(ub).seqNo + 1 < U64 && Snapshot.SavedLen(old(s).meta) > old(ub).metaBlocks * BLK
      ensures r == Err(CommitEnded) ==> (s.phase.Dead? || s.phase.DeadFlip?) && s.base == old(s).base
      ensures dev.reliable ==> (r == Err(CommitEnded) <==> old(ub).seqNo + 1 >= U64)
      ensures r.Err? ==> s.ub == old(s).ub && s.meta == old(s).meta
    {
      hide Inv, Accounted, IsRun, GoodRun, Alloc.CountUsed, Alloc.Applied, Uber.Fits, NextHit, NextBegin, NextPut,
        NextPutFail, NextFinish, NextDrop, NextTouch, NextCommitBegin, NextMetaPut, NextMetaSync, NextUberPut,
        NextCommitEnd, NextMetaFail, NextUberFail, NextSyncFail, NextCrash;
      UnflippedLeads(trace, trace, Memory(s), s.ub.nextInode);
      if ub.seqNo + 1 >= U64 {
        Advance(s.(phase := Dead), Stop);
        UnflippedLeads(old(trace), trace, Memory(old(s)), old(s).ub.nextInode);
        return Err(CommitEnded);
      }
      if 8 + 8 * bm.bits.Length + 8 + Dedup.REC * |ddt.m| + Inodes.SIZE * tbl.slots.count > ub.metaBlocks * BLK {
        return Err(MetaTooBig);
      }
      var next, buf := BeginCommit();
      ghost var begun := trace;
      var ok := WriteSnapshot(next, buf);
      UnflippedTwice(old(trace), begun, trace);
      ghost var run := trace;
      UnflippedLeads(old(trace), run, Memory(old(s)), old(s).ub.nextInode);
      if ok {
        ok := WriteUber(next);
        LeadsTwice(old(trace), run, trace, Memory(old(s)), old(s).ub.nextInode);
      }
      return if ok then Ok(()) else Err(CommitEnded);
    }

    /** Store a block; when no run fits but frees are pending, commit to release them and try once more. */
    method WriteOrReclaim(text: Bytes) returns (r: Result<Ref, Error>)
      requires good(Memory(s))
      requires Ready() && |text| < U32
      modifies this`s, this`trace, this`ub, dev, bm, bm.bits, ddt, scratch
      ensures Valid() && old(trace) <= trace && BaseFrom(old(s), s)
      ensures r.Ok? ==>
                Ready() && Stored(codec, old(s), s, text)
                && r.value == RefFrom(codec.hash(text), s.meta.ddt[codec.hash(text)])
      ensures r.Err? ==> SameView(old(s), s) && (r.error != Ended ==> Ready())
      ensures r == Err(NoSpace) ==> s.deferred == [] && NoRoom(codec, s, text)
      ensures r == Err(Ended) ==> s.phase.Dead? || s.phase.DeadFlip?
      ensures r.Err? ==> Cause(codec, dev.reliable, s, r.error, |text|)
      ensures !Reclaims(codec, old(s), text) ==>
                s.base == old(s).base && s.deferred == old(s).deferred && Unflipped(old(trace), trace)
      ensures !Reclaims(codec, old(s), text) && r.Ok? && codec.hash(text) !in old(s).meta.ddt ==>
                Takes(codec, old(s).meta.bm, s.meta.bm, text)
      ensures Reclaims(codec, old(s), text) && r.Ok? ==>
                s.base == Snap(s.base.ub, old(s).meta.(bm := s.base.meta.bm), old(s).plain) && s.base != old(s).base
    {
      hide Inv, Accounted, IsRun, GoodRun, NoRoom, SameBits, Alloc.CountUsed, Counts, Unmoved, Takes, Cause, EntryFor;
      r := Write(text);
      WriteCause(codec, dev.reliable, s, text, r);
      if r != Err(NoSpace) {
        return r;
      }
      if |bm.deferred| == 0 {
        StillNoRoom(codec, old(s), s, text);
        NoRoomCause(codec, dev.reliable, s, text);
        return r;
      }
      StampIs(codec, s);
      r := ReclaimThenWrite(text);
    }

    method ReclaimThenWrite(text: Bytes) returns (r: Result<Ref, Error>)
      requires good(Memory(s))
      requires Ready() && |text| < U32
      modifies this`s, this`trace, this`ub, dev, bm, bm.bits, ddt, scratch
      ensures Valid() && old(trace) <= trace && BaseFrom(old(s), s)
      ensures r.Ok? ==>
                Ready() && Stored(codec, old(s), s, text)
                && r.value == RefFrom(codec.hash(text), s.meta.ddt[codec.hash(text)])
      ensures r.Err? ==> SameView(old(s), s) && (r.error != Ended ==> Ready())
      ensures r == Err(NoSpace) ==> s.deferred == [] && NoRoom(codec, s, text)
      ensures r == Err(Ended) ==> s.phase.Dead? || s.phase.DeadFlip?
      ensures r.Err? ==> Cause(codec, dev.reliable, s, r.error, |text|)
      ensures r.Ok? ==>
                s.base.meta == old(s).meta && s.base.plain == old(s).plain && s.base.ub.seqNo == old(s).ub.seqNo + 1
    {
      hide Inv, Accounted, IsRun, GoodRun, NoRoom, SameBits, Alloc.CountUsed, Alloc.Applied, Counts, Unmoved, Takes,
        EntryFor;
      var c := Commit();
      if c.Err? {
        return Err(if c.error.MetaTooBig? then MetaFull else Ended);
      }
      ghost var s1 := s;
      r := Write(text);
      WriteCause(codec, dev.reliable, s, text, r);
      if r == Err(NoSpace) {
        StillNoRoom(codec, s1, s, text);
        NoRoomCause(codec, dev.reliable, s, text);
      }
    }
  }

  lemma StampIs(c: Codec, s: State)
    requires Inv(c, s)
    ensures s.ub.seqNo == s.base.ub.seqNo
  {
    hide Volatile, Deferral, PhaseOk, Persisted, Beaten, Spared, SnapOk, DiskOk;
  }

  lemma StillNoRoom(c: Codec, s: State, s': State, text: Bytes)
    requires NoRoom(c, s, text) && SameBits(s.meta.bm, s'.meta.bm)
    ensures NoRoom(c, s', text)
  {
    hide Alloc.Used, Clusters;
    var n := Clusters(PackedLen(c, text));
    forall start | 0 <= start < s'.meta.bm.total ensures !Alloc.FreeRun(s'.meta.bm, start, n) {
      assert !Alloc.FreeRun(s.meta.bm, start, n);
    }
  }

  datatype CommitError = MetaTooBig | CommitEnded

  /** Memory is unchanged but for the applied frees, and the last commit is what memory held. */
  ghost predicate Committed(s: State, s': State) {
    && SameView(s, s') && s'.base == Snap(s'.ub, s.meta, s.plain) && s'.ub.seqNo == s.ub.seqNo + 1
    && s'.deferred == [] && Alloc.Applied(s.meta.bm, s'.meta.bm, s.deferred)
  }

  lemma MetaIsOk(c: Codec, s: State)
    requires Inv(c, s)
    ensures Snapshot.MetaOk(s.meta) && s.ub.activeMeta <= 1
  {
    hide Durable, Deferral, PhaseOk, Readable, Pinned, OneOwner, EntryOk, Snapshot.MetaOk;
  }

  lemma CarriesPrefix(buf: Bytes, need: nat, m: Snapshot.Meta, order: seq<Key>)
    requires Snapshot.MetaOk(m) && Dedup.Enumerates(order, m.ddt) && Snapshot.SavedLen(m) <= need <= |buf|
    requires Snapshot.Carries(buf, m, order)
    ensures Snapshot.Carries(buf[..need], m, order)
  {
    hide Alloc.Marshal, Dedup.Marshal, Inodes.Marshal;
    Alloc.MarshalLen(m.bm);
    Dedup.MarshalLen(m.ddt, order);
    Inodes.MarshalLen(m.tbl);
  }

  lemma SnappingInside(c: Codec, s: State, i: nat)
    requires Inv(c, s) && s.phase.Snapping? && i < s.ub.metaBlocks
    ensures s.phase.next.MetaStart() + i < |s.disk.cur| && (i + 1) * BLK <= |s.phase.buf|
    ensures 2 <= s.phase.next.MetaStart() + i
  {
    hide Persisted, Beaten, SnapOk, Volatile, Deferral, Spared, Snapshot.LoadBuf, Slice, Snapshot.Describes, Uber.Fits;
    BaseGeometry(c, s);
  }

  lemma BaseGeometry(c: Codec, s: State)
    requires Durable(c, s)
    ensures Snapshot.Geometry(s.base.ub)
  {
    hide Persisted, Beaten, Snapshot.MetaOk, Pinned, OneOwner, Spared;
  }

  lemma BlockOf(buf: Bytes, n: nat, i: nat)
    requires i < n && n * BLK <= |buf|
    ensures (i + 1) * BLK <= n * BLK && buf[i * BLK..(i + 1) * BLK] == Slice(buf[..n * BLK], i)
  {}

  lemma SealedOk(c: Codec, s: State)
    requires Inv(c, s) && s.phase.Sealed?
    ensures Uber.Fits(s.phase.next) && |s.disk.cur| >= 2
  {
    hide Persisted, Beaten, Volatile, Deferral, Spared, HasBody, Uber.Parse, Uber.Marshal, Snapshot.MetaOk, Pinned,
      OneOwner;
  }

  lemma LiveReads(c: Codec, s: State, k: Key)
    requires Inv(c, s) && k in s.meta.ddt
    ensures k in s.plain && ReadRef(c, s.disk.cur, RefFrom(k, s.meta.ddt[k])) == Ok(s.plain[k])
  {
    hide Durable, Deferral, PhaseOk, SnapOk, Pinned, ReadRef;
  }

  lemma LiveRefs(c: Codec, s: State, k: Key)
    requires Inv(c, s) && k in s.meta.ddt
    ensures s.meta.ddt[k].refs >= 1
  {
    hide Durable, Deferral, PhaseOk, Readable, Pinned, OneOwner, Snapshot.MetaOk, Snapshot.Geometry, Dedup.Fits;
  }

  lemma TableIs(c: Codec, s: State)
    requires Inv(c, s)
    ensures Inodes.WellFormed(s.meta.tbl) && s.ub.nextInode < U64
  {
    hide Durable, Deferral, PhaseOk, Readable, Pinned, OneOwner, EntryOk, Inodes.WellFormed;
  }

  lemma ClusterIs(c: Codec, start: nat, payload: Bytes, i: nat)
    requires i < Clusters(|payload|) && (i + 1) * BLK <= |Padded(payload)|
    ensures Cluster(c, start, payload, i) == c.encrypt(start + i, Slice(Padded(payload), i))
  {
    hide Clusters, Padded;
  }

  lemma PackedFits(c: Codec, text: Bytes)
    requires |text| < U32 && Pack(c, text).Some?
    ensures |Pack(c, text).value.payload| < U32 && Clusters(|Pack(c, text).value.payload|) < U32
  {}

  lemma StoringInside(c: Codec, s: State)
    requires Inv(c, s) && s.phase.Storing?
    ensures 2 <= s.phase.start && s.phase.start + Clusters(|s.phase.packed.payload|) <= |s.disk.cur|
  {
    hide Volatile, Deferral, Persisted, Beaten, Snapshot.MetaOk, OneOwner, Pinned, Spared, Pack, Stands, Clusters,
      Alloc.Used, Alloc.InRanges, InEntry;
  }

  lemma KeysAgree(c: Codec, s: State)
    requires Inv(c, s)
    ensures s.plain.Keys == s.meta.ddt.Keys
  {
    hide Durable, Deferral, PhaseOk, Readable, Pinned, OneOwner, Snapshot.MetaOk, EntryOk, Snapshot.Geometry;
  }

  lemma MarkThenClear(w0: Alloc.Words, w1: Alloc.Words, w2: Alloc.Words, start: nat, count: nat)
    requires Alloc.FreeRun(w0, start, count) && Alloc.Marked(w0, w1, start, count)
              && Alloc.Cleared(w1, w2, start, count)
    ensures SameBits(w0, w2)
  {
    hide Alloc.Used;
    forall i | 0 <= i < w2.total ensures Alloc.Used(w2, i) == Alloc.Used(w0, i) {
      if Alloc.InRun(i, start, count) { assert !Alloc.Used(w0, i); }
    }
  }

  ghost predicate SameBits(w: Alloc.Words, w': Alloc.Words) {
    w'.total == w.total && forall i :: 0 <= i < w.total ==> Alloc.Used(w', i) == Alloc.Used(w, i)
  }

  /** No run of clusters is long enough for `text`. */
  ghost predicate NoRoom(c: Codec, s: State, text: Bytes) {
    c.compress(text).Some? && NoRun(s.meta.bm, Clusters(PackedLen(c, text)))
  }

  ghost predicate NoRun(w: Alloc.Words, n: nat) {
    forall start :: 0 <= start < w.total ==> !Alloc.FreeRun(w, start, n)
  }

  /** Storing `text` marked one free run of the length it needs. */
  ghost predicate Takes(c: Codec, w: Alloc.Words, w': Alloc.Words, text: Bytes) {
    && c.compress(text).Some?
    && exists start: nat ::
         && Alloc.FreeRun(w, start, Clusters(PackedLen(c, text)))
         && Alloc.Marked(w, w', start, Clusters(PackedLen(c, text)))
  }

  /** The entry of a text stored once: the shorter of its two forms, in as few clusters as hold it. */
  ghost predicate EntryFor(c: Codec, text: Bytes, e: Dedup.Entry) {
    && c.compress(text).Some? && e.refs == 1 && e.logical == |text| && e.payload == PackedLen(c, text)
    && (e.raw <==> |c.compress(text).value| >= |text|)
    && e.count > 0 && (e.count - 1) * BLK < Max(e.payload, 1) <= e.count * BLK
  }

  /**
   Why storing texts of at most `most` bytes can fail in state `s`: the device failed; the compressor did; no run is
   long enough and no frees are pending; the metadata no longer fits; or the run ended, because a commit failed, a count
   or the sequence number is at its limit, or a text is not one the content hash is trusted for.
   */
  ghost predicate Cause(c: Codec, reliable: bool, s: State, e: Error, most: nat) {
    match e
    case Block => !reliable
    case Compress => exists text :: |text| <= most && c.compress(text).None?
    case NoSpace => s.deferred == [] && NoRun(s.meta.bm, Clusters(most))
    case MetaFull => Snapshot.SavedLen(s.meta) > s.ub.metaBlocks * BLK
    case Ended =>
      || !reliable || s.ub.seqNo + 1 >= U64 || (exists k :: Dedup.RefsOf(s.meta.ddt, k) + 1 >= U32)
      || exists text :: |text| <= most && !c.trusted(text)
    case _ => false
  }

  lemma WriteCause(c: Codec, reliable: bool, s: State, text: Bytes, r: Result<Ref, Error>)
    requires r.Err? ==> r.error in {NoSpace, Compress, Ended} || (r.error == Block && !reliable)
    requires r == Err(Compress) ==> c.compress(text).None?
    requires r == Err(Ended) ==> Dedup.RefsOf(s.meta.ddt, c.hash(text)) + 1 >= U32
    ensures r.Err? && r.error != NoSpace ==> Cause(c, reliable, s, r.error, |text|)
  {}

  lemma NoRoomCause(c: Codec, reliable: bool, s: State, text: Bytes)
    requires NoRoom(c, s, text) && s.deferred == []
    ensures Cause(c, reliable, s, NoSpace, |text|)
  {
    hide Clusters, Alloc.Used;
    ClustersGrow(PackedLen(c, text), |text|);
    RunsGrow(s.meta.bm, Clusters(PackedLen(c, text)), Clusters(|text|));
  }

  lemma ClustersGrow(a: nat, b: nat)
    requires a <= b
    ensures Clusters(a) <= Clusters(b)
  {}

  lemma RunsGrow(w: Alloc.Words, a: nat, b: nat)
    requires NoRun(w, a) && a <= b
    ensures NoRun(w, b)
  {
    hide Alloc.Used;
    forall start | 0 <= start < w.total ensures !Alloc.FreeRun(w, start, b) { assert !Alloc.FreeRun(w, start, a); }
  }

  lemma CauseMore(c: Codec, reliable: bool, s: State, e: Error, a: nat, b: nat)
    requires Cause(c, reliable, s, e, a) && a <= b
    ensures Cause(c, reliable, s, e, b)
  {
    hide Clusters, NoRun;
    ClustersGrow(a, b);
    if e == NoSpace { RunsGrow(s.meta.bm, Clusters(a), Clusters(b)); }
  }

  /** Storing `text` takes a commit: it is new, no run is long enough, and frees are pending. */
  ghost predicate Reclaims(c: Codec, s: State, text: Bytes) {
    c.hash(text) !in s.meta.ddt && NoRoom(c, s, text) && s.deferred != []
  }

  // ----- format and mount -----

  datatype FormatError = DeviceTooSmall(need: nat, have: nat) | WriteFailed

  /** The uberblock of a fresh image, before the lengths of its snapshot are known. */
  function FreshUber(total: nat, inodeCount: nat, metaBlocks: nat): Uber.Uberblock {
    Uber.Uberblock(1, BLK, 0, total, 2, 2 + metaBlocks, metaBlocks, inodeCount, 2 + 2 * metaBlocks, 0, 1, 0, 0, 0)
  }

  /** The state a format leads to: nothing stored, everything below the data region reserved. */
  ghost function FreshState(img: Image, u: Uber.Uberblock, m: Snapshot.Meta): State {
    State(Machine.Disk(img, img, map[]), m, [], u, map[], Snap(u, m, map[]), Idle, {})
  }

  ghost predicate Fresh(u: Uber.Uberblock, m: Snapshot.Meta) {
    && Snapshot.Geometry(u) && Snapshot.Describes(u, m) && u.seqNo == 1 && u.activeMeta == 0
    && Snapshot.MetaOk(m) && m.bm.total == u.totalBlocks && m.ddt == map[] && m.tbl == Inodes.EmptyTable(u.inodeCount)
    && forall i :: 0 <= i < u.totalBlocks ==> Alloc.Used(m.bm, i) == (i < u.dataStart)
  }

  /** A formatted image is a state runs may start from, provided slot 0 holds no uberblock of an older image. */
  lemma FormatStarts(c: Codec, img: Image, u: Uber.Uberblock, m: Snapshot.Meta)
    requires CodecOk(c) && Fresh(u, m) && |img| == u.totalBlocks
    requires Snapshot.Load(u, img) == Ok(m) && img[1] == Uber.Marshal(c.hash, u) && Uber.Parse(c.hash, img[0]).Err?
    ensures Start(c, FreshState(img, u, m))
  {
    hide Snapshot.Load, Uber.Marshal, Uber.Parse, ReadRef, Alloc.Used;
    HashIsChecksum(c);
    Uber.UberRoundTrip(c.hash, u);
    var s := FreshState(img, u, m);
    assert forall i :: !Alloc.InRanges(i, s.deferred);
    assert forall i :: !BeingStored(s.phase, i);
    assert forall i :: !Live(s.meta.ddt, i);
  }

  /** Write a buffer block by block from `start`, and sync. */
  method WriteRegion(dev: Device, start: nat, n: nat, buf: array<byte>) returns (ok: bool)
    requires start >= 2 && start + n <= |dev.cur| && buf.Length == n * BLK
    modifies dev
    ensures |dev.cur| == |old(dev.cur)|
    ensures forall j :: 0 <= j < |dev.cur| && !Alloc.InRun(j, start, n) ==> dev.cur[j] == old(dev.cur)[j]
    ensures ok ==> dev.durable == dev.cur && dev.pending == map[] && Snapshot.Region(dev.cur, start, n) == buf[..]
    ensures dev.reliable ==> ok
  {
    hide Slice, Snapshot.Region;
    var i := 0;
    while i < n
      invariant 0 <= i <= n && |dev.cur| == |old(dev.cur)|
      invariant forall j :: 0 <= j < |dev.cur| && !Alloc.InRun(j, start, i) ==> dev.cur[j] == old(dev.cur)[j]
      invariant forall j :: 0 <= j < i ==> (j + 1) * BLK <= buf.Length && dev.cur[start + j] == Slice(buf[..], j)
    {
      BlockOf(buf[..], n, i);
      assert buf[..][..n * BLK] == buf[..];
      var wrote, landed := dev.WriteBlock(start + i, buf[i * BLK..(i + 1) * BLK]);
      if !wrote {
        return false;
      }
      i := i + 1;
    }
    ok := dev.Sync();
    if ok {
      Snapshot.RegionOfSlices(dev.cur, start, n, buf[..]);
    }
  }

  /** The structures of a fresh image. */
  method FreshMeta(u0: Uber.Uberblock) returns (u: Uber.Uberblock, bm: Alloc.Bitmap, ddt: Dedup.Table,
      tbl: Inodes.Table)
    requires Snapshot.Geometry(u0) && u0.seqNo == 1 && u0.activeMeta == 0
    requires Snapshot.FreshLen(u0.totalBlocks) <= u0.metaBlocks * BLK
    ensures bm.Valid() && fresh(bm) && fresh(bm.bits) && fresh(ddt) && fresh(tbl)
    ensures Fresh(u, Snapshot.Meta(bm.Image(), ddt.m, tbl.slots))
    ensures u == u0.(bitmapLen := u.bitmapLen, ddtLen := u.ddtLen, inodeLen := u.inodeLen)
    ensures Snapshot.SavedLen(Snapshot.Meta(bm.Image(), ddt.m, tbl.slots)) <= u.metaBlocks * BLK
  {
    hide Alloc.Used, Alloc.CountUsed;
    bm := new Alloc.Bitmap(u0.totalBlocks);
    bm.Reserve(0, u0.dataStart);
    ddt := new Dedup.Table(map[]);
    tbl := new Inodes.Table(Inodes.EmptyTable(u0.inodeCount));
    u := u0.(bitmapLen := 8 + 8 * bm.bits.Length, ddtLen := 8, inodeLen := 0);
  }

  /** Lay out a fresh image and write its first commit. */
  method Format(codec: Codec, dev: Device, slots: nat, ddtReserve: nat)
      returns (r: Result<Uber.Uberblock, FormatError>, ghost s: State)
    requires CodecOk(codec) && dev.hash == codec.hash && |dev.cur| < U64 && slots < U64
    requires |dev.cur| > 0 ==> Uber.Parse(dev.hash, dev.cur[0]).Err?
    requires Snapshot.SlotBlocks(|dev.cur|, if slots == 0 then 32 else slots, ddtReserve) * BLK < U32
    modifies dev
    ensures var count := if slots == 0 then 32 else slots;
            var n := Snapshot.SlotBlocks(|old(dev.cur)|, count, ddtReserve);
            && (r.Err? && r.error.DeviceTooSmall? <==> |old(dev.cur)| <= 2 + 2 * n)
            && (r == Err(WriteFailed) ==> !dev.reliable)
            && (r.Ok? ==>
                 Start(codec, s) && s.disk == dev.Disk() && s == FreshState(dev.cur, r.value, s.meta)
                 && Fresh(r.value, s.meta)
                          && r.value.metaBlocks == n && r.value.inodeCount == count
                               && r.value.totalBlocks == |old(dev.cur)|
                          && r.value.rootInode == 0 && r.value.nextInode == 1 && r.value.blockSize == BLK)
  {
    hide Uber.Parse, Uber.Marshal, Alloc.CountUsed, Alloc.Used, Start, Fresh, Snapshot.MetaOk, Snapshot.SlotBlocks,
      Snapshot.Describes;
    var total := |dev.cur|;
    var count := if slots == 0 then 32 else slots;
    var n := Snapshot.SlotBlocks(total, count, ddtReserve);
    s := FreshState(dev.cur, FreshUber(total, count, n),
      Snapshot.Meta(Alloc.Words(0, []), map[], Inodes.EmptyTable(0)));
    if total <= 2 + 2 * n {
      return Err(DeviceTooSmall(2 + 2 * n, total)), s;
    }
    Snapshot.FreshFits(total, count, ddtReserve);
    var u, bm, ddt, tbl := FreshMeta(FreshUber(total, count, n));
    ghost var m := Snapshot.Meta(bm.Image(), ddt.m, tbl.slots);
    FreshIs(u, m);
    var buf := new byte[n * BLK](_ => 0);
    ghost var order := Snapshot.Serialize(bm, ddt, tbl, buf);
    Snapshot.SnapshotRoundTrip(u, m, order, buf[..]);
    var ok := WriteRegion(dev, 2, n, buf);
    if !ok {
      return Err(WriteFailed), s;
    }
    ok := WriteFirstUber(dev, u, m);
    if !ok {
      return Err(WriteFailed), s;
    }
    s := FreshState(dev.cur, u, m);
    FormatStarts(codec, dev.cur, u, m);
    return Ok(u), s;
  }

  lemma FreshIs(u: Uber.Uberblock, m: Snapshot.Meta)
    requires Fresh(u, m)
    ensures Snapshot.MetaOk(m) && Snapshot.Describes(u, m) && m.ddt == map[] && Snapshot.Geometry(u) && u.seqNo == 1
              && u.activeMeta == 0
  {
    hide Snapshot.MetaOk, Snapshot.Describes, Snapshot.Geometry, Alloc.Used;
  }

  method WriteFirstUber(dev: Device, u: Uber.Uberblock, ghost m: Snapshot.Meta) returns (ok: bool)
    requires Snapshot.Geometry(u) && u.seqNo == 1 && u.totalBlocks == |dev.cur| && Snapshot.Load(u, dev.cur) == Ok(m)
    modifies dev
    ensures ok ==> |dev.cur| == |old(dev.cur)| && dev.durable == dev.cur && dev.pending == map[]
    ensures dev.reliable ==> ok
    ensures ok ==>
              dev.cur[0] == old(dev.cur)[0] && dev.cur[1] == Uber.Marshal(dev.hash, u)
              && Snapshot.Load(u, dev.cur) == Ok(m)
  {
    hide Uber.Parse, Uber.Marshal, Snapshot.Load;
    ghost var landed;
    ok, landed := dev.WriteBlock(u.seqNo % 2, Uber.Marshal(dev.hash, u));
    if !ok {
      return false;
    }
    Snapshot.LoadFrame(u, old(dev.cur), dev.cur);
    ok := dev.Sync();
  }

  /** Power is lost: whatever survived is now what the device holds. */
  method PowerLoss(dev: Device, ghost c: Codec, img: Image)
    requires CrashImage(c, dev.Disk(), img)
    modifies dev
    ensures dev.Disk() == Machine.Disk(img, img, map[])
  {
    dev.cur, dev.durable, dev.pending := img, img, map[];
  }

  /** Read a run of blocks into one buffer. */
  method ReadRegion(dev: Device, start: nat, n: nat) returns (r: Option<Bytes>)
    ensures r.Some? ==> start + n <= |dev.cur| && r.value == Snapshot.Region(dev.cur, start, n)
    ensures dev.reliable && start + n <= |dev.cur| ==> r.Some?
  {
    var buf: Bytes := [];
    var i := 0;
    while i < n
      invariant 0 <= i <= n && (i > 0 ==> start + i <= |dev.cur|)
      invariant start + i <= |dev.cur| ==> buf == Flat(dev.cur[start..start + i])
    {
      var b := dev.ReadBlock(start + i);
      if b.None? {
        return None;
      }
      buf := buf + b.value;
      i := i + 1;
      assert dev.cur[start..start + i][..i - 1] == dev.cur[start..start + i - 1];
    }
    if start + n > |dev.cur| {
      return None;
    }
    return Some(buf);
  }

  /** Pick the uberblock that wins. */
  method ReadBest(dev: Device) returns (r: Result<Uber.Uberblock, Snapshot.MountError>)
    ensures r.Ok? ==> |dev.cur| >= 2 && Snapshot.Best(dev.hash, dev.cur) == Some(r.value)
    ensures r.Err? ==> r.error == Snapshot.DeviceError || (|dev.cur| >= 2 && Snapshot.Best(dev.hash, dev.cur) == None)
    ensures r == Err(Snapshot.DeviceError) ==> !dev.reliable || |dev.cur| < 2
  {
    hide Uber.Parse;
    var best: Option<Uber.Uberblock> := None;
    var a := dev.ReadBlock(0);
    if a.None? {
      return Err(Snapshot.DeviceError);
    }
    var pa := Uber.Parse(dev.hash, a.value);
    if pa.Ok? {
      best := Some(pa.value);
    }
    var b := dev.ReadBlock(1);
    if b.None? {
      return Err(Snapshot.DeviceError);
    }
    var pb := Uber.Parse(dev.hash, b.value);
    if pb.Ok? && (best.None? || pb.value.seqNo > best.value.seqNo) {
      best := Some(pb.value);
    }
    return if best.None? then Err(Snapshot.NotFormatted) else Ok(best.value);
  }

  /** Load the newest valid snapshot from the device. */
  method LoadSnapshot(dev: Device) returns (r: Result<(Uber.Uberblock, Snapshot.Meta), Snapshot.MountError>)
    ensures r == Snapshot.Mount(dev.hash, dev.cur) || r == Err(Snapshot.DeviceError)
    ensures dev.reliable && Snapshot.Mount(dev.hash, dev.cur).Ok? ==> r == Snapshot.Mount(dev.hash, dev.cur)
    ensures dev.reliable && r == Err(Snapshot.DeviceError) ==>
              |dev.cur| < 2
              || exists u :: Snapshot.Best(dev.hash, dev.cur) == Some(u) && u.MetaStart() + u.metaBlocks > |dev.cur|
  {
    hide Uber.Parse, Snapshot.LoadBuf, Snapshot.Best;
    var u := ReadBest(dev);
    if u.Err? {
      return Err(if u.error.DeviceError? then Snapshot.DeviceError else Snapshot.NotFormatted);
    }
    var buf := ReadRegion(dev, u.value.MetaStart(), u.value.metaBlocks);
    if buf.None? {
      return Err(Snapshot.DeviceError);
    }
    var m := Snapshot.LoadBuf(u.value, buf.value);
    return if m.Err? then Err(m.error) else Ok((u.value, m.value));
  }

  ghost predicate Running(c: Codec, run: seq<State>) {
    |run| > 0 && IsRun(c, run) && Inv(c, run[|run| - 1]) && Accounted(run[|run| - 1])
  }

  /**
   Mount what a crash left. Only a device error can make it fail; otherwise the run goes on from the recovered state.
   */
  method Remount(codec: Codec, dev: Device, ghost good: View -> bool, ghost run: seq<State>)
      returns (r: Result<Volume, Snapshot.MountError>)
    requires Running(codec, run) && GoodRun(good, run) && dev.hash == codec.hash
    requires dev.Disk() == Machine.Disk(dev.cur, dev.cur, map[]) && CrashImage(codec, run[|run| - 1].disk, dev.cur)
    ensures r.Err? ==> r.error == Snapshot.DeviceError && !dev.reliable
    ensures r.Ok? ==> r.value.Ready() && r.value.codec == codec && r.value.dev == dev && r.value.good == good
    ensures r.Ok? ==>
              fresh(r.value) && fresh(r.value.bm) && fresh(r.value.bm.bits) && fresh(r.value.ddt) && fresh(r.value.tbl)
              && fresh(r.value.scratch)
    ensures r.Ok? ==> r.value.trace == run + [r.value.s]
    ensures r.Ok? ==> NextCrash(codec, run[|run| - 1], r.value.s, dev.cur)
  {
    hide Inv, Accounted, IsRun, GoodRun, CrashImage, Snapshot.Mount, ReadAll, Alloc.CountUsed;
    var m := LoadSnapshot(dev);
    if m.Err? {
      MountSucceeds(codec, run[|run| - 1], dev.cur);
      return Err(Snapshot.DeviceError);
    }
    var (u, meta) := m.value;
    ghost var plain := ReadAll(codec, dev.cur, meta.ddt);
    ghost var s := State(dev.Disk(), meta, [], u, plain, Snap(u, meta, plain), Idle, Unowned(meta, u));
    MountSucceeds(codec, run[|run| - 1], dev.cur);
    MountStep(codec, run[|run| - 1], s, dev.cur);
    var bm := new Alloc.Bitmap.Load(meta.bm);
    var ddt := new Dedup.Table(meta.ddt);
    var tbl := new Inodes.Table(meta.tbl);
    var scratch := new byte[u.metaBlocks * BLK];
    RunExtends(codec, run, s, Crash(dev.cur));
    GoodExtends(codec, good, run, s, dev.cur);
    var v := new Volume.Attach(codec, dev, bm, ddt, tbl, scratch, u, good, s, run + [s]);
    return Ok(v);
  }

  lemma GoodExtends(c: Codec, good: View -> bool, run: seq<State>, s: State, img: Image)
    requires Running(c, run) && GoodRun(good, run) && NextCrash(c, run[|run| - 1], s, img)
    ensures GoodRun(good, run + [s])
  {
    hide Inv, Accounted, IsRun, CrashImage, Snapshot.Mount, ReadAll;
    CrashGood(c, good, run[|run| - 1], s, img);
  }

  lemma MountSucceeds(c: Codec, s: State, img: Image)
    requires Inv(c, s) && CrashImage(c, s.disk, img)
    ensures Snapshot.Mount(c.hash, img).Ok?
  {
    hide Inv, CrashImage, Snapshot.Mount, Persisted, Beaten, SnapOk;
    var sn := CrashRecovers(c, s, img);
  }

  lemma MountStep(c: Codec, s: State, s': State, img: Image)
    requires Inv(c, s) && NextCrash(c, s, s', img)
    ensures Inv(c, s') && Accounted(s') && Alloc.Shaped(s'.meta.bm)
  {
    hide Inv, Accounted, CrashImage, Snapshot.Mount, ReadAll, Snapshot.MetaOk;
    CrashKeeps(c, s, s', img);
    CrashAccounts(c, s, s', img);
    MetaIsOk(c, s');
    ShapedIs(s'.meta);
  }

  lemma ShapedIs(m: Snapshot.Meta)
    requires Snapshot.MetaOk(m)
    ensures Alloc.Shaped(m.bm)
  {}

  lemma RunExtends(c: Codec, run: seq<State>, s: State, step: Step)
    requires IsRun(c, run) && Next(c, run[|run| - 1], s, step)
    ensures IsRun(c, run + [s])
  {
    hide Next;
    assert Steps(c, run[|run| - 1], s);
  }
}
