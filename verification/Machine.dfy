/**
 The durability protocol as a step system: the store writes data in place, a commit writes a snapshot block by
 block and then flips the uberblock, and power may fail between any two steps.
 */
module Machine {
  import opened Bytes
  import opened Uber
  import opened Snapshot
  import opened Store
  import Alloc
  import Dedup
  import Inodes

  // ----- the device -----

  /** Contents on stable storage, contents as read, and every version written since the last sync. */
  datatype Disk = Disk(durable: Image, cur: Image, pending: map<nat, set<Bytes>>)

  ghost predicate DiskOk(d: Disk, total: nat) {
    && |d.durable| == total && |d.cur| == total
    && (forall n :: n in d.pending ==> n < total)
    && (forall n :: 0 <= n < total && n !in d.pending ==> d.cur[n] == d.durable[n])
  }

  ghost function WriteTo(d: Disk, n: nat, data: Bytes): Disk
    requires n < |d.cur|
  {
    Disk(d.durable, d.cur[n := data], d.pending[n := {data} + (if n in d.pending then d.pending[n] else {})])
  }

  ghost function Synced(d: Disk): Disk { Disk(d.cur, d.cur, map[]) }

  /**
   What may be found after a power failure: each block is as it was at the last sync, or holds any version written
   since, or is torn. A torn uberblock slot fails its checksum; a torn block elsewhere holds anything.
   */
  ghost predicate CrashImage(c: Codec, d: Disk, img: Image) {
    && |img| == |d.durable|
    && forall n :: 0 <= n < |img| ==>
         || img[n] == d.durable[n]
         || (n in d.pending && (img[n] in d.pending[n] || n >= 2 || Parse(c.hash, img[n]).Err?))
  }

  // ----- the state -----

  datatype Snap = Snap(ub: Uberblock, meta: Meta, plain: map<Key, Bytes>)

  datatype Phase =
    | Idle
    | Storing(text: Bytes, packed: Packed, start: nat, done: nat)
    | Snapping(next: Uberblock, buf: Bytes, done: nat)
    | Sealed(next: Uberblock)
    | Flipped(next: Uberblock)
    | Dead
    | DeadFlip(next: Uberblock)

  /**
   `meta`, `deferred` and `ub` are the structures in memory; `plain` is the text each dedup entry stands for, `base`
   the last completed commit, and `leaked` the clusters that are set although nothing owns them.
   */
  datatype State = State(
    disk: Disk, meta: Meta, deferred: seq<Alloc.Range>, ub: Uberblock,
    plain: map<Key, Bytes>, base: Snap, phase: Phase, leaked: set<nat>)

  ghost predicate InEntry(m: Dedup.Map, k: Key, i: nat) {
    k in m && m[k].start <= i < m[k].start + m[k].count
  }

  /** The structures a client sees, in memory or in a snapshot. */
  datatype View = View(inodes: seq<Inodes.Inode>, ddt: Dedup.Map, plain: map<Key, Bytes>)

  ghost function Memory(s: State): View { View(s.meta.tbl.inodes, s.meta.ddt, s.plain) }

  ghost function SnapView(sn: Snap): View { View(sn.meta.tbl.inodes, sn.meta.ddt, sn.plain) }

  // ----- what holds of a snapshot -----

  ghost predicate EntryOk(k: Key, e: Dedup.Entry, u: Uberblock) {
    Dedup.Fits(k, e) && e.refs >= 1 && e.count >= 1 && u.dataStart <= e.start && e.start + e.count <= u.totalBlocks
  }

  ghost predicate OneOwner(m: Dedup.Map) {
    forall k, k', i :: InEntry(m, k, i) && InEntry(m, k', i) ==> k == k'
  }

  ghost predicate Pinned(bm: Alloc.Words, m: Dedup.Map) {
    forall k, i :: InEntry(m, k, i) ==> Alloc.Used(bm, i)
  }

  ghost predicate SnapOk(sn: Snap) {
    && Geometry(sn.ub) && MetaOk(sn.meta)
    && sn.meta.bm.total == sn.ub.totalBlocks && |sn.meta.tbl.inodes| == sn.ub.inodeCount
    && sn.plain.Keys == sn.meta.ddt.Keys
    && (forall k :: k in sn.meta.ddt ==> EntryOk(k, sn.meta.ddt[k], sn.ub))
    && OneOwner(sn.meta.ddt) && Pinned(sn.meta.bm, sn.meta.ddt)
    && (forall i :: 0 <= i < sn.ub.dataStart ==> Alloc.Used(sn.meta.bm, i))
  }

  ghost predicate Readable(c: Codec, img: Image, m: Dedup.Map, plain: map<Key, Bytes>) {
    forall k :: k in m ==> k in plain && ReadRef(c, img, RefFrom(k, m[k])) == Ok(plain[k])
  }

  /** The snapshot's metadata can be loaded and every entry of its dedup table reads back. */
  ghost predicate HasBody(c: Codec, img: Image, sn: Snap) {
    Load(sn.ub, img) == Ok(sn.meta) && Readable(c, img, sn.meta.ddt, sn.plain)
  }

  ghost function Slot(u: Uberblock): nat { u.seqNo % 2 }

  ghost predicate Persisted(c: Codec, img: Image, sn: Snap) {
    && |img| == sn.ub.totalBlocks && |img| >= 2
    && Parse(c.hash, img[Slot(sn.ub)]) == Ok(sn.ub)
    && HasBody(c, img, sn)
  }

  /** The other uberblock slot cannot win over `u`. */
  ghost predicate Beaten(c: Codec, img: Image, u: Uberblock)
    requires |img| >= 2
  {
    var p := Parse(c.hash, img[1 - Slot(u)]);
    p.Err? || p.value.seqNo < u.seqNo
  }

  /** Block `n` is none of the blocks the snapshot consists of. */
  ghost predicate Spared(sn: Snap, n: nat) {
    && n != Slot(sn.ub) && !Alloc.InRun(n, sn.ub.MetaStart(), sn.ub.metaBlocks)
    && forall k :: !InEntry(sn.meta.ddt, k, n)
  }

  // ----- the invariant -----

  ghost predicate Durable(c: Codec, s: State) {
    && DiskOk(s.disk, s.ub.totalBlocks)
    && SnapOk(s.base) && Persisted(c, s.disk.durable, s.base) && Beaten(c, s.disk.durable, s.base.ub)
    && (forall n :: n in s.disk.pending ==> Spared(s.base, n))
    && s.ub == s.base.ub.(nextInode := s.ub.nextInode)
  }

  ghost predicate Volatile(c: Codec, s: State) {
    && SnapOk(Snap(s.ub, s.meta, s.plain))
    && Readable(c, s.disk.cur, s.meta.ddt, s.plain)
    && Pinned(s.meta.bm, s.base.meta.ddt)
  }

  /** Deferred ranges are set in the bitmap, own no live entry, and do not overlap. */
  ghost predicate Deferral(s: State) {
    && (forall i :: Alloc.InRanges(i, s.deferred) ==>
          s.ub.dataStart <= i && Alloc.Used(s.meta.bm, i) && forall k :: !InEntry(s.meta.ddt, k, i))
    && (forall a, b, i :: 0 <= a < b < |s.deferred| ==>
          !(Alloc.InRun(i, s.deferred[a].start, s.deferred[a].count)
            && Alloc.InRun(i, s.deferred[b].start, s.deferred[b].count)))
  }

  ghost predicate NoSlotPending(s: State) { 0 !in s.disk.pending && 1 !in s.disk.pending }

  ghost predicate NextOk(s: State, next: Uberblock) {
    && s.ub.activeMeta <= 1
    && next == s.ub.(seqNo := s.ub.seqNo + 1, activeMeta := 1 - s.ub.activeMeta,
                     bitmapLen := next.bitmapLen, ddtLen := next.ddtLen, inodeLen := next.inodeLen)
    && Fits(next) && Describes(next, s.meta)
  }

  /** The run of clusters belongs to nothing else. */
  ghost predicate Exclusive(s: State, start: nat, count: nat) {
    && s.ub.dataStart <= start && start + count <= s.ub.totalBlocks
    && forall i :: start <= i < start + count ==>
         && Alloc.Used(s.meta.bm, i) && !Alloc.InRanges(i, s.deferred)
         && (forall k :: !InEntry(s.meta.ddt, k, i)) && (forall k :: !InEntry(s.base.meta.ddt, k, i))
  }

  ghost predicate StoringOk(c: Codec, s: State, text: Bytes, packed: Packed, start: nat, done: nat) {
    && Pack(c, text) == Some(packed) && c.hash(text) !in s.meta.ddt
    && |text| < U32 && |packed.payload| < U32 && Clusters(|packed.payload|) < U32
    && Exclusive(s, start, Clusters(|packed.payload|))
    && Stands(c, s.disk.cur, start, packed.payload, done)
  }

  ghost predicate SnappingOk(s: State, next: Uberblock, buf: Bytes, done: nat) {
    && NextOk(s, next) && |buf| == s.ub.metaBlocks * BLK && done <= s.ub.metaBlocks
    && LoadBuf(next, buf) == Ok(s.meta)
    && next.MetaStart() + s.ub.metaBlocks <= |s.disk.cur|
    && forall i :: 0 <= i < done ==> (i + 1) * BLK <= |buf| && s.disk.cur[next.MetaStart() + i] == Slice(buf, i)
  }

  /** The next snapshot is complete on stable storage but for its uberblock. */
  ghost predicate InFlight(c: Codec, s: State, next: Uberblock) {
    && NextOk(s, next) && HasBody(c, s.disk.durable, Snap(next, s.meta, s.plain))
    && s.disk.pending.Keys <= {Slot(next)}
    && (Slot(next) in s.disk.pending ==>
          forall v :: v in s.disk.pending[Slot(next)] ==> v == Marshal(c.hash, next) || Parse(c.hash, v).Err?)
  }

  ghost predicate PhaseOk(c: Codec, s: State) {
    match s.phase
    case Idle => NoSlotPending(s)
    case Storing(text, packed, start, done) => NoSlotPending(s) && StoringOk(c, s, text, packed, start, done)
    case Snapping(next, buf, done) => NoSlotPending(s) && SnappingOk(s, next, buf, done)
    case Sealed(next) => s.disk.pending == map[] && InFlight(c, s, next)
    case Flipped(next) => InFlight(c, s, next) && |s.disk.cur| >= 2 && s.disk.cur[Slot(next)] == Marshal(c.hash, next)
    case Dead => NoSlotPending(s)
    case DeadFlip(next) => InFlight(c, s, next)
  }

  ghost predicate Inv(c: Codec, s: State) {
    CodecOk(c) && Durable(c, s) && Volatile(c, s) && Deferral(s) && PhaseOk(c, s)
  }

  // ----- recovery -----

  lemma HashIsChecksum(c: Codec)
    requires CodecOk(c)
    ensures ChecksumOk(c.hash)
  {}

  lemma MountPicks(c: Codec, img: Image, sn: Snap)
    requires Persisted(c, img, sn) && Beaten(c, img, sn.ub)
    ensures Mount(c.hash, img) == Ok((sn.ub, sn.meta))
  {
    hide Parse, Load, ReadRef;
  }

  lemma ReadableFrame(c: Codec, a: Image, b: Image, m: Dedup.Map, plain: map<Key, Bytes>)
    requires Readable(c, a, m, plain) && |a| == |b|
    requires forall k, i: nat :: InEntry(m, k, i) && i < |a| ==> a[i] == b[i]
    ensures Readable(c, b, m, plain)
  {
    hide ReadRef;
    forall k | k in m ensures k in plain && ReadRef(c, b, RefFrom(k, m[k])) == Ok(plain[k]) {
      forall i | m[k].start <= i < m[k].start + m[k].count && i < |a| ensures a[i] == b[i] {
        assert InEntry(m, k, i);
      }
      ReadFrame(c, a, b, RefFrom(k, m[k]));
    }
  }

  lemma BodyFrame(c: Codec, a: Image, b: Image, sn: Snap)
    requires HasBody(c, a, sn) && |a| == |b|
    requires forall n :: 0 <= n < |a| && n >= 2 && !Spared(sn, n) ==> a[n] == b[n]
    requires sn.ub.MetaStart() >= 2 && forall k :: k in sn.meta.ddt ==> sn.meta.ddt[k].start >= 2
    ensures HasBody(c, b, sn)
  {
    hide Load, ReadRef;
    LoadFrame(sn.ub, a, b);
    ReadableFrame(c, a, b, sn.meta.ddt, sn.plain);
  }

  /** The state found by a mount of `img`. */
  ghost predicate Recovered(c: Codec, img: Image, sn: Snap) {
    Mount(c.hash, img) == Ok((sn.ub, sn.meta)) && Readable(c, img, sn.meta.ddt, sn.plain)
  }

  /** An image on which the base snapshot survives. */
  lemma BaseSurvives(c: Codec, s: State, img: Image)
    requires Durable(c, s) && CrashImage(c, s.disk, img)
    requires Beaten(c, img, s.base.ub)
    ensures Persisted(c, img, s.base) && Recovered(c, img, s.base)
  {
    hide Parse, Load, ReadRef, Mount;
    forall n | 0 <= n < |img| && !Spared(s.base, n) ensures img[n] == s.disk.durable[n] {
      assert n !in s.disk.pending;
    }
    BodyFrame(c, s.disk.durable, img, s.base);
    MountPicks(c, img, s.base);
  }

  lemma NextIsSnap(c: Codec, s: State, next: Uberblock)
    requires Volatile(c, s) && NextOk(s, next)
    ensures SnapOk(Snap(next, s.meta, s.plain))
  {
    hide Alloc.Used;
  }

  /** An image on which the new uberblock has landed. */
  lemma NextLanded(c: Codec, s: State, next: Uberblock, img: Image)
    requires CodecOk(c) && Durable(c, s) && Volatile(c, s) && InFlight(c, s, next)
    requires |img| == |s.disk.durable| && img[Slot(next)] == Marshal(c.hash, next)
    requires forall n :: 0 <= n < |img| && n != Slot(next) ==> img[n] == s.disk.durable[n]
    ensures Persisted(c, img, Snap(next, s.meta, s.plain)) && Beaten(c, img, next)
  {
    hide Parse, Load, ReadRef, Marshal, Readable, Pinned, OneOwner, MetaOk, Alloc.Used, Spared, Describes;
    HashIsChecksum(c);
    UberRoundTrip(c.hash, next);
    assert 1 - Slot(next) == Slot(s.base.ub);
    BodyFrame(c, s.disk.durable, img, Snap(next, s.meta, s.plain));
  }

  lemma InFlightImage(c: Codec, s: State, next: Uberblock, img: Image)
    requires InFlight(c, s, next) && CrashImage(c, s.disk, img)
    ensures forall n :: 0 <= n < |img| && n != Slot(next) ==> img[n] == s.disk.durable[n]
    ensures forall n :: n == Slot(next) && n < |img| ==>
              img[n] == s.disk.durable[n] || img[n] == Marshal(c.hash, next) || Parse(c.hash, img[n]).Err?
  {
    hide Parse, Marshal, HasBody, NextOk;
  }

  /** The snapshots a crash may lead to: the last completed commit, or the one whose uberblock is in flight. */
  ghost predicate Candidate(s: State, sn: Snap) {
    || sn == s.base
    || ((s.phase.Flipped? || s.phase.DeadFlip?) && sn == Snap(s.phase.next, s.meta, s.plain))
  }

  ghost predicate FullyRecovered(c: Codec, s: State, img: Image, sn: Snap) {
    Candidate(s, sn) && SnapOk(sn) && Persisted(c, img, sn) && Beaten(c, img, sn.ub) && Recovered(c, img, sn)
  }

  lemma BaseWins(c: Codec, s: State, img: Image)
    requires Durable(c, s) && CrashImage(c, s.disk, img)
    requires |img| >= 2 && Beaten(c, img, s.base.ub)
    ensures FullyRecovered(c, s, img, s.base)
  {
    hide SnapOk, Persisted, Beaten, Recovered, CrashImage, Spared, DiskOk;
    BaseSurvives(c, s, img);
  }

  lemma NextWins(c: Codec, s: State, img: Image, next: Uberblock)
    requires CodecOk(c) && Durable(c, s) && Volatile(c, s) && InFlight(c, s, next) && CrashImage(c, s.disk, img)
    requires (s.phase.Flipped? || s.phase.DeadFlip?) && s.phase.next == next && img[Slot(next)] == Marshal(c.hash, next)
    ensures FullyRecovered(c, s, img, Snap(next, s.meta, s.plain))
  {
    hide SnapOk, Beaten, Mount, Load, ReadRef, Parse, Marshal, Durable, InFlight;
    InFlightImage(c, s, next, img);
    NextLanded(c, s, next, img);
    MountPicks(c, img, Snap(next, s.meta, s.plain));
    FlightIsSnap(c, s, next);
  }

  lemma FlightIsSnap(c: Codec, s: State, next: Uberblock)
    requires Volatile(c, s) && InFlight(c, s, next)
    ensures SnapOk(Snap(next, s.meta, s.plain))
  {
    hide SnapOk, HasBody, Readable, Pinned, Parse, Marshal;
    NextIsSnap(c, s, next);
  }

  /** Where the two uberblocks live. */
  lemma SlotsDiffer(c: Codec, s: State, next: Uberblock)
    requires Durable(c, s) && InFlight(c, s, next)
    ensures Slot(next) == 1 - Slot(s.base.ub) && |s.disk.durable| >= 2 && Fits(next)
    ensures Beaten(c, s.disk.durable, s.base.ub)
  {
    hide Persisted, Beaten, Spared, HasBody, Parse, Marshal, MetaOk, Pinned, OneOwner, Alloc.Used;
  }

  lemma SlotsUntouched(c: Codec, s: State, img: Image)
    requires Durable(c, s) && NoSlotPending(s) && CrashImage(c, s.disk, img)
    ensures |img| >= 2 && Beaten(c, img, s.base.ub)
  {
    hide Persisted, Spared, Parse, MetaOk, Pinned, OneOwner, Alloc.Used;
  }

  /** No grey zone: any crash, at any step, mounts exactly one of the two candidates, with all its data. */
  lemma CrashRecovers(c: Codec, s: State, img: Image) returns (sn: Snap)
    requires Inv(c, s) && CrashImage(c, s.disk, img)
    ensures FullyRecovered(c, s, img, sn)
  {
    hide Durable, Volatile, Deferral, InFlight, CrashImage, FullyRecovered, StoringOk, SnappingOk, Marshal, Parse;
    if s.phase.Sealed? {
      SlotsUntouched(c, s, img);
    } else if s.phase.Flipped? || s.phase.DeadFlip? {
      var next := s.phase.next;
      SlotsDiffer(c, s, next);
      CrashLen(c, s, img);
      InFlightImage(c, s, next, img);
      if img[Slot(next)] == Marshal(c.hash, next) {
        NextWins(c, s, img, next);
        return Snap(next, s.meta, s.plain);
      }
    } else {
      SlotsUntouched(c, s, img);
    }
    BaseWins(c, s, img);
    return s.base;
  }

  lemma CrashLen(c: Codec, s: State, img: Image)
    requires CrashImage(c, s.disk, img)
    ensures |img| == |s.disk.durable|
  {}

  // ----- the steps -----

  datatype Step =
    | Hit(key: Key)                                                        // dedup hit: one more reference
    | Begin(text: Bytes, packed: Packed, start: nat, bm: Alloc.Words)      // miss: clusters allocated
    | Put                                                                  // next cluster written
    | PutFail(data: Bytes, bm: Alloc.Words)                                // cluster write failed: clusters freed again
    | Finish                                                               // entry added
    | Drop(key: Key)                                                       // one reference released
    | Touch(tbl: Inodes.Slots, nextInode: nat)                             // inode table edited in memory
    | CommitBegin(order: seq<Key>, buf: Bytes)                             // snapshot serialized
    | MetaPut                                                              // next snapshot block written
    | MetaSync                                                             // snapshot synced
    | UberPut                                                              // uberblock written
    | CommitEnd(bm: Alloc.Words)                                           // uberblock synced, deferred frees applied
    | MetaFail(data: Bytes)                                                // a snapshot write failed: run ended
    | UberFail(data: Bytes)                                                // the uberblock write failed: run ended
    | SyncFail                                                             // sync failed or uberblock write refused
    | Stop                                                                 // run ended outside a commit
    | Crash(img: Image)                                                    // power failure, then mount

  ghost function NewEntry(p: Phase): Dedup.Entry
    requires p.Storing?
  {
    Dedup.Entry(p.start, Clusters(|p.packed.payload|), |p.packed.payload|, |p.text|, p.packed.raw, 1)
  }

  /** The uberblock a commit of the current state would write. */
  ghost function NextUber(s: State): Uberblock
    requires s.ub.activeMeta <= 1
  {
    s.ub.(seqNo := s.ub.seqNo + 1, activeMeta := 1 - s.ub.activeMeta,
          bitmapLen := 8 + 8 * |s.meta.bm.bits|, ddtLen := 8 + Dedup.REC * |s.meta.ddt|,
          inodeLen := Inodes.SIZE * s.meta.tbl.count)
  }

  /** The texts found on an image for the entries of a dedup table. */
  ghost function ReadAll(c: Codec, img: Image, m: Dedup.Map): map<Key, Bytes> {
    map k | k in m && ReadRef(c, img, RefFrom(k, m[k])).Ok? :: ReadRef(c, img, RefFrom(k, m[k])).value
  }

  ghost predicate Owned(m: Meta, u: Uberblock, i: nat) {
    i < u.dataStart || exists k :: InEntry(m.ddt, k, i)
  }

  /** Clusters that are set although neither the metadata region nor an entry owns them. */
  ghost function Unowned(m: Meta, u: Uberblock): set<nat> {
    set i: nat | 0 <= i < m.bm.total && Alloc.Used(m.bm, i) && !Owned(m, u, i)
  }

  ghost predicate NextHit(s: State, s': State, k: Key) {
    && s.phase.Idle? && k in s.meta.ddt && s.meta.ddt[k].refs + 1 < U32
    && s' == s.(meta := s.meta.(ddt := s.meta.ddt[k := s.meta.ddt[k].(refs := s.meta.ddt[k].refs + 1)]))
  }

  ghost predicate NextBegin(c: Codec, s: State, s': State, text: Bytes, packed: Packed, start: nat, bm: Alloc.Words) {
    var count := Clusters(|packed.payload|);
    && s.phase.Idle? && c.hash(text) !in s.meta.ddt && Pack(c, text) == Some(packed)
    && |text| < U32 && |packed.payload| < U32 && count < U32
    && Alloc.FreeRun(s.meta.bm, start, count) && Alloc.Marked(s.meta.bm, bm, start, count)
    && s' == s.(meta := s.meta.(bm := bm), phase := Storing(text, packed, start, 0))
  }

  ghost predicate NextPut(c: Codec, s: State, s': State) {
    && s.phase.Storing? && s.phase.done < Clusters(|s.phase.packed.payload|)
    && s.phase.start + s.phase.done < |s.disk.cur|
    && s' == s.(disk := WriteTo(s.disk, s.phase.start + s.phase.done,
         Cluster(c, s.phase.start, s.phase.packed.payload, s.phase.done)),
                phase := Storing(s.phase.text, s.phase.packed, s.phase.start, s.phase.done + 1))
  }

  ghost predicate NextPutFail(s: State, s': State, data: Bytes, bm: Alloc.Words) {
    && s.phase.Storing? && s.phase.done < Clusters(|s.phase.packed.payload|)
    && s.phase.start + s.phase.done < |s.disk.cur|
    && Alloc.Cleared(s.meta.bm, bm, s.phase.start, Clusters(|s.phase.packed.payload|))
    && s' == s.(disk := WriteTo(s.disk, s.phase.start + s.phase.done, data), meta := s.meta.(bm := bm), phase := Idle)
  }

  ghost predicate NextFinish(c: Codec, s: State, s': State) {
    && s.phase.Storing? && s.phase.done == Clusters(|s.phase.packed.payload|)
    && s' == s.(meta := s.meta.(ddt := s.meta.ddt[c.hash(s.phase.text) := NewEntry(s.phase)]),
                plain := s.plain[c.hash(s.phase.text) := s.phase.text], phase := Idle)
  }

  ghost predicate NextDrop(s: State, s': State, k: Key) {
    && s.phase.Idle? && k in s.meta.ddt && s.meta.ddt[k].refs >= 1
    && var e := s.meta.ddt[k];
       if e.refs > 1 then s' == s.(meta := s.meta.(ddt := s.meta.ddt[k := e.(refs := e.refs - 1)]))
       else s' == s.(meta := s.meta.(ddt := s.meta.ddt - {k}), plain := s.plain - {k},
                     deferred := s.deferred + [Alloc.Range(e.start, e.count)])
  }

  ghost predicate NextTouch(s: State, s': State, tbl: Inodes.Slots, nextInode: nat) {
    && s.phase.Idle? && Inodes.WellFormed(tbl) && |tbl.inodes| == |s.meta.tbl.inodes| && nextInode < U64
    && s' == s.(meta := s.meta.(tbl := tbl), ub := s.ub.(nextInode := nextInode))
  }

  ghost predicate NextCommitBegin(s: State, s': State, order: seq<Key>, buf: Bytes) {
    && s.phase.Idle? && s.ub.activeMeta <= 1 && s.ub.seqNo + 1 < U64
    && MetaOk(s.meta) && Dedup.Enumerates(order, s.meta.ddt)
    && SavedLen(s.meta) <= s.ub.metaBlocks * BLK && |buf| == s.ub.metaBlocks * BLK && Carries(buf, s.meta, order)
    && s' == s.(phase := Snapping(NextUber(s), buf, 0))
  }

  ghost predicate SnapBlockDue(s: State) {
    && s.phase.Snapping? && s.phase.done < s.ub.metaBlocks
    && s.phase.next.MetaStart() + s.phase.done < |s.disk.cur| && (s.phase.done + 1) * BLK <= |s.phase.buf|
  }

  ghost predicate NextMetaPut(s: State, s': State) {
    && SnapBlockDue(s)
    && s' == s.(disk := WriteTo(s.disk, s.phase.next.MetaStart() + s.phase.done, Slice(s.phase.buf, s.phase.done)),
                phase := Snapping(s.phase.next, s.phase.buf, s.phase.done + 1))
  }

  ghost predicate NextMetaSync(s: State, s': State) {
    && s.phase.Snapping? && s.phase.done == s.ub.metaBlocks
    && s' == s.(disk := Synced(s.disk), phase := Sealed(s.phase.next))
  }

  ghost predicate NextUberPut(c: Codec, s: State, s': State) {
    && s.phase.Sealed? && Fits(s.phase.next) && |s.disk.cur| >= 2
    && s' == s.(disk := WriteTo(s.disk, Slot(s.phase.next), Marshal(c.hash, s.phase.next)),
         phase := Flipped(s.phase.next))
  }

  ghost predicate NextCommitEnd(s: State, s': State, bm: Alloc.Words) {
    && s.phase.Flipped? && Alloc.Applied(s.meta.bm, bm, s.deferred)
    && s' == s.(disk := Synced(s.disk), meta := s.meta.(bm := bm), deferred := [], ub := s.phase.next,
                base := Snap(s.phase.next, s.meta, s.plain), phase := Idle)
  }

  ghost predicate NextMetaFail(s: State, s': State, data: Bytes) {
    && SnapBlockDue(s)
    && s' == s.(disk := WriteTo(s.disk, s.phase.next.MetaStart() + s.phase.done, data), phase := Dead)
  }

  ghost predicate NextUberFail(c: Codec, s: State, s': State, data: Bytes) {
    && s.phase.Sealed? && Fits(s.phase.next) && |s.disk.cur| >= 2
    && (data == Marshal(c.hash, s.phase.next) || Parse(c.hash, data).Err?)
    && s' == s.(disk := WriteTo(s.disk, Slot(s.phase.next), data), phase := DeadFlip(s.phase.next))
  }

  ghost predicate NextSyncFail(s: State, s': State) {
    || (s.phase.Snapping? && s.phase.done == s.ub.metaBlocks && s' == s.(phase := Dead))
    || (s.phase.Sealed? && s' == s.(phase := Dead))
    || (s.phase.Flipped? && s' == s.(phase := DeadFlip(s.phase.next)))
  }

  ghost predicate NextStop(s: State, s': State) {
    s.phase.Idle? && s' == s.(phase := Dead)
  }

  ghost predicate NextCrash(c: Codec, s: State, s': State, img: Image) {
    && CrashImage(c, s.disk, img) && Mount(c.hash, img).Ok?
    && var (u, m) := Mount(c.hash, img).value;
       var plain := ReadAll(c, img, m.ddt);
       s' == State(Disk(img, img, map[]), m, [], u, plain, Snap(u, m, plain), Idle, Unowned(m, u))
  }

  ghost predicate Next(c: Codec, s: State, s': State, step: Step) {
    match step
    case Hit(k) => NextHit(s, s', k)
    case Begin(text, packed, start, bm) => NextBegin(c, s, s', text, packed, start, bm)
    case Put => NextPut(c, s, s')
    case PutFail(data, bm) => NextPutFail(s, s', data, bm)
    case Finish => NextFinish(c, s, s')
    case Drop(k) => NextDrop(s, s', k)
    case Touch(tbl, nextInode) => NextTouch(s, s', tbl, nextInode)
    case CommitBegin(order, buf) => NextCommitBegin(s, s', order, buf)
    case MetaPut => NextMetaPut(s, s')
    case MetaSync => NextMetaSync(s, s')
    case UberPut => NextUberPut(c, s, s')
    case CommitEnd(bm) => NextCommitEnd(s, s', bm)
    case MetaFail(data) => NextMetaFail(s, s', data)
    case UberFail(data) => NextUberFail(c, s, s', data)
    case SyncFail => NextSyncFail(s, s')
    case Stop => NextStop(s, s')
    case Crash(img) => NextCrash(c, s, s', img)
  }

  // ----- every step keeps the invariant, part by part -----

  lemma DurableSame(c: Codec, s: State, s': State)
    requires Durable(c, s) && s'.disk == s.disk && s'.base == s.base && s'.ub == s.ub.(nextInode := s'.ub.nextInode)
    ensures Durable(c, s')
  {
    hide SnapOk, Persisted, Beaten, Spared;
  }

  /** A write that spares the base keeps it durable. */
  lemma DurableWrite(c: Codec, s: State, s': State, n: nat, data: Bytes)
    requires Durable(c, s) && n < |s.disk.cur| && Spared(s.base, n)
    requires s'.disk == WriteTo(s.disk, n, data) && s'.base == s.base && s'.ub == s.ub
    ensures Durable(c, s')
  {
    hide SnapOk, Persisted, Beaten, Spared;
  }

  lemma VolatileSame(c: Codec, s: State, s': State)
    requires Volatile(c, s) && s'.meta == s.meta && s'.plain == s.plain && s'.base == s.base && s'.ub == s.ub
    requires s'.disk.cur == s.disk.cur
    ensures Volatile(c, s')
  {
    hide SnapOk, Readable, Pinned;
  }

  /** A write outside the live clusters keeps every entry readable. */
  lemma VolatileWrite(c: Codec, s: State, s': State, n: nat, data: Bytes)
    requires Volatile(c, s) && n < |s.disk.cur| && forall k :: !InEntry(s.meta.ddt, k, n)
    requires s'.disk == WriteTo(s.disk, n, data)
    requires s'.meta == s.meta && s'.plain == s.plain && s'.base == s.base && s'.ub == s.ub
    ensures Volatile(c, s')
  {
    hide SnapOk, Readable, Pinned;
    ReadableFrame(c, s.disk.cur, s'.disk.cur, s.meta.ddt, s.plain);
  }

  lemma DeferralSame(s: State, s': State)
    requires Deferral(s) && s'.meta == s.meta && s'.deferred == s.deferred && s'.ub.dataStart == s.ub.dataStart
    ensures Deferral(s')
  {
    hide Alloc.Used, Alloc.InRanges, Alloc.InRun, InEntry;
  }

  // A dedup hit.

  /** Changing a count moves no cluster. */
  lemma SameRanges(m: Dedup.Map, m': Dedup.Map)
    requires m.Keys == m'.Keys
    requires forall k :: k in m ==> m'[k].start == m[k].start && m'[k].count == m[k].count
    ensures forall k, i :: InEntry(m', k, i) == InEntry(m, k, i)
  {}

  /** Two tables that differ in reference counts only. */
  ghost predicate Recounted(m: Dedup.Map, m': Dedup.Map) {
    && m.Keys == m'.Keys
    && forall k :: k in m ==> m'[k] == m[k].(refs := m'[k].refs) && 1 <= m'[k].refs < U32
  }

  lemma RecountVolatile(c: Codec, s: State, s': State)
    requires Volatile(c, s) && Recounted(s.meta.ddt, s'.meta.ddt) && s' == s.(meta := s.meta.(ddt := s'.meta.ddt))
    ensures Volatile(c, s')
  {
    hide ReadRef, Alloc.Used, Geometry, Inodes.WellFormed;
    SameRanges(s.meta.ddt, s'.meta.ddt);
  }

  lemma RecountDeferral(s: State, s': State)
    requires Deferral(s) && Recounted(s.meta.ddt, s'.meta.ddt) && s' == s.(meta := s.meta.(ddt := s'.meta.ddt))
    ensures Deferral(s')
  {
    hide Alloc.Used, Alloc.InRanges, Alloc.InRun, InEntry;
    SameRanges(s.meta.ddt, s'.meta.ddt);
  }

  lemma RecountKeeps(c: Codec, s: State, s': State)
    requires Inv(c, s) && s.phase.Idle? && Recounted(s.meta.ddt, s'.meta.ddt)
    requires s' == s.(meta := s.meta.(ddt := s'.meta.ddt))
    ensures Inv(c, s')
  {
    hide Durable, Volatile, Deferral, Recounted;
    RecountVolatile(c, s, s');
    RecountDeferral(s, s');
    DurableSame(c, s, s');
  }

  lemma EntryRefsOk(c: Codec, s: State, k: Key)
    requires Volatile(c, s) && k in s.meta.ddt
    ensures EntryOk(k, s.meta.ddt[k], s.ub)
    ensures forall j :: j in s.meta.ddt ==> 1 <= s.meta.ddt[j].refs < U32
  {
    hide Readable, Pinned, OneOwner, Geometry, MetaOk;
  }

  lemma HitKeeps(c: Codec, s: State, s': State, k: Key)
    requires Inv(c, s) && NextHit(s, s', k)
    ensures Inv(c, s')
  {
    hide Durable, Volatile, Deferral;
    EntryRefsOk(c, s, k);
    RecountKeeps(c, s, s');
  }

  // A miss: allocate, write the clusters, add the entry.

  lemma BeginVolatile(c: Codec, s: State, s': State, text: Bytes, packed: Packed, start: nat, bm: Alloc.Words)
    requires Inv(c, s) && NextBegin(c, s, s', text, packed, start, bm)
    ensures Volatile(c, s')
    ensures forall i :: Alloc.Used(s.meta.bm, i) ==> Alloc.Used(bm, i)
  {
    hide Durable, Deferral, ReadRef, Pack;
    assert forall i :: 0 <= i < s.meta.bm.total && Alloc.Used(s.meta.bm, i) ==> Alloc.Used(bm, i);
  }

  lemma BeginExclusive(c: Codec, s: State, s': State, text: Bytes, packed: Packed, start: nat, bm: Alloc.Words)
    requires Inv(c, s) && NextBegin(c, s, s', text, packed, start, bm)
    ensures Exclusive(s', start, Clusters(|packed.payload|)) && start <= |s.disk.cur|
  {
    hide ReadRef, Pack, Persisted, Beaten, Readable;
    var n := Clusters(|packed.payload|);
    assert !Alloc.Used(s.meta.bm, start);
    forall i | start <= i < start + n
      ensures Alloc.Used(bm, i) && !Alloc.InRanges(i, s.deferred)
      ensures (forall k :: !InEntry(s.meta.ddt, k, i)) && (forall k :: !InEntry(s.base.meta.ddt, k, i))
    {
      assert !Alloc.Used(s.meta.bm, i);
      assert Alloc.InRun(i, start, n);
    }
  }

  lemma BeginDeferral(s: State, s': State, bm: Alloc.Words)
    requires Deferral(s) && s'.deferred == s.deferred && s'.meta.bm == bm && s'.meta.ddt == s.meta.ddt && s'.ub == s.ub
    requires forall i :: Alloc.Used(s.meta.bm, i) ==> Alloc.Used(bm, i)
    ensures Deferral(s')
  {
    hide Alloc.InRanges, Alloc.InRun, InEntry, Alloc.Used;
  }

  lemma BeginKeeps(c: Codec, s: State, s': State, text: Bytes, packed: Packed, start: nat, bm: Alloc.Words)
    requires Inv(c, s) && NextBegin(c, s, s', text, packed, start, bm)
    ensures Inv(c, s')
  {
    hide Durable, Volatile, Deferral, Exclusive, Pack, Clusters, Alloc.Used, Alloc.FreeRun, Alloc.Marked;
    BeginVolatile(c, s, s', text, packed, start, bm);
    BeginExclusive(c, s, s', text, packed, start, bm);
    BeginDeferral(s, s', bm);
    DurableSame(c, s, s');
    StandsNone(c, s.disk.cur, start, packed.payload);
  }

  lemma StandsNone(c: Codec, img: Image, start: nat, payload: Bytes)
    requires start <= |img|
    ensures Stands(c, img, start, payload, 0)
  {}

  lemma ClusterWriteSpares(c: Codec, s: State, n: nat)
    requires Inv(c, s) && s.phase.Storing? && s.phase.start <= n < s.phase.start + Clusters(|s.phase.packed.payload|)
    ensures Spared(s.base, n) && n >= 2 && forall k :: !InEntry(s.meta.ddt, k, n)
  {
    hide Persisted, Beaten, Readable, Pinned, OneOwner, Deferral, MetaOk, Alloc.Used, Alloc.InRanges, Cluster, Pack,
      Stands, Clusters;
    ExclusiveAt(s, s.phase.start, Clusters(|s.phase.packed.payload|), n);
  }

  lemma StandsMore(c: Codec, img: Image, start: nat, payload: Bytes, n: nat)
    requires Stands(c, img, start, payload, n) && n < Clusters(|payload|) && start + n < |img|
    ensures Stands(c, img[start + n := Cluster(c, start, payload, n)], start, payload, n + 1)
  {
    hide Cluster, Clusters;
  }

  lemma PutKeeps(c: Codec, s: State, s': State)
    requires Inv(c, s) && NextPut(c, s, s')
    ensures Inv(c, s')
  {
    hide Durable, Volatile, Deferral, Exclusive, Pack, Cluster, Clusters, Stands;
    var n := s.phase.start + s.phase.done;
    ClusterWriteSpares(c, s, n);
    DurableWrite(c, s, s', n, Cluster(c, s.phase.start, s.phase.packed.payload, s.phase.done));
    VolatileWrite(c, s, s', n, Cluster(c, s.phase.start, s.phase.packed.payload, s.phase.done));
    DeferralSame(s, s');
    ExclusiveSame(s, s', s.phase.start, Clusters(|s.phase.packed.payload|));
    StandsMore(c, s.disk.cur, s.phase.start, s.phase.packed.payload, s.phase.done);
  }

  lemma ExclusiveAt(s: State, start: nat, count: nat, n: nat)
    requires Exclusive(s, start, count) && start <= n < start + count
    ensures Alloc.Used(s.meta.bm, n) && !Alloc.InRanges(n, s.deferred)
    ensures forall k :: !InEntry(s.meta.ddt, k, n)
    ensures forall k :: !InEntry(s.base.meta.ddt, k, n)
  {
    hide Alloc.Used, Alloc.InRanges, InEntry;
    assert Alloc.Used(s.meta.bm, n);
  }

  lemma ExclusiveSame(s: State, s': State, start: nat, count: nat)
    requires Exclusive(s, start, count)
    requires s'.meta == s.meta && s'.deferred == s.deferred && s'.base == s.base && s'.ub == s.ub
    ensures Exclusive(s', start, count)
  {
    hide Alloc.Used, Alloc.InRanges, InEntry;
  }

  lemma PutFailVolatile(c: Codec, s: State, s': State, data: Bytes, bm: Alloc.Words)
    requires Inv(c, s) && NextPutFail(s, s', data, bm)
    ensures Volatile(c, s') && Deferral(s')
  {
    hide Durable, ReadRef, Pack, Cluster, Stands, Clusters;
    var start, count := s.phase.start, Clusters(|s.phase.packed.payload|);
    forall i | Alloc.Used(s.meta.bm, i) && !Alloc.InRun(i, start, count) ensures Alloc.Used(bm, i) {}
    ReadableFrame(c, s.disk.cur, s'.disk.cur, s.meta.ddt, s.plain);
  }

  lemma PutFailKeeps(c: Codec, s: State, s': State, data: Bytes, bm: Alloc.Words)
    requires Inv(c, s) && NextPutFail(s, s', data, bm)
    ensures Inv(c, s')
  {
    hide Durable, Volatile, Deferral, StoringOk, Alloc.Cleared;
    var n := s.phase.start + s.phase.done;
    ClusterWriteSpares(c, s, n);
    PutFailVolatile(c, s, s', data, bm);
    DurableWrite(c, s, s.(disk := s'.disk), n, data);
    DurableSame(c, s.(disk := s'.disk), s');
  }

  lemma FinishRanges(c: Codec, s: State, s': State)
    requires NextFinish(c, s, s')
    ensures forall k, i :: InEntry(s'.meta.ddt, k, i) ==>
      (k != c.hash(s.phase.text) && InEntry(s.meta.ddt, k, i))
      || (k == c.hash(s.phase.text) && Alloc.InRun(i, s.phase.start, Clusters(|s.phase.packed.payload|)))
  {
    hide Clusters;
  }

  lemma FinishOwners(c: Codec, s: State, s': State)
    requires Volatile(c, s) && NextFinish(c, s, s') && Exclusive(s, s.phase.start, Clusters(|s.phase.packed.payload|))
    ensures OneOwner(s'.meta.ddt) && Pinned(s'.meta.bm, s'.meta.ddt)
  {
    hide Readable, Geometry, MetaOk, Alloc.Used, Clusters, Alloc.InRanges;
    FinishRanges(c, s, s');
  }

  lemma FinishSnap(c: Codec, s: State, s': State)
    requires Inv(c, s) && NextFinish(c, s, s')
    ensures SnapOk(Snap(s'.ub, s'.meta, s'.plain))
  {
    hide Durable, Deferral, Readable, Pack, Stands, Alloc.Used, Pinned, OneOwner, InEntry, Alloc.InRanges,
      Inodes.WellFormed;
    FinishOwners(c, s, s');
    assert EntryOk(c.hash(s.phase.text), NewEntry(s.phase), s.ub);
  }

  lemma FinishReadable(c: Codec, s: State, s': State)
    requires Inv(c, s) && NextFinish(c, s, s')
    ensures Readable(c, s'.disk.cur, s'.meta.ddt, s'.plain)
  {
    hide Durable, Deferral, SnapOk, Exclusive, ReadRef, Pack, Cluster;
    ReadBack(c, s.disk.cur, s.phase.start, s.phase.text, s.phase.packed);
  }

  lemma FinishDeferral(c: Codec, s: State, s': State)
    requires Inv(c, s) && NextFinish(c, s, s')
    ensures Deferral(s')
  {
    hide Durable, Volatile, Pack, Stands, Alloc.Used, Alloc.InRanges, Clusters, InEntry;
    FinishRanges(c, s, s');
  }

  lemma FinishKeeps(c: Codec, s: State, s': State)
    requires Inv(c, s) && NextFinish(c, s, s')
    ensures Inv(c, s')
  {
    hide Durable, Deferral, SnapOk, Readable, Pinned, StoringOk, Clusters;
    FinishSnap(c, s, s');
    FinishReadable(c, s, s');
    FinishDeferral(c, s, s');
    DurableSame(c, s, s');
  }

  // A release.

  lemma DropLastVolatile(c: Codec, s: State, s': State, k: Key)
    requires Inv(c, s) && NextDrop(s, s', k) && s.meta.ddt[k].refs == 1
    ensures Volatile(c, s')
    ensures forall j, i :: InEntry(s'.meta.ddt, j, i) ==> j != k && InEntry(s.meta.ddt, j, i)
  {
    hide Durable, Deferral, ReadRef, Alloc.Used;
    assert forall j, i :: InEntry(s'.meta.ddt, j, i) ==> j != k && InEntry(s.meta.ddt, j, i);
  }

  lemma InRangesAppend(rs: seq<Alloc.Range>, r: Alloc.Range, i: nat)
    ensures Alloc.InRanges(i, rs + [r]) == (Alloc.InRanges(i, rs) || Alloc.InRun(i, r.start, r.count))
  {
    if Alloc.InRanges(i, rs) {
      var a :| 0 <= a < |rs| && Alloc.InRun(i, rs[a].start, rs[a].count);
      assert (rs + [r])[a] == rs[a];
    }
    assert (rs + [r])[|rs|] == r;
  }

  lemma DropLastRanges(s: State, s': State, k: Key)
    requires NextDrop(s, s', k) && s.meta.ddt[k].refs == 1
    ensures forall i :: Alloc.InRanges(i, s'.deferred) == (Alloc.InRanges(i, s.deferred) || InEntry(s.meta.ddt, k, i))
    ensures forall j, i :: InEntry(s'.meta.ddt, j, i) ==> j != k && InEntry(s.meta.ddt, j, i)
  {
    hide Alloc.InRanges;
    var r := Alloc.Range(s.meta.ddt[k].start, s.meta.ddt[k].count);
    forall i ensures Alloc.InRanges(i, s'.deferred) == (Alloc.InRanges(i, s.deferred) || InEntry(s.meta.ddt, k, i)) {
      InRangesAppend(s.deferred, r, i);
    }
  }

  lemma DropLastDeferral(c: Codec, s: State, s': State, k: Key)
    requires Volatile(c, s) && Deferral(s) && NextDrop(s, s', k) && s.meta.ddt[k].refs == 1
    ensures Deferral(s')
  {
    hide Readable, Geometry, MetaOk, Alloc.Used, Alloc.InRanges, Alloc.InRun;
    DropLastRanges(s, s', k);
    DropLastDisjoint(s, s', k);
    assert EntryOk(k, s.meta.ddt[k], s.ub);
  }

  lemma DropLastDisjoint(s: State, s': State, k: Key)
    requires Deferral(s) && NextDrop(s, s', k) && s.meta.ddt[k].refs == 1
    ensures forall a, b, i :: 0 <= a < b < |s'.deferred| ==>
      !(Alloc.InRun(i, s'.deferred[a].start, s'.deferred[a].count)
        && Alloc.InRun(i, s'.deferred[b].start, s'.deferred[b].count))
  {
    forall a, b, i | 0 <= a < b < |s'.deferred|
      ensures !(Alloc.InRun(i, s'.deferred[a].start, s'.deferred[a].count)
                && Alloc.InRun(i, s'.deferred[b].start, s'.deferred[b].count))
    {
      if b == |s.deferred| && Alloc.InRun(i, s'.deferred[a].start, s'.deferred[a].count) {
        assert Alloc.InRanges(i, s.deferred);
        assert !InEntry(s.meta.ddt, k, i);
      }
    }
  }

  lemma DropKeeps(c: Codec, s: State, s': State, k: Key)
    requires Inv(c, s) && NextDrop(s, s', k)
    ensures Inv(c, s')
  {
    hide Durable, Volatile, Deferral;
    EntryRefsOk(c, s, k);
    if s.meta.ddt[k].refs > 1 {
      RecountKeeps(c, s, s');
    } else {
      DropLastVolatile(c, s, s', k);
      DropLastDeferral(c, s, s', k);
      DurableSame(c, s, s');
    }
  }

  lemma TouchVolatile(c: Codec, s: State, s': State, tbl: Inodes.Slots, nextInode: nat)
    requires Volatile(c, s) && NextTouch(s, s', tbl, nextInode)
    ensures Volatile(c, s')
  {
    hide Readable, Pinned, Alloc.Used, Inodes.WellFormed;
  }

  lemma TouchKeeps(c: Codec, s: State, s': State, tbl: Inodes.Slots, nextInode: nat)
    requires Inv(c, s) && NextTouch(s, s', tbl, nextInode)
    ensures Inv(c, s')
  {
    hide Durable, Volatile, Deferral, Inodes.WellFormed;
    TouchVolatile(c, s, s', tbl, nextInode);
    DurableSame(c, s, s');
    BeginDeferral(s, s.(meta := s'.meta), s.meta.bm);
    DeferralSame(s.(meta := s'.meta), s');
  }

  // A commit, block by block.

  lemma CommitBeginReady(c: Codec, s: State, s': State, order: seq<Key>, buf: Bytes)
    requires Inv(c, s) && NextCommitBegin(s, s', order, buf)
    ensures SnappingOk(s', NextUber(s), buf, 0)
  {
    hide Persisted, Beaten, Readable, Pinned, OneOwner, Deferral, Alloc.Used, Carries, MetaOk, LoadBuf,
      Dedup.Enumerates, Spared, EntryOk;
    SnapshotRoundTrip(NextUber(s), s.meta, order, buf);
  }

  lemma CommitBeginKeeps(c: Codec, s: State, s': State, order: seq<Key>, buf: Bytes)
    requires Inv(c, s) && NextCommitBegin(s, s', order, buf)
    ensures Inv(c, s')
  {
    hide Durable, Volatile, Deferral, SnappingOk, MetaOk, Carries, Dedup.Enumerates;
    CommitBeginReady(c, s, s', order, buf);
    DurableSame(c, s, s');
    VolatileSame(c, s, s');
    DeferralSame(s, s');
  }

  /** The inactive metadata slot lies apart from the active one, the uberblocks and the data. */
  lemma InactiveSlot(u: Uberblock, next: Uberblock, i: nat)
    requires Geometry(u) && i < u.metaBlocks
    requires next.metaA == u.metaA && next.metaB == u.metaB && next.activeMeta == 1 - u.activeMeta
    ensures var n := next.MetaStart() + i;
            2 <= n < u.dataStart && !Alloc.InRun(n, u.MetaStart(), u.metaBlocks)
  {}

  lemma NoEntryBelow(sn: Snap, n: nat)
    requires SnapOk(sn) && n < sn.ub.dataStart
    ensures forall k :: !InEntry(sn.meta.ddt, k, n)
  {
    hide Pinned, OneOwner, MetaOk, Geometry, Dedup.Fits, Alloc.Used;
  }

  lemma MetaWriteSpares(c: Codec, s: State, n: nat)
    requires Inv(c, s) && SnapBlockDue(s) && n == s.phase.next.MetaStart() + s.phase.done
    ensures Spared(s.base, n) && n >= 2 && forall k :: !InEntry(s.meta.ddt, k, n)
  {
    hide Persisted, Beaten, Readable, Pinned, OneOwner, Deferral, Alloc.Used, LoadBuf, MetaOk, Describes, Slice, DiskOk,
      EntryOk, Geometry, InEntry, Alloc.InRun, Fits;
    InactiveSlot(s.base.ub, s.phase.next, s.phase.done);
    NoEntryBelow(s.base, n);
    NoEntryBelow(Snap(s.ub, s.meta, s.plain), n);
  }

  lemma SnappingMore(s: State, s': State)
    requires s.phase.Snapping? && SnappingOk(s, s.phase.next, s.phase.buf, s.phase.done) && NextMetaPut(s, s')
    ensures SnappingOk(s', s.phase.next, s.phase.buf, s.phase.done + 1)
  {
    hide LoadBuf, Slice, NextOk;
    NextSame(s, s', s.phase.next);
  }

  lemma MetaPutKeeps(c: Codec, s: State, s': State)
    requires Inv(c, s) && NextMetaPut(s, s')
    ensures Inv(c, s')
  {
    hide Durable, Volatile, Deferral, SnappingOk, Slice;
    var n := s.phase.next.MetaStart() + s.phase.done;
    MetaWriteSpares(c, s, n);
    SnappingMore(s, s');
    DurableWrite(c, s, s', n, Slice(s.phase.buf, s.phase.done));
    VolatileWrite(c, s, s', n, Slice(s.phase.buf, s.phase.done));
    DeferralSame(s, s');
  }

  lemma NextSame(s: State, s': State, next: Uberblock)
    requires NextOk(s, next) && s'.ub == s.ub && s'.meta == s.meta
    ensures NextOk(s', next)
  {}

  lemma MetaFailKeeps(c: Codec, s: State, s': State, data: Bytes)
    requires Inv(c, s) && NextMetaFail(s, s', data)
    ensures Inv(c, s')
  {
    hide Durable, Volatile, Deferral, SnappingOk;
    var n := s.phase.next.MetaStart() + s.phase.done;
    MetaWriteSpares(c, s, n);
    DurableWrite(c, s, s', n, data);
    VolatileWrite(c, s, s', n, data);
    DeferralSame(s, s');
  }

  /** A sync cannot hurt the base: none of its blocks was written. */
  lemma SyncKeepsDurable(c: Codec, s: State, s': State)
    requires Durable(c, s) && NoSlotPending(s) && s'.disk == Synced(s.disk) && s'.base == s.base && s'.ub == s.ub
    ensures Durable(c, s')
  {
    hide Parse, Load, ReadRef, Spared, Pinned, OneOwner, Readable, Alloc.Used;
    forall n | 0 <= n < |s.disk.cur| && !Spared(s.base, n) ensures s.disk.durable[n] == s.disk.cur[n] {}
    BodyFrame(c, s.disk.durable, s.disk.cur, s.base);
  }

  lemma MetaSyncInFlight(c: Codec, s: State, s': State)
    requires Inv(c, s) && NextMetaSync(s, s')
    ensures InFlight(c, s', s.phase.next)
  {
    hide Durable, Deferral, SnapOk, Pinned, LoadBuf, Readable, Region, Slice;
    RegionOfSlices(s.disk.cur, s.phase.next.MetaStart(), s.ub.metaBlocks, s.phase.buf);
  }

  lemma MetaSyncKeeps(c: Codec, s: State, s': State)
    requires Inv(c, s) && NextMetaSync(s, s')
    ensures Inv(c, s')
  {
    hide Durable, Volatile, Deferral, SnappingOk, InFlight;
    MetaSyncInFlight(c, s, s');
    SyncKeepsDurable(c, s, s');
    VolatileSame(c, s, s');
    DeferralSame(s, s');
  }

  lemma SlotWriteSpares(c: Codec, s: State, next: Uberblock)
    requires Durable(c, s) && Volatile(c, s) && NextOk(s, next)
    ensures Spared(s.base, Slot(next)) && Slot(next) < |s.disk.cur|
    ensures forall k, n :: n == Slot(next) ==> !InEntry(s.meta.ddt, k, n)
  {
    hide Persisted, Beaten, Readable, Pinned, OneOwner, Alloc.Used, Describes;
  }

  /** Writing the slot of the next uberblock, whole or torn. */
  lemma SlotWriteKeeps(c: Codec, s: State, s': State, next: Uberblock, data: Bytes)
    requires Inv(c, s) && s.phase == Sealed(next) && |s.disk.cur| >= 2
    requires Fits(next) && (data == Marshal(c.hash, next) || Parse(c.hash, data).Err?)
    requires s' == s.(disk := WriteTo(s.disk, Slot(next), data), phase := s'.phase)
    ensures Durable(c, s') && Volatile(c, s') && Deferral(s') && InFlight(c, s', next)
  {
    hide Durable, Volatile, Deferral, NextOk, HasBody, Parse, Marshal;
    SlotWriteSpares(c, s, next);
    NextSame(s, s', next);
    DurableWrite(c, s, s', Slot(next), data);
    VolatileWrite(c, s, s', Slot(next), data);
    DeferralSame(s, s');
  }

  lemma UberPutKeeps(c: Codec, s: State, s': State)
    requires Inv(c, s) && NextUberPut(c, s, s')
    ensures Inv(c, s')
  {
    hide Durable, Volatile, Deferral, InFlight, Marshal;
    SlotWriteKeeps(c, s, s', s.phase.next, Marshal(c.hash, s.phase.next));
  }

  lemma UberFailKeeps(c: Codec, s: State, s': State, data: Bytes)
    requires Inv(c, s) && NextUberFail(c, s, s', data)
    ensures Inv(c, s')
  {
    hide Durable, Volatile, Deferral, InFlight, Marshal, Parse;
    SlotWriteKeeps(c, s, s', s.phase.next, data);
  }

  lemma CurIsCrashImage(c: Codec, s: State)
    requires DiskOk(s.disk, s.ub.totalBlocks) && s.phase.Flipped? && InFlight(c, s, s.phase.next)
    requires |s.disk.cur| >= 2 && s.disk.cur[Slot(s.phase.next)] == Marshal(c.hash, s.phase.next)
    ensures |s.disk.cur| == |s.disk.durable|
    ensures forall n :: 0 <= n < |s.disk.cur| && n != Slot(s.phase.next) ==> s.disk.cur[n] == s.disk.durable[n]
  {
    hide HasBody, NextOk, Parse, Marshal;
  }

  lemma CommitEndDurable(c: Codec, s: State, s': State, bm: Alloc.Words)
    requires Inv(c, s) && NextCommitEnd(s, s', bm)
    ensures Durable(c, s')
  {
    hide SnapOk, Persisted, Beaten, Volatile, Deferral, Marshal, InFlight, Spared, Parse;
    CurIsCrashImage(c, s);
    NextLanded(c, s, s.phase.next, s.disk.cur);
    NextUberShape(c, s, s.phase.next);
    FlightIsSnap(c, s, s.phase.next);
  }

  lemma NextUberShape(c: Codec, s: State, next: Uberblock)
    requires InFlight(c, s, next)
    ensures next.totalBlocks == s.ub.totalBlocks
  {
    hide HasBody, Parse, Marshal;
  }

  /** Applying the deferred frees touches no live cluster. */
  lemma CommitEndPins(c: Codec, s: State, bm: Alloc.Words)
    requires Volatile(c, s) && Deferral(s) && Alloc.Applied(s.meta.bm, bm, s.deferred)
    ensures Pinned(bm, s.meta.ddt) && forall i :: 0 <= i < s.ub.dataStart ==> Alloc.Used(bm, i)
  {
    hide Readable, OneOwner, Geometry, MetaOk, Alloc.InRanges;
    forall k, i | InEntry(s.meta.ddt, k, i) ensures Alloc.Used(bm, i) {
      assert Alloc.Used(s.meta.bm, i);
    }
    forall i | 0 <= i < s.ub.dataStart ensures Alloc.Used(bm, i) {
      assert Alloc.Used(s.meta.bm, i);
    }
  }

  lemma CommitEndVolatile(c: Codec, s: State, s': State, bm: Alloc.Words)
    requires Inv(c, s) && NextCommitEnd(s, s', bm)
    ensures Volatile(c, s')
  {
    hide Durable, Deferral, Readable, HasBody, Marshal, Parse, Alloc.InRanges, Pinned, OneOwner, Alloc.Used, Geometry,
      EntryOk;
    NextIsSnap(c, s, s.phase.next);
    CommitEndPins(c, s, bm);
  }

  lemma CommitEndKeeps(c: Codec, s: State, s': State, bm: Alloc.Words)
    requires Inv(c, s) && NextCommitEnd(s, s', bm)
    ensures Inv(c, s')
  {
    hide Durable, Volatile, InFlight, Marshal, Alloc.Applied;
    CommitEndDurable(c, s, s', bm);
    CommitEndVolatile(c, s, s', bm);
  }

  lemma InFlightSame(c: Codec, s: State, s': State, next: Uberblock)
    requires InFlight(c, s, next) && s'.disk == s.disk && s'.meta == s.meta && s'.plain == s.plain && s'.ub == s.ub
    ensures InFlight(c, s', next)
  {
    hide HasBody, NextOk, Parse, Marshal;
    NextSame(s, s', next);
  }

  lemma EndKeeps(c: Codec, s: State, s': State)
    requires Inv(c, s) && (NextSyncFail(s, s') || NextStop(s, s'))
    ensures Inv(c, s')
  {
    hide Durable, Volatile, Deferral, StoringOk, SnappingOk, InFlight, Marshal;
    if s.phase.Flipped? { InFlightSame(c, s, s', s.phase.next); }
    DurableSame(c, s, s');
    VolatileSame(c, s, s');
    DeferralSame(s, s');
  }

  lemma CrashKeeps(c: Codec, s: State, s': State, img: Image)
    requires Inv(c, s) && NextCrash(c, s, s', img)
    ensures Inv(c, s')
  {
    hide Parse, ReadRef, Load, Marshal, Alloc.Used, Mount;
    var sn := CrashRecovers(c, s, img);
    assert ReadAll(c, img, sn.meta.ddt) == sn.plain;
  }

  lemma StepKeeps(c: Codec, s: State, s': State, step: Step)
    requires Inv(c, s) && Next(c, s, s', step)
    ensures Inv(c, s')
  {
    hide Inv;
    match step {
      case Hit(k) => HitKeeps(c, s, s', k);
      case Begin(text, packed, start, bm) => BeginKeeps(c, s, s', text, packed, start, bm);
      case Put => PutKeeps(c, s, s');
      case PutFail(data, bm) => PutFailKeeps(c, s, s', data, bm);
      case Finish => FinishKeeps(c, s, s');
      case Drop(k) => DropKeeps(c, s, s', k);
      case Touch(tbl, nextInode) => TouchKeeps(c, s, s', tbl, nextInode);
      case CommitBegin(order, buf) => CommitBeginKeeps(c, s, s', order, buf);
      case MetaPut => MetaPutKeeps(c, s, s');
      case MetaSync => MetaSyncKeeps(c, s, s');
      case UberPut => UberPutKeeps(c, s, s');
      case CommitEnd(bm) => CommitEndKeeps(c, s, s', bm);
      case MetaFail(data) => MetaFailKeeps(c, s, s', data);
      case UberFail(data) => UberFailKeeps(c, s, s', data);
      case SyncFail => EndKeeps(c, s, s');
      case Stop => EndKeeps(c, s, s');
      case Crash(img) => CrashKeeps(c, s, s', img);
    }
  }

  // ----- exact space accounting -----

  ghost predicate Live(m: Dedup.Map, i: nat) { exists k :: InEntry(m, k, i) }

  ghost predicate BeingStored(p: Phase, i: nat) {
    p.Storing? && Alloc.InRun(i, p.start, Clusters(|p.packed.payload|))
  }

  /** A cluster is set exactly when something accounts for it; a leaked one has no other owner. */
  ghost predicate Accounted(s: State) {
    && (forall i :: 0 <= i < s.ub.totalBlocks ==>
          (Alloc.Used(s.meta.bm, i) <==>
             i < s.ub.dataStart || Live(s.meta.ddt, i) || Alloc.InRanges(i, s.deferred)
             || i in s.leaked || BeingStored(s.phase, i)))
    && (forall i :: i in s.leaked ==>
          s.ub.dataStart <= i && !Live(s.meta.ddt, i) && !Alloc.InRanges(i, s.deferred) && !BeingStored(s.phase, i))
  }

  lemma AccountedSame(s: State, s': State)
    requires Accounted(s) && s'.meta.bm == s.meta.bm && s'.deferred == s.deferred && s'.leaked == s.leaked
    requires s'.ub.totalBlocks == s.ub.totalBlocks && s'.ub.dataStart == s.ub.dataStart
    requires forall i :: Live(s'.meta.ddt, i) == Live(s.meta.ddt, i)
    requires forall i :: BeingStored(s'.phase, i) == BeingStored(s.phase, i)
    ensures Accounted(s')
  {
    hide Alloc.Used, Live, BeingStored, Alloc.InRanges;
  }

  lemma LiveSame(m: Dedup.Map, m': Dedup.Map)
    requires forall k, i :: InEntry(m', k, i) == InEntry(m, k, i)
    ensures forall i :: Live(m', i) == Live(m, i)
  {
    hide InEntry;
  }

  lemma BeginAccounts(c: Codec, s: State, s': State, text: Bytes, packed: Packed, start: nat, bm: Alloc.Words)
    requires Inv(c, s) && Accounted(s) && NextBegin(c, s, s', text, packed, start, bm)
    ensures Accounted(s')
  {
    hide Durable, Readable, Deferral, Pack, Clusters, Live, Alloc.InRanges;
    var n := Clusters(|packed.payload|);
    forall i ensures BeingStored(s'.phase, i) == Alloc.InRun(i, start, n) && !BeingStored(s.phase, i) {}
    assert forall i :: Alloc.InRun(i, start, n) ==> !Alloc.Used(s.meta.bm, i);
  }

  lemma PutFailAccounts(c: Codec, s: State, s': State, data: Bytes, bm: Alloc.Words)
    requires Inv(c, s) && Accounted(s) && NextPutFail(s, s', data, bm)
    ensures Accounted(s')
  {
    hide Durable, Readable, Deferral, Pack, Clusters, Stands, Alloc.InRanges, Pinned, OneOwner, EntryOk;
    var start, n := s.phase.start, Clusters(|s.phase.packed.payload|);
    forall i | Alloc.InRun(i, start, n)
      ensures s.ub.dataStart <= i && !Live(s.meta.ddt, i) && !Alloc.InRanges(i, s.deferred) && i !in s.leaked
    {
      ExclusiveAt(s, start, n, i);
      assert BeingStored(s.phase, i);
    }
  }

  lemma FinishLive(c: Codec, s: State, s': State)
    requires Inv(c, s) && NextFinish(c, s, s')
    ensures forall i :: Live(s'.meta.ddt, i) == (Live(s.meta.ddt, i) || BeingStored(s.phase, i))
  {
    hide Durable, Volatile, Deferral, Pack, Clusters, Stands, Exclusive;
    var h := c.hash(s.phase.text);
    forall i ensures Live(s'.meta.ddt, i) == (Live(s.meta.ddt, i) || BeingStored(s.phase, i)) {
      if Live(s.meta.ddt, i) {
        var k :| InEntry(s.meta.ddt, k, i);
        assert InEntry(s'.meta.ddt, k, i);
      }
      if BeingStored(s.phase, i) {
        assert InEntry(s'.meta.ddt, h, i);
      }
      if Live(s'.meta.ddt, i) {
        var k :| InEntry(s'.meta.ddt, k, i);
        assert k == h || InEntry(s.meta.ddt, k, i);
      }
    }
  }

  lemma FinishAccounts(c: Codec, s: State, s': State)
    requires Inv(c, s) && Accounted(s) && NextFinish(c, s, s')
    ensures Accounted(s')
  {
    hide Inv, Alloc.Used, Live, Alloc.InRanges, Clusters, Alloc.InRun;
    FinishLive(c, s, s');
  }

  lemma DropLastLive(c: Codec, s: State, s': State, k: Key)
    requires Volatile(c, s) && NextDrop(s, s', k) && s.meta.ddt[k].refs == 1
    ensures forall i :: Live(s.meta.ddt, i) == (Live(s'.meta.ddt, i) || InEntry(s.meta.ddt, k, i))
  {
    hide Readable, Pinned, MetaOk, Geometry;
    forall i ensures Live(s.meta.ddt, i) == (Live(s'.meta.ddt, i) || InEntry(s.meta.ddt, k, i)) {
      if Live(s.meta.ddt, i) {
        var j :| InEntry(s.meta.ddt, j, i);
        assert j == k || InEntry(s'.meta.ddt, j, i);
      }
      if Live(s'.meta.ddt, i) {
        var j :| InEntry(s'.meta.ddt, j, i);
        assert InEntry(s.meta.ddt, j, i);
      }
    }
  }

  lemma DropAccounts(c: Codec, s: State, s': State, k: Key)
    requires Volatile(c, s) && Accounted(s) && NextDrop(s, s', k)
    ensures Accounted(s')
  {
    hide Volatile, Alloc.Used, Live, Alloc.InRanges, InEntry, BeingStored;
    if s.meta.ddt[k].refs > 1 {
      SameRanges(s.meta.ddt, s'.meta.ddt);
      LiveSame(s.meta.ddt, s'.meta.ddt);
      AccountedSame(s, s');
    } else {
      DropLastLive(c, s, s', k);
      DropLastRanges(s, s', k);
      assert forall i :: BeingStored(s'.phase, i) == BeingStored(s.phase, i);
    }
  }

  lemma DeferredNotLive(s: State)
    requires Deferral(s)
    ensures forall i :: Alloc.InRanges(i, s.deferred) ==> s.ub.dataStart <= i && !Live(s.meta.ddt, i)
  {
    hide Alloc.InRanges, InEntry, Alloc.Used;
  }

  lemma CommitEndAccounts(c: Codec, s: State, s': State, bm: Alloc.Words)
    requires Inv(c, s) && Accounted(s) && NextCommitEnd(s, s', bm)
    ensures Accounted(s')
  {
    hide Durable, Volatile, Deferral, HasBody, Marshal, Parse, Live, Alloc.Used, Describes;
    DeferredNotLive(s);
    forall i ensures !Alloc.InRanges(i, s'.deferred) && !BeingStored(s.phase, i) && !BeingStored(s'.phase, i) {}
    assert forall i :: 0 <= i < s.meta.bm.total ==>
      Alloc.Used(bm, i) == (Alloc.Used(s.meta.bm, i) && !Alloc.InRanges(i, s.deferred));
    TotalIs(c, s);
  }

  lemma TotalIs(c: Codec, s: State)
    requires Volatile(c, s)
    ensures s.meta.bm.total == s.ub.totalBlocks
  {
    hide Readable, Pinned, OneOwner, MetaOk, Geometry;
  }

  lemma CrashAccounts(c: Codec, s: State, s': State, img: Image)
    requires Inv(c, s) && NextCrash(c, s, s', img)
    ensures Accounted(s')
  {
    hide Inv, Mount, ReadAll, CrashImage;
    CrashKeeps(c, s, s', img);
    CrashTotals(c, s');
    forall i ensures !Alloc.InRanges(i, s'.deferred) && !BeingStored(s'.phase, i) {}
    forall i: nat ensures Owned(s'.meta, s'.ub, i) == (i < s'.ub.dataStart || Live(s'.meta.ddt, i)) {}
  }

  lemma CrashTotals(c: Codec, s: State)
    requires Inv(c, s)
    ensures s.meta.bm.total == s.ub.totalBlocks
    ensures forall i :: 0 <= i < s.ub.dataStart ==> Alloc.Used(s.meta.bm, i)
    ensures forall i :: Live(s.meta.ddt, i) ==> Alloc.Used(s.meta.bm, i)
  {
    hide Durable, Deferral, PhaseOk, Readable, OneOwner, MetaOk, Geometry, Alloc.Used;
  }

  /** The remaining steps change neither the bitmap nor who owns what. */
  lemma QuietStored(c: Codec, s: State, s': State, step: Step)
    requires Next(c, s, s', step)
    requires !step.Begin? && !step.PutFail? && !step.Finish? && !step.Drop? && !step.CommitEnd? && !step.Crash?
              && !step.Hit?
    ensures s'.meta.bm == s.meta.bm && s'.meta.ddt == s.meta.ddt && s'.deferred == s.deferred && s'.leaked == s.leaked
    ensures s'.ub.totalBlocks == s.ub.totalBlocks && s'.ub.dataStart == s.ub.dataStart
    ensures forall i :: BeingStored(s'.phase, i) == BeingStored(s.phase, i)
  {
    hide Carries, Dedup.Enumerates, MetaOk, Parse, Marshal, Cluster, Slice, Clusters, Alloc.InRun, Inodes.WellFormed,
      WriteTo;
  }

  /** No step loses a cluster: after every step each set bit is accounted for, and each accounted cluster is set. */
  lemma StepAccounts(c: Codec, s: State, s': State, step: Step)
    requires Inv(c, s) && Accounted(s) && Next(c, s, s', step)
    ensures Accounted(s')
  {
    hide Durable, Volatile, Deferral, PhaseOk, Accounted, Live, BeingStored, CrashImage, Mount, ReadAll, Carries,
      Dedup.Enumerates, MetaOk, Parse, Marshal, Cluster, Slice, Alloc.Marked, Alloc.Cleared, Alloc.Applied,
      Alloc.FreeRun, Pack;
    match step {
      case Begin(text, packed, start, bm) => BeginAccounts(c, s, s', text, packed, start, bm);
      case PutFail(data, bm) => PutFailAccounts(c, s, s', data, bm);
      case Finish => FinishAccounts(c, s, s');
      case Drop(k) => DropAccounts(c, s, s', k);
      case CommitEnd(bm) => CommitEndAccounts(c, s, s', bm);
      case Crash(img) => CrashAccounts(c, s, s', img);
      case Hit(k) =>
        SameRanges(s.meta.ddt, s'.meta.ddt);
        LiveSame(s.meta.ddt, s'.meta.ddt);
        AccountedSame(s, s');
      case _ =>
        QuietStored(c, s, s', step);
        AccountedSame(s, s');
    }
  }

  // ----- whole runs -----

  /** Successive states of a run: each follows from the one before by some step. */
  ghost predicate IsRun(c: Codec, run: seq<State>) {
    |run| > 0 && forall i :: 0 <= i < |run| - 1 ==> Steps(c, run[i], run[i + 1])
  }

  ghost predicate Steps(c: Codec, s: State, s': State) { exists step :: Next(c, s, s', step) }

  ghost predicate Start(c: Codec, s: State) { Inv(c, s) && Accounted(s) }

  lemma {:induction false} RunKeeps(c: Codec, run: seq<State>, n: nat)
    requires IsRun(c, run) && Start(c, run[0]) && n < |run|
    ensures Start(c, run[n])
  {
    hide Inv, Accounted, Next;
    if n > 0 {
      RunKeeps(c, run, n - 1);
      assert Steps(c, run[n - 1], run[n - 1 + 1]);
      var step :| Next(c, run[n - 1], run[n], step);
      StepKeeps(c, run[n - 1], run[n], step);
      StepAccounts(c, run[n - 1], run[n], step);
    }
  }

  /**
   Crash safety over whole runs. Take any run of stores, releases, commits, failures, crashes and mounts. Whatever
   image a power failure leaves at any point of it, a mount succeeds and returns exactly the bitmap, dedup table and
   inode table of the last completed commit, or of the one whose uberblock was being written; every entry of that
   dedup table reads back the text it stood for; and the filesystem can go on from there.
   */
  lemma CrashSafety(c: Codec, run: seq<State>, n: nat, img: Image) returns (sn: Snap)
    requires IsRun(c, run) && Start(c, run[0]) && n < |run| && CrashImage(c, run[n].disk, img)
    ensures Candidate(run[n], sn) && Mount(c.hash, img) == Ok((sn.ub, sn.meta))
    ensures sn.plain.Keys == sn.meta.ddt.Keys && Readable(c, img, sn.meta.ddt, sn.plain)
    ensures ReadAll(c, img, sn.meta.ddt) == sn.plain
    ensures exists s' :: NextCrash(c, run[n], s', img) && s'.meta == sn.meta && s'.plain == sn.plain && Start(c, s')
  {
    hide Inv, Accounted, Mount, CrashImage, ReadRef, Persisted, Beaten;
    RunKeeps(c, run, n);
    sn := CrashRecovers(c, run[n], img);
    assert ReadAll(c, img, sn.meta.ddt) == sn.plain;
    var s' := State(Disk(img, img, map[]), sn.meta, [], sn.ub, sn.plain, Snap(sn.ub, sn.meta, sn.plain), Idle,
      Unowned(sn.meta, sn.ub));
    assert NextCrash(c, run[n], s', img);
    CrashKeeps(c, run[n], s', img);
    CrashAccounts(c, run[n], s', img);
  }

  /** A state whose uberblock is being written. */
  ghost predicate Flipping(s: State) { s.phase.Flipped? || s.phase.DeadFlip? }

  /** The run went on without a commit: whatever the point, a crash leads to the commit that was last before. */
  ghost predicate Unflipped(run: seq<State>, run': seq<State>) {
    && |run| > 0 && run <= run'
    && forall n :: |run| <= n < |run'| ==> run'[n].base == run[|run| - 1].base && !Flipping(run'[n])
  }

  /** The run went on, and whatever the point a crash leads to the commit that was last before, or to `v`. */
  ghost predicate Leads(run: seq<State>, run': seq<State>, v: View, nextInode: nat) {
    && |run| > 0 && run <= run'
    && forall n, sn :: |run| <= n < |run'| && Candidate(run'[n], sn) ==>
         sn == run[|run| - 1].base || (SnapView(sn) == v && sn.ub.nextInode == nextInode)
  }

  lemma UnflippedTwice(a: seq<State>, b: seq<State>, c: seq<State>)
    requires Unflipped(a, b) && Unflipped(b, c)
    ensures Unflipped(a, c)
  {
    assert b[|b| - 1].base == a[|a| - 1].base;
  }

  lemma UnflippedLeads(a: seq<State>, b: seq<State>, v: View, nextInode: nat)
    requires Unflipped(a, b)
    ensures Leads(a, b, v, nextInode)
  {}

  lemma LeadsTwice(a: seq<State>, b: seq<State>, c: seq<State>, v: View, nextInode: nat)
    requires Leads(a, b, v, nextInode) && Leads(b, c, v, nextInode)
    ensures Leads(a, c, v, nextInode)
  {
    if |b| > |a| { assert Candidate(b[|b| - 1], b[|b| - 1].base); }
  }

  lemma LeadsOne(run: seq<State>, s: State, v: View, nextInode: nat)
    requires |run| > 0
    requires s.base == run[|run| - 1].base || (SnapView(s.base) == v && s.base.ub.nextInode == nextInode)
    requires Flipping(s) ==> Memory(s) == v && s.phase.next.nextInode == nextInode
    ensures Leads(run, run + [s], v, nextInode)
  {}

  /** The last completed commit is either the one the run started from, or what memory held when some commit flipped. */
  lemma {:induction false} BaseWasCommitted(c: Codec, run: seq<State>, n: nat)
    requires IsRun(c, run) && Start(c, run[0]) && n < |run|
    ensures run[n].base == run[0].base
      || exists i :: 0 <= i < n && Flipping(run[i]) && run[n].base == Snap(run[i].phase.next, run[i].meta, run[i].plain)
  {
    hide Inv, Accounted, NextHit, NextBegin, NextPut, NextPutFail, NextFinish, NextDrop, NextTouch, NextCommitBegin,
      NextMetaPut, NextMetaSync, NextUberPut, NextCommitEnd, NextMetaFail, NextUberFail, NextSyncFail, NextStop,
      NextCrash;
    if n > 0 {
      BaseWasCommitted(c, run, n - 1);
      RunKeeps(c, run, n - 1);
      assert Steps(c, run[n - 1], run[n - 1 + 1]);
      var step :| Next(c, run[n - 1], run[n], step);
      BaseMoves(c, run[n - 1], run[n], step);
    }
  }

  lemma BaseMoves(c: Codec, s: State, s': State, step: Step)
    requires Inv(c, s) && Next(c, s, s', step)
    ensures s'.base == s.base || (Flipping(s) && s'.base == Snap(s.phase.next, s.meta, s.plain))
  {
    hide Inv, CrashImage, Mount, ReadRef, Carries, Dedup.Enumerates, MetaOk, Parse, Marshal, Cluster, Slice, Clusters,
      Inodes.WellFormed, WriteTo, Persisted, Beaten, SnapOk;
    if step.Crash? {
      var sn := CrashRecovers(c, s, step.img);
      SnapKeys(c, s, step.img, sn);
      assert ReadAll(c, step.img, sn.meta.ddt) == sn.plain;
    }
  }

  lemma SnapKeys(c: Codec, s: State, img: Image, sn: Snap)
    requires FullyRecovered(c, s, img, sn)
    ensures sn.plain.Keys == sn.meta.ddt.Keys
  {
    hide Persisted, Beaten, Recovered, Geometry, MetaOk, OneOwner, Pinned;
  }

  // ----- what clients commit -----

  /** Every commit of the run recorded a view its client calls good. */
  ghost predicate Good(good: View -> bool, s: State) {
    good(SnapView(s.base)) && (Flipping(s) ==> good(Memory(s)))
  }

  ghost predicate GoodRun(good: View -> bool, run: seq<State>) {
    forall i :: 0 <= i < |run| ==> Good(good, run[i])
  }

  lemma CandidateGood(c: Codec, good: View -> bool, s: State, sn: Snap)
    requires Good(good, s) && Candidate(s, sn)
    ensures good(SnapView(sn))
  {}

  lemma CrashGood(c: Codec, good: View -> bool, s: State, s': State, img: Image)
    requires Inv(c, s) && Good(good, s) && NextCrash(c, s, s', img)
    ensures Good(good, s')
  {
    hide Inv, CrashImage, Mount, ReadRef, Persisted, Beaten, SnapOk;
    var sn := CrashRecovers(c, s, img);
    SnapKeys(c, s, img, sn);
    assert ReadAll(c, img, sn.meta.ddt) == sn.plain;
    CandidateGood(c, good, s, sn);
  }

  /** Whatever its clients keep true of every view they commit is true of what any crash leads to. */
  lemma GoodSurvives(c: Codec, good: View -> bool, run: seq<State>, n: nat, img: Image) returns (sn: Snap)
    requires IsRun(c, run) && Start(c, run[0]) && GoodRun(good, run) && n < |run| && CrashImage(c, run[n].disk, img)
    ensures Mount(c.hash, img) == Ok((sn.ub, sn.meta)) && ReadAll(c, img, sn.meta.ddt) == sn.plain
    ensures Candidate(run[n], sn) && good(SnapView(sn))
  {
    hide Inv, Accounted, IsRun, CrashImage, Mount, ReadAll, Readable, Start, Candidate, Good;
    sn := CrashSafety(c, run, n, img);
    CandidateGood(c, good, run[n], sn);
  }
}
