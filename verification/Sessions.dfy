/** Whole sessions over the files: from format, through any calls and commits, across power failures and mounts. */
module FileSessions {
  import opened Bytes
  import opened Store
  import opened Records
  import opened Inodes
  import opened FileView
  import opened Volumes
  import opened Files
  import Alloc
  import Machine
  import Dedup
  import Snapshot
  import Uber

  /**
   `Page`, `Fill` and `Put` are what the namespace does to an inode of any kind: its pages, its link text, its
   attributes.
   */
  datatype Call =
    | Write(id: nat, off: nat, data: Bytes)
    | Replace(id: nat, data: Bytes)
    | Resize(id: nat, size: nat)
    | Read(id: nat, off: nat, length: nat)
    | Page(id: nat, off: nat, data: Bytes)
    | Fill(id: nat, data: Bytes)
    | Put(id: nat, inode: Inode)
    | Reclaim(id: nat)
    | Sync

  datatype Reply = Fine(bytes: Bytes) | Failed(error: FsError) | SyncFailed(why: CommitError) | TooWide

  /**
   The data of `id` read `b`; what the namespace keeps of it, every other inode, and the surplus of every count are
   unchanged.
   */
  ghost predicate DataBecomes(v: View, v': View, id: nat, b: Bytes) {
    && id < |v.inodes| == |v'.inodes| && FileBytes(v', id) == b && OthersSame(v, v', id) && SameSurplus(v, v')
    && v'.inodes[id].kind == v.inodes[id].kind && v'.inodes[id].nlink == v.inodes[id].nlink
    && v'.inodes[id].generation == v.inodes[id].generation
  }

  /** The attributes of one inode with the data of another. */
  function WithData(x: Inode, i: Inode): Inode {
    x.(size := i.size, flags := i.flags, recordSizeLog2 := i.recordSizeLog2, blockMap := i.blockMap)
  }

  /** What a call that succeeds does. */
  ghost predicate Effect(v: View, call: Call, v': View, b: Bytes) {
    match call
    case Write(id, off, data) =>
      IsRegular(v, id) && if data == [] then v' == v else FileBecomes(v, v', id, Splice(FileBytes(v, id), off, data))
    case Replace(id, data) => FileBecomes(v, v', id, data)
    case Resize(id, size) =>
      IsRegular(v, id) && if size == v.inodes[id].size then v' == v
        else FileBecomes(v, v', id, Records.Resize(FileBytes(v, id), size))
    case Read(id, off, length) => v' == v && IsRegular(v, id) && b == SliceOf(FileBytes(v, id), off, length)
    case Page(id, off, data) =>
      id < |v.inodes| && if data == [] then v' == v else DataBecomes(v, v', id, Splice(FileBytes(v, id), off, data))
    case Fill(id, data) => DataBecomes(v, v', id, data)
    case Put(id, x) => id < |v.inodes| && Replaced(v, v', id, WithData(x, v.inodes[id])) && FileBytes(v',
      id) == FileBytes(v, id)
    case Reclaim(id) =>
      id < |v.inodes| && Replaced(v, v', id, Blank().(generation := (v.inodes[id].generation + 1) % U32))
        && FileBytes(v', id) == []
    case Sync => v' == v
  }

  /** An operation that changes data ended in an error of the device or of the allocator. */
  predicate Lossy(call: Call, r: Reply) { r.Failed? && r.error.Io? && !call.Read? && !call.Reclaim? && !call.Sync? }

  /** The run is over. */
  predicate Ends(r: Reply) { r == Failed(Io(Ended)) || r == SyncFailed(CommitEnded) }

  /** The new sizes stay within the widths of their fields. */
  predicate CallFits(inodes: seq<Inode>, call: Call) {
    match call
    case Write(id, off, data) => id < |inodes| && data != [] ==> WriteFits(inodes[id], off, |data|)
    case Replace(_, data) => BlobFits(data)
    case Resize(_, size) => SizeFits(size)
    case Page(id, off, data) => id < |inodes| && data != [] ==> WriteFits(inodes[id], off, |data|)
    case Fill(_, data) => BlobFits(data)
    case Put(_, x) => Fits(x)
    case _ => true
  }

  /** The call leaves its file below 256 GiB. */
  ghost predicate Small(v: View, call: Call) {
    match call
    case Write(id, off, data) => id < |v.inodes| ==> Max(v.inodes[id].size, off + |data|) < SMALL
    case Replace(_, data) => |data| < SMALL
    case Resize(_, size) => size < SMALL
    case Page(id, off, data) => id < |v.inodes| ==> Max(v.inodes[id].size, off + |data|) < SMALL
    case Fill(_, data) => |data| < SMALL
    case Put(_, x) => Fits(x)
    case _ => true
  }

  /** Small calls are never skipped. */
  lemma SmallCalls(v: View, call: Call)
    requires Small(v, call) && FsOk(v)
    ensures CallFits(v.inodes, call)
  {
    hide WriteFits, SizeFits, DataOk, Covered, Fits;
    match call
    case Write(id, off, data) => if id < |v.inodes| { SmallWrites(v.inodes[id], v, off, |data|); }
    case Replace(_, data) => SmallFits(|data|);
    case Resize(_, size) => SmallFits(size);
    case Page(id, off, data) => if id < |v.inodes| { SmallWrites(v.inodes[id], v, off, |data|); }
    case Fill(_, data) => SmallFits(|data|);
    case _ =>
  }

  /** What one call of a session does to the view. */
  ghost predicate StepOf(v: View, call: Call, r: Reply, v': View) {
    if r.Fine? then Effect(v, call, v', r.bytes)
    else if r.TooWide? then v' == v
    else OnlyLeaked(v, v') && (!Lossy(call, r) ==> v' == v)
  }

  /** Refs in the block map a call stores. */
  ghost function CallRecords(inodes: seq<Inode>, call: Call): nat {
    match call
    case Write(id, off, data) => if id < |inodes| then WriteCount(inodes[id], off, |data|) else 0
    case Page(id, off, data) => if id < |inodes| then WriteCount(inodes[id], off, |data|) else 0
    case Replace(_, data) => BlobCount(|data|)
    case Fill(_, data) => BlobCount(|data|)
    case Resize(_, size) => BlobCount(size)
    case _ => 0
  }

  /** What is wrong with the id of a call, if anything. */
  ghost function Misfit(v: View, call: Call): Option<FsError> {
    match call
    case Write(id, _, _) => if IsRegular(v, id) then None else Some(NotThere(v, id))
    case Replace(id, _) => if IsRegular(v, id) then None else Some(NotThere(v, id))
    case Resize(id, _) => if IsRegular(v, id) then None else Some(NotThere(v, id))
    case Read(id, _, _) => if IsRegular(v, id) then None else Some(NotThere(v, id))
    case Page(id, _, _) => if id < |v.inodes| then None else Some(NoInode)
    case Fill(id, _) => if id < |v.inodes| then None else Some(NoInode)
    case Put(id, _) => if id < |v.inodes| then None else Some(NoInode)
    case Reclaim(id) => if id < |v.inodes| then None else Some(NoInode)
    case Sync => None
  }

  /**
   A call made in state `s` that fails in state `s'` has a reason: the id is not what the call needs, a store error has
   its cause, or a commit fails because the metadata does not fit, the sequence number is at its limit, or the device
   failed. A call is not made only if it would outgrow its fields.
   */
  ghost predicate Explained(c: Codec, reliable: bool, s: Machine.State, s': Machine.State, call: Call, r: Reply) {
    match r
    case Fine(_) => true
    case Failed(e) =>
      if e.Io? then Cause(c, reliable, s', e.error, Most(CallRecords(s.meta.tbl.inodes, call)))
      else Misfit(Machine.Memory(s), call) == Some(e)
    case SyncFailed(e) =>
      if e.MetaTooBig? then s.ub.seqNo + 1 < U64 && Snapshot.SavedLen(s.meta) > s.ub.metaBlocks * BLK
      else !reliable || s.ub.seqNo + 1 >= U64
    case TooWide => !CallFits(s.meta.tbl.inodes, call)
  }

  /** The commit holds the view and the next free id. */
  ghost predicate Saved(sn: Machine.Snap, v: View, nextInode: nat) {
    Machine.SnapView(sn) == v && sn.ub.nextInode == nextInode
  }

  /** One call. An error leaves every file as it was, and only a lossy one can leave counts behind. */
  method Serve(f: Files, call: Call, now: nat) returns (r: Reply)
    requires f.Valid() && now < U64 && CallFits(f.V().inodes, call)
    modifies f.vol`s, f.vol`trace, f.vol`ub, f.vol.dev, f.vol.bm, f.vol.bm.bits, f.vol.ddt, f.vol.scratch, f.vol.tbl
    ensures f.Sound() && old(f.vol.trace) <= f.vol.trace && (!Ends(r) ==> f.Valid())
    ensures !r.TooWide? && StepOf(old(f.V()), call, r, f.V())
    ensures Explained(f.vol.codec, f.vol.dev.reliable, old(f.vol.s), f.vol.s, call, r)
    ensures call.Sync? ==>
              if r.Fine? then Saved(f.vol.s.base, f.V(), old(f.vol.s.ub.nextInode))
              else f.vol.s.base == old(f.vol.s.base)
    ensures call.Sync? ==> Machine.Leads(old(f.vol.trace), f.vol.trace, f.V(), old(f.vol.s.ub.nextInode))
    ensures call.Sync? && r.Fine? ==> !Machine.Unflipped(old(f.vol.trace), f.vol.trace)
    ensures !call.Sync? ==> Steady(old(f.P()), f.P())
    ensures f.vol.s.ub.nextInode == old(f.vol.s.ub.nextInode)
  {
    hide Files.Sound, FileBecomes, Splice, OnlyLeaked, WriteFits, SizeFits, Replaced, Content, GoodView, Cause,
      WriteCount, BlobCount;
    f.Quiet();
    LeakNothing(f.V());
    match call
    case Write(id, off, data) =>
      var w := f.WriteAt(id, off, data, now);
      return if w.Ok? then Fine([]) else Failed(w.error);
    case Replace(id, data) =>
      var w := f.WriteFile(id, data, now);
      return if w.Ok? then Fine([]) else Failed(w.error);
    case Resize(id, size) =>
      var w := f.Truncate(id, size, now);
      return if w.Ok? then Fine([]) else Failed(w.error);
    case Read(id, off, length) =>
      var b := f.ReadAt(id, off, length);
      if !f.vol.dev.reliable { f.ReadExcused(0); }
      return if b.Ok? then Fine(b.value) else Failed(b.error);
    case Page(id, off, data) =>
      r := ServeData(f, id, off, data, true, now);
    case Fill(id, data) =>
      r := ServeData(f, id, 0, data, false, now);
    case Put(id, x) =>
      r := ServePut(f, id, x);
    case Reclaim(id) =>
      r := ServeReclaim(f, id);
      if !f.vol.dev.reliable { f.ReadExcused(0); }
      assert r.Fine? || r.Failed?;
    case Sync =>
      var w := f.Fsync();
      assert w.Err? ==> w.error.MetaTooBig? || w.error.CommitEnded?;
      return if w.Ok? then Fine([]) else SyncFailed(w.error);
  }

  /** Splice into the data of an inode of any kind, or replace them. */
  method ServeData(f: Files, id: nat, off: nat, data: Bytes, splice: bool, now: nat) returns (r: Reply)
    requires f.Valid() && now < U64
    requires if splice then id < |f.V().inodes| && data != [] ==>
              WriteFits(f.V().inodes[id], off, |data|) else BlobFits(data)
    modifies f.vol`s, f.vol`trace, f.vol`ub, f.vol.dev, f.vol.bm, f.vol.bm.bits, f.vol.ddt, f.vol.scratch, f.vol.tbl
    ensures f.Sound() && old(f.vol.trace) <= f.vol.trace && (!Ends(r) ==> f.Valid()) && Steady(old(f.P()), f.P())
    ensures !r.TooWide? && StepOf(old(f.V()), if splice then Page(id, off, data) else Fill(id, data), r, f.V())
    ensures !r.SyncFailed? && Explained(f.vol.codec, f.vol.dev.reliable, old(f.vol.s), f.vol.s,
              if splice then Page(id, off, data) else Fill(id, data), r)
  {
    hide Files.Sound, Splice, OnlyLeaked, WriteFits, SizeFits, Replaced, Content, GoodView, InTable, Touched,
      OthersSame, SameSurplus, Cause, WriteCount, BlobCount;
    f.Quiet();
    LeakNothing(f.V());
    SameTable(f);
    if id >= |f.vol.tbl.slots.inodes| {
      return Failed(NoInode);
    }
    var i := f.vol.tbl.slots.inodes[id];
    ghost var v := f.V();
    SlotInTable(f.vol.codec, v, id) by { SoundGood(f); }
    if splice {
      var w := f.WriteAtLocked(id, i, off, data, now);
      if w.Err? {
        return Failed(Io(w.error));
      }
      if data != [] {
        ReplacedData(v, f.V(), id, i, w.value, now);
      }
    } else {
      var w := f.SetData(id, i, data, now);
      if w.Err? {
        return Failed(Io(w.error));
      }
      ReplacedData(v, f.V(), id, i, w.value, now);
    }
    return Fine([]);
  }

  lemma ReplacedData(v: View, v': View, id: nat, i: Inode, y: Inode, now: nat)
    requires id < |v.inodes| && i == v.inodes[id] && Replaced(v, v', id, y) && Touched(i, y, now)
    ensures DataBecomes(v, v', id, Content(y, v'.plain))
  {
    hide Content, SameSurplus, OthersSame;
  }

  /** Put the attributes of an inode, keeping its data. */
  method ServePut(f: Files, id: nat, x: Inode) returns (r: Reply)
    requires f.Valid() && Fits(x)
    modifies f.vol`s, f.vol`trace, f.vol.tbl
    ensures f.Valid() && old(f.vol.trace) <= f.vol.trace && SameBase(old(f.P()), f.P())
    ensures r.Fine? ==> Effect(old(f.V()), Put(id, x), f.V(), r.bytes)
    ensures !r.Fine? ==> r == Failed(NoInode) && id >= |f.V().inodes| && f.V() == old(f.V())
  {
    hide Files.Sound, Content, GoodView, OthersSame, SameSurplus, Keys, Fits;
    f.Quiet();
    SameTable(f);
    if id >= |f.vol.tbl.slots.inodes| {
      return Failed(NoInode);
    }
    ghost var v := f.V();
    var y := WithData(x, f.vol.tbl.slots.inodes[id]);
    WithDataFits(f.vol.codec, v, id, x) by { SoundGood(f); }
    SameDataKeys(y, v.inodes[id], v.plain);
    f.PutSlot(id, y);
    return Fine([]);
  }

  lemma WithDataFits(c: Codec, v: View, id: nat, x: Inode)
    requires GoodView(c, v) && id < |v.inodes| && Fits(x)
    ensures Fits(WithData(x, v.inodes[id]))
  {
    hide Consistent, AllTrusted, RecordsOk, Live;
  }

  method ServeReclaim(f: Files, id: nat) returns (r: Reply)
    requires f.Valid()
    modifies f.vol`s, f.vol`trace, f.vol.bm`deferred, f.vol.ddt, f.vol.tbl
    ensures f.Valid() && old(f.vol.trace) <= f.vol.trace && SameBase(old(f.P()), f.P())
    ensures r.Fine? ==> Effect(old(f.V()), Reclaim(id), f.V(), r.bytes)
    ensures !r.Fine? ==> r.Failed? && !Ends(r) && f.V() == old(f.V())
    ensures !r.Fine? ==>
              if id < |f.V().inodes| then r == Failed(Io(Block)) && !f.vol.dev.reliable else r == Failed(NoInode)
  {
    hide Machine.Inv, Machine.Accounted, Machine.IsRun, Machine.GoodRun, DataOk, Consistent, AllTrusted, Fits, Replaced,
      Content;
    f.Quiet();
    var i := f.vol.tbl.Get(id);
    if i.Err? {
      return Failed(NoInode);
    }
    DataFits(i.value, f.V());
    ghost var v := f.V();
    var w := f.ReclaimSlot(id, i.value);
    if w.Err? {
      return Failed(Io(w.error));
    }
    ReplacedAt(v, f.V(), id, w.value);
    return Fine([]);
  }

  // ----- sessions -----

  /** The views between the calls of a session. */
  ghost predicate IsSession(c: Codec, views: seq<View>, calls: seq<Call>, replies: seq<Reply>) {
    && |views| == |replies| + 1 && |replies| <= |calls| && (forall n :: 0 <= n < |views| ==> GoodView(c, views[n]))
    && forall n :: 0 <= n < |replies| ==> StepOf(views[n], calls[n], replies[n], views[n + 1])
  }

  ghost predicate Lossless(calls: seq<Call>, replies: seq<Reply>) {
    |replies| <= |calls| && forall n :: 0 <= n < |replies| ==> !Lossy(calls[n], replies[n])
  }

  lemma StepNone(v: View, call: Call)
    ensures StepOf(v, call, TooWide, v)
  {}

  lemma StepExact(v: View, call: Call, r: Reply, v': View)
    requires StepOf(v, call, r, v') && !Lossy(call, r) && Exact(v)
    ensures Exact(v')
  {
    hide Held, Content, OthersSame, Splice;
  }

  /**
   Reference counts over a whole session: every use is counted in every view, and while no call fails with a device or
   allocator error each count is exactly the number of its uses.
   */
  lemma {:induction false} SessionExact(c: Codec, views: seq<View>, calls: seq<Call>, replies: seq<Reply>, n: nat)
    requires IsSession(c, views, calls, replies) && n < |views| && Exact(views[0])
    requires forall i :: 0 <= i < n ==> !Lossy(calls[i], replies[i])
    ensures Exact(views[n])
    ensures forall id: nat, k :: id < |views[n].inodes| ==>
              Keys(views[n].inodes[id], views[n].plain)[k] <= Dedup.RefsOf(views[n].ddt, k)
  {
    hide Exact, StepOf, GoodView, Keys;
    if n > 0 {
      SessionExact(c, views, calls, replies, n - 1);
      assert StepOf(views[n - 1], calls[n - 1], replies[n - 1], views[n - 1 + 1]);
      StepExact(views[n - 1], calls[n - 1], replies[n - 1], views[n]);
    }
    forall id: nat, k | id < |views[n].inodes| ensures Keys(views[n].inodes[id],
      views[n].plain)[k] <= Dedup.RefsOf(views[n].ddt, k) {
      CoveredCounts(c, views[n], id, k);
    }
  }

  /** Every view a crash may lead to has exact counts. */
  ghost predicate ExactSurvivors(s: Machine.State) { forall v :: Survivor(s, v) ==> Exact(v) }

  /** Records stored for an inode not yet installed are counted too much: a commit taken then is not exact. */
  lemma HalfDoneNotExact(c: Codec, v: View, v': View, into: multiset<Key>)
    requires GoodView(c, v) && Exact(v) && GrownBy(v, v', into)
    ensures Exact(v') <==> into == multiset{}
  {
    hide Held, FsOk, Consistent, AllTrusted, SameBlock, Content, RefsOf;
    GrowKeeps(v, v');
    if Exact(v') {
      forall k ensures into[k] == 0 { assert Dedup.RefsOf(v'.ddt, k) == Dedup.RefsOf(v.ddt, k) + into[k]; }
    }
  }

  /** Cluster `x` is the only free one. */
  ghost predicate OnlyFree(w: Alloc.Words, x: nat) {
    x < w.total && forall i :: 0 <= i < w.total ==> (Alloc.Used(w, i) <==> i != x)
  }

  /** The block is new, and packs into one cluster. */
  ghost predicate NewCluster(c: Codec, ddt: Dedup.Map, text: Bytes) {
    && |text| < U32 && c.hash(text) !in ddt && c.compress(text).Some? && Clusters(PackedLen(c, text)) == 1
  }

  lemma LastTaken(c: Codec, s: Machine.State, s': Machine.State, x: nat, a: Bytes, b: Bytes)
    requires OnlyFree(s.meta.bm, x) && NewCluster(c, s.meta.ddt, a) && NewCluster(c, s'.meta.ddt, b)
    ensures !NoRoom(c, s, a)
    ensures Takes(c, s.meta.bm, s'.meta.bm, a) ==> NoRoom(c, s', b)
  {
    hide Alloc.Used, Clusters;
    assert Alloc.FreeRun(s.meta.bm, x, 1);
    if Takes(c, s.meta.bm, s'.meta.bm, a) {
      var start: nat :| Alloc.FreeRun(s.meta.bm, start, 1) && Alloc.Marked(s.meta.bm, s'.meta.bm, start, 1);
      assert start == x by { assert !Alloc.Used(s.meta.bm, start); }
      forall i | 0 <= i < s'.meta.bm.total ensures !Alloc.FreeRun(s'.meta.bm, i, 1) {
        assert Alloc.Used(s'.meta.bm, i);
      }
    }
  }

  /**
   An input on which a crash brings back counts that are too large: two new records to store, room for one, and frees
   pending. The first store takes the room; the second then finds none and commits, with the inode of the first not
   installed yet. What the commit holds is taken from `Volumes.Volume.WriteOrReclaim`.
   */
  lemma ForcedLeak(c: Codec, s: Machine.State, s1: Machine.State, s2: Machine.State, x: nat, a: Bytes, b: Bytes)
    requires CodecOk(c) && c.trusted(a) && GoodView(c, Machine.Memory(s)) && Consistent(Machine.Memory(s1))
    requires Exact(Machine.Memory(s)) && OnlyFree(s.meta.bm, x) && s.deferred != [] && c.hash(a) != c.hash(b)
    requires NewCluster(c, s.meta.ddt, a) && NewCluster(c, s.meta.ddt, b)
    requires Stored(c, s, s1, a)
    requires !Reclaims(c, s, a) ==> Takes(c, s.meta.bm, s1.meta.bm, a) && s1.deferred == s.deferred
    requires Reclaims(c, s1, b) ==> s2.base == Machine.Snap(s2.base.ub, s1.meta.(bm := s2.base.meta.bm), s1.plain)
    ensures !Reclaims(c, s, a) && Reclaims(c, s1, b) && !Exact(Machine.Memory(s1))
    ensures !Exact(Machine.SnapView(s2.base)) && !ExactSurvivors(s2)
  {
    hide Exact, OnlyFree, NoRoom, Takes, Clusters, GrownBy, ExactSurvivors, Stored, FsOk, AllTrusted, CodecOk,
      Consistent;
    var v, v1 := Machine.Memory(s), Machine.Memory(s1);
    StoredGrows(c, s, s1, a);
    StillNew(v, v1, c.hash(a), c.hash(b));
    LastTaken(c, s, s1, x, a, b);
    HalfDoneNotExact(c, v, v1, multiset{c.hash(a)});
    IdleSurvivors(s2);
  }

  lemma StillNew(v: View, v1: View, k: Key, h: Key)
    requires Consistent(v) && Consistent(v1) && GrownBy(v, v1, multiset{k}) && h != k && h !in v.ddt
    ensures h !in v1.ddt
  {
    hide SameBlock;
    assert Dedup.RefsOf(v1.ddt, h) == Dedup.RefsOf(v.ddt, h) + multiset{k}[h];
  }

  /**
   Whatever the point of the run since `run`, a crash leads to the commit that was last then, or to one of the views.
   */
  ghost predicate Lands(run: seq<Machine.State>, run': seq<Machine.State>, base: View, views: seq<View>) {
    && |run| > 0 && run <= run'
    && forall n, sn :: |run| <= n < |run'| && Machine.Candidate(run'[n], sn) ==>
         Machine.SnapView(sn) == base || Machine.SnapView(sn) in views
  }

  /** The same of a single state. */
  ghost predicate SurvivorsAmong(s: Machine.State, base: View, views: seq<View>) {
    forall v :: Survivor(s, v) ==> v == base || v in views
  }

  lemma LandsMore(run: seq<Machine.State>, run1: seq<Machine.State>, run2: seq<Machine.State>, base: View,
      views: seq<View>, v: View, k: nat)
    requires Lands(run, run1, base, views) && Machine.Leads(run1, run2, v, k)
    requires Machine.SnapView(run[|run| - 1].base) == base
    ensures Lands(run, run2, base, views + [v])
  {
    assert Machine.Candidate(run1[|run1| - 1], run1[|run1| - 1].base);
  }

  lemma LandsLast(run: seq<Machine.State>, run': seq<Machine.State>, base: View, views: seq<View>)
    requires Lands(run, run', base, views) && Machine.SnapView(run[|run| - 1].base) == base
              && !Machine.Flipping(run[|run| - 1])
    ensures SurvivorsAmong(run'[|run'| - 1], base, views)
  {
    var s := run'[|run'| - 1];
    forall v | Survivor(s, v) ensures v == base || v in views {
      var sn := if v == Machine.SnapView(s.base) then s.base else Machine.Snap(s.phase.next, s.meta, s.plain);
      assert Machine.Candidate(s, sn) && Machine.SnapView(sn) == v;
    }
  }

  /** A commit was taken inside the call, which was made with frees pending. */
  ghost predicate Interrupted(call: Call, run: seq<Machine.State>, run': seq<Machine.State>) {
    |run| > 0 && !call.Sync? && run[|run| - 1].deferred != [] && !Machine.Unflipped(run, run')
  }

  /** `marks` are points of the run in order, the last one its end; call `n` runs from `marks[n]` to `marks[n + 1]`. */
  ghost predicate Points(run: seq<Machine.State>, marks: seq<nat>) {
    && |marks| > 0 && (forall n :: 0 <= n < |marks| ==> marks[n] < |run|) && marks[|marks| - 1] == |run| - 1
    && forall n :: 0 <= n < |marks| - 1 ==> marks[n] <= marks[n + 1]
  }

  ghost function Until(run: seq<Machine.State>, marks: seq<nat>, n: nat): seq<Machine.State>
    requires Points(run, marks) && n < |marks|
  {
    run[..marks[n] + 1]
  }

  /** Every call that failed has its reason, in the states at its marks. */
  ghost predicate AllExplained(c: Codec, reliable: bool, run: seq<Machine.State>, marks: seq<nat>, calls: seq<Call>,
      replies: seq<Reply>)
    requires Points(run, marks) && |replies| < |marks| && |replies| <= |calls|
  {
    forall n :: 0 <= n < |replies| ==>
      Explained(c, reliable, run[marks[n]], run[marks[n + 1]], calls[n], replies[n])
  }

  lemma ExplainedMore(c: Codec, reliable: bool, run: seq<Machine.State>, run': seq<Machine.State>, marks: seq<nat>,
      calls: seq<Call>, replies: seq<Reply>, r: Reply)
    requires Points(run, marks) && |marks| == |replies| + 1 <= |calls| && run <= run'
    requires AllExplained(c, reliable, run, marks, calls, replies)
    requires Explained(c, reliable, run[|run| - 1], run'[|run'| - 1], calls[|replies|], r)
    ensures Points(run', marks + [|run'| - 1])
    ensures AllExplained(c, reliable, run', marks + [|run'| - 1], calls, replies + [r])
  {
    hide Explained;
    var marks', replies' := marks + [|run'| - 1], replies + [r];
    UntilStays(run, run', marks, 0);
    forall n | 0 <= n < |replies'|
      ensures Explained(c, reliable, run'[marks'[n]], run'[marks'[n + 1]], calls[n], replies'[n])
    {
      if n < |replies| {
        assert run'[marks[n]] == run[marks[n]] && run'[marks[n + 1]] == run[marks[n + 1]];
        assert replies'[n] == replies[n];
      }
    }
  }

  /** The calls were made at the marks: memory holds the views there, and each sync that succeeds commits in between. */
  ghost predicate Marks(run: seq<Machine.State>, marks: seq<nat>, views: seq<View>, calls: seq<Call>,
      replies: seq<Reply>) {
    && Points(run, marks) && |marks| == |views| == |replies| + 1 <= |calls| + 1
    && (forall n :: 0 <= n < |marks| ==> Machine.Memory(run[marks[n]]) == views[n])
    && forall n :: 0 <= n < |replies| && calls[n].Sync? && replies[n].Fine? ==>
         !Machine.Unflipped(Until(run, marks, n), Until(run, marks, n + 1))
  }

  /** No call made with frees pending was interrupted by a commit. */
  ghost predicate Unforced(run: seq<Machine.State>, marks: seq<nat>, calls: seq<Call>)
    requires Points(run, marks) && |marks| <= |calls| + 1
  {
    forall n :: 0 <= n < |marks| - 1 ==> !Interrupted(calls[n], Until(run, marks, n), Until(run, marks, n + 1))
  }

  /**
   The run went on from `run` with the calls of the session. If none was interrupted, a crash at any point since leads
   to the commit that was last then, or to one of the views.
   */
  ghost predicate Safe(run: seq<Machine.State>, run': seq<Machine.State>, marks: seq<nat>, views: seq<View>,
      calls: seq<Call>, replies: seq<Reply>) {
    && Marks(run', marks, views, calls, replies) && marks[0] == |run| - 1
    && (Unforced(run', marks, calls) ==>
          && Lands(run, run', Machine.SnapView(run[|run| - 1].base), views)
          && SurvivorsAmong(run'[|run'| - 1], Machine.SnapView(run[|run| - 1].base), views))
  }

  lemma UntilStays(run: seq<Machine.State>, run': seq<Machine.State>, marks: seq<nat>, n: nat)
    requires Points(run, marks) && run <= run' && n < |marks|
    ensures Points(run', marks + [|run'| - 1]) && Until(run', marks + [|run'| - 1], n) == Until(run, marks, n)
    ensures Until(run', marks + [|run'| - 1], |marks|) == run' && Until(run, marks, |marks| - 1) == run
  {
    var marks' := marks + [|run'| - 1];
    forall n | 0 <= n < |marks'| - 1 ensures marks'[n] <= marks'[n + 1] {
      if n < |marks| - 1 { assert marks'[n] == marks[n] && marks'[n + 1] == marks[n + 1]; }
    }
  }

  lemma UnforcedLess(run: seq<Machine.State>, run': seq<Machine.State>, marks: seq<nat>, calls: seq<Call>)
    requires Points(run, marks) && run <= run' && |marks| <= |calls|
    ensures Points(run', marks + [|run'| - 1])
    ensures Unforced(run', marks + [|run'| - 1], calls) ==>
              Unforced(run, marks, calls) && !Interrupted(calls[|marks| - 1], run, run')
  {
    hide Until, Interrupted;
    UntilStays(run, run', marks, |marks| - 1);
    forall n | 0 <= n < |marks| ensures Until(run', marks + [|run'| - 1], n) == Until(run, marks, n) {
      UntilStays(run, run', marks, n);
    }
  }

  lemma MarksMore(run: seq<Machine.State>, run': seq<Machine.State>, marks: seq<nat>, views: seq<View>,
      calls: seq<Call>, replies: seq<Reply>, v: View, r: Reply)
    requires Marks(run, marks, views, calls, replies) && run <= run' && |replies| < |calls|
    requires Machine.Memory(run'[|run'| - 1]) == v
    requires calls[|replies|].Sync? && r.Fine? ==> !Machine.Unflipped(run, run')
    ensures Marks(run', marks + [|run'| - 1], views + [v], calls, replies + [r])
  {
    hide Machine.Unflipped, Machine.Memory, Until;
    var marks', views', replies' := marks + [|run'| - 1], views + [v], replies + [r];
    UntilStays(run, run', marks, 0);
    forall n | 0 <= n < |marks'| ensures Machine.Memory(run'[marks'[n]]) == views'[n] {
      if n < |marks| { assert run'[marks[n]] == run[marks[n]]; }
    }
    forall n | 0 <= n < |replies'| && calls[n].Sync? && replies'[n].Fine?
      ensures !Machine.Unflipped(Until(run', marks', n), Until(run', marks', n + 1))
    {
      UntilStays(run, run', marks, n);
      if n < |replies| { UntilStays(run, run', marks, n + 1); }
    }
  }

  lemma ExplainedNone(c: Codec, reliable: bool, run: seq<Machine.State>, marks: seq<nat>, calls: seq<Call>)
    requires Points(run, marks)
    ensures AllExplained(c, reliable, run, marks, calls, [])
  {}

  lemma MarksStart(run: seq<Machine.State>, v: View, calls: seq<Call>)
    requires |run| > 0 && Machine.Memory(run[|run| - 1]) == v
    ensures Points(run, [|run| - 1]) && Marks(run, [|run| - 1], [v], calls, [])
  {}

  /** One call of a session; one that would outgrow the widths of its fields is not made. */
  method PlayOne(f: Files, call: Call, now: nat) returns (r: Reply)
    requires f.Valid() && now < U64
    modifies f.vol`s, f.vol`trace, f.vol`ub, f.vol.dev, f.vol.bm, f.vol.bm.bits, f.vol.ddt, f.vol.scratch, f.vol.tbl
    ensures f.Sound() && old(f.vol.trace) <= f.vol.trace && (!Ends(r) ==> f.Valid())
              && StepOf(old(f.V()), call, r, f.V())
    ensures Interrupted(call, old(f.vol.trace), f.vol.trace)
              || Machine.Leads(old(f.vol.trace), f.vol.trace, f.V(), old(f.vol.s.ub.nextInode))
    ensures Explained(f.vol.codec, f.vol.dev.reliable, old(f.vol.s), f.vol.s, call, r)
    ensures call.Sync? && r.Fine? ==> !Machine.Unflipped(old(f.vol.trace), f.vol.trace)
  {
    hide Files.Sound, StepOf, GoodView, CallFits, Ends, Machine.Leads, Machine.Unflipped, GrownBy, Consistent, Cause,
      Misfit, CallRecords;
    f.Quiet();
    StepNone(f.V(), call);
    SameTable(f);
    TraceEnds(f);
    if !CallFits(f.vol.tbl.slots.inodes, call) {
      Machine.UnflippedLeads(f.vol.trace, f.vol.trace, f.V(), f.vol.s.ub.nextInode);
      return TooWide;
    }
    r := Serve(f, call, now);
    if !call.Sync? && Machine.Unflipped(old(f.vol.trace), f.vol.trace) {
      Machine.UnflippedLeads(old(f.vol.trace), f.vol.trace, f.V(), old(f.vol.s.ub.nextInode));
    }
  }

  /**
   Play calls until they are done or the run ends. The calls are made at the marks of the run. If no commit was taken
   inside a call made with frees pending, calls are atomic: a crash at any point leads to what held between two of them.
   */
  method Play(f: Files, calls: seq<Call>, clock: nat -> nat)
    returns (replies: seq<Reply>, ghost views: seq<View>, ghost marks: seq<nat>)
    requires f.Valid() && forall n: nat :: clock(n) < U64
    modifies f.vol`s, f.vol`trace, f.vol`ub, f.vol.dev, f.vol.bm, f.vol.bm.bits, f.vol.ddt, f.vol.scratch, f.vol.tbl
    ensures f.Sound() && old(f.vol.trace) <= f.vol.trace
    ensures IsSession(f.vol.codec, views, calls, replies) && views[0] == old(f.V()) && views[|replies|] == f.V()
    ensures |replies| < |calls| ==> replies != [] && Ends(replies[|replies| - 1])
    ensures Exact(old(f.V())) && Lossless(calls, replies) ==> Exact(f.V())
    ensures Safe(old(f.vol.trace), f.vol.trace, marks, views, calls, replies)
    ensures AllExplained(f.vol.codec, f.vol.dev.reliable, f.vol.trace, marks, calls, replies)
    ensures Exact(old(f.V())) && Lossless(calls, replies) && ExactSurvivors(old(f.vol.s)) ==>
              Unforced(f.vol.trace, marks, calls) ==> ExactSurvivors(f.vol.s)
  {
    hide Files.Sound, StepOf, Exact, GoodView, Lossy, Ends, ExactSurvivors, SurvivorsAmong, Lands, Machine.Leads,
      IsSession, Lossless, Marks, Unforced, Points, Interrupted, Machine.Unflipped, AllExplained, Explained;
    TraceEnds(f);
    replies, views, marks := [], [f.V()], [|f.vol.trace| - 1];
    ghost var base := Machine.SnapView(f.vol.s.base);
    SessionStarts(f.vol.codec, f.V(), calls) by { SoundGood(f); }
    LandsNone(f.vol.trace, base, views);
    MarksStart(f.vol.trace, f.V(), calls);
    ExplainedNone(f.vol.codec, f.vol.dev.reliable, f.vol.trace, marks, calls);
    var n, ended := 0, false;
    while n < |calls| && !ended
      invariant 0 <= n == |replies| <= |calls| && f.Sound() && (!ended ==> f.Valid()) && old(f.vol.trace) <= f.vol.trace
      invariant IsSession(f.vol.codec, views, calls, replies) && |views| == n + 1 && views[0] == old(f.V())
                && views[n] == f.V()
      invariant ended ==> n > 0 && Ends(replies[n - 1])
      invariant Marks(f.vol.trace, marks, views, calls, replies) && Points(f.vol.trace, marks)
      invariant |marks| == n + 1 && marks[0] == |old(f.vol.trace)| - 1
      invariant AllExplained(f.vol.codec, f.vol.dev.reliable, f.vol.trace, marks, calls, replies)
      invariant f.vol.trace[|f.vol.trace| - 1] == f.vol.s
      invariant Unforced(f.vol.trace, marks, calls) ==> Lands(old(f.vol.trace), f.vol.trace, base, views)
    {
      ghost var run, k := f.vol.trace, f.vol.s.ub.nextInode;
      var r := PlayOne(f, calls[n], clock(n));
      TraceEnds(f);
      UnforcedLess(run, f.vol.trace, marks, calls);
      MarksMore(run, f.vol.trace, marks, views, calls, replies, f.V(), r);
      ExplainedMore(f.vol.codec, f.vol.dev.reliable, run, f.vol.trace, marks, calls, replies, r);
      marks := marks + [|f.vol.trace| - 1];
      if Unforced(f.vol.trace, marks, calls) {
        LandsMore(old(f.vol.trace), run, f.vol.trace, base, views, f.V(), k);
      }
      SessionMore(f.vol.codec, views, calls, replies, f.V(), r) by { SoundGood(f); }
      replies, views, n, ended := replies + [r], views + [f.V()], n + 1, Ends(r);
    }
    TraceEnds(f);
    if Unforced(f.vol.trace, marks, calls) { LandsLast(old(f.vol.trace), f.vol.trace, base, views); }
    PlayExact(f.vol.codec, views, calls, replies, old(f.vol.s), f.vol.s);
  }

  lemma SessionStarts(c: Codec, v: View, calls: seq<Call>)
    requires GoodView(c, v)
    ensures IsSession(c, [v], calls, [])
  {
    hide GoodView;
  }

  lemma LandsNone(run: seq<Machine.State>, base: View, views: seq<View>)
    requires |run| > 0
    ensures Lands(run, run, base, views)
  {}

  /** What a lossless session means for exactness. */
  lemma PlayExact(c: Codec, views: seq<View>, calls: seq<Call>, replies: seq<Reply>, s: Machine.State,
      s': Machine.State)
    requires IsSession(c, views, calls, replies)
    ensures Exact(views[0]) && Lossless(calls, replies) ==> Exact(views[|replies|])
    ensures Exact(views[0]) && Lossless(calls, replies) && ExactSurvivors(s)
              && SurvivorsAmong(s', Machine.SnapView(s.base), views) ==>
              ExactSurvivors(s')
  {
    hide Exact, StepOf, GoodView, Lossy;
    if Exact(views[0]) && Lossless(calls, replies) {
      forall k | 0 <= k < |views| ensures Exact(views[k]) { SessionExact(c, views, calls, replies, k); }
      assert Survivor(s, Machine.SnapView(s.base));
    }
  }

  lemma TraceEnds(f: Files)
    requires f.Sound()
    ensures |f.vol.trace| > 0 && f.vol.trace[|f.vol.trace| - 1] == f.vol.s
  {
    hide GoodView, Machine.Inv, Machine.Accounted, Machine.IsRun, Machine.GoodRun;
  }

  lemma SessionMore(c: Codec, views: seq<View>, calls: seq<Call>, replies: seq<Reply>, v: View, r: Reply)
    requires IsSession(c, views, calls, replies) && |replies| < |calls| && GoodView(c, v)
    requires StepOf(views[|replies|], calls[|replies|], r, v)
    ensures IsSession(c, views + [v], calls, replies + [r])
    ensures Lossless(calls, replies + [r]) <==> Lossless(calls, replies) && !Lossy(calls[|replies|], r)
  {
    hide GoodView, StepOf, Lossy;
    assert Lossless(calls, replies + [r]) ==> forall n :: 0 <= n < |replies| ==> (replies + [r])[n] == replies[n];
    assert (replies + [r])[|replies|] == r;
  }

  lemma IdleSurvivors(s: Machine.State)
    ensures ExactSurvivors(s) ==> Exact(Machine.SnapView(s.base))
  {
    hide Exact;
    assert Survivor(s, Machine.SnapView(s.base));
  }

  lemma MountedSurvivors(s: Machine.State, s': Machine.State)
    requires Survivor(s, Machine.Memory(s')) && Machine.SnapView(s'.base) == Machine.Memory(s')
    ensures ExactSurvivors(s) ==> Exact(Machine.Memory(s')) && ExactSurvivors(s')
  {
    hide Exact;
  }

  lemma EndSurvivors(s: Machine.State)
    ensures Exact(Machine.Memory(s)) && Exact(Machine.SnapView(s.base)) ==> ExactSurvivors(s)
  {
    hide Exact;
  }

  /** The run goes on at the next mount, whatever a power failure makes of the disk. */
  ghost predicate Remountable(c: Codec, disk: Machine.Disk, run: seq<Machine.State>, s: Machine.State) {
    Running(c, run) && Machine.GoodRun(GoodFn(c), run) && run[|run| - 1] == s && s.disk == disk
  }

  lemma CanRemount(f: Files)
    requires f.Sound()
    ensures Remountable(f.vol.codec, f.vol.dev.Disk(), f.vol.trace, f.vol.s)
  {
    hide Machine.Inv, Machine.Accounted, Machine.IsRun, GoodView;
  }

  /** Format and mount. */
  method FreshFiles(codec: Codec, dev: Device) returns (r: Option<Files>)
    requires CodecOk(codec) && dev.hash == codec.hash && |dev.cur| < U64
    requires |dev.cur| > 0 ==> Uber.Parse(dev.hash, dev.cur[0]).Err?
    requires Snapshot.SlotBlocks(|dev.cur|, DEFAULT_INODE_COUNT, DEFAULT_DDT_RESERVE) * BLK < U32
    modifies dev
    ensures r.None? ==> !dev.reliable || TooSmall(|old(dev.cur)|)
    ensures r.Some? ==> Roomy(r.value.vol.s.ub, r.value.vol.s.meta)
    ensures r.Some? ==> var f := r.value;
              && f.Valid() && f.vol.codec == codec && f.vol.dev == dev && f.vol.s.ub.nextInode == 1
              && f.V() == Machine.View(EmptyTable(DEFAULT_INODE_COUNT).inodes, map[], map[])
              && fresh(f.vol) && fresh(f.vol.bm) && fresh(f.vol.bm.bits) && fresh(f.vol.ddt) && fresh(f.vol.tbl)
                   && fresh(f.vol.scratch)
  {
    hide Machine.Inv, Machine.Accounted, Machine.IsRun, Machine.GoodRun, Machine.CrashImage, GoodView, Exact,
      Uber.Parse, Snapshot.SlotBlocks, Roomy, TooSmall;
    var ok, s := FormatImage(codec, dev);
    if !ok {
      return None;
    }
    var m := MountFiles(codec, dev, [s]);
    return if m.Ok? then Some(m.value) else None;
  }

  /** Format, mount, write the empty root directory and commit it. */
  method FormatFs(codec: Codec, dev: Device, now: nat) returns (r: Option<Files>)
    requires CodecOk(codec) && dev.hash == codec.hash && |dev.cur| < U64 && now < U64
    requires |dev.cur| > 0 ==> Uber.Parse(dev.hash, dev.cur[0]).Err?
    requires Snapshot.SlotBlocks(|dev.cur|, DEFAULT_INODE_COUNT, DEFAULT_DDT_RESERVE) * BLK < U32
    modifies dev
    ensures r.None? ==> !dev.reliable || TooSmall(|old(dev.cur)|)
    ensures r.Some? ==>
              var f := r.value;
              f.Valid() && f.vol.codec == codec && Remountable(codec, dev.Disk(), f.vol.trace, f.vol.s)
    ensures r.Some? ==> var f := r.value;
              && f.V() == Machine.View(EmptyTable(DEFAULT_INODE_COUNT).inodes[ROOT_INODE := RootDir(now)], map[], map[])
              && Exact(f.V()) && ExactSurvivors(f.vol.s) && Machine.SnapView(f.vol.s.base) == f.V()
              && f.vol.s.base.ub.nextInode == f.vol.s.ub.nextInode == 1
    ensures r.Some? ==> var root := RootDir(now);
              root.kind == TYPE_DIR && root.nlink == 2 && root.mode == 0x1ed && root.size == 0 && root.generation == 0
              && root.mtime == root.ctime == root.atime == now
    ensures r.Some? ==> var vol := r.value.vol;
              vol.dev == dev && fresh(vol) && fresh(vol.bm) && fresh(vol.bm.bits) && fresh(vol.ddt) && fresh(vol.tbl)
                && fresh(vol.scratch)
  {
    hide Files.Sound, Machine.Inv, Machine.Accounted, Machine.IsRun, Machine.GoodRun, GoodView, Exact, Uber.Parse,
      Snapshot.SlotBlocks, Remountable, TooSmall, Snapshot.SavedLen;
    r := FreshFiles(codec, dev);
    if r.None? {
      return;
    }
    var f := r.value;
    PutRoot(f, now);
    RootSaved(f);
    var done := f.Fsync();
    if done.Err? {
      assert done.error.MetaTooBig? || done.error.CommitEnded?;
      return None;
    }
    EndSurvivors(f.vol.s);
    CanRemount(f);
  }

  /** Put the root inode into an empty table. */
  method PutRoot(f: Files, now: nat)
    requires f.Valid() && now < U64 && f.V() == Machine.View(EmptyTable(DEFAULT_INODE_COUNT).inodes, map[], map[])
    modifies f.vol`s, f.vol`trace, f.vol.tbl
    ensures f.Valid() && old(f.vol.trace) <= f.vol.trace && Exact(f.V()) && f.vol.s.ub == old(f.vol.s.ub)
    ensures f.vol.s.meta.bm == old(f.vol.s.meta.bm)
    ensures f.V() == Machine.View(EmptyTable(DEFAULT_INODE_COUNT).inodes[ROOT_INODE := RootDir(now)], map[], map[])
  {
    hide Machine.Inv, Machine.Accounted, Machine.IsRun, Machine.GoodRun, GoodView, Exact;
    var ok := f.vol.PutInode(ROOT_INODE, RootDir(now));
    FreshGood(f.vol.codec, f.V());
  }

  lemma RootSaved(f: Files)
    requires f.Valid() && Roomy(f.vol.s.ub, f.vol.s.meta) && f.V().ddt == map[]
    requires |f.V().inodes| == DEFAULT_INODE_COUNT
    ensures Snapshot.SavedLen(f.vol.s.meta) <= f.vol.s.ub.metaBlocks * BLK && f.vol.s.ub.seqNo == 1
  {
    hide Machine.Inv, Machine.Accounted, Machine.IsRun, Machine.GoodRun, GoodView, Snapshot.SavedLen,
      Snapshot.SlotBlocks;
    RoomySaves(f.vol.codec, f.vol.s);
  }

  /** The root directory of a fresh filesystem. */
  function RootDir(now: nat): Inode {
    Blank().(kind := TYPE_DIR, nlink := 2, mode := 0x1ed, atime := now, mtime := now, ctime := now)
  }

  /**
   Mount after a power failure and play on. With exact survivors the mounted counts are exact, and they stay so; if no
   commit is taken inside a call made with frees pending, the survivors of the next power failure are exact again, and
   rounds can be chained.
   */
  method Round(codec: Codec, dev: Device, ghost run: seq<Machine.State>, calls: seq<Call>, clock: nat -> nat)
    returns (r: Result<(Files, seq<Reply>), Snapshot.MountError>, ghost views: seq<View>, ghost marks: seq<nat>)
    requires Running(codec, run) && Machine.GoodRun(GoodFn(codec), run) && dev.hash == codec.hash
    requires dev.Disk() == Machine.Disk(dev.cur, dev.cur, map[])
              && Machine.CrashImage(codec, run[|run| - 1].disk, dev.cur)
    requires forall n: nat :: clock(n) < U64
    modifies dev
    ensures r.Err? ==> r.error == Snapshot.DeviceError && !dev.reliable
    ensures r.Ok? ==> var (f, replies) := r.value;
              f.Sound() && f.vol.codec == codec && run <= f.vol.trace
                && Remountable(codec, dev.Disk(), f.vol.trace, f.vol.s)
    ensures r.Ok? ==> var (f, replies) := r.value;
              && IsSession(codec, views, calls, replies) && Survivor(run[|run| - 1], views[0])
              && views[|replies|] == f.V() && |run| < |f.vol.trace|
              && Machine.SnapView(f.vol.trace[|run|].base) == views[0]
              && Safe(f.vol.trace[..|run| + 1], f.vol.trace, marks, views, calls, replies)
              && AllExplained(codec, dev.reliable, f.vol.trace, marks, calls, replies)
    ensures r.Ok? ==> var (f, replies) := r.value;
              ExactSurvivors(run[|run| - 1]) && Lossless(calls, replies) ==>
                Exact(f.V()) && (Unforced(f.vol.trace, marks, calls) ==> ExactSurvivors(f.vol.s))
  {
    hide Machine.Inv, Machine.Accounted, Machine.IsRun, Machine.GoodRun, Machine.CrashImage, GoodView, Exact, Lands,
      SurvivorsAmong, ExactSurvivors, Unforced, IsSession, Lossless, Remountable, Explained;
    views, marks := [], [];
    var m := MountFiles(codec, dev, run);
    if m.Err? {
      return Err(m.error), views, marks;
    }
    var f := m.value;
    MountedSurvivors(run[|run| - 1], f.vol.s);
    ghost var mounted := f.vol.trace;
    var replies, seen, points := Play(f, calls, clock);
    assert f.vol.trace[..|run| + 1] == mounted;
    views, marks := seen, points;
    CanRemount(f);
    return Ok((f, replies)), views, marks;
  }

  lemma ReplacedAt(v: View, v': View, id: nat, x: Inode)
    requires Replaced(v, v', id, x)
    ensures id < |v.inodes| == |v'.inodes| && v'.inodes[id] == x
  {
    hide SameSurplus, OthersSame;
  }
}
