/** Sessions of the whole filesystem, and what a power failure at any point of one leaves of the directory tree. */
module NamespaceDisk {
  import opened Bytes
  import opened Store
  import opened Inodes
  import opened FileView
  import opened Volumes
  import opened Files
  import opened Directories
  import opened DirPages
  import opened Trees
  import opened Namespaces
  import opened Filesystems
  import FileSessions
  import Machine
  import Snapshot
  import Uber

  /** The tree, the pages of its directories, and the blocks, between two calls. */
  datatype Scene = Scene(t: Tree, ls: Layouts, v: View)

  ghost predicate SceneOk(sc: Scene) {
    Forest(sc.t) && Laid(sc.v, sc.ls) && sc.t.slots == SlotsOf(sc.v.inodes) && sc.t.names == NamesIn(sc.ls)
  }

  /** The snapshot holds the tree: its inodes are the slots, and each directory is stored page by page. */
  ghost predicate StoresTree(sn: Machine.Snap, t: Tree, ls: Layouts) {
    var v := Machine.SnapView(sn);
    && t.slots == SlotsOf(v.inodes) && t.next == sn.ub.nextInode && t.names == NamesIn(ls) && Laid(v, ls)
    && sn.meta.tbl.count <= |v.inodes|
  }

  /** The snapshot was taken in the scene. */
  ghost predicate Keeps(sn: Machine.Snap, sc: Scene) { Machine.SnapView(sn) == sc.v && sn.ub.nextInode == sc.t.next }

  /**
   Whatever the point of the run since `run`, a crash leads to the commit that was last then, or to one of the scenes.
   */
  ghost predicate Lands(run: seq<Machine.State>, run': seq<Machine.State>, scenes: seq<Scene>) {
    && |run| > 0 && run <= run'
    && forall n, sn :: |run| - 1 <= n < |run'| && Machine.Candidate(run'[n], sn) ==>
         sn == run[|run| - 1].base || exists k :: 0 <= k < |scenes| && Keeps(sn, scenes[k])
  }

  // ----- calls -----

  datatype FsCall =
    | Change(op: Op, mode: nat)
    | MakeLink(parent: nat, name: Name, target: Bytes)
    | Data(call: FileSessions.Call)

  datatype FsReply = Did(reply: Reply) | Served(served: FileSessions.Reply) | Broke(error: Store.Error) | Unfit

  /** The call was not completed, and the session ends. */
  predicate Stops(r: FsReply) { r.Broke? || r.Unfit? || (r.Served? && FileSessions.Ends(r.served)) }

  /** What the session asks of its caller: the tree stays a forest. */
  ghost predicate CallOk(t: Tree, call: FsCall) {
    match call
    case Change(op, mode) => Allowed(t, op, false) && mode < U16
    case MakeLink(_, _, _) => true
    case Data(call) => FileCall(call)
  }

  /** The sizes stay within the widths of their fields. */
  predicate CallFits(inodes: seq<Inode>, call: FsCall) {
    match call
    case Change(op, _) => OpFits(inodes, op)
    case MakeLink(p, n, target) => OpFits(inodes, CreateOp(p, n, TYPE_LINK)) && BlobFits(target)
    case Data(call) => FileSessions.CallFits(inodes, call)
  }

  /** Directories below 256 GiB, names that fit a page, small data. */
  ghost predicate Small(v: View, call: FsCall) {
    match call
    case Change(op, _) => SmallDirs(v.inodes, op) && NamesFit(op)
    case MakeLink(p, n, target) =>
      SmallDirs(v.inodes, CreateOp(p, n, TYPE_LINK)) && NamesFit(CreateOp(p, n, TYPE_LINK)) && |target| < SMALL
    case Data(call) => FileSessions.Small(v, call)
  }

  ghost predicate SmallDirs(inodes: seq<Inode>, op: Op) {
    (forall d :: 0 <= d < |inodes| ==> inodes[d].size < SMALL) && (op.CreateOp? ==> op.kind < 256)
  }

  /** Small calls do not end a session by their size. */
  lemma SmallCalls(v: View, call: FsCall)
    requires Small(v, call) && FsOk(v)
    ensures CallFits(v.inodes, call)
  {
    hide SizeFits, FsOk, NamesFit, FileSessions.CallFits, FileSessions.Small;
    match call
    case Change(op, _) => SmallOps(v.inodes, op);
    case MakeLink(p, n, target) =>
      SmallOps(v.inodes, CreateOp(p, n, TYPE_LINK));
      SmallFits(|target|);
    case Data(call) => FileSessions.SmallCalls(v, call);
  }

  lemma SmallOps(inodes: seq<Inode>, op: Op)
    requires SmallDirs(inodes, op) && NamesFit(op)
    ensures OpFits(inodes, op)
  {
    forall d: nat ensures DirFits(inodes, d) { if d < |inodes| { assert inodes[d].size < SMALL; } }
  }

  ghost function CallAfter(t: Tree, call: FsCall): Tree {
    match call
    case Change(op, _) => Apply(t, op).0
    case MakeLink(p, n, target) => if target == [] then t else Apply(t, CreateOp(p, n, TYPE_LINK)).0
    case Data(_) => t
  }

  ghost function TreeAt(t: Tree, calls: seq<FsCall>, k: nat): Tree
    requires k <= |calls|
  {
    if k == 0 then t else CallAfter(TreeAt(t, calls, k - 1), calls[k - 1])
  }

  /** What a completed call did. */
  ghost predicate Went(a: Scene, call: FsCall, r: FsReply, b: Scene) {
    match call
    case Change(op, _) => r.Did? && Worked(a.t, a.ls, a.v, op, b.t, b.ls, b.v, r.reply)
    case MakeLink(p, n, target) =>
      && r.Did?
      && if target == [] then r.reply == Failed(Invalid) && b == a
         else
           && Worked(a.t, a.ls, a.v, CreateOp(p, n, TYPE_LINK), b.t, b.ls, b.v, r.reply)
           && (r.reply.Made? ==> r.reply.id < |b.v.inodes| && Content(b.v.inodes[r.reply.id], b.v.plain) == target)
    case Data(call) =>
      FileCall(call) && r.Served? && FileSessions.StepOf(a.v, call, r.served, b.v) && b.t == a.t && b.ls == a.ls
  }

  lemma WentTree(a: Scene, call: FsCall, r: FsReply, b: Scene)
    requires Went(a, call, r, b)
    ensures b.t == CallAfter(a.t, call)
  {
    hide Apply, FilesKept, Tidy, SameSurplus, FileSessions.StepOf, Content, Matches;
  }

  ghost function Here(fs: Filesystem): Scene reads fs, fs.f.vol { Scene(fs.View(), fs.layouts, fs.f.V()) }

  /**
   A commit may be taken inside the call: frees are pending, or the call may release before it stores. That only a
   rename does that is not `OnePage`, and the making of a symbolic link in a directory that has a page.
   */
  ghost predicate MayCommit(sc: Scene, call: FsCall, pending: bool) {
    match call
    case Change(op, _) => pending || MayStoreTwice(sc.t, sc.ls, op)
    case MakeLink(p, n, target) =>
      pending || !(target == [] || Create(sc.t, p, n, TYPE_LINK).1.Failed? || NoPage(sc.ls, p))
    case Data(call) => !call.Sync? && pending
  }

  /** Refs in the largest block map a call stores. */
  ghost function CallRecords(ls: Layouts, call: FsCall): nat {
    match call
    case Change(op, _) => OpRecords(ls, op)
    case MakeLink(p, _, target) => Max(DirRecords(ls, p), BlobCount(|target|))
    case Data(_) => 0
  }

  /**
   Why a call made in state `s` is not completed in state `s'`: a store error has its cause, the call would outgrow its
   fields, or a call on data has its own reason.
   */
  ghost predicate Explained(c: Codec, reliable: bool, ls: Layouts, s: Machine.State, s': Machine.State, call: FsCall,
      r: FsReply) {
    match r
    case Did(_) => true
    case Broke(e) => Cause(c, reliable, s', e, Most(CallRecords(ls, call)))
    case Unfit => !CallFits(s.meta.tbl.inodes, call)
    case Served(x) => call.Data? && FileSessions.Explained(c, reliable, s, s', call.call, x)
  }

  /** A commit was taken inside the call, which may do so. */
  ghost predicate Interrupted(sc: Scene, call: FsCall, run: seq<Machine.State>, run': seq<Machine.State>) {
    |run| > 0 && MayCommit(sc, call, run[|run| - 1].deferred != []) && !Machine.Unflipped(run, run')
  }

  predicate Synced(call: FsCall, r: FsReply) { call == Data(FileSessions.Sync) && r.Served? && r.served.Fine? }

  /** What a crash after the call leads to: what held before it, or the last commit, unless the call was a commit. */
  ghost predicate Left(call: FsCall, r: FsReply, base: Machine.Snap, sc: Scene, s: Machine.State) {
    forall sn :: Machine.Candidate(s, sn) ==> Keeps(sn, sc) || (sn == base && !Synced(call, r))
  }

  /** After a sync no crash leads further back: whatever mounts is a scene after it. */
  ghost predicate Durable(s: Machine.State, scenes: seq<Scene>, calls: seq<FsCall>, replies: seq<FsReply>)
    requires |replies| <= |calls|
  {
    forall k, sn :: 0 <= k < |replies| && Synced(calls[k], replies[k]) && Machine.Candidate(s, sn) ==>
      exists j :: k < j < |scenes| && Keeps(sn, scenes[j])
  }

  /**
   One call. Unless a commit was taken inside it, a crash while it runs leads to the last commit or to what held before.
   */
  method PlayOne(fs: Filesystem, call: FsCall, now: nat) returns (r: FsReply)
    requires fs.Valid() && CallOk(fs.View(), call) && now < U64
    modifies fs, fs.f.vol, fs.f.vol.dev, fs.f.vol.bm, fs.f.vol.bm.bits, fs.f.vol.ddt, fs.f.vol.scratch, fs.f.vol.tbl
    ensures fs.f.Sound() && old(fs.f.vol.trace) <= fs.f.vol.trace
    ensures !Stops(r) ==> fs.Valid() && Went(old(Here(fs)), call, r, Here(fs))
    ensures !Interrupted(old(Here(fs)), call, old(fs.f.vol.trace), fs.f.vol.trace) ==>
              && Machine.Leads(old(fs.f.vol.trace), fs.f.vol.trace, old(fs.f.V()), old(fs.View().next))
              && Left(call, r, old(fs.f.vol.s.base), old(Here(fs)), fs.f.vol.s)
    ensures Synced(call, r) ==> !Machine.Unflipped(old(fs.f.vol.trace), fs.f.vol.trace)
    ensures Explained(fs.f.vol.codec, fs.f.vol.dev.reliable, old(fs.layouts), old(fs.f.vol.s), fs.f.vol.s, call, r)
  {
    hide Structure, CountsOk, Files.Sound, Laid, NamesIn, GoodView, SlotsOf, FileSessions.StepOf, Machine.Leads,
      Machine.Unflipped, Worked, FileSessions.CallFits, FileSessions.Ends, OpFits, Content, Allowed, SizeFits, Left,
      OnePage, Create, Cause, FileSessions.Explained;
    AtRest(fs.f);
    EndsHere(fs.f);
    Machine.UnflippedLeads(fs.f.vol.trace, fs.f.vol.trace, fs.f.V(), fs.View().next);
    SameTable(fs.f);
    if !CallFits(fs.f.vol.tbl.slots.inodes, call) {
      WhatIsLeft(call, Unfit, fs.f.vol.trace, fs.f.vol.trace, Here(fs));
      return Unfit;
    }
    ghost var v, k := fs.f.V(), fs.View().next;
    match call {
      case Change(op, mode) =>
        var done := fs.Edit(op, mode, now);
        r := if done.Ok? then Did(done.value) else Broke(done.error);
      case MakeLink(p, n, target) =>
        var done := fs.Symlink(p, n, target, now);
        r := if done.Ok? then Did(done.value) else Broke(done.error);
      case Data(call) =>
        var done := fs.Serve(call, now);
        r := Served(done);
        if call.Sync? {
          SyncSame(v, call, done, fs.f.V());
          EndsHere(fs.f);
          WhatIsLeft(Data(call), r, old(fs.f.vol.trace), fs.f.vol.trace, old(Here(fs)));
          return;
        }
    }
    if Machine.Unflipped(old(fs.f.vol.trace), fs.f.vol.trace) {
      Machine.UnflippedLeads(old(fs.f.vol.trace), fs.f.vol.trace, v, k);
      EndsHere(fs.f);
      WhatIsLeft(call, r, old(fs.f.vol.trace), fs.f.vol.trace, old(Here(fs)));
    }
  }

  lemma WhatIsLeft(call: FsCall, r: FsReply, run: seq<Machine.State>, run': seq<Machine.State>, sc: Scene)
    requires Machine.Leads(run, run', sc.v, sc.t.next) && !Machine.Flipping(run[|run| - 1])
    requires Synced(call, r) ==>
              FileSessions.Saved(run'[|run'| - 1].base, sc.v, sc.t.next) && !Machine.Flipping(run'[|run'| - 1])
    ensures Left(call, r, run[|run| - 1].base, sc, run'[|run'| - 1])
  {}

  lemma EndsHere(f: Files)
    requires f.Sound()
    ensures |f.vol.trace| > 0 && f.vol.trace[|f.vol.trace| - 1] == f.vol.s && (f.Valid() ==> !Machine.Flipping(f.vol.s))
  {
    hide GoodView, Machine.Inv, Machine.Accounted, Machine.IsRun, Machine.GoodRun;
  }

  lemma SyncSame(v: View, call: FileSessions.Call, r: FileSessions.Reply, v': View)
    requires call.Sync? && FileSessions.StepOf(v, call, r, v')
    ensures v' == v && (r.Fine? ==> !FileSessions.Ends(r))
  {}

  // ----- sessions -----

  /** The calls that were completed, and the scenes between them. */
  ghost predicate IsSession(scenes: seq<Scene>, calls: seq<FsCall>, replies: seq<FsReply>) {
    && |scenes| == |replies| + 1 <= |calls| + 1
    && (forall k :: 0 <= k < |scenes| ==> SceneOk(scenes[k]))
    && forall k :: 0 <= k < |replies| ==> !Stops(replies[k]) && Went(scenes[k], calls[k], replies[k], scenes[k + 1])
  }

  lemma SessionMore(scenes: seq<Scene>, calls: seq<FsCall>, replies: seq<FsReply>, r: FsReply, sc: Scene)
    requires IsSession(scenes, calls, replies) && |replies| < |calls| && SceneOk(sc)
    requires !Stops(r) && Went(scenes[|replies|], calls[|replies|], r, sc)
    ensures IsSession(scenes + [sc], calls, replies + [r])
  {
    hide SceneOk, Went, Stops;
    var scenes', replies' := scenes + [sc], replies + [r];
    forall k | 0 <= k < |replies'| ensures !Stops(replies'[k])
      && Went(scenes'[k], calls[k], replies'[k], scenes'[k + 1]) {
      if k < |replies| { assert replies'[k] == replies[k] && scenes'[k + 1] == scenes[k + 1]; }
    }
  }

  /** The tree of every scene is what the calls make of the first one. */
  lemma {:induction false} SessionTrees(scenes: seq<Scene>, calls: seq<FsCall>, replies: seq<FsReply>, k: nat)
    requires IsSession(scenes, calls, replies) && k < |scenes|
    ensures scenes[k].t == TreeAt(scenes[0].t, calls, k)
  {
    hide SceneOk, Went, CallAfter, Stops;
    if k > 0 {
      SessionTrees(scenes, calls, replies, k - 1);
      assert Went(scenes[k - 1], calls[k - 1], replies[k - 1], scenes[k - 1 + 1]);
      WentTree(scenes[k - 1], calls[k - 1], replies[k - 1], scenes[k]);
    }
  }

  lemma LandsNone(run: seq<Machine.State>, scenes: seq<Scene>)
    requires |run| > 0 && !Machine.Flipping(run[|run| - 1])
    ensures Lands(run, run, scenes)
  {}

  lemma DurableMore(s: Machine.State, s': Machine.State, scenes: seq<Scene>, calls: seq<FsCall>, replies: seq<FsReply>,
      r: FsReply, k: nat)
    requires k == |replies| < |calls| && |scenes| == k + 1 && !Machine.Flipping(s)
    requires Durable(s, scenes, calls, replies) && Left(calls[k], r, s.base, scenes[k], s')
    ensures Durable(s', scenes, calls, replies)
  {
    hide Keeps;
    assert Machine.Candidate(s, s.base);
  }

  lemma DurableNext(s: Machine.State, s': Machine.State, scenes: seq<Scene>, calls: seq<FsCall>, replies: seq<FsReply>,
      r: FsReply, sc: Scene)
    requires |replies| < |calls| && |scenes| == |replies| + 1 && Durable(s', scenes, calls, replies)
    requires Left(calls[|replies|], r, s.base, scenes[|replies|], s')
              && Went(scenes[|replies|], calls[|replies|], r, sc)
    ensures Durable(s', scenes + [sc], calls, replies + [r])
  {
    hide Keeps, Went, Machine.Candidate;
    var scenes', replies' := scenes + [sc], replies + [r];
    forall k, sn | 0 <= k < |replies'| && Synced(calls[k], replies'[k]) && Machine.Candidate(s', sn)
      ensures exists j :: k < j < |scenes'| && Keeps(sn, scenes'[j])
    {
      if k < |replies| {
        var j :| k < j < |scenes| && Keeps(sn, scenes[j]);
        assert Keeps(sn, scenes'[j]);
      } else {
        SyncStays(scenes[k], calls[k], r, sc);
        assert Keeps(sn, scenes'[k + 1]);
      }
    }
  }

  lemma SyncStays(a: Scene, call: FsCall, r: FsReply, b: Scene)
    requires Went(a, call, r, b) && Synced(call, r)
    ensures b == a
  {
    SyncSame(a.v, call.call, r.served, b.v);
  }

  /** A call that is atomic extends the run, with the scene it started from. */
  lemma LandsMore(run: seq<Machine.State>, run1: seq<Machine.State>, run2: seq<Machine.State>, scenes: seq<Scene>,
      k: nat)
    requires Lands(run, run1, scenes) && k < |scenes| && Machine.Leads(run1, run2, scenes[k].v, scenes[k].t.next)
    ensures Lands(run, run2, scenes)
  {
    assert Machine.Candidate(run1[|run1| - 1], run1[|run1| - 1].base);
    forall n, sn | |run1| <= n < |run2| && Machine.Candidate(run2[n], sn)
      ensures sn == run[|run| - 1].base || exists k :: 0 <= k < |scenes| && Keeps(sn, scenes[k])
    {
      if sn != run1[|run1| - 1].base { assert Keeps(sn, scenes[k]); }
    }
  }

  lemma LandsWider(run: seq<Machine.State>, run': seq<Machine.State>, scenes: seq<Scene>, sc: Scene)
    requires Lands(run, run', scenes)
    ensures Lands(run, run', scenes + [sc])
  {
    hide Keeps, Machine.Candidate;
    forall n, sn | |run| - 1 <= n < |run'| && Machine.Candidate(run'[n], sn)
      ensures sn == run[|run| - 1].base || exists k :: 0 <= k < |scenes + [sc]| && Keeps(sn, (scenes + [sc])[k])
    {
      if sn != run[|run| - 1].base {
        var k :| 0 <= k < |scenes| && Keeps(sn, scenes[k]);
        assert Keeps(sn, (scenes + [sc])[k]);
      }
    }
  }

  lemma DurableNone(s: Machine.State, scenes: seq<Scene>, calls: seq<FsCall>)
    ensures Durable(s, scenes, calls, [])
  {}

  lemma AtHere(fs: Filesystem)
    requires fs.Valid()
    ensures fs.f.Sound() && SceneOk(Here(fs))
    ensures |fs.f.vol.trace| > 0 && fs.f.vol.trace[|fs.f.vol.trace| - 1] == fs.f.vol.s && !Machine.Flipping(fs.f.vol.s)
  {
    hide Structure, CountsOk, Laid, NamesIn, SlotsOf, GoodView, Machine.Inv, Machine.Accounted, Machine.IsRun,
      Machine.GoodRun;
  }

  /**
   The calls were made at the marks of the run, the last of them perhaps not completed: memory holds the scenes there,
   and each sync that succeeds commits in its part of the run.
   */
  ghost predicate Marks(run: seq<Machine.State>, marks: seq<nat>, scenes: seq<Scene>, calls: seq<FsCall>,
      replies: seq<FsReply>) {
    && FileSessions.Points(run, marks) && |scenes| == |replies| + 1 <= |marks| <= |calls| + 1
    && (forall n :: 0 <= n < |scenes| ==> Machine.Memory(run[marks[n]]) == scenes[n].v)
    && forall n :: 0 <= n < |replies| && Synced(calls[n], replies[n]) ==>
         !Machine.Unflipped(FileSessions.Until(run, marks, n), FileSessions.Until(run, marks, n + 1))
  }

  /** No call that may commit was interrupted by a commit. */
  ghost predicate Unforced(run: seq<Machine.State>, marks: seq<nat>, scenes: seq<Scene>, calls: seq<FsCall>)
    requires FileSessions.Points(run, marks) && |marks| <= |scenes| + 1 && |marks| <= |calls| + 1
  {
    forall n :: 0 <= n < |marks| - 1 ==>
      !Interrupted(scenes[n], calls[n], FileSessions.Until(run, marks, n), FileSessions.Until(run, marks, n + 1))
  }

  /** The call after the last completed one was not completed for a reason. */
  ghost predicate StopExplained(c: Codec, reliable: bool, run: seq<Machine.State>, marks: seq<nat>, scenes: seq<Scene>,
      calls: seq<FsCall>, stop: FsReply) {
    && FileSessions.Points(run, marks) && |marks| == |scenes| + 1 && 0 < |scenes| <= |calls|
    && Explained(c, reliable, scenes[|scenes| - 1].ls, run[marks[|scenes| - 1]], run[|run| - 1],
                 calls[|scenes| - 1], stop)
  }

  /** Calls were made up to the first that was not completed, if any. */
  ghost predicate StopOk(c: Codec, reliable: bool, run: seq<Machine.State>, marks: seq<nat>, scenes: seq<Scene>,
      calls: seq<FsCall>, replies: seq<FsReply>, stop: Option<FsReply>) {
    && |marks| == |scenes| + (if stop.Some? then 1 else 0)
    && (stop.Some? ==>
          |replies| < |calls| && Stops(stop.value) && StopExplained(c, reliable, run, marks, scenes, calls, stop.value))
  }

  lemma UnforcedLess(run: seq<Machine.State>, run': seq<Machine.State>, marks: seq<nat>, scenes: seq<Scene>,
      calls: seq<FsCall>)
    requires FileSessions.Points(run, marks) && run <= run' && |marks| <= |calls| && |marks| <= |scenes|
    ensures FileSessions.Points(run', marks + [|run'| - 1])
    ensures Unforced(run', marks + [|run'| - 1], scenes, calls) ==>
              Unforced(run, marks, scenes, calls) && !Interrupted(scenes[|marks| - 1], calls[|marks| - 1], run, run')
  {
    hide FileSessions.Until, Interrupted;
    FileSessions.UntilStays(run, run', marks, |marks| - 1);
    forall n | 0 <= n < |marks|
      ensures FileSessions.Until(run', marks + [|run'| - 1], n) == FileSessions.Until(run, marks, n)
    {
      FileSessions.UntilStays(run, run', marks, n);
    }
  }

  /** Scenes after the last mark do not matter. */
  lemma UnforcedSame(run: seq<Machine.State>, marks: seq<nat>, scenes: seq<Scene>, sc: Scene, calls: seq<FsCall>)
    requires FileSessions.Points(run, marks) && |marks| <= |scenes| + 1 && |marks| <= |calls| + 1
    ensures Unforced(run, marks, scenes + [sc], calls) <==> Unforced(run, marks, scenes, calls)
  {
    hide FileSessions.Until, Interrupted;
    assert forall n :: 0 <= n < |marks| - 1 ==> (scenes + [sc])[n] == scenes[n];
  }

  /** The next call was made; it is not completed yet. */
  lemma MarksMore(run: seq<Machine.State>, run': seq<Machine.State>, marks: seq<nat>, scenes: seq<Scene>,
      calls: seq<FsCall>, replies: seq<FsReply>)
    requires Marks(run, marks, scenes, calls, replies) && run <= run' && |marks| == |replies| + 1 <= |calls|
    ensures Marks(run', marks + [|run'| - 1], scenes, calls, replies)
  {
    hide Machine.Unflipped, Machine.Memory, FileSessions.Until, Synced;
    var marks' := marks + [|run'| - 1];
    FileSessions.UntilStays(run, run', marks, 0);
    forall n | 0 <= n < |scenes| ensures Machine.Memory(run'[marks'[n]]) == scenes[n].v {
      assert run'[marks[n]] == run[marks[n]];
    }
    forall n | 0 <= n < |replies| && Synced(calls[n], replies[n])
      ensures !Machine.Unflipped(FileSessions.Until(run', marks', n), FileSessions.Until(run', marks', n + 1))
    {
      FileSessions.UntilStays(run, run', marks, n);
      FileSessions.UntilStays(run, run', marks, n + 1);
    }
  }

  /** And now it is. */
  lemma MarksDone(run: seq<Machine.State>, run': seq<Machine.State>, marks: seq<nat>, scenes: seq<Scene>,
      calls: seq<FsCall>, replies: seq<FsReply>, sc: Scene, r: FsReply)
    requires Marks(run, marks, scenes, calls, replies) && run <= run' && |marks| == |replies| + 1 <= |calls|
    requires Machine.Memory(run'[|run'| - 1]) == sc.v
    requires Synced(calls[|replies|], r) ==> !Machine.Unflipped(run, run')
    ensures Marks(run', marks + [|run'| - 1], scenes + [sc], calls, replies + [r])
  {
    hide Machine.Unflipped, Machine.Memory, FileSessions.Until, Synced;
    var marks', replies' := marks + [|run'| - 1], replies + [r];
    MarksMore(run, run', marks, scenes, calls, replies);
    FileSessions.UntilStays(run, run', marks, |marks| - 1);
    forall n | 0 <= n < |replies'| && Synced(calls[n], replies'[n])
      ensures !Machine.Unflipped(FileSessions.Until(run', marks', n), FileSessions.Until(run', marks', n + 1))
    {
      if n < |replies| { assert replies'[n] == replies[n]; }
    }
  }

  lemma StopsFor(c: Codec, reliable: bool, run: seq<Machine.State>, run': seq<Machine.State>, marks: seq<nat>,
      scenes: seq<Scene>, calls: seq<FsCall>, r: FsReply)
    requires FileSessions.Points(run, marks) && |marks| == |scenes| <= |calls| && run <= run'
    requires Explained(c, reliable, scenes[|scenes| - 1].ls, run[|run| - 1], run'[|run'| - 1], calls[|scenes| - 1], r)
    ensures StopExplained(c, reliable, run', marks + [|run'| - 1], scenes, calls, r)
  {
    hide Explained;
    FileSessions.UntilStays(run, run', marks, 0);
  }

  lemma MarksStart(run: seq<Machine.State>, sc: Scene, calls: seq<FsCall>)
    requires |run| > 0 && Machine.Memory(run[|run| - 1]) == sc.v
    ensures FileSessions.Points(run, [|run| - 1]) && Marks(run, [|run| - 1], [sc], calls, [])
  {}

  /**
   Play calls until they are done or one is not completed. Every completed call does to the tree, to the stored pages
   and to the files what it should. The calls are made at the marks of the run. If none that may commit was interrupted
   by a commit, calls are atomic: a crash at any point leads to what held between two of them, or to the last commit
   before.
   */
  method Play(fs: Filesystem, calls: seq<FsCall>, clock: nat -> nat)
    returns (replies: seq<FsReply>, stop: Option<FsReply>, ghost scenes: seq<Scene>, ghost marks: seq<nat>)
    requires fs.Valid() && forall n: nat :: clock(n) < U64
    requires forall k :: 0 <= k < |calls| ==> CallOk(TreeAt(fs.View(), calls, k), calls[k])
    modifies fs, fs.f.vol, fs.f.vol.dev, fs.f.vol.bm, fs.f.vol.bm.bits, fs.f.vol.ddt, fs.f.vol.scratch, fs.f.vol.tbl
    ensures fs.f.Sound() && old(fs.f.vol.trace) <= fs.f.vol.trace
    ensures IsSession(scenes, calls, replies) && scenes[0] == old(Here(fs))
    ensures stop.None? ==> |replies| == |calls| && fs.Valid() && Here(fs) == scenes[|calls|]
    ensures StopOk(fs.f.vol.codec, fs.f.vol.dev.reliable, fs.f.vol.trace, marks, scenes, calls, replies, stop)
    ensures Marks(fs.f.vol.trace, marks, scenes, calls, replies) && marks[0] == |old(fs.f.vol.trace)| - 1
    ensures Unforced(fs.f.vol.trace, marks, scenes, calls) ==>
              Lands(old(fs.f.vol.trace), fs.f.vol.trace, scenes) && Durable(fs.f.vol.s, scenes, calls, replies)
  {
    hide Structure, CountsOk, Files.Sound, Filesystem.Valid, SceneOk, Went, Stops, Lands, IsSession, Machine.Leads,
      CallOk, TreeAt, GoodView, Left, Durable, Machine.Flipping, Synced, Marks, Unforced, Interrupted,
      FileSessions.Points, Machine.Unflipped, Machine.Memory, Explained, StopExplained;
    AtHere(fs);
    replies, stop, scenes, marks := [], None, [Here(fs)], [|fs.f.vol.trace| - 1];
    MarksStart(fs.f.vol.trace, Here(fs), calls);
    LandsNone(fs.f.vol.trace, scenes);
    SessionStarts(Here(fs), calls);
    assert Durable(fs.f.vol.s, scenes, calls, replies) by { DurableNone(fs.f.vol.s, scenes, calls); }
    while |replies| < |calls| && stop.None?
      invariant fs.f.Sound() && old(fs.f.vol.trace) <= fs.f.vol.trace && FileSessions.Points(fs.f.vol.trace, marks)
      invariant IsSession(scenes, calls, replies) && |scenes| == |replies| + 1 && |replies| <= |calls|
                && scenes[0] == old(Here(fs))
      invariant stop.Some? ==> |replies| < |calls| && Stops(stop.value)
      invariant stop.Some? ==> StopExplained(fs.f.vol.codec, fs.f.vol.dev.reliable, fs.f.vol.trace, marks, scenes,
                  calls, stop.value)
      invariant stop.None? ==> fs.Valid() && Here(fs) == scenes[|replies|]
      invariant Marks(fs.f.vol.trace, marks, scenes, calls, replies) && |marks| > 0
      invariant |marks| == |scenes| + (if stop.Some? then 1 else 0) && marks[0] == |old(fs.f.vol.trace)| - 1
      invariant Unforced(fs.f.vol.trace, marks, scenes, calls) ==>
                Lands(old(fs.f.vol.trace), fs.f.vol.trace, scenes) && Durable(fs.f.vol.s, scenes, calls, replies)
      decreases |calls| - |replies|, stop.None?
    {
      var k := |replies|;
      SessionTrees(scenes, calls, replies, k);
      AtHere(fs);
      ghost var run, s := fs.f.vol.trace, fs.f.vol.s;
      var r := PlayOne(fs, calls[k], clock(k));
      ghost var run' := fs.f.vol.trace;
      EndsHere(fs.f);
      UnforcedLess(run, run', marks, scenes, calls);
      ghost var atomic := Unforced(run', marks + [|run'| - 1], scenes, calls);
      if atomic {
        LandsMore(old(fs.f.vol.trace), run, run', scenes, k);
        DurableMore(s, fs.f.vol.s, scenes, calls, replies, r, k);
      }
      if Stops(r) {
        MarksMore(run, run', marks, scenes, calls, replies);
        StopsFor(fs.f.vol.codec, fs.f.vol.dev.reliable, run, run', marks, scenes, calls, r);
        stop := Some(r);
      } else {
        AtHere(fs);
        SessionMore(scenes, calls, replies, r, Here(fs));
        MarksDone(run, run', marks, scenes, calls, replies, Here(fs), r);
        UnforcedSame(run', marks + [|run'| - 1], scenes, Here(fs), calls);
        if atomic {
          LandsWider(old(fs.f.vol.trace), run', scenes, Here(fs));
          DurableNext(s, fs.f.vol.s, scenes, calls, replies, r, Here(fs));
        }
        replies, scenes := replies + [r], scenes + [Here(fs)];
      }
      marks := marks + [|run'| - 1];
    }
  }

  lemma SessionStarts(sc: Scene, calls: seq<FsCall>)
    requires SceneOk(sc)
    ensures IsSession([sc], calls, [])
  {
    hide SceneOk;
  }

  // ----- what sessions keep -----

  /** The strict caller: no rename over a directory that is not empty, or onto itself. */
  ghost predicate CallClean(t: Tree, call: FsCall) { call.Change? ==> Allowed(t, call.op, true) }

  /** Over whole sessions the tree keeps its invariant: link counts are numbers of names, directories form one tree. */
  lemma {:induction false} SessionInv(scenes: seq<Scene>, calls: seq<FsCall>, replies: seq<FsReply>, n: nat)
    requires IsSession(scenes, calls, replies) && n < |scenes| && Trees.Inv(scenes[0].t)
    requires forall k :: 0 <= k < |replies| ==> CallClean(scenes[k].t, calls[k])
    ensures Trees.Inv(scenes[n].t)
  {
    hide SceneOk, Went, Stops, Structure, CountsOk, Apply, Allowed;
    if n > 0 {
      SessionInv(scenes, calls, replies, n - 1);
      assert Went(scenes[n - 1], calls[n - 1], replies[n - 1], scenes[n - 1 + 1])
        && CallClean(scenes[n - 1].t, calls[n - 1]);
      WentTree(scenes[n - 1], calls[n - 1], replies[n - 1], scenes[n]);
      match calls[n - 1]
      case Change(op, _) => ApplyKeeps(scenes[n - 1].t, op, true);
      case MakeLink(p, x, _) =>
        assert Allowed(scenes[n - 1].t, CreateOp(p, x, TYPE_LINK), true) by { CreateAllowed(scenes[n - 1].t, p, x); }
        ApplyKeeps(scenes[n - 1].t, CreateOp(p, x, TYPE_LINK), true);
      case Data(_) =>
    }
  }

  lemma CreateAllowed(t: Tree, p: nat, n: Name)
    ensures Allowed(t, CreateOp(p, n, TYPE_LINK), true)
  {}

  /** The call on data names a file in use, and did not fail half way. */
  ghost predicate CallFull(t: Tree, call: FsCall, r: FsReply) {
    call.Data? && r.Served? ==>
      !FileSessions.Lossy(call.call, r.served) && (FileOf(call.call).Some? ==> Trees.Live(t, FileOf(call.call).value))
  }

  /** The file a call changes. */
  function FileOf(call: FileSessions.Call): Option<nat> {
    if call.Write? || call.Replace? || call.Resize? then Some(call.id) else None
  }

  lemma CallTidy(t: Tree, v: View, call: FileSessions.Call, r: FileSessions.Reply, v': View)
    requires FileSessions.StepOf(v, call, r, v') && FileCall(call) && !FileSessions.Lossy(call, r) && Tidy(t, v)
    requires FileOf(call).Some? ==> Trees.Live(t, FileOf(call).value)
    ensures Tidy(t, v')
  {
    hide Content, SameSurplus, Records.Splice, Held;
  }

  lemma SurplusExact(v: View, v': View)
    requires Exact(v) && SameSurplus(v, v')
    ensures Exact(v')
  {
    hide Held;
  }

  lemma WentExact(a: Scene, call: FsCall, r: FsReply, b: Scene)
    requires Went(a, call, r, b) && CallFull(a.t, call, r) && Exact(a.v) && Tidy(a.t, a.v)
    ensures Exact(b.v) && Tidy(b.t, b.v)
  {
    hide Exact, Tidy, Apply, FilesKept, SameSurplus, FileSessions.StepOf, FileSessions.Lossy, Content, Matches,
      Trees.Live;
    if call.Data? {
      FileSessions.StepExact(a.v, call.call, r.served, b.v);
      CallTidy(a.t, a.v, call.call, r.served, b.v);
    } else if b != a {
      SurplusExact(a.v, b.v);
    }
  }

  /** Over whole sessions each reference count stays exactly the number of its uses, and free slots hold no data. */
  lemma {:induction false} SessionExact(scenes: seq<Scene>, calls: seq<FsCall>, replies: seq<FsReply>, n: nat)
    requires IsSession(scenes, calls, replies) && n < |scenes| && Exact(scenes[0].v) && Tidy(scenes[0].t, scenes[0].v)
    requires forall k :: 0 <= k < |replies| ==> CallFull(scenes[k].t, calls[k], replies[k])
    ensures Exact(scenes[n].v) && Tidy(scenes[n].t, scenes[n].v)
  {
    hide SceneOk, Went, Stops, Exact, Tidy, CallFull;
    if n > 0 {
      SessionExact(scenes, calls, replies, n - 1);
      assert CallFull(scenes[n - 1].t, calls[n - 1], replies[n - 1]);
      assert Went(scenes[n - 1], calls[n - 1], replies[n - 1], scenes[n - 1 + 1]);
      WentExact(scenes[n - 1], calls[n - 1], replies[n - 1], scenes[n]);
    }
  }

  // ----- power failures -----

  lemma KeepsStores(sn: Machine.Snap, sc: Scene)
    requires SceneOk(sc) && Keeps(sn, sc) && sn.meta.tbl.count <= |sn.meta.tbl.inodes|
    ensures StoresTree(sn, sc.t, sc.ls)
  {
    hide Structure, CountsOk, Laid, NamesIn, SlotsOf;
  }

  lemma CountInside(c: Codec, s: Machine.State)
    requires Machine.Inv(c, s)
    ensures s.base.meta.tbl.count <= |s.base.meta.tbl.inodes| && s.meta.tbl.count <= |s.meta.tbl.inodes|
  {
    hide Machine.Deferral, Machine.PhaseOk, Machine.Persisted, Machine.Beaten, Machine.Spared, Machine.OneOwner,
      Machine.Pinned;
  }

  /** The snapshot is that of one of the scenes. */
  ghost predicate Among(sn: Machine.Snap, scenes: seq<Scene>) {
    exists k :: 0 <= k < |scenes| && Keeps(sn, scenes[k]) && StoresTree(sn, scenes[k].t, scenes[k].ls)
  }

  /**
   Whatever a power failure makes of the disk, a mount returns the directory tree and the files of one of the scenes.
   */
  ghost predicate Recovers(c: Codec, s: Machine.State, scenes: seq<Scene>) {
    forall img :: Machine.CrashImage(c, s.disk, img) ==> BringsBack(c, s, img, scenes)
  }

  ghost predicate BringsBack(c: Codec, s: Machine.State, img: Image, scenes: seq<Scene>) {
    exists sn :: Machine.Candidate(s, sn) && Snapshot.Mount(c.hash, img) == Ok((sn.ub, sn.meta))
                 && Machine.ReadAll(c, img, sn.meta.ddt) == sn.plain && Among(sn, scenes)
  }

  lemma MountFinds(c: Codec, run: seq<Machine.State>, m: nat, n: nat, img: Image) returns (sn: Machine.Snap)
    requires Machine.IsRun(c, run) && m <= n < |run| && Machine.Start(c, run[m])
              && Machine.CrashImage(c, run[n].disk, img)
    ensures Machine.Candidate(run[n], sn) && Snapshot.Mount(c.hash, img) == Ok((sn.ub, sn.meta))
    ensures Machine.ReadAll(c, img, sn.meta.ddt) == sn.plain && sn.meta.tbl.count <= |sn.meta.tbl.inodes|
  {
    hide Machine.Inv, Machine.Accounted, Machine.CrashImage, Snapshot.Mount, Machine.ReadAll, Machine.Candidate,
      Machine.NextCrash, Machine.Readable, Machine.Steps;
    var rest := run[m..];
    forall i | 0 <= i < |rest| - 1 ensures Machine.Steps(c, rest[i], rest[i + 1]) {
      assert Machine.Steps(c, run[m + i], run[m + i + 1]);
    }
    sn := Machine.CrashSafety(c, rest, n - m, img);
    var s' :| Machine.NextCrash(c, run[n], s', img) && s'.meta == sn.meta && s'.plain == sn.plain
      && Machine.Start(c, s');
    CountInside(c, s');
  }

  /**
   Crash safety of the directory tree and the files over whole sessions. Take a session in which no commit was forced
   inside a call, starting from a commit of its first scene. At any point of it, and whatever image a power failure
   leaves, a mount succeeds and returns exactly one of the scenes between two calls: its inodes, its directories page
   by page, and its data.
   */
  lemma NamespaceSurvives(c: Codec, run: seq<Machine.State>, run': seq<Machine.State>, scenes: seq<Scene>, n: nat)
    requires Machine.IsRun(c, run') && Lands(run, run', scenes) && |run| - 1 <= n < |run'|
              && Machine.Start(c, run[|run| - 1])
    requires |scenes| > 0 && Keeps(run[|run| - 1].base, scenes[0]) && forall k :: 0 <= k < |scenes| ==>
              SceneOk(scenes[k])
    ensures Recovers(c, run'[n], scenes)
  {
    hide Machine.IsRun, Machine.Start, Machine.CrashImage, Snapshot.Mount, Machine.ReadAll, Machine.Candidate,
      StoresTree, SceneOk, Keeps;
    forall img | Machine.CrashImage(c, run'[n].disk, img) ensures BringsBack(c, run'[n], img, scenes) {
      var sn := MountFinds(c, run', |run| - 1, n, img);
      var k :| 0 <= k < |scenes| && Keeps(sn, scenes[k]);
      KeepsStores(sn, scenes[k]);
    }
  }

  lemma FoundAmong(c: Codec, s: Machine.State, sn: Machine.Snap, scenes: seq<Scene>) returns (k: nat)
    requires Machine.Inv(c, s) && s.base == sn && |scenes| > 0 && forall k :: 0 <= k < |scenes| ==> SceneOk(scenes[k])
    requires exists k :: 0 <= k < |scenes| && Keeps(sn, scenes[k])
    ensures k < |scenes| && Keeps(sn, scenes[k]) && StoresTree(sn, scenes[k].t, scenes[k].ls) && Forest(scenes[k].t)
  {
    hide Machine.Inv, StoresTree, Keeps, Structure, CountsOk, Laid, NamesIn, SlotsOf;
    k :| 0 <= k < |scenes| && Keeps(sn, scenes[k]);
    CountInside(c, s);
    KeepsStores(sn, scenes[k]);
  }

  /**
   The power fails at the end of such a session, leaving `img`, and the filesystem is mounted again. It is one of the
   scenes with the free list rebuilt and no handles, and can go on exactly when the scan for free slots finds what is
   free; the full invariant is then kept too.
   */
  method Reopen(codec: Codec, dev: Device, img: Image, ghost run: seq<Machine.State>, ghost run': seq<Machine.State>,
      ghost scenes: seq<Scene>)
    returns (r: Result<Filesystem, Snapshot.MountError>, ghost k: nat)
    requires Running(codec, run') && Machine.GoodRun(GoodFn(codec), run') && dev.hash == codec.hash
    requires dev.Disk() == run'[|run'| - 1].disk && Machine.CrashImage(codec, dev.Disk(), img)
    requires Lands(run, run', scenes) && |scenes| > 0 && Keeps(run[|run| - 1].base, scenes[0])
    requires forall k :: 0 <= k < |scenes| ==> SceneOk(scenes[k])
    modifies dev
    ensures r.Err? ==> r.error == Snapshot.DeviceError && !dev.reliable
    ensures r.Ok? ==> var fs := r.value;
              && k < |scenes| && fs.Stored() && fs.f.V() == scenes[k].v && fs.layouts == scenes[k].ls
              && fs.f.vol.tbl.slots.count <= |scenes[k].t.slots|
                   && fs.View() == Remounted(scenes[k].t, fs.f.vol.tbl.slots.count)
    ensures r.Ok? ==> var fs := r.value; fs.f.vol.trace == run' + [fs.f.vol.s] && Keeps(fs.f.vol.s.base, Here(fs))
    ensures r.Ok? ==> var fs := r.value;
              && scenes[k].t.next <= |scenes[k].t.slots|
              && (fs.Valid() <==> ScanFinds(scenes[k].t, fs.f.vol.tbl.slots.count))
              && (Trees.Inv(scenes[k].t) && fs.Valid() ==> Trees.Inv(fs.View()))
  {
    hide Machine.Inv, Machine.Accounted, Machine.IsRun, Machine.GoodRun, Machine.CrashImage, Structure, CountsOk, Laid,
      NamesIn, SlotsOf, GoodView, SceneOk;
    k := 0;
    PowerLoss(dev, codec, img);
    var m := MountFiles(codec, dev, run');
    if m.Err? {
      return Err(m.error), k;
    }
    var f := m.value;
    k := FoundAmong(codec, f.vol.s, f.vol.s.base, scenes);
    ghost var t := scenes[k].t;
    MarkInside(f);
    NextInRange(t);
    var fs := new Filesystem.Mount(f, t, scenes[k].ls);
    return Ok(fs), k;
  }

  /** No slot that the scan takes for free holds data: none has a live inode without links and with contents. */
  ghost predicate NoOrphans(t: Tree, v: View, count: nat) {
    forall id: nat :: id < count && id < |t.slots| && Trees.Live(t, id) && t.slots[id].nlink == 0 ==> EmptyAt(v, id)
  }

  /** After a mount the free slots are without data exactly when no file in use had lost its last name. */
  lemma RemountTidy(t: Tree, v: View, count: nat)
    requires Tidy(t, v) && |v.inodes| == |t.slots| && count <= |t.slots|
    ensures Tidy(Remounted(t, count), v) <==> NoOrphans(t, v, count)
  {
    hide Content;
    FreeSlotsAre(t.slots, count);
    var t' := Remounted(t, count);
    forall id: nat | id < count && Trees.Live(t, id) && t.slots[id].nlink == 0 ensures !Trees.Live(t', id) {
      assert id in t'.free;
    }
  }

  /** Making an inode in a slot keeps every count in step with its uses exactly when the slot held no data. */
  lemma ReuseLeaks(c: Codec, v: View, id: nat, x: Inode)
    requires GoodView(c, v) && id < |v.inodes| && Fits(x) && x.size == 0
    ensures SameSurplus(v, v.(inodes := v.inodes[id := x])) <==> EmptyAt(v, id)
  {
    hide Content, Held, SameSurplus, AllTrusted, Consistent, DataOk, Keys;
    PutOk(c, v, v.(inodes := v.inodes[id := x]), id, x);
    NoKeys(c, v, id, x);
    ContentIs(v.inodes[id], v);
    DataFits(v.inodes[id], v);
    if v.inodes[id].size > 0 { SomeKeys(v.inodes[id], v.plain); }
  }

  /** Data are held by some block. */
  lemma SomeKeys(i: Inode, plain: map<Key, Bytes>)
    requires i.size > 0 && Fits(i)
    ensures Keys(i, plain) != multiset{}
  {
    hide Fits;
    MapFits(i);
    if External(i) {
      assert MapRef(i).hash in Container(i);
    } else {
      assert RefsOf(i, plain) == [MapRef(i)];
      assert KeysOf([MapRef(i)])[MapRef(i).hash] > 0;
    }
  }

  /** A fresh volume with a file "a", opened and then unlinked. */
  ghost function Orphaned(): Tree {
    Trees.Unlink(Trees.Open(Create(Formatted(2), ROOT, [97], TYPE_REGULAR).0, 1).0, ROOT, [97]).0
  }

  /**
   Such a file holds its data while it is open. A mount of that state takes its slot for a free one, data and all, and
   the next inode is made there.
   */
  lemma OrphanUntidy(v: View)
    requires |v.inodes| == 2 && Tidy(Orphaned(), v) && !EmptyAt(v, 1)
    ensures Trees.Inv(Orphaned()) && Orphaned().next <= |Orphaned().slots| && ScanFinds(Orphaned(), 2)
    ensures !Tidy(Remounted(Orphaned(), 2), v) && FreshId(Remounted(Orphaned(), 2)) == 1
  {
    hide Structure, CountsOk, Content;
    FormattedKeeps(2);
    var t1 := Create(Formatted(2), ROOT, [97], TYPE_REGULAR).0;
    CreateKeeps(Formatted(2), ROOT, [97], TYPE_REGULAR, true);
    assert t1.names == map[0 := map[[97] := 1]];
    var t2 := Trees.Open(t1, 1).0;
    OpenKeeps(t1, 1, true);
    UnlinkKeeps(t2, ROOT, [97], true);
    RemountTidy(Orphaned(), v, 2);
    FreeSlotsAre(Orphaned().slots, 2);
  }

  lemma MarkInside(f: Files)
    requires f.Sound()
    ensures f.vol.tbl.slots.inodes == f.V().inodes && f.vol.tbl.slots.count <= |f.V().inodes|
              && Machine.Start(f.vol.codec, f.vol.s)
    ensures Machine.IsRun(f.vol.codec, f.vol.trace) && f.vol.trace[|f.vol.trace| - 1] == f.vol.s
  {
    hide GoodView, Machine.Inv, Machine.Accounted, Machine.IsRun, Machine.GoodRun;
    CountInside(f.vol.codec, f.vol.s);
  }

  lemma FreshTable(now: nat)
    requires now < U64
    ensures SlotsOf(EmptyTable(DEFAULT_INODE_COUNT).inodes[ROOT_INODE := FileSessions.RootDir(now)]) ==
              Formatted(DEFAULT_INODE_COUNT).slots
  {}

  lemma FreshTidy(c: Codec, v: View, now: nat)
    requires GoodView(c, v) && now < U64
    requires v.inodes == EmptyTable(DEFAULT_INODE_COUNT).inodes[ROOT_INODE := FileSessions.RootDir(now)]
    ensures Tidy(Formatted(DEFAULT_INODE_COUNT), v)
  {
    hide Content, Consistent, AllTrusted;
    forall id | 0 <= id < |v.inodes| ensures Content(v.inodes[id], v.plain) == [] { BlankData(v.inodes[id], v); }
  }

  /**
   The run holds the session from `marks[0]` on, where the first scene is committed. If no call that may commit was
   interrupted by a commit, every point from there recovers to a scene, and the end to none before the last sync.
   */
  ghost predicate Safe(c: Codec, run: seq<Machine.State>, marks: seq<nat>, scenes: seq<Scene>, calls: seq<FsCall>,
      replies: seq<FsReply>) {
    && Marks(run, marks, scenes, calls, replies) && |marks| <= |scenes| + 1 && Keeps(run[marks[0]].base, scenes[0])
    && (Unforced(run, marks, scenes, calls) ==>
          && (forall n :: marks[0] <= n < |run| ==> Recovers(c, run[n], scenes))
          && Durable(run[|run| - 1], scenes, calls, replies))
  }

  /**
   A filesystem from its making: format, mount, write the root directory, then play any calls. If no call that may
   commit was interrupted by a commit, then whatever a power failure at any point after the formatting leaves mounts as
   the tree and the files between two calls, and after a sync as no earlier ones.
   */
  method FormatSession(codec: Codec, dev: Device, now: nat, calls: seq<FsCall>, clock: nat -> nat)
    returns (r: Option<Filesystem>, replies: seq<FsReply>, stop: Option<FsReply>, ghost scenes: seq<Scene>,
      ghost marks: seq<nat>)
    requires CodecOk(codec) && dev.hash == codec.hash && |dev.cur| < U64 && now < U64 && forall n: nat :: clock(n) < U64
    requires |dev.cur| > 0 ==> Uber.Parse(dev.hash, dev.cur[0]).Err?
    requires Snapshot.SlotBlocks(|dev.cur|, DEFAULT_INODE_COUNT, DEFAULT_DDT_RESERVE) * BLK < U32
    requires forall k :: 0 <= k < |calls| ==> CallOk(TreeAt(Formatted(DEFAULT_INODE_COUNT), calls, k), calls[k])
    modifies dev
    ensures r.None? ==> !dev.reliable || TooSmall(|old(dev.cur)|)
    ensures r.Some? ==> StopOk(codec, dev.reliable, r.value.f.vol.trace, marks, scenes, calls, replies, stop)
    ensures r.Some? ==> var fs := r.value;
              && fs.f.Sound() && IsSession(scenes, calls, replies) && scenes[0].t == Formatted(DEFAULT_INODE_COUNT)
              && Exact(scenes[0].v) && Tidy(scenes[0].t, scenes[0].v) && Trees.Inv(scenes[0].t)
    ensures r.Some? && stop.None? ==>
              var fs := r.value; |replies| == |calls| && fs.Valid() && Here(fs) == scenes[|calls|]
    ensures r.Some? ==> Safe(codec, r.value.f.vol.trace, marks, scenes, calls, replies)
  {
    hide Machine.Inv, Machine.Accounted, Machine.IsRun, Machine.GoodRun, Machine.CrashImage, Structure, CountsOk, Laid,
      NamesIn, SlotsOf, GoodView, SceneOk, Uber.Parse, Snapshot.SlotBlocks, CallOk, TreeAt, Exact, Tidy,
      FileSessions.Remountable, FileSessions.ExactSurvivors, IsSession, Stops, Lands, Recovers, Durable,
      Filesystem.Valid, Marks, Unforced, FileSessions.Points, Safe, StopExplained, TooSmall, CodecOk;
    replies, stop, scenes, marks := [], None, [], [];
    var made := FileSessions.FormatFs(codec, dev, now);
    if made.None? {
      return None, replies, stop, scenes, marks;
    }
    var f := made.value;
    FreshTable(now);
    FreshTidy(codec, f.V(), now) by { SoundGood(f); }
    MarkInside(f);
    var fs := new Filesystem.Fresh(f);
    ghost var run := f.vol.trace;
    replies, stop, scenes, marks := Play(fs, calls, clock);
    AllRecover(f, run, marks, scenes, calls, replies);
    return Some(fs), replies, stop, scenes, marks;
  }

  lemma AllRecover(f: Files, run: seq<Machine.State>, marks: seq<nat>, scenes: seq<Scene>, calls: seq<FsCall>,
      replies: seq<FsReply>)
    requires f.Sound() && |run| > 0 && run <= f.vol.trace && Machine.Start(f.vol.codec, run[|run| - 1])
    requires IsSession(scenes, calls, replies) && Keeps(run[|run| - 1].base, scenes[0])
    requires Marks(f.vol.trace, marks, scenes, calls, replies) && marks[0] == |run| - 1 && |marks| <= |scenes| + 1
    requires Unforced(f.vol.trace, marks, scenes, calls) ==>
              Lands(run, f.vol.trace, scenes) && Durable(f.vol.s, scenes, calls, replies)
    ensures Safe(f.vol.codec, f.vol.trace, marks, scenes, calls, replies)
  {
    hide SceneOk, Went, Recovers, Keeps, Files.Sound, Machine.Start, Machine.IsRun, Unforced, Machine.Unflipped,
      Machine.Memory, Synced, FileSessions.Until, Durable, Lands;
    MarkInside(f);
    if Unforced(f.vol.trace, marks, scenes, calls) {
      forall n | |run| - 1 <= n < |f.vol.trace| ensures Recovers(f.vol.codec, f.vol.trace[n], scenes) {
        NamespaceSurvives(f.vol.codec, run, f.vol.trace, scenes, n);
      }
    }
  }
}
