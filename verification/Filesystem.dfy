/** The namespace operations over the block layer: directories are read from their records and written back to them. */
module Filesystems {
  import opened Bytes
  import opened Store
  import opened Inodes
  import opened FileView
  import opened Files
  import opened Directories
  import opened DirPages
  import opened DirectoryFiles
  import opened Trees
  import opened Namespaces
  import FileSessions
  import Records
  import Machine

  function NodeOf(i: Inode): Node { Node(i.kind, i.nlink, i.generation) }

  function SlotsOf(inodes: seq<Inode>): (s: seq<Node>)
    ensures |s| == |inodes| && forall id :: 0 <= id < |s| ==> s[id] == NodeOf(inodes[id])
  {
    seq(|inodes|, id requires 0 <= id < |inodes| => NodeOf(inodes[id]))
  }

  ghost function ContentsOf(v: View): (b: seq<Bytes>)
    ensures |b| == |v.inodes| && forall id :: 0 <= id < |b| ==> b[id] == Content(v.inodes[id], v.plain)
  {
    seq(|v.inodes|, id requires 0 <= id < |v.inodes| => Content(v.inodes[id], v.plain))
  }

  /** Every directory is stored page by page. */
  ghost predicate Laid(v: View, ls: Layouts) {
    && |v.inodes| <= U64 && LayoutsOk(ls)
    && forall d :: d in ls ==> d < |v.inodes| && StoredDir(v.inodes[d], v, ls[d].pages)
  }

  /** Only the data of some inodes differ. */
  ghost predicate DataKept(v: View, v': View, but: set<nat>) {
    |v'.inodes| == |v.inodes|
    && forall j :: 0 <= j < |v.inodes| && j !in but ==> Content(v'.inodes[j], v'.plain) == Content(v.inodes[j], v.plain)
  }

  /** Slots not in use have no contents. */
  ghost predicate Tidy(t: Tree, v: View) {
    forall id :: 0 <= id < |v.inodes| && !Trees.Live(t, id) ==> Content(v.inodes[id], v.plain) == []
  }

  ghost predicate EmptyAt(v: View, id: nat) { id < |v.inodes| && Content(v.inodes[id], v.plain) == [] }

  /** A file in use before and after reads the same. */
  ghost predicate FilesKept(t: Tree, v: View, t': Tree, v': View) {
    |v'.inodes| == |v.inodes|
    && forall id :: 0 <= id < |v.inodes| && Trees.Live(t, id) && id !in t.names && Trees.Live(t', id) ==>
         Content(v'.inodes[id], v'.plain) == Content(v.inodes[id], v.plain)
  }

  /**
   The operation did to the tree and the pages what it should, to files nothing, and each count moved with its uses.
   */
  ghost predicate Worked(t: Tree, ls: Layouts, v: View, op: Op, t': Tree, ls': Layouts, v': View, r: Reply) {
    Does(t, ls, op, t', ls', r) && FilesKept(t, v, t', v') && (Tidy(t, v) ==> Tidy(t', v') && SameSurplus(v, v'))
  }

  /** The data of every directory are where they were. */
  ghost predicate DirsSame(v: View, v': View, ls: Layouts) {
    |v'.inodes| == |v.inodes| && forall d :: d in ls ==> d < |v.inodes| && SameData(v.inodes[d], v'.inodes[d])
  }

  lemma DirsSameTwice(v: View, v1: View, v2: View, ls: Layouts, ls': Layouts)
    requires DirsSame(v, v1, ls) && DirsSame(v1, v2, ls') && ls'.Keys <= ls.Keys
    ensures DirsSame(v, v2, ls')
  {
    forall d | d in ls' ensures d < |v.inodes| && SameData(v.inodes[d], v2.inodes[d]) { assert d in ls.Keys; }
  }

  lemma DirsSameBut(v: View, v': View, ls: Layouts, id: nat)
    requires OthersSame(v, v', id) && Laid(v, ls) && (id in ls ==>
              id < |v.inodes| && SameData(v.inodes[id], v'.inodes[id]))
    ensures DirsSame(v, v', ls)
  {
    hide LayoutOk, StoredDir, Content;
  }

  lemma DirsSameAt(c: Codec, v: View, v': View, ls: Layouts, d: nat)
    requires DirsSame(v, v', ls) && GoodView(c, v) && d in ls
    ensures d < |v.inodes| == |v'.inodes| && InTable(v.inodes[d], d, v')
              && (DirFits(v.inodes, d) <==> DirFits(v'.inodes, d))
  {
    hide GoodView, Fits;
    SlotInTable(c, v, d);
  }

  /** With no frees pending at the start nothing was committed. */
  ghost predicate Uninterrupted(a: Moment, b: Moment) {
    a.s.deferred == [] ==> b.s.base == a.s.base && Machine.Unflipped(a.run, b.run)
  }

  /**
   The rename stores nothing, because it is refused or both names stand for one inode; or it changes a single page and
   releases nothing before that: it stays within one directory, and what it replaces keeps a link or a handle.
   */
  ghost predicate OnePage(t: Tree, ls: Layouts, sp: nat, sn: Name, dp: nat, dn: Name) {
    || RenameError(t, sp, sn, dp).Some?
    || (dp in ls && sp in ls && sn in ls[sp].names
        && var id, l := ls[sp].names[sn], ls[dp];
           || (dn in l.names && l.names[dn] == id)
           || (sp == dp && LayoutOk(l) && (dn in l.names ==> !Recycles(t, l.names[dn]))
               && LayoutOk(Renewed(l, dn, id)) && |DelFrom(Renewed(l, dn, id), sn).0.dirty| <= 1))
  }

  /** The directory has no page yet: its first one replaces nothing. */
  ghost predicate NoPage(ls: Layouts, d: nat) { d in ls && ls[d].pages == [] }

  /** Pages of a directory once a name was added: refs in the block map it then has. */
  ghost function DirRecords(ls: Layouts, d: nat): nat { if d in ls then |ls[d].pages| + 1 else 0 }

  /** Refs in the largest block map an operation stores. */
  ghost function OpRecords(ls: Layouts, op: Op): nat {
    match op
    case CreateOp(p, _, _) => DirRecords(ls, p)
    case UnlinkOp(p, _) => DirRecords(ls, p)
    case RmdirOp(p, _) => DirRecords(ls, p)
    case LinkOp(p, _, _) => DirRecords(ls, p)
    case RenameOp(sp, _, dp, _) => Max(DirRecords(ls, sp), DirRecords(ls, dp))
    case _ => 0
  }

  ghost predicate MayStoreTwice(t: Tree, ls: Layouts, op: Op) {
    op.RenameOp? && !OnePage(t, ls, op.parent, op.name, op.toParent, op.toName)
  }

  lemma OnePageIs(t: Tree, ls: Layouts, sp: nat, sn: Name, dp: nat, dn: Name, id: nat)
    requires MoveReady(t, ls, sp, sn, dp, dn, id) && OnePage(t, ls, sp, sn, dp, dn) && LayoutOk(ls[dp])
    requires !(dn in ls[dp].names && ls[dp].names[dn] == id)
    ensures sp == dp && (dn in ls[dp].names ==> !Recycles(t, ls[dp].names[dn]))
    ensures LayoutOk(Renewed(ls[dp], dn, id)) && |DelFrom(Renewed(ls[dp], dn, id), sn).0.dirty| <= 1
  {
    hide Structure, CountsOk, LayoutOk, RenameError, SafeRename, Recycles, DelFrom, Renewed, Matches;
  }

  lemma ThenSteady(a: Moment, b: Moment, c: Moment)
    requires Uninterrupted(a, b) && b.s.deferred == [] && Steady(b, c)
    ensures Uninterrupted(a, c)
  {
    hide Machine.Unflipped;
    if a.s.deferred == [] { Machine.UnflippedTwice(a.run, b.run, c.run); }
  }

  lemma StillBase(a: Moment, b: Moment)
    requires SameBase(a, b)
    ensures Uninterrupted(a, b)
  {
    hide Machine.Unflipped;
  }

  /** Two steps that commit and release nothing, then one store. */
  lemma StoredOnce(a: Moment, b: Moment, c: Moment, d: Moment)
    requires SameBase(a, b) && SameBase(b, c) && b.s.deferred == a.s.deferred && c.s.deferred == b.s.deferred
    requires Steady(c, d)
    ensures Uninterrupted(a, d)
  {
    hide Machine.Unflipped;
    BaseTwice(a, b, c);
    FreedThen(a, c, d);
  }

  lemma FreedThen(a: Moment, b: Moment, c: Moment)
    requires b.s.base == a.s.base && b.s.deferred == a.s.deferred && Machine.Unflipped(a.run, b.run) && Steady(b, c)
    ensures Uninterrupted(a, c)
  {
    hide Machine.Unflipped;
    if a.s.deferred == [] { Machine.UnflippedTwice(a.run, b.run, c.run); }
  }

  lemma WorkedBy(t: Tree, ls: Layouts, v: View, op: Op, t': Tree, ls': Layouts, v': View, r: Reply, but: set<nat>)
    requires Does(t, ls, op, t', ls', r) && DataKept(v, v', but) && (Tidy(t, v) ==> SameSurplus(v, v'))
    requires t'.next >= t.next && forall j :: j in t'.free ==> j in t.free || j in but
    requires forall j :: j in but ==> j in t.names || !Trees.Live(t, j) || !Trees.Live(t', j)
    requires forall j :: j in but ==> Trees.Live(t', j) || EmptyAt(v', j)
    ensures Worked(t, ls, v, op, t', ls', v', r)
  {
    hide Does, Content, SameSurplus;
  }

  lemma WorkedNot(t: Tree, ls: Layouts, v: View, op: Op, r: Reply)
    requires Does(t, ls, op, t, ls, r)
    ensures Worked(t, ls, v, op, t, ls, v, r)
  {
    hide Does, Content, Held;
  }

  lemma Refused(t: Tree, ls: Layouts, v: View, op: Op, e: Trees.Error)
    requires Matches(t, ls) && NamesFit(op) && Apply(t, op) == (t, Failed(e))
    ensures Worked(t, ls, v, op, t, ls, v, Failed(e))
  {
    hide Matches, Apply, Worked;
    Fails(t, ls, op, e);
    WorkedNot(t, ls, v, op, Failed(e));
  }

  /** The list of refs of a directory that may gain a page stays within its width. */
  predicate DirFits(inodes: seq<Inode>, d: nat) { d < |inodes| ==> 4 + (inodes[d].size / PAGE + 1) * REF_SIZE < U32 }

  predicate OpFits(inodes: seq<Inode>, op: Op) {
    NamesFit(op)
    && match op
       case CreateOp(p, _, kind) => kind < 256 && DirFits(inodes, p)
       case UnlinkOp(p, _) => DirFits(inodes, p)
       case RmdirOp(p, _) => DirFits(inodes, p)
       case LinkOp(p, _, _) => DirFits(inodes, p)
       case RenameOp(sp, _, dp, _) => DirFits(inodes, sp) && DirFits(inodes, dp)
       case _ => true
  }

  lemma WidthOk(v: View, ls: Layouts, d: nat, n: nat)
    requires Laid(v, ls) && d in ls && DirFits(v.inodes, d) && n <= |ls[d].pages| + 1
    ensures 4 + n * REF_SIZE < U32
  {
    hide LayoutOk, Content, DataOk, PageAt, Laid, StoredDir;
    LaidAt(v, ls, d);
    SizeInPages(v.inodes[d], v, ls[d].pages);
    FewerPages(n, |ls[d].pages| + 1);
  }

  lemma SizeInPages(i: Inode, v: View, pages: Pages)
    requires StoredDir(i, v, pages)
    ensures i.size / PAGE == |pages|
  {
    hide Content, DataOk, PageAt, RefsOf;
    ContentIs(i, v);
  }

  /** An added or dropped name opens at most one page and marks one. */
  lemma EditSmall(l: Layout, n: Name, id: nat)
    requires LayoutOk(l) && l.dirty == {}
    ensures |l.used| == |l.pages| && |AddTo(l, n, id).0.pages| <= |l.pages| + 1 && |DelFrom(l, n).0.pages| == |l.pages|
    ensures |AddTo(l, n, id).0.dirty| <= 1 && |DelFrom(l, n).0.dirty| <= 1
  {
    hide PageFits, PageBytes, Distinct, PlacedAt, Mentions;
    PagesGrow(l, n, id);
  }

  lemma DataTwice(v: View, v1: View, v2: View, a: set<nat>, b: set<nat>)
    requires DataKept(v, v1, a) && DataKept(v1, v2, b)
    ensures DataKept(v, v2, a + b)
  {
    hide Content;
  }

  lemma LaidStore(v: View, ls: Layouts)
    requires Laid(v, ls)
    ensures StoreOk(ContentsOf(v), ls)
  {
    hide LayoutOk, Holds, Content, DataOk;
  }

  lemma LaidAt(v: View, ls: Layouts, d: nat)
    requires Laid(v, ls) && d in ls
    ensures d < |v.inodes| && StoredDir(v.inodes[d], v, ls[d].pages) && LayoutOk(ls[d]) && ls[d].dirty == {}
  {
    hide LayoutOk, StoredDir;
  }

  /** A directory nothing happened to is still stored. */
  lemma StoredStays(c: Codec, v: View, v': View, d: nat, pages: Pages)
    requires d < |v.inodes| && StoredDir(v.inodes[d], v, pages) && GoodView(c, v') && d < |v'.inodes|
    requires SameData(v'.inodes[d], v.inodes[d]) && Content(v'.inodes[d], v'.plain) == Content(v.inodes[d], v.plain)
    ensures StoredDir(v'.inodes[d], v', pages)
  {
    hide Consistent, AllTrusted, DataOk, Content, Holds;
  }

  /** One directory has a new layout and the others are untouched. */
  lemma LaidUpdate(c: Codec, v: View, v': View, ls: Layouts, id: nat, l: Layout)
    requires Laid(v, ls) && OthersSame(v, v', id) && GoodView(c, v') && id < |v.inodes|
    requires LayoutOk(l) && l.dirty == {} && StoredDir(v'.inodes[id], v', l.pages)
    ensures Laid(v', ls[id := l])
  {
    hide LayoutOk, StoredDir, Content, GoodView;
    forall d | d in ls && d != id ensures d < |v'.inodes| && StoredDir(v'.inodes[d], v', ls[d].pages) {
      StoredStays(c, v, v', d, ls[d].pages);
    }
  }

  /** One slot that is no directory, or ceases to be one, changed. */
  lemma LaidWithout(c: Codec, v: View, v': View, ls: Layouts, id: nat)
    requires Laid(v, ls) && OthersSame(v, v', id) && GoodView(c, v')
    ensures Laid(v', ls - {id})
  {
    hide LayoutOk, StoredDir, Content, GoodView;
    forall d | d in ls - {id} ensures d < |v'.inodes| && StoredDir(v'.inodes[d], v', ls[d].pages) {
      StoredStays(c, v, v', d, ls[d].pages);
    }
  }

  /** A slot keeps its data. */
  lemma LaidSame(c: Codec, v: View, v': View, ls: Layouts, id: nat)
    requires Laid(v, ls) && OthersSame(v, v', id) && GoodView(c, v') && id < |v.inodes|
    requires SameData(v'.inodes[id], v.inodes[id]) && v'.plain == v.plain
    ensures Laid(v', ls) && DataKept(v, v', {})
  {
    hide LayoutOk, StoredDir, Content, GoodView, SameData;
    SameDataKeys(v'.inodes[id], v.inodes[id], v.plain);
    forall d | d in ls ensures d < |v'.inodes| && StoredDir(v'.inodes[d], v', ls[d].pages) {
      SameDataSelf(v.inodes[d]);
      StoredStays(c, v, v', d, ls[d].pages);
    }
  }

  lemma LaidLess(v: View, ls: Layouts, id: nat)
    requires Laid(v, ls)
    ensures Laid(v, ls - {id})
  {
    hide LayoutOk, StoredDir;
  }

  lemma SameDataSelf(i: Inode)
    ensures SameData(i, i)
  {}

  lemma SameDataBack(i: Inode, j: Inode)
    requires SameData(i, j)
    ensures SameData(j, i)
  {}

  lemma SlotsUpdate(inodes: seq<Inode>, id: nat, x: Inode)
    requires id < |inodes|
    ensures SlotsOf(inodes[id := x]) == SlotsOf(inodes)[id := NodeOf(x)]
  {}

  lemma OthersKeep(v: View, v': View, id: nat)
    requires OthersSame(v, v', id)
    ensures DataKept(v, v', {id})
  {}

  class Filesystem {
    const f: Files
    var free: seq<nat>
    var open: map<nat, nat>

    /** The layout each directory was stored from. */
    ghost var layouts: Layouts

    ghost function View(): Tree
      reads this, f.vol
    {
      Tree(SlotsOf(f.V().inodes), NamesIn(layouts), f.vol.s.ub.nextInode, free, open)
    }

    ghost predicate Stored()
      reads this, f.vol, f.vol.dev, f.vol.bm, f.vol.bm.bits, f.vol.ddt, f.vol.tbl
    {
      f.Valid() && Laid(f.V(), layouts)
    }

    ghost predicate Valid()
      reads this, f.vol, f.vol.dev, f.vol.bm, f.vol.bm.bits, f.vol.ddt, f.vol.tbl
    {
      Forest(View()) && Stored()
    }

    /** A formatted filesystem: an empty root directory and nothing else. */
    constructor Fresh(f: Files)
      requires f.Valid() && 0 < |f.V().inodes| <= U64 && f.vol.s.ub.nextInode == 1
      requires SlotsOf(f.V().inodes) == Formatted(|f.V().inodes|).slots && f.V().inodes[ROOT].size == 0
      ensures Valid() && this.f == f && View() == Formatted(|f.V().inodes|) && layouts == map[ROOT := EMPTY]
                && Trees.Inv(View())
    {
      hide Structure, CountsOk, Files.Sound, Content;
      this.f, free, open, layouts := f, [], map[], map[ROOT := EMPTY];
      new;
      FormattedKeeps(|f.V().inodes|);
      Loosen(Formatted(|f.V().inodes|), true);
      RootLaid(f.vol.codec, f.V()) by { SoundGood(f); }
    }

    /** Mount: the free list is rebuilt from the table, handles start empty. */
    constructor Mount(f: Files, ghost t: Tree, ghost ls: Layouts)
      requires f.Valid() && t.slots == SlotsOf(f.V().inodes) && t.next == f.vol.s.ub.nextInode <= |t.slots|
      requires t.names == NamesIn(ls) && Laid(f.V(), ls) && f.vol.tbl.slots.count <= |t.slots|
      ensures Stored() && this.f == f && View() == Remounted(t, f.vol.tbl.slots.count) && layouts == ls
      ensures Forest(t) ==> (Valid() <==> ScanFinds(t, f.vol.tbl.slots.count))
      ensures Trees.Inv(t) ==> (Trees.Inv(View()) <==> ScanFinds(t, f.vol.tbl.slots.count))
    {
      hide Structure, CountsOk, Files.Sound, Laid, NamesIn;
      SameTable(f);
      if Forest(t) { RemountKeeps(t, f.vol.tbl.slots.count, false); }
      if Trees.Inv(t) { RemountKeeps(t, f.vol.tbl.slots.count, true); }
      var list := RebuildFree(SlotsOf(f.vol.tbl.slots.inodes), f.vol.tbl.slots.count);
      this.f, free, open, layouts := f, list, map[], ls;
    }

    // ----- reading -----

    /** Load a directory from its records. */
    method LoadDir(id: nat) returns (r: Result<Result<Layout, Trees.Error>, Store.Error>)
      requires Valid()
      ensures r.Ok? ==> r.value == Loaded(View(), layouts, id)
      ensures r.Err? ==> r.error == Block && !f.vol.dev.reliable
    {
      hide Structure, CountsOk, LayoutOk, Holds, DecodePages, Built, Files.Sound, Content, DataOk;
      SameTable(f);
      KnownDir(View(), id);
      NamesAt(layouts, id);
      var inodes := f.vol.tbl.slots.inodes;
      if id >= |inodes| {
        return Ok(Err(NoSuchInode));
      }
      if inodes[id].kind != TYPE_DIR {
        return Ok(Err(NotDir));
      }
      LaidAt(f.V(), layouts, id);
      var blob := f.GetData(inodes[id]);
      if blob.Err? {
        return Err(blob.error);
      }
      var l := LoadLayout(blob.value);
      Reloads(blob.value, layouts[id]);
      return Ok(Ok(l.value));
    }

    /** A directory's entries, read from its records. */
    method ReadDirPages(id: nat) returns (r: Result<seq<Entry>, Store.Error>)
      requires Valid() && id in layouts
      ensures r.Ok? ==> r.value == Listing(layouts[id].pages)
      ensures r.Err? ==> r.error == Block && !f.vol.dev.reliable
    {
      hide Structure, CountsOk, LayoutOk, Holds, DecodePages, Listing, Files.Sound, Content, DataOk;
      SameTable(f);
      LaidAt(f.V(), layouts, id);
      var blob := f.GetData(f.vol.tbl.slots.inodes[id]);
      if blob.Err? {
        return Err(blob.error);
      }
      var es := ReadPages(blob.value);
      ListsStored(blob.value, layouts[id]);
      return Ok(es.value);
    }

    /** Whether `target` is in the subtree of `root`. No visited set is kept. */
    method DirSubtreeContains(root: nat, target: nat) returns (r: Result<bool, Store.Error>)
      requires Valid() && root in layouts
      ensures r.Ok? ==> r.value == Reaches(View().names, root, target)
      ensures r.Err? ==> r.error == Block && !f.vol.dev.reliable
    {
      hide Structure, CountsOk, LayoutOk, Listing, Walking, Reaches, Subdirs, Files.Sound, Laid, SlotsOf;
      ghost var names := View().names;
      SameTable(f);
      var stack := [root];
      ghost var seen: set<nat> := {};
      WalkStart(names, root, target);
      while stack != []
        invariant Walking(names, root, target, stack, seen)
        decreases names.Keys - seen
      {
        var rest, d := stack[..|stack| - 1], stack[|stack| - 1];
        assert stack == rest + [d];
        WalkTop(names, root, target, rest, d, seen);
        if d == target {
          return Ok(true);
        }
        NamesAt(layouts, d);
        var es := ReadDirPages(d);
        if es.Err? {
          return Err(es.error);
        }
        var kids := PickDirs(SlotsOf(f.vol.tbl.slots.inodes), es.value);
        LaidAt(f.V(), layouts, d);
        Children(View(), d, layouts[d]);
        WalkNext(View(), root, target, rest, seen, d, kids);
        stack := rest + kids;
        seen := seen + {d};
      }
      WalkEnd(names, root, target, seen);
      return Ok(false);
    }

    // ----- storing -----

    /** Store a changed directory, its inode with it. */
    method StoreDir(id: nat, x: Inode, l: Layout, now: nat) returns (r: Result<(), Store.Error>)
      requires Stored() && id in layouts && InTable(x, id, f.V()) && Changed(layouts[id], l) && now < U64
      requires |l.pages| <= |layouts[id].pages| + 1 && 4 + |l.pages| * REF_SIZE < U32
      modifies this`layouts, f.vol`s, f.vol`trace, f.vol`ub, f.vol.dev, f.vol.bm, f.vol.bm.bits, f.vol.ddt,
        f.vol.scratch, f.vol.tbl
      ensures f.Sound() && old(f.vol.trace) <= f.vol.trace && (|l.dirty| <= 1 ==> Steady(old(f.P()), f.P()))
      ensures |l.dirty| <= 1 && old(layouts)[id].pages == [] ==> Calm(old(f.P()), f.P())
      ensures r.Ok? ==>
                Stored() && layouts == old(layouts)[id := Clean(l)] && f.vol.s.ub.nextInode == old(f.vol.s.ub.nextInode)
      ensures r.Ok? ==> SlotsOf(f.V().inodes) == SlotsOf(old(f.V().inodes))[id := NodeOf(x)]
      ensures r.Ok? ==>
                DataKept(old(f.V()), f.V(), {id}) && SameSurplus(old(f.V()), f.V()) && OthersSame(old(f.V()), f.V(), id)
      ensures r.Err? ==> f.Excused(r.error, DirRecords(old(layouts), id))
    {
      hide Structure, CountsOk, LayoutOk, Holds, Files.Sound, Content, DataOk, InTable, Laid, Touches, StoredDir,
        GoodView, Replaced, OthersSame, SameSurplus, DataKept, Files.Excused;
      ghost var v := f.V();
      LaidAt(v, layouts, id);
      LayoutFits(l);
      StoredSlotBack(f.vol.codec, v, id, x, layouts[id].pages) by { SoundGood(f); }
      var y := FlushDir(f, id, x, l.pages, l.dirty, now, layouts[id].pages);
      if y.Err? {
        f.StillExcused(y.error, |l.pages|, DirRecords(layouts, id));
        return Err(y.error);
      }
      FlushedDir(f.vol.codec, v, f.V(), layouts, id, x, y.value, l) by { SoundGood(f); }
      layouts := layouts[id := Clean(l)];
      return Ok(());
    }

    /** Put an inode back with other attributes and the same data. */
    method Put(id: nat, x: Inode)
      requires Stored() && InTable(x, id, f.V())
      modifies f.vol`s, f.vol`trace, f.vol.tbl
      ensures Stored() && old(f.vol.trace) <= f.vol.trace && SameBase(old(f.P()), f.P())
                && f.vol.s.deferred == old(f.vol.s.deferred)
      ensures f.V() == old(f.V()).(inodes := old(f.V()).inodes[id := x]) && DataKept(old(f.V()), f.V(), {})
                && SameSurplus(old(f.V()), f.V())
      ensures SlotsOf(f.V().inodes) == SlotsOf(old(f.V().inodes))[id := NodeOf(x)]
                && DirsSame(old(f.V()), f.V(), layouts)
    {
      hide Structure, CountsOk, LayoutOk, Files.Sound, Content, Laid, StoredDir, GoodView, OthersSame, SameSurplus,
        DataKept, Keys, SameData, Fits, DirsSame;
      ghost var v := f.V();
      SameDataKeys(x, v.inodes[id], v.plain);
      SameDataBack(x, v.inodes[id]);
      f.PutSlot(id, x);
      SlotsUpdate(v.inodes, id, x);
      DirsSameBut(v, f.V(), layouts, id);
      LaidSame(f.vol.codec, v, f.V(), layouts, id) by { SoundGood(f); }
    }

    /** Fill a slot that is no directory's with a new inode, which has no data. */
    method PutNew(id: nat, x: Inode)
      requires Stored() && id < |f.V().inodes| && Fits(x) && x.size == 0 && id !in layouts
      modifies this`layouts, f.vol`s, f.vol`trace, f.vol.tbl
      ensures Stored() && old(f.vol.trace) <= f.vol.trace && SameBase(old(f.P()), f.P())
                && f.vol.s.deferred == old(f.vol.s.deferred)
      ensures LayoutsOk(old(layouts)) && layouts == if x.kind == TYPE_DIR then WithEmpty(old(layouts), id)
                else old(layouts)
      ensures f.V() == old(f.V()).(inodes := old(f.V()).inodes[id := x]) && DataKept(old(f.V()), f.V(), {id})
      ensures SlotsOf(f.V().inodes) == SlotsOf(old(f.V().inodes))[id := NodeOf(x)]
      ensures Content(old(f.V()).inodes[id], old(f.V()).plain) == [] ==> SameSurplus(old(f.V()), f.V())
    {
      hide Structure, CountsOk, LayoutOk, Files.Sound, Content, Laid, StoredDir, GoodView, OthersSame, SameSurplus,
        DataKept, Keys, SameData, Fits, LayoutsOk, WithEmpty;
      ghost var v := f.V();
      LaidOk(v, layouts);
      NoKeys(f.vol.codec, v, id, x) by { SoundGood(f); }
      f.PutSlot(id, x);
      SlotsUpdate(v.inodes, id, x);
      OthersKeep(v, f.V(), id);
      NewLaid(f.vol.codec, v, f.V(), layouts, id) by { SoundGood(f); }
      if x.kind == TYPE_DIR {
        layouts := WithEmpty(layouts, id);
      }
    }

    /** Free an inode's data and make its id available again under a new generation. */
    method Recycle(id: nat, x: Inode) returns (r: Result<(), Store.Error>)
      requires Stored() && InTable(x, id, f.V())
      modifies this`layouts, this`free, f.vol`s, f.vol`trace, f.vol.bm`deferred, f.vol.ddt, f.vol.tbl
      ensures f.Valid() && old(f.vol.trace) <= f.vol.trace && SameBase(old(f.P()), f.P())
      ensures r.Ok? ==> Stored() && layouts == old(layouts) - {id} && free == old(free) + [id]
      ensures r.Ok? ==> SlotsOf(f.V().inodes) == SlotsOf(old(f.V().inodes))[id := Node(0, 0, (x.generation + 1) % U32)]
      ensures r.Ok? ==> DataKept(old(f.V()), f.V(), {id}) && SameSurplus(old(f.V()), f.V())
      ensures r.Ok? ==> EmptyAt(f.V(), id) && DirsSame(old(f.V()), f.V(), layouts)
      ensures r.Err? ==> r.error == Block && !f.vol.dev.reliable
    {
      hide Structure, CountsOk, LayoutOk, Files.Sound, Content, Laid, StoredDir, GoodView, OthersSame, SameSurplus,
        DataKept, SameData, Fits, DirsSame;
      ghost var v := f.V();
      var y := f.ReclaimSlot(id, x);
      if y.Err? {
        return Err(y.error);
      }
      SlotsUpdate(v.inodes, id, y.value);
      OthersKeep(v, f.V(), id);
      LaidWithout(f.vol.codec, v, f.V(), layouts, id) by { SoundGood(f); }
      LaidLess(v, layouts, id);
      DirsSameBut(v, f.V(), layouts - {id}, id);
      free := free + [id];
      layouts := layouts - {id};
      return Ok(());
    }

    // ----- changing -----

    /** Reserve an inode id: the one freed last, or the next one never used. */
    method AllocInode() returns (r: Result<nat, Trees.Error>)
      requires Stored() && f.vol.s.ub.nextInode <= |f.V().inodes|
      modifies this`free, f.vol`s, f.vol`trace, f.vol`ub
      ensures Stored() && Machine.Unflipped(old(f.vol.trace), f.vol.trace) && f.V() == old(f.V())
                && f.vol.s.base == old(f.vol.s.base)
      ensures old(f.vol.trace) <= f.vol.trace
      ensures f.vol.s.deferred == old(f.vol.s.deferred)
      ensures r.Err? <==> old(free == [] && f.vol.s.ub.nextInode >= |f.V().inodes|)
      ensures r.Err? ==> r.error == NoInodes && free == old(free) && f.vol.s.ub.nextInode == old(f.vol.s.ub.nextInode)
      ensures r.Ok? ==> r.value == old(if free != [] then free[|free| - 1] else f.vol.s.ub.nextInode)
      ensures r.Ok? ==> free == (if old(free) == [] then [] else old(free)[..|old(free)| - 1])
      ensures r.Ok? ==>
                f.vol.s.ub.nextInode == if old(free) == [] then old(f.vol.s.ub.nextInode) + 1
                else old(f.vol.s.ub.nextInode)
    {
      hide Machine.Inv, Machine.Accounted, Machine.IsRun, Machine.GoodRun, GoodView, Laid;
      if free != [] {
        var id := free[|free| - 1];
        free := free[..|free| - 1];
        return Ok(id);
      }
      SameTable(f);
      var next := f.vol.ub.nextInode;
      if next >= |f.vol.tbl.slots.inodes| {
        return Err(NoInodes);
      }
      TableWidth(f.vol.codec, f.vol.s);
      f.vol.SetNextInode(next + 1);
      return Ok(next);
    }

    /** One name of `id` is gone: lower its link count, or recycle it. `x` is its inode as read from the table. */
    method Unname(id: nat, x: Inode, now: nat) returns (r: Result<(), Store.Error>)
      requires Stored() && InTable(x, id, f.V()) && NodeOf(x) == SlotsOf(f.V().inodes)[id] && now < U64
      modifies this`layouts, this`free, f.vol`s, f.vol`trace, f.vol.bm`deferred, f.vol.ddt, f.vol.tbl
      ensures f.Valid() && old(f.vol.trace) <= f.vol.trace && SameBase(old(f.P()), f.P())
      ensures !Recycles(old(View()), id) ==> f.vol.s.deferred == old(f.vol.s.deferred)
      ensures r.Ok? ==>
                Stored() && View() == DropLink(old(View()), id) && layouts == old(layouts) - Gone(old(View()), id)
      ensures r.Ok? ==> DataKept(old(f.V()), f.V(), Gone(old(View()), id)) && SameSurplus(old(f.V()), f.V())
      ensures r.Ok? && Recycles(old(View()), id) ==> EmptyAt(f.V(), id)
      ensures r.Ok? ==> DirsSame(old(f.V()), f.V(), layouts)
      ensures r.Err? ==> r.error == Block && !f.vol.dev.reliable
    {
      hide Structure, CountsOk, LayoutOk, Files.Sound, Content, Laid, GoodView, SameSurplus, DataKept, NamesIn,
        DirsSame, Machine.Unflipped;
      var left := if x.nlink > 0 then x.nlink - 1 else 0;
      if left == 0 && (id !in open || open[id] == 0) {
        NamesWithout(layouts, {id});
        r := Recycle(id, x.(nlink := left));
        return;
      }
      Put(id, x.(nlink := left, ctime := now));
      assert layouts - {} == layouts;
      return Ok(());
    }

    /** Fill a reserved slot and give it its first name. */
    method LinkNew(parent: nat, l: Layout, name: Name, id: nat, x: Inode, now: nat) returns (r: Result<(), Store.Error>)
      requires Stored() && LayoutsOk(layouts) && parent in layouts && l == layouts[parent] && name !in l.names
                && |name| <= MAX_NAME
      requires id < |f.V().inodes| && id !in layouts && id != parent && Fits(x) && x.size == 0 && now < U64
                && DirFits(f.V().inodes, parent)
      modifies this`layouts, f.vol`s, f.vol`trace, f.vol`ub, f.vol.dev, f.vol.bm, f.vol.bm.bits, f.vol.ddt,
        f.vol.scratch, f.vol.tbl
      ensures f.Sound() && old(f.vol.trace) <= f.vol.trace && Steady(old(f.P()), f.P())
      ensures l.pages == [] && old(f.vol.s.deferred) == [] ==> f.vol.s.deferred == []
      ensures r.Ok? ==> Stored() && NewLinked(old(f.V()), old(layouts), parent, name, id, x, f.V(), layouts)
      ensures r.Ok? ==> id < |f.V().inodes| && f.V().inodes[id] == x
      ensures r.Err? ==> f.Excused(r.error, DirRecords(old(layouts), parent))
    {
      hide Structure, CountsOk, LayoutOk, Files.Sound, Content, Laid, GoodView, OthersSame, SameSurplus, DataKept, Fits,
        LayoutsOk, WithEmpty, PutEntry, AddTo, Changed, NewLinked, SlotsOf, Machine.Unflipped, Files.Excused;
      ghost var v, ls := f.V(), layouts;
      AddFits(f.vol.codec, v, ls, parent, name, id) by { SoundGood(f); }
      SameTable(f);
      var p := f.vol.tbl.slots.inodes[parent];
      PutNew(id, x);
      ghost var v1, ls1 := f.V(), layouts;
      EmptyAside(ls, id, parent);
      var q := if x.kind == TYPE_DIR then p.(nlink := (p.nlink + 1) % U32) else p;
      LinkedFits(p);
      ghost var at := f.P();
      r := StoreDir(parent, q, AddTo(l, name, id).0, now);
      BaseThen(old(f.P()), at, f.P());
      if r.Ok? {
        OtherInode(v1, f.V(), parent, id);
        NewLinkedBy(v, v1, f.V(), ls, ls1, layouts, parent, name, id, x, q);
      }
    }

    /** Create a file, symlink or directory. */
    method CreateNode(parent: nat, name: Name, kind: nat, mode: nat, now: nat) returns (r: Result<Reply, Store.Error>)
      requires Valid() && OpFits(f.V().inodes, CreateOp(parent, name, kind)) && mode < U16 && now < U64
      modifies this, f.vol, f.vol.dev, f.vol.bm, f.vol.bm.bits, f.vol.ddt, f.vol.scratch, f.vol.tbl
      ensures f.Sound() && old(f.vol.trace) <= f.vol.trace && Uninterrupted(old(f.P()), f.P())
      ensures old(NoPage(layouts, parent)) && old(f.vol.s.deferred) == [] ==> f.vol.s.deferred == []
      ensures r.Ok? && r.value.Made? ==> r.value.id < |f.V().inodes| && Born(f.V().inodes[r.value.id], kind, mode, now)
      ensures r.Ok? ==> Valid()
      ensures r.Ok? ==>
                Worked(old(View()), old(layouts), old(f.V()), CreateOp(parent, name, kind), View(), layouts, f.V(),
                r.value)
      ensures r.Err? ==> f.Excused(r.error, DirRecords(old(layouts), parent))
    {
      hide Structure, CountsOk, LayoutOk, Files.Sound, Content, Laid, GoodView, OthersSame, SameSurplus, DataKept, Fits,
        LayoutsOk, WithEmpty, PutEntry, AddTo, Changed, NewLinked, SlotsOf, Worked, Create, NamesIn, Matches, DirFits,
        Machine.Unflipped, Files.Excused, DirRecords;
      AtRest(f);
      ghost var t, ls, v, op := View(), layouts, f.V(), CreateOp(parent, name, kind);
      LaidMatches(t, v, ls);
      CreateIs(t, parent, name, kind);
      KnownDir(t, parent);
      NamesAt(ls, parent);
      var h := LoadDir(parent);
      if h.Err? {
        f.ReadExcused(DirRecords(layouts, parent));
        return Err(h.error);
      }
      if h.value.Err? {
        Refused(t, ls, v, op, h.value.error);
        return Ok(Failed(h.value.error));
      }
      var l := h.value.value;
      if name in l.names {
        Refused(t, ls, v, op, Exists);
        return Ok(Failed(Exists));
      }
      TableFits(t);
      var got := AllocInode();
      if got.Err? {
        Refused(t, ls, v, op, NoInodes);
        return Ok(Failed(got.error));
      }
      var id := got.value;
      NamesAt(ls, id);
      SameTable(f);
      var x := NewInode(kind, mode, f.vol.tbl.slots.inodes[id].generation, now);
      NewFits(f.vol.codec, v, id, kind, mode, now) by { SoundGood(f); }
      ghost var at := f.P();
      var done := LinkNew(parent, l, name, id, x, now);
      FreedThen(old(f.P()), at, f.P());
      if done.Err? {
        return Err(done.error);
      }
      CreateWorked(t, ls, v, parent, name, kind, x, View(), layouts, f.V());
      return Ok(Made(id));
    }

    /** Take a name out of a directory and store it, with inode `q`. */
    method RemoveName(parent: nat, q: Inode, l: Layout, name: Name, now: nat) returns (r: Result<(), Store.Error>)
      requires Stored() && parent in layouts && l == layouts[parent] && name in l.names && InTable(q, parent, f.V())
                && now < U64
      requires DirFits(f.V().inodes, parent)
      modifies this`layouts, f.vol`s, f.vol`trace, f.vol`ub, f.vol.dev, f.vol.bm, f.vol.bm.bits, f.vol.ddt,
        f.vol.scratch, f.vol.tbl
      ensures f.Sound() && old(f.vol.trace) <= f.vol.trace && Steady(old(f.P()), f.P())
      ensures r.Ok? ==> Stored() && LayoutsOk(old(layouts)) && layouts == DropEntry(old(layouts), parent, name)
      ensures r.Ok? ==> SlotsOf(f.V().inodes) == SlotsOf(old(f.V().inodes))[parent := NodeOf(q)]
      ensures r.Ok? ==>
                DataKept(old(f.V()), f.V(), {parent}) && SameSurplus(old(f.V()), f.V())
                && OthersSame(old(f.V()), f.V(), parent)
      ensures r.Err? ==> f.Excused(r.error, DirRecords(old(layouts), parent))
    {
      hide Structure, CountsOk, LayoutOk, Files.Sound, Content, Laid, GoodView, OthersSame, SameSurplus, DataKept, Fits,
        LayoutsOk, DropEntry, DelFrom, Changed, SlotsOf, NamesIn, DropName, InTable, Files.Excused;
      DropFits(f.vol.codec, f.V(), layouts, parent, name) by { SoundGood(f); }
      DropNames(layouts, parent, name);
      r := StoreDir(parent, q, DelFrom(l, name).0, now);
    }

    /** Add a name to a directory and store it, with inode `q`. */
    method AddName(parent: nat, q: Inode, l: Layout, name: Name, id: nat, now: nat) returns (r: Result<(), Store.Error>)
      requires Stored() && parent in layouts && l == layouts[parent] && name !in l.names && InTable(q, parent, f.V())
                && now < U64
      requires DirFits(f.V().inodes, parent) && |name| <= MAX_NAME && id < |f.V().inodes|
      modifies this`layouts, f.vol`s, f.vol`trace, f.vol`ub, f.vol.dev, f.vol.bm, f.vol.bm.bits, f.vol.ddt,
        f.vol.scratch, f.vol.tbl
      ensures f.Sound() && old(f.vol.trace) <= f.vol.trace && Steady(old(f.P()), f.P())
      ensures r.Ok? ==> Stored() && LayoutsOk(old(layouts)) && EntryFits(Entry(name, id))
      ensures r.Ok? ==> layouts == PutEntry(old(layouts), parent, name, id)
      ensures r.Ok? ==> SlotsOf(f.V().inodes) == SlotsOf(old(f.V().inodes))[parent := NodeOf(q)]
      ensures r.Ok? ==> DataKept(old(f.V()), f.V(), {parent}) && SameSurplus(old(f.V()), f.V())
      ensures r.Err? ==> f.Excused(r.error, DirRecords(old(layouts), parent))
    {
      hide Structure, CountsOk, LayoutOk, Files.Sound, Content, Laid, GoodView, OthersSame, SameSurplus, DataKept, Fits,
        LayoutsOk, PutEntry, AddTo, Changed, SlotsOf, NamesIn, PutName, InTable, Files.Excused;
      AddFits(f.vol.codec, f.V(), layouts, parent, name, id) by { SoundGood(f); }
      PutNames(layouts, parent, name, id);
      r := StoreDir(parent, q, AddTo(l, name, id).0, now);
    }

    /** Remove a name that is not a directory's. */
    method Unlink(parent: nat, name: Name, now: nat) returns (r: Result<Reply, Store.Error>)
      requires Valid() && OpFits(f.V().inodes, UnlinkOp(parent, name)) && now < U64
      modifies this, f.vol, f.vol.dev, f.vol.bm, f.vol.bm.bits, f.vol.ddt, f.vol.scratch, f.vol.tbl
      ensures f.Sound() && old(f.vol.trace) <= f.vol.trace && Uninterrupted(old(f.P()), f.P())
      ensures r.Ok? ==> Valid()
      ensures r.Ok? ==>
                Worked(old(View()), old(layouts), old(f.V()), UnlinkOp(parent, name), View(), layouts, f.V(), r.value)
      ensures r.Err? ==> f.Excused(r.error, DirRecords(old(layouts), parent))
    {
      hide Structure, CountsOk, LayoutOk, Files.Sound, Content, Laid, GoodView, OthersSame, SameSurplus, DataKept, Fits,
        LayoutsOk, DropEntry, DropName, DropLink, SlotsOf, Worked, NamesIn, Matches, DirFits, Recycles, InTable,
        Machine.Unflipped, Files.Excused;
      AtRest(f);
      ghost var t, ls, v, op := View(), layouts, f.V(), UnlinkOp(parent, name);
      LaidMatches(t, v, ls);
      KnownDir(t, parent);
      NamesAt(ls, parent);
      var h := LoadDir(parent);
      if h.Err? {
        f.ReadExcused(DirRecords(layouts, parent));
        return Err(h.error);
      }
      if h.value.Err? {
        Refused(t, ls, v, op, h.value.error);
        return Ok(Failed(h.value.error));
      }
      var l := h.value.value;
      if name !in l.names {
        Refused(t, ls, v, op, NotFound);
        return Ok(Failed(NotFound));
      }
      var id := l.names[name];
      TargetInRange(t, parent, name);
      SameTable(f);
      var p, child := f.vol.tbl.slots.inodes[parent], f.vol.tbl.slots.inodes[id];
      if child.kind == TYPE_DIR {
        Refused(t, ls, v, op, IsDir);
        return Ok(Failed(IsDir));
      }
      r := UnlinkFile(parent, p, l, name, id, child, now);
    }

    /** Take out the name of a file, then lower its link count or recycle it. */
    method UnlinkFile(parent: nat, p: Inode, l: Layout, name: Name, id: nat, child: Inode, now: nat)
        returns (r: Result<Reply, Store.Error>)
      requires Valid() && parent in layouts && l == layouts[parent] && name in l.names && id == l.names[name]
                && now < U64
      requires parent < |f.V().inodes| && p == f.V().inodes[parent] && id < |f.V().inodes| && child == f.V().inodes[id]
      requires child.kind != TYPE_DIR && DirFits(f.V().inodes, parent) && Matches(View(), layouts)
                && DirError(View(), parent).None?
      modifies this, f.vol, f.vol.dev, f.vol.bm, f.vol.bm.bits, f.vol.ddt, f.vol.scratch, f.vol.tbl
      ensures f.Sound() && old(f.vol.trace) <= f.vol.trace && Uninterrupted(old(f.P()), f.P())
      ensures r.Ok? ==> Valid()
      ensures r.Ok? ==>
                Worked(old(View()), old(layouts), old(f.V()), UnlinkOp(parent, name), View(), layouts, f.V(), r.value)
      ensures r.Err? ==> f.Excused(r.error, DirRecords(old(layouts), parent))
    {
      hide Structure, CountsOk, LayoutOk, Files.Sound, Content, Laid, GoodView, OthersSame, SameSurplus, DataKept, Fits,
        LayoutsOk, DropEntry, DropName, DropLink, Worked, NamesIn, Matches, DirFits, Recycles, InTable, EmptyAt, Gone,
        Machine.Unflipped, Files.Excused;
      ghost var t, ls, v := View(), layouts, f.V();
      NamesAt(ls, parent);
      KnownDir(t, parent);
      SlotInTable(f.vol.codec, v, parent) by { SoundGood(f); }
      var done := RemoveName(parent, p, l, name, now);
      if done.Err? {
        return Err(done.error);
      }
      ghost var v1, t1 := f.V(), View();
      SlotSame(t.slots, parent);
      OtherSlot(f.vol.codec, v, v1, parent, id) by { SoundGood(f); }
      ghost var at := f.P();
      done := Unname(id, child, now);
      SteadyThen(old(f.P()), at, f.P());
      if done.Err? {
        f.ReadExcused(DirRecords(ls, parent));
        return Err(done.error);
      }
      UnlinkWorked(t, ls, v, v1, parent, name, t1, View(), layouts, f.V());
      return Ok(Done);
    }

    /** Remove an empty directory. */
    method Rmdir(parent: nat, name: Name, now: nat) returns (r: Result<Reply, Store.Error>)
      requires Valid() && OpFits(f.V().inodes, RmdirOp(parent, name)) && now < U64
      modifies this, f.vol, f.vol.dev, f.vol.bm, f.vol.bm.bits, f.vol.ddt, f.vol.scratch, f.vol.tbl
      ensures f.Sound() && old(f.vol.trace) <= f.vol.trace && Uninterrupted(old(f.P()), f.P())
      ensures r.Ok? ==> Valid()
      ensures r.Ok? ==>
                Worked(old(View()), old(layouts), old(f.V()), RmdirOp(parent, name), View(), layouts, f.V(), r.value)
      ensures r.Err? ==> f.Excused(r.error, DirRecords(old(layouts), parent))
    {
      hide Structure, CountsOk, LayoutOk, Files.Sound, Content, Laid, GoodView, Worked, NamesIn, Matches, DirFits,
        DropName, Reclaim, Machine.Unflipped, Files.Excused;
      AtRest(f);
      ghost var t, ls, v, op := View(), layouts, f.V(), RmdirOp(parent, name);
      LaidMatches(t, v, ls);
      KnownDir(t, parent);
      NamesAt(ls, parent);
      var h := LoadDir(parent);
      if h.Err? {
        f.ReadExcused(DirRecords(layouts, parent));
        return Err(h.error);
      }
      if h.value.Err? {
        Refused(t, ls, v, op, h.value.error);
        return Ok(Failed(h.value.error));
      }
      var l := h.value.value;
      if name !in l.names {
        Refused(t, ls, v, op, NotFound);
        return Ok(Failed(NotFound));
      }
      var id := l.names[name];
      TargetInRange(t, parent, name);
      KnownDir(t, id);
      NamesAt(ls, id);
      SameTable(f);
      var p, child := f.vol.tbl.slots.inodes[parent], f.vol.tbl.slots.inodes[id];
      if child.kind != TYPE_DIR {
        Refused(t, ls, v, op, NotDir);
        return Ok(Failed(NotDir));
      }
      var ch := LoadDir(id);
      if ch.Err? {
        f.ReadExcused(DirRecords(layouts, parent));
        return Err(ch.error);
      }
      if ch.value.value.names != map[] {
        Refused(t, ls, v, op, NotEmpty);
        return Ok(Failed(NotEmpty));
      }
      NotItself(t, parent, name);
      r := RemoveDir(parent, p, l, name, id, child, now);
    }

    /** Take out the name of an empty directory and recycle it. */
    method RemoveDir(parent: nat, p: Inode, l: Layout, name: Name, id: nat, child: Inode, now: nat)
        returns (r: Result<Reply, Store.Error>)
      requires Valid() && parent in layouts && l == layouts[parent] && name in l.names && id == l.names[name]
                && now < U64
      requires parent < |f.V().inodes| && p == f.V().inodes[parent] && id < |f.V().inodes| && child == f.V().inodes[id]
                && id != parent
      requires id in layouts && layouts[id].names == map[] && DirFits(f.V().inodes, parent) && Matches(View(), layouts)
      modifies this, f.vol, f.vol.dev, f.vol.bm, f.vol.bm.bits, f.vol.ddt, f.vol.scratch, f.vol.tbl
      ensures f.Sound() && old(f.vol.trace) <= f.vol.trace && Uninterrupted(old(f.P()), f.P())
      ensures r.Ok? ==> Valid()
      ensures r.Ok? ==>
                Worked(old(View()), old(layouts), old(f.V()), RmdirOp(parent, name), View(), layouts, f.V(), r.value)
      ensures r.Err? ==> f.Excused(r.error, DirRecords(old(layouts), parent))
    {
      hide Structure, CountsOk, LayoutOk, Files.Sound, Content, Laid, GoodView, OthersSame, SameSurplus, DataKept, Fits,
        LayoutsOk, DropEntry, DropName, Worked, NamesIn, Matches, DirFits, InTable, EmptyAt, Machine.Unflipped,
        Files.Excused;
      ghost var t, ls, v := View(), layouts, f.V();
      LoweredInTable(f.vol.codec, v, parent) by { SoundGood(f); }
      var done := RemoveName(parent, p.(nlink := if p.nlink > 0 then p.nlink - 1 else 0), l, name, now);
      if done.Err? {
        return Err(done.error);
      }
      ghost var v1 := f.V();
      OtherSlot(f.vol.codec, v, v1, parent, id) by { SoundGood(f); }
      ghost var at := f.P();
      done := Recycle(id, child);
      SteadyThen(old(f.P()), at, f.P());
      if done.Err? {
        f.ReadExcused(DirRecords(ls, parent));
        return Err(done.error);
      }
      RmdirWorked(t, ls, v, v1, parent, name, id, View(), layouts, f.V());
      return Ok(Done);
    }

    /** Give an existing inode that is not a directory a second name. */
    method Link(parent: nat, name: Name, target: nat, now: nat) returns (r: Result<Reply, Store.Error>)
      requires Valid() && OpFits(f.V().inodes, LinkOp(parent, name, target)) && now < U64
      modifies this, f.vol, f.vol.dev, f.vol.bm, f.vol.bm.bits, f.vol.ddt, f.vol.scratch, f.vol.tbl
      ensures f.Sound() && old(f.vol.trace) <= f.vol.trace && Uninterrupted(old(f.P()), f.P())
      ensures r.Ok? ==> Stored() && (Allowed(old(View()), LinkOp(parent, name, target), false) ==> Valid())
      ensures r.Ok? ==>
                Worked(old(View()), old(layouts), old(f.V()), LinkOp(parent, name, target), View(), layouts, f.V(),
                r.value)
      ensures r.Err? ==> f.Excused(r.error, DirRecords(old(layouts), parent))
    {
      hide Structure, CountsOk, LayoutOk, Files.Sound, Content, Laid, GoodView, Worked, NamesIn, Matches, DirFits,
        PutName, Machine.Unflipped, Files.Excused;
      AtRest(f);
      ghost var t, ls, v, op := View(), layouts, f.V(), LinkOp(parent, name, target);
      LaidMatches(t, v, ls);
      KnownDir(t, parent);
      NamesAt(ls, parent);
      LinkKeeps(t, parent, name, target, false);
      SameTable(f);
      var inodes := f.vol.tbl.slots.inodes;
      if target >= |inodes| {
        Refused(t, ls, v, op, NoSuchInode);
        return Ok(Failed(NoSuchInode));
      }
      if inodes[target].kind == TYPE_DIR {
        Refused(t, ls, v, op, Trees.NotFile);
        return Ok(Failed(Trees.NotFile));
      }
      var h := LoadDir(parent);
      if h.Err? {
        f.ReadExcused(DirRecords(layouts, parent));
        return Err(h.error);
      }
      if h.value.Err? {
        Refused(t, ls, v, op, h.value.error);
        return Ok(Failed(h.value.error));
      }
      var l := h.value.value;
      if name in l.names {
        Refused(t, ls, v, op, Exists);
        return Ok(Failed(Exists));
      }
      r := LinkName(parent, inodes[parent], l, name, target, inodes[target], now);
    }

    /** Raise the link count of a file, then add the name. */
    method LinkName(parent: nat, p: Inode, l: Layout, name: Name, target: nat, x: Inode, now: nat)
        returns (r: Result<Reply, Store.Error>)
      requires Valid() && parent in layouts && l == layouts[parent] && name !in l.names && |name| <= MAX_NAME
                && now < U64
      requires parent < |f.V().inodes| && p == f.V().inodes[parent] && target < |f.V().inodes|
                && x == f.V().inodes[target]
      requires x.kind != TYPE_DIR && DirFits(f.V().inodes, parent) && Matches(View(), layouts)
      modifies this, f.vol, f.vol.dev, f.vol.bm, f.vol.bm.bits, f.vol.ddt, f.vol.scratch, f.vol.tbl
      ensures f.Sound() && old(f.vol.trace) <= f.vol.trace && Uninterrupted(old(f.P()), f.P())
      ensures r.Ok? ==> Stored() && (Allowed(old(View()), LinkOp(parent, name, target), false) ==> Valid())
      ensures r.Ok? ==>
                Worked(old(View()), old(layouts), old(f.V()), LinkOp(parent, name, target), View(), layouts, f.V(),
                r.value)
      ensures r.Err? ==> f.Excused(r.error, DirRecords(old(layouts), parent))
    {
      hide Structure, CountsOk, LayoutOk, Files.Sound, Content, Laid, GoodView, OthersSame, SameSurplus, DataKept, Fits,
        LayoutsOk, PutEntry, PutName, Worked, NamesIn, Matches, InTable, Allowed, Machine.Unflipped, Files.Excused;
      ghost var t, ls, v := View(), layouts, f.V();
      NamesAt(ls, parent);
      KnownDir(t, parent);
      RaisedInTable(f.vol.codec, v, target, now) by { SoundGood(f); }
      Put(target, x.(nlink := (x.nlink + 1) % U32, ctime := now));
      ghost var v1 := f.V();
      SlotInTable(f.vol.codec, v1, parent) by { SoundGood(f); }
      ghost var at := f.P();
      var done := AddName(parent, p, l, name, target, now);
      BaseThen(old(f.P()), at, f.P());
      if done.Err? {
        return Err(done.error);
      }
      LinkWorked(t, ls, v, v1, parent, name, target, View(), layouts, f.V());
      return Ok(Done);
    }

    /** Record an open handle. */
    method Open(id: nat) returns (r: Reply)
      requires Valid()
      modifies this`open
      ensures Stored() && (Allowed(old(View()), OpenOp(id), false) ==> Valid())
      ensures Worked(old(View()), layouts, f.V(), OpenOp(id), View(), layouts, f.V(), r)
    {
      hide Structure, CountsOk, Files.Sound, Laid, NamesIn, Matches, Worked, GoodView, SameSurplus, Content;
      ghost var t, v := View(), f.V();
      OpenKeeps(t, id, false);
      LaidMatches(t, v, layouts);
      SameTable(f);
      var inodes := f.vol.tbl.slots.inodes;
      if id >= |inodes| {
        Refused(t, layouts, v, OpenOp(id), NoSuchInode);
        return Failed(NoSuchInode);
      }
      if inodes[id].kind != TYPE_REGULAR {
        Refused(t, layouts, v, OpenOp(id), Trees.NotFile);
        return Failed(Trees.NotFile);
      }
      open := open[id := (if id in open then open[id] else 0) + 1];
      HandleWorked(t, layouts, v, OpenOp(id), View(), Done);
      return Done;
    }

    /** Drop one open handle; the last one on an inode without names recycles it. */
    method Close(id: nat) returns (r: Result<Reply, Store.Error>)
      requires Valid()
      modifies this, f.vol`s, f.vol`trace, f.vol.bm`deferred, f.vol.ddt, f.vol.tbl
      ensures f.Valid() && old(f.vol.trace) <= f.vol.trace && SameBase(old(f.P()), f.P())
      ensures r.Ok? ==> Stored() && (Allowed(old(View()), CloseOp(id), false) ==> Valid())
      ensures r.Ok? ==> Worked(old(View()), old(layouts), old(f.V()), CloseOp(id), View(), layouts, f.V(), r.value)
      ensures r.Err? ==> r.error == Block && !f.vol.dev.reliable
    {
      hide Structure, CountsOk, Files.Sound, Laid, NamesIn, Matches, Worked, GoodView, SameSurplus, Content, DataKept,
        InTable, EmptyAt, DirsSame, Machine.Unflipped, Does, Trees.Close, Allowed, SlotsOf;
      AtRest(f);
      ghost var t, ls, v := View(), layouts, f.V();
      LaidMatches(t, v, ls);
      CloseCases(t, ls, id);
      var left := if id in open && open[id] > 0 then open[id] - 1 else 0;
      SameTable(f);
      var inodes := f.vol.tbl.slots.inodes;
      if left > 0 {
        open := open[id := left];
        HandleWorked(t, ls, v, CloseOp(id), View(), Done);
        return Ok(Done);
      }
      open := open - {id};
      if id >= |inodes| {
        HandleWorked(t, ls, v, CloseOp(id), View(), Failed(NoSuchInode));
        return Ok(Failed(NoSuchInode));
      }
      if inodes[id].nlink > 0 {
        HandleWorked(t, ls, v, CloseOp(id), View(), Done);
        return Ok(Done);
      }
      NamesWithout(ls, {id});
      SlotInTable(f.vol.codec, v, id) by { SoundGood(f); }
      var done := Recycle(id, inodes[id]);
      if done.Err? {
        return Err(done.error);
      }
      CloseWorked(t, ls, v, id, View(), layouts, f.V());
      return Ok(Done);
    }

    /** Drop what the destination name stands for, unless it already names `id`. */
    method Overwrite(l: Layout, name: Name, id: nat, now: nat) returns (r: Result<(bool, Layout), Store.Error>)
      requires Stored() && LayoutOk(l) && (name in l.names ==> l.names[name] < |f.V().inodes|) && now < U64
      modifies this`layouts, this`free, f.vol`s, f.vol`trace, f.vol.bm`deferred, f.vol.ddt, f.vol.tbl
      ensures f.Valid() && old(f.vol.trace) <= f.vol.trace && SameBase(old(f.P()), f.P())
      ensures (name in l.names ==> !Recycles(old(View()), l.names[name])) ==>
                f.vol.s.deferred == old(f.vol.s.deferred)
      ensures r.Ok? ==> Stored() && r.value.0 == (name in l.names && l.names[name] == id)
      ensures r.Ok? && (r.value.0 || name !in l.names) ==>
                View() == old(View()) && layouts == old(layouts) && f.V() == old(f.V()) && r.value.1 == l
      ensures r.Ok? && !r.value.0 && name in l.names ==> r.value.1 == DelFrom(l, name).0
      ensures r.Ok? && !r.value.0 && name in l.names ==>
                LostName(old(View()), old(layouts), old(f.V()), l.names[name], View(), layouts, f.V())
      ensures r.Err? ==> r.error == Block && !f.vol.dev.reliable
    {
      hide LayoutOk, Laid, NamesIn, DropLink, DelFrom, Files.Sound, Content, GoodView, SameSurplus, DataKept, InTable,
        DirsSame, EmptyAt, Gone, Recycles, Machine.Unflipped;
      AtRest(f);
      if name !in l.names {
        return Ok((false, l));
      }
      if l.names[name] == id {
        return Ok((true, l));
      }
      var w := l.names[name];
      SameTable(f);
      SlotInTable(f.vol.codec, f.V(), w) by { SoundGood(f); }
      var done := Unname(w, f.vol.tbl.slots.inodes[w], now);
      return if done.Ok? then Ok((false, DelFrom(l, name).0)) else Err(done.error);
    }

    /** The moved inode's change time. */
    method Touch(id: nat, now: nat)
      requires Stored() && now < U64
      modifies f.vol`s, f.vol`trace, f.vol.tbl
      ensures Stored() && old(f.vol.trace) <= f.vol.trace && View() == old(View())
      ensures SameBase(old(f.P()), f.P()) && f.vol.s.deferred == old(f.vol.s.deferred)
      ensures DataKept(old(f.V()), f.V(), {}) && SameSurplus(old(f.V()), f.V()) && DirsSame(old(f.V()), f.V(), layouts)
    {
      hide LayoutOk, NamesIn, Files.Sound, Content, GoodView, SameSurplus, Laid, DataKept, DirsSame;
      SameTable(f);
      NothingMoved(f.V(), layouts);
      AtRest(f);
      if id < |f.vol.tbl.slots.inodes| {
        var x := f.vol.tbl.slots.inodes[id];
        SlotInTable(f.vol.codec, f.V(), id) by { SoundGood(f); }
        SlotSame(SlotsOf(f.V().inodes), id);
        Put(id, x.(ctime := now));
      }
    }

    /** The moves of a rename within one directory: both edits on one handle, one flush. */
    method MoveWithin(p: nat, x: Inode, l: Layout, sn: Name, dn: Name, id: nat, now: nat)
        returns (r: Result<Reply, Store.Error>)
      requires Valid() && MoveReady(View(), layouts, p, sn, p, dn, id) && p in layouts && l == layouts[p] && now < U64
      requires p < |f.V().inodes| && x == f.V().inodes[p] && DirFits(f.V().inodes, p)
      modifies this, f.vol, f.vol.dev, f.vol.bm, f.vol.bm.bits, f.vol.ddt, f.vol.scratch, f.vol.tbl
      ensures f.Sound() && old(f.vol.trace) <= f.vol.trace
      ensures OnePage(old(View()), old(layouts), p, sn, p, dn) ==> Uninterrupted(old(f.P()), f.P())
      ensures r.Ok? ==>
                Valid() && Worked(old(View()), old(layouts), old(f.V()), RenameOp(p, sn, p, dn), View(), layouts, f.V(),
                r.value)
      ensures r.Err? ==> f.Excused(r.error, DirRecords(old(layouts), p))
    {
      hide Structure, CountsOk, LayoutOk, Files.Sound, Content, Laid, GoodView, OthersSame, SameSurplus, DataKept, Fits,
        LayoutsOk, NamesIn, Matches, DelFrom, AddTo, Changed, DropLink, Does, MoveReady, Renewed, Worked, InTable,
        DirsSame, EmptyAt, Gone, Recycles, DirFits, LostName, OnePage, Machine.Unflipped, Uninterrupted, Files.Excused,
        SlotsOf;
      ghost var t, ls, v, from := View(), layouts, f.V(), f.P();
      SoundGood(f);
      MoveFacts(t, ls, p, sn, p, dn, id);
      if OnePage(t, ls, p, sn, p, dn) && !(dn in l.names && l.names[dn] == id) { OnePageIs(t, ls, p, sn, p, dn, id); }
      var o := Overwrite(l, dn, id, now);
      StillBase(from, f.P());
      if o.Err? {
        f.ReadExcused(DirRecords(ls, p));
        return Err(o.error);
      }
      if o.value.0 {
        MoveNothing(t, ls, p, sn, p, dn, id);
        WorkedNot(t, ls, v, RenameOp(p, sn, p, dn), Done);
        return Ok(Done);
      }
      ghost var mid, mids, v1 := View(), layouts, f.V();
      MoveBetween(t, ls, v, p, sn, p, dn, id, mid, mids, v1);
      WithinReady(ls, p, sn, dn, id);
      WithinSmall(ls[p], sn, dn, id);
      ghost var cleared := f.P();
      Touch(id, now);
      ghost var v2, touched := f.V(), f.P();
      MovedInTable(f.vol.codec, v, v1, v2, mids, p);
      WidthOk(v2, mids, p, |DelFrom(Renewed(ls[p], dn, id), sn).0.pages|);
      var done := StoreDir(p, x, DelFrom(AddTo(o.value.1, dn, id).0, sn).0, now);
      if OnePage(t, ls, p, sn, p, dn) { StoredOnce(from, cleared, touched, f.P()); }
      if done.Err? {
        return Err(done.error);
      }
      WithinWorked(t, ls, v, v1, v2, p, sn, dn, id, mid, mids, View(), layouts, f.V());
      return Ok(Done);
    }

    /** The moves of a rename between two directories: the destination is stored first. */
    method MoveAcross(sp: nat, sx: Inode, sl: Layout, sn: Name, dp: nat, dx: Inode, dl: Layout, dn: Name, id: nat,
        now: nat)
      returns (r: Result<Reply, Store.Error>)
      requires Valid() && MoveReady(View(), layouts, sp, sn, dp, dn, id) && sp != dp && now < U64
      requires sp in layouts && sl == layouts[sp] && dp in layouts && dl == layouts[dp]
      requires sp < |f.V().inodes| && sx == f.V().inodes[sp] && DirFits(f.V().inodes, sp)
      requires dp < |f.V().inodes| && dx == f.V().inodes[dp] && DirFits(f.V().inodes, dp)
      modifies this, f.vol, f.vol.dev, f.vol.bm, f.vol.bm.bits, f.vol.ddt, f.vol.scratch, f.vol.tbl
      ensures f.Sound() && old(f.vol.trace) <= f.vol.trace
      ensures OnePage(old(View()), old(layouts), sp, sn, dp, dn) ==> Uninterrupted(old(f.P()), f.P())
      ensures r.Ok? ==>
                Valid() && Worked(old(View()), old(layouts), old(f.V()), RenameOp(sp, sn, dp, dn), View(), layouts,
                f.V(), r.value)
      ensures r.Err? ==> f.Excused(r.error, Max(DirRecords(old(layouts), sp), DirRecords(old(layouts), dp)))
    {
      hide Structure, CountsOk, LayoutOk, Files.Sound, Content, Laid, GoodView, OthersSame, SameSurplus, DataKept, Fits,
        LayoutsOk, NamesIn, Matches, DelFrom, AddTo, Changed, DropLink, Does, MoveReady, Renewed, Worked, InTable,
        DirsSame, EmptyAt, Gone, Recycles, DirFits, LostName, OnePage, Machine.Unflipped, Uninterrupted, Files.Excused;
      ghost var t, ls, v, from := View(), layouts, f.V(), f.P();
      SoundGood(f);
      MoveFacts(t, ls, sp, sn, dp, dn, id);
      if OnePage(t, ls, sp, sn, dp, dn) && !(dn in dl.names && dl.names[dn] == id) {
        OnePageIs(t, ls, sp, sn, dp, dn, id);
      }
      var o := Overwrite(dl, dn, id, now);
      StillBase(from, f.P());
      if o.Err? {
        f.ReadExcused(Max(DirRecords(ls, sp), DirRecords(ls, dp)));
        return Err(o.error);
      }
      if o.value.0 {
        MoveNothing(t, ls, sp, sn, dp, dn, id);
        WorkedNot(t, ls, v, RenameOp(sp, sn, dp, dn), Done);
        return Ok(Done);
      }
      ghost var mid, mids, v1 := View(), layouts, f.V();
      MoveBetween(t, ls, v, sp, sn, dp, dn, id, mid, mids, v1);
      Touch(id, now);
      ghost var v2 := f.V();
      r := StoreBoth(sp, sx, sl, sn, dp, dx, AddTo(o.value.1, dn, id).0, now, v, v1);
      if r.Err? {
        return;
      }
      AcrossWorked(t, ls, v, v1, v2, sp, sn, dp, dn, id, mid, mids, View(), layouts, f.V());
    }

    /** Store the destination of a move, then its source. The inodes are as read before the move, in view `v`. */
    method StoreBoth(sp: nat, sx: Inode, sl: Layout, sn: Name, dp: nat, dx: Inode, l: Layout, now: nat, ghost v: View,
        ghost v1: View)
      returns (r: Result<Reply, Store.Error>)
      requires Stored() && sp != dp && sp in layouts && sl == layouts[sp] && sn in sl.names && dp in layouts
                && now < U64
      requires Changed(layouts[dp], l) && |l.pages| <= |layouts[dp].pages| + 1 && LayoutOk(sl)
      requires GoodView(f.vol.codec, v) && DirsSame(v, v1, layouts) && DirsSame(v1, f.V(), layouts)
      requires sp < |v.inodes| && sx == v.inodes[sp] && DirFits(v.inodes, sp) && dp < |v.inodes| && dx == v.inodes[dp]
                && DirFits(v.inodes, dp)
      modifies this`layouts, f.vol`s, f.vol`trace, f.vol`ub, f.vol.dev, f.vol.bm, f.vol.bm.bits, f.vol.ddt,
        f.vol.scratch, f.vol.tbl
      ensures f.Sound() && old(f.vol.trace) <= f.vol.trace
      ensures r.Ok? ==>
                r.value == Done && Stored() && layouts == old(layouts)[dp := Clean(l)][sp := Clean(DelFrom(sl, sn).0)]
      ensures r.Ok? ==> SlotsOf(f.V().inodes) == SlotsOf(old(f.V().inodes))[dp := NodeOf(dx)][sp := NodeOf(sx)]
      ensures r.Ok? ==> DataKept(old(f.V()), f.V(), {dp} + {sp}) && SameSurplus(old(f.V()), f.V())
      ensures r.Ok? ==> f.vol.s.ub.nextInode == old(f.vol.s.ub.nextInode)
      ensures r.Err? ==> f.Excused(r.error, Max(DirRecords(old(layouts), sp), DirRecords(old(layouts), dp)))
    {
      hide Structure, CountsOk, LayoutOk, Files.Sound, Content, Laid, GoodView, OthersSame, SameSurplus, DataKept, Fits,
        LayoutsOk, DelFrom, DropEntry, Changed, DirsSame, DirFits, NamesIn, DropName, SlotsOf, SameData, Files.Excused;
      ghost var v2, ls := f.V(), layouts;
      MovedInTable(f.vol.codec, v, v1, v2, ls, dp);
      MovedInTable(f.vol.codec, v, v1, v2, ls, sp);
      WidthOk(v2, ls, dp, |l.pages|);
      var done := StoreDir(dp, dx, l, now);
      if done.Err? {
        f.StillExcused(done.error, DirRecords(ls, dp), Max(DirRecords(ls, sp), DirRecords(ls, dp)));
        return Err(done.error);
      }
      ghost var v3 := f.V();
      OtherInTable(v2, v3, dp, sp, sx);
      DropNames(layouts, sp, sn) by { LaidOk(v3, layouts); }
      done := RemoveName(sp, sx, sl, sn, now);
      if done.Err? {
        f.StillExcused(done.error, DirRecords(ls, sp), Max(DirRecords(ls, sp), DirRecords(ls, dp)));
        return Err(done.error);
      }
      DataTwice(v2, v3, f.V(), {dp}, {sp});
      SurplusTwice(v2, v3, f.V());
      return Ok(Done);
    }

    /** Move a name, replacing what the destination names; a directory never goes below itself. */
    method Rename(sp: nat, sn: Name, dp: nat, dn: Name, now: nat) returns (r: Result<Reply, Store.Error>)
      requires Valid() && OpFits(f.V().inodes, RenameOp(sp, sn, dp, dn))
                && Allowed(View(), RenameOp(sp, sn, dp, dn), false) && now < U64
      modifies this, f.vol, f.vol.dev, f.vol.bm, f.vol.bm.bits, f.vol.ddt, f.vol.scratch, f.vol.tbl
      ensures f.Sound() && old(f.vol.trace) <= f.vol.trace
      ensures OnePage(old(View()), old(layouts), sp, sn, dp, dn) ==> Uninterrupted(old(f.P()), f.P())
      ensures r.Ok? ==> Valid()
      ensures r.Ok? ==>
                Worked(old(View()), old(layouts), old(f.V()), RenameOp(sp, sn, dp, dn), View(), layouts, f.V(), r.value)
      ensures r.Err? ==> f.Excused(r.error, Max(DirRecords(old(layouts), sp), DirRecords(old(layouts), dp)))
    {
      hide Structure, CountsOk, LayoutOk, Files.Sound, Content, Laid, GoodView, Worked, NamesIn, Matches, LayoutsOk,
        Reaches, DirFits, SameSurplus, OnePage, Machine.Unflipped, Files.Excused;
      AtRest(f);
      ghost var t, ls, v, op := View(), layouts, f.V(), RenameOp(sp, sn, dp, dn);
      LaidMatches(t, v, ls);
      KnownDir(t, sp);
      KnownDir(t, dp);
      NamesAt(ls, sp);
      NamesAt(ls, dp);
      SameTable(f);
      var inodes := f.vol.tbl.slots.inodes;
      var sh := LoadDir(sp);
      if sh.Err? {
        f.ReadExcused(Max(DirRecords(ls, sp), DirRecords(ls, dp)));
        return Err(sh.error);
      }
      if sh.value.Err? {
        Refused(t, ls, v, op, sh.value.error);
        return Ok(Failed(sh.value.error));
      }
      var sl := sh.value.value;
      if sn !in sl.names {
        Refused(t, ls, v, op, NotFound);
        return Ok(Failed(NotFound));
      }
      var id := sl.names[sn];
      TargetInRange(t, sp, sn);
      KnownDir(t, id);
      NamesAt(ls, id);
      if dp == id {
        Refused(t, ls, v, op, Invalid);
        return Ok(Failed(Invalid));
      }
      if sp != dp && inodes[id].kind == TYPE_DIR {
        var inside := DirSubtreeContains(id, dp);
        if inside.Err? {
          f.ReadExcused(Max(DirRecords(ls, sp), DirRecords(ls, dp)));
          return Err(inside.error);
        }
        if inside.value {
          Refused(t, ls, v, op, Invalid);
          return Ok(Failed(Invalid));
        }
      }
      if sp == dp {
        r := MoveWithin(sp, inodes[sp], sl, sn, dn, id, now);
        return;
      }
      var dh := LoadDir(dp);
      if dh.Err? {
        f.ReadExcused(Max(DirRecords(ls, sp), DirRecords(ls, dp)));
        return Err(dh.error);
      }
      if dh.value.Err? {
        Refused(t, ls, v, op, dh.value.error);
        return Ok(Failed(dh.value.error));
      }
      r := MoveAcross(sp, inodes[sp], sl, sn, dp, inodes[dp], dh.value.value, dn, id, now);
    }

    /** Any one operation. */
    method Edit(op: Op, mode: nat, now: nat) returns (r: Result<Reply, Store.Error>)
      requires Valid() && OpFits(f.V().inodes, op) && mode < U16 && now < U64
      requires op.RenameOp? ==> Allowed(View(), op, false)
      modifies this, f.vol, f.vol.dev, f.vol.bm, f.vol.bm.bits, f.vol.ddt, f.vol.scratch, f.vol.tbl
      ensures f.Sound() && old(f.vol.trace) <= f.vol.trace
      ensures MayStoreTwice(old(View()), old(layouts), op) || Uninterrupted(old(f.P()), f.P())
      ensures r.Ok? ==> Stored() && (Allowed(old(View()), op, false) ==> Valid())
      ensures r.Ok? ==> Worked(old(View()), old(layouts), old(f.V()), op, View(), layouts, f.V(), r.value)
      ensures r.Err? ==> f.Excused(r.error, OpRecords(old(layouts), op))
    {
      hide Structure, CountsOk, Files.Sound, Laid, NamesIn, Worked, GoodView, OpFits, SlotsOf, Machine.Unflipped,
        SafeRename, OnePage, Files.Excused;
      AtRest(f);
      match op {
        case CreateOp(p, n, kind) => r := CreateNode(p, n, kind, mode, now);
        case UnlinkOp(p, n) => r := Unlink(p, n, now);
        case RmdirOp(p, n) => r := Rmdir(p, n, now);
        case LinkOp(p, n, x) => r := Link(p, n, x, now);
        case RenameOp(sp, sn, dp, dn) => r := Rename(sp, sn, dp, dn, now);
        case OpenOp(id) =>
          var done := Open(id);
          r := Ok(done);
        case CloseOp(id) =>
          r := Close(id);
          if r.Err? { f.ReadExcused(0); }
      }
    }

    /** Read, write or resize a file, or commit. */
    method Serve(call: FileSessions.Call, now: nat) returns (r: FileSessions.Reply)
      requires Valid() && FileCall(call) && FileSessions.CallFits(f.V().inodes, call) && now < U64
      modifies f.vol, f.vol.dev, f.vol.bm, f.vol.bm.bits, f.vol.ddt, f.vol.scratch, f.vol.tbl
      ensures f.Sound() && old(f.vol.trace) <= f.vol.trace && (!call.Sync? ==> Steady(old(f.P()), f.P()))
      ensures !FileSessions.Ends(r) ==> Valid()
      ensures View() == old(View()) && Laid(f.V(), layouts) && !r.TooWide?
                && FileSessions.StepOf(old(f.V()), call, r, f.V())
      ensures FileSessions.Explained(f.vol.codec, f.vol.dev.reliable, old(f.vol.s), f.vol.s, call, r)
      ensures call.Sync? ==> Machine.Leads(old(f.vol.trace), f.vol.trace, f.V(), old(f.vol.s.ub.nextInode))
      ensures call.Sync? && r.Fine? ==>
                && FileSessions.Saved(f.vol.s.base, f.V(), old(f.vol.s.ub.nextInode))
                && !Machine.Unflipped(old(f.vol.trace), f.vol.trace)
    {
      hide Structure, CountsOk, Files.Sound, Laid, NamesIn, GoodView, SlotsOf, FileSessions.StepOf, Machine.Leads,
        Machine.Unflipped, FileSessions.CallFits, FileSessions.Ends, FileSessions.Explained;
      ghost var t, v := View(), f.V();
      r := FileSessions.Serve(f, call, now);
      CallKeeps(f.vol.codec, t, v, layouts, call, r, f.V()) by { SoundGood(f); }
    }

    /** Make a symbolic link: a new inode, then its target as data. */
    method Symlink(parent: nat, name: Name, target: Bytes, now: nat) returns (r: Result<Reply, Store.Error>)
      requires Valid() && OpFits(f.V().inodes, CreateOp(parent, name, TYPE_LINK)) && BlobFits(target) && now < U64
      modifies this, f.vol, f.vol.dev, f.vol.bm, f.vol.bm.bits, f.vol.ddt, f.vol.scratch, f.vol.tbl
      ensures f.Sound() && old(f.vol.trace) <= f.vol.trace
      ensures target == [] || Create(old(View()), parent, name, TYPE_LINK).1.Failed? || old(NoPage(layouts, parent)) ==>
                Uninterrupted(old(f.P()), f.P())
      ensures r.Ok? ==> Valid()
      ensures r.Ok? && target == [] ==>
                r.value == Failed(Invalid) && View() == old(View()) && layouts == old(layouts) && f.V() == old(f.V())
      ensures r.Ok? && target != [] ==>
                && Worked(old(View()), old(layouts), old(f.V()), CreateOp(parent, name, TYPE_LINK), View(), layouts,
                     f.V(), r.value)
                && (r.value.Made? ==>
                     r.value.id < |f.V().inodes| && Content(f.V().inodes[r.value.id], f.V().plain) == target
                     && NewLink(f.V().inodes[r.value.id], now))
      ensures r.Err? ==> f.Excused(r.error, Max(DirRecords(old(layouts), parent), BlobCount(|target|)))
    {
      hide Structure, CountsOk, Files.Sound, Laid, NamesIn, Worked, GoodView, OpFits, SlotsOf, Content, SameSurplus,
        OthersSame, InTable, Touched, Replaced, SizeFits, Machine.Unflipped, Create, Files.Excused, Born, NewLink;
      AtRest(f);
      if target == [] {
        return Ok(Failed(Invalid));
      }
      ghost var t, ls, v := View(), layouts, f.V();
      r := CreateNode(parent, name, TYPE_LINK, 0x1ff, now);
      ghost var most := Max(DirRecords(ls, parent), BlobCount(|target|));
      if r.Err? { f.StillExcused(r.error, DirRecords(ls, parent), most); }
      if r.Err? || !r.value.Made? {
        return;
      }
      ghost var v1, t1, at := f.V(), View(), f.P();
      MadeFile(t, ls, v, parent, name, TYPE_LINK, View(), layouts, v1, r.value);
      SameTable(f);
      var id := r.value.id;
      var i := f.vol.tbl.slots.inodes[id];
      SlotInTable(f.vol.codec, v1, id) by { SoundGood(f); }
      var w := f.SetData(id, i, target, now);
      if Uninterrupted(old(f.P()), at) && at.s.deferred == [] { ThenSteady(old(f.P()), at, f.P()); }
      if w.Err? {
        f.StillExcused(w.error, BlobCount(|target|), most);
        return Err(w.error);
      }
      LinkBorn(v1.inodes[id], w.value, now);
      FilledFile(f.vol.codec, t, ls, v, CreateOp(parent, name, TYPE_LINK), t1, layouts, v1, r.value, id, w.value, now,
        f.V())
        by { SoundGood(f); }
    }
  }

  /** The overwrite is done and both directories are still as they were. */
  lemma MoveBetween(t: Tree, ls: Layouts, v: View, sp: nat, sn: Name, dp: nat, dn: Name, id: nat, mid: Tree,
      mids: Layouts, v1: View)
    requires MoveReady(t, ls, sp, sn, dp, dn, id) && dp in ls && !(dn in ls[dp].names && ls[dp].names[dn] == id)
              && Laid(v, ls)
    requires dn in ls[dp].names ==> LostName(t, ls, v, ls[dp].names[dn], mid, mids, v1)
    requires dn !in ls[dp].names ==> mid == t && mids == ls && v1 == v
    ensures Overwritten(t, ls, dp, dn, mid, mids) && |mid.slots| == |t.slots| && LayoutOk(ls[dp])
              && |ls[dp].used| == |ls[dp].pages|
    ensures sp in mids && dp in mids && sp in ls && mids[sp] == ls[sp] && mids[dp] == ls[dp] && LayoutOk(ls[sp])
              && EntryFits(Entry(dn, id))
    ensures Changed(ls[dp], Renewed(ls[dp], dn, id)) && |Renewed(ls[dp], dn, id).pages| <= |ls[dp].pages| + 1
    ensures var l := if dn in ls[dp].names then DelFrom(ls[dp], dn).0 else ls[dp];
            |l.used| == |l.pages| && Renewed(ls[dp], dn, id) == AddTo(l, dn, id).0
    ensures DataKept(v, v1, GoneBy(t, ls, dp, dn)) && SameSurplus(v, v1) && DirsSame(v, v1, mids)
    ensures GoneBy(t, ls, dp, dn) !! {dp, sp} && forall j :: j in GoneBy(t, ls, dp, dn) ==> EmptyAt(v1, j)
  {
    hide LayoutOk, Laid, DataKept, SameSurplus, DirsSame, DropLink, EmptyAt, MoveReady, LayoutsOk, Renewed, AddTo,
      DelFrom, Changed, LostName;
    MoveFacts(t, ls, sp, sn, dp, dn, id);
    OverwriteIs(t, ls, v, dp, dn, mid, mids, v1);
    ReplaceReady(ls, dp, dn, id);
    ReplaceSmall(ls, dp, dn, id);
    MoveMiddle(t, ls, sp, sn, dp, dn, id, mids);
    MiddleSlots(t, ls, dp, dn, mid, mids);
  }

  lemma AcrossWorked(t: Tree, ls: Layouts, v: View, v1: View, v2: View, sp: nat, sn: Name, dp: nat, dn: Name, id: nat,
      mid: Tree, mids: Layouts,
                     t': Tree, ls': Layouts, v': View)
    requires Moving(t, ls, sp, sn, dp, dn, id) && sp != dp && sp in ls && dp in ls && LayoutsOk(ls)
              && EntryFits(Entry(dn, id))
    requires Overwritten(t, ls, dp, dn, mid, mids) && WrittenBack(t, mid, sp, dp, t') && t'.names == NamesIn(ls')
              && t.names == NamesIn(ls)
    requires LayoutOk(ls[sp]) && LayoutOk(ls[dp])
    requires ls' == mids[dp := Clean(Renewed(ls[dp], dn, id))][sp := Clean(DelFrom(ls[sp], sn).0)]
    requires DataKept(v, v1, GoneBy(t, ls, dp, dn)) && DataKept(v1, v2, {}) && DataKept(v2, v', {dp} + {sp})
    requires SameSurplus(v, v1) && SameSurplus(v1, v2) && SameSurplus(v2, v')
    requires GoneBy(t, ls, dp, dn) !! {dp, sp} && forall j :: j in GoneBy(t, ls, dp, dn) ==> EmptyAt(v1, j)
    ensures Worked(t, ls, v, RenameOp(sp, sn, dp, dn), t', ls', v', Done) && Forest(t')
  {
    hide Structure, CountsOk, LayoutOk, DataKept, SameSurplus, DropLink, EmptyAt, LayoutsOk, Renewed, DelFrom, NamesIn,
      Does, Worked, GoneBy, MoveReady;
    MoveAcrossDone(t, ls, sp, sn, dp, dn, id, mid, mids, t', ls');
    MoveData(v, v1, v2, v', GoneBy(t, ls, dp, dn), {dp} + {sp});
    MoveWorked(t, ls, v, sp, sn, dp, dn, id, mid, mids, t', ls', v', {dp} + {sp});
  }

  lemma WithinWorked(t: Tree, ls: Layouts, v: View, v1: View, v2: View, p: nat, sn: Name, dn: Name, id: nat, mid: Tree,
      mids: Layouts,
                     t': Tree, ls': Layouts, v': View)
    requires Moving(t, ls, p, sn, p, dn, id) && p in ls && LayoutsOk(ls) && EntryFits(Entry(dn, id))
              && sn in ls[p].names && sn != dn
    requires Overwritten(t, ls, p, dn, mid, mids) && |mid.slots| == |t.slots| && p < |t.slots|
    requires t' == Tree(mid.slots[p := t.slots[p]], NamesIn(ls'), mid.next, mid.free, mid.open)
              && t.names == NamesIn(ls)
    requires LayoutOk(ls[p]) && LayoutOk(Renewed(ls[p], dn, id))
              && ls' == mids[p := Clean(DelFrom(Renewed(ls[p], dn, id), sn).0)]
    requires DataKept(v, v1, GoneBy(t, ls, p, dn)) && DataKept(v1, v2, {}) && DataKept(v2, v', {p})
    requires SameSurplus(v, v1) && SameSurplus(v1, v2) && SameSurplus(v2, v')
    requires GoneBy(t, ls, p, dn) !! {p, p} && forall j :: j in GoneBy(t, ls, p, dn) ==> EmptyAt(v1, j)
    ensures Worked(t, ls, v, RenameOp(p, sn, p, dn), t', ls', v', Done) && Forest(t')
  {
    hide Structure, CountsOk, LayoutOk, DataKept, SameSurplus, DropLink, EmptyAt, LayoutsOk, Renewed, DelFrom, NamesIn,
      Does, Worked, GoneBy, MoveReady;
    SlotSame(mid.slots[p := t.slots[p]], p);
    MoveWithinDone(t, ls, p, sn, dn, id, mid, mids, t', ls');
    MoveData(v, v1, v2, v', GoneBy(t, ls, p, dn), {p});
    MoveWorked(t, ls, v, p, sn, p, dn, id, mid, mids, t', ls', v', {p});
  }

  lemma OtherInTable(v: View, v': View, id: nat, d: nat, x: Inode)
    requires OthersSame(v, v', id) && d != id && InTable(x, d, v)
    ensures InTable(x, d, v') && (DirFits(v.inodes, d) <==> DirFits(v'.inodes, d))
  {
    hide Content, Fits;
  }

  lemma ReplaceSmall(ls: Layouts, d: nat, n: Name, id: nat)
    requires LayoutsOk(ls) && d in ls && LayoutOk(ls[d])
    ensures |Renewed(ls[d], n, id).pages| <= |ls[d].pages| + 1
  {
    hide LayoutOk, AddTo, DelFrom, LayoutsOk;
    PagesGrow(ls[d], n, id);
    DelKeeps(ls[d], n);
    PagesGrow(DelFrom(ls[d], n).0, n, id);
  }

  /** One name of `w` is gone. */
  ghost predicate LostName(t: Tree, ls: Layouts, v: View, w: nat, t': Tree, ls': Layouts, v': View) {
    && w < |t.slots| && t' == DropLink(t, w) && ls' == ls - Gone(t, w) && DirsSame(v, v', ls') && SameSurplus(v, v')
    && DataKept(v, v', Gone(t, w)) && (Recycles(t, w) ==> EmptyAt(v', w))
  }

  /** What closing comes to, case by case. */
  lemma CloseCases(t: Tree, ls: Layouts, id: nat)
    requires Matches(t, ls)
    ensures var left := if id in t.open && t.open[id] > 0 then t.open[id] - 1 else 0;
            var op, t1 := CloseOp(id), t.(open := t.open - {id});
            if left > 0 then Does(t, ls, op, t.(open := t.open[id := left]), ls, Done)
            else if id >= |t.slots| then Does(t, ls, op, t1, ls, Failed(NoSuchInode))
            else if t.slots[id].nlink > 0 then Does(t, ls, op, t1, ls, Done)
            else Does(t, ls, op, Reclaim(t1, id), ls - {id}, Done)
    ensures forall t', r :: Does(t, ls, CloseOp(id), t', ls, r) && Allowed(t, CloseOp(id), false) ==> Forest(t')
    ensures forall t', r :: Does(t, ls, CloseOp(id), t', ls - {id}, r) && Allowed(t, CloseOp(id), false) ==> Forest(t')
  {
    hide Structure, CountsOk, NamesIn, LayoutsOk;
    if Allowed(t, CloseOp(id), false) { ApplyKeeps(t, CloseOp(id), false); }
    if id in t.open { OpenNotDir(t, id); }
    NotNamed(t.names, ls, id);
  }

  lemma HandleWorked(t: Tree, ls: Layouts, v: View, op: Op, t': Tree, r: Reply)
    requires Does(t, ls, op, t', ls, r) && t'.next == t.next && t'.free == t.free
    ensures Worked(t, ls, v, op, t', ls, v, r)
  {
    hide Does, Content, Held;
  }

  lemma CloseWorked(t: Tree, ls: Layouts, v: View, id: nat, t': Tree, ls': Layouts, v': View)
    requires Does(t, ls, CloseOp(id), t', ls', Done) && t'.next == t.next && t'.free == t.free + [id]
    requires DataKept(v, v', {id}) && EmptyAt(v', id) && SameSurplus(v, v')
    ensures Worked(t, ls, v, CloseOp(id), t', ls', v', Done)
  {
    hide Does, Content, SameSurplus, DataKept, EmptyAt;
    assert t'.free[|t.free|] == id;
    WorkedBy(t, ls, v, CloseOp(id), t', ls', v', Done, {id});
  }

  lemma LoweredInTable(c: Codec, v: View, id: nat)
    requires GoodView(c, v) && id < |v.inodes|
    ensures var p := v.inodes[id]; InTable(p.(nlink := if p.nlink > 0 then p.nlink - 1 else 0), id, v)
  {
    hide GoodView;
    SlotInTable(c, v, id);
  }

  lemma RaisedInTable(c: Codec, v: View, id: nat, now: nat)
    requires GoodView(c, v) && id < |v.inodes| && now < U64
    ensures var p := v.inodes[id]; InTable(p.(nlink := (p.nlink + 1) % U32, ctime := now), id, v)
  {
    hide GoodView;
    SlotInTable(c, v, id);
  }

  lemma RmdirWorked(t: Tree, ls: Layouts, v: View, v1: View, p: nat, n: Name, id: nat, t': Tree, ls': Layouts, v': View)
    requires Matches(t, ls) && LayoutsOk(ls) && p in ls && n in ls[p].names && id == ls[p].names[n] && id != p
    requires id in ls && ls[id].names == map[] && id < |t.slots| && p < |t.slots| && ls' == DropEntry(ls, p, n) - {id}
    requires t'.slots == t.slots[p := t.slots[p].(nlink := if t.slots[p].nlink > 0 then t.slots[p].nlink - 1 else 0)]
                                [id := Node(0, 0, (t.slots[id].generation + 1) % U32)]
    requires t' == Tree(t'.slots, NamesIn(ls'), t.next, t.free + [id], t.open)
    requires DataKept(v, v1, {p}) && DataKept(v1, v', {id}) && EmptyAt(v', id) && SameSurplus(v, v1)
              && SameSurplus(v1, v')
    ensures Worked(t, ls, v, RmdirOp(p, n), t', ls', v', Done) && Forest(t')
  {
    hide Structure, CountsOk, LayoutOk, Content, SameSurplus, DataKept, DropEntry, LayoutsOk, NamesIn, Worked, DropName,
      Does, EmptyAt;
    NamesAt(ls, p);
    NamesAt(ls, id);
    KnownDir(t, p);
    KnownDir(t, id);
    RmdirDone(t, ls, p, n, t', ls');
    DataTwice(v, v1, v', {p}, {id});
    SurplusTwice(v, v1, v');
    NamesAt(ls', p);
    NamedLive(t', p, n);
    assert !Trees.Live(t', id) by { assert t'.free[|t.free|] == id; }
    WorkedBy(t, ls, v, RmdirOp(p, n), t', ls', v', Done, {p} + {id});
  }

  lemma LinkWorked(t: Tree, ls: Layouts, v: View, v1: View, p: nat, n: Name, x: nat, t': Tree, ls': Layouts, v': View)
    requires Matches(t, ls) && LayoutsOk(ls) && p in ls && n !in ls[p].names && |n| <= MAX_NAME
              && t.slots == SlotsOf(v.inodes)
    requires x < |v.inodes| && p < |v.inodes| && t.slots[x].kind != TYPE_DIR && EntryFits(Entry(n, x))
    requires SlotsOf(v1.inodes) == SlotsOf(v.inodes)[x := t.slots[x].(nlink := (t.slots[x].nlink + 1) % U32)]
    requires SlotsOf(v'.inodes) == SlotsOf(v1.inodes)[p := t.slots[p]] && ls' == PutEntry(ls, p, n, x)
    requires t' == Tree(SlotsOf(v'.inodes), NamesIn(ls'), t.next, t.free, t.open)
    requires DataKept(v, v1, {}) && DataKept(v1, v', {p}) && SameSurplus(v, v1) && SameSurplus(v1, v')
    ensures Worked(t, ls, v, LinkOp(p, n, x), t', ls', v', Done) && (Allowed(t, LinkOp(p, n, x), false) ==> Forest(t'))
  {
    hide Structure, CountsOk, LayoutOk, Content, SameSurplus, DataKept, PutEntry, LayoutsOk, NamesIn, Worked, PutName;
    NamesAt(ls, p);
    KnownDir(t, p);
    KnownDir(t, x);
    LinkKeeps(t, p, n, x, false);
    PutNames(ls, p, n, x);
    assert t' == Link(t, p, n, x).0;
    DataTwice(v, v1, v', {}, {p});
    assert {} + {p} == {p};
    SurplusTwice(v, v1, v');
    NamedLive(t, p, n);
    WorkedBy(t, ls, v, LinkOp(p, n, x), t', ls', v', Done, {p});
  }

  lemma SlotSame(slots: seq<Node>, id: nat)
    requires id < |slots|
    ensures slots[id := slots[id]] == slots
  {}

  /** Another slot is as it was. */
  lemma OtherSlot(c: Codec, v: View, v': View, id: nat, j: nat)
    requires GoodView(c, v') && OthersSame(v, v', id) && j < |v.inodes| && j != id
    ensures j < |v'.inodes| && v'.inodes[j] == v.inodes[j] && InTable(v.inodes[j], j, v')
  {
    hide GoodView, Content, InTable;
    SlotInTable(c, v', j);
  }

  /** A name can be dropped from a stored directory. */
  lemma DropFits(c: Codec, v: View, ls: Layouts, d: nat, n: Name)
    requires GoodView(c, v) && Laid(v, ls) && d in ls && n in ls[d].names && DirFits(v.inodes, d)
    ensures LayoutsOk(ls) && d < |v.inodes| && Fits(v.inodes[d]) && LayoutOk(ls[d])
    ensures var l := DelFrom(ls[d], n).0;
            Changed(ls[d], l) && |l.pages| <= |ls[d].pages| + 1 && 4 + |l.pages| * REF_SIZE < U32 && |l.dirty| <= 1
  {
    hide LayoutOk, Content, Laid, StoredDir, GoodView, AddTo, DelFrom, Changed, LayoutsOk;
    LaidOk(v, ls);
    LaidAt(v, ls, d);
    LaidStore(v, ls);
    SlotInTable(c, v, d);
    DelReady(ContentsOf(v), ls, d, n);
    EditSmall(ls[d], n, 0);
    WidthOk(v, ls, d, |DelFrom(ls[d], n).0.pages|);
  }

  lemma UnlinkWorked(t: Tree, ls: Layouts, v: View, v1: View, p: nat, n: Name, t1: Tree, t': Tree, ls': Layouts,
      v': View)
    requires Matches(t, ls) && LayoutsOk(ls) && p in ls && DirError(t, p).None? && n in t.names[p]
              && t.names[p][n] < |t.slots|
    requires t.slots[t.names[p][n]].kind != TYPE_DIR && t1 == t.(names := NamesIn(DropEntry(ls, p, n)))
    requires t' == DropLink(t1, t.names[p][n]) && ls' == DropEntry(ls, p, n) - Gone(t1, t.names[p][n])
              && t'.names == NamesIn(ls')
    requires DataKept(v, v1, {p}) && DataKept(v1, v', Gone(t1, t.names[p][n]))
    requires |v.inodes| == |t.slots| && SameSurplus(v, v1) && SameSurplus(v1, v')
    requires Recycles(t1, t.names[p][n]) ==> EmptyAt(v', t.names[p][n])
    ensures Worked(t, ls, v, UnlinkOp(p, n), t', ls', v', Done) && Forest(t')
  {
    hide Structure, CountsOk, LayoutOk, Content, SameSurplus, DataKept, DropEntry, LayoutsOk, NamesIn, Worked, DropName;
    var id := t.names[p][n];
    UnlinkKeeps(t, p, n, false);
    DropNames(ls, p, n);
    NotListed(ls, t, id, DropEntry(ls, p, n));
    KeptLen(v, v1, {p});
    var but := {p} + Gone(t1, id);
    DataTwice(v, v1, v', {p}, Gone(t1, id));
    SurplusTwice(v, v1, v');
    assert t' == Unlink(t, p, n).0;
    assert DropEntry(ls, p, n) - {} == DropEntry(ls, p, n);
    NamesAt(ls', p);
    NamedLive(t', p, n);
    KeptLen(v, v', but);
    WorkedBy(t, ls, v, UnlinkOp(p, n), t', ls', v', Done, but);
  }

  lemma KeptLen(v: View, v': View, but: set<nat>)
    requires DataKept(v, v', but)
    ensures |v'.inodes| == |v.inodes|
  {}

  /** What a new inode is given: its kind, mode and times, and nothing else but its first link. */
  ghost predicate Born(i: Inode, kind: nat, mode: nat, now: nat) {
    && i.kind == kind && i.nlink == (if kind == TYPE_DIR then 2 else 1) && i.mode == mode
    && i.atime == i.mtime == i.ctime == now && i.size == i.uid == i.gid == i.flags == 0
  }

  ghost predicate NewLink(i: Inode, now: nat) {
    i.kind == TYPE_LINK && i.nlink == 1 && i.mode == 0x1ff && i.atime == i.mtime == i.ctime == now
  }

  lemma LinkBorn(i: Inode, j: Inode, now: nat)
    requires Born(i, TYPE_LINK, 0x1ff, now) && Touched(i, j, now)
    ensures NewLink(j, now)
  {}

  lemma OtherInode(v: View, v': View, id: nat, j: nat)
    requires OthersSame(v, v', id) && j < |v.inodes| && j != id
    ensures j < |v'.inodes| && v'.inodes[j] == v.inodes[j]
  {
    hide Content;
  }

  function NewInode(kind: nat, mode: nat, generation: nat, now: nat): Inode {
    Blank().(kind := kind, nlink := if kind == TYPE_DIR then 2 else 1, mode := mode, generation := generation,
             atime := now, mtime := now, ctime := now)
  }

  lemma NewFits(c: Codec, v: View, id: nat, kind: nat, mode: nat, now: nat)
    requires GoodView(c, v) && id < |v.inodes| && kind < 256 && mode < U16 && now < U64
    ensures Fits(NewInode(kind, mode, v.inodes[id].generation, now))
  {
    hide Consistent, AllTrusted, RecordsOk, FileView.Live;
  }

  lemma LaidMatches(t: Tree, v: View, ls: Layouts)
    requires Forest(t) && t.names == NamesIn(ls) && Laid(v, ls) && t.slots == SlotsOf(v.inodes)
    ensures Matches(t, ls) && LayoutsOk(ls) && |t.slots| == |v.inodes| <= U64
  {
    hide Structure, CountsOk, LayoutOk, StoredDir;
  }

  lemma CreateWorked(t: Tree, ls: Layouts, v: View, p: nat, n: Name, kind: nat, x: Inode, t': Tree, ls': Layouts,
      v': View)
    requires Matches(t, ls) && Create(t, p, n, kind).1.Made? && |n| <= MAX_NAME && t.slots == SlotsOf(v.inodes)
    requires FreshId(t) < |v.inodes| && NodeOf(x) ==
              Node(kind, if kind == TYPE_DIR then 2 else 1, t.slots[FreshId(t)].generation)
    requires NewLinked(v, ls, p, n, FreshId(t), x, v', ls')
    requires t' == Tree(SlotsOf(v'.inodes), NamesIn(ls'), Create(t, p, n, kind).0.next, Create(t, p, n, kind).0.free,
              t.open)
    ensures Worked(t, ls, v, CreateOp(p, n, kind), t', ls', v', Create(t, p, n, kind).1) && Forest(t')
  {
    hide Structure, CountsOk, LayoutOk, Content, SameSurplus, DataKept, Create, PutEntry, WithEmpty, LayoutsOk, NamesIn,
      Worked, Does;
    CreateIs(t, p, n, kind);
    CreateKeeps(t, p, n, kind, false);
    NamesAt(ls, p);
    CreateDone(t, ls, p, n, kind, t', ls');
    FreshNotLive(t);
    assert p in t'.names && n in t'.names[p] && t'.names[p][n] == FreshId(t);
    NamedLive(t', p, n);
    assert Tidy(t, v) ==> Content(v.inodes[FreshId(t)], v.plain) == [];
    WorkedBy(t, ls, v, CreateOp(p, n, kind), t', ls', v', Create(t, p, n, kind).1, {FreshId(t), p});
  }

  lemma FreshNotLive(t: Tree)
    ensures !Trees.Live(t, FreshId(t))
  {}

  /** A directory that has a name in it is in use, and so is what the name stands for. */
  lemma NamedLive(t: Tree, d: nat, n: Name)
    requires Forest(t) && d in t.names
    ensures Trees.Live(t, d) && (n in t.names[d] ==> Trees.Live(t, t.names[d][n]))
  {
    hide Acyclic, CountsOk, Links;
  }

  lemma EmptyAside(ls: Layouts, id: nat, d: nat)
    requires LayoutsOk(ls) && d in ls && d != id
    ensures d in WithEmpty(ls, id) && WithEmpty(ls, id)[d] == ls[d]
  {
    hide LayoutOk;
  }

  /** A name can be added to a stored directory. */
  lemma AddFits(c: Codec, v: View, ls: Layouts, d: nat, n: Name, id: nat)
    requires GoodView(c, v) && Laid(v, ls) && d in ls && n !in ls[d].names && |n| <= MAX_NAME && id < |v.inodes|
              && DirFits(v.inodes, d)
    ensures LayoutsOk(ls) && d < |v.inodes| && Fits(v.inodes[d]) && EntryFits(Entry(n, id))
              && |ls[d].used| == |ls[d].pages|
    ensures var l := AddTo(ls[d], n, id).0;
            Changed(ls[d], l) && |l.pages| <= |ls[d].pages| + 1 && 4 + |l.pages| * REF_SIZE < U32 && |l.dirty| <= 1
  {
    hide LayoutOk, Content, Laid, StoredDir, GoodView, AddTo, DelFrom, Changed, LayoutsOk;
    LaidOk(v, ls);
    LaidAt(v, ls, d);
    LaidStore(v, ls);
    SlotInTable(c, v, d);
    AddReady(ContentsOf(v), ls, d, n, id);
    EditSmall(ls[d], n, id);
    WidthOk(v, ls, d, |AddTo(ls[d], n, id).0.pages|);
  }

  lemma NewLinkedBy(v: View, v1: View, v2: View, ls: Layouts, ls1: Layouts, ls2: Layouts, parent: nat, name: Name,
      id: nat, x: Inode, q: Inode)
    requires LayoutsOk(ls) && parent in ls && parent < |v.inodes| && id < |v.inodes| && EntryFits(Entry(name, id))
              && name !in ls[parent].names
    requires id !in ls && id != parent && ls1 == if x.kind == TYPE_DIR then WithEmpty(ls, id) else ls
    requires |ls[parent].used| == |ls[parent].pages| && ls2 == ls1[parent := Clean(AddTo(ls[parent], name, id).0)]
    requires q == var p := v.inodes[parent]; if x.kind == TYPE_DIR then p.(nlink := (p.nlink + 1) % U32) else p
    requires SlotsOf(v1.inodes) == SlotsOf(v.inodes)[id := NodeOf(x)]
              && SlotsOf(v2.inodes) == SlotsOf(v1.inodes)[parent := NodeOf(q)]
    requires DataKept(v, v1, {id}) && DataKept(v1, v2, {parent}) && SameSurplus(v1, v2)
    requires Content(v.inodes[id], v.plain) == [] ==> SameSurplus(v, v1)
    ensures NewLinked(v, ls, parent, name, id, x, v2, ls2)
  {
    hide LayoutOk, Content, LayoutsOk, AddTo, PutEntry, WithEmpty, SameSurplus, DataKept;
    CreateNames(ls, ls1, parent, name, x.kind, id);
    DataTwice(v, v1, v2, {id}, {parent});
    assert {id} + {parent} == {id, parent};
    if Content(v.inodes[id], v.plain) == [] { SurplusTwice(v, v1, v2); }
  }

  /** A slot was filled and named. */
  ghost predicate NewLinked(v: View, ls: Layouts, parent: nat, name: Name, id: nat, x: Inode, v': View, ls': Layouts) {
    && LayoutsOk(ls) && parent in ls && parent < |v.inodes| && id < |v.inodes| && EntryFits(Entry(name, id))
    && ls' == PutEntry(if x.kind == TYPE_DIR then WithEmpty(ls, id) else ls, parent, name, id)
    && SlotsOf(v'.inodes) == NewSlots(v.inodes, parent, id, x) && DataKept(v, v', {id, parent})
    && (Content(v.inodes[id], v.plain) == [] ==> SameSurplus(v, v'))
  }

  ghost function NewSlots(inodes: seq<Inode>, parent: nat, id: nat, x: Inode): seq<Node>
    requires parent < |inodes| && id < |inodes|
  {
    var p := NodeOf(inodes[parent]);
    SlotsOf(inodes)[id := NodeOf(x)][parent := if x.kind == TYPE_DIR then p.(nlink := (p.nlink + 1) % U32) else p]
  }

  lemma LinkedFits(p: Inode)
    requires Fits(p)
    ensures var q := p.(nlink := (p.nlink + 1) % U32); Fits(q) && SameData(q, p) && SameData(p, p)
  {}

  lemma TableWidth(c: Codec, s: Machine.State)
    requires Machine.Inv(c, s)
    ensures |s.meta.tbl.inodes| < U64
  {
    hide Machine.Durable, Machine.Deferral, Machine.PhaseOk, Machine.Readable, Machine.OneOwner, Machine.Pinned;
  }

  lemma LaidOk(v: View, ls: Layouts)
    requires Laid(v, ls)
    ensures LayoutsOk(ls) && |v.inodes| <= U64
  {
    hide LayoutOk, StoredDir;
  }

  /** A slot without contents holds no reference, and neither does a new inode. */
  lemma NoKeys(c: Codec, v: View, id: nat, x: Inode)
    requires GoodView(c, v) && id < |v.inodes| && Fits(x) && x.size == 0
    ensures Keys(x, v.plain) == multiset{}
    ensures Content(v.inodes[id], v.plain) == [] ==> Keys(v.inodes[id], v.plain) == multiset{}
  {
    hide Consistent, AllTrusted, Content, Keys, DataOk, Fits;
    BlankData(x, v);
    ContentIs(v.inodes[id], v);
    if Content(v.inodes[id], v.plain) == [] {
      DataFits(v.inodes[id], v);
      BlankData(v.inodes[id], v);
    }
  }

  lemma NewLaid(c: Codec, v: View, v': View, ls: Layouts, id: nat)
    requires Laid(v, ls) && OthersSame(v, v', id) && GoodView(c, v') && id !in ls && id < |v.inodes| && LayoutsOk(ls)
    requires v'.inodes[id].size == 0
    ensures Laid(v', ls) && Laid(v', WithEmpty(ls, id))
  {
    hide LayoutOk, StoredDir, Content, GoodView, OthersSame, Laid;
    EmptyOk();
    LaidWithout(c, v, v', ls, id);
    assert ls - {id} == ls;
    OthersKeep(v, v', id);
    EmptyStored(c, v', id);
    LaidUpdate(c, v, v', ls, id, EMPTY);
  }

  lemma EmptyStored(c: Codec, v: View, id: nat)
    requires GoodView(c, v) && id < |v.inodes| && v.inodes[id].size == 0
    ensures StoredDir(v.inodes[id], v, EMPTY.pages)
  {
    hide Consistent, AllTrusted, Content, DataOk, Fits;
    DataFits(v.inodes[id], v);
    BlankData(v.inodes[id], v);
    EmptyOk();
  }

  lemma RootLaid(c: Codec, v: View)
    requires GoodView(c, v) && 0 < |v.inodes| <= U64 && v.inodes[ROOT].size == 0
    ensures Laid(v, map[ROOT := EMPTY]) && NamesIn(map[ROOT := EMPTY]) == map[ROOT := map[]]
  {
    hide Content, Consistent, AllTrusted;
    BlankData(v.inodes[ROOT], v);
    EmptyOk();
  }

  lemma StoredSlotBack(c: Codec, v: View, id: nat, x: Inode, pages: Pages)
    requires GoodView(c, v) && InTable(x, id, v) && StoredDir(v.inodes[id], v, pages)
    ensures StoredDir(x, v, pages)
  {
    hide DataOk, Content, Holds, Fits, SameData, Consistent, AllTrusted;
    SameDataOk(x, v.inodes[id], v);
    SameDataKeys(x, v.inodes[id], v.plain);
    SameDataParts(x, v.inodes[id]);
  }

  lemma SameDataParts(i: Inode, j: Inode)
    requires SameData(i, j)
    ensures j.size == i.size && j.recordSizeLog2 == i.recordSizeLog2
  {}

  lemma FlushedDir(c: Codec, v: View, v': View, ls: Layouts, id: nat, x: Inode, y: Inode, l: Layout)
    requires Laid(v, ls) && id in ls && GoodView(c, v') && Replaced(v, v', id, y) && SameNode(x, y) && LayoutOk(l)
    requires StoredDir(y, v', l.pages)
    ensures Laid(v', ls[id := Clean(l)]) && SlotsOf(v'.inodes) == SlotsOf(v.inodes)[id := NodeOf(x)]
    ensures DataKept(v, v', {id}) && SameSurplus(v, v') && OthersSame(v, v', id)
  {
    hide Content, LayoutOk, StoredDir, GoodView, Laid, SameSurplus, OthersSame, DataKept;
    CleanOk(l);
    OthersKeep(v, v', id);
    SlotsUpdate(v.inodes, id, y);
    LaidUpdate(c, v, v', ls, id, Clean(l));
  }

  lemma NothingMoved(v: View, ls: Layouts)
    requires Laid(v, ls)
    ensures DataKept(v, v, {}) && SameSurplus(v, v) && DirsSame(v, v, ls)
  {
    hide LayoutOk, StoredDir, Held, Content;
  }

  /** The directory a rename recycles, if it replaces one. */
  ghost function GoneBy(t: Tree, ls: Layouts, dp: nat, dn: Name): set<nat> {
    if dp in ls && dn in ls[dp].names then Gone(t, ls[dp].names[dn]) else {}
  }

  lemma OverwriteIs(t: Tree, ls: Layouts, v: View, dp: nat, dn: Name, mid: Tree, mids: Layouts, v1: View)
    requires dp in ls && Laid(v, ls)
    requires dn in ls[dp].names ==> LostName(t, ls, v, ls[dp].names[dn], mid, mids, v1)
    requires dn !in ls[dp].names ==> mid == t && mids == ls && v1 == v
    ensures Overwritten(t, ls, dp, dn, mid, mids) && mids == ls - GoneBy(t, ls, dp, dn)
    ensures DataKept(v, v1, GoneBy(t, ls, dp, dn)) && SameSurplus(v, v1) && DirsSame(v, v1, mids)
    ensures forall j :: j in GoneBy(t, ls, dp, dn) ==> EmptyAt(v1, j)
  {
    hide Laid, DataKept, SameSurplus, DirsSame, DropLink, EmptyAt;
    NothingMoved(v, ls);
    assert ls - {} == ls;
  }

  lemma WithinSmall(l: Layout, sn: Name, dn: Name, id: nat)
    requires LayoutOk(l) && LayoutOk(Renewed(l, dn, id))
    ensures |DelFrom(Renewed(l, dn, id), sn).0.pages| <= |l.pages| + 1 && |Renewed(l, dn, id).pages| <= |l.pages| + 1
  {
    hide LayoutOk, AddTo, DelFrom;
    PagesGrow(l, dn, id);
    DelKeeps(l, dn);
    PagesGrow(DelFrom(l, dn).0, dn, id);
    PagesGrow(Renewed(l, dn, id), sn, id);
  }

  lemma MovedInTable(c: Codec, v: View, v1: View, v2: View, ls: Layouts, d: nat)
    requires GoodView(c, v) && DirsSame(v, v1, ls) && DirsSame(v1, v2, ls) && d in ls
    ensures d < |v.inodes| && InTable(v.inodes[d], d, v2) && (DirFits(v.inodes, d) <==> DirFits(v2.inodes, d))
  {
    hide GoodView, DirsSame, InTable, DirFits;
    DirsSameTwice(v, v1, v2, ls, ls);
    DirsSameAt(c, v, v2, ls, d);
  }

  lemma MoveData(v: View, v1: View, v2: View, v3: View, gone: set<nat>, but: set<nat>)
    requires DataKept(v, v1, gone) && DataKept(v1, v2, {}) && DataKept(v2, v3, but) && gone !! but
    requires SameSurplus(v, v1) && SameSurplus(v1, v2) && SameSurplus(v2, v3) && forall j :: j in gone ==>
              EmptyAt(v1, j)
    ensures DataKept(v, v3, gone + but) && SameSurplus(v, v3) && forall j :: j in gone ==> EmptyAt(v3, j)
  {
    hide SameSurplus, Content;
    DataTwice(v, v1, v2, gone, {});
    assert gone + {} == gone;
    DataTwice(v, v2, v3, gone, but);
    SurplusTwice(v, v1, v2);
    SurplusTwice(v, v2, v3);
  }

  lemma MoveWorked(t: Tree, ls: Layouts, v: View, sp: nat, sn: Name, dp: nat, dn: Name, id: nat, mid: Tree,
      mids: Layouts,
                   t': Tree, ls': Layouts, v': View, but: set<nat>)
    requires Does(t, ls, RenameOp(sp, sn, dp, dn), t', ls', Done) && Forest(t') && dp in ls
              && Overwritten(t, ls, dp, dn, mid, mids)
    requires t'.next == mid.next && t'.free == mid.free && t.names == NamesIn(ls) && t'.names == NamesIn(ls')
    requires forall j :: j in but ==> j in ls && j in ls'
    requires DataKept(v, v', GoneBy(t, ls, dp, dn) + but) && SameSurplus(v, v')
    requires forall j :: j in GoneBy(t, ls, dp, dn) ==> EmptyAt(v', j)
    ensures Worked(t, ls, v, RenameOp(sp, sn, dp, dn), t', ls', v', Done)
  {
    hide Structure, CountsOk, Does, Content, SameSurplus, DataKept, EmptyAt, NamesIn, Worked, LayoutOk;
    var gone := GoneBy(t, ls, dp, dn);
    forall j | j in but ensures j in t.names && Trees.Live(t', j) {
      NamesAt(ls, j);
      NamesAt(ls', j);
      NamedLive(t', j, sn);
    }
    forall j | j in gone ensures !Trees.Live(t', j) { assert t'.free[|t.free|] == j; }
    WorkedBy(t, ls, v, RenameOp(sp, sn, dp, dn), t', ls', v', Done, gone + but);
  }

  /** The calls a client makes on files. */
  predicate FileCall(call: FileSessions.Call) {
    call.Write? || call.Replace? || call.Resize? || call.Read? || call.Sync?
  }

  /** A call on files leaves the directories and what the namespace keeps of every inode as they were. */
  lemma CallKeeps(c: Codec, t: Tree, v: View, ls: Layouts, call: FileSessions.Call, r: FileSessions.Reply, v': View)
    requires GoodView(c, v') && Laid(v, ls) && FileCall(call) && FileSessions.StepOf(v, call, r, v')
    requires Forest(t) && t.names == NamesIn(ls) && t.slots == SlotsOf(v.inodes)
    ensures Laid(v', ls) && SlotsOf(v'.inodes) == SlotsOf(v.inodes)
  {
    hide Structure, CountsOk, NamesIn, Laid, GoodView, SlotsOf, FileBecomes, OnlyLeaked, Records.Splice, Content;
    if !r.Fine? {
      if v' != v { LaidLeaked(c, v, v', ls); }
    } else if v' != v {
      match call
      case Write(id, off, data) => FileKeeps(c, t, v, ls, id, Records.Splice(FileBytes(v, id), off, data), v');
      case Replace(id, data) => FileKeeps(c, t, v, ls, id, data, v');
      case Resize(id, size) => FileKeeps(c, t, v, ls, id, Records.Resize(FileBytes(v, id), size), v');
      case _ =>
    }
  }

  lemma LaidLeaked(c: Codec, v: View, v': View, ls: Layouts)
    requires GoodView(c, v') && Laid(v, ls) && OnlyLeaked(v, v')
    ensures Laid(v', ls) && v'.inodes == v.inodes
  {
    hide LayoutOk, StoredDir, Content, GoodView, SameData;
    forall d | d in ls ensures d < |v'.inodes| && StoredDir(v'.inodes[d], v', ls[d].pages) {
      SameDataSelf(v.inodes[d]);
      StoredStays(c, v, v', d, ls[d].pages);
    }
  }

  lemma FileKeeps(c: Codec, t: Tree, v: View, ls: Layouts, id: nat, b: Bytes, v': View)
    requires GoodView(c, v') && Laid(v, ls) && FileBecomes(v, v', id, b)
    requires Forest(t) && t.names == NamesIn(ls) && t.slots == SlotsOf(v.inodes)
    ensures Laid(v', ls) && SlotsOf(v'.inodes) == SlotsOf(v.inodes)
  {
    hide Structure, CountsOk, NamesIn, Laid, GoodView, Content, SameSurplus;
    KnownDir(t, id);
    NotNamed(t.names, ls, id);
    LaidWithout(c, v, v', ls, id);
    assert SlotsOf(v'.inodes) == SlotsOf(v.inodes);
  }

  /** A file just made is in use, was not before, and is no directory. */
  lemma MadeFile(t: Tree, ls: Layouts, v: View, p: nat, n: Name, kind: nat, t': Tree, ls': Layouts, v': View, r: Reply)
    requires Worked(t, ls, v, CreateOp(p, n, kind), t', ls', v', r) && r.Made? && kind != TYPE_DIR
    requires Forest(t') && t'.names == NamesIn(ls')
    ensures r.id < |t'.slots| && r.id !in ls' && !Trees.Live(t, r.id) && Trees.Live(t', r.id)
    ensures r == Create(t, p, n, kind).1
  {
    hide Structure, CountsOk, NamesIn, Content, SameSurplus, LayoutsOk, Create, LayoutsAfter;
    CreateIs(t, p, n, kind);
    FreshNotLive(t);
    assert p in t'.names && n in t'.names[p] && t'.names[p][n] == r.id;
    NamedLive(t', p, n);
    KnownDir(t', r.id);
    NamesAt(ls', r.id);
  }

  lemma FilledFile(c: Codec, t: Tree, ls: Layouts, v: View, op: Op, t': Tree, ls': Layouts, v1: View, r: Reply, id: nat,
      y: Inode, now: nat, v2: View)
    requires Worked(t, ls, v, op, t', ls', v1, r) && Laid(v1, ls') && GoodView(c, v2) && id < |v1.inodes| && id !in ls'
    requires Replaced(v1, v2, id, y) && Touched(v1.inodes[id], y, now) && !Trees.Live(t, id) && Trees.Live(t', id)
    ensures Worked(t, ls, v, op, t', ls', v2, r) && Laid(v2, ls') && SlotsOf(v2.inodes) == SlotsOf(v1.inodes)
    ensures id < |v2.inodes| && v2.inodes[id] == y
  {
    hide Does, Content, SameSurplus, Laid, GoodView;
    LaidWithout(c, v1, v2, ls', id);
    assert ls' - {id} == ls';
    assert SlotsOf(v2.inodes) == SlotsOf(v1.inodes);
    if Tidy(t, v) { SurplusTwice(v, v1, v2); }
  }
}
