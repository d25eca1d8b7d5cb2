/** Directories on top of the block layer: every page of a directory is one stored record of its inode. */
module DirectoryFiles {
  import opened Bytes
  import opened Store
  import opened Records
  import opened Inodes
  import opened FileView
  import opened Volumes
  import opened Files
  import opened Directories
  import opened DirPages

  const PAGE_LOG2: nat := 12

  /** The inode's data are the pages, cut at the page size. */
  ghost predicate StoredDir(i: Inode, v: View, pages: Pages) {
    DataOk(i, v) && Holds(Content(i, v.plain), pages) && (i.size > 0 ==> i.recordSizeLog2 == PAGE_LOG2)
  }

  /** A stored directory has one ref per page, and each ref stands for exactly the page's bytes. */
  lemma PageIsRecord(i: Inode, v: View, pages: Pages, p: nat)
    requires StoredDir(i, v, pages) && p < |pages|
    ensures |RefsOf(i, v.plain)| == |pages| && Live(RefsOf(i, v.plain)[p], v)
    ensures TextOf(RefsOf(i, v.plain)[p], v.plain) == EncodePage(pages[p])
  {
    hide EncodePage, RefsOf, Content, Live, DataOk, Shift, PageFits;
    assert PageAt(Content(i, v.plain), p, pages[p]);
    ContentIs(i, v);
    ShiftValues();
    JobRefs(i, v);
    RecordTextIs(i, v, p);
  }

  /** Another page written at its offset keeps the sizes within their fields. */
  lemma PageWriteFits(i: Inode, v: View, pages: Pages, todo: set<nat>, p: nat)
    requires DataOk(i, v) && Flushing(Content(i, v.plain), pages, todo) && p in todo && 4 + |pages| * REF_SIZE < U32
    ensures WriteFits(i, PAGE * p, PAGE) && WriteCount(i, PAGE * p, PAGE) <= |pages|
  {
    hide EncodePage, Content, Live, DataOk, Shift, PageFits, RecordCount, RecordSizeFor, PagesFit;
    ContentIs(i, v);
    JobRefs(i, v);
    var newSize := Max(i.size, PAGE * p + PAGE);
    RecordSizeIsShift(newSize);
    ShiftAtLeast(if i.size > 0 then i.recordSizeLog2 else RecordSizeFor(newSize).1);
    FewRecords(newSize, WriteRate(i, newSize), |pages|);
  }

  lemma FewRecords(size: nat, rs: nat, n: nat)
    requires rs >= PAGE && size <= PAGE * n
    ensures RecordCount(size, rs) <= n
  {
    hide RecStart;
    Longer(rs, n);
    if RecordCount(size, rs) > n {
      RecordStarts(size, rs, n);
      assert false;
    }
  }

  lemma Longer(rs: nat, n: nat)
    requires rs >= PAGE
    ensures PAGE * n <= RecStart(rs, n)
  {
    assert (rs - PAGE) * n >= 0;
  }

  lemma ReplacedTwice(v: View, v1: View, v2: View, id: nat, x: Inode, y: Inode)
    requires Replaced(v, v1, id, x) && Replaced(v1, v2, id, y)
    ensures Replaced(v, v2, id, y)
  {
    hide Content, Held;
    assert v.inodes[id := x][id := y] == v.inodes[id := y];
  }

  /** Every other inode and its contents are as they were. */
  lemma LeakedOthers(v: View, v1: View, v2: View, id: nat)
    requires OthersSame(v, v1, id) && OnlyLeaked(v1, v2)
    ensures OthersSame(v, v2, id)
  {
    hide Content;
  }

  lemma InTableAfter(v: View, v': View, id: nat, x: Inode, c: Codec)
    requires Replaced(v, v', id, x) && GoodView(c, v')
    ensures InTable(x, id, v') && DataOk(x, v')
  {
    hide DataOk, Content, SameSurplus, OthersSame, Consistent, AllTrusted, Fits;
    assert v'.inodes[id] == x;
    DataFits(x, v');
  }

  /** What the namespace keeps of an inode. */
  ghost predicate SameNode(i: Inode, j: Inode) {
    j.kind == i.kind && j.nlink == i.nlink && j.generation == i.generation
  }

  /** Part way through a flush. */
  ghost predicate FlushState(v0: View, v: View, id: nat, i: Inode, x: Inode, was: Pages, pages: Pages, dirty: set<nat>,
      todo: set<nat>) {
    && InTable(x, id, v) && DataOk(x, v) && Flushing(Content(x, v.plain), pages, todo) && SameNode(i, x)
    && (was != [] ==> x.size > 0) && (x.size > 0 && (was != [] || |pages| <= 7) ==> x.recordSizeLog2 == PAGE_LOG2)
    && if todo == dirty then v == v0 && x == i else Replaced(v0, v, id, x)
  }

  /**
   Write the changed pages, each at its own offset, in any order. A directory that had a page keeps its record size; an
   empty one gets the page size, as the first write then ends below 32 KiB.
   */
  method FlushDir(f: Files, id: nat, i: Inode, pages: Pages, dirty: set<nat>, now: nat, ghost was: Pages)
      returns (r: Result<Inode, Store.Error>)
    requires f.Valid() && InTable(i, id, f.V()) && StoredDir(i, f.V(), was) && Touches(was, pages, dirty)
              && PagesFit(pages)
    requires now < U64 && 4 + |pages| * REF_SIZE < U32
    modifies f.vol`s, f.vol`trace, f.vol`ub, f.vol.dev, f.vol.bm, f.vol.bm.bits, f.vol.ddt, f.vol.scratch, f.vol.tbl
    ensures f.Sound() && old(f.vol.trace) <= f.vol.trace && (r.Err? && r.error != Ended ==> f.Valid())
    ensures OthersSame(old(f.V()), f.V(), id) && f.vol.s.ub.nextInode == old(f.vol.s.ub.nextInode)
    ensures r.Err? ==> f.Excused(r.error, |pages|)
    ensures |dirty| <= 1 ==> Steady(old(f.P()), f.P()) && (was == [] ==> Calm(old(f.P()), f.P()))
    ensures r.Ok? ==>
              f.Valid() && InTable(r.value, id, f.V()) && Holds(Content(r.value, f.V().plain), pages)
              && SameNode(i, r.value)
    ensures r.Ok? ==> if dirty == {} then f.V() == old(f.V()) else Replaced(old(f.V()), f.V(), id, r.value)
    ensures r.Ok? && (was != [] || |pages| <= 7) ==> StoredDir(r.value, f.V(), pages)
  {
    hide Files.Sound, EncodePage, Content, DataOk, InTable, Replaced, Flushing, Holds, Touches, OthersSame, OnlyLeaked,
      PagesFit, WriteFits, FlushState, RecordSizeFor, WriteCount, Files.Excused;
    var todo, x := dirty, i;
    ghost var v0 := f.V();
    FlushBegins(v0, id, i, was, pages, dirty);
    NoPages(i, v0, was);
    OthersKept(v0, id);
    f.Quiet();
    while todo != {}
      invariant f.Valid() && old(f.vol.trace) <= f.vol.trace && todo <= dirty && OthersSame(v0, f.V(), id)
      invariant f.vol.s.ub.nextInode == old(f.vol.s.ub.nextInode) && (todo == dirty ==> f.P() == old(f.P()))
      invariant |dirty| <= 1 ==> Steady(old(f.P()), f.P()) && (todo == dirty || todo == {})
      invariant (|dirty| <= 1 && was == [] ==> Calm(old(f.P()), f.P())) && (todo == dirty ==> x == i)
      invariant FlushState(v0, f.V(), id, i, x, was, pages, dirty, todo)
      decreases todo
    {
      var p :| p in todo;
      AtMostOne(todo, p);
      ghost var v := f.V();
      FlushReady(v0, v, id, i, x, was, pages, dirty, todo, p);
      var page := EncodeDirPage(pages[p]);
      r := f.WriteAtLocked(id, x, PAGE * p, page[..], now);
      if r.Err? {
        f.StillExcused(r.error, WriteCount(x, PAGE * p, PAGE), |pages|);
        LeakedOthers(v0, v, f.V(), id);
        return;
      }
      FlushSteps(f.vol.codec, v0, v, f.V(), id, i, x, r.value, was, pages, dirty, todo, p, now) by { SoundGood(f); }
      x, todo := r.value, todo - {p};
      assert p in dirty && p !in todo;
    }
    FlushEnds(v0, f.V(), id, i, x, was, pages, dirty);
    return Ok(x);
  }

  lemma NoPages(i: Inode, v: View, pages: Pages)
    requires StoredDir(i, v, pages)
    ensures pages == [] ==> i.size == 0
  {
    hide Content, DataOk, PageAt, RefsOf;
    ContentIs(i, v);
  }

  lemma AtMostOne(s: set<nat>, p: nat)
    requires p in s
    ensures |s| <= 1 ==> s == {p} && s - {p} == {}
  {
    assert |s - {p}| == |s| - 1;
    assert s == s - {p} + {p};
  }

  lemma OthersKept(v: View, id: nat)
    ensures OthersSame(v, v, id)
  {}

  lemma FlushBegins(v: View, id: nat, i: Inode, was: Pages, pages: Pages, dirty: set<nat>)
    requires InTable(i, id, v) && StoredDir(i, v, was) && Touches(was, pages, dirty) && PagesFit(pages)
    ensures FlushState(v, v, id, i, i, was, pages, dirty, dirty)
  {
    hide EncodePage, Content, DataOk, InTable, Replaced, Flushing, Touches, PagesFit, PageAt;
    ContentIs(i, v);
    FlushStart(Content(i, v.plain), was, pages, dirty);
  }

  lemma FlushReady(v0: View, v: View, id: nat, i: Inode, x: Inode, was: Pages, pages: Pages, dirty: set<nat>,
      todo: set<nat>, p: nat)
    requires FlushState(v0, v, id, i, x, was, pages, dirty, todo) && p in todo && 4 + |pages| * REF_SIZE < U32
    ensures InTable(x, id, v) && WriteFits(x, PAGE * p, PAGE) && WriteCount(x, PAGE * p, PAGE) <= |pages|
    ensures p < |pages| && PageFits(pages[p])
              && |EncodePage(pages[p])| == PAGE
  {
    hide EncodePage, Content, DataOk, InTable, Replaced, PagesFit, PageAt, WriteFits, WriteCount;
    PageWriteFits(x, v, pages, todo, p);
    FlushNext(Content(x, v.plain), pages, todo, p);
  }

  lemma FlushSteps(c: Codec, v0: View, v: View, v': View, id: nat, i: Inode, x: Inode, y: Inode, was: Pages,
      pages: Pages, dirty: set<nat>,
                   todo: set<nat>, p: nat, now: nat)
    requires FlushState(v0, v, id, i, x, was, pages, dirty, todo) && p in todo && todo <= dirty && p < |pages|
              && PageFits(pages[p])
    requires GoodView(c, v') && Replaced(v, v', id, y)
    requires Content(y, v'.plain) == Splice(Content(v.inodes[id], v.plain), PAGE * p, EncodePage(pages[p]))
    requires y.size == Max(x.size, PAGE * p + PAGE) && SameNode(x, y)
    requires y.recordSizeLog2 == if x.size > 0 then x.recordSizeLog2 else RecordSizeFor(PAGE * p + PAGE).1
    ensures FlushState(v0, v', id, i, y, was, pages, dirty, todo - {p}) && Replaced(v0, v', id, y)
              && OthersSame(v0, v', id)
  {
    hide EncodePage, Content, DataOk, PagesFit, PageAt, GoodView, Flushing, SameSurplus, Splice, Fits;
    InTableAfter(v, v', id, y, c);
    SameDataKeys(x, v.inodes[id], v.plain);
    FlushNext(Content(x, v.plain), pages, todo, p);
    assert p in dirty && p !in todo - {p};
    if todo != dirty { ReplacedTwice(v0, v, v', id, x, y); }
  }

  lemma FlushEnds(v0: View, v: View, id: nat, i: Inode, x: Inode, was: Pages, pages: Pages, dirty: set<nat>)
    requires FlushState(v0, v, id, i, x, was, pages, dirty, {})
    ensures InTable(x, id, v) && Holds(Content(x, v.plain), pages) && SameNode(i, x)
    ensures if dirty == {} then v == v0 else Replaced(v0, v, id, x)
    ensures was != [] || |pages| <= 7 ==> StoredDir(x, v, pages)
  {
    hide EncodePage, Content, DataOk, InTable, Replaced, Flushing, PagesFit, PageAt;
    FlushEnd(Content(x, v.plain), pages);
  }

  // ----- editing a stored directory -----

  datatype DirEdit = Insert(name: Name, inode: nat) | Remove(name: Name)

  ghost predicate EditFits(e: DirEdit) { e.Insert? ==> EntryFits(Entry(e.name, e.inode)) }

  /** The names after some edits. */
  ghost function NamesAfter(names: map<Name, nat>, edits: seq<DirEdit>): map<Name, nat> {
    if edits == [] then names
    else
      var was, e := NamesAfter(names, edits[..|edits| - 1]), edits[|edits| - 1];
      if e.Remove? then was - {e.name} else if e.name in was then was else was[e.name := e.inode]
  }

  /** Make the edits in memory: each opens at most one page, and marks what it changes. */
  method MakeEdits(h: CachedDir, edits: seq<DirEdit>)
    requires h.Valid() && h.dirty == {} && forall n :: 0 <= n < |edits| ==> EditFits(edits[n])
    modifies h, h.dir
    ensures h.Valid() && h.View().names == NamesAfter(old(h.View().names), edits)
    ensures |h.pages| <= |old(h.pages)| + |edits| && Touches(old(h.pages), h.pages, h.dirty)
  {
    hide LayoutOk, EntryFits, AddTo, DelFrom, Touches;
    var n := 0;
    ghost var was := h.pages;
    assert edits[..0] == [];
    TouchNothing(was);
    while n < |edits|
      invariant 0 <= n <= |edits| && h.Valid() && h.View().names == NamesAfter(old(h.View().names), edits[..n])
      invariant |h.pages| <= |was| + n && Touches(was, h.pages, h.dirty)
    {
      ghost var l := h.View();
      assert edits[..n + 1][..n] == edits[..n] && EditFits(edits[n]);
      match edits[n] {
        case Insert(name, inode) =>
          AddKeeps(l, name, inode);
          AddTouches(was, l, name, inode);
          PagesGrow(l, name, inode);
          var added := h.Add(name, inode);
        case Remove(name) =>
          DelKeeps(l, name);
          DelTouches(was, l, name);
          PagesGrow(l, name, 0);
          var removed := h.Del(name);
      }
      n := n + 1;
    }
    assert edits[..n] == edits;
  }

  lemma TouchNothing(pages: Pages)
    ensures Touches(pages, pages, {})
  {}

  lemma PagesGrow(l: Layout, name: Name, id: nat)
    requires LayoutOk(l)
    ensures |l.used| == |l.pages| && |AddTo(l, name, id).0.pages| <= |l.pages| + 1
              && |DelFrom(l, name).0.pages| == |l.pages|
  {
    hide PageFits, PageBytes, Distinct, PlacedAt, Mentions;
  }

  /** A flush writes the edits of one operation, which are fewer than eight. */
  ghost predicate FlushFew(edits: seq<DirEdit>) { |edits| <= 7 && forall n :: 0 <= n < |edits| ==> EditFits(edits[n]) }

  /** Edit a directory and flush it. The record size stays the page size, so every page is one record again. */
  method EditDir(f: Files, id: nat, i: Inode, h: CachedDir, edits: seq<DirEdit>, now: nat)
      returns (r: Result<Inode, Store.Error>)
    requires f.Valid() && InTable(i, id, f.V()) && StoredDir(i, f.V(), h.pages)
    requires h.Valid() && h.dirty == {} && FlushFew(edits) && now < U64 && 4 + (|h.pages| + |edits|) * REF_SIZE < U32
    modifies h, h.dir, f.vol`s, f.vol`trace, f.vol`ub, f.vol.dev, f.vol.bm, f.vol.bm.bits, f.vol.ddt, f.vol.scratch,
      f.vol.tbl
    ensures f.Sound() && old(f.vol.trace) <= f.vol.trace && (r.Err? && r.error != Ended ==> f.Valid())
    ensures OthersSame(old(f.V()), f.V(), id) && h.Valid()
    ensures h.View().names == NamesAfter(old(h.View().names), edits) && |h.pages| <= |old(h.pages)| + |edits|
    ensures r.Ok? ==> f.Valid() && InTable(r.value, id, f.V()) && StoredDir(r.value, f.V(), h.pages) && h.dirty == {}
    ensures r.Ok? ==> SameSurplus(old(f.V()), f.V()) && SameNode(i, r.value)
    ensures r.Err? ==> f.Excused(r.error, |h.pages|)
  {
    hide Files.Sound, LayoutOk, StoredDir, InTable, Touches, OthersSame, Holds, Replaced, Content, NamesAfter,
      SameSurplus, Files.Excused;
    ghost var was := h.pages;
    MakeEdits(h, edits);
    FewerPages(|h.pages|, |was| + |edits|);
    assert PagesFit(h.pages) by { PagesOf(h.View()); }
    r := FlushDir(f, id, i, h.pages, h.dirty, now, was);
    if r.Ok? {
      FlushedSurplus(old(f.V()), f.V(), id, r.value, h.dirty);
      CleanKeeps(h.View());
      h.dirty := {};
    }
  }

  lemma FlushedSurplus(v: View, v': View, id: nat, x: Inode, dirty: set<nat>)
    requires if dirty == {} then v' == v else Replaced(v, v', id, x)
    ensures SameSurplus(v, v')
  {
    hide Held, OthersSame;
  }

  lemma SurplusTwice(v: View, v1: View, v2: View)
    requires SameSurplus(v, v1) && SameSurplus(v1, v2)
    ensures SameSurplus(v, v2)
  {
    hide Held;
  }

  lemma FewerPages(a: nat, b: nat)
    requires a <= b
    ensures a * REF_SIZE <= b * REF_SIZE
  {}

  lemma PagesOf(l: Layout)
    requires LayoutOk(l)
    ensures PagesFit(l.pages)
  {}

  lemma CleanKeeps(l: Layout)
    requires LayoutOk(l)
    ensures LayoutOk(l.(dirty := {}))
  {
    hide PageFits, PageBytes, Distinct, Mentions;
    var l' := l.(dirty := {});
    forall p, i | 0 <= p < |l'.pages| && 0 <= i < |l'.pages[p]| ensures PlacedAt(l', l'.pages[p][i], p) {
      assert PlacedAt(l, l.pages[p][i], p);
    }
  }

  ghost function Joined(flushes: seq<seq<DirEdit>>): seq<DirEdit> {
    if flushes == [] then [] else Joined(flushes[..|flushes| - 1]) + flushes[|flushes| - 1]
  }

  lemma {:induction false} NamesTwice(names: map<Name, nat>, a: seq<DirEdit>, b: seq<DirEdit>)
    ensures NamesAfter(names, a + b) == NamesAfter(NamesAfter(names, a), b)
  {
    if b == [] {
      assert a + b == a;
    } else {
      NamesTwice(names, a, b[..|b| - 1]);
      assert (a + b)[..|a + b| - 1] == a + b[..|b| - 1];
    }
  }

  lemma OthersTwice(v: View, v1: View, v2: View, id: nat)
    requires OthersSame(v, v1, id) && OthersSame(v1, v2, id)
    ensures OthersSame(v, v2, id)
  {
    hide Content;
  }

  /** The slot holds the same data as the copy in hand. */
  lemma StoredSlot(c: Codec, v: View, id: nat, i: Inode, pages: Pages)
    requires GoodView(c, v) && InTable(i, id, v) && StoredDir(i, v, pages)
    ensures id < |v.inodes| && StoredDir(v.inodes[id], v, pages)
  {
    hide Fits, Consistent, AllTrusted, DataOk, Content, Holds;
    SameDataKeys(i, v.inodes[id], v.plain);
  }

  /**
   Any number of flushes of a directory that starts empty, or stored page by page: it stays stored page by page, what it
   holds is what the edits say, and every count moves with the references held. Without an error the session stops early
   only where the list of refs would outgrow its width.
   */
  method DirSession(f: Files, id: nat, h: CachedDir, flushes: seq<seq<DirEdit>>, clock: nat -> nat)
      returns (done: nat, failed: Option<Store.Error>)
    requires f.Valid() && id < |f.V().inodes| && StoredDir(f.V().inodes[id], f.V(), h.pages) && h.Valid()
              && h.dirty == {}
    requires (forall n :: 0 <= n < |flushes| ==> FlushFew(flushes[n])) && forall n: nat :: clock(n) < U64
    modifies h, h.dir, f.vol`s, f.vol`trace, f.vol`ub, f.vol.dev, f.vol.bm, f.vol.bm.bits, f.vol.ddt, f.vol.scratch,
      f.vol.tbl
    ensures f.Sound() && done <= |flushes| && OthersSame(old(f.V()), f.V(), id) && (failed.Some? ==> done < |flushes|)
    ensures failed.None? ==> f.Valid() && h.Valid()
    ensures failed.None? ==> id < |f.V().inodes| && StoredDir(f.V().inodes[id], f.V(), h.pages)
    ensures failed.None? ==>
              h.View().names == NamesAfter(old(h.View().names), Joined(flushes[..done]))
              && SameSurplus(old(f.V()), f.V())
    ensures failed.Some? ==> f.Excused(failed.value, |h.pages|)
    ensures failed.None? && done < |flushes| ==> 4 + (|h.pages| + |flushes[done]|) * REF_SIZE >= U32
  {
    hide Files.Sound, LayoutOk, StoredDir, FlushFew, OthersSame, Content, GoodView, InTable, SameSurplus, Files.Excused;
    done, failed := 0, None;
    ghost var v0 := f.V();
    OthersKept(v0, id);
    FlushedSurplus(v0, v0, id, f.V().inodes[id], {});
    assert flushes[..0] == [];
    while done < |flushes|
      invariant done <= |flushes| && f.Valid() && OthersSame(v0, f.V(), id) && id < |f.V().inodes|
                && SameSurplus(v0, f.V())
      invariant StoredDir(f.V().inodes[id], f.V(), h.pages) && h.Valid() && h.dirty == {}
      invariant h.View().names == NamesAfter(old(h.View().names), Joined(flushes[..done]))
    {
      if 4 + (|h.pages| + |flushes[done]|) * REF_SIZE >= U32 {
        return;
      }
      ghost var v, names := f.V(), h.View().names;
      SameTable(f);
      SlotInTable(f.vol.codec, v, id) by { SoundGood(f); }
      var i := f.vol.tbl.slots.inodes[id];
      var r := EditDir(f, id, i, h, flushes[done], clock(done));
      OthersTwice(v0, v, f.V(), id);
      if r.Err? {
        return done, Some(r.error);
      }
      SurplusTwice(v0, v, f.V());
      StoredSlot(f.vol.codec, f.V(), id, r.value, h.pages) by { SoundGood(f); }
      assert flushes[..done + 1][..done] == flushes[..done];
      NamesTwice(old(h.View().names), Joined(flushes[..done]), flushes[done]);
      done := done + 1;
    }
  }
}
