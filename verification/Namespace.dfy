/** The namespace operations over stored directory pages, with the resident directory cache. */
module Namespaces {
  import opened Bytes
  import opened Directories
  import opened Inodes
  import opened DirPages
  import opened Trees
  import Records

  const CACHE_CAP: nat := 256

  type Layouts = map<nat, Layout>

  /** A directory checked out for changing: its inode as read from the table, and its layout. */
  datatype Work = Work(node: Node, layout: Layout)

  /** A resident directory and the time of its last use. */
  datatype Cached = Cached(layout: Layout, tick: nat)

  function Clean(l: Layout): Layout { l.(dirty := {}) }

  const EMPTY: Layout := Layout(map[], [], [], map[], {})

  ghost function NamesIn(ls: Layouts): map<nat, Names> { map d | d in ls :: ls[d].names }

  ghost predicate LayoutsOk(ls: Layouts) { forall d :: d in ls ==> LayoutOk(ls[d]) && ls[d].dirty == {} }

  /** Every directory's stored bytes are its pages. */
  ghost predicate StoreOk(content: seq<Bytes>, ls: Layouts) {
    LayoutsOk(ls) && forall d :: d in ls ==> d < |content| && Holds(content[d], ls[d].pages)
  }

  /** The cache is small, holds only directories, and mirrors them. */
  ghost predicate CacheOk(cache: map<nat, Cached>, ls: Layouts, caching: bool) {
    && |cache| <= CACHE_CAP && (caching || cache == map[])
    && forall d :: d in cache ==> d in ls && cache[d].layout == ls[d]
  }

  /** At most one entry is gone, an oldest one, and none unless the cache was full of others. */
  ghost predicate EvictsOldest(was: map<nat, Cached>, now: map<nat, Cached>, id: nat) {
    && (|was| < CACHE_CAP || id in was ==> was.Keys <= now.Keys) && |was.Keys - now.Keys| <= 1
    && forall d, e :: d in was && d !in now && e in was ==> was[d].tick <= was[e].tick
  }

  /** The cache after a directory is put back: at most that entry is new. */
  ghost predicate CacheFrom(now: map<nat, Cached>, was: map<nat, Cached>, id: nat, l: Layout, caching: bool) {
    && |now| <= CACHE_CAP && (!caching ==> now == was)
    && forall d :: d in now ==> if d == id then now[d].layout == l else d in was && now[d].layout == was[d].layout
  }

  /** Only the contents of some slots differ. */
  ghost predicate SameBut(content: seq<Bytes>, content': seq<Bytes>, but: set<nat>) {
    |content'| == |content| && forall x :: 0 <= x < |content| && x !in but ==> content'[x] == content[x]
  }

  ghost predicate OpenFilesOk(open: map<nat, nat>, cap: nat) { forall x :: x in open ==> open[x] > 0 && x < cap }

  lemma KeptBy(open: map<nat, nat>, open': map<nat, nat>, content: seq<Bytes>, content': seq<Bytes>, but: set<nat>)
    requires SameBut(content, content', but) && forall x :: x in but ==> x !in open || x !in open'
    ensures OpenKept(open, content, open', content')
  {}

  lemma SameTwice(a: seq<Bytes>, b: seq<Bytes>, c: seq<Bytes>, x: nat, y: nat)
    requires SameBut(a, b, {x}) && SameBut(b, c, {y})
    ensures SameBut(a, c, {x, y})
  {}

  lemma KeptTwice(open: map<nat, nat>, a: seq<Bytes>, b: seq<Bytes>, c: seq<Bytes>)
    requires OpenKept(open, a, open, b) && OpenKept(open, b, open, c)
    ensures OpenKept(open, a, open, c)
  {}

  lemma KeptLess(open: map<nat, nat>, content: seq<Bytes>)
    ensures forall open': map<nat, nat> :: OpenKept(open, content, open', content)
  {}

  lemma KeptAll(open: map<nat, nat>, content: seq<Bytes>)
    ensures OpenKept(open, content, open, content)
  {}

  /** The data behind a handle that stays open is not touched, with or without a name. */
  ghost predicate OpenKept(open: map<nat, nat>, content: seq<Bytes>, open': map<nat, nat>, content': seq<Bytes>) {
    |content'| == |content| && forall x :: x in open && x in open' && x < |content| ==> content'[x] == content[x]
  }

  // ----- what an operation does to the layouts -----

  ghost function PutEntry(ls: Layouts, d: nat, n: Name, id: nat): (r: Layouts)
    requires LayoutsOk(ls) && d in ls && EntryFits(Entry(n, id))
    ensures LayoutsOk(r) && r.Keys == ls.Keys
  {
    hide LayoutOk;
    AddKeeps(ls[d], n, id);
    CleanOk(AddTo(ls[d], n, id).0);
    ls[d := Clean(AddTo(ls[d], n, id).0)]
  }

  ghost function DropEntry(ls: Layouts, d: nat, n: Name): (r: Layouts)
    requires LayoutsOk(ls) && d in ls
    ensures LayoutsOk(r) && r.Keys == ls.Keys
  {
    DelKeeps(ls[d], n);
    CleanOk(DelFrom(ls[d], n).0);
    ls[d := Clean(DelFrom(ls[d], n).0)]
  }

  lemma CleanOk(l: Layout)
    requires LayoutOk(l)
    ensures LayoutOk(Clean(l))
  {
    hide PageBytes, PageFits, Distinct, Mentions;
    forall p, i | 0 <= p < |l.pages| && 0 <= i < |l.pages[p]| ensures PlacedAt(Clean(l), l.pages[p][i], p) {
      assert PlacedAt(l, l.pages[p][i], p);
    }
  }

  ghost predicate Matches(t: Tree, ls: Layouts) {
    && Forest(t) && LayoutsOk(ls) && t.names == NamesIn(ls) && |t.slots| <= U64
  }

  predicate NamesFit(op: Op) {
    match op
    case CreateOp(_, n, _) => |n| <= MAX_NAME
    case LinkOp(_, n, _) => |n| <= MAX_NAME
    case RenameOp(_, _, _, n) => |n| <= MAX_NAME
    case _ => true
  }

  /** The directories after an operation, page by page. */
  ghost function LayoutsAfter(t: Tree, ls: Layouts, op: Op): Layouts
    requires Matches(t, ls) && NamesFit(op)
  {
    hide Structure, CountsOk, LayoutOk, Reaches;
    if Apply(t, op).1.Failed? then ls
    else
      match op
      case CreateOp(p, n, kind) =>
        var id := FreshId(t);
        MadeInRange(t, op);
        PutEntry(if kind == TYPE_DIR then WithEmpty(ls, id) else ls, p, n, id)
      case UnlinkOp(p, n) => DropEntry(ls, p, n)
      case RmdirOp(p, n) => DropEntry(ls, p, n) - {t.names[p][n]}
      case LinkOp(p, n, x) => PutEntry(ls, p, n, x)
      case RenameOp(sp, sn, dp, dn) => RenameLayouts(t, ls, sp, sn, dp, dn)
      case OpenOp(_) => ls
      case CloseOp(id) => if id in Close(t, id).0.names then ls else ls - {id}
  }

  /** The operation's whole effect: on the tree, on the pages of every directory, and its reply. */
  ghost predicate Does(t: Tree, ls: Layouts, op: Op, t': Tree, ls': Layouts, r: Reply) {
    Matches(t, ls) && NamesFit(op) && (t', r) == Apply(t, op) && ls' == LayoutsAfter(t, ls, op)
  }

  lemma Fails(t: Tree, ls: Layouts, op: Op, e: Trees.Error)
    requires Matches(t, ls) && NamesFit(op) && Apply(t, op) == (t, Failed(e))
    ensures Does(t, ls, op, t, ls, Failed(e))
  {
    hide Matches, Apply;
  }

  ghost function WithEmpty(ls: Layouts, id: nat): (r: Layouts)
    requires LayoutsOk(ls)
    ensures LayoutsOk(r) && r.Keys == ls.Keys + {id}
  {
    EmptyOk();
    ls[id := EMPTY]
  }

  /** The replaced name goes first, then the new name is added, then the old one dropped. */
  ghost function RenameLayouts(t: Tree, ls: Layouts, sp: nat, sn: Name, dp: nat, dn: Name): Layouts
    requires Matches(t, ls) && |dn| <= MAX_NAME && Rename(t, sp, sn, dp, dn).1.Done?
  {
    hide Structure, CountsOk, LayoutOk, Reaches;
    var id := t.names[sp][sn];
    NamedFits(ls[sp], sn);
    if dn !in t.names[dp] then DropEntry(MidLayouts(ls, dp, dn, id), sp, sn)
    else if t.names[dp][dn] == id then ls
    else DropEntry(MidLayouts(ls, dp, dn, id), sp, sn) - Gone(t, t.names[dp][dn])
  }

  lemma MadeInRange(t: Tree, op: Op)
    requires Forest(t) && Apply(t, op).1.Made?
    ensures op.CreateOp? && FreshId(t) < |t.slots| && FreshId(t) !in t.names && FreshId(t) != op.parent
              && op.parent in t.names
    ensures op.name !in t.names[op.parent]
  {
    hide Acyclic, CountsOk, Reaches, Links;
    match op
    case CreateOp(_, _, _) => FreshIsNew(t);
    case _ =>
  }

  lemma EmptyOk()
    ensures LayoutOk(EMPTY) && Holds([], EMPTY.pages)
  {}

  lemma NamesAfterPut(ls: Layouts, d: nat, n: Name, id: nat)
    requires LayoutsOk(ls) && d in ls && EntryFits(Entry(n, id)) && n !in ls[d].names
    ensures NamesIn(PutEntry(ls, d, n, id)) == PutName(NamesIn(ls), d, n, id)
  {
    hide LayoutOk, AddTo;
    AddKeeps(ls[d], n, id);
  }

  lemma NamesAfterDrop(ls: Layouts, d: nat, n: Name)
    requires LayoutsOk(ls) && d in ls
    ensures NamesIn(DropEntry(ls, d, n)) == DropName(NamesIn(ls), d, n)
  {
    hide LayoutOk, DelFrom;
    DelKeeps(ls[d], n);
  }

  lemma StoreUpdate(content: seq<Bytes>, ls: Layouts, content': seq<Bytes>, d: nat, l: Layout)
    requires StoreOk(content, ls) && |content'| == |content| && d < |content|
    requires forall x :: 0 <= x < |content| && x != d ==> content'[x] == content[x]
    requires LayoutOk(l) && l.dirty == {} && Holds(content'[d], l.pages)
    ensures StoreOk(content', ls[d := l])
  {
    hide LayoutOk, Holds;
  }

  lemma CacheAt(cache: map<nat, Cached>, ls: Layouts, caching: bool, id: nat)
    requires CacheOk(cache, ls, caching)
    ensures |cache| <= CACHE_CAP && (id in cache ==> id in ls && cache[id].layout == ls[id] && caching)
    ensures CacheOk(cache - {id}, ls, caching)
  {
    Smaller((cache - {id}).Keys, cache.Keys);
  }

  lemma Uncached(cache: map<nat, Cached>, id: nat)
    ensures id !in cache ==> cache - {id} == cache
  {}

  /** Reading a directory through the cache leaves it a mirror. */
  lemma CacheKept(was: map<nat, Cached>, now: map<nat, Cached>, ls: Layouts, id: nat)
    requires CacheOk(was, ls, true) && |now| <= CACHE_CAP && id in now && id in ls && now[id].layout == ls[id]
    requires forall d :: d in now && d != id ==> d in was && now[d].layout == was[d].layout
    ensures CacheOk(now, ls, true)
  {}

  lemma CacheUpdate(now: map<nat, Cached>, was: map<nat, Cached>, ls: Layouts, d: nat, l: Layout, caching: bool)
    requires CacheOk(was, ls, caching) && CacheFrom(now, was, d, l, caching) && d !in was
    ensures CacheOk(now, ls[d := l], caching)
  {}

  class Namespace {
    var slots: seq<Node>
    /** What each slot's data reads as. */
    var content: seq<Bytes>
    var next: nat
    var free: seq<nat>
    var open: map<nat, nat>
    var caching: bool
    var cache: map<nat, Cached>
    var tick: nat

    /** The layout each directory was stored from. */
    ghost var layouts: Layouts

    ghost function View(): Tree
      reads this
    {
      Tree(slots, NamesIn(layouts), next, free, open)
    }

    ghost predicate Valid()
      reads this
    {
      Forest(View()) && Stored()
    }

    /** The store and the cache agree with the layouts. */
    ghost predicate Stored()
      reads this
    {
      |content| == |slots| <= U64 && StoreOk(content, layouts) && CacheOk(cache, layouts, caching)
    }

    constructor (capacity: nat, caching: bool)
      requires 0 < capacity <= U64
      ensures Valid() && Inv(View()) && View() == Formatted(capacity) && layouts == map[ROOT := EMPTY]
                && this.caching == caching
    {
      FormattedKeeps(capacity);
      Loosen(Formatted(capacity), true);
      EmptyOk();
      slots, next, free, open := Formatted(capacity).slots, 1, [], map[];
      content := seq(capacity, _ => []);
      this.caching, cache, tick := caching, map[], 0;
      layouts := map[ROOT := EMPTY];
      new;
      assert NamesIn(layouts) == map[ROOT := map[]];
    }

    /** Mount a stored namespace: the free list is rebuilt from the table, handles and cache start empty. */
    constructor Mount(slots: seq<Node>, content: seq<Bytes>, next: nat, count: nat, ghost t: Tree, ghost ls: Layouts)
      requires t.slots == slots && t.next == next <= |slots| && t.names == NamesIn(ls) && count <= |slots|
      requires |content| == |slots| <= U64 && StoreOk(content, ls)
      ensures Stored() && View() == Remounted(t, count) && layouts == ls && caching
      ensures Forest(t) ==> (Valid() <==> ScanFinds(t, count))
      ensures Inv(t) ==> (Inv(View()) <==> ScanFinds(t, count))
    {
      hide Structure, CountsOk, StoreOk, NamesIn;
      if Forest(t) { RemountKeeps(t, count, false); }
      if Inv(t) { RemountKeeps(t, count, true); }
      var list := RebuildFree(slots, count);
      this.slots, this.content, this.next, free, open := slots, content, next, list, map[];
      caching, cache, tick := true, map[], 0;
      layouts := ls;
    }

    // ----- the cache -----

    /** The resident directory used longest ago. */
    method Oldest() returns (k: nat)
      requires cache != map[]
      ensures k in cache && forall d :: d in cache ==> cache[k].tick <= cache[d].tick
    {
      var todo := cache.Keys;
      k :| k in todo;
      while todo != {}
        invariant todo <= cache.Keys && k in cache
        invariant forall d :: d in cache && d !in todo ==> cache[k].tick <= cache[d].tick
        decreases todo
      {
        var d :| d in todo;
        if cache[d].tick < cache[k].tick {
          k := d;
        }
        todo := todo - {d};
      }
    }

    /** Make a directory resident, evicting the oldest one from a full cache. */
    method CacheInsert(id: nat, l: Layout)
      requires |cache| <= CACHE_CAP
      modifies this`cache, this`tick
      ensures |cache| <= CACHE_CAP && id in cache && cache[id].layout == l
      ensures tick == old(tick) + 1 && cache[id].tick == tick
      ensures forall d :: d in cache && d != id ==> d in old(cache) && cache[d] == old(cache)[d]
      ensures EvictsOldest(old(cache), cache, id)
    {
      MakeRoom(id);
      tick := tick + 1;
      ghost var was := cache;
      cache := cache[id := Cached(l, tick)];
      assert cache.Keys == was.Keys + {id};
      Smaller(old(cache).Keys - cache.Keys, old(cache).Keys - was.Keys);
    }

    /** Evict the oldest entry from a cache full of others. */
    method MakeRoom(id: nat)
      requires |cache| <= CACHE_CAP
      modifies this`cache
      ensures if id in cache then |cache| <= CACHE_CAP else |cache| < CACHE_CAP
      ensures forall d :: d in cache ==> d in old(cache) && cache[d] == old(cache)[d]
      ensures EvictsOldest(old(cache), cache, id)
    {
      if |cache| >= CACHE_CAP && id !in cache {
        var victim := Oldest();
        ghost var was := cache;
        cache := cache - {victim};
        assert cache.Keys == was.Keys - {victim};
        assert was.Keys - cache.Keys == {victim};
      }
    }

    method Touch(id: nat)
      modifies this`cache, this`tick
      ensures cache.Keys == old(cache).Keys && |cache| == |old(cache)| && forall d :: d in cache ==>
                cache[d].layout == old(cache)[d].layout
      ensures tick == old(tick) + 1 && forall d :: d in cache ==>
                cache[d].tick == if d == id then tick else old(cache)[d].tick
    {
      tick := tick + 1;
      if id in cache {
        cache := cache[id := cache[id].(tick := tick)];
      }
    }

    method Evict(id: nat)
      modifies this`cache
      ensures cache == old(cache) - {id}
    {
      cache := cache - {id};
    }

    // ----- directories -----

    /** Load a directory from its stored pages. */
    method LoadDir(id: nat) returns (r: Result<Layout, Trees.Error>)
      requires Valid()
      ensures r == Loaded(View(), layouts, id)
    {
      hide LayoutOk, Holds, DecodePages, Built, CacheOk;
      KnownDir(View(), id);
      if id >= |slots| {
        return Err(NoSuchInode);
      }
      if slots[id].kind != TYPE_DIR {
        return Err(NotDir);
      }
      var l := LoadLayout(content[id]);
      Reloads(content[id], layouts[id]);
      return Ok(l.value);
    }

    /** Take a directory out of the cache to change it, or load it. */
    method CheckoutDir(id: nat) returns (r: Result<Work, Trees.Error>)
      requires Valid()
      modifies this`cache
      ensures Valid() && id !in cache
      ensures r == if DirError(View(), id).Some? then Err(DirError(View(), id).value)
                else Ok(Work(slots[id], layouts[id]))
      ensures cache == old(cache) - {id}
    {
      hide Structure, CountsOk, StoreOk, CacheOk, NamesIn;
      KnownDir(View(), id);
      NamesAt(layouts, id);
      if caching && id in cache {
        CacheAt(cache, layouts, caching, id);
        var l := cache[id].layout;
        cache := cache - {id};
        return Ok(Work(slots[id], l));
      }
      CacheAt(cache, layouts, caching, id);
      Uncached(cache, id);
      var l := LoadDir(id);
      if l.Err? {
        return Err(l.error);
      }
      return Ok(Work(slots[id], l.value));
    }

    /** Write the changed pages, each at its own offset, in any order; each write also stores the inode. */
    method FlushDir(id: nat, w: Work, ghost was: Pages)
      requires id < |slots| == |content| && LayoutOk(w.layout) && Holds(content[id], was)
                && Touches(was, w.layout.pages, w.layout.dirty)
      modifies this`slots, this`content
      ensures |content| == |slots| == |old(slots)| && Holds(content[id], w.layout.pages)
      ensures forall x :: 0 <= x < |content| && x != id ==> content[x] == old(content)[x]
      ensures slots == if w.layout.dirty == {} then old(slots) else old(slots)[id := w.node]
    {
      hide LayoutOk, Holds, Flushing, Touches, EncodePage, Records.Splice;
      var todo := w.layout.dirty;
      assert PagesFit(w.layout.pages) by { LayoutFits(w.layout); }
      FlushStart(content[id], was, w.layout.pages, w.layout.dirty);
      while todo != {}
        invariant |content| == |slots| == |old(slots)| && todo <= w.layout.dirty
                  && Flushing(content[id], w.layout.pages, todo)
        invariant forall x :: 0 <= x < |content| && x != id ==> content[x] == old(content)[x]
        invariant slots == if todo == w.layout.dirty then old(slots) else old(slots)[id := w.node]
        decreases todo
      {
        var p :| p in todo;
        FlushNext(content[id], w.layout.pages, todo, p);
        FlushPage(content[id], w.layout.pages, todo, p);
        var page := EncodeDirPage(w.layout.pages[p]);
        content := content[id := Records.Splice(content[id], PAGE * p, page[..])];
        slots := slots[id := w.node];
        todo := todo - {p};
      }
      FlushEnd(content[id], w.layout.pages);
    }

    /** Store a changed directory and make it resident again. */
    method CommitDir(id: nat, w: Work)
      requires Stored() && id in layouts && id !in cache && Changed(layouts[id], w.layout)
      modifies this`slots, this`content, this`cache, this`tick, this`layouts
      ensures Stored() && slots == old(slots)[id := w.node] && layouts == old(layouts)[id := Clean(w.layout)]
      ensures forall d :: d in cache ==> d == id || d in old(cache)
      ensures SameBut(old(content), content, {id}) && (caching ==> id in cache)
    {
      hide LayoutOk, Holds, Touches, StoreOk, CacheOk, EvictsOldest;
      DirectoryOk(content, layouts, id);
      CacheFits(cache, layouts, caching);
      FlushDir(id, w, layouts[id].pages);
      if caching {
        CacheInsert(id, Clean(w.layout));
      }
      FinishEntry(old(content), content, layouts, id, w.layout, old(cache), cache, caching);
      layouts := layouts[id := Clean(w.layout)];
    }

    /** A directory's entries, read from its pages. */
    method ReadDirPages(id: nat) returns (r: Result<seq<Entry>, Trees.Error>)
      requires Valid()
      ensures r == if DirError(View(), id).Some? then Err(DirError(View(), id).value)
                else Ok(Listing(layouts[id].pages))
    {
      hide LayoutOk, Holds, DecodePages, Listing, CacheOk;
      KnownDir(View(), id);
      if id >= |slots| {
        return Err(NoSuchInode);
      }
      if slots[id].kind != TYPE_DIR {
        return Err(NotDir);
      }
      var es := ReadPages(content[id]);
      ListsStored(content[id], layouts[id]);
      return Ok(es.value);
    }

    /** The resident layout of a directory, loaded on a miss; None with the cache off. */
    method CachePeek(id: nat) returns (r: Option<Result<Layout, Trees.Error>>)
      requires Valid()
      modifies this`cache, this`tick
      ensures Valid() && r.Some? == caching
      ensures r.Some? ==> r.value == Loaded(View(), layouts, id)
      ensures r.Some? && r.value.Ok? ==> id in cache && cache[id].tick == tick == old(tick) + 1
      ensures r.None? || r.value.Err? ==> cache == old(cache)
    {
      hide Structure, CountsOk, StoreOk, CacheOk, NamesIn, DirError, Loaded;
      if !caching {
        return None;
      }
      LoadedDir(View(), layouts, id);
      CacheAt(cache, layouts, caching, id);
      if id !in cache {
        var l := LoadDir(id);
        if l.Err? {
          return Some(Err(l.error));
        }
        CacheFill(id, l.value);
      } else {
        CacheHit(id);
      }
      return Some(Ok(cache[id].layout));
    }

    method CacheFill(id: nat, l: Layout)
      requires CacheOk(cache, layouts, true) && id in layouts && l == layouts[id]
      modifies this`cache, this`tick
      ensures CacheOk(cache, layouts, true) && id in cache && cache[id].layout == layouts[id]
      ensures cache[id].tick == tick == old(tick) + 1
    {
      hide CacheOk, EvictsOldest;
      CacheAt(cache, layouts, true, id);
      CacheInsert(id, l);
      CacheKept(old(cache), cache, layouts, id);
    }

    method CacheHit(id: nat)
      requires CacheOk(cache, layouts, true) && id in cache
      modifies this`cache, this`tick
      ensures CacheOk(cache, layouts, true) && id in cache && id in layouts && cache[id].layout == layouts[id]
      ensures cache[id].tick == tick == old(tick) + 1
    {
      hide CacheOk;
      CacheAt(cache, layouts, true, id);
      Touch(id);
      CacheKept(old(cache), cache, layouts, id);
    }

    // ----- changing -----

    /** Reserve an inode id: the one freed last, or the next one never used. */
    method AllocInode() returns (r: Result<nat, Trees.Error>)
      requires next <= |slots|
      modifies this`next, this`free
      ensures r.Err? <==> old(free == [] && next >= |slots|)
      ensures r.Err? ==> r.error == NoInodes && free == old(free) && next == old(next)
      ensures r.Ok? ==> r.value == old(if free != [] then free[|free| - 1] else next)
      ensures r.Ok? ==> free == (if old(free) == [] then [] else old(free)[..|old(free)| - 1])
      ensures r.Ok? ==> next == if old(free) == [] then old(next) + 1 else old(next)
    {
      if free != [] {
        var id := free[|free| - 1];
        free := free[..|free| - 1];
        return Ok(id);
      }
      if next >= |slots| {
        return Err(NoInodes);
      }
      next := next + 1;
      return Ok(next - 1);
    }

    /** Fill a reserved slot and give it its first name. */
    method LinkNew(parent: nat, w: Work, name: Name, kind: nat, id: nat)
      requires Stored() && LayoutsOk(layouts) && parent in layouts && parent !in cache
                && w == Work(slots[parent], layouts[parent])
      requires name !in w.layout.names && |name| <= MAX_NAME && id < |slots| && id !in layouts && id != parent
      modifies this`slots, this`content, this`cache, this`tick, this`layouts
      ensures Stored() && layouts == PutEntry(if kind == TYPE_DIR then WithEmpty(old(layouts), id)
                else old(layouts), parent, name, id)
      ensures slots == old(slots)[id := Node(kind, if kind == TYPE_DIR then 2 else 1, old(slots)[id].generation)]
                                 [parent := if kind == TYPE_DIR then w.node.(nlink := (w.node.nlink + 1) % U32)
                                   else w.node]
      ensures SameBut(old(content), content, {parent, id})
    {
      hide StoreOk, LayoutOk, CacheOk, AddTo, PutEntry, Changed, WithEmpty, LayoutsOk;
      ghost var ls := layouts;
      slots := slots[id := Node(kind, if kind == TYPE_DIR then 2 else 1, slots[id].generation)];
      content := content[id := []];
      if kind == TYPE_DIR {
        layouts := WithEmpty(ls, id);
      }
      NewSlot(old(content), ls, layouts, id);
      NewSlotCache(cache, ls, layouts, caching, id);
      AddReady(old(content), ls, parent, name, id);
      CreateNames(ls, layouts, parent, name, kind, id);
      CommitDir(parent, Work(if kind == TYPE_DIR then w.node.(nlink := (w.node.nlink + 1) % U32)
        else w.node, AddTo(w.layout, name, id).0));
    }

    /** Create a file, symlink or directory. */
    method CreateNode(parent: nat, name: Name, kind: nat) returns (r: Reply)
      requires Valid() && |name| <= MAX_NAME
      modifies this
      ensures Valid() && caching == old(caching) && OpenKept(old(open), old(content), open, content)
      ensures Does(old(View()), old(layouts), CreateOp(parent, name, kind), View(), layouts, r)
    {
      hide Structure, CountsOk, StoreOk, LayoutOk, CacheOk, PutEntry, PutName, NamesIn, WithEmpty, Create, Matches,
        LayoutsOk, Does, LayoutsAfter, OpenKept, SameBut;
      ghost var t, ls, op := View(), layouts, CreateOp(parent, name, kind);
      OpenFiles(t, ls);
      KeptAll(open, content);
      CreateKeeps(t, parent, name, kind, false);
      CreateIs(t, parent, name, kind);
      ViewMatches(t, content, ls);
      KnownDir(t, parent);
      var h := CheckoutDir(parent);
      if h.Err? {
        Fails(t, ls, op, h.error);
        return Failed(h.error);
      }
      var w := h.value;
      NamesAt(ls, parent);
      if name in w.layout.names {
        Fails(t, ls, op, Exists);
        return Failed(Exists);
      }
      TableFits(t);
      var got := AllocInode();
      if got.Err? {
        Fails(t, ls, op, NoInodes);
        return Failed(got.error);
      }
      var id := got.value;
      NamesAt(ls, id);
      LinkNew(parent, w, name, kind, id);
      KeptBy(open, open, old(content), content, {parent, id});
      CreateDone(t, ls, parent, name, kind, View(), layouts);
      return Made(id);
    }

    /** Free an inode's data and make its id available again under a new generation. */
    method Recycle(id: nat)
      requires Stored() && id < |slots|
      modifies this`slots, this`content, this`cache, this`free, this`layouts
      ensures Stored() && layouts == old(layouts) - {id} && free == old(free) + [id]
      ensures slots == old(slots)[id := Node(0, 0, (old(slots)[id].generation + 1) % U32)]
      ensures forall d :: d in cache ==> d in old(cache)
      ensures SameBut(old(content), content, {id})
    {
      hide LayoutOk, Holds, StoreOk, CacheOk;
      Evict(id);
      content := content[id := []];
      slots := slots[id := Node(0, 0, (slots[id].generation + 1) % U32)];
      free := free + [id];
      SlotGone(old(content), layouts, old(cache), caching, id);
      layouts := layouts - {id};
    }

    /** One name of `id` is gone: lower its link count, or recycle it. */
    method Unname(id: nat)
      requires Stored() && id < |slots|
      modifies this`slots, this`content, this`cache, this`free, this`layouts
      ensures Stored() && View() == DropLink(old(View()), id)
      ensures layouts == old(layouts) - Gone(old(View()), id)
      ensures forall d :: d in cache ==> d in old(cache)
      ensures SameBut(old(content), content, if id in open && open[id] > 0 then {} else {id})
    {
      hide LayoutOk, StoreOk, CacheOk, NamesIn;
      var left := if slots[id].nlink > 0 then slots[id].nlink - 1 else 0;
      if left == 0 && (id !in open || open[id] == 0) {
        NamesWithout(layouts, {id});
        Recycle(id);
        return;
      }
      slots := slots[id := slots[id].(nlink := left)];
      assert layouts - {} == layouts;
    }

    /** Remove a name that is not a directory's. */
    method Unlink(parent: nat, name: Name) returns (r: Reply)
      requires Valid()
      modifies this
      ensures Valid() && caching == old(caching) && OpenKept(old(open), old(content), open, content)
      ensures Does(old(View()), old(layouts), UnlinkOp(parent, name), View(), layouts, r)
    {
      hide Structure, CountsOk, StoreOk, LayoutOk, CacheOk, DropEntry, DropName, DropLink, NamesIn, Matches, LayoutsOk,
        DelFrom, Changed, OpenKept, SameBut;
      ghost var t, ls, op := View(), layouts, UnlinkOp(parent, name);
      OpenFiles(t, ls);
      KeptAll(open, content);
      UnlinkKeeps(t, parent, name, false);
      ViewMatches(t, content, ls);
      KnownDir(t, parent);
      var h := CheckoutDir(parent);
      if h.Err? {
        Fails(t, ls, op, h.error);
        return Failed(h.error);
      }
      var w := h.value;
      NamesAt(ls, parent);
      if name !in w.layout.names {
        Fails(t, ls, op, NotFound);
        return Failed(NotFound);
      }
      var id := w.layout.names[name];
      TargetInRange(t, parent, name);
      if slots[id].kind == TYPE_DIR {
        Fails(t, ls, op, IsDir);
        return Failed(IsDir);
      }
      DelReady(content, ls, parent, name);
      CommitDir(parent, Work(w.node, DelFrom(w.layout, name).0));
      DropNames(ls, parent, name);
      NotListed(ls, t, id, layouts);
      assert slots == t.slots;
      KeptBy(open, open, old(content), content, {parent});
      ghost var mid := content;
      Unname(id);
      KeptBy(open, open, mid, content, if id in open && open[id] > 0 then {} else {id});
      KeptTwice(open, old(content), mid, content);
      return Done;
    }

    /** Take a directory's name out of its parent and recycle it. */
    method RemoveDir(parent: nat, w: Work, name: Name, id: nat)
      requires Stored() && LayoutsOk(layouts) && parent in layouts && parent !in cache
                && w == Work(slots[parent], layouts[parent])
      requires name in w.layout.names && id < |slots| && id != parent
      modifies this`slots, this`content, this`cache, this`tick, this`free, this`layouts
      ensures Stored() && layouts == DropEntry(old(layouts), parent, name) - {id} && free == old(free) + [id]
      ensures slots == old(slots)[parent := w.node.(nlink := if w.node.nlink > 0 then w.node.nlink - 1 else 0)]
                                 [id := Node(0, 0, (old(slots)[id].generation + 1) % U32)]
      ensures SameBut(old(content), content, {parent, id})
    {
      hide StoreOk, LayoutOk, CacheOk, DropEntry, LayoutsOk, DelFrom, Changed, SameBut, Holds, NamesIn, DropName;
      DirectoryOk(content, layouts, parent);
      DelReady(content, layouts, parent, name);
      DropNames(layouts, parent, name);
      CommitDir(parent, Work(w.node.(nlink := if w.node.nlink > 0 then w.node.nlink - 1 else 0),
        DelFrom(w.layout, name).0));
      ghost var mid := content;
      Recycle(id);
      SameTwice(old(content), mid, content, parent, id);
    }

    /** Remove an empty directory. */
    method Rmdir(parent: nat, name: Name) returns (r: Reply)
      requires Valid()
      modifies this
      ensures Valid() && caching == old(caching) && OpenKept(old(open), old(content), open, content)
      ensures Does(old(View()), old(layouts), RmdirOp(parent, name), View(), layouts, r)
    {
      hide Structure, CountsOk, StoreOk, LayoutOk, CacheOk, DropEntry, DropName, NamesIn, Matches, LayoutsOk, DelFrom,
        Changed, OpenKept, SameBut, Does, LayoutsAfter;
      ghost var t, ls, op := View(), layouts, RmdirOp(parent, name);
      OpenFiles(t, ls);
      KeptAll(open, content);
      ViewMatches(t, content, ls);
      KnownDir(t, parent);
      var h := CheckoutDir(parent);
      if h.Err? {
        Fails(t, ls, op, h.error);
        return Failed(h.error);
      }
      var w := h.value;
      NamesAt(ls, parent);
      if name !in w.layout.names {
        Fails(t, ls, op, NotFound);
        return Failed(NotFound);
      }
      var id := w.layout.names[name];
      TargetInRange(t, parent, name);
      KnownDir(t, id);
      NamesAt(ls, id);
      if slots[id].kind != TYPE_DIR {
        Fails(t, ls, op, NotDir);
        return Failed(NotDir);
      }
      var child := LoadDir(id);
      if child.value.names != map[] {
        Fails(t, ls, op, NotEmpty);
        return Failed(NotEmpty);
      }
      NotItself(t, parent, name);
      RemoveDir(parent, w, name, id);
      KeptBy(open, open, old(content), content, {parent, id});
      RmdirDone(t, ls, parent, name, View(), layouts);
      return Done;
    }

    /** Give an existing inode that is not a directory a second name. */
    method Link(parent: nat, name: Name, target: nat) returns (r: Reply)
      requires Valid() && |name| <= MAX_NAME
      modifies this
      ensures Stored() && caching == old(caching) && OpenKept(old(open), old(content), open, content)
      ensures Allowed(old(View()), LinkOp(parent, name, target), false) ==> Valid()
      ensures Does(old(View()), old(layouts), LinkOp(parent, name, target), View(), layouts, r)
    {
      hide Structure, CountsOk, StoreOk, LayoutOk, CacheOk, PutEntry, PutName, NamesIn, Matches, LayoutsOk, AddTo,
        Changed, OpenKept, SameBut;
      ghost var t, ls, op := View(), layouts, LinkOp(parent, name, target);
      OpenFiles(t, ls);
      KeptAll(open, content);
      LinkKeeps(t, parent, name, target, false);
      ViewMatches(t, content, ls);
      KnownDir(t, parent);
      if target >= |slots| {
        Fails(t, ls, op, NoSuchInode);
        return Failed(NoSuchInode);
      }
      if slots[target].kind == TYPE_DIR {
        Fails(t, ls, op, NotFile);
        return Failed(NotFile);
      }
      var h := CheckoutDir(parent);
      if h.Err? {
        Fails(t, ls, op, h.error);
        return Failed(h.error);
      }
      var w := h.value;
      NamesAt(ls, parent);
      if name in w.layout.names {
        Fails(t, ls, op, Exists);
        return Failed(Exists);
      }
      slots := slots[target := slots[target].(nlink := (slots[target].nlink + 1) % U32)];
      AddReady(content, ls, parent, name, target);
      PutNames(ls, parent, name, target);
      CommitDir(parent, Work(w.node, AddTo(w.layout, name, target).0));
      KeptBy(open, open, old(content), content, {parent});
      assert slots == t.slots[target := t.slots[target].(nlink := (t.slots[target].nlink + 1) % U32)];
      return Done;
    }

    /** Drop what the destination name stands for, unless it already names `id`. */
    method RenameOverwrite(l: Layout, name: Name, id: nat) returns (same: bool, l': Layout)
      requires Stored() && LayoutOk(l) && (name in l.names ==> l.names[name] < |slots|)
      modifies this`slots, this`content, this`cache, this`free, this`layouts
      ensures Stored() && same == (name in l.names && l.names[name] == id)
      ensures same || name !in l.names ==>
                View() == old(View()) && layouts == old(layouts) && cache == old(cache) && l' == l
      ensures !same && name in l.names ==> View() == DropLink(old(View()), l.names[name]) && l' == DelFrom(l, name).0
      ensures !same && name in l.names ==> layouts == old(layouts) - Gone(old(View()), l.names[name])
      ensures forall d :: d in cache ==> d in old(cache)
      ensures OpenFilesOk(open, |slots|) ==> OpenKept(open, old(content), open, content)
    {
      hide LayoutOk, StoreOk, CacheOk, NamesIn, DropLink, DelFrom;
      KeptAll(open, content);
      if name in l.names {
        if l.names[name] == id {
          return true, l;
        }
        var v := l.names[name];
        Unname(v);
        if OpenFilesOk(open, |slots|) {
          KeptBy(open, open, old(content), content, if v in open && open[v] > 0 then {} else {v});
        }
        return false, DelFrom(l, name).0;
      }
      return false, l;
    }

    /** The moves of a rename within one directory: both edits on one handle, one flush. */
    method MoveWithin(p: nat, w: Work, sn: Name, dn: Name, id: nat) returns (r: Reply)
      requires Valid() && MoveReady(View(), layouts, p, sn, p, dn, id) && p !in cache && w == Work(slots[p], layouts[p])
      modifies this
      ensures Valid() && caching == old(caching) && OpenKept(old(open), old(content), open, content)
      ensures Does(old(View()), old(layouts), RenameOp(p, sn, p, dn), View(), layouts, r)
    {
      hide Structure, CountsOk, StoreOk, LayoutOk, CacheOk, NamesIn, Matches, LayoutsOk, DelFrom, AddTo, Changed,
        DropLink, Does, MoveReady, Renewed, OpenKept, SameBut;
      ghost var t, ls := View(), layouts;
      MoveFacts(t, ls, p, sn, p, dn, id);
      OpenFiles(t, ls);
      var same, l := RenameOverwrite(w.layout, dn, id);
      if same {
        MoveNothing(t, ls, p, sn, p, dn, id);
        return Done;
      }
      ReplaceReady(ls, p, dn, id);
      WithinReady(ls, p, sn, dn, id);
      l := AddTo(l, dn, id).0;
      l := DelFrom(l, sn).0;
      ghost var mid, mids := View(), layouts;
      MoveMiddle(t, ls, p, sn, p, dn, id, mids);
      MiddleSlots(t, ls, p, dn, mid, mids);
      ghost var was := content;
      CommitDir(p, Work(w.node, l));
      assert slots == mid.slots[p := t.slots[p]][p := t.slots[p]];
      KeptBy(open, open, was, content, {p});
      KeptTwice(open, old(content), was, content);
      MoveWithinDone(t, ls, p, sn, dn, id, mid, mids, View(), layouts);
      return Done;
    }

    /** The moves of a rename between two directories: the destination is stored first. */
    method MoveAcross(sp: nat, sw: Work, sn: Name, dp: nat, dw: Work, dn: Name, id: nat) returns (r: Reply)
      requires Valid() && MoveReady(View(), layouts, sp, sn, dp, dn, id) && sp != dp && sp !in cache && dp !in cache
      requires sw == Work(slots[sp], layouts[sp]) && dw == Work(slots[dp], layouts[dp])
      modifies this
      ensures Valid() && caching == old(caching) && OpenKept(old(open), old(content), open, content)
      ensures Does(old(View()), old(layouts), RenameOp(sp, sn, dp, dn), View(), layouts, r)
    {
      hide Structure, CountsOk, StoreOk, LayoutOk, CacheOk, NamesIn, Matches, LayoutsOk, DelFrom, AddTo, Changed,
        DropLink, Does, MoveReady, Renewed, OpenKept, SameBut;
      ghost var t, ls := View(), layouts;
      MoveFacts(t, ls, sp, sn, dp, dn, id);
      OpenFiles(t, ls);
      var same, l := RenameOverwrite(dw.layout, dn, id);
      if same {
        MoveNothing(t, ls, sp, sn, dp, dn, id);
        return Done;
      }
      ReplaceReady(ls, dp, dn, id);
      DelReady(old(content), ls, sp, sn);
      l := AddTo(l, dn, id).0;
      ghost var mid, mids := View(), layouts;
      MoveMiddle(t, ls, sp, sn, dp, dn, id, mids);
      MiddleSlots(t, ls, dp, dn, mid, mids);
      ghost var was := content;
      CommitDir(dp, Work(dw.node, l));
      ghost var half := content;
      CommitDir(sp, Work(sw.node, DelFrom(sw.layout, sn).0));
      SameTwice(was, half, content, dp, sp);
      KeptBy(open, open, was, content, {dp, sp});
      KeptTwice(open, old(content), was, content);
      MoveAcrossDone(t, ls, sp, sn, dp, dn, id, mid, mids, View(), layouts);
      return Done;
    }

    /** Move a name, replacing what the destination names; a directory never goes below itself. */
    method Rename(sp: nat, sn: Name, dp: nat, dn: Name) returns (r: Reply)
      requires Valid() && |dn| <= MAX_NAME && Allowed(View(), RenameOp(sp, sn, dp, dn), false)
      modifies this
      ensures Valid() && caching == old(caching) && OpenKept(old(open), old(content), open, content)
      ensures Does(old(View()), old(layouts), RenameOp(sp, sn, dp, dn), View(), layouts, r)
    {
      hide Structure, CountsOk, StoreOk, LayoutOk, CacheOk, NamesIn, Matches, LayoutsOk, Reaches, Does;
      ghost var t, ls, op := View(), layouts, RenameOp(sp, sn, dp, dn);
      ViewMatches(t, content, ls);
      KeptAll(open, content);
      KnownDir(t, sp);
      KnownDir(t, dp);
      var sh := CheckoutDir(sp);
      if sh.Err? {
        Fails(t, ls, op, sh.error);
        return Failed(sh.error);
      }
      NamesAt(ls, sp);
      NamesAt(ls, dp);
      if sn !in sh.value.layout.names {
        Fails(t, ls, op, NotFound);
        return Failed(NotFound);
      }
      var id := sh.value.layout.names[sn];
      TargetInRange(t, sp, sn);
      KnownDir(t, id);
      NamesAt(ls, id);
      if dp == id {
        Fails(t, ls, op, Invalid);
        return Failed(Invalid);
      }
      if sp != dp && slots[id].kind == TYPE_DIR {
        var inside := DirSubtreeContains(id, dp);
        if inside {
          Fails(t, ls, op, Invalid);
          return Failed(Invalid);
        }
      }
      if sp == dp {
        r := MoveWithin(sp, sh.value, sn, dn, id);
        return;
      }
      var dh := CheckoutDir(dp);
      if dh.Err? {
        Fails(t, ls, op, dh.error);
        return Failed(dh.error);
      }
      r := MoveAcross(sp, sh.value, sn, dp, dh.value, dn, id);
    }

    /** Record an open handle. */
    method Open(id: nat) returns (r: Reply)
      requires Valid()
      modifies this`open
      ensures Stored() && (Allowed(old(View()), OpenOp(id), false) ==> Valid())
      ensures Does(old(View()), old(layouts), OpenOp(id), View(), layouts, r)
    {
      hide Structure, CountsOk, StoreOk, CacheOk, NamesIn, Matches;
      ghost var t := View();
      OpenKeeps(t, id, false);
      ViewMatches(t, content, layouts);
      if id >= |slots| {
        Fails(t, layouts, OpenOp(id), NoSuchInode);
        return Failed(NoSuchInode);
      }
      if slots[id].kind != TYPE_REGULAR {
        Fails(t, layouts, OpenOp(id), NotFile);
        return Failed(NotFile);
      }
      open := open[id := (if id in open then open[id] else 0) + 1];
      return Done;
    }

    /** Drop one open handle; the last one on an inode without names recycles it. */
    method Close(id: nat) returns (r: Reply)
      requires Valid()
      modifies this
      ensures Stored() && caching == old(caching) && OpenKept(old(open), old(content), open, content)
      ensures Allowed(old(View()), CloseOp(id), false) ==> Valid()
      ensures Does(old(View()), old(layouts), CloseOp(id), View(), layouts, r)
    {
      hide Structure, CountsOk, StoreOk, CacheOk, NamesIn, Matches, LayoutOk, OpenKept, SameBut;
      ghost var t, ls := View(), layouts;
      ViewMatches(t, content, ls);
      if id in t.open {
        CloseOpen(t, id, false);
      }
      KeptLess(open, content);
      var left := if id in open && open[id] > 0 then open[id] - 1 else 0;
      NotNamed(t.names, ls, id);
      if left > 0 {
        OpenNotDir(t, id);
        open := open[id := left];
        return Done;
      }
      open := open - {id};
      if id >= |slots| {
        return Failed(NoSuchInode);
      }
      NamesWithout(ls, {id});
      if slots[id].nlink == 0 {
        Recycle(id);
        KeptBy(old(open), open, old(content), content, {id});
      }
      return Done;
    }

    /** Turn the cache on, empty, or off. */
    method SetDirCache(on: bool)
      requires Valid()
      modifies this`caching, this`cache, this`tick
      ensures Valid() && caching == on
    {
      hide Structure, CountsOk, StoreOk;
      caching, cache, tick := on, map[], 0;
    }

    // ----- reading -----

    /** Resolve a name: the answer is the directory's map, with the cache on or off. */
    method Lookup(parent: nat, name: Name) returns (r: Result<Option<nat>, Trees.Error>)
      requires Valid()
      modifies this`cache, this`tick
      ensures Valid()
      ensures r == if DirError(View(), parent).Some? then Err(DirError(View(), parent).value)
                else Ok(Get(View().names[parent], name))
    {
      hide Structure, CountsOk, StoreOk, LayoutOk, Listing, CacheOk;
      KnownDir(View(), parent);
      var hit := CachePeek(parent);
      if hit.Some? {
        return if hit.value.Err? then Err(hit.value.error) else Ok(Get(hit.value.value.names, name));
      }
      var es := ReadDirPages(parent);
      if es.Err? {
        return Err(es.error);
      }
      var i := 0;
      while i < |es.value|
        invariant 0 <= i <= |es.value| && forall j :: 0 <= j < i ==> es.value[j].name != name
      {
        if es.value[i].name == name {
          DirectoryOk(content, layouts, parent);
          ListingIs(layouts[parent], es.value[i]);
          return Ok(Some(es.value[i].inode));
        }
        i := i + 1;
      }
      DirectoryOk(content, layouts, parent);
      ghost var names := layouts[parent].names;
      if name in names {
        ListingIs(layouts[parent], Entry(name, names[name]));
      }
      return Ok(None);
    }

    /** Whether `target` is in the subtree of `root`. No visited set is kept: in a tree no directory is met twice. */
    method DirSubtreeContains(root: nat, target: nat) returns (r: bool)
      requires Valid() && root in layouts
      ensures r == Reaches(View().names, root, target)
    {
      hide Structure, CountsOk, StoreOk, LayoutOk, Listing, CacheOk, Walking, Reaches, Subdirs;
      ghost var names := View().names;
      var stack := [root];
      ghost var seen: set<nat> := {};
      WalkStart(names, root, target);
      while stack != []
        invariant Walking(names, root, target, stack, seen)
        decreases names.Keys - seen
      {
        var rest, d := stack[..|stack| - 1], stack[|stack| - 1];
        assert stack == rest + [d];
        WalkTop(names, root, target, rest, d, seen);
        if d == target {
          return true;
        }
        KnownDir(View(), d);
        var es := ReadDirPages(d);
        var kids := PickDirs(slots, es.value);
        DirectoryOk(content, layouts, d);
        Children(View(), d, layouts[d]);
        WalkNext(View(), root, target, rest, seen, d, kids);
        stack := rest + kids;
        seen := seen + {d};
      }
      WalkEnd(names, root, target, seen);
      return false;
    }

    /** The names of a directory in page order, with the cache on or off. */
    method Readdir(id: nat) returns (r: Result<seq<Name>, Trees.Error>)
      requires Valid()
      modifies this`cache, this`tick
      ensures Valid()
      ensures r == if DirError(View(), id).Some? then Err(DirError(View(), id).value)
                else Ok(NamesOnly(Listing(layouts[id].pages)))
      ensures r.Ok? ==> id in View().names && id in layouts && NamesListed(r.value, View().names[id], layouts[id].pages)
    {
      hide Structure, CountsOk, StoreOk, LayoutOk, Listing, CacheOk, NamesListed, NamesIn;
      KnownDir(View(), id);
      NamesAt(layouts, id);
      if id in layouts { ListedNames(layouts[id]) by { DirectoryOk(content, layouts, id); } }
      var hit := CachePeek(id);
      if hit.Some? {
        return if hit.value.Err? then Err(hit.value.error) else Ok(NamesOnly(Listing(hit.value.value.pages)));
      }
      var es := ReadDirPages(id);
      return if es.Err? then Err(es.error) else Ok(NamesOnly(es.value));
    }
  }

  /** The directories among some entries. */
  method PickDirs(slots: seq<Node>, es: seq<Entry>) returns (kids: seq<nat>)
    ensures kids == Subdirs(slots, es)
  {
    kids := [];
    var i := 0;
    while i < |es|
      invariant 0 <= i <= |es| && kids == Subdirs(slots, es[..i])
    {
      assert es[..i + 1][..i] == es[..i];
      if es[i].inode < |slots| && slots[es[i].inode].kind == TYPE_DIR {
        kids := kids + [es[i].inode];
      }
      i := i + 1;
    }
    assert es[..i] == es;
  }

  lemma ViewMatches(t: Tree, content: seq<Bytes>, ls: Layouts)
    requires Forest(t) && t.names == NamesIn(ls) && StoreOk(content, ls) && |t.slots| <= U64
    ensures Matches(t, ls) && LayoutsOk(ls)
  {
    hide Structure, CountsOk, LayoutOk, Holds;
  }

  lemma NamesAt(ls: Layouts, d: nat)
    ensures d in NamesIn(ls) <==> d in ls
    ensures d in ls ==> NamesIn(ls)[d] == ls[d].names
  {}

  /** What creating a node comes to, case by case. */
  lemma CreateIs(t: Tree, p: nat, n: Name, kind: nat)
    requires Forest(t)
    ensures var c := Create(t, p, n, kind);
            if DirError(t, p).Some? then c == (t, Failed(DirError(t, p).value))
            else if n in t.names[p] then c == (t, Failed(Exists))
            else if t.free == [] && t.next >= |t.slots| then c == (t, Failed(NoInodes))
            else
              var id := FreshId(t);
              && id < |t.slots| && id !in t.names && id != p
              && c.1 == Made(id) && c.0.open == t.open
              && c.0.slots == t.slots[id := Node(kind, if kind == TYPE_DIR then 2 else 1, t.slots[id].generation)]
                                    [p := if kind == TYPE_DIR then t.slots[p].(nlink := (t.slots[p].nlink + 1) % U32)
                                      else t.slots[p]]
              && c.0.names == PutName(if kind == TYPE_DIR then t.names[id := map[]] else t.names, p, n, id)
              && c.0.next == (if t.free == [] then t.next + 1 else t.next)
              && c.0.free == if t.free == [] then [] else t.free[..|t.free| - 1]
  {
    hide Acyclic, CountsOk, Links, PutName;
    if t.free != [] || t.next < |t.slots| { FreshIsNew(t); }
  }

  /** The filled slot and the new name are what creating comes to. */
  lemma CreateDone(t: Tree, ls: Layouts, p: nat, n: Name, kind: nat, t': Tree, ls': Layouts)
    requires Matches(t, ls) && LayoutsOk(ls) && |n| <= MAX_NAME && Create(t, p, n, kind).1.Made? && p in ls
    requires t'.names == NamesIn(ls') && t' == Create(t, p, n, kind).0.(names := t'.names)
              && EntryFits(Entry(n, FreshId(t)))
    requires ls' == PutEntry(if kind == TYPE_DIR then WithEmpty(ls, FreshId(t)) else ls, p, n, FreshId(t))
    ensures Does(t, ls, CreateOp(p, n, kind), t', ls', Create(t, p, n, kind).1) && t' == Create(t, p, n, kind).0
  {
    hide Structure, CountsOk, LayoutOk, PutEntry, PutName, NamesIn, WithEmpty, Create, LayoutsOk;
    CreateIs(t, p, n, kind);
    NamesAt(ls, p);
    NamesAt(ls, FreshId(t));
    CreateNames(ls, if kind == TYPE_DIR then WithEmpty(ls, FreshId(t)) else ls, p, n, kind, FreshId(t));
  }

  /** The emptied parent and the recycled slot are what removing a directory comes to. */
  lemma RmdirDone(t: Tree, ls: Layouts, p: nat, n: Name, t': Tree, ls': Layouts)
    requires Matches(t, ls) && LayoutsOk(ls) && p in ls && t.names == NamesIn(ls)
    requires DirError(t, p).None? && n in t.names[p] && DirError(t, t.names[p][n]).None?
              && t.names[t.names[p][n]] == map[]
    requires t'.names == NamesIn(ls') && ls' == DropEntry(ls, p, n) - {t.names[p][n]} && t.names[p][n] != p
    requires var id := t.names[p][n];
             && t'.slots == t.slots[p := t.slots[p].(nlink := if t.slots[p].nlink > 0 then t.slots[p].nlink - 1 else 0)]
                                   [id := Node(0, 0, (t.slots[id].generation + 1) % U32)]
             && t'.next == t.next && t'.open == t.open && t'.free == t.free + [id]
    ensures Does(t, ls, RmdirOp(p, n), t', ls', Done) && Forest(t')
  {
    hide Structure, CountsOk, LayoutOk, DropEntry, NamesIn, LayoutsOk, DropName;
    RmdirKeeps(t, p, n, false);
    DropNames(ls, p, n);
    NamesWithout(DropEntry(ls, p, n), {t.names[p][n]});
  }

  lemma TableFits(t: Tree)
    requires Forest(t)
    ensures t.next <= |t.slots|
  {}

  /** A layout changed from a stored one, its changed pages marked. */
  ghost predicate Changed(was: Layout, l: Layout) {
    LayoutOk(l) && Touches(was.pages, l.pages, l.dirty) && l.dirty != {}
  }

  lemma AddReady(content: seq<Bytes>, ls: Layouts, d: nat, n: Name, id: nat)
    requires StoreOk(content, ls) && d in ls && n !in ls[d].names && EntryFits(Entry(n, id))
    ensures |ls[d].used| == |ls[d].pages| && Changed(ls[d], AddTo(ls[d], n, id).0)
  {
    hide LayoutOk, Holds, FirstRoom;
    AddKeeps(ls[d], n, id);
    NothingTouched(ls[d]);
    AddTouches(ls[d].pages, ls[d], n, id);
  }

  lemma CacheFits(cache: map<nat, Cached>, ls: Layouts, caching: bool)
    requires CacheOk(cache, ls, caching)
    ensures |cache| <= CACHE_CAP
  {}

  /** A slot that is no directory yet starts out empty. */
  lemma NewSlot(content: seq<Bytes>, ls: Layouts, ls': Layouts, id: nat)
    requires StoreOk(content, ls) && id !in ls && id < |content| && (ls' == ls || ls' == WithEmpty(ls, id))
    ensures StoreOk(content[id := []], ls')
  {
    hide LayoutOk, Holds;
    EmptyOk();
    var content' := content[id := []];
    forall d | d in ls' ensures d < |content'| && Holds(content'[d], ls'[d].pages) && LayoutOk(ls'[d])
      && ls'[d].dirty == {} {
      if d != id { assert ls'[d] == ls[d]; }
    }
  }

  lemma NewSlotCache(cache: map<nat, Cached>, ls: Layouts, ls': Layouts, caching: bool, id: nat)
    requires LayoutsOk(ls) && CacheOk(cache, ls, caching) && id !in ls && (ls' == ls || ls' == WithEmpty(ls, id))
    ensures CacheOk(cache, ls', caching)
  {
    hide LayoutsOk;
  }

  lemma DelReady(content: seq<Bytes>, ls: Layouts, d: nat, n: Name)
    requires StoreOk(content, ls) && d in ls && n in ls[d].names
    ensures LayoutOk(ls[d]) && Changed(ls[d], DelFrom(ls[d], n).0)
  {
    hide Holds, IndexOf, PageFits, PageBytes, Removed;
    DelKeeps(ls[d], n);
    NothingTouched(ls[d]);
    DelTouches(ls[d].pages, ls[d], n);
  }

  lemma SlotGone(content: seq<Bytes>, ls: Layouts, cache: map<nat, Cached>, caching: bool, id: nat)
    requires StoreOk(content, ls) && CacheOk(cache, ls, caching) && id < |content|
    ensures StoreOk(content[id := []], ls - {id}) && CacheOk(cache - {id}, ls - {id}, caching)
  {
    hide StoreOk, CacheOk;
    StoreGone(content, ls, id);
    CacheGone(cache, ls, caching, id);
  }

  lemma StoreGone(content: seq<Bytes>, ls: Layouts, id: nat)
    requires StoreOk(content, ls) && id < |content|
    ensures StoreOk(content[id := []], ls - {id})
  {
    hide LayoutOk, Holds;
    var content', ls' := content[id := []], ls - {id};
    forall d | d in ls' ensures d < |content'| && content'[d] == content[d] && ls'[d] == ls[d] {}
  }

  lemma CacheGone(cache: map<nat, Cached>, ls: Layouts, caching: bool, id: nat)
    requires CacheOk(cache, ls, caching)
    ensures CacheOk(cache - {id}, ls - {id}, caching)
  {
    Smaller((cache - {id}).Keys, cache.Keys);
  }

  lemma NamesWithout(ls: Layouts, gone: set<nat>)
    ensures NamesIn(ls - gone) == NamesIn(ls) - gone
  {}

  lemma TargetInRange(t: Tree, d: nat, n: Name)
    requires Forest(t) && d in t.names && n in t.names[d]
    ensures t.names[d][n] < |t.slots|
  {}

  /** Handles are on live files, never on directories or on the id about to be issued. */
  lemma OpenFiles(t: Tree, ls: Layouts)
    requires Forest(t) && t.names == NamesIn(ls)
    ensures OpenFilesOk(t.open, |t.slots|) && (forall x :: x in t.open ==> x !in ls)
    ensures t.free != [] || t.next < |t.slots| ==> FreshId(t) !in t.open
  {
    hide Acyclic, CountsOk, Links;
    forall x | x in t.open ensures x !in ls { NamesAt(ls, x); }
    if t.free != [] || t.next < |t.slots| { FreshIsNew(t); }
  }

  lemma NotItself(t: Tree, d: nat, n: Name)
    requires Forest(t) && d in t.names && n in t.names[d]
    ensures t.names[d][n] != d
  {
    NoSelfName(t, d, n);
  }

  lemma OpenNotDir(t: Tree, id: nat)
    requires Structure(t) && id in t.open
    ensures id !in t.names
  {}

  /** Taking away what is not there changes nothing. */
  lemma NotNamed(names: map<nat, Names>, ls: Layouts, id: nat)
    requires names == NamesIn(ls)
    ensures id in names <==> id in ls
    ensures id !in names ==> names - {id} == names && ls - {id} == ls
  {}

  lemma PutNames(ls: Layouts, d: nat, n: Name, id: nat)
    requires LayoutsOk(ls) && d in ls && n !in ls[d].names && EntryFits(Entry(n, id))
    ensures |ls[d].used| == |ls[d].pages| && ls[d := Clean(AddTo(ls[d], n, id).0)] == PutEntry(ls, d, n, id)
    ensures NamesIn(PutEntry(ls, d, n, id)) == PutName(NamesIn(ls), d, n, id)
  {
    hide LayoutOk, AddTo, PutName;
    AddKeeps(ls[d], n, id);
    NamesAfterPut(ls, d, n, id);
  }

  lemma DropNames(ls: Layouts, d: nat, n: Name)
    requires LayoutsOk(ls) && d in ls
    ensures LayoutOk(ls[d]) && ls[d := Clean(DelFrom(ls[d], n).0)] == DropEntry(ls, d, n)
    ensures NamesIn(DropEntry(ls, d, n)) == DropName(NamesIn(ls), d, n)
  {
    hide LayoutOk, DelFrom, DropName;
    NamesAfterDrop(ls, d, n);
  }

  /** What is not a directory has no layout to lose. */
  lemma NotListed(ls: Layouts, t: Tree, id: nat, ls': Layouts)
    requires Forest(t) && t.names == NamesIn(ls) && id < |t.slots| && t.slots[id].kind != TYPE_DIR
              && ls'.Keys == ls.Keys
    ensures id !in ls && ls' - {id} == ls'
  {
    hide Acyclic, CountsOk, Links;
    assert id !in t.names;
  }

  lemma NothingTouched(l: Layout)
    ensures LayoutOk(l) && l.dirty == {} ==> Touches(l.pages, l.pages, l.dirty)
  {}

  /** After the commit the store and the cache agree with the new layout. */
  lemma FinishEntry(content: seq<Bytes>, content': seq<Bytes>, ls: Layouts, d: nat, l: Layout,
                    cache: map<nat, Cached>, cache': map<nat, Cached>, caching: bool)
    requires StoreOk(content, ls) && LayoutOk(l) && d < |content| == |content'| && Holds(content'[d], l.pages)
    requires forall x :: 0 <= x < |content| && x != d ==> content'[x] == content[x]
    requires CacheOk(cache, ls, caching) && CacheFrom(cache', cache, d, Clean(l), caching) && d !in cache
    ensures StoreOk(content', ls[d := Clean(l)]) && CacheOk(cache', ls[d := Clean(l)], caching)
  {
    hide LayoutOk, Holds, CacheOk, CacheFrom, StoreOk;
    CleanOk(l);
    StoreUpdate(content, ls, content', d, Clean(l));
    CacheUpdate(cache', cache, ls, d, Clean(l), caching);
  }

  lemma CreateNames(ls: Layouts, ls1: Layouts, p: nat, n: Name, kind: nat, id: nat)
    requires LayoutsOk(ls) && p in ls && id !in ls && p != id && n !in ls[p].names && EntryFits(Entry(n, id))
    requires ls1 == if kind == TYPE_DIR then WithEmpty(ls, id) else ls
    ensures p in ls1 && ls1[p] == ls[p] && |ls[p].used| == |ls[p].pages| && LayoutsOk(ls1)
    ensures ls1[p := Clean(AddTo(ls[p], n, id).0)] == PutEntry(ls1, p, n, id)
    ensures NamesIn(PutEntry(ls1, p, n, id)) ==
              PutName(if kind == TYPE_DIR then NamesIn(ls)[id := map[]] else NamesIn(ls), p, n, id)
  {
    hide LayoutOk, AddTo, PutName;
    EmptyOk();
    AddKeeps(ls[p], n, id);
    NamesAfterPut(ls1, p, n, id);
    NamesWithEmpty(ls, id);
  }

  lemma NamesWithEmpty(ls: Layouts, id: nat)
    requires LayoutsOk(ls)
    ensures NamesIn(WithEmpty(ls, id)) == NamesIn(ls)[id := map[]]
  {
    hide LayoutOk;
  }

  // ----- renaming on layouts -----

  /** A rename that passed its checks. */
  ghost predicate MoveReady(t: Tree, ls: Layouts, sp: nat, sn: Name, dp: nat, dn: Name, id: nat) {
    && Matches(t, ls) && sp in ls && dp in ls && sn in ls[sp].names && id == ls[sp].names[sn] && |dn| <= MAX_NAME
    && RenameError(t, sp, sn, dp).None? && SafeRename(t, sp, sn, dp, dn)
  }

  lemma MoveFacts(t: Tree, ls: Layouts, sp: nat, sn: Name, dp: nat, dn: Name, id: nat)
    requires MoveReady(t, ls, sp, sn, dp, dn, id)
    ensures sp in ls && dp in ls && sp < |t.slots| && dp < |t.slots| && LayoutsOk(ls) && LayoutOk(ls[sp])
              && LayoutOk(ls[dp])
    ensures sn in ls[sp].names && ls[sp].names[sn] == id && EntryFits(Entry(dn, id))
    ensures dn in ls[dp].names ==> ls[dp].names[dn] < |t.slots|
    ensures dn in ls[dp].names && ls[dp].names[dn] != id ==>
              sp !in Gone(t, ls[dp].names[dn]) && dp !in Gone(t, ls[dp].names[dn])
  {
    hide Structure, CountsOk, LayoutOk, Reaches;
    KnownDir(t, sp);
    KnownDir(t, dp);
    NamesAt(ls, sp);
    NamesAt(ls, dp);
    NamedFits(ls[sp], sn);
    if dn in t.names[dp] {
      TargetInRange(t, dp, dn);
      NotItself(t, dp, dn);
    }
  }

  /** The destination's layout with the name replaced. */
  ghost function Renewed(l: Layout, n: Name, id: nat): Layout
    requires LayoutOk(l)
  {
    hide PageBytes;
    DelKeeps(l, n);
    AddTo(if n in l.names then DelFrom(l, n).0 else l, n, id).0
  }

  lemma AddClean(l: Layout, n: Name, id: nat)
    requires |l.used| == |l.pages|
    ensures Clean(AddTo(Clean(l), n, id).0) == Clean(AddTo(l, n, id).0)
  {}

  lemma DelClean(l: Layout, n: Name)
    requires LayoutOk(l)
    ensures LayoutOk(Clean(l)) && Clean(DelFrom(Clean(l), n).0) == Clean(DelFrom(l, n).0)
  {
    hide LayoutOk;
    CleanOk(l);
  }

  ghost function MidLayouts(ls: Layouts, d: nat, n: Name, id: nat): (r: Layouts)
    requires LayoutsOk(ls) && d in ls && EntryFits(Entry(n, id))
    ensures LayoutsOk(r) && r.Keys == ls.Keys
  {
    PutEntry(if n in ls[d].names then DropEntry(ls, d, n) else ls, d, n, id)
  }

  lemma ReplaceReady(ls: Layouts, d: nat, n: Name, id: nat)
    requires LayoutsOk(ls) && d in ls && EntryFits(Entry(n, id))
    ensures LayoutOk(ls[d]) && Changed(ls[d], Renewed(ls[d], n, id))
    ensures n in ls[d].names ==> |DelFrom(ls[d], n).0.used| == |DelFrom(ls[d], n).0.pages|
    ensures |ls[d].used| == |ls[d].pages|
    ensures Renewed(ls[d], n, id) == AddTo(if n in ls[d].names then DelFrom(ls[d], n).0 else ls[d], n, id).0
    ensures ls[d := Clean(Renewed(ls[d], n, id))] == MidLayouts(ls, d, n, id)
  {
    hide LayoutOk, DelFrom, Touches, LayoutsOk;
    LayoutsAt(ls, d);
    var l := ls[d];
    NothingTouched(l);
    DelKeeps(l, n);
    DelTouches(l.pages, l, n);
    var l1 := if n in l.names then DelFrom(l, n).0 else l;
    AddKeeps(l1, n, id);
    AddTouches(l.pages, l1, n, id);
    AddClean(l1, n, id);
  }

  lemma LayoutsAt(ls: Layouts, d: nat)
    requires LayoutsOk(ls) && d in ls
    ensures LayoutOk(ls[d]) && ls[d].dirty == {}
  {}

  lemma WithinReady(ls: Layouts, d: nat, sn: Name, n: Name, id: nat)
    requires LayoutsOk(ls) && d in ls && EntryFits(Entry(n, id)) && sn in ls[d].names && sn != n
    ensures LayoutOk(ls[d]) && LayoutOk(Renewed(ls[d], n, id))
    ensures Changed(ls[d], DelFrom(Renewed(ls[d], n, id), sn).0)
    ensures ls[d := Clean(DelFrom(Renewed(ls[d], n, id), sn).0)] == DropEntry(MidLayouts(ls, d, n, id), d, sn)
  {
    hide LayoutOk, Touches, LayoutsOk, Renewed, MidLayouts, PageFits, IndexOf, Removed;
    LayoutsAt(ls, d);
    ReplaceReady(ls, d, n, id);
    var l := Renewed(ls[d], n, id);
    DelKeeps(l, sn);
    DelTouches(ls[d].pages, l, sn);
    DelClean(l, sn);
  }

  lemma MoveNothing(t: Tree, ls: Layouts, sp: nat, sn: Name, dp: nat, dn: Name, id: nat)
    requires MoveReady(t, ls, sp, sn, dp, dn, id) && dp in ls && dn in ls[dp].names && ls[dp].names[dn] == id
    ensures Does(t, ls, RenameOp(sp, sn, dp, dn), t, ls, Done)
  {
    hide Structure, CountsOk, LayoutOk, Reaches;
    NamesAt(ls, dp);
  }

  /** What the overwrite leaves: the layouts without a recycled directory. */
  ghost predicate Overwritten(t: Tree, ls: Layouts, dp: nat, dn: Name, mid: Tree, mids: Layouts)
    requires dp in ls
  {
    if dn in ls[dp].names then
      var v := ls[dp].names[dn];
      v < |t.slots| && mid == DropLink(t, v) && mids == ls - Gone(t, v)
    else mid == t && mids == ls
  }

  /** After the overwrite both directories are still as they were. */
  lemma MoveMiddle(t: Tree, ls: Layouts, sp: nat, sn: Name, dp: nat, dn: Name, id: nat, mids: Layouts)
    requires MoveReady(t, ls, sp, sn, dp, dn, id) && dp in ls && !(dn in ls[dp].names && ls[dp].names[dn] == id)
    requires mids == ls - if dn in ls[dp].names then Gone(t, ls[dp].names[dn]) else {}
    ensures sp in mids && dp in mids && mids[sp] == ls[sp] && mids[dp] == ls[dp]
  {
    hide MoveReady, LayoutOk, LayoutsOk;
    MoveFacts(t, ls, sp, sn, dp, dn, id);
  }

  lemma MiddleSlots(t: Tree, ls: Layouts, dp: nat, dn: Name, mid: Tree, mids: Layouts)
    requires dp in ls && Overwritten(t, ls, dp, dn, mid, mids)
    ensures |mid.slots| == |t.slots|
  {}

  lemma MinusPut(names: map<nat, Names>, gone: set<nat>, d: nat, n: Name, id: nat)
    requires d in names && d !in gone
    ensures PutName(names - gone, d, n, id) == PutName(names, d, n, id) - gone
  {}

  lemma MinusDrop(names: map<nat, Names>, gone: set<nat>, d: nat, n: Name)
    requires d in names && d !in gone
    ensures DropName(names - gone, d, n) == DropName(names, d, n) - gone
  {}

  ghost predicate Moving(t: Tree, ls: Layouts, sp: nat, sn: Name, dp: nat, dn: Name, id: nat) {
    MoveReady(t, ls, sp, sn, dp, dn, id) && dp in ls && !(dn in ls[dp].names && ls[dp].names[dn] == id)
  }

  lemma MovingDone(t: Tree, ls: Layouts, sp: nat, sn: Name, dp: nat, dn: Name, id: nat)
    requires Moving(t, ls, sp, sn, dp, dn, id)
    ensures Rename(t, sp, sn, dp, dn).1.Done?
  {
    hide Structure, CountsOk, LayoutOk, Reaches, NamesIn;
    KnownDir(t, sp);
    KnownDir(t, dp);
    NamesAt(ls, sp);
    NamesAt(ls, dp);
    if dn in t.names[dp] { TargetInRange(t, dp, dn); }
  }

  /** The names of the moved layouts. */
  lemma MidNames(ls: Layouts, sp: nat, sn: Name, dp: nat, dn: Name, id: nat)
    requires LayoutsOk(ls) && sp in ls && dp in ls && EntryFits(Entry(dn, id))
    ensures NamesIn(DropEntry(MidLayouts(ls, dp, dn, id), sp, sn)) ==
              DropName(PutName(if dn in ls[dp].names then DropName(NamesIn(ls), dp, dn) else NamesIn(ls), dp, dn, id),
                sp, sn)
  {
    hide LayoutOk, DropEntry, PutEntry, LayoutsOk, NamesIn, DropName, PutName;
    var ls0 := if dn in ls[dp].names then DropEntry(ls, dp, dn) else ls;
    DropNames(ls, dp, dn);
    NamesAt(ls, dp);
    NamesAt(ls0, dp);
    assert dn !in ls0[dp].names by { DroppedName(NamesIn(ls), dp, dn); }
    PutNames(ls0, dp, dn, id);
    DropNames(MidLayouts(ls, dp, dn, id), sp, sn);
  }

  lemma DroppedName(names: map<nat, Names>, d: nat, n: Name)
    requires d in names
    ensures n !in DropName(names, d, n)[d]
  {}

  lemma RenameNames(t: Tree, ls: Layouts, sp: nat, sn: Name, dp: nat, dn: Name, id: nat)
    requires Moving(t, ls, sp, sn, dp, dn, id) && Rename(t, sp, sn, dp, dn).1.Done?
    ensures NamesIn(RenameLayouts(t, ls, sp, sn, dp, dn)) == Rename(t, sp, sn, dp, dn).0.names
  {
    hide Structure, CountsOk, LayoutOk, Reaches, Rename, DropEntry, PutEntry, DropName, PutName, NamesIn, LayoutsOk;
    MoveFacts(t, ls, sp, sn, dp, dn, id);
    NamesAt(ls, dp);
    NamesAt(ls, sp);
    MidNames(ls, sp, sn, dp, dn, id);
    if dn in t.names[dp] {
      var v := t.names[dp][dn];
      RenameIs(t, sp, sn, dp, dn);
      ClearedNames(t, dp, dn);
      NamesWithout(DropEntry(MidLayouts(ls, dp, dn, id), sp, sn), Gone(t, v));
      SwingMinus(t.names, Gone(t, v), sp, sn, dp, dn, id);
    } else {
      RenameIsSwung(t, sp, sn, dp, dn);
    }
  }

  lemma SwingMinus(names: map<nat, Names>, gone: set<nat>, sp: nat, sn: Name, dp: nat, dn: Name, id: nat)
    requires sp in names && dp in names && sp !in gone && dp !in gone
    ensures dp in DropName(names, dp, dn) - gone && sp in DropName(names, dp, dn) - gone
    ensures DropName(PutName(DropName(names, dp, dn) - gone, dp, dn, id), sp, sn) ==
              DropName(PutName(DropName(names, dp, dn), dp, dn, id), sp, sn) - gone
  {
    var dropped := DropName(names, dp, dn);
    MinusPut(dropped, gone, dp, dn, id);
    MinusDrop(PutName(dropped, dp, dn, id), gone, sp, sn);
  }

  /** The tree once both parents are written back. */
  ghost predicate WrittenBack(t: Tree, mid: Tree, sp: nat, dp: nat, t': Tree) {
    && |mid.slots| == |t.slots| && sp < |t.slots| && dp < |t.slots|
    && t'.slots == mid.slots[dp := t.slots[dp]][sp := t.slots[sp]] && t'.next == mid.next && t'.free == mid.free
         && t'.open == mid.open
  }

  lemma RenameDone(t: Tree, ls: Layouts, sp: nat, sn: Name, dp: nat, dn: Name, id: nat, mid: Tree, mids: Layouts,
      t': Tree, ls': Layouts)
    requires Moving(t, ls, sp, sn, dp, dn, id) && dp in ls && Overwritten(t, ls, dp, dn, mid, mids)
              && WrittenBack(t, mid, sp, dp, t')
    requires Rename(t, sp, sn, dp, dn).1.Done? && t'.names == NamesIn(ls')
              && ls' == RenameLayouts(t, ls, sp, sn, dp, dn)
    ensures Does(t, ls, RenameOp(sp, sn, dp, dn), t', ls', Done) && Forest(t')
  {
    hide Structure, CountsOk, LayoutOk, Reaches, DropLink, RenameLayouts, NamesIn;
    NamesAt(ls, dp);
    NamesAt(ls, sp);
    RenameNames(t, ls, sp, sn, dp, dn, id);
    RenameGood(t, sp, sn, dp, dn, false);
    RenameParts(t, sp, sn, dp, dn, mid);
  }

  lemma RenameParts(t: Tree, sp: nat, sn: Name, dp: nat, dn: Name, mid: Tree)
    requires RenameError(t, sp, sn, dp).None? && Rename(t, sp, sn, dp, dn).1.Done? && |mid.slots| == |t.slots|
    requires dn in t.names[dp] ==>
              t.names[dp][dn] != t.names[sp][sn] && t.names[dp][dn] < |t.slots| && mid == DropLink(t, t.names[dp][dn])
    requires dn !in t.names[dp] ==> mid == t
    ensures var t' := Rename(t, sp, sn, dp, dn).0;
            && t'.slots == mid.slots[dp := t.slots[dp]][sp := t.slots[sp]] && t'.next == mid.next && t'.free == mid.free
                 && t'.open == mid.open
  {
    hide Reaches;
  }

  lemma RenameLayoutsAre(t: Tree, ls: Layouts, sp: nat, sn: Name, dp: nat, dn: Name, id: nat)
    requires Moving(t, ls, sp, sn, dp, dn, id) && LayoutsOk(ls) && EntryFits(Entry(dn, id))
              && Rename(t, sp, sn, dp, dn).1.Done?
    ensures RenameLayouts(t, ls, sp, sn, dp, dn) ==
              if dn in ls[dp].names then DropEntry(MidLayouts(ls, dp, dn, id), sp, sn) - Gone(t, ls[dp].names[dn])
              else DropEntry(MidLayouts(ls, dp, dn, id), sp, sn)
  {
    hide Structure, CountsOk, LayoutOk, Reaches, NamesIn, LayoutsOk, DropEntry, PutEntry, Rename;
    NamesAt(ls, sp);
    NamesAt(ls, dp);
  }

  lemma MoveWithinDone(t: Tree, ls: Layouts, p: nat, sn: Name, dn: Name, id: nat, mid: Tree, mids: Layouts, t': Tree,
      ls': Layouts)
    requires Moving(t, ls, p, sn, p, dn, id) && p in ls && LayoutsOk(ls) && EntryFits(Entry(dn, id))
              && sn in ls[p].names && sn != dn
    requires Overwritten(t, ls, p, dn, mid, mids) && WrittenBack(t, mid, p, p, t') && t'.names == NamesIn(ls')
    requires LayoutOk(ls[p]) && LayoutOk(Renewed(ls[p], dn, id))
              && ls' == mids[p := Clean(DelFrom(Renewed(ls[p], dn, id), sn).0)]
    ensures Does(t, ls, RenameOp(p, sn, p, dn), t', ls', Done) && Forest(t')
  {
    hide Structure, CountsOk, LayoutOk, Reaches, DropLink, NamesIn, LayoutsOk, DelFrom, Renewed, Matches, DropEntry,
      PutEntry;
    MovingDone(t, ls, p, sn, p, dn, id);
    MoveFacts(t, ls, p, sn, p, dn, id);
    NamesAt(ls, p);
    WithinReady(ls, p, sn, dn, id);
    RenameLayoutsAre(t, ls, p, sn, p, dn, id);
    RenameDone(t, ls, p, sn, p, dn, id, mid, mids, t', ls');
  }

  lemma MoveAcrossDone(t: Tree, ls: Layouts, sp: nat, sn: Name, dp: nat, dn: Name, id: nat, mid: Tree, mids: Layouts,
      t': Tree, ls': Layouts)
    requires Moving(t, ls, sp, sn, dp, dn, id) && sp != dp && sp in ls && dp in ls && LayoutsOk(ls)
              && EntryFits(Entry(dn, id))
    requires Overwritten(t, ls, dp, dn, mid, mids) && WrittenBack(t, mid, sp, dp, t') && t'.names == NamesIn(ls')
    requires LayoutOk(ls[sp]) && LayoutOk(ls[dp])
    requires ls' == mids[dp := Clean(Renewed(ls[dp], dn, id))][sp := Clean(DelFrom(ls[sp], sn).0)]
    ensures Does(t, ls, RenameOp(sp, sn, dp, dn), t', ls', Done) && Forest(t')
  {
    hide Structure, CountsOk, LayoutOk, Reaches, DropLink, NamesIn, LayoutsOk, DelFrom, Renewed, Matches, PutEntry,
      DropEntry, MidLayouts, RenameLayouts;
    MovingDone(t, ls, sp, sn, dp, dn, id);
    MoveFacts(t, ls, sp, sn, dp, dn, id);
    NamesAt(ls, dp);
    ReplaceReady(ls, dp, dn, id);
    DropNames(MidLayouts(ls, dp, dn, id), sp, sn);
    RenameLayoutsAre(t, ls, sp, sn, dp, dn, id);
    RenameDone(t, ls, sp, sn, dp, dn, id, mid, mids, t', ls');
  }

  // ----- walking a subtree -----

  /** The directories among some entries, in order. */
  function Subdirs(slots: seq<Node>, es: seq<Entry>): seq<nat> {
    if es == [] then []
    else
      var e := es[|es| - 1];
      Subdirs(slots, es[..|es| - 1]) + if e.inode < |slots| && slots[e.inode].kind == TYPE_DIR then [e.inode] else []
  }

  lemma {:induction false} SubdirsAre(slots: seq<Node>, es: seq<Entry>)
    ensures forall c: nat :: c in Subdirs(slots, es) <==>
              c < |slots| && slots[c].kind == TYPE_DIR && exists i :: 0 <= i < |es| && es[i].inode == c
  {
    if es != [] {
      var k := |es| - 1;
      SubdirsAre(slots, es[..k]);
      forall c | c in Subdirs(slots, es[..k]) ensures exists i :: 0 <= i < |es| && es[i].inode == c {
        var i :| 0 <= i < k && es[..k][i].inode == c;
        assert es[i].inode == c;
      }
      forall c: nat | c < |slots| && slots[c].kind == TYPE_DIR && exists i :: 0 <= i < |es| && es[i].inode == c
        ensures c in Subdirs(slots, es) {
        var i :| 0 <= i < |es| && es[i].inode == c;
        if i < k { assert es[..k][i].inode == c; }
      }
    }
  }

  lemma {:induction false} SubdirsOnce(slots: seq<Node>, es: seq<Entry>)
    requires forall i, j :: 0 <= i < j < |es| && es[i].inode == es[j].inode && es[i].inode < |slots| ==>
              slots[es[i].inode].kind != TYPE_DIR
    ensures NoRepeats(Subdirs(slots, es))
  {
    if es != [] {
      var k := |es| - 1;
      SubdirsOnce(slots, es[..k]);
      SubdirsAre(slots, es[..k]);
    }
  }

  lemma ChildrenOnce(t: Tree, d: nat, es: seq<Entry>)
    requires Forest(t) && d in t.names && Lists(es, t.names[d])
    ensures NoRepeats(Subdirs(t.slots, es))
  {
    hide Acyclic, CountsOk, Links, FreeOk, OpenOk, Targets, Subdirs, NoRepeats;
    forall i, j | 0 <= i < j < |es| && es[i].inode == es[j].inode && es[i].inode < |t.slots|
      ensures t.slots[es[i].inode].kind != TYPE_DIR {
      assert Get(t.names[d], es[i].name) == Some(es[i].inode) && Get(t.names[d], es[j].name) == Some(es[j].inode);
      TwoNames(t, d, es[i].name, es[j].name);
    }
    SubdirsOnce(t.slots, es);
  }

  /** What has two names is no directory. */
  lemma TwoNames(t: Tree, d: nat, m: Name, n: Name)
    requires Forest(t) && d in t.names && m in t.names[d] && n in t.names[d] && m != n && t.names[d][m] == t.names[d][n]
    ensures t.names[d][m] !in t.names
  {
    hide Acyclic, CountsOk, Links, FreeOk, OpenOk, Targets, Shape;
    if t.names[d][m] in t.names {
      OnlyLink(t, t.names[d][m], d, m);
      OnlyLink(t, t.names[d][m], d, n);
    }
  }

  /** A directory's children are pushed once each. */
  lemma Children(t: Tree, d: nat, l: Layout)
    requires Forest(t) && d in t.names && LayoutOk(l) && l.names == t.names[d]
    ensures var kids := Subdirs(t.slots, Listing(l.pages)); NoRepeats(kids) && forall c ::
              c in kids <==> Edge(t.names, d, c)
  {
    hide LayoutOk, Acyclic, CountsOk, Links, Listing, NoRepeats, Subdirs, FreeOk, OpenOk, Targets;
    var es := Listing(l.pages);
    ListingLists(l);
    ChildrenOnce(t, d, es);
    SubdirsAre(t.slots, es);
    forall c | Edge(t.names, d, c) ensures exists i :: 0 <= i < |es| && es[i].inode == c {
      var n :| n in t.names[d] && t.names[d][n] == c;
      var i :| 0 <= i < |es| && es[i].name == n;
      assert Get(l.names, es[i].name) == Some(es[i].inode);
    }
    forall c | c in Subdirs(t.slots, es) ensures Edge(t.names, d, c) {
      var i :| 0 <= i < |es| && es[i].inode == c;
      assert Get(l.names, es[i].name) == Some(es[i].inode);
    }
  }

  /** A walk from `root` in progress: visited directories are closed up to the stack, and none is met twice. */
  ghost predicate Walking(names: map<nat, Names>, root: nat, target: nat, stack: seq<nat>, seen: set<nat>) {
    && NoRepeats(stack) && seen <= names.Keys && target !in seen && (root in seen || root in stack)
    && (forall x :: x in stack ==> x in names && x !in seen)
    && (forall x :: x in stack || x in seen ==>
         Reaches(names, root, x) && (x == root || exists a :: a in seen && Edge(names, a, x)))
    && (forall a, b :: a in seen && Edge(names, a, b) ==> b in seen || b in stack)
  }

  lemma WalkStart(names: map<nat, Names>, root: nat, target: nat)
    requires root in names
    ensures Walking(names, root, target, [root], {})
  {
    hide Reaches;
    ReachesSelf(names, root);
  }

  /** Directory `c` is met only through `d`. */
  lemma NotMetBefore(t: Tree, root: nat, target: nat, stack: seq<nat>, seen: set<nat>, d: nat, c: nat)
    requires Forest(t) && Walking(t.names, root, target, stack, seen) && d in stack && Edge(t.names, d, c)
    ensures c !in seen && c !in stack
  {
    hide Acyclic, Reaches, CountsOk, Links, Shape, FreeOk, OpenOk, Targets;
    if c in seen || c in stack {
      if c == root {
        BackToRoot(t.names, root, d);
      } else {
        var a :| a in seen && Edge(t.names, a, c);
        OneParent(t, a, d, c);
      }
    }
  }

  lemma BackToRoot(names: map<nat, Names>, root: nat, d: nat)
    requires Acyclic(names) && Reaches(names, root, d)
    ensures !Edge(names, d, root)
  {
    hide Acyclic;
    if Edge(names, d, root) {
      var path :| Joins(names, path, root, d);
      NoCycle(names, root, path + [root]);
    }
  }

  lemma OneParent(t: Tree, a: nat, b: nat, c: nat)
    requires Forest(t) && Edge(t.names, a, c) && Edge(t.names, b, c)
    ensures a == b
  {
    hide Acyclic, CountsOk, Links, Shape, FreeOk, OpenOk, Targets;
    var m :| m in t.names[a] && t.names[a][m] == c;
    var n :| n in t.names[b] && t.names[b][n] == c;
    OnlyLink(t, c, a, m);
    OnlyLink(t, c, b, n);
    assert (a, m) in {(b, n)};
  }

  lemma WalkNext(t: Tree, root: nat, target: nat, stack: seq<nat>, seen: set<nat>, d: nat, kids: seq<nat>)
    requires Forest(t) && Walking(t.names, root, target, stack + [d], seen) && d != target
    requires NoRepeats(kids) && forall c :: c in kids <==> Edge(t.names, d, c)
    ensures Walking(t.names, root, target, stack + kids, seen + {d}) && d in t.names && d !in seen
  {
    hide Structure, CountsOk, Reaches, Edge;
    var whole, next, seen' := stack + [d], stack + kids, seen + {d};
    assert d in whole;
    forall c | c in kids ensures c !in seen && c !in whole && c in t.names && Reaches(t.names, root, c) {
      NotMetBefore(t, root, target, whole, seen, d, c);
      EdgeEnds(t.names, d, c);
      ReachesMore(t.names, root, d, c);
    }
    LastIsNew(stack, d);
    assert NoRepeats(next) by { NoRepeatsJoin(stack, d, kids); }
    forall x | x in next || x in seen' ensures Reaches(t.names, root, x)
      && (x == root || exists a :: a in seen' && Edge(t.names, a, x)) {
      if x in whole || x in seen {
        if x != root {
          var a :| a in seen && Edge(t.names, a, x);
          assert a in seen';
        }
      } else {
        assert x in kids;
      }
    }
  }

  lemma EdgeEnds(names: map<nat, Names>, a: nat, b: nat)
    requires Edge(names, a, b)
    ensures a in names && b in names
  {}

  lemma LastIsNew(stack: seq<nat>, d: nat)
    requires NoRepeats(stack + [d])
    ensures d !in stack
  {
    forall i | 0 <= i < |stack| ensures stack[i] != d {
      assert (stack + [d])[i] == stack[i] && (stack + [d])[|stack|] == d;
    }
  }

  lemma NoRepeatsJoin(stack: seq<nat>, d: nat, kids: seq<nat>)
    requires NoRepeats(stack + [d]) && NoRepeats(kids) && forall c :: c in kids ==> c !in stack + [d]
    ensures NoRepeats(stack + kids)
  {
    var next := stack + kids;
    forall i, j | 0 <= i < j < |next| ensures next[i] != next[j] {
      if j < |stack| {
        assert (stack + [d])[i] == next[i] && (stack + [d])[j] == next[j];
      } else if i < |stack| {
        assert next[j] in kids && next[i] in stack + [d];
      }
    }
  }

  lemma {:induction false} StaysSeen(names: map<nat, Names>, seen: set<nat>, path: seq<nat>)
    requires IsPath(names, path) && path[0] in seen && forall a, b :: a in seen && Edge(names, a, b) ==> b in seen
    ensures path[|path| - 1] in seen
  {
    hide Edge;
    if |path| > 1 {
      var front := path[..|path| - 1];
      StaysSeen(names, seen, front);
      assert Edge(names, path[|path| - 2], path[|path| - 1]);
    }
  }

  lemma WalkTop(names: map<nat, Names>, root: nat, target: nat, rest: seq<nat>, d: nat, seen: set<nat>)
    requires Walking(names, root, target, rest + [d], seen)
    ensures Reaches(names, root, d) && d in names && d !in seen
  {
    hide Edge, Reaches;
    assert d in rest + [d];
  }

  lemma WalkEnd(names: map<nat, Names>, root: nat, target: nat, seen: set<nat>)
    requires Walking(names, root, target, [], seen)
    ensures !Reaches(names, root, target)
  {
    hide Edge, IsPath;
    if Reaches(names, root, target) {
      var path :| Joins(names, path, root, target);
      StaysSeen(names, seen, path);
    }
  }

  function NamesOnly(es: seq<Entry>): seq<Name> { seq(|es|, i requires 0 <= i < |es| => es[i].name) }

  /** Every name of the directory once, page by page and each page in its own order. */
  ghost predicate NamesListed(ns: seq<Name>, names: Names, pages: Pages) {
    && |ns| == |names| && (forall n :: n in ns <==> n in names) && (forall i, j :: 0 <= i < j < |ns| ==> ns[i] != ns[j])
    && forall p, i :: 0 <= p < |pages| && 0 <= i < |pages[p]| ==> NameAt(ns, pages, p, i)
  }

  ghost predicate NameAt(ns: seq<Name>, pages: Pages, p: nat, i: nat)
    requires p < |pages| && i < |pages[p]|
  {
    CountBefore(pages, p) + i < |ns| && ns[CountBefore(pages, p) + i] == pages[p][i].name
  }

  lemma ListedNames(l: Layout)
    requires LayoutOk(l)
    ensures NamesListed(NamesOnly(Listing(l.pages)), l.names, l.pages)
  {
    hide LayoutOk, Listing;
    var es, ns := Listing(l.pages), NamesOnly(Listing(l.pages));
    ListingLists(l);
    forall n ensures n in ns <==> n in l.names {
      if n in ns {
        var i :| 0 <= i < |ns| && ns[i] == n;
        assert Get(l.names, es[i].name) == Some(es[i].inode);
      }
      if n in l.names {
        var i :| 0 <= i < |es| && es[i].name == n;
        assert ns[i] == n;
      }
    }
    forall i, j | 0 <= i < j < |ns| ensures ns[i] != ns[j] { assert es[i].name != es[j].name; }
    SameCount(ns, l.names);
    forall p, i | 0 <= p < |l.pages| && 0 <= i < |l.pages[p]| ensures NameAt(ns, l.pages, p, i) {
      ListingOrder(l.pages, p, i);
    }
  }

  lemma {:induction false} SameCount(ns: seq<Name>, m: Names)
    requires (forall n :: n in ns <==> n in m) && forall i, j :: 0 <= i < j < |ns| ==> ns[i] != ns[j]
    ensures |ns| == |m|
  {
    if ns == [] {
      assert m == map[];
    } else {
      var k := |ns| - 1;
      var m' := m - {ns[k]};
      assert m.Keys == m'.Keys + {ns[k]};
      forall n ensures n in ns[..k] <==> n in m' {
        if n in ns[..k] { assert n != ns[k]; }
      }
      SameCount(ns[..k], m');
    }
  }

  lemma LayoutFits(l: Layout)
    requires LayoutOk(l)
    ensures PagesFit(l.pages)
  {}

  lemma FlushPage(blob: Bytes, pages: Pages, todo: set<nat>, p: nat)
    requires Flushing(blob, pages, todo) && p in todo
    ensures p < |pages| && PageFits(pages[p])
  {
    hide PageFits, PageAt;
  }

  /** What loading a directory yields. */
  ghost function Loaded(t: Tree, ls: Layouts, id: nat): Result<Layout, Trees.Error> {
    if DirError(t, id).Some? then Err(DirError(t, id).value) else if id in ls then Ok(ls[id]) else Err(NotDir)
  }

  lemma LoadedDir(t: Tree, ls: Layouts, id: nat)
    requires Structure(t) && t.names == NamesIn(ls)
    ensures Loaded(t, ls, id).Ok? <==> id in ls
    ensures id in ls ==> Loaded(t, ls, id) == Ok(ls[id])
  {
    hide Acyclic;
    NamesAt(ls, id);
  }

  /** A directory of the tree has a layout, and only those have one. */
  lemma KnownDir(t: Tree, d: nat)
    requires Forest(t)
    ensures DirError(t, d).None? <==> d in t.names
    ensures d in t.names ==> d < |t.slots| && t.slots[d].kind == TYPE_DIR
    ensures DirError(t, d).Some? ==> DirError(t, d).value == if d >= |t.slots| then NoSuchInode else NotDir
    ensures d < |t.slots| && t.slots[d].kind == TYPE_DIR ==> d in t.names
  {}

  lemma DirectoryOk(content: seq<Bytes>, ls: Layouts, d: nat)
    requires StoreOk(content, ls) && d in ls
    ensures LayoutOk(ls[d]) && d < |content| && Holds(content[d], ls[d].pages)
  {}

  // ----- the cache does not show -----

  datatype Request = Change(op: Op) | LookupIn(parent: nat, name: Name) | List(id: nat)

  datatype Answer =
    | Replied(reply: Reply) | Found(found: Result<Option<nat>, Trees.Error>) | Listed(names: Result<seq<Name>,
      Trees.Error>)

  ghost predicate RequestOk(t: Tree, q: Request) { q.Change? ==> Allowed(t, q.op, false) && NamesFit(q.op) }

  ghost function TreeAfter(t: Tree, q: Request): Tree { if q.Change? then Apply(t, q.op).0 else t }

  /** Every request of the script is allowed when its turn comes. */
  ghost predicate ScriptOk(t: Tree, qs: seq<Request>)
    decreases qs
  {
    qs == [] || (RequestOk(t, qs[0]) && ScriptOk(TreeAfter(t, qs[0]), qs[1..]))
  }

  /** What a request answers and leaves behind is settled by the tree and the layouts alone. */
  ghost predicate Answers(t: Tree, ls: Layouts, q: Request, t': Tree, ls': Layouts, a: Answer) {
    match q
    case Change(op) => a.Replied? && Does(t, ls, op, t', ls', a.reply)
    case LookupIn(d, n) =>
      && t' == t && ls' == ls && t.names == NamesIn(ls)
      && a == Found(if DirError(t, d).Some? then Err(DirError(t, d).value) else Ok(Get(t.names[d], n)))
    case List(d) =>
      && t' == t && ls' == ls && (DirError(t, d).None? ==> d in ls)
      && a == Listed(if DirError(t, d).Some? then Err(DirError(t, d).value) else Ok(NamesOnly(Listing(ls[d].pages))))
  }

  method Change(ns: Namespace, op: Op) returns (r: Reply)
    requires ns.Valid() && Allowed(ns.View(), op, false) && NamesFit(op)
    modifies ns
    ensures ns.Valid() && ns.caching == old(ns.caching) && OpenKept(old(ns.open), old(ns.content), ns.open, ns.content)
    ensures Does(old(ns.View()), old(ns.layouts), op, ns.View(), ns.layouts, r)
  {
    hide Structure, CountsOk, StoreOk, CacheOk, Does, NamesIn;
    match op
    case CreateOp(p, n, kind) => r := ns.CreateNode(p, n, kind);
    case UnlinkOp(p, n) => r := ns.Unlink(p, n);
    case RmdirOp(p, n) => r := ns.Rmdir(p, n);
    case LinkOp(p, n, x) => r := ns.Link(p, n, x);
    case RenameOp(sp, sn, dp, dn) => r := ns.Rename(sp, sn, dp, dn);
    case OpenOp(id) => r := ns.Open(id);
    case CloseOp(id) => r := ns.Close(id);
  }

  method Serve(ns: Namespace, q: Request) returns (a: Answer)
    requires ns.Valid() && RequestOk(ns.View(), q)
    modifies ns
    ensures ns.Valid() && ns.caching == old(ns.caching)
    ensures Answers(old(ns.View()), old(ns.layouts), q, ns.View(), ns.layouts, a)
  {
    hide Structure, CountsOk, StoreOk, CacheOk, Does, NamesIn, Listing;
    match q
    case Change(op) =>
      var r := Change(ns, op);
      a := Replied(r);
    case LookupIn(d, n) =>
      KnownDir(ns.View(), d);
      var r := ns.Lookup(d, n);
      a := Found(r);
    case List(d) =>
      KnownDir(ns.View(), d);
      NamesAt(ns.layouts, d);
      var r := ns.Readdir(d);
      a := Listed(r);
  }

  lemma OneAnswer(t: Tree, ls: Layouts, q: Request, t1: Tree, ls1: Layouts, a1: Answer, t2: Tree, ls2: Layouts,
      a2: Answer)
    requires Answers(t, ls, q, t1, ls1, a1) && Answers(t, ls, q, t2, ls2, a2)
    ensures t1 == t2 && ls1 == ls2 && a1 == a2 && t1 == TreeAfter(t, q)
  {
    hide Matches, Apply, NamesIn, Listing;
  }

  /** Two namespaces that start alike give the same answers to any script, whether their caches are on or off. */
  method Lockstep(a: Namespace, b: Namespace, script: seq<Request>) returns (fromA: seq<Answer>, fromB: seq<Answer>)
    requires a != b && a.Valid() && b.Valid() && a.View() == b.View() && a.layouts == b.layouts
              && ScriptOk(a.View(), script)
    modifies a, b
    ensures |fromA| == |script| && fromA == fromB
    ensures a.Valid() && b.Valid() && a.View() == b.View() && a.layouts == b.layouts
  {
    hide Structure, CountsOk, StoreOk, CacheOk, NamesIn, Answers, RequestOk, TreeAfter;
    fromA, fromB := [], [];
    var i := 0;
    assert script[0..] == script;
    while i < |script|
      invariant 0 <= i <= |script| && |fromA| == i && fromA == fromB
      invariant a.Valid() && b.Valid() && a.View() == b.View() && a.layouts == b.layouts
                && ScriptOk(a.View(), script[i..])
    {
      ghost var t, ls := a.View(), a.layouts;
      assert script[i..][1..] == script[i + 1..];
      var x := Serve(a, script[i]);
      var y := Serve(b, script[i]);
      OneAnswer(t, ls, script[i], a.View(), a.layouts, x, b.View(), b.layouts, y);
      fromA, fromB := fromA + [x], fromB + [y];
      i := i + 1;
    }
  }

  /** A resident directory is what loading its stored pages would build. */
  lemma CacheMirrors(content: seq<Bytes>, ls: Layouts, cache: map<nat, Cached>, caching: bool, id: nat)
    requires StoreOk(content, ls) && CacheOk(cache, ls, caching) && id in cache
    ensures id < |content| && DecodePages(content[id]).Ok? && cache[id].layout == Built(DecodePages(content[id]).value)
  {
    hide LayoutOk, Holds, DecodePages, Built;
    Reloads(content[id], ls[id]);
  }
}
