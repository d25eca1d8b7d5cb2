/** The namespace as a state machine: inode slots, directory maps, the free list and open counts. */
module Trees {
  import opened Bytes
  import opened Directories
  import opened Inodes

  type Names = map<Name, nat>

  datatype Error = NoSuchInode | NotDir | Exists | NoInodes | NotFound | IsDir | NotEmpty | NotFile | Invalid

  datatype Reply = Done | Made(id: nat) | Failed(error: Error)

  const ROOT: nat := 0

  datatype Node = Node(kind: nat, nlink: nat, generation: nat)

  /** `names` has a map for every directory slot. */
  datatype Tree = Tree(slots: seq<Node>, names: map<nat, Names>, next: nat, free: seq<nat>, open: map<nat, nat>)

  predicate IsDirAt(t: Tree, d: nat) { d < |t.slots| && t.slots[d].kind == TYPE_DIR }

  predicate Live(t: Tree, id: nat) { id < t.next && id !in t.free }

  function OpenCount(t: Tree, id: nat): nat { if id in t.open then t.open[id] else 0 }

  // ----- names and edges -----

  function PutName(names: map<nat, Names>, d: nat, n: Name, id: nat): map<nat, Names>
    requires d in names
  {
    names[d := Put(names[d], n, id)]
  }

  function DropName(names: map<nat, Names>, d: nat, n: Name): map<nat, Names>
    requires d in names
  {
    names[d := names[d] - {n}]
  }

  /** The names of inode `x`: each a directory and a name in it. */
  ghost function Links(names: map<nat, Names>, x: nat): set<(nat, Name)> {
    set d, n | d in names && n in names[d] && names[d][n] == x :: (d, n)
  }

  /** Directory `a` has a name for directory `b`. */
  ghost predicate Edge(names: map<nat, Names>, a: nat, b: nat) {
    a in names && b in names && exists n :: n in names[a] && names[a][n] == b
  }

  ghost predicate Ranked(names: map<nat, Names>, rank: nat -> nat) {
    forall a, b :: Edge(names, a, b) ==> rank(a) < rank(b)
  }

  ghost predicate Acyclic(names: map<nat, Names>) { exists rank: nat -> nat :: Ranked(names, rank) }

  ghost predicate IsPath(names: map<nat, Names>, path: seq<nat>) {
    |path| > 0 && forall i :: 0 <= i < |path| - 1 ==> Edge(names, path[i], path[i + 1])
  }

  ghost predicate Joins(names: map<nat, Names>, path: seq<nat>, a: nat, b: nat) {
    IsPath(names, path) && path[0] == a && path[|path| - 1] == b
  }

  /** `b` lies in the subtree of `a`, `a` itself included. */
  ghost predicate Reaches(names: map<nat, Names>, a: nat, b: nat) { exists path :: Joins(names, path, a, b) }

  // ----- the operations -----

  function DirError(t: Tree, d: nat): Option<Error> {
    if d >= |t.slots| then Some(NoSuchInode)
    else if t.slots[d].kind != TYPE_DIR || d !in t.names then Some(NotDir)
    else None
  }

  /** Recycle a slot under a new generation. */
  function Reclaim(t: Tree, id: nat): Tree
    requires id < |t.slots|
  {
    t.(slots := t.slots[id := Node(0, 0, (t.slots[id].generation + 1) % U32)], names := t.names - {id},
      free := t.free + [id])
  }

  /** One name fewer: recycle the slot if that was the last and no handle is open. */
  function DropLink(t: Tree, id: nat): Tree
    requires id < |t.slots|
  {
    var left := if t.slots[id].nlink > 0 then t.slots[id].nlink - 1 else 0;
    if left == 0 && OpenCount(t, id) == 0 then Reclaim(t, id)
      else t.(slots := t.slots[id := t.slots[id].(nlink := left)])
  }

  function FreshId(t: Tree): nat { if t.free != [] then t.free[|t.free| - 1] else t.next }

  function Create(t: Tree, p: nat, n: Name, kind: nat): (Tree, Reply) {
    if DirError(t, p).Some? then (t, Failed(DirError(t, p).value))
    else if n in t.names[p] then (t, Failed(Exists))
    else if t.free == [] && t.next >= |t.slots| then (t, Failed(NoInodes))
    else if FreshId(t) >= |t.slots| then (t, Failed(NoSuchInode))
    else
      var id := FreshId(t);
      var child := Node(kind, if kind == TYPE_DIR then 2 else 1, t.slots[id].generation);
      var parent := if kind == TYPE_DIR then t.slots[p].(nlink := (t.slots[p].nlink + 1) % U32) else t.slots[p];
      var names := if kind == TYPE_DIR then t.names[id := map[]] else t.names;
      (Tree(t.slots[id := child][p := parent], PutName(names, p, n, id), if t.free == [] then t.next + 1 else t.next,
            if t.free == [] then [] else t.free[..|t.free| - 1], t.open),
       Made(id))
  }

  function Unlink(t: Tree, p: nat, n: Name): (Tree, Reply) {
    if DirError(t, p).Some? then (t, Failed(DirError(t, p).value))
    else if n !in t.names[p] then (t, Failed(NotFound))
    else
      var id := t.names[p][n];
      if id >= |t.slots| then (t, Failed(NoSuchInode))
      else if t.slots[id].kind == TYPE_DIR then (t, Failed(IsDir))
      else (DropLink(t.(names := DropName(t.names, p, n)), id), Done)
  }

  function Rmdir(t: Tree, p: nat, n: Name): (Tree, Reply) {
    if DirError(t, p).Some? then (t, Failed(DirError(t, p).value))
    else if n !in t.names[p] then (t, Failed(NotFound))
    else
      var id := t.names[p][n];
      if DirError(t, id).Some? then (t, Failed(DirError(t, id).value))
      else if t.names[id] != map[] then (t, Failed(NotEmpty))
      else
        var parent := t.slots[p].(nlink := if t.slots[p].nlink > 0 then t.slots[p].nlink - 1 else 0);
        (Reclaim(t.(slots := t.slots[p := parent], names := DropName(t.names, p, n)), id), Done)
  }

  function Link(t: Tree, p: nat, n: Name, x: nat): (Tree, Reply) {
    if x >= |t.slots| then (t, Failed(NoSuchInode))
    else if t.slots[x].kind == TYPE_DIR then (t, Failed(NotFile))
    else if DirError(t, p).Some? then (t, Failed(DirError(t, p).value))
    else if n in t.names[p] then (t, Failed(Exists))
    else
      (t.(slots := t.slots[x := t.slots[x].(nlink := (t.slots[x].nlink + 1) % U32)],
        names := PutName(t.names, p, n, x)), Done)
  }

  /** The refusals of rename, before the destination is looked at. */
  ghost function RenameError(t: Tree, sp: nat, sn: Name, dp: nat): Option<Error> {
    if DirError(t, sp).Some? then DirError(t, sp)
    else if sn !in t.names[sp] then Some(NotFound)
    else
      var id := t.names[sp][sn];
      if dp == id then Some(Invalid)
      else if sp != dp && id >= |t.slots| then Some(NoSuchInode)
      else if sp != dp && t.slots[id].kind == TYPE_DIR && Reaches(t.names, id, dp) then Some(Invalid)
      else DirError(t, dp)
  }

  /** Put the moved name in place; both parents' slots are written back as they were read at the start. */
  function Moved(t: Tree, t1: Tree, sp: nat, sn: Name, dp: nat, dn: Name, id: nat): Tree
    requires sp in t.names && dp in t.names && |t.slots| == |t1.slots| && sp < |t.slots| && dp < |t.slots|
  {
    var mid := t1.names[dp := t.names[dp] - {dn}];
    var mid := mid[sp := if sp == dp then mid[dp] else t.names[sp]];
    t1.(slots := t1.slots[dp := t.slots[dp]][sp := t.slots[sp]], names := DropName(PutName(mid, dp, dn, id), sp, sn))
  }

  ghost function Rename(t: Tree, sp: nat, sn: Name, dp: nat, dn: Name): (Tree, Reply) {
    if RenameError(t, sp, sn, dp).Some? then (t, Failed(RenameError(t, sp, sn, dp).value))
    else
      var id := t.names[sp][sn];
      if dn !in t.names[dp] then (Moved(t, t, sp, sn, dp, dn, id), Done)
      else
        var victim := t.names[dp][dn];
        if victim == id then (t, Done)
        else if victim >= |t.slots| then (t, Failed(NoSuchInode))
        else (Moved(t, DropLink(t, victim), sp, sn, dp, dn, id), Done)
  }

  function Open(t: Tree, id: nat): (Tree, Reply) {
    if id >= |t.slots| then (t, Failed(NoSuchInode))
    else if t.slots[id].kind != TYPE_REGULAR then (t, Failed(NotFile))
    else (t.(open := t.open[id := OpenCount(t, id) + 1]), Done)
  }

  /** Close one open handle on `id`; the last one recycles an inode that has lost its names. */
  function Close(t: Tree, id: nat): (Tree, Reply) {
    var left := if OpenCount(t, id) > 0 then OpenCount(t, id) - 1 else 0;
    if left > 0 then (t.(open := t.open[id := left]), Done)
    else
      var t1 := t.(open := t.open - {id});
      if id >= |t.slots| then (t1, Failed(NoSuchInode))
      else if t.slots[id].nlink == 0 then (Reclaim(t1, id), Done)
      else (t1, Done)
  }

  // ----- the invariant -----

  ghost predicate Shape(t: Tree) {
    && ROOT < t.next <= |t.slots|
    && (forall d :: d in t.names <==> IsDirAt(t, d))
    && (forall d :: d in t.names ==> Live(t, d))
    && ROOT in t.names
  }

  ghost predicate NoRepeats(s: seq<nat>) { forall i, j :: 0 <= i < j < |s| ==> s[i] != s[j] }

  ghost predicate FreeOk(t: Tree) {
    NoRepeats(t.free) && forall id :: id in t.free ==> id < t.next && id < |t.slots| && t.slots[id].nlink == 0
  }

  ghost predicate OpenOk(t: Tree) {
    forall id :: id in t.open ==> t.open[id] > 0 && Live(t, id) && id < |t.slots| && t.slots[id].kind == TYPE_REGULAR
  }

  /** No name points to a free slot or to the root. */
  ghost predicate Targets(t: Tree) {
    forall d, n :: d in t.names && n in t.names[d] ==> Live(t, t.names[d][n]) && t.names[d][n] != ROOT
  }

  /**
   With exact counts a directory has one name and anything else as many as its link count; with loose ones no more than
   that. What has no link left is open.
   */
  ghost predicate CountOk(t: Tree, x: nat, exact: bool)
    requires x < |t.slots|
  {
    var links := |Links(t.names, x)|;
    if t.slots[x].kind == TYPE_DIR then links <= 1 && (exact ==> links == if x == ROOT then 0 else 1)
    else
      && links <= t.slots[x].nlink < U32 && (exact ==> links == t.slots[x].nlink)
      && (t.slots[x].nlink > 0 || x in t.open)
  }

  ghost predicate CountsOk(t: Tree, but: set<nat>, exact: bool) {
    forall x: nat :: x < |t.slots| && Live(t, x) && x !in but ==> CountOk(t, x, exact)
  }

  ghost predicate Structure(t: Tree) { Shape(t) && FreeOk(t) && OpenOk(t) && Targets(t) && Acyclic(t.names) }

  ghost predicate Sound(t: Tree, exact: bool) { Structure(t) && CountsOk(t, {}, exact) }

  /** The full invariant. */
  ghost predicate Inv(t: Tree) { Sound(t, true) }

  /**
   What even a rename over a directory keeps: no cycles, each directory named at most once, no free id named or a
   directory.
   */
  ghost predicate Forest(t: Tree) { Sound(t, false) }

  lemma Loosen(t: Tree, exact: bool)
    requires Sound(t, exact)
    ensures Forest(t)
  {
    hide Structure, Links;
    forall x: nat | x < |t.slots| && Live(t, x) ensures CountOk(t, x, false) { assert CountOk(t, x, exact); }
  }

  // ----- counting names -----

  lemma LinksAfterPut(names: map<nat, Names>, d: nat, n: Name, id: nat, x: nat)
    requires d in names && n !in names[d]
    ensures Links(PutName(names, d, n, id), x) == Links(names, x) + if x == id then {(d, n)} else {}
    ensures (d, n) !in Links(names, x)
  {}

  lemma LinksAfterDrop(names: map<nat, Names>, d: nat, n: Name, x: nat)
    requires d in names && n in names[d]
    ensures Links(DropName(names, d, n), x) == Links(names, x) - {(d, n)}
    ensures (d, n) in Links(names, x) <==> names[d][n] == x
  {}

  lemma LinksWithEmpty(names: map<nat, Names>, d: nat, x: nat)
    requires d !in names
    ensures Links(names[d := map[]], x) == Links(names, x)
  {}

  lemma LinksWithoutEmpty(names: map<nat, Names>, d: nat, x: nat)
    requires d in names ==> names[d] == map[]
    ensures Links(names - {d}, x) == Links(names, x)
  {}

  /** Every name of a live inode is among its links, so an inode with none has no name. */
  lemma Unnamed(t: Tree, x: nat)
    requires Targets(t) && !Live(t, x)
    ensures Links(t.names, x) == {}
  {}

  // ----- acyclicity -----

  lemma FewerEdges(names: map<nat, Names>, names': map<nat, Names>)
    requires Acyclic(names) && forall a, b :: Edge(names', a, b) ==> Edge(names, a, b)
    ensures Acyclic(names')
  {
    var rank: nat -> nat :| Ranked(names, rank);
    assert Ranked(names', rank);
  }

  lemma DropEdges(names: map<nat, Names>, d: nat, n: Name)
    requires d in names
    ensures forall a, b :: Edge(DropName(names, d, n), a, b) ==> Edge(names, a, b)
  {}

  lemma PutFileEdges(names: map<nat, Names>, d: nat, n: Name, id: nat)
    requires d in names && id !in names
    ensures forall a, b :: Edge(PutName(names, d, n, id), a, b) ==> Edge(names, a, b)
  {
    var names' := PutName(names, d, n, id);
    forall a, b | Edge(names', a, b) ensures Edge(names, a, b) {
      var m :| m in names'[a] && names'[a][m] == b;
      assert m in names[a] && names[a][m] == b;
    }
  }

  lemma LessEdges(names: map<nat, Names>, d: nat)
    ensures forall a, b :: Edge(names - {d}, a, b) ==> Edge(names, a, b)
  {}

  /** A new empty directory may be given any one name. */
  lemma PutFreshDir(names: map<nat, Names>, d: nat, n: Name, id: nat)
    requires d in names && id !in names && Acyclic(names) && Links(names, id) == {}
    ensures Acyclic(PutName(names[id := map[]], d, n, id))
  {
    var rank: nat -> nat :| Ranked(names, rank);
    var rank' := (x: nat) => if x == id then rank(d) + 1 else rank(x);
    var names' := PutName(names[id := map[]], d, n, id);
    forall a, b | Edge(names', a, b) ensures rank'(a) < rank'(b) {
      var m :| m in names'[a] && names'[a][m] == b;
      if (a, m) != (d, n) {
        assert m in names[a] && names[a][m] == b;
        assert (a, m) in Links(names, b);
        assert Edge(names, a, b);
      }
    }
    assert Ranked(names', rank');
  }

  lemma ReachesSelf(names: map<nat, Names>, a: nat)
    ensures Reaches(names, a, a)
  {
    assert Joins(names, [a], a, a);
  }

  lemma ReachesMore(names: map<nat, Names>, a: nat, b: nat, c: nat)
    requires Reaches(names, a, b) && Edge(names, b, c)
    ensures Reaches(names, a, c)
  {
    var path :| Joins(names, path, a, b);
    assert Joins(names, path + [c], a, c);
  }

  /**
   Moving directory `x` under `q` keeps the graph acyclic when `q` is not in the subtree of `x`: the subtree is ranked
   below `q`.
   */
  lemma MoveKeepsAcyclic(names: map<nat, Names>, names': map<nat, Names>, x: nat, q: nat)
    requires Acyclic(names) && !Reaches(names, x, q)
    requires forall a, b :: Edge(names', a, b) ==> Edge(names, a, b) || (a == q && b == x)
    ensures Acyclic(names')
  {
    hide Edge, Reaches;
    var rank: nat -> nat :| Ranked(names, rank);
    var rank' := LiftedRank(names, rank, x, q);
    forall a, b | Edge(names', a, b) ensures rank'(a) < rank'(b) {
      if a == q && b == x {
        ReachesSelf(names, x);
      } else {
        assert Edge(names, a, b);
        if Reaches(names, x, a) { ReachesMore(names, x, a, b); }
      }
    }
    assert Ranked(names', rank');
  }

  ghost function LiftedRank(names: map<nat, Names>, rank: nat -> nat, x: nat, q: nat): nat -> nat {
    (v: nat) => if Reaches(names, x, v) then rank(v) + rank(q) + 1 else rank(v)
  }

  lemma {:induction false} RankAlong(names: map<nat, Names>, rank: nat -> nat, path: seq<nat>)
    requires Ranked(names, rank) && IsPath(names, path)
    ensures rank(path[0]) + |path| - 1 <= rank(path[|path| - 1])
  {
    if |path| > 1 {
      var front := path[..|path| - 1];
      RankAlong(names, rank, front);
      assert Edge(names, path[|path| - 2], path[|path| - 1]);
    }
  }

  /** An acyclic graph has no directory among its own descendants. */
  lemma NoCycle(names: map<nat, Names>, a: nat, path: seq<nat>)
    requires Acyclic(names) && Joins(names, path, a, a)
    ensures path == [a]
  {
    var rank: nat -> nat :| Ranked(names, rank);
    RankAlong(names, rank, path);
  }

  // ----- every operation keeps the invariant -----

  ghost predicate SoundBut(t: Tree, v: nat, exact: bool) { Structure(t) && CountsOk(t, {v}, exact) }

  lemma LinksWithout(names: map<nat, Names>, d: nat, x: nat)
    ensures Links(names - {d}, x) <= Links(names, x)
    ensures |Links(names - {d}, x)| <= |Links(names, x)|
  {
    Smaller(Links(names - {d}, x), Links(names, x));
  }

  /** An inode with no name and no handle may be recycled; counts stay exact if it holds no names itself. */
  lemma ReclaimKeeps(t: Tree, v: nat, exact: bool)
    requires SoundBut(t, v, exact) && Live(t, v) && v != ROOT && v !in t.open && Links(t.names, v) == {}
    requires exact && v in t.names ==> t.names[v] == map[]
    ensures Sound(Reclaim(t, v), exact)
  {
    hide Acyclic, Links, CountsOk;
    var t' := Reclaim(t, v);
    forall d, n | d in t'.names && n in t'.names[d] ensures Live(t', t'.names[d][n]) && t'.names[d][n] != ROOT {
      NamedBy(t.names, d, n);
    }
    LessEdges(t.names, v);
    FewerEdges(t.names, t'.names);
    assert FreeOk(t') by { FreeMore(t.free, v); }
    ReclaimCounts(t, v, exact);
  }

  lemma ReclaimCounts(t: Tree, v: nat, exact: bool)
    requires SoundBut(t, v, exact) && Live(t, v) && v < |t.slots| && (exact && v in t.names ==> t.names[v] == map[])
    ensures CountsOk(Reclaim(t, v), {}, exact)
  {
    hide Structure, Links;
    var t' := Reclaim(t, v);
    forall x: nat | x < |t'.slots| && Live(t', x) ensures CountOk(t', x, exact) {
      assert Live(t, x) && x != v && CountOk(t, x, exact);
      LinksWithout(t.names, v, x);
      if exact { LinksWithoutEmpty(t.names, v, x); }
    }
  }

  lemma NamedBy(names: map<nat, Names>, d: nat, n: Name)
    requires d in names && n in names[d]
    ensures (d, n) in Links(names, names[d][n])
  {}

  lemma FreeMore(free: seq<nat>, v: nat)
    requires NoRepeats(free) && v !in free
    ensures NoRepeats(free + [v])
  {}

  lemma DropLinkKeeps(t: Tree, v: nat, exact: bool)
    requires SoundBut(t, v, exact) && Live(t, v) && v !in t.names && |Links(t.names, v)| + 1 <= t.slots[v].nlink < U32
    requires exact ==> |Links(t.names, v)| + 1 == t.slots[v].nlink
    ensures Sound(DropLink(t, v), exact)
  {
    hide Acyclic, Links;
    if t.slots[v].nlink == 1 && v !in t.open {
      assert Links(t.names, v) == {};
      ReclaimKeeps(t, v, exact);
    } else {
      var t' := DropLink(t, v);
      forall x: nat | x < |t'.slots| && Live(t', x) ensures CountOk(t', x, exact) {
        assert x != v ==> CountOk(t, x, exact);
      }
    }
  }

  lemma UnlinkKeeps(t: Tree, p: nat, n: Name, exact: bool)
    requires Sound(t, exact)
    ensures Sound(Unlink(t, p, n).0, exact)
  {
    hide Acyclic, Links;
    if DirError(t, p).None? && n in t.names[p] && !IsDirAt(t, t.names[p][n]) {
      UnnameKeeps(t, p, n, exact);
      DropLinkKeeps(t.(names := DropName(t.names, p, n)), t.names[p][n], exact);
    }
  }

  /** Losing one name leaves only that inode's count to be mended. */
  lemma UnnameKeeps(t: Tree, d: nat, n: Name, exact: bool)
    requires Sound(t, exact) && d in t.names && n in t.names[d]
    ensures var v := t.names[d][n]; var t' := t.(names := DropName(t.names, d, n));
            && SoundBut(t', v, exact) && Live(t', v) && v != ROOT && v < |t.slots| && CountOk(t, v, exact)
            && |Links(t'.names, v)| + 1 == |Links(t.names, v)| && (v in t'.names <==> v in t.names)
            && (d == v || v !in t.names || t'.names[v] == t.names[v])
  {
    hide Acyclic, Links, CountsOk, Edge;
    var v := t.names[d][n];
    var t' := t.(names := DropName(t.names, d, n));
    DropEdges(t.names, d, n);
    FewerEdges(t.names, t'.names);
    UnnameCounts(t, d, n, exact);
    LinksAfterDrop(t.names, d, n, v);
  }

  lemma UnnameCounts(t: Tree, d: nat, n: Name, exact: bool)
    requires Sound(t, exact) && d in t.names && n in t.names[d]
    ensures var v := t.names[d][n];
            CountsOk(t.(names := DropName(t.names, d, n)), {v}, exact) && v < |t.slots| && CountOk(t, v, exact)
  {
    hide Acyclic, Links, OpenOk, FreeOk;
    var v := t.names[d][n];
    var t' := t.(names := DropName(t.names, d, n));
    forall x: nat | x < |t'.slots| && Live(t', x) && x != v ensures CountOk(t', x, exact) {
      LinksAfterDrop(t.names, d, n, x);
      assert CountOk(t, x, exact);
    }
    assert Live(t, v);
  }

  lemma NoSelfName(t: Tree, d: nat, n: Name)
    requires Acyclic(t.names) && d in t.names && n in t.names[d]
    ensures t.names[d][n] != d
  {
    var rank: nat -> nat :| Ranked(t.names, rank);
    if t.names[d][n] == d { assert Edge(t.names, d, d); }
  }

  /** Link counts of directories are not part of the invariant. */
  lemma DirLinksFree(t: Tree, but: set<nat>, d: nat, nlink: nat, exact: bool)
    requires Structure(t) && CountsOk(t, but, exact) && d in t.names
    ensures var t' := t.(slots := t.slots[d := t.slots[d].(nlink := nlink)]); Structure(t') && CountsOk(t', but, exact)
  {
    hide Acyclic, Links;
    var t' := t.(slots := t.slots[d := t.slots[d].(nlink := nlink)]);
    forall x: nat | x < |t'.slots| && Live(t', x) && x !in but ensures CountOk(t', x, exact) {
      assert CountOk(t, x, exact);
    }
  }

  lemma RmdirKeeps(t: Tree, p: nat, n: Name, exact: bool)
    requires Sound(t, exact)
    ensures Sound(Rmdir(t, p, n).0, exact)
  {
    hide Acyclic, Links, CountsOk, FreeOk, Targets;
    if DirError(t, p).None? && n in t.names[p] && DirError(t, t.names[p][n]).None? && t.names[t.names[p][n]] == map[] {
      var id := t.names[p][n];
      UnnameKeeps(t, p, n, exact);
      NoSelfName(t, p, n);
      var t1 := t.(names := DropName(t.names, p, n));
      var left := if t.slots[p].nlink > 0 then t.slots[p].nlink - 1 else 0;
      DirLinksFree(t1, {id}, p, left, exact);
      assert |Links(t1.names, id)| == 0;
      ReclaimKeeps(t1.(slots := t1.slots[p := t1.slots[p].(nlink := left)]), id, exact);
    }
  }

  lemma CreateKeeps(t: Tree, p: nat, n: Name, kind: nat, exact: bool)
    requires Sound(t, exact)
    ensures Sound(Create(t, p, n, kind).0, exact)
  {
    hide Acyclic, Links;
    if Create(t, p, n, kind).1.Made? {
      FreshIsNew(t);
      CreateLive(t, p, n, kind);
      CreateShape(t, p, n, kind);
      CreateTargets(t, p, n, kind);
      CreateCounts(t, p, n, kind, exact);
      CreateAcyclic(t, p, n, kind);
    }
  }

  lemma FreshIsNew(t: Tree)
    requires Structure(t) && (t.free != [] || t.next < |t.slots|)
    ensures FreshId(t) < |t.slots| && !Live(t, FreshId(t)) && FreshId(t) !in t.names && FreshId(t) !in t.open
    ensures Links(t.names, FreshId(t)) == {}
  {
    hide Acyclic, Links;
    Unnamed(t, FreshId(t));
  }

  ghost predicate TakesId(t: Tree, next: nat, rest: seq<nat>) {
    && (forall x: nat :: x < next && x !in rest <==> Live(t, x) || x == FreshId(t))
    && NoRepeats(rest) && (forall x :: x in rest ==> x in t.free && x != FreshId(t)) && t.next <= next
  }

  /** Taking an id makes it live and nothing else. */
  lemma TakeId(t: Tree)
    requires FreeOk(t)
    ensures TakesId(t, if t.free == [] then t.next + 1 else t.next, if t.free == [] then [] else t.free[..|t.free| - 1])
  {
    if t.free != [] {
      var k := |t.free| - 1;
      var rest := t.free[..k];
      assert t.free == rest + [t.free[k]];
      assert forall x :: x in t.free <==> x in rest || x == t.free[k];
      assert t.free[k] in t.free && t.free[k] !in rest;
    }
  }

  lemma CreateLive(t: Tree, p: nat, n: Name, kind: nat)
    requires Structure(t) && Create(t, p, n, kind).1.Made?
    ensures var t' := Create(t, p, n, kind).0; forall x: nat :: Live(t', x) <==> Live(t, x) || x == FreshId(t)
    ensures FreeOk(Create(t, p, n, kind).0)
  {
    hide Acyclic, Targets, NoRepeats, OpenOk;
    TakeId(t);
  }

  lemma CreateShape(t: Tree, p: nat, n: Name, kind: nat)
    requires Structure(t) && Create(t, p, n, kind).1.Made?
    ensures var t' := Create(t, p, n, kind).0; Shape(t') && OpenOk(t')
  {
    hide Acyclic, Links, Targets, NoRepeats, Live, FreeOk;
    FreshIsNew(t);
    CreateLive(t, p, n, kind);
  }

  lemma CreateTargets(t: Tree, p: nat, n: Name, kind: nat)
    requires Structure(t) && Create(t, p, n, kind).1.Made?
    ensures Targets(Create(t, p, n, kind).0)
  {
    hide Acyclic, Links, FreeOk, OpenOk, Live;
    FreshIsNew(t);
    CreateLive(t, p, n, kind);
    var t' := Create(t, p, n, kind).0;
    forall d, m | d in t'.names && m in t'.names[d] ensures Live(t', t'.names[d][m]) && t'.names[d][m] != ROOT {
      if d != FreshId(t) && (d, m) != (p, n) { assert t'.names[d][m] == t.names[d][m]; }
    }
  }

  lemma CreateCounts(t: Tree, p: nat, n: Name, kind: nat, exact: bool)
    requires Sound(t, exact) && Create(t, p, n, kind).1.Made?
    ensures CountsOk(Create(t, p, n, kind).0, {}, exact)
  {
    hide Acyclic, Links, Targets, Live;
    FreshIsNew(t);
    CreateLive(t, p, n, kind);
    var id := FreshId(t);
    var t' := Create(t, p, n, kind).0;
    var names := if kind == TYPE_DIR then t.names[id := map[]] else t.names;
    assert p != id;
    forall x: nat | x < |t'.slots| && Live(t', x) ensures CountOk(t', x, exact) {
      LinksWithEmpty(t.names, id, x);
      LinksAfterPut(names, p, n, id, x);
      if x != id { assert CountOk(t, x, exact); }
    }
  }

  lemma CreateAcyclic(t: Tree, p: nat, n: Name, kind: nat)
    requires Structure(t) && Create(t, p, n, kind).1.Made?
    ensures Acyclic(Create(t, p, n, kind).0.names)
  {
    hide Acyclic, Links;
    FreshIsNew(t);
    if kind == TYPE_DIR {
      PutFreshDir(t.names, p, n, FreshId(t));
    } else {
      PutFileEdges(t.names, p, n, FreshId(t));
      FewerEdges(t.names, PutName(t.names, p, n, FreshId(t)));
    }
  }

  /** A link is made: the target is a slot that is no directory, the parent a directory without the name. */
  ghost predicate MakesLink(t: Tree, p: nat, n: Name, x: nat) {
    x < |t.slots| && t.slots[x].kind != TYPE_DIR && DirError(t, p).None? && n !in t.names[p]
  }

  ghost predicate Linkable(t: Tree, x: nat) { x < |t.slots| && Live(t, x) && t.slots[x].nlink + 1 < U32 }

  /** A link keeps the invariant exactly when the target of a link that is made is live and its count does not wrap. */
  lemma LinkKeeps(t: Tree, p: nat, n: Name, x: nat, exact: bool)
    requires Sound(t, exact)
    ensures Link(t, p, n, x).1.Done? <==> MakesLink(t, p, n, x)
    ensures Sound(Link(t, p, n, x).0, exact) <==> (MakesLink(t, p, n, x) ==> Linkable(t, x))
  {
    hide Structure, CountsOk;
    if Link(t, p, n, x).1.Done? {
      if Linkable(t, x) { LinkGood(t, p, n, x, exact); } else { LinkBad(t, p, n, x, exact); }
    }
  }

  lemma LinkCounts(t: Tree, p: nat, n: Name, x: nat)
    requires Structure(t) && Link(t, p, n, x).1.Done?
    ensures |Links(Link(t, p, n, x).0.names, x)| == |Links(t.names, x)| + 1
    ensures forall y: nat :: y != x ==> Links(Link(t, p, n, x).0.names, y) == Links(t.names, y)
  {
    hide Acyclic, Links, Targets, FreeOk, OpenOk;
    LinksAfterPut(t.names, p, n, x, x);
    forall y: nat | y != x ensures Links(Link(t, p, n, x).0.names, y) == Links(t.names, y) {
      LinksAfterPut(t.names, p, n, x, y);
    }
  }

  lemma LinkGood(t: Tree, p: nat, n: Name, x: nat, exact: bool)
    requires Sound(t, exact) && Link(t, p, n, x).1.Done? && Linkable(t, x)
    ensures Sound(Link(t, p, n, x).0, exact)
  {
    hide Acyclic, Links, CountsOk, Edge;
    assert x !in t.names;
    PutFileEdges(t.names, p, n, x);
    FewerEdges(t.names, PutName(t.names, p, n, x));
    LinkCountsOk(t, p, n, x, exact);
  }

  lemma LinkCountsOk(t: Tree, p: nat, n: Name, x: nat, exact: bool)
    requires Sound(t, exact) && Link(t, p, n, x).1.Done? && Linkable(t, x)
    ensures CountsOk(Link(t, p, n, x).0, {}, exact)
  {
    hide Acyclic, Links, Targets, FreeOk, OpenOk;
    var t' := Link(t, p, n, x).0;
    LinkCounts(t, p, n, x);
    assert CountOk(t, x, exact);
    forall y: nat | y < |t'.slots| && Live(t', y) && y != x ensures CountOk(t', y, exact) {
      assert CountOk(t, y, exact);
    }
  }

  lemma LinkBad(t: Tree, p: nat, n: Name, x: nat, exact: bool)
    requires Sound(t, exact) && Link(t, p, n, x).1.Done? && !Linkable(t, x)
    ensures !Sound(Link(t, p, n, x).0, exact)
  {
    hide Acyclic, Links;
    var t' := Link(t, p, n, x).0;
    if Live(t, x) {
      LinkCounts(t, p, n, x);
      assert CountOk(t, x, exact) && Live(t', x) && !CountOk(t', x, exact);
    } else {
      assert t'.names[p][n] == x && !Live(t', x);
    }
  }

  /** Opening keeps the invariant exactly when the inode is live: a free slot looks like an empty regular file. */
  lemma OpenKeeps(t: Tree, id: nat, exact: bool)
    requires Sound(t, exact)
    ensures Sound(Open(t, id).0, exact) <==> (id < |t.slots| && t.slots[id].kind == TYPE_REGULAR ==> Live(t, id))
  {
    hide Acyclic, Links;
    var t' := Open(t, id).0;
    if Open(t, id).1.Done? {
      assert id in t'.open;
      forall x: nat | x < |t'.slots| && Live(t', x) ensures CountOk(t', x, exact) { assert CountOk(t, x, exact); }
    }
  }

  lemma CloseOpen(t: Tree, id: nat, exact: bool)
    requires Sound(t, exact) && id in t.open
    ensures Sound(Close(t, id).0, exact)
  {
    hide Acyclic, Links;
    if t.open[id] == 1 {
      var t1 := t.(open := t.open - {id});
      forall x: nat | x < |t1.slots| && Live(t1, x) && x != id ensures CountOk(t1, x, exact) {
        assert CountOk(t, x, exact);
      }
      assert CountOk(t, id, exact) && SoundBut(t1, id, exact);
      if t.slots[id].nlink == 0 {
        assert id !in t.names;
        ReclaimKeeps(t1, id, exact);
      } else {
        assert CountOk(t1, id, exact);
      }
    } else {
      var t' := Close(t, id).0;
      forall x: nat | x < |t'.slots| && Live(t', x) ensures CountOk(t', x, exact) { assert CountOk(t, x, exact); }
    }
  }

  /** Closing an id keeps the invariant exactly when it is open, or names no slot without links. */
  lemma CloseKeeps(t: Tree, id: nat)
    requires Inv(t)
    ensures Inv(Close(t, id).0) <==> id in t.open || id >= |t.slots| || t.slots[id].nlink > 0
  {
    hide Structure, CountsOk;
    if id in t.open {
      CloseOpen(t, id, true);
    } else {
      assert t.open - {id} == t.open;
      if id < |t.slots| && t.slots[id].nlink == 0 { CloseUnopened(t, id); }
    }
  }

  lemma CloseUnopened(t: Tree, id: nat)
    requires Inv(t) && id !in t.open && id < |t.slots| && t.slots[id].nlink == 0
    ensures !Inv(Reclaim(t, id))
  {
    hide Acyclic, Links;
    var t' := Reclaim(t, id);
    if Live(t, id) {
      assert CountOk(t, id, true);
      if id != ROOT {
        var (d, n) := SomeLink(t.names, id);
        NoSelfName(t, d, n);
        assert d in t'.names && n in t'.names[d] && t'.names[d][n] == id && id in t'.free;
      }
    } else if id in t.free {
      var i :| 0 <= i < |t.free| && t.free[i] == id;
      assert t'.free[i] == t'.free[|t.free|];
    } else {
      assert id in t'.free;
    }
  }

  // ----- rename -----

  lemma {:induction false} PathFewer(names: map<nat, Names>, names': map<nat, Names>, a: nat, b: nat)
    requires forall x, y :: Edge(names', x, y) ==> Edge(names, x, y)
    ensures Reaches(names', a, b) ==> Reaches(names, a, b)
  {
    hide Edge;
    if Reaches(names', a, b) {
      var path :| Joins(names', path, a, b);
      assert Joins(names, path, a, b);
    }
  }

  /** Give `id` its new name and take the old one away. */
  ghost function Swung(t: Tree, sp: nat, sn: Name, dp: nat, dn: Name): Tree
    requires sp in t.names && sn in t.names[sp] && dp in t.names
  {
    t.(names := DropName(PutName(t.names, dp, dn, t.names[sp][sn]), sp, sn))
  }

  lemma SwungCounts(t: Tree, sp: nat, sn: Name, dp: nat, dn: Name)
    requires sp in t.names && sn in t.names[sp] && dp in t.names && dn !in t.names[dp]
    ensures forall x: nat :: |Links(Swung(t, sp, sn, dp, dn).names, x)| == |Links(t.names, x)|
  {
    hide Links;
    var id := t.names[sp][sn];
    var mid := PutName(t.names, dp, dn, id);
    forall x: nat ensures |Links(Swung(t, sp, sn, dp, dn).names, x)| == |Links(t.names, x)| {
      LinksAfterPut(t.names, dp, dn, id, x);
      LinksAfterDrop(mid, sp, sn, x);
      NamedBy(t.names, sp, sn);
    }
  }

  lemma SwungEdges(t: Tree, sp: nat, sn: Name, dp: nat, dn: Name)
    requires sp in t.names && sn in t.names[sp] && dp in t.names
    ensures forall a, b :: Edge(Swung(t, sp, sn, dp, dn).names, a, b) ==>
              Edge(t.names, a, b) || (a == dp && b == t.names[sp][sn])
  {
    var names' := Swung(t, sp, sn, dp, dn).names;
    forall a, b | Edge(names', a, b) ensures Edge(t.names, a, b) || (a == dp && b == t.names[sp][sn]) {
      var m :| m in names'[a] && names'[a][m] == b;
      if (a, m) != (dp, dn) { assert m in t.names[a] && t.names[a][m] == b; }
    }
  }

  lemma SwungAcyclic(t: Tree, sp: nat, sn: Name, dp: nat, dn: Name)
    requires Acyclic(t.names) && sp in t.names && sn in t.names[sp] && dp in t.names
    requires sp == dp || t.names[sp][sn] !in t.names || !Reaches(t.names, t.names[sp][sn], dp)
    ensures Acyclic(Swung(t, sp, sn, dp, dn).names)
  {
    hide Acyclic, Reaches;
    var id := t.names[sp][sn];
    var names' := Swung(t, sp, sn, dp, dn).names;
    SwungEdges(t, sp, sn, dp, dn);
    if sp == dp || id !in t.names {
      forall a, b | Edge(names', a, b) ensures Edge(t.names, a, b) {
        if a == dp && b == id { assert Edge(t.names, sp, id); }
      }
      FewerEdges(t.names, names');
    } else {
      MoveKeepsAcyclic(t.names, names', id, dp);
    }
  }

  lemma SwungKeeps(t: Tree, sp: nat, sn: Name, dp: nat, dn: Name, exact: bool)
    requires Sound(t, exact) && sp in t.names && sn in t.names[sp] && dp in t.names && dn !in t.names[dp]
    requires sp == dp || t.names[sp][sn] !in t.names || !Reaches(t.names, t.names[sp][sn], dp)
    ensures Sound(Swung(t, sp, sn, dp, dn), exact)
  {
    hide Acyclic, Links, Reaches, CountsOk, Targets;
    SwungAcyclic(t, sp, sn, dp, dn);
    SwungCountsOk(t, sp, sn, dp, dn, exact);
    SwungTargets(t, sp, sn, dp, dn);
  }

  lemma SwungCountsOk(t: Tree, sp: nat, sn: Name, dp: nat, dn: Name, exact: bool)
    requires CountsOk(t, {}, exact) && sp in t.names && sn in t.names[sp] && dp in t.names && dn !in t.names[dp]
    ensures CountsOk(Swung(t, sp, sn, dp, dn), {}, exact)
  {
    hide Links;
    var t' := Swung(t, sp, sn, dp, dn);
    SwungCounts(t, sp, sn, dp, dn);
    forall x: nat | x < |t'.slots| && Live(t', x) ensures CountOk(t', x, exact) { assert CountOk(t, x, exact); }
  }

  lemma SwungTargets(t: Tree, sp: nat, sn: Name, dp: nat, dn: Name)
    requires Targets(t) && sp in t.names && sn in t.names[sp] && dp in t.names
    ensures Targets(Swung(t, sp, sn, dp, dn))
  {
    var t' := Swung(t, sp, sn, dp, dn);
    forall d, m | d in t'.names && m in t'.names[d] ensures Live(t', t'.names[d][m]) && t'.names[d][m] != ROOT {
      if (d, m) != (dp, dn) { assert t'.names[d][m] == t.names[d][m]; }
    }
  }

  /** The rename goes ahead and replaces something other than what it moves. */
  ghost predicate Replaces(t: Tree, sp: nat, sn: Name, dp: nat, dn: Name) {
    RenameError(t, sp, sn, dp).None? && dn in t.names[dp] && t.names[dp][dn] != t.names[sp][sn]
  }

  /** Dropping a link recycles the inode. */
  ghost predicate Recycles(t: Tree, v: nat) {
    v < |t.slots| && t.slots[v].nlink <= 1 && OpenCount(t, v) == 0
  }

  /** It replaces nothing, something that is not a directory, or an empty directory on its last link. */
  ghost predicate CleanRename(t: Tree, sp: nat, sn: Name, dp: nat, dn: Name) {
    Replaces(t, sp, sn, dp, dn) ==>
      var v := t.names[dp][dn]; v < |t.slots| && (v in t.names ==> t.slots[v].nlink <= 1 && t.names[v] == map[])
  }

  /** It does not recycle the directory it moves out of. */
  ghost predicate SafeRename(t: Tree, sp: nat, sn: Name, dp: nat, dn: Name) {
    Replaces(t, sp, sn, dp, dn) ==> var v := t.names[dp][dn]; v < |t.slots| && !(v == sp && t.slots[v].nlink <= 1)
  }

  lemma CleanIsSafe(t: Tree, sp: nat, sn: Name, dp: nat, dn: Name)
    requires Structure(t) && CleanRename(t, sp, sn, dp, dn)
    ensures SafeRename(t, sp, sn, dp, dn)
  {
    hide Acyclic, Reaches;
  }

  /** The state once the replaced name is gone. */
  ghost function Cleared(t: Tree, dp: nat, dn: Name): Tree
    requires dp in t.names && dn in t.names[dp] && t.names[dp][dn] < |t.slots|
  {
    DropLink(t.(names := DropName(t.names, dp, dn)), t.names[dp][dn])
  }

  lemma ClearedKeeps(t: Tree, dp: nat, dn: Name, exact: bool)
    requires Sound(t, exact) && dp in t.names && dn in t.names[dp] && t.names[dp][dn] < |t.slots|
    requires exact && t.names[dp][dn] in t.names ==>
              t.slots[t.names[dp][dn]].nlink <= 1 && t.names[t.names[dp][dn]] == map[]
    ensures Sound(Cleared(t, dp, dn), exact)
  {
    hide Acyclic, Links, CountsOk, Targets;
    var v := t.names[dp][dn];
    UnnameKeeps(t, dp, dn, exact);
    NoSelfName(t, dp, dn);
    var t1 := t.(names := DropName(t.names, dp, dn));
    if v in t.names {
      assert v !in t.open && |Links(t1.names, v)| == 0;
      if t.slots[v].nlink <= 1 {
        ReclaimKeeps(t1, v, exact);
      } else {
        LooseDir(t1, v);
        DirLinksFree(t1, {}, v, t.slots[v].nlink - 1, false);
      }
    } else {
      DropLinkKeeps(t1, v, exact);
    }
  }

  /** A directory without a name is still loosely counted. */
  lemma LooseDir(t: Tree, v: nat)
    requires SoundBut(t, v, false) && v in t.names && Links(t.names, v) == {}
    ensures Sound(t, false)
  {
    hide Structure, Links;
    assert v < |t.slots| && t.slots[v].kind == TYPE_DIR by { ShapeOf(t); }
  }

  lemma ShapeOf(t: Tree)
    requires Structure(t)
    ensures Shape(t)
  {}

  /** What dropping the link does to the directory maps. */
  ghost function Gone(t: Tree, v: nat): set<nat> { if Recycles(t, v) then {v} else {} }

  lemma ClearedNames(t: Tree, dp: nat, dn: Name)
    requires Structure(t) && dp in t.names && dn in t.names[dp] && t.names[dp][dn] < |t.slots|
    ensures var v := t.names[dp][dn];
            && DropLink(t, v).names == t.names - Gone(t, v) && v != dp
            && Cleared(t, dp, dn) == DropLink(t, v).(names := DropName(t.names, dp, dn) - Gone(t, v))
  {
    hide Acyclic, Links, Targets;
    NoSelfName(t, dp, dn);
    assert t.names - {} == t.names && DropName(t.names, dp, dn) - {} == DropName(t.names, dp, dn);
  }

  lemma DropLinkSlots(t: Tree, v: nat, d: nat)
    requires v < |t.slots| && d < |t.slots|
    ensures |DropLink(t, v).slots| == |t.slots| && (d != v ==> DropLink(t, v).slots[d] == t.slots[d])
    ensures !Recycles(t, v) ==>
              DropLink(t, v).slots == t.slots[v := t.slots[v].(nlink := DropLink(t, v).slots[v].nlink)]
  {}

  lemma MovedNames(names: map<nat, Names>, gone: set<nat>, sp: nat, dp: nat, dn: Name)
    requires sp in names && dp in names && sp !in gone && dp !in gone
    ensures var mid := (names - gone)[dp := names[dp] - {dn}];
            mid[sp := if sp == dp then mid[dp] else names[sp]] == DropName(names, dp, dn) - gone
  {}

  /**
   Replacing first and moving afterwards is what rename does, but for the link count of the directory moved out of.
   */
  lemma RenameIs(t: Tree, sp: nat, sn: Name, dp: nat, dn: Name)
    requires Structure(t) && Replaces(t, sp, sn, dp, dn) && SafeRename(t, sp, sn, dp, dn)
    ensures Rename(t, sp, sn, dp, dn).1.Done?
    ensures var t1 := Cleared(t, dp, dn);
            && sp in t1.names && sn in t1.names[sp] && t1.names[sp][sn] == t.names[sp][sn]
            && dp in t1.names && dn !in t1.names[dp] && sp < |t1.slots| && t1.slots[sp].kind == t.slots[sp].kind
            && t1.slots[sp].generation == t.slots[sp].generation
            && Rename(t, sp, sn, dp, dn).0 == Swung(t1, sp, sn, dp, dn).(slots := t1.slots[sp := t.slots[sp]])
  {
    hide Structure, Cleared, DropLink, Reaches;
    var v := t.names[dp][dn];
    ClearedNames(t, dp, dn);
    DropLinkSlots(t, v, sp);
    DropLinkSlots(t, v, dp);
    var t1 := Cleared(t, dp, dn);
    var t' := Rename(t, sp, sn, dp, dn).0;
    MovedNames(t.names, Gone(t, v), sp, dp, dn);
    assert t'.slots == t1.slots[sp := t.slots[sp]];
  }

  lemma ClearedEdges(t: Tree, dp: nat, dn: Name)
    requires Structure(t) && dp in t.names && dn in t.names[dp] && t.names[dp][dn] < |t.slots|
    ensures forall a, b :: Edge(Cleared(t, dp, dn).names, a, b) ==> Edge(t.names, a, b)
  {
    hide Structure, Edge, Cleared, DropLink;
    ClearedNames(t, dp, dn);
    DropEdges(t.names, dp, dn);
    LessEdges(DropName(t.names, dp, dn), t.names[dp][dn]);
    assert DropName(t.names, dp, dn) - {} == DropName(t.names, dp, dn);
  }

  /** What a rename keeps: full counts when it is clean, loose ones whenever it is safe. */
  lemma RenameGood(t: Tree, sp: nat, sn: Name, dp: nat, dn: Name, exact: bool)
    requires Sound(t, exact) && (if exact then CleanRename(t, sp, sn, dp, dn) else SafeRename(t, sp, sn, dp, dn))
    ensures Sound(Rename(t, sp, sn, dp, dn).0, exact)
  {
    hide Acyclic, Links, Reaches, Edge, CountsOk;
    if RenameError(t, sp, sn, dp).None? {
      var id := t.names[sp][sn];
      assert sp == dp || id !in t.names || !Reaches(t.names, id, dp);
      if dn !in t.names[dp] {
        SwungKeeps(t, sp, sn, dp, dn, exact);
        RenameIsSwung(t, sp, sn, dp, dn);
      } else if t.names[dp][dn] != id {
        RenameReplaces(t, sp, sn, dp, dn, exact);
      }
    }
  }

  lemma RenameReplaces(t: Tree, sp: nat, sn: Name, dp: nat, dn: Name, exact: bool)
    requires Sound(t, exact) && (if exact then CleanRename(t, sp, sn, dp, dn) else SafeRename(t, sp, sn, dp, dn))
    requires Replaces(t, sp, sn, dp, dn)
    ensures Sound(Rename(t, sp, sn, dp, dn).0, exact)
  {
    hide Structure, Reaches, Edge, CountsOk, Cleared, Rename, DropLink;
    var id := t.names[sp][sn];
    var t1 := Cleared(t, dp, dn);
    if exact { CleanIsSafe(t, sp, sn, dp, dn); }
    ClearedKeeps(t, dp, dn, exact);
    RenameIs(t, sp, sn, dp, dn);
    ClearedEdges(t, dp, dn);
    ClearedNames(t, dp, dn);
    PathFewer(t.names, t1.names, id, dp);
    ShapeOf(t);
    SwungKeeps(t1, sp, sn, dp, dn, exact);
    var t2 := Swung(t1, sp, sn, dp, dn);
    DirLinksFree(t2, {}, sp, t.slots[sp].nlink, exact);
    assert t1.slots[sp := t.slots[sp]] == t2.slots[sp := t2.slots[sp].(nlink := t.slots[sp].nlink)];
  }

  lemma RenameIsSwung(t: Tree, sp: nat, sn: Name, dp: nat, dn: Name)
    requires Structure(t) && RenameError(t, sp, sn, dp).None? && dn !in t.names[dp]
    ensures Rename(t, sp, sn, dp, dn).0 == Swung(t, sp, sn, dp, dn)
  {
    hide Acyclic, Links, Reaches, Edge;
    assert t.names[dp] - {dn} == t.names[dp];
    assert t.names[dp := t.names[dp]] == t.names && t.names[sp := t.names[sp]] == t.names;
    var t' := Rename(t, sp, sn, dp, dn).0;
    assert t'.slots == t.slots;
  }

  /**
   A rename keeps the invariant exactly when what it replaces is not a directory, or an empty one on its last link.
   */
  lemma RenameKeeps(t: Tree, sp: nat, sn: Name, dp: nat, dn: Name)
    requires Inv(t)
    ensures Inv(Rename(t, sp, sn, dp, dn).0) <==> CleanRename(t, sp, sn, dp, dn)
  {
    hide Structure, CountsOk;
    if CleanRename(t, sp, sn, dp, dn) { RenameGood(t, sp, sn, dp, dn, true); } else { RenameBad(t, sp, sn, dp, dn); }
  }

  /** It keeps the forest exactly when it does not recycle the directory it moves out of. */
  lemma RenameKeepsForest(t: Tree, sp: nat, sn: Name, dp: nat, dn: Name)
    requires Forest(t)
    ensures Forest(Rename(t, sp, sn, dp, dn).0) <==> SafeRename(t, sp, sn, dp, dn)
  {
    hide Structure, CountsOk;
    if SafeRename(t, sp, sn, dp, dn) {
      RenameGood(t, sp, sn, dp, dn, false);
    } else {
      SourceRecycled(t, sp, sn, dp, dn);
    }
  }

  /** The directory moved out of ends up on the free list, and is written back as a directory all the same. */
  lemma SourceRecycled(t: Tree, sp: nat, sn: Name, dp: nat, dn: Name)
    requires Forest(t) && !SafeRename(t, sp, sn, dp, dn)
    ensures !Forest(Rename(t, sp, sn, dp, dn).0)
  {
    hide Acyclic, Links, Reaches, CountsOk;
    LiveTarget(t, dp, dn);
    assert sp in t.names && sp !in t.open;
    var t' := Rename(t, sp, sn, dp, dn).0;
    assert sp in t'.names && sp in t'.free;
  }

  /** Every rename, whatever it replaces, keeps the graph acyclic and gives no directory a second name. */
  lemma RenameKeepsGraph(t: Tree, sp: nat, sn: Name, dp: nat, dn: Name)
    requires Forest(t)
    ensures Acyclic(Rename(t, sp, sn, dp, dn).0.names)
    ensures forall x :: x in Rename(t, sp, sn, dp, dn).0.names ==> |Links(Rename(t, sp, sn, dp, dn).0.names, x)| <= 1
  {
    hide Structure, Links, Reaches, CountsOk, Acyclic;
    if SafeRename(t, sp, sn, dp, dn) {
      RenameGood(t, sp, sn, dp, dn, false);
      DirsNamedOnce(Rename(t, sp, sn, dp, dn).0);
    } else {
      SourceRecycledGraph(t, sp, sn, dp, dn);
    }
  }

  lemma DirsNamedOnce(t: Tree)
    requires Forest(t)
    ensures Acyclic(t.names) && forall x :: x in t.names ==> |Links(t.names, x)| <= 1
  {
    hide Acyclic, Links;
    forall x | x in t.names ensures |Links(t.names, x)| <= 1 { assert Live(t, x) && CountOk(t, x, false); }
  }

  /** The names after such a rename are those of one in which the replaced directory had a link to spare. */
  lemma SourceRecycledGraph(t: Tree, sp: nat, sn: Name, dp: nat, dn: Name)
    requires Forest(t) && !SafeRename(t, sp, sn, dp, dn)
    ensures Acyclic(Rename(t, sp, sn, dp, dn).0.names)
    ensures forall x :: x in Rename(t, sp, sn, dp, dn).0.names ==> |Links(Rename(t, sp, sn, dp, dn).0.names, x)| <= 1
  {
    hide Structure, CountsOk, Links, Reaches, Acyclic, Rename;
    SpareLink(t, sp, sn, dp, dn);
    var spared := t.(slots := t.slots[sp := t.slots[sp].(nlink := 2)]);
    DirLinksFree(t, {}, sp, 2, false);
    RenameGood(spared, sp, sn, dp, dn, false);
    DirsNamedOnce(Rename(spared, sp, sn, dp, dn).0);
  }

  lemma SpareLink(t: Tree, sp: nat, sn: Name, dp: nat, dn: Name)
    requires Structure(t) && !SafeRename(t, sp, sn, dp, dn)
    ensures sp in t.names && sp < |t.slots|
    ensures var spared := t.(slots := t.slots[sp := t.slots[sp].(nlink := 2)]);
            && SafeRename(spared, sp, sn, dp, dn)
            && Rename(spared, sp, sn, dp, dn).0.names == Rename(t, sp, sn, dp, dn).0.names
  {
    hide Acyclic, Reaches;
    LiveTarget(t, dp, dn);
    NoSelfName(t, dp, dn);
    var spared := t.(slots := t.slots[sp := t.slots[sp].(nlink := 2)]);
    assert RenameError(spared, sp, sn, dp) == RenameError(t, sp, sn, dp);
    assert sp != dp && sp !in t.open;
    var mid := t.names[dp := t.names[dp] - {dn}][sp := t.names[sp]];
    assert (t.names - {sp})[dp := t.names[dp] - {dn}][sp := t.names[sp]] == mid;
  }

  /** The replaced directory has lost its only name. */
  lemma VictimUnnamed(t: Tree, sp: nat, sn: Name, dp: nat, dn: Name)
    requires Inv(t) && !CleanRename(t, sp, sn, dp, dn)
    ensures var v := t.names[dp][dn];
            && v in t.names && v != dp && v != ROOT && Live(t, v) && v !in t.open
            && Links(Rename(t, sp, sn, dp, dn).0.names, v) == {}
  {
    hide Acyclic, Reaches, CountsOk;
    var v := t.names[dp][dn];
    NoSelfName(t, dp, dn);
    assert Live(t, v) && v in t.names;
    assert Links(t.names, v) == {(dp, dn)} by { Loosen(t, true); OnlyLink(t, v, dp, dn); }
    var names' := Rename(t, sp, sn, dp, dn).0.names;
    forall d, m | d in names' && m in names'[d] ensures names'[d][m] != v {
      if (d, m) != (dp, dn) && d in t.names && m in t.names[d] {
        assert t.names[d][m] == v ==> (d, m) in Links(t.names, v);
      }
    }
  }

  lemma OnlyLink(t: Tree, v: nat, d: nat, n: Name)
    requires Forest(t) && d in t.names && n in t.names[d] && t.names[d][n] == v && v in t.names
    ensures Links(t.names, v) == {(d, n)}
  {
    hide Acyclic, Links;
    NamedBy(t.names, d, n);
    assert Live(t, v) && CountOk(t, v, false);
    var rest := Links(t.names, v) - {(d, n)};
    assert |rest| == 0;
  }

  lemma RenameBad(t: Tree, sp: nat, sn: Name, dp: nat, dn: Name)
    requires Inv(t) && !CleanRename(t, sp, sn, dp, dn)
    ensures !Inv(Rename(t, sp, sn, dp, dn).0)
  {
    hide Acyclic, Reaches, Links, CountsOk;
    var v := t.names[dp][dn];
    var t' := Rename(t, sp, sn, dp, dn).0;
    VictimUnnamed(t, sp, sn, dp, dn);
    if t.slots[v].nlink > 1 || v == sp {
      assert IsDirAt(t', v);
      StrayDirectory(t', v);
    } else {
      var m :| m in t.names[v];
      ChildLosesName(t, sp, sn, dp, dn, m);
    }
  }

  lemma StrayDirectory(t: Tree, v: nat)
    requires IsDirAt(t, v) && v != ROOT && Links(t.names, v) == {}
    ensures !Inv(t)
  {
    hide Acyclic, Links;
    if Live(t, v) { assert !CountOk(t, v, true); }
  }

  /** A replaced directory that is recycled while it holds names leaves them miscounted. */
  lemma ChildLosesName(t: Tree, sp: nat, sn: Name, dp: nat, dn: Name, m: Name)
    requires Inv(t) && !CleanRename(t, sp, sn, dp, dn)
    requires var v := t.names[dp][dn];
              v in t.names && v != sp && v != dp && t.slots[v].nlink <= 1 && v !in t.open && m in t.names[v]
    ensures !Inv(Rename(t, sp, sn, dp, dn).0)
  {
    hide Acyclic, Reaches, Links, Targets, OpenOk;
    var v := t.names[dp][dn];
    var c := t.names[v][m];
    var t' := Rename(t, sp, sn, dp, dn).0;
    NoSelfName(t, v, m);
    assert Live(t, c) by { LiveTarget(t, v, m); }
    assert CountOk(t, c, true) && Live(t', c);
    assert t'.slots[c] == t.slots[c];
    FewerNames(t, sp, sn, dp, dn, m);
    assert !CountOk(t', c, true);
  }

  lemma LiveTarget(t: Tree, d: nat, n: Name)
    requires Targets(t) && d in t.names && n in t.names[d]
    ensures Live(t, t.names[d][n])
  {}

  lemma FewerNames(t: Tree, sp: nat, sn: Name, dp: nat, dn: Name, m: Name)
    requires Inv(t) && !CleanRename(t, sp, sn, dp, dn)
    requires var v := t.names[dp][dn];
              v in t.names && v != sp && v != dp && t.slots[v].nlink <= 1 && v !in t.open && m in t.names[v]
    ensures var c := t.names[t.names[dp][dn]][m];
            |Links(Rename(t, sp, sn, dp, dn).0.names, c)| < |Links(t.names, c)|
  {
    hide Acyclic, Reaches, CountsOk, Targets, OpenOk, FreeOk;
    var v, id := t.names[dp][dn], t.names[sp][sn];
    var c := t.names[v][m];
    var was, now := Links(t.names, c), Links(Rename(t, sp, sn, dp, dn).0.names, c);
    assert (v, m) in was && (v, m) !in now;
    if c == id {
      assert (sp, sn) in was && now <= was - {(v, m)} - {(sp, sn)} + {(dp, dn)};
      Shrinks(was, now, (v, m), (sp, sn), (dp, dn));
    } else {
      assert now <= was - {(v, m)};
      Smaller(now, was - {(v, m)});
    }
  }

  lemma Smaller<T>(a: set<T>, b: set<T>)
    requires a <= b
    ensures |a| <= |b|
  {
    assert b == a + (b - a);
  }

  lemma Shrinks<T>(was: set<T>, now: set<T>, x: T, y: T, z: T)
    requires x in was && y in was && x != y && now <= was - {x} - {y} + {z}
    ensures |now| < |was|
  {
    Smaller(now, was - {x} - {y} + {z});
    assert |was - {x} - {y}| == |was| - 2;
  }

  // ----- the root and the walk down from it -----

  /** Every directory is in the root's subtree. */
  lemma {:induction false} AllReached(t: Tree, d: nat, rank: nat -> nat)
    requires Inv(t) && Ranked(t.names, rank) && d in t.names
    ensures Reaches(t.names, ROOT, d)
    decreases rank(d)
  {
    hide Acyclic, Reaches, Links;
    assert Live(t, d) && CountOk(t, d, true);
    if d == ROOT {
      ReachesSelf(t.names, ROOT);
    } else {
      var (p, n) := SomeLink(t.names, d);
      assert Edge(t.names, p, d);
      AllReached(t, p, rank);
      ReachesMore(t.names, ROOT, p, d);
    }
  }

  ghost function SomeLink(names: map<nat, Names>, x: nat): (l: (nat, Name))
    requires Links(names, x) != {}
    ensures l.0 in names && l.1 in names[l.0] && names[l.0][l.1] == x
  {
    var l :| l in Links(names, x); l
  }

  lemma EverythingReached(t: Tree)
    requires Inv(t)
    ensures forall d :: d in t.names ==> Reaches(t.names, ROOT, d)
  {
    hide Reaches, Links;
    var rank: nat -> nat :| Ranked(t.names, rank);
    forall d | d in t.names ensures Reaches(t.names, ROOT, d) { AllReached(t, d, rank); }
  }

  // ----- inode lifetime -----

  /** An id is in use exactly while it is the root, has a name, or is open. */
  lemma LiveIff(t: Tree, x: nat)
    requires Inv(t)
    ensures Live(t, x) <==> x == ROOT || Links(t.names, x) != {} || x in t.open
  {
    hide Acyclic, Links;
    if Live(t, x) {
      assert CountOk(t, x, true);
    } else {
      Unnamed(t, x);
    }
  }

  // ----- format and mount -----

  function Formatted(capacity: nat): Tree
    requires capacity > 0
  {
    Tree(seq(capacity, i => if i == ROOT then Node(TYPE_DIR, 2, 0) else Node(0, 0, 0)), map[ROOT := map[]], 1, [],
      map[])
  }

  lemma FormattedKeeps(capacity: nat)
    requires capacity > 0
    ensures Inv(Formatted(capacity))
  {
    var t := Formatted(capacity);
    assert Ranked(t.names, (x: nat) => 0);
    assert Links(t.names, ROOT) == {};
  }

  /** The slots below `n` without a link, in order. */
  function FreeSlots(slots: seq<Node>, n: nat): seq<nat>
    requires n <= |slots|
  {
    if n == 0 then [] else FreeSlots(slots, n - 1) + if slots[n - 1].nlink == 0 then [n - 1] else []
  }

  lemma {:induction false} FreeSlotsAre(slots: seq<Node>, n: nat)
    requires n <= |slots|
    ensures NoRepeats(FreeSlots(slots, n))
    ensures forall id: nat :: id in FreeSlots(slots, n) <==> id < n && slots[id].nlink == 0
  {
    if n > 0 { FreeSlotsAre(slots, n - 1); }
  }

  /** The free list is rebuilt by scanning the table; the handles are gone. */
  method RebuildFree(slots: seq<Node>, count: nat) returns (free: seq<nat>)
    requires count <= |slots|
    ensures free == FreeSlots(slots, count)
  {
    free := [];
    var id := 0;
    while id < count
      invariant 0 <= id <= count && free == FreeSlots(slots, id)
    {
      if slots[id].nlink == 0 {
        free := free + [id];
      }
      id := id + 1;
    }
  }

  /** Mounting scans the table up to its high-water mark; the handles are gone. */
  function Remounted(t: Tree, count: nat): Tree
    requires count <= |t.slots|
  {
    t.(free := FreeSlots(t.slots, count), open := map[])
  }

  /**
   The scan finds exactly the free slots: below the mark every directory has a link, and the mark misses no slot without
   one.
   */
  ghost predicate ScanFinds(t: Tree, count: nat)
    requires count <= |t.slots| && t.next <= |t.slots|
  {
    && (forall d :: d in t.names && d < count ==> t.slots[d].nlink > 0)
    && (forall id: nat :: count <= id < t.next && id !in t.names ==> t.slots[id].nlink > 0)
    && (forall id: nat :: t.next <= id < count ==> t.slots[id].nlink > 0)
  }

  /** Mounting keeps the invariant, full or loose, exactly when the scan finds the free slots. */
  lemma RemountKeeps(t: Tree, count: nat, exact: bool)
    requires Sound(t, exact) && count <= |t.slots|
    ensures t.next <= |t.slots| && (Sound(Remounted(t, count), exact) <==> ScanFinds(t, count))
  {
    hide Structure, CountsOk;
    NextInRange(t);
    if ScanFinds(t, count) { RemountGood(t, count, exact); } else { RemountBad(t, count, exact); }
  }

  lemma NextInRange(t: Tree)
    requires Structure(t)
    ensures t.next <= |t.slots|
  {}

  lemma RemountGood(t: Tree, count: nat, exact: bool)
    requires Sound(t, exact) && count <= |t.slots| && t.next <= |t.slots| && ScanFinds(t, count)
    ensures Sound(Remounted(t, count), exact)
  {
    hide Acyclic, Links;
    var t' := Remounted(t, count);
    FreeSlotsAre(t.slots, count);
    forall x: nat | Live(t, x) && (x in t.names || t.slots[x].nlink > 0) ensures Live(t', x) {}
    forall d, n | d in t.names && n in t.names[d] ensures Live(t', t.names[d][n]) {
      NamedBy(t.names, d, n);
      assert Live(t, t.names[d][n]) && CountOk(t, t.names[d][n], exact);
    }
    forall x: nat | x < |t'.slots| && Live(t', x) ensures CountOk(t', x, exact) {
      assert Live(t, x) && CountOk(t, x, exact);
    }
  }

  lemma RemountBad(t: Tree, count: nat, exact: bool)
    requires Sound(t, exact) && count <= |t.slots| && t.next <= |t.slots| && !ScanFinds(t, count)
    ensures !Sound(Remounted(t, count), exact)
  {
    hide Acyclic, Links;
    var t' := Remounted(t, count);
    FreeSlotsAre(t.slots, count);
    if d :| d in t.names && d < count && t.slots[d].nlink == 0 {
      assert d in t'.free;
    } else if id: nat :| count <= id < t.next && id !in t.names && t.slots[id].nlink == 0 {
      assert Live(t', id) && !CountOk(t', id, exact);
    } else {
      var id: nat :| t.next <= id < count && t.slots[id].nlink == 0;
      assert id in t'.free;
    }
  }

  // ----- sessions -----

  datatype Op =
    | CreateOp(parent: nat, name: Name, kind: nat) | UnlinkOp(parent: nat, name: Name) | RmdirOp(parent: nat,
      name: Name)
    | LinkOp(parent: nat, name: Name, target: nat) | RenameOp(parent: nat, name: Name, toParent: nat, toName: Name)
    | OpenOp(id: nat) | CloseOp(id: nat)

  ghost function Apply(t: Tree, op: Op): (Tree, Reply) {
    match op
    case CreateOp(p, n, kind) => Create(t, p, n, kind)
    case UnlinkOp(p, n) => Unlink(t, p, n)
    case RmdirOp(p, n) => Rmdir(t, p, n)
    case LinkOp(p, n, x) => Link(t, p, n, x)
    case RenameOp(sp, sn, dp, dn) => Rename(t, sp, sn, dp, dn)
    case OpenOp(id) => Open(t, id)
    case CloseOp(id) => Close(t, id)
  }

  /** What callers are held to: live ids, open handles, and a rename that is clean or, with loose counts, safe. */
  ghost predicate Allowed(t: Tree, op: Op, exact: bool) {
    match op
    case LinkOp(p, n, x) => MakesLink(t, p, n, x) ==> Linkable(t, x)
    case RenameOp(sp, sn, dp, dn) => if exact then CleanRename(t, sp, sn, dp, dn) else SafeRename(t, sp, sn, dp, dn)
    case OpenOp(id) => id < |t.slots| && t.slots[id].kind == TYPE_REGULAR ==> Live(t, id)
    case CloseOp(id) => id in t.open
    case _ => true
  }

  lemma ApplyKeeps(t: Tree, op: Op, exact: bool)
    requires Sound(t, exact) && Allowed(t, op, exact)
    ensures Sound(Apply(t, op).0, exact)
  {
    hide Structure, CountsOk, Create, Unlink, Rmdir, Link, Rename, Open, Close;
    match op
    case CreateOp(p, n, kind) => CreateKeeps(t, p, n, kind, exact);
    case UnlinkOp(p, n) => UnlinkKeeps(t, p, n, exact);
    case RmdirOp(p, n) => RmdirKeeps(t, p, n, exact);
    case LinkOp(p, n, x) => LinkKeeps(t, p, n, x, exact);
    case RenameOp(sp, sn, dp, dn) => RenameGood(t, sp, sn, dp, dn, exact);
    case OpenOp(id) => OpenKeeps(t, id, exact);
    case CloseOp(id) => CloseOpen(t, id, exact);
  }

  ghost predicate IsSession(ts: seq<Tree>, ops: seq<Op>, exact: bool) {
    && |ts| == |ops| + 1 && Sound(ts[0], exact)
    && forall i :: 0 <= i < |ops| ==> Allowed(ts[i], ops[i], exact) && ts[i + 1] == Apply(ts[i], ops[i]).0
  }

  /**
   In every state of every session of clean renames: one name for each directory, no cycles, all of them under the root.
   */
  lemma SessionKeeps(ts: seq<Tree>, ops: seq<Op>, i: nat)
    requires IsSession(ts, ops, true) && i < |ts|
    ensures Inv(ts[i]) && forall d :: d in ts[i].names ==> Reaches(ts[i].names, ROOT, d)
  {
    hide Structure, CountsOk, Apply, Allowed, Reaches;
    SessionInv(ts, ops, i, true);
    EverythingReached(ts[i]);
  }

  /** In every state of every session, renames over directories included: no cycles, and no directory with two names. */
  lemma SessionForest(ts: seq<Tree>, ops: seq<Op>, i: nat)
    requires IsSession(ts, ops, false) && i < |ts|
    ensures Forest(ts[i]) && Acyclic(ts[i].names) && forall d :: d in ts[i].names ==> |Links(ts[i].names, d)| <= 1
  {
    hide Structure, CountsOk, Apply, Allowed, Acyclic, Links;
    SessionInv(ts, ops, i, false);
    DirsNamedOnce(ts[i]);
  }

  lemma {:induction false} SessionInv(ts: seq<Tree>, ops: seq<Op>, i: nat, exact: bool)
    requires IsSession(ts, ops, exact) && i < |ts|
    ensures Sound(ts[i], exact)
  {
    hide Structure, CountsOk, Apply, Allowed;
    if i > 0 {
      SessionInv(ts, ops, i - 1, exact);
      ApplyKeeps(ts[i - 1], ops[i - 1], exact);
    }
  }

  // ----- open handles -----

  /** How an operation moves the number of open handles on `id`. */
  ghost function HandleDelta(t: Tree, op: Op, id: nat): int {
    if op == OpenOp(id) && Open(t, id).1.Done? then 1 else if op == CloseOp(id) then -1 else 0
  }

  lemma ApplyHandles(t: Tree, op: Op, id: nat)
    requires Structure(t) && Allowed(t, op, false)
    ensures OpenCount(Apply(t, op).0, id) == OpenCount(t, id) + HandleDelta(t, op, id)
  {
    hide Acyclic, Reaches, Targets, FreeOk, Shape;
  }

  ghost function Handles(ts: seq<Tree>, ops: seq<Op>, id: nat, n: nat): int
    requires n <= |ops| && n < |ts|
    decreases n
  {
    if n == 0 then OpenCount(ts[0], id) else Handles(ts, ops, id, n - 1) + HandleDelta(ts[n - 1], ops[n - 1], id)
  }

  /** The open count is the number of handles opened and not yet closed, and while there is one the inode stays. */
  lemma {:induction false} HandlesCounted(ts: seq<Tree>, ops: seq<Op>, id: nat, n: nat)
    requires IsSession(ts, ops, false) && n < |ts|
    ensures OpenCount(ts[n], id) == Handles(ts, ops, id, n)
    ensures Handles(ts, ops, id, n) > 0 ==>
              Live(ts[n], id) && id < |ts[n].slots| && ts[n].slots[id].kind == TYPE_REGULAR
  {
    hide Structure, Apply, Allowed, HandleDelta, CountsOk;
    SessionInv(ts, ops, n, false);
    OpenIsLive(ts[n], id);
    if n > 0 {
      HandlesCounted(ts, ops, id, n - 1);
      SessionInv(ts, ops, n - 1, false);
      ApplyHandles(ts[n - 1], ops[n - 1], id);
    }
  }

  lemma OpenIsLive(t: Tree, id: nat)
    requires Structure(t)
    ensures OpenCount(t, id) > 0 ==> Live(t, id) && id < |t.slots| && t.slots[id].kind == TYPE_REGULAR
  {
    hide Acyclic;
  }

  // ----- generations -----

  ghost predicate Freed(t: Tree, t': Tree, id: nat) { Live(t, id) && !Live(t', id) }

  ghost predicate AgesBy(t: Tree, t': Tree, id: nat)
    requires id < |t.slots|
  {
    && |t'.slots| == |t.slots|
    && t'.slots[id].generation == if Freed(t, t', id) then (t.slots[id].generation + 1) % U32
         else t.slots[id].generation
  }

  lemma DropLinkAges(t: Tree, v: nat, id: nat)
    requires Live(t, v) && v < |t.slots| && id < |t.slots|
    ensures AgesBy(t, DropLink(t, v), id)
  {}

  lemma RenameAges(t: Tree, sp: nat, sn: Name, dp: nat, dn: Name, id: nat)
    requires Structure(t) && SafeRename(t, sp, sn, dp, dn) && id < |t.slots|
    ensures AgesBy(t, Rename(t, sp, sn, dp, dn).0, id)
  {
    hide Acyclic, Links, Reaches, DropLink;
    if Replaces(t, sp, sn, dp, dn) {
      var v := t.names[dp][dn];
      LiveTarget(t, dp, dn);
      NoSelfName(t, dp, dn);
      DropLinkAges(t, v, id);
      DropLinkSlots(t, v, sp);
      DropLinkSlots(t, v, dp);
    }
  }

  lemma CreateAges(t: Tree, p: nat, n: Name, kind: nat, id: nat)
    requires Structure(t) && id < |t.slots|
    ensures AgesBy(t, Create(t, p, n, kind).0, id)
  {
    hide Acyclic, Links, Targets, OpenOk;
    if Create(t, p, n, kind).1.Made? {
      CreateLive(t, p, n, kind);
      FreshIsNew(t);
    }
  }

  /** A slot's generation goes up by one, modulo its width, exactly when the slot is freed. */
  lemma ApplyAges(t: Tree, op: Op, id: nat)
    requires Structure(t) && Allowed(t, op, false) && id < |t.slots|
    ensures AgesBy(t, Apply(t, op).0, id)
  {
    hide Acyclic, Links, Reaches, Create, Rename, SafeRename;
    match op
    case CreateOp(p, n, kind) => CreateAges(t, p, n, kind, id);
    case UnlinkOp(p, n) =>
      if Unlink(t, p, n).1.Done? {
        LiveTarget(t, p, n);
        DropLinkAges(t.(names := DropName(t.names, p, n)), t.names[p][n], id);
      }
    case RmdirOp(p, n) => if Rmdir(t, p, n).1.Done? { LiveTarget(t, p, n); }
    case LinkOp(p, n, x) =>
    case RenameOp(sp, sn, dp, dn) => RenameAges(t, sp, sn, dp, dn, id);
    case OpenOp(x) =>
    case CloseOp(x) =>
  }

  /** How often `id` is freed between two states of a session. */
  ghost function Frees(ts: seq<Tree>, id: nat, i: nat, j: nat): nat
    requires i <= j < |ts|
    decreases j
  {
    if i == j then 0 else Frees(ts, id, i, j - 1) + if Freed(ts[j - 1], ts[j], id) then 1 else 0
  }

  lemma {:induction false} Ages(ts: seq<Tree>, ops: seq<Op>, id: nat, i: nat, j: nat)
    requires IsSession(ts, ops, false) && i <= j < |ts| && id < |ts[i].slots| && ts[i].slots[id].generation < U32
    ensures id < |ts[j].slots| && ts[j].slots[id].generation == (ts[i].slots[id].generation + Frees(ts, id, i, j)) % U32
    decreases j
  {
    hide Structure, CountsOk, Apply, Allowed, Freed;
    if i < j {
      Ages(ts, ops, id, i, j - 1);
      SessionInv(ts, ops, j - 1, false);
      ApplyAges(ts[j - 1], ops[j - 1], id);
    }
  }

  lemma {:induction false} FreedBetween(ts: seq<Tree>, id: nat, i: nat, j: nat)
    requires i <= j < |ts| && Live(ts[i], id) && !Live(ts[j], id)
    ensures Frees(ts, id, i, j) > 0
    decreases j
  {
    if i < j && !Live(ts[j - 1], id) { FreedBetween(ts, id, i, j - 1); }
  }

  /** No id is issued twice under one generation, unless the slot is freed 2^32 times in between. */
  lemma IssuedOnce(ts: seq<Tree>, ops: seq<Op>, i: nat, j: nat, id: nat)
    requires IsSession(ts, ops, false) && i < j < |ops| && id < |ts[i + 1].slots|
              && ts[i + 1].slots[id].generation < U32
    requires Apply(ts[i], ops[i]).1 == Made(id) && Apply(ts[j], ops[j]).1 == Made(id)
    requires Frees(ts, id, i + 1, j) < U32
    ensures id < |ts[j + 1].slots| && ts[i + 1].slots[id].generation != ts[j + 1].slots[id].generation
  {
    hide Structure, CountsOk, Allowed, Freed, Frees, Live, Apply;
    SessionInv(ts, ops, i, false);
    SessionInv(ts, ops, j, false);
    MadeIsNew(ts[i], ops[i]);
    MadeIsNew(ts[j], ops[j]);
    FreedBetween(ts, id, i + 1, j);
    Ages(ts, ops, id, i + 1, j);
    ApplyAges(ts[j], ops[j], id);
    NotFreed(ts[j], ts[j + 1], id);
    ModMoves(ts[i + 1].slots[id].generation, Frees(ts, id, i + 1, j));
  }

  lemma NotFreed(t: Tree, t': Tree, id: nat)
    requires !Live(t, id) && id < |t.slots| && AgesBy(t, t', id)
    ensures t'.slots[id].generation == t.slots[id].generation
  {}

  lemma ModMoves(g: nat, k: nat)
    requires g < U32 && 0 < k < U32
    ensures (g + k) % U32 != g
  {
    if g + k < U32 {
      assert (g + k) % U32 == g + k;
    } else {
      assert (g + k) % U32 == g + k - U32;
    }
  }

  lemma MadeIsNew(t: Tree, op: Op)
    requires Structure(t) && Apply(t, op).1.Made?
    ensures !Live(t, Apply(t, op).1.id) && Live(Apply(t, op).0, Apply(t, op).1.id)
  {
    hide Acyclic, Links, Targets, OpenOk, Reaches;
    match op
    case CreateOp(p, n, kind) =>
      FreshIsNew(t);
      CreateLive(t, p, n, kind);
    case _ =>
  }

  // ----- inputs that break the invariant -----

  /** A fresh volume with two empty directories, "a" and "b". */
  function TwoDirectories(): Tree { Create(Create(Formatted(3), ROOT, [97], TYPE_DIR).0, ROOT, [98], TYPE_DIR).0 }

  /** Renaming one empty directory over another succeeds and leaves the second without a name. */
  lemma RenameOverDirectory()
    ensures Inv(TwoDirectories()) && Rename(TwoDirectories(), ROOT, [97], ROOT, [98]).1.Done?
    ensures !Inv(Rename(TwoDirectories(), ROOT, [97], ROOT, [98]).0)
  {
    hide Structure, CountsOk, Reaches;
    FormattedKeeps(3);
    var t1 := Create(Formatted(3), ROOT, [97], TYPE_DIR).0;
    CreateKeeps(Formatted(3), ROOT, [97], TYPE_DIR, true);
    CreateKeeps(t1, ROOT, [98], TYPE_DIR, true);
    var t := TwoDirectories();
    assert t1.names == map[0 := map[[97] := 1], 1 := map[]];
    assert t.names[0] == map[[97] := 1, [98] := 2] && t.names[2] == map[];
    RenameKeeps(t, ROOT, [97], ROOT, [98]);
  }

  /** A slot never allocated opens like an empty regular file, and its handle then belongs to no inode. */
  lemma OpenFreeSlot()
    ensures Inv(Formatted(2)) && Open(Formatted(2), 1).1.Done? && !Inv(Open(Formatted(2), 1).0)
  {
    hide Structure, CountsOk;
    FormattedKeeps(2);
    OpenKeeps(Formatted(2), 1, true);
  }

  /** A slot never allocated can be given a name, which then points to a free slot. */
  lemma LinkFreeSlot()
    ensures Inv(Formatted(2)) && Link(Formatted(2), ROOT, [97], 1).1.Done? && !Inv(Link(Formatted(2), ROOT, [97], 1).0)
  {
    hide Structure, CountsOk;
    FormattedKeeps(2);
    LinkKeeps(Formatted(2), ROOT, [97], 1, true);
  }

  lemma EmptyReaches(names: map<nat, Names>, a: nat, b: nat)
    requires a in names ==> names[a] == map[]
    ensures Reaches(names, a, b) ==> a == b
  {
    if Reaches(names, a, b) {
      var path :| Joins(names, path, a, b);
      assert |path| > 1 ==> Edge(names, path[0], path[1]);
    }
  }

  /** Make a directory, move it into `q`, remove it there. */
  ghost function RoundTrip(t: Tree, q: nat, x: Name): Tree {
    Rmdir(Rename(Create(t, ROOT, x, TYPE_DIR).0, ROOT, x, q, x).0, q, x).0
  }

  /** The round trip gives `q` back the names it had and one link fewer than it had. */
  lemma RoundTripLowers(t: Tree, q: nat, x: Name)
    requires Inv(t) && q in t.names && q != ROOT && x !in t.names[ROOT] && x !in t.names[q]
              && (t.free != [] || t.next < |t.slots|)
    ensures var t' := RoundTrip(t, q, x);
            && Inv(t') && t'.names == t.names && t'.free != [] && q < |t'.slots| == |t.slots|
            && t'.slots[q].nlink == if t.slots[q].nlink > 0 then t.slots[q].nlink - 1 else 0
  {
    hide Structure, CountsOk, Reaches;
    InvBasics(t);
    var id := FreshId(t);
    FreshIsNew(t);
    var t1 := Create(t, ROOT, x, TYPE_DIR).0;
    CreateKeeps(t, ROOT, x, TYPE_DIR, true);
    EmptyReaches(t1.names, id, q);
    InvBasics(t1);
    var t2 := Rename(t1, ROOT, x, q, x).0;
    RenameKeeps(t1, ROOT, x, q, x);
    RenameIsSwung(t1, ROOT, x, q, x);
    RmdirKeeps(t2, q, x, true);
    var t' := RoundTrip(t, q, x);
    assert t'.names == t.names by { RoundTripNames(t.names, q, x, id); }
  }

  lemma InvBasics(t: Tree)
    requires Structure(t)
    ensures ROOT in t.names && forall d :: d in t.names <==> IsDirAt(t, d)
  {}

  lemma RoundTripNames(names: map<nat, Names>, q: nat, x: Name, id: nat)
    requires ROOT in names && q in names && q != ROOT && id !in names && x !in names[ROOT] && x !in names[q]
    ensures var made := PutName(names[id := map[]], ROOT, x, id);
            DropName(DropName(PutName(made, q, x, id), ROOT, x), q, x) - {id} == names
  {
    var made := PutName(names[id := map[]], ROOT, x, id);
    var back := DropName(DropName(PutName(made, q, x, id), ROOT, x), q, x) - {id};
    assert back[ROOT] == names[ROOT];
    assert back[q] == names[q];
  }

  /** A fresh volume with one directory "b", after two such round trips. */
  ghost function Drained(): Tree {
    RoundTrip(RoundTrip(Create(Formatted(3), ROOT, [98], TYPE_DIR).0, 1, [120]), 1, [120])
  }

  /** Its link count is zero although it is named and live, so the next mount takes its slot for a free one. */
  lemma MountFreesDirectory()
    ensures Inv(Drained()) && 1 in Drained().names && Live(Drained(), 1)
    ensures Drained().slots[1].nlink == 0 && !Inv(Remounted(Drained(), Drained().next))
  {
    hide Structure, CountsOk, RoundTrip;
    FormattedKeeps(3);
    var t := Create(Formatted(3), ROOT, [98], TYPE_DIR).0;
    CreateKeeps(Formatted(3), ROOT, [98], TYPE_DIR, true);
    assert t.names == map[0 := map[[98] := 1], 1 := map[]];
    RoundTripLowers(t, 1, [120]);
    var t1 := RoundTrip(t, 1, [120]);
    RoundTripLowers(t1, 1, [120]);
    var t2 := Drained();
    assert 1 in t2.names;
    LiveDirectory(t2, 1);
    RemountKeeps(t2, t2.next, true);
  }

  /** A fresh volume with a directory "b" on its last link, holding a file "x". */
  ghost function Worn(): Tree {
    Create(RoundTrip(Create(Formatted(3), ROOT, [98], TYPE_DIR).0, 1, [120]), 1, [120], TYPE_REGULAR).0
  }

  /** Renaming "b/x" over "b" recycles "b" and then writes it back: a free slot is a directory. */
  lemma RenameOverSource()
    ensures Inv(Worn()) && Rename(Worn(), 1, [120], ROOT, [98]).1.Done?
    ensures !Forest(Rename(Worn(), 1, [120], ROOT, [98]).0)
  {
    hide Structure, CountsOk, RoundTrip, Reaches;
    FormattedKeeps(3);
    var t := Create(Formatted(3), ROOT, [98], TYPE_DIR).0;
    CreateKeeps(Formatted(3), ROOT, [98], TYPE_DIR, true);
    assert t.names == map[0 := map[[98] := 1], 1 := map[]];
    RoundTripLowers(t, 1, [120]);
    var t1 := RoundTrip(t, 1, [120]);
    var id := FreshId(t1);
    FreshIsNew(t1);
    InvBasics(t1);
    CreateKeeps(t1, 1, [120], TYPE_REGULAR, true);
    var w := Worn();
    assert w.names[0] == map[[98] := 1] && w.names[1] == map[[120] := id] && w.slots[1].nlink == 1;
    InvBasics(w);
    Loosen(w, true);
    RenameKeepsForest(w, 1, [120], ROOT, [98]);
  }

  lemma LiveDirectory(t: Tree, d: nat)
    requires Structure(t) && d in t.names
    ensures Live(t, d) && t.next <= |t.slots|
  {}
}
