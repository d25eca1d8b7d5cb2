/** The filesystem with the gate in front of cold directories. */
module GatedFilesystem {
  import opened Bytes
  import opened Directories
  import opened GlobalFilters
  import opened DirPages
  import opened Trees
  import opened Namespaces
  import opened Gates
  import opened GateSnapshots
  import opened Inodes

  ghost predicate NoPairTwice(pairs: seq<(nat, Name)>) { forall i, j :: 0 <= i < j < |pairs| ==> pairs[i] != pairs[j] }

  /** A list of pairs without repetition that covers exactly the names of some directories. */
  ghost predicate Gathers(names: map<nat, Names>, dirs: set<nat>, pairs: seq<(nat, Name)>) {
    NoPairTwice(pairs) && (forall p :: p in pairs <==> p.0 in dirs && p.0 in names && p.1 in names[p.0])
  }

  /** Part way through directory `id`: the first entries of it, and all of the directories in `dirs`. */
  ghost predicate Gathering(names: map<nat, Names>, dirs: set<nat>, id: nat, es: seq<Entry>, pairs: seq<(nat, Name)>) {
    NoPairTwice(pairs) && (forall p ::
      p in pairs <==> (p.0 in dirs && p.0 in names && p.1 in names[p.0]) || (p.0 == id && Mentions(es, p.1)))
  }

  lemma GatherEntry(names: map<nat, Names>, dirs: set<nat>, id: nat, es: seq<Entry>, e: Entry, pairs: seq<(nat, Name)>)
    requires Gathering(names, dirs, id, es, pairs) && id !in dirs && !Mentions(es, e.name)
    ensures Gathering(names, dirs, id, es + [e], pairs + [(id, e.name)])
  {
    forall n ensures Mentions(es + [e], n) <==> Mentions(es, n) || n == e.name {
      if Mentions(es, n) { MentionsMore(es, e, n); }
      if n == e.name { assert (es + [e])[|es|].name == n; }
    }
    assert (id, e.name) !in pairs;
  }

  lemma GatherChild(names: map<nat, Names>, dirs: set<nat>, id: nat, es: seq<Entry>, pairs: seq<(nat, Name)>,
      more: set<nat>, new_: seq<(nat, Name)>)
    requires Gathering(names, dirs, id, es, pairs) && Gathers(names, more, new_) && id !in more && dirs !! more
    ensures Gathering(names, dirs + more, id, es, pairs + new_)
  {
    var all := pairs + new_;
    forall i, j | 0 <= i < j < |all| ensures all[i] != all[j] {
      if i < |pairs| <= j { assert all[i] in pairs && all[j] in new_; }
    }
  }

  lemma GatherDone(names: map<nat, Names>, dirs: set<nat>, id: nat, es: seq<Entry>, pairs: seq<(nat, Name)>)
    requires Gathering(names, dirs, id, es, pairs) && id in names && Lists(es, names[id])
    ensures Gathers(names, dirs + {id}, pairs)
  {
    forall n ensures Mentions(es, n) <==> n in names[id] {
      if Mentions(es, n) {
        var i :| 0 <= i < |es| && es[i].name == n;
        assert Get(names[id], es[i].name) == Some(es[i].inode);
      }
    }
  }

  /** Directories seen by a finished part of the walk have all their children seen. */
  ghost predicate Closed(names: map<nat, Names>, dirs: set<nat>, seen: set<nat>) {
    forall a, b :: a in dirs && Edge(names, a, b) ==> b in seen
  }

  /** Every directory that is not empty can be reached from the root. */
  ghost predicate Rooted(t: Tree) { forall d :: d in t.names && t.names[d] != map[] ==> Reaches(t.names, ROOT, d) }

  lemma InvRooted(t: Tree)
    requires Trees.Inv(t)
    ensures Rooted(t)
  {
    hide Structure, CountsOk, Reaches;
    EverythingReached(t);
  }

  ghost predicate UnderRoot(names: map<nat, Names>, dirs: set<nat>) {
    forall d :: d in dirs ==> Reaches(names, ROOT, d)
  }

  lemma ReachesRoot(names: map<nat, Names>)
    ensures Reaches(names, ROOT, ROOT)
  {
    assert Joins(names, [ROOT], ROOT, ROOT);
  }

  lemma ReachesNext(names: map<nat, Names>, a: nat, b: nat)
    requires Reaches(names, ROOT, a) && Edge(names, a, b)
    ensures Reaches(names, ROOT, b)
  {
    hide Edge;
    var path :| Joins(names, path, ROOT, a);
    assert Joins(names, path + [b], ROOT, b);
  }

  class GatedFs {
    const ns: Namespace
    const key: Keying
    const tuning: nat -> Tuning
    var gate: Gate
    var seqNo: nat

    /** What a mount would find now. */
    ghost var disk: Disk

    ghost predicate Valid()
      reads this, ns, gate
    {
      ns.Valid() && GateFollows() && seqNo == disk.seqNo
    }

    /** The gate records exactly the names of the tree. */
    ghost predicate GateFollows()
      reads this, ns, gate
    {
      gate.Valid() && gate.key == key && gate.present == Pairs(ns.View().names)
    }

    /** Mount: take the gate from a snapshot stamped with the committed sequence number, or build it. */
    constructor (ns: Namespace, key: Keying, tuning: nat -> Tuning, seqNo: nat, c: FilterCodec, snapshot: Bytes)
      requires ns.Valid() && KeyingOk(key)
      ensures fresh(gate) && this.ns == ns && this.key == key && this.seqNo == seqNo
      ensures disk == Disk(seqNo, Pairs(ns.View().names), {})
      ensures Loads(c, snapshot, seqNo) ==> gate.AsImage() == UnmarshalGate(c, snapshot[8..]).value
      ensures Rooted(ns.View()) ==>
                (Valid() && gate.Complete() <==> SnapshotSound(c, key, snapshot, seqNo, disk.committed))
    {
      hide Structure, CountsOk, StoreOk, CacheOk, Pairs, Rooted, UnmarshalGate, CompleteFor, NamesIn;
      this.ns, this.key, this.tuning, this.seqNo := ns, key, tuning, seqNo;
      gate := new Gate(key, tuning, 0);
      disk := Disk(seqNo, Pairs(ns.View().names), {});
      new;
      InstallGate(c, snapshot);
    }

    /** The gate serves the names mounted exactly when the snapshot, if it is taken, is complete for them. */
    method InstallGate(c: FilterCodec, snapshot: Bytes)
      requires ns.Valid() && KeyingOk(key)
      modifies this`gate
      ensures fresh(gate) && gate.key == key
      ensures Loads(c, snapshot, seqNo) ==> gate.AsImage() == UnmarshalGate(c, snapshot[8..]).value
      ensures !Loads(c, snapshot, seqNo) ==> !gate.NeedsRebuild()
      ensures Rooted(ns.View()) ==>
                (GateFollows() && gate.Complete() <==> SnapshotSound(c, key, snapshot, seqNo, Pairs(ns.View().names)))
    {
      hide Structure, CountsOk, Pairs, UnmarshalGate, CompleteFor, UnLe, StoreOk, CacheOk, Rooted, NamesIn;
      if |snapshot| >= 8 && UnLe(snapshot[..8]) == seqNo {
        var g := LoadGate(c, snapshot[8..]);
        if g.Some? {
          gate := new Gate.Restore(key, g.value, Pairs(ns.View().names));
          return;
        }
      }
      gate := WalkBuildGate();
    }

    /**
     Serialize the gate, stamped with the current sequence number. The snapshot serves every later mount exactly when
     the gate is complete for the committed names, as it is when no removal is uncommitted.
     */
    method SnapshotGate(c: FilterCodec) returns (snapshot: Bytes)
      requires Valid() && FilterCodecOk(c) && ImageFits(gate.AsImage()) && seqNo < U64
      ensures Loads(c, snapshot, seqNo) && UnmarshalGate(c, snapshot[8..]).value == gate.AsImage()
      ensures ServesEver(c, key, snapshot, disk) <==> CompleteFor(key, gate.AsImage(), disk.committed)
      ensures gate.Complete() && disk.committed <= Pairs(ns.View().names) ==> ServesEver(c, key, snapshot, disk)
    {
      hide Structure, CountsOk, Pairs, MarshalGate, UnmarshalGate, Admits, Unmasked, Le, UnLe, StoreOk, CacheOk,
        ServesEver;
      LeWidths(seqNo);
      var body, order := SaveGate(c, gate.AsImage());
      GateRoundTrip(c, gate.AsImage(), order);
      snapshot := Le(seqNo, 8) + body;
      assert snapshot[8..] == body && snapshot[..8] == Le(seqNo, 8);
      SnapshotServes(c, key, snapshot, gate.AsImage(), disk);
      if gate.Complete() && disk.committed <= gate.present {
        FewerNamesComplete(key, gate.AsImage(), gate.present, disk.committed);
      }
    }

    /** Build a gate by walking the tree once. It holds every name exactly when no directory with names is cut off. */
    method WalkBuildGate() returns (g: Gate)
      requires ns.Valid() && KeyingOk(key)
      ensures fresh(g) && g.Valid() && g.Complete() && g.Counted() && g.key == key && !g.NeedsRebuild()
      ensures g.present <= Pairs(ns.View().names) && (g.present == Pairs(ns.View().names) <==> Rooted(ns.View()))
    {
      hide Structure, CountsOk, StoreOk, CacheOk, Pairs, Gathers, Closed, Admits, NamesIn, Rooted, Reaches, UnderRoot;
      RootIsDir(ns.View());
      NamesAt(ns.layouts, ROOT);
      ReachesRoot(ns.View().names);
      var seen, pairs := Walk(ROOT, {});
      assert seen - {} == seen;
      GatherSome(ns.View().names, seen, pairs);
      WalkedAll(ns.View(), seen, pairs);
      g := FillGate(pairs);
    }

    /** A gate sized for some pairs, with all of them added. */
    method FillGate(pairs: seq<(nat, Name)>) returns (g: Gate)
      requires KeyingOk(key) && NoPairTwice(pairs)
      ensures fresh(g) && g.Valid() && g.Complete() && g.Counted() && g.key == key && g.present == (set p | p in pairs)
                && !g.NeedsRebuild()
      ensures g.capacity == Max(2 * |pairs|, MIN_CAPACITY) && g.live == |pairs| && g.deleted == {}
      ensures g.filter == Bloom.AddAll(NewFilter(tuning, g.capacity), Hashes(key, pairs))
    {
      hide Admits, Unmasked, Bloom.Empty, NoPairTwice, Bloom.Add;
      g := new Gate(key, tuning, |pairs|);
      var i := 0;
      while i < |pairs|
        invariant 0 <= i <= |pairs| && fresh(g) && g.Valid() && g.key == key && g.deleted == {}
                  && g.capacity >= 2 * |pairs| && g.capacity >= 0
        invariant g.present == (set p | p in pairs[..i]) && g.Counted()
        invariant g.capacity == Max(2 * |pairs|, MIN_CAPACITY) && g.live == i
        invariant g.filter == Bloom.AddAll(NewFilter(tuning, g.capacity), Hashes(key, pairs[..i]))
      {
        NextPair(pairs, i, i + 1);
        NextHash(key, pairs, i, i + 1);
        g.Add(pairs[i].0, pairs[i].1);
        i := i + 1;
      }
      assert pairs[..i] == pairs;
      NothingMasked(key, g.present);
      NoDupCount(pairs);
    }

    // ----- names changing -----

    method Create(parent: nat, name: Name, kind: nat) returns (r: Reply)
      requires Valid() && |name| <= MAX_NAME
      modifies ns, gate
      ensures Valid() && (old(gate.Complete()) ==> gate.Complete()) && (old(gate.Counted()) ==> gate.Counted())
      ensures Does(old(ns.View()), old(ns.layouts), CreateOp(parent, name, kind), ns.View(), ns.layouts, r)
    {
      hide Structure, CountsOk, StoreOk, CacheOk, Pairs, Admits, NamesIn, Does, Unmasked;
      ghost var t := ns.View();
      r := ns.CreateNode(parent, name, kind);
      CreatePairs(t, parent, name, kind);
      DidApply(t, old(ns.layouts), CreateOp(parent, name, kind), ns.View(), ns.layouts, r);
      if r.Made? {
        UnmaskMore(key, gate.deleted, gate.present, parent, name);
        gate.Add(parent, name);
      }
    }

    /** The gate follows every link; the namespace itself stays a forest exactly as `Trees.LinkKeeps` says. */
    method Link(parent: nat, name: Name, target: nat) returns (r: Reply)
      requires Valid() && |name| <= MAX_NAME
      modifies ns, gate
      ensures GateFollows() && (Allowed(old(ns.View()), LinkOp(parent, name, target), false) ==> Valid())
      ensures (old(gate.Complete()) ==> gate.Complete()) && (old(gate.Counted()) ==> gate.Counted())
      ensures Does(old(ns.View()), old(ns.layouts), LinkOp(parent, name, target), ns.View(), ns.layouts, r)
    {
      hide Structure, CountsOk, StoreOk, CacheOk, Pairs, Admits, NamesIn, Does, Unmasked;
      ghost var t := ns.View();
      r := ns.Link(parent, name, target);
      LinkPairs(t, parent, name, target);
      DidApply(t, old(ns.layouts), LinkOp(parent, name, target), ns.View(), ns.layouts, r);
      if r.Done? {
        UnmaskMore(key, gate.deleted, gate.present, parent, name);
        gate.Add(parent, name);
      }
    }

    /** Completeness survives a removal exactly when no other live name has its low word. */
    method Unlink(parent: nat, name: Name) returns (r: Reply)
      requires Valid()
      modifies ns, gate
      ensures Valid() && (old(gate.Counted()) ==> gate.Counted())
      ensures old(gate.Complete()) ==> (gate.Complete() <==> !Masking(key, old(ns.View()), UnlinkOp(parent, name)))
      ensures Does(old(ns.View()), old(ns.layouts), UnlinkOp(parent, name), ns.View(), ns.layouts, r)
    {
      hide Structure, CountsOk, StoreOk, CacheOk, Pairs, Admits, NamesIn, Does, Unmasked, Shares;
      ghost var t := ns.View();
      r := ns.Unlink(parent, name);
      UnlinkPairs(t, parent, name);
      DidApply(t, old(ns.layouts), UnlinkOp(parent, name), ns.View(), ns.layouts, r);
      if r.Done? {
        gate.Remove(parent, name);
      }
    }

    method Rmdir(parent: nat, name: Name) returns (r: Reply)
      requires Valid()
      modifies ns, gate
      ensures Valid() && (old(gate.Counted()) ==> gate.Counted())
      ensures old(gate.Complete()) ==> (gate.Complete() <==> !Masking(key, old(ns.View()), RmdirOp(parent, name)))
      ensures Does(old(ns.View()), old(ns.layouts), RmdirOp(parent, name), ns.View(), ns.layouts, r)
    {
      hide Structure, CountsOk, StoreOk, CacheOk, Pairs, Admits, NamesIn, Does, Unmasked, Shares;
      ghost var t := ns.View();
      r := ns.Rmdir(parent, name);
      RmdirPairs(t, parent, name);
      DidApply(t, old(ns.layouts), RmdirOp(parent, name), ns.View(), ns.layouts, r);
      if r.Done? {
        gate.Remove(parent, name);
      }
    }

    /**
     A rename takes the replaced name out, puts the new one in, then takes the old one out. The names of a replaced
     directory that is recycled vanish with it, and the gate admits them for nothing.
     */
    method Rename(sp: nat, sn: Name, dp: nat, dn: Name) returns (r: Reply)
      requires Valid() && |dn| <= MAX_NAME && Allowed(ns.View(), RenameOp(sp, sn, dp, dn), false)
      modifies ns, gate
      ensures Valid() && Does(old(ns.View()), old(ns.layouts), RenameOp(sp, sn, dp, dn), ns.View(), ns.layouts, r)
      ensures old(gate.Complete()) ==> (gate.Complete() <==> !Masking(key, old(ns.View()), RenameOp(sp, sn, dp, dn)))
      ensures old(gate.Counted()) && Allowed(old(ns.View()), RenameOp(sp, sn, dp, dn), true) ==> gate.Counted()
    {
      hide Structure, CountsOk, StoreOk, CacheOk, Pairs, Admits, NamesIn, Does, Unmasked, Shares, Trees.Rename,
        LayoutOk, SafeRename;
      ghost var t, ls, op := ns.View(), ns.layouts, RenameOp(sp, sn, dp, dn);
      var src := ns.LoadDir(sp);
      var dst := ns.LoadDir(dp);
      KnownDir(t, sp);
      KnownDir(t, dp);
      NamesAt(ls, sp);
      NamesAt(ls, dp);
      r := ns.Rename(sp, sn, dp, dn);
      DidApply(t, ls, op, ns.View(), ns.layouts, r);
      RenamePairs(t, sp, sn, dp, dn);
      if r.Done? {
        var overwrites := dn in dst.value.names;
        if overwrites && dst.value.names[dn] == src.value.names[sn] {
          return;
        }
        MoveNames(sp, sn, dp, dn, overwrites, Pairs(ns.View().names));
      }
    }

    /**
     The gate is told of a new name and the flush of the directory then fails: the stored names are as before, and the
     gate is as complete for them as it was.
     */
    method AddUnstored(parent: nat, name: Name)
      requires Valid()
      modifies gate
      ensures Valid() && (old(gate.Complete()) ==> gate.Complete())
    {
      hide Structure, CountsOk, StoreOk, CacheOk, Pairs, Admits, NamesIn, Unmasked;
      ghost var was, gone := gate.present, gate.deleted;
      UnmaskMore(key, gone, was, parent, name);
      gate.Add(parent, name);
      AdmitsLess(key, gate.filter, gate.present, was);
      gate.present := was;
    }

    /**
     The gate is told that a name is gone and the flush then fails: the name is still stored, but its low word is
     tombstoned, so a cold lookup of it answers "absent". Completeness is lost whatever the other names are.
     */
    method RemoveUnstored(parent: nat, name: Name)
      requires Valid() && (parent, name) in Pairs(ns.View().names)
      modifies gate
      ensures Valid() && key(parent, name).lo in gate.deleted && !gate.Complete()
    {
      hide Structure, CountsOk, StoreOk, CacheOk, Pairs, Admits, NamesIn;
      ghost var was := gate.present;
      gate.Remove(parent, name);
      gate.present := was;
      assert (parent, name) in gate.present;
    }

    method MoveNames(sp: nat, sn: Name, dp: nat, dn: Name, overwrites: bool, ghost left: set<(nat, Name)>)
      requires gate.Valid() && gate.key == key && (sp, sn) != (dp, dn)
      requires left <= gate.present + {(dp, dn)} - {(sp, sn)} && (overwrites <==> (dp, dn) in gate.present)
      modifies gate
      ensures gate.Valid() && gate.present == left
      ensures old(gate.Counted()) && (sp, sn) in old(gate.present) ==>
                left == old(gate.present) + {(dp, dn)} - {(sp, sn)} ==> gate.Counted()
      ensures old(gate.Complete()) ==> (gate.Complete() <==> !Shares(key, left, sp, sn))
    {
      hide Admits, Unmasked, Shares;
      ghost var was, gone := gate.present, gate.deleted;
      if overwrites {
        gate.Remove(dp, dn);
      }
      gate.Add(dp, dn);
      gate.Remove(sp, sn);
      assert gate.deleted == gone - {key(dp, dn).lo} + {key(sp, sn).lo};
      AdmitsLess(key, gate.filter, gate.present, left);
      MoveMask(key, gone, was, left, sp, sn, dp, dn);
      gate.present := left;
    }

    /**
     Commit, which may fail below; a gate that has outgrown its tuning is rebuilt once it succeeded, between
     operations. The rebuilt gate follows the tree exactly when no directory with names is cut off from the root.
     */
    method Commit() returns (ok: bool)
      requires Valid()
      modifies this`gate, this`seqNo, this`disk
      ensures disk == DiskAfter(old(disk), if ok then CommitDone(Pairs(ns.View().names))
                else CommitFailed(Pairs(ns.View().names)))
      ensures ok ==> !gate.NeedsRebuild()
      ensures if ok && old(gate.NeedsRebuild()) then gate.Complete() && fresh(gate) else gate == old(gate)
      ensures gate != old(gate) <==>
                ok && (old(gate.live) > old(gate.capacity) || 4 * |old(gate.deleted)| > old(gate.capacity))
      ensures gate.Valid() && gate.key == key && gate.present <= Pairs(ns.View().names)
      ensures Valid() <==> Rooted(ns.View()) || !ok || !old(gate.NeedsRebuild())
    {
      hide Structure, CountsOk, StoreOk, CacheOk, Pairs, Rooted;
      ok := *;
      if !ok {
        disk := DiskAfter(disk, CommitFailed(Pairs(ns.View().names)));
        return;
      }
      disk := DiskAfter(disk, CommitDone(Pairs(ns.View().names)));
      seqNo := seqNo + 1;
      if gate.NeedsRebuild() {
        assert KeyingOk(key) by { AdmitsOk(gate.key, gate.filter, gate.present); }
        gate := WalkBuildGate();
      }
    }

    // ----- looking up -----

    /** A resident directory is asked directly, a cold one only if the gate admits the name. */
    method Lookup(parent: nat, name: Name) returns (r: Result<Option<nat>, Trees.Error>)
      requires Valid()
      modifies ns`cache, ns`tick
      ensures Valid() && ns.View() == old(ns.View()) && ns.layouts == old(ns.layouts)
      ensures DirError(ns.View(), parent).None? ==>
                r == Ok(if old(parent !in ns.cache) && key(parent, name).lo in gate.deleted then None
                        else Get(ns.View().names[parent], name))
      ensures gate.Complete() && DirError(ns.View(), parent).None? ==> r == Ok(Get(ns.View().names[parent], name))
      ensures DirError(ns.View(), parent).Some? ==> r == Ok(None) || r == Err(DirError(ns.View(), parent).value)
    {
      hide Structure, CountsOk, StoreOk, Admits, NamesIn, CacheOk;
      KnownDir(ns.View(), parent);
      PairIn(ns.View().names, parent, name);
      if parent in ns.cache {
        r := ns.Lookup(parent, name);
        return;
      }
      var maybe := gate.MayHold(parent, name);
      if !maybe {
        return Ok(None);
      }
      r := ns.Lookup(parent, name);
    }

    // ----- whole sessions -----

    /** Any one operation. */
    method Edit(op: Op) returns (r: Reply)
      requires Valid() && Allowed(ns.View(), op, false) && NamesFit(op)
      modifies ns, gate
      ensures Valid() && (ns.View(), r) == Apply(old(ns.View()), op)
      ensures old(gate.Complete()) ==> (gate.Complete() <==> !Masking(key, old(ns.View()), op))
    {
      hide Structure, CountsOk, StoreOk, CacheOk, Pairs, NamesIn, Does, Admits, Unmasked, Shares, Apply, SafeRename;
      ghost var t, ls := ns.View(), ns.layouts;
      match op {
        case CreateOp(p, n, kind) => r := Create(p, n, kind);
        case UnlinkOp(p, n) => r := Unlink(p, n);
        case RmdirOp(p, n) => r := Rmdir(p, n);
        case LinkOp(p, n, x) => r := Link(p, n, x);
        case RenameOp(sp, sn, dp, dn) => r := Rename(sp, sn, dp, dn);
        case OpenOp(id) =>
          r := ns.Open(id);
          HandlePairs(t, id);
        case CloseOp(id) =>
          r := ns.Close(id);
          HandlePairs(t, id);
      }
      DidApply(t, ls, op, ns.View(), ns.layouts, r);
    }

    /**
     A session of operations, lookups and commits. While no operation masks a live name every answer is the one the
     tree gives with no gate, whatever directories are resident and however often the gate is rebuilt.
     */
    method Play(calls: seq<GatedCall>) returns (answers: seq<GatedAnswer>, ghost es: seq<Event>)
      requires Valid() && forall i :: 0 <= i < |calls| ==> CallOk(TreeAt(ns.View(), calls, i), calls[i])
      modifies this, ns, gate
      ensures Valid() && ns.View() == TreeAt(old(ns.View()), calls, |calls|) && |answers| == |calls|
      ensures IsHistory(old(disk), es) && disk == Later(old(disk), es)
      ensures old(gate.Complete()) && NoneMasks(key, old(ns.View()), calls) ==>
                gate.Complete() && forall i :: 0 <= i < |calls| ==>
                  Agrees(TreeAt(old(ns.View()), calls, i), calls[i], answers[i])
    {
      hide Structure, CountsOk, StoreOk, CacheOk, Pairs, NamesIn, Admits, Unmasked, Masking, Agrees, Forest;
      ghost var t := ns.View();
      answers, es := [], [];
      var i := 0;
      while i < |calls|
        invariant 0 <= i <= |calls| && |answers| == i && Valid() && ns.View() == TreeAt(t, calls, i)
        invariant (gate == old(gate) || fresh(gate)) && IsHistory(old(disk), es) && disk == Later(old(disk), es)
        invariant old(gate.Complete()) && NoneMasks(key, t, calls) ==>
                    gate.Complete() && forall j :: 0 <= j < i ==> Agrees(TreeAt(t, calls, j), calls[j], answers[j])
      {
        assert CallOk(TreeAt(t, calls, i), calls[i]);
        var a: GatedAnswer;
        ghost var e;
        a, e := Serve(calls[i]);
        HistoryMore(old(disk), es, e);
        answers, es := answers + [a], es + e;
        i := i + 1;
      }
    }

    method Serve(call: GatedCall) returns (a: GatedAnswer, ghost e: seq<Event>)
      requires Valid() && CallOk(ns.View(), call)
      modifies this, ns, gate
      ensures Valid() && ns.View() == CallAfter(old(ns.View()), call) && (gate == old(gate) || fresh(gate))
      ensures |e| <= 1 && IsHistory(old(disk), e) && disk == Later(old(disk), e)
      ensures old(gate.Complete()) && !(call.Edit? && Masking(key, old(ns.View()), call.op)) ==>
                gate.Complete() && Agrees(old(ns.View()), call, a)
    {
      hide Structure, CountsOk, StoreOk, CacheOk, Pairs, NamesIn, Admits, Unmasked, Masking, SafeRename, Apply;
      e := [];
      match call
      case Edit(op) =>
        var r := Edit(op);
        a := Edited(r);
      case Find(d, n) =>
        var r := Lookup(d, n);
        a := Looked(r);
      case Sync =>
        ghost var pairs := Pairs(ns.View().names);
        var ok := Commit();
        e := [if ok then CommitDone(pairs) else CommitFailed(pairs)];
        HistoryOne(old(disk), e[0]);
        a := Synced(ok);
    }

    /** Walk a directory and, through it, the directories not yet seen; the pairs come in the order met. */
    method Walk(id: nat, seen: set<nat>) returns (seen': set<nat>, pairs: seq<(nat, Name)>)
      requires ns.Valid() && id in ns.layouts && Reaches(ns.View().names, ROOT, id)
      ensures seen + {id} <= seen' && seen' - seen <= ns.layouts.Keys && UnderRoot(ns.View().names, seen' - seen)
      ensures Gathers(ns.View().names, seen' - seen, pairs) && Closed(ns.View().names, seen' - seen, seen')
      decreases ns.layouts.Keys - seen
    {
      hide Structure, CountsOk, StoreOk, CacheOk, LayoutOk, Listing, Gathering, NamesIn, Edge, Lists, Mentions, Reaches;
      ghost var names := ns.View().names;
      if id in seen {
        GatherNothing(names);
        assert seen - seen == {};
        return seen, [];
      }
      seen', pairs := seen + {id}, [];
      KnownDir(ns.View(), id);
      NamesAt(ns.layouts, id);
      var es := ns.ReadDirPages(id);
      DirectoryOk(ns.content, ns.layouts, id);
      ListingLists(ns.layouts[id]);
      var i := 0;
      GatherStart(names, id);
      assert es.value[..0] == [] && seen' - seen - {id} == {};
      while i < |es.value|
        invariant 0 <= i <= |es.value| && seen + {id} <= seen' && seen' - seen <= ns.layouts.Keys
        invariant Gathering(names, seen' - seen - {id}, id, es.value[..i], pairs) && UnderRoot(names, seen' - seen)
        invariant Closed(names, seen' - seen - {id}, seen') && SeenChildren(ns.View(), es.value[..i], seen')
      {
        var e := es.value[i];
        EntryIs(ns.View(), id, es.value, i);
        GatherEntry(names, seen' - seen - {id}, id, es.value[..i], e, pairs);
        assert es.value[..i + 1] == es.value[..i] + [e];
        pairs := pairs + [(id, e.name)];
        if ns.slots[e.inode].kind == TYPE_DIR {
          KnownDir(ns.View(), e.inode);
          NamesAt(ns.layouts, e.inode);
          ReachesNext(names, id, e.inode);
          var more, new_ := Walk(e.inode, seen');
          GatherChild(names, seen' - seen - {id}, id, es.value[..i + 1], pairs, more - seen', new_);
          ClosedMore(names, seen' - seen - {id}, seen', more);
          assert seen' - seen - {id} + (more - seen') == more - seen - {id};
          SeenMore(ns.View(), es.value[..i], seen', more);
          seen', pairs := more, pairs + new_;
        }
        SeenNext(ns.View(), es.value[..i], e, seen');
        i := i + 1;
      }
      assert es.value[..i] == es.value;
      GatherDone(names, seen' - seen - {id}, id, es.value, pairs);
      assert seen' - seen - {id} + {id} == seen' - seen;
      ClosedDone(ns.View(), seen' - seen - {id}, id, es.value, seen');
    }
  }

  datatype GatedCall = Edit(op: Op) | Find(parent: nat, name: Name) | Sync

  datatype GatedAnswer = Edited(reply: Reply) | Looked(found: Result<Option<nat>, Trees.Error>) | Synced(ok: bool)

  /** The tree stays a forest, and a commit, which may walk it, comes with no directory with names cut off. */
  ghost predicate CallOk(t: Tree, call: GatedCall) {
    match call
    case Edit(op) => Allowed(t, op, false) && NamesFit(op)
    case Find(_, _) => true
    case Sync => Rooted(t)
  }

  ghost function CallAfter(t: Tree, call: GatedCall): Tree { if call.Edit? then Apply(t, call.op).0 else t }

  ghost function TreeAt(t: Tree, calls: seq<GatedCall>, i: nat): Tree
    requires i <= |calls|
  {
    if i == 0 then t else CallAfter(TreeAt(t, calls, i - 1), calls[i - 1])
  }

  /** The answer is the one of the tree alone; an id that is not a directory may also be answered "absent". */
  ghost predicate Agrees(t: Tree, call: GatedCall, a: GatedAnswer) {
    match call
    case Edit(op) => a == Edited(Apply(t, op).1)
    case Find(d, n) =>
      if DirError(t, d).None? then d in t.names && a == Looked(Ok(Get(t.names[d], n)))
      else a == Looked(Ok(None)) || a == Looked(Err(DirError(t, d).value))
    case Sync => a.Synced?
  }

  ghost predicate NoneMasks(key: Keying, t: Tree, calls: seq<GatedCall>) {
    forall i :: 0 <= i < |calls| && calls[i].Edit? ==> !Masking(key, TreeAt(t, calls, i), calls[i].op)
  }

  lemma HistoryOne(d: Disk, e: Event)
    requires Possible(d, e)
    ensures IsHistory(d, [e]) && Later(d, [e]) == DiskAfter(d, e)
  {
    assert [e][..0] == [];
    assert Later(d, []) == d;
  }

  lemma HistoryMore(d: Disk, es: seq<Event>, e: seq<Event>)
    requires |e| <= 1 && IsHistory(d, es) && IsHistory(Later(d, es), e)
    ensures IsHistory(d, es + e) && Later(d, es + e) == Later(Later(d, es), e)
  {
    if e == [] {
      assert es + e == es;
    } else {
      assert (es + e)[..|es + e| - 1] == es && e[..0] == [];
    }
  }

  lemma HandlePairs(t: Tree, id: nat)
    requires Forest(t)
    ensures Apply(t, OpenOp(id)).0.names == t.names
    ensures Allowed(t, CloseOp(id), false) ==> Apply(t, CloseOp(id)).0.names == t.names
  {
    hide Acyclic, Links, CountsOk;
  }

  lemma GatherNothing(names: map<nat, Names>)
    ensures Gathers(names, {}, []) && forall seen :: Closed(names, {}, seen)
  {}

  lemma GatherStart(names: map<nat, Names>, id: nat)
    ensures Gathering(names, {}, id, [], [])
  {}

  /** The directories among some entries have been seen. */
  ghost predicate SeenChildren(t: Tree, es: seq<Entry>, seen: set<nat>) {
    forall i :: 0 <= i < |es| && es[i].inode in t.names ==> es[i].inode in seen
  }

  lemma SeenMore(t: Tree, es: seq<Entry>, seen: set<nat>, more: set<nat>)
    requires SeenChildren(t, es, seen) && seen <= more
    ensures SeenChildren(t, es, more)
  {}

  lemma SeenNext(t: Tree, es: seq<Entry>, e: Entry, seen: set<nat>)
    requires SeenChildren(t, es, seen) && (e.inode in t.names ==> e.inode in seen)
    ensures SeenChildren(t, es + [e], seen)
  {}

  lemma ClosedMore(names: map<nat, Names>, dirs: set<nat>, seen: set<nat>, more: set<nat>)
    requires Closed(names, dirs, seen) && seen <= more && Closed(names, more - seen, more)
    ensures Closed(names, dirs + (more - seen), more)
  {
    hide Edge;
  }

  lemma ClosedDone(t: Tree, dirs: set<nat>, id: nat, es: seq<Entry>, seen: set<nat>)
    requires Closed(t.names, dirs, seen) && id in t.names && Lists(es, t.names[id]) && SeenChildren(t, es, seen)
    ensures Closed(t.names, dirs + {id}, seen)
  {
    forall b | Edge(t.names, id, b) ensures b in seen {
      var n :| n in t.names[id] && t.names[id][n] == b;
      var i :| 0 <= i < |es| && es[i].name == n;
      assert Get(t.names[id], es[i].name) == Some(es[i].inode);
    }
  }

  /** An entry read from a directory is one of its names, met for the first time. */
  lemma EntryIs(t: Tree, id: nat, es: seq<Entry>, i: nat)
    requires Forest(t) && id in t.names && Lists(es, t.names[id]) && i < |es|
    ensures es[i].inode < |t.slots| && !Mentions(es[..i], es[i].name)
    ensures t.slots[es[i].inode].kind == TYPE_DIR <==> es[i].inode in t.names
    ensures es[i].inode in t.names ==> Edge(t.names, id, es[i].inode)
  {
    hide Acyclic, CountsOk, Links;
    assert Get(t.names[id], es[i].name) == Some(es[i].inode);
  }

  lemma RootIsDir(t: Tree)
    requires Forest(t)
    ensures ROOT in t.names
  {}

  /** The walk sees what can be reached, so it gathers every name exactly when each is in such a directory. */
  lemma WalkedAll(t: Tree, seen: set<nat>, pairs: seq<(nat, Name)>)
    requires ROOT in seen && Closed(t.names, seen, seen) && UnderRoot(t.names, seen) && Gathers(t.names, seen, pairs)
    ensures (set p | p in pairs) == Pairs(t.names) <==> Rooted(t)
  {
    hide Edge, IsPath;
    if Rooted(t) {
      forall d | d in t.names && t.names[d] != map[] ensures d in seen {
        var path :| Joins(t.names, path, ROOT, d);
        StaysSeen(t.names, seen, path);
      }
    } else {
      var d :| d in t.names && t.names[d] != map[] && !Reaches(t.names, ROOT, d);
      var n :| n in t.names[d];
      assert (d, n) in Pairs(t.names) && (d, n) !in pairs;
    }
  }

  /**
   A rename over a directory in use cuts it off: a name in it is still found by its id, but a gate rebuilt afterwards
   has lost it.
   */
  lemma RenameCutsOff(t: Tree, sp: nat, sn: Name, dp: nat, dn: Name, v: nat)
    requires Trees.Inv(t) && SafeRename(t, sp, sn, dp, dn) && Moves(t, sp, sn, dp, dn)
    requires dn in t.names[dp] && v == t.names[dp][dn] && v in t.names && v < |t.slots| && t.slots[v].nlink > 1
    ensures v in Rename(t, sp, sn, dp, dn).0.names
    ensures Rename(t, sp, sn, dp, dn).0.names[v] != map[] ==> !Rooted(Rename(t, sp, sn, dp, dn).0)
  {
    hide Structure, CountsOk, Reaches, Links, Rename, Cleared, RenameError;
    RenameErrorNot(t, sp, sn, dp) by { MovesNoError(t, sp, sn, dp, dn); }
    RenameIs(t, sp, sn, dp, dn) by { MovesNoError(t, sp, sn, dp, dn); }
    ClearedNames(t, dp, dn);
    UnnameKeeps(t, dp, dn, true);
    InvBasics(t);
    SwungCounts(Cleared(t, dp, dn), sp, sn, dp, dn);
    assert DropName(t.names, dp, dn) - {} == DropName(t.names, dp, dn);
    assert |Links(Rename(t, sp, sn, dp, dn).0.names, v)| == 0;
    CutOff(Rename(t, sp, sn, dp, dn).0.names, v);
  }

  /** A fresh volume with directories "a" and "b", and a file "x" in "a". */
  ghost function TwoDirs(): Tree {
    Create(Create(Create(Formatted(4), ROOT, [97], TYPE_DIR).0, 1, [120], TYPE_REGULAR).0, ROOT, [98], TYPE_DIR).0
  }

  /** Renaming "b" over "a" is one: the gate built after it does not know "x". */
  lemma RenameOverInUse()
    ensures Trees.Inv(TwoDirs()) && SafeRename(TwoDirs(), ROOT, [98], ROOT, [97])
              && !Rooted(Rename(TwoDirs(), ROOT, [98], ROOT, [97]).0)
  {
    hide Structure, CountsOk, Reaches;
    FormattedKeeps(4);
    var t1 := Create(Formatted(4), ROOT, [97], TYPE_DIR).0;
    CreateKeeps(Formatted(4), ROOT, [97], TYPE_DIR, true);
    assert t1.names == map[0 := map[[97] := 1], 1 := map[]];
    var t2 := Create(t1, 1, [120], TYPE_REGULAR).0;
    CreateKeeps(t1, 1, [120], TYPE_REGULAR, true);
    assert t2.names == map[0 := map[[97] := 1], 1 := map[[120] := 2]];
    var t := TwoDirs();
    CreateKeeps(t2, ROOT, [98], TYPE_DIR, true);
    assert t.names == map[0 := map[[97] := 1, [98] := 3], 1 := map[[120] := 2], 3 := map[]];
    assert Moves(t, ROOT, [98], ROOT, [97]);
    RenameCutsOff(t, ROOT, [98], ROOT, [97], 1);
  }

  lemma MovesNoError(t: Tree, sp: nat, sn: Name, dp: nat, dn: Name)
    requires Moves(t, sp, sn, dp, dn)
    ensures RenameError(t, sp, sn, dp).None?
  {
    hide Reaches;
  }

  lemma CutOff(names: map<nat, Names>, v: nat)
    requires Links(names, v) == {} && v != ROOT
    ensures !Reaches(names, ROOT, v)
  {
    if path :| Joins(names, path, ROOT, v) {
      var a := path[|path| - 2];
      assert Edge(names, a, path[|path| - 2 + 1]);
      var n :| n in names[a] && names[a][n] == v;
      assert (a, n) in Links(names, v);
    }
  }

  /** The filter a gate of some capacity starts from. */
  ghost function NewFilter(tuning: nat -> Tuning, capacity: nat): (f: Bloom.Filter)
    ensures Bloom.FilterOk(f)
  {
    Bloom.Empty(tuning(capacity).numBlocks, tuning(capacity).k)
  }

  ghost function Hashes(key: Keying, pairs: seq<(nat, Name)>): (hs: seq<Bloom.Hash>)
    requires KeyingOk(key)
    ensures |hs| == |pairs| && forall j :: 0 <= j < |hs| ==> hs[j] == key(pairs[j].0, pairs[j].1) && Bloom.HashOk(hs[j])
  {
    seq(|pairs|, j requires 0 <= j < |pairs| => key(pairs[j].0, pairs[j].1))
  }

  lemma NextHash(key: Keying, pairs: seq<(nat, Name)>, i: nat, next: nat)
    requires KeyingOk(key) && i < |pairs| && next == i + 1
    ensures Hashes(key, pairs[..next]) == Hashes(key, pairs[..i]) + [key(pairs[i].0, pairs[i].1)]
  {
    assert pairs[..next] == pairs[..i] + [pairs[i]];
  }

  lemma NextPair(pairs: seq<(nat, Name)>, i: nat, next: nat)
    requires NoPairTwice(pairs) && i < |pairs| && next == i + 1
    ensures pairs[i] !in pairs[..i] && (pairs[i].0, pairs[i].1) == pairs[i]
    ensures (set p | p in pairs[..next]) == (set p | p in pairs[..i]) + {pairs[i]}
  {
    assert pairs[..next] == pairs[..i] + [pairs[i]];
  }

  lemma {:induction false} NoDupCount(pairs: seq<(nat, Name)>)
    requires NoPairTwice(pairs)
    ensures |set p | p in pairs| == |pairs|
  {
    if pairs != [] {
      var k := |pairs| - 1;
      NoDupCount(pairs[..k]);
      assert (set p | p in pairs) == (set p | p in pairs[..k]) + {pairs[k]};
    }
  }

  lemma GatherSome(names: map<nat, Names>, dirs: set<nat>, pairs: seq<(nat, Name)>)
    requires Gathers(names, dirs, pairs)
    ensures NoPairTwice(pairs) && (set p | p in pairs) <= Pairs(names)
  {}

  lemma PairIn(names: map<nat, Names>, d: nat, n: Name)
    ensures (d, n) in Pairs(names) <==> d in names && n in names[d]
  {}

  lemma DidApply(t: Tree, ls: Layouts, op: Op, t': Tree, ls': Layouts, r: Reply)
    requires Does(t, ls, op, t', ls', r)
    ensures (t', r) == Apply(t, op)
  {
    hide Apply, Matches;
  }

  lemma UnmaskMore(key: Keying, deleted: set<nat>, pairs: set<(nat, Name)>, d: nat, n: Name)
    ensures Unmasked(key, deleted, pairs) ==> Unmasked(key, deleted - {key(d, n).lo}, pairs)
  {}

  lemma CreatePairs(t: Tree, p: nat, n: Name, kind: nat)
    requires Forest(t)
    ensures var c := Create(t, p, n, kind);
            if c.1.Made? then (p, n) !in Pairs(t.names) && Pairs(c.0.names) == Pairs(t.names) + {(p, n)} else c.0 == t
  {
    hide Structure, CountsOk, Pairs;
    CreateIs(t, p, n, kind);
    if Create(t, p, n, kind).1.Made? {
      var id := FreshId(t);
      var names := if kind == TYPE_DIR then t.names[id := map[]] else t.names;
      PairsWithEmpty(t.names, id);
      PairsPut(names, p, n, id);
    }
  }

  lemma LinkPairs(t: Tree, p: nat, n: Name, x: nat)
    requires Forest(t)
    ensures var c := Link(t, p, n, x);
            if c.1.Done? then (p, n) !in Pairs(t.names) && Pairs(c.0.names) == Pairs(t.names) + {(p, n)} else c.0 == t
  {
    hide Structure, CountsOk, Pairs;
    if Link(t, p, n, x).1.Done? { PairsPut(t.names, p, n, x); }
  }

  lemma PairsWithout(names: map<nat, Names>, d: nat)
    requires d in names ==> names[d] == map[]
    ensures Pairs(names - {d}) == Pairs(names)
  {}

  lemma UnlinkPairs(t: Tree, p: nat, n: Name)
    requires Forest(t)
    ensures var c := Unlink(t, p, n);
            if c.1.Done? then (p, n) in Pairs(t.names) && Pairs(c.0.names) == Pairs(t.names) - {(p, n)} else c.0 == t
  {
    hide Structure, CountsOk, Pairs;
    if Unlink(t, p, n).1.Done? {
      PairsDrop(t.names, p, n);
      KnownDir(t, t.names[p][n]);
      PairsWithout(DropName(t.names, p, n), t.names[p][n]);
    }
  }

  lemma RmdirPairs(t: Tree, p: nat, n: Name)
    requires Forest(t)
    ensures var c := Rmdir(t, p, n);
            if c.1.Done? then (p, n) in Pairs(t.names) && Pairs(c.0.names) == Pairs(t.names) - {(p, n)} else c.0 == t
  {
    hide Structure, CountsOk, Pairs;
    if Rmdir(t, p, n).1.Done? {
      PairsDrop(t.names, p, n);
      NotItself(t, p, n);
      PairsWithout(DropName(t.names, p, n), t.names[p][n]);
    }
  }

  lemma AdmitsLess(key: Keying, f: Bloom.Filter, pairs: set<(nat, Name)>, fewer: set<(nat, Name)>)
    requires Admits(key, f, pairs) && fewer <= pairs
    ensures Admits(key, f, fewer)
  {
    hide Bloom.Test;
  }

  /** The tombstones a move leaves mask a live name exactly when it has the low word of the name moved away. */
  lemma MoveMask(key: Keying, deleted: set<nat>, was: set<(nat, Name)>, left: set<(nat, Name)>, sp: nat, sn: Name,
      dp: nat, dn: Name)
    requires left <= was + {(dp, dn)} - {(sp, sn)}
    ensures Unmasked(key, deleted, was) ==>
              (Unmasked(key, deleted - {key(dp, dn).lo} + {key(sp, sn).lo}, left) <==> !Shares(key, left, sp, sn))
  {
    if Shares(key, left, sp, sn) {
      var p :| p in left && p != (sp, sn) && key(p.0, p.1).lo == key(sp, sn).lo;
    }
  }

  /** The operation takes a name away and leaves another live one with its low word. */
  ghost predicate Masking(key: Keying, t: Tree, op: Op) {
    match op
    case UnlinkOp(p, n) => Unlink(t, p, n).1.Done? && Shares(key, Pairs(t.names), p, n)
    case RmdirOp(p, n) => Rmdir(t, p, n).1.Done? && Shares(key, Pairs(t.names), p, n)
    case RenameOp(sp, sn, dp, dn) => Moves(t, sp, sn, dp, dn) && Shares(key, Pairs(Rename(t, sp, sn, dp, dn).0.names),
      sp, sn)
    case _ => false
  }

  /** The rename succeeds and is not one name onto another of the same inode. */
  ghost predicate Moves(t: Tree, sp: nat, sn: Name, dp: nat, dn: Name) {
    && Rename(t, sp, sn, dp, dn).1.Done? && sp in t.names && dp in t.names && sn in t.names[sp]
    && !(dn in t.names[dp] && t.names[dp][dn] == t.names[sp][sn])
  }

  lemma RenamePairs(t: Tree, sp: nat, sn: Name, dp: nat, dn: Name)
    requires Forest(t) && SafeRename(t, sp, sn, dp, dn)
    ensures var c := Rename(t, sp, sn, dp, dn);
            && (c.1.Failed? || c.1.Done?)
            && (c.1.Done? ==> sp in t.names && dp in t.names && sn in t.names[sp])
            && (!Moves(t, sp, sn, dp, dn) ==> c.0 == t)
            && (Moves(t, sp, sn, dp, dn) ==>
                  && Pairs(c.0.names) <= Pairs(t.names) + {(dp, dn)} - {(sp, sn)}
                  && (CleanRename(t, sp, sn, dp, dn) ==> Pairs(c.0.names) == Pairs(t.names) + {(dp, dn)} - {(sp, sn)})
                  && (sp, sn) in Pairs(t.names) && (sp, sn) != (dp, dn)
                  && ((dp, dn) in Pairs(t.names) <==> dn in t.names[dp]))
  {
    hide Structure, CountsOk, Pairs, Reaches;
    PairIn(t.names, sp, sn);
    PairIn(t.names, dp, dn);
    if Moves(t, sp, sn, dp, dn) {
      KnownDir(t, sp);
      KnownDir(t, dp);
      MovePairs(t, sp, sn, dp, dn);
    }
  }

  lemma MovePairs(t: Tree, sp: nat, sn: Name, dp: nat, dn: Name)
    requires Forest(t) && SafeRename(t, sp, sn, dp, dn) && Moves(t, sp, sn, dp, dn) && RenameError(t, sp, sn, dp).None?
    ensures var c := Rename(t, sp, sn, dp, dn).0.names;
            && Pairs(c) <= Pairs(t.names) + {(dp, dn)} - {(sp, sn)}
            && (CleanRename(t, sp, sn, dp, dn) ==> Pairs(c) == Pairs(t.names) + {(dp, dn)} - {(sp, sn)})
  {
    hide Structure, CountsOk, Pairs, Reaches, Rename, Cleared, RenameError;
    RenameErrorNot(t, sp, sn, dp);
    if dn in t.names[dp] {
      var v := t.names[dp][dn];
      RenameIs(t, sp, sn, dp, dn);
      ClearedNames(t, dp, dn);
      PairsDrop(t.names, dp, dn);
      NotItself(t, dp, dn);
      PairsLess(DropName(t.names, dp, dn), Gone(t, v));
      if CleanRename(t, sp, sn, dp, dn) { PairsWithout(DropName(t.names, dp, dn), v); }
      assert DropName(t.names, dp, dn) - {} == DropName(t.names, dp, dn);
      SwungPairs(Cleared(t, dp, dn), sp, sn, dp, dn);
      assert Pairs(t.names) - {(dp, dn)} + {(dp, dn)} == Pairs(t.names) + {(dp, dn)};
    } else {
      RenameIsSwung(t, sp, sn, dp, dn);
      SwungPairs(t, sp, sn, dp, dn);
    }
  }

  lemma PairsLess(names: map<nat, Names>, gone: set<nat>)
    ensures Pairs(names - gone) <= Pairs(names)
  {}

  lemma RenameErrorNot(t: Tree, sp: nat, sn: Name, dp: nat)
    requires RenameError(t, sp, sn, dp).None?
    ensures sp in t.names && sn in t.names[sp] && dp in t.names
  {
    hide Reaches;
  }

  lemma SwungPairs(t: Tree, sp: nat, sn: Name, dp: nat, dn: Name)
    requires sp in t.names && sn in t.names[sp] && dp in t.names && dn !in t.names[dp]
    ensures Pairs(Swung(t, sp, sn, dp, dn).names) == Pairs(t.names) + {(dp, dn)} - {(sp, sn)}
  {
    hide Pairs;
    PairsPut(t.names, dp, dn, t.names[sp][sn]);
    PairsDrop(PutName(t.names, dp, dn, t.names[sp][sn]), sp, sn);
  }
}
