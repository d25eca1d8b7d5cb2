/** One filter and one tombstone set for the whole filesystem, in front of plain directory maps. */
module GlobalFilters {
  import opened Bytes
  import opened Bloom
  import opened Directories

  const REBUILD_THRESHOLD: nat := 16000

  /** The 128-bit hash of a directory and a name. Nothing is assumed of it but its width. */
  type Keying = (nat, Name) -> Hash

  ghost predicate KeyingOk(key: Keying) { forall d: nat, n: Name :: HashOk(key(d, n)) }

  /** Within one directory: the filter takes the whole hash, the index its low word. */
  function InDir(key: Keying, d: nat): Hashing { Hashing(n => key(d, n), n => key(d, n).lo) }

  /** A directory's map and whether it is resident. */
  datatype DirState = DirState(index: Chains, hot: bool)

  type Contents = map<nat, map<Name, nat>>

  ghost function Pairs(contents: Contents): set<(nat, Name)> { set d, n | d in contents && n in contents[d] :: (d, n) }

  function NamesOf(contents: Contents, d: nat): map<Name, nat> { if d in contents then contents[d] else map[] }

  /** Every live key is admitted by the filter. */
  ghost predicate Admits(key: Keying, f: Filter, pairs: set<(nat, Name)>) {
    KeyingOk(key) && FilterOk(f) && forall p :: p in pairs ==> Test(f, key(p.0, p.1))
  }

  /** No live key is masked: none shares its low word with a tombstone. */
  ghost predicate Unmasked(key: Keying, deleted: set<nat>, pairs: set<(nat, Name)>) {
    forall p :: p in pairs ==> key(p.0, p.1).lo !in deleted
  }

  /** Some other live key has the low word of (d, n). */
  ghost predicate Shares(key: Keying, pairs: set<(nat, Name)>, d: nat, n: Name) {
    exists p :: p in pairs && p != (d, n) && key(p.0, p.1).lo == key(d, n).lo
  }

  /** Each directory's index resolves its map. */
  ghost predicate DirsOk(key: Keying, dirs: map<nat, DirState>, contents: Contents) {
    KeyingOk(key) && dirs.Keys == contents.Keys && forall d :: d in dirs ==>
      Indexes(InDir(key, d).index, dirs[d].index, contents[d])
  }

  /** The filter was filled with keys of live names only. */
  ghost predicate KeysOnly(key: Keying, contents: Contents, t: Tuning, f: Filter, order: seq<Hash>) {
    && (forall i :: 0 <= i < |order| ==> HashOk(order[i]) && LiveKey(key, contents, order[i]))
    && f == AddAll(Empty(t.numBlocks, t.k), order)
  }

  ghost predicate LiveKey(key: Keying, contents: Contents, h: Hash) {
    exists d, n :: d in contents && n in contents[d] && key(d, n) == h
  }

  /** The filter has one key more. */
  ghost predicate Gains(f: Filter, f': Filter, h: Hash) { FilterOk(f) && HashOk(h) && f' == Add(f, h) }

  lemma AddNothing(f: Filter)
    requires FilterOk(f)
    ensures AddAll(f, []) == f
  {}

  lemma MoreKeys(key: Keying, contents: Contents, t: Tuning, order: seq<Hash>, d: nat, chains: Chains,
      more: seq<Entry>)
    requires KeyingOk(key) && d in contents && Indexes(InDir(key, d).index, chains, contents[d])
    requires forall i :: 0 <= i < |order| ==> HashOk(order[i]) && LiveKey(key, contents, order[i])
    requires forall e :: e in more ==> InChains(chains, e)
    ensures var hashes, f := BloomHashes(InDir(key, d), more), AddAll(Empty(t.numBlocks, t.k), order);
            KeysOnly(key, contents, t, AddAll(f, hashes), order + hashes)
  {
    hide AddAll, Empty, Indexes;
    var hashes, f := BloomHashes(InDir(key, d), more), Empty(t.numBlocks, t.k);
    AddAllMore(f, order, hashes);
    forall i | 0 <= i < |more| ensures LiveKey(key, contents, hashes[i]) {
      assert more[i] in more;
      Chained(InDir(key, d).index, chains, contents[d], more[i]);
    }
  }

  lemma DirsSet(key: Keying, dirs: map<nat, DirState>, contents: Contents, d: nat, s: DirState, m: map<Name, nat>)
    requires DirsOk(key, dirs, contents) && Indexes(InDir(key, d).index, s.index, m)
    ensures DirsOk(key, dirs[d := s], contents[d := m])
  {
    hide Indexes;
  }

  lemma DirsAt(key: Keying, dirs: map<nat, DirState>, contents: Contents, d: nat)
    requires DirsOk(key, dirs, contents)
    ensures d in dirs <==> d in contents
    ensures d in dirs ==> Indexes(InDir(key, d).index, dirs[d].index, contents[d])
  {
    hide Indexes;
  }

  lemma AdmitMore(key: Keying, f: Filter, pairs: set<(nat, Name)>, d: nat, n: Name)
    requires Admits(key, f, pairs)
    ensures Admits(key, Add(f, key(d, n)), pairs + {(d, n)})
  {
    hide Test, Add;
    AddCovers(f, key(d, n));
  }

  class GlobalFilter {
    const key: Keying
    const tuning: nat -> Tuning
    var filter: Filter
    var deleted: set<nat>
    var dirs: map<nat, DirState>
    var live: nat
    var threshold: nat

    /** The plain per-directory maps this stands for. */
    ghost var contents: Contents

    ghost predicate Valid()
      reads this
    {
      Admits(key, filter, Pairs(contents)) && live == |Pairs(contents)| && DirsOk(key, dirs, contents)
    }

    ghost predicate Precise()
      reads this
    {
      Unmasked(key, deleted, Pairs(contents))
    }

    ghost function View(): FilterState
      reads this
    {
      FilterState(contents, deleted, Hot(dirs))
    }

    constructor (key: Keying, tuning: nat -> Tuning, expected: nat)
      requires KeyingOk(key)
      ensures Valid() && Precise() && View() == FilterState(map[], {}, {}) && this.key == key
                && threshold == REBUILD_THRESHOLD
    {
      var t := tuning(Max(expected, 1));
      this.key, this.tuning := key, tuning;
      filter, deleted, dirs, live, threshold := Empty(t.numBlocks, t.k), {}, map[], 0, REBUILD_THRESHOLD;
      contents := map[];
    }

    /** A resident directory answers from its map; a cold one through the filter and the tombstones. */
    method Lookup(d: nat, name: Name) returns (r: Option<nat>)
      requires Valid()
      ensures d in dirs && dirs[d].hot ==> r == Get(NamesOf(contents, d), name)
      ensures !(d in dirs && dirs[d].hot) ==>
                r == if key(d, name).lo in deleted then None else Get(NamesOf(contents, d), name)
      ensures Precise() ==> r == Get(NamesOf(contents, d), name)
    {
      hide Test, Indexes, DirsOk;
      var h := key(d, name);
      DirsAt(key, dirs, contents, d);
      assert name in NamesOf(contents, d) ==> (d, name) in Pairs(contents);
      if d !in dirs || !dirs[d].hot {
        if !Test(filter, h) {
          return None;
        }
        if h.lo in deleted {
          return None;
        }
      }
      if d !in dirs {
        return None;
      }
      ResolvesTo(InDir(key, d).index, dirs[d].index, contents[d], name);
      return Resolve(InDir(key, d).index, dirs[d].index, name);
    }

    /** The directory's record, made if it has none. */
    method DirEntry(d: nat)
      requires Valid()
      modifies this`dirs, this`contents
      ensures Valid() && d in dirs && d in contents && contents == WithDir(old(contents), d)
                && Pairs(contents) == Pairs(old(contents))
      ensures d in old(dirs) ==> dirs == old(dirs)
      ensures Hot(dirs) == Hot(old(dirs)) && SameBut(old(dirs), dirs, d)
    {
      hide Test, Indexes, Admits, Pairs, DirsOk;
      DirsAt(key, dirs, contents, d);
      if d !in dirs {
        EmptyIndexes(InDir(key, d).index);
        DirsSet(key, dirs, contents, d, DirState(map[], false), map[]);
        PairsWithEmpty(contents, d);
        dirs := dirs[d := DirState(map[], false)];
        contents := contents[d := map[]];
      }
    }

    method MarkResident(d: nat)
      requires Valid()
      modifies this`dirs, this`contents
      ensures Valid() && d in dirs && dirs[d].hot && contents == WithDir(old(contents), d)
                && Pairs(contents) == Pairs(old(contents))
      ensures Hot(dirs) == Hot(old(dirs)) + {d} && SameBut(old(dirs), dirs, d)
    {
      hide Test, Indexes, Admits, Pairs, DirsOk;
      DirEntry(d);
      DirsAt(key, dirs, contents, d);
      DirsSet(key, dirs, contents, d, dirs[d].(hot := true), contents[d]);
      assert contents[d := contents[d]] == contents;
      dirs := dirs[d := dirs[d].(hot := true)];
    }

    method Evict(d: nat)
      requires Valid()
      modifies this`dirs
      ensures Valid() && (d in dirs ==> !dirs[d].hot)
      ensures Hot(dirs) == Hot(old(dirs)) - {d} && SameBut(old(dirs), dirs, d) && dirs.Keys == old(dirs).Keys
    {
      hide Test, Indexes, Admits, Pairs, DirsOk;
      if d in dirs {
        DirsAt(key, dirs, contents, d);
        DirsSet(key, dirs, contents, d, dirs[d].(hot := false), contents[d]);
        assert contents[d := contents[d]] == contents;
        dirs := dirs[d := dirs[d].(hot := false)];
      }
    }

    /** Link a name. Its own tombstone is cleared, so a precise filter stays precise. */
    method Create(d: nat, name: Name, inode: nat) returns (added: bool)
      requires Valid()
      modifies this`filter, this`deleted, this`dirs, this`live, this`contents
      ensures Valid() && added == (name !in NamesOf(old(contents), d)) && (old(Precise()) ==> Precise())
      ensures contents == if added then WithName(old(contents), d, name, inode) else WithDir(old(contents), d)
      ensures deleted == if added then old(deleted) - {key(d, name).lo} else old(deleted)
      ensures Hot(dirs) == Hot(old(dirs))
      ensures if added then Gains(old(filter), filter, key(d, name)) else filter == old(filter)
    {
      hide Test, Indexes, Admits, Resolve, Pairs, DirsOk, Unmasked, Hot, SameBut, Gains;
      DirEntry(d);
      DirsAt(key, dirs, contents, d);
      ResolvesTo(InDir(key, d).index, dirs[d].index, contents[d], name);
      if Resolve(InDir(key, d).index, dirs[d].index, name).Some? {
        return false;
      }
      Admit(d, name);
      AppendIndexes(InDir(key, d).index, dirs[d].index, contents[d], name, inode);
      var s := dirs[d].(index := Appended(dirs[d].index, key(d, name).lo, Entry(name, inode)));
      DirsSet(key, dirs, contents, d, s, Put(contents[d], name, inode));
      PairsPut(contents, d, name, inode);
      HotSame(dirs, d, s);
      dirs := dirs[d := s];
      live := live + 1;
      contents := contents[d := Put(contents[d], name, inode)];
      return true;
    }

    /** Clear a key's tombstone and admit it to the filter. */
    method Admit(d: nat, name: Name)
      requires Admits(key, filter, Pairs(contents))
      modifies this`filter, this`deleted
      ensures Admits(key, filter, Pairs(contents) + {(d, name)}) && deleted == old(deleted) - {key(d, name).lo}
      ensures Gains(old(filter), filter, key(d, name))
      ensures Unmasked(key, old(deleted), Pairs(contents)) ==> Unmasked(key, deleted, Pairs(contents) + {(d, name)})
    {
      hide Test, Admits, Pairs;
      var h := key(d, name);
      deleted := deleted - {h.lo};
      AdmitMore(key, filter, Pairs(contents), d, name);
      AdmitsOk(key, filter, Pairs(contents));
      filter := Add(filter, h);
    }

    /**
     Unlink a name: out of the map first, then a tombstone. A precise filter stays so unless another live key has that
     low word.
     */
    method Unlink(d: nat, name: Name) returns (removed: bool)
      requires Valid()
      modifies this`filter, this`deleted, this`dirs, this`live, this`contents
      ensures Valid() && removed == (name in NamesOf(old(contents), d))
      ensures contents == if removed then WithoutName(old(contents), d, name) else old(contents)
      ensures deleted == if removed then Tombstoned(old(deleted), key(d, name).lo, threshold) else old(deleted)
      ensures old(Precise()) && removed ==>
                (Precise() <==> |old(deleted) + {key(d, name).lo}| >= threshold || !Shares(key, old(Pairs(contents)), d,
                  name))
      ensures Hot(dirs) == Hot(old(dirs))
    {
      hide Test, Indexes, Admits, Shares, Unmasked, Pairs, DirsOk, Dropped, Hot;
      DirsAt(key, dirs, contents, d);
      if d !in dirs {
        return false;
      }
      var h := key(d, name);
      ChainTells(InDir(key, d).index, dirs[d].index, contents[d], name);
      if h.lo !in dirs[d].index {
        return false;
      }
      var pos := Position(dirs[d].index[h.lo], name);
      if pos.None? {
        return false;
      }
      DropIndexes(InDir(key, d).index, dirs[d].index, contents[d], h.lo, pos.value);
      var s := dirs[d].(index := Dropped(dirs[d].index, h.lo, pos.value));
      DirsSet(key, dirs, contents, d, s, contents[d] - {name});
      PairsDrop(contents, d, name);
      AdmitsFewer(key, filter, Pairs(contents), d, name);
      MaskedBy(key, deleted, Pairs(contents), d, name);
      HotSame(dirs, d, s);
      dirs := dirs[d := s];
      contents := contents[d := contents[d] - {name}];
      live := live - 1;
      deleted := deleted + {h.lo};
      if |deleted| >= threshold {
        Rebuild();
        NothingMasked(key, Pairs(contents));
      }
      return true;
    }

    /** Rebuild the filter from the live names and forget the tombstones. */
    method Rebuild()
      requires Valid()
      modifies this`filter, this`deleted
      ensures Valid() && deleted == {}
      ensures exists order :: KeysOnly(key, contents, tuning(Max(live, 1)), filter, order)
    {
      hide Test, Indexes, DirsOk, AddAll, Empty;
      var t := tuning(Max(live, 1));
      var f := Empty(t.numBlocks, t.k);
      ghost var order: seq<Hash> := [];
      AddNothing(f);
      var todo := dirs.Keys;
      forall d | d in contents ensures d in dirs { DirsAt(key, dirs, contents, d); }
      while todo != {}
        invariant FilterOk(f) && todo <= dirs.Keys
        invariant forall d, n :: d in contents && d !in todo && n in contents[d] ==> Test(f, key(d, n))
        invariant KeysOnly(key, contents, t, f, order)
        decreases todo
      {
        var d :| d in todo;
        DirsAt(key, dirs, contents, d);
        ghost var more;
        f, more := AdmitIndex(InDir(key, d), f, dirs[d].index);
        MoreKeys(key, contents, t, order, d, dirs[d].index, more);
        order := order + BloomHashes(InDir(key, d), more);
        AdmittedNames(InDir(key, d), f, dirs[d].index, contents[d]);
        assert forall n :: n in contents[d] ==> Test(f, InDir(key, d).bloom(n));
        todo := todo - {d};
      }
      filter, deleted := f, {};
    }

    /** Any one call, against its meaning on the state as a value. */
    method Serve(q: FilterCall) returns (r: FilterReply)
      requires Valid()
      modifies this`filter, this`deleted, this`dirs, this`live, this`contents
      ensures Valid() && (View(), r) == Step(key, threshold, old(View()), q)
    {
      hide Valid, Shares, Unmasked, Pairs;
      match q
      case CreateOf(d, n, inode) =>
        var added := Create(d, n, inode);
        return Flag(added);
      case UnlinkOf(d, n) =>
        var removed := Unlink(d, n);
        return Flag(removed);
      case LookupOf(d, n) =>
        var found := Lookup(d, n);
        return Found(found);
      case ResidentOf(d) =>
        MarkResident(d);
        return Nothing;
      case EvictOf(d) =>
        Evict(d);
        return Nothing;
      case RebuildAll =>
        Rebuild();
        return Nothing;
    }

    /** A whole script of calls. While no removal masks a live name, every reply is the one plain maps give. */
    method Play(qs: seq<FilterCall>) returns (rs: seq<FilterReply>)
      requires Valid()
      modifies this`filter, this`deleted, this`dirs, this`live, this`contents
      ensures Valid() && (View(), rs) == Run(key, threshold, old(View()), qs)
      ensures old(Precise()) && NeverMasks(key, threshold, old(View()), qs) ==>
                Precise() && (contents, rs) == PlainRun(old(contents), qs)
    {
      hide Valid, Step, NeverMasks, Unmasked, Pairs, PlainRun;
      rs := [];
      var i := 0;
      assert qs[0..] == qs && Then([], Run(key, threshold, View(), qs)) == Run(key, threshold, View(), qs) by {
        assert [] + Run(key, threshold, View(), qs).1 == Run(key, threshold, View(), qs).1;
      }
      while i < |qs|
        invariant 0 <= i <= |qs| && Valid() && Then(rs, Run(key, threshold, View(), qs[i..])) ==
                  Run(key, threshold, old(View()), qs)
      {
        assert qs[i..][1..] == qs[i + 1..];
        ThenNext(rs, key, threshold, View(), qs[i..]);
        var r := Serve(qs[i]);
        rs := rs + [r];
        i := i + 1;
      }
      assert rs + [] == rs && qs[i..] == [];
      ScriptAnswers(key, threshold, old(View()), qs);
    }
  }

  // ----- scripts of calls -----

  /** The filter as a value: the maps it stands for, the tombstones, the resident directories. */
  datatype FilterState = FilterState(contents: Contents, deleted: set<nat>, hot: set<nat>)

  datatype FilterCall =
    | CreateOf(d: nat, name: Name, inode: nat)
    | UnlinkOf(d: nat, name: Name)
    | LookupOf(d: nat, name: Name)
    | ResidentOf(d: nat)
    | EvictOf(d: nat)
    | RebuildAll

  datatype FilterReply = Flag(yes: bool) | Found(inode: Option<nat>) | Nothing

  ghost function Hot(dirs: map<nat, DirState>): set<nat> { set d | d in dirs && dirs[d].hot }

  /** Directories other than `d` are as they were. */
  ghost predicate SameBut(was: map<nat, DirState>, dirs: map<nat, DirState>, d: nat) {
    forall e :: e != d ==> (e in dirs <==> e in was) && (e in was ==> dirs[e] == was[e])
  }

  lemma HotSame(dirs: map<nat, DirState>, d: nat, s: DirState)
    requires d in dirs && dirs[d].hot == s.hot
    ensures Hot(dirs[d := s]) == Hot(dirs)
  {}

  /** The tombstones once one is added; too many of them make a rebuild, which leaves none. */
  ghost function Tombstoned(deleted: set<nat>, lo: nat, threshold: nat): set<nat> {
    if |deleted + {lo}| >= threshold then {} else deleted + {lo}
  }

  /** A cold lookup, which a tombstone can mask. */
  ghost function ColdAnswer(key: Keying, s: FilterState, d: nat, n: Name): Option<nat> {
    if key(d, n).lo in s.deleted then None else Get(NamesOf(s.contents, d), n)
  }

  ghost function Step(key: Keying, threshold: nat, s: FilterState, q: FilterCall): (FilterState, FilterReply) {
    match q
    case CreateOf(d, n, inode) =>
      if n in NamesOf(s.contents, d) then (s.(contents := WithDir(s.contents, d)), Flag(false))
      else (s.(contents := WithName(s.contents, d, n, inode), deleted := s.deleted - {key(d, n).lo}), Flag(true))
    case UnlinkOf(d, n) =>
      if n !in NamesOf(s.contents, d) then (s, Flag(false))
      else (s.(contents := WithoutName(s.contents, d, n), deleted := Tombstoned(s.deleted, key(d, n).lo, threshold)),
        Flag(true))
    case LookupOf(d, n) => (s, Found(if d in s.hot then Get(NamesOf(s.contents, d), n) else ColdAnswer(key, s, d, n)))
    case ResidentOf(d) => (s.(contents := WithDir(s.contents, d), hot := s.hot + {d}), Nothing)
    case EvictOf(d) => (s.(hot := s.hot - {d}), Nothing)
    case RebuildAll => (s.(deleted := {}), Nothing)
  }

  ghost function Run(key: Keying, threshold: nat, s: FilterState, qs: seq<FilterCall>): (FilterState, seq<FilterReply>)
    decreases |qs|
  {
    if qs == [] then (s, [])
    else
      var step := Step(key, threshold, s, qs[0]);
      Then([step.1], Run(key, threshold, step.0, qs[1..]))
  }

  ghost function Then<T>(rs: seq<FilterReply>, rest: (T, seq<FilterReply>)): (T, seq<FilterReply>) {
    (rest.0, rs + rest.1)
  }

  /** The same calls on plain maps, with no filter in front. */
  ghost function PlainStep(c: Contents, q: FilterCall): (Contents, FilterReply) {
    match q
    case CreateOf(d, n, inode) =>
      if n in NamesOf(c, d) then (WithDir(c, d), Flag(false)) else (WithName(c, d, n, inode), Flag(true))
    case UnlinkOf(d, n) => if n in NamesOf(c, d) then (WithoutName(c, d, n), Flag(true)) else (c, Flag(false))
    case LookupOf(d, n) => (c, Found(Get(NamesOf(c, d), n)))
    case ResidentOf(d) => (WithDir(c, d), Nothing)
    case EvictOf(_) => (c, Nothing)
    case RebuildAll => (c, Nothing)
  }

  ghost function PlainRun(c: Contents, qs: seq<FilterCall>): (Contents, seq<FilterReply>)
    decreases |qs|
  {
    if qs == [] then (c, []) else var step := PlainStep(c, qs[0]); Then([step.1], PlainRun(step.0, qs[1..]))
  }

  /** The call removes a name, another live one has its low word, and no rebuild follows. */
  ghost predicate Masks(key: Keying, threshold: nat, s: FilterState, q: FilterCall) {
    && q.UnlinkOf? && q.name in NamesOf(s.contents, q.d) && Shares(key, Pairs(s.contents), q.d, q.name)
    && |s.deleted + {key(q.d, q.name).lo}| < threshold
  }

  ghost predicate NeverMasks(key: Keying, threshold: nat, s: FilterState, qs: seq<FilterCall>)
    decreases |qs|
  {
    qs == [] || (!Masks(key, threshold, s, qs[0]) && NeverMasks(key, threshold, Step(key, threshold, s, qs[0]).0,
      qs[1..]))
  }

  ghost predicate PreciseState(key: Keying, s: FilterState) { Unmasked(key, s.deleted, Pairs(s.contents)) }

  /** Every state of the script is precise. */
  ghost predicate PreciseAlong(key: Keying, threshold: nat, s: FilterState, qs: seq<FilterCall>)
    decreases |qs|
  {
    PreciseState(key, s) && (qs == [] || PreciseAlong(key, threshold, Step(key, threshold, s, qs[0]).0, qs[1..]))
  }

  lemma ThenNext(rs: seq<FilterReply>, key: Keying, threshold: nat, s: FilterState, qs: seq<FilterCall>)
    requires qs != []
    ensures var step := Step(key, threshold, s, qs[0]);
            Then(rs, Run(key, threshold, s, qs)) == Then(rs + [step.1], Run(key, threshold, step.0, qs[1..]))
  {
    hide Step;
    var step := Step(key, threshold, s, qs[0]);
    var rest := Run(key, threshold, step.0, qs[1..]);
    assert rs + ([step.1] + rest.1) == rs + [step.1] + rest.1;
  }

  /** A precise state answers every cold lookup as the maps do, and only a precise one. */
  lemma PreciseAnswers(key: Keying, s: FilterState)
    ensures PreciseState(key, s) <==> forall d: nat, n: Name ::
              ColdAnswer(key, s, d, n) == Get(NamesOf(s.contents, d), n)
  {
    if forall d: nat, n: Name :: ColdAnswer(key, s, d, n) == Get(NamesOf(s.contents, d), n) {
      forall p | p in Pairs(s.contents) ensures key(p.0, p.1).lo !in s.deleted {
        assert ColdAnswer(key, s, p.0, p.1) == Get(NamesOf(s.contents, p.0), p.1);
      }
    }
    forall d: nat, n: Name | PreciseState(key, s) ensures ColdAnswer(key, s, d, n) == Get(NamesOf(s.contents, d), n) {
      assert n in NamesOf(s.contents, d) ==> (d, n) in Pairs(s.contents);
    }
  }

  /** One call keeps a precise state precise exactly when it does not mask. */
  lemma StepPrecise(key: Keying, threshold: nat, s: FilterState, q: FilterCall)
    requires PreciseState(key, s)
    ensures PreciseState(key, Step(key, threshold, s, q).0) <==> !Masks(key, threshold, s, q)
  {
    hide Pairs, Shares, Unmasked;
    match q {
      case CreateOf(d, n, inode) =>
        var c := WithDir(s.contents, d);
        PairsWithEmpty(s.contents, d);
        if n !in NamesOf(s.contents, d) {
          PairsPut(c, d, n, inode);
          assert c[d := Put(c[d], n, inode)] == WithName(s.contents, d, n, inode);
          UnmaskedWith(key, s.deleted, Pairs(c), d, n);
        }
      case UnlinkOf(d, n) =>
        if n in NamesOf(s.contents, d) {
          PairsDrop(s.contents, d, n);
          MaskedBy(key, s.deleted, Pairs(s.contents), d, n);
          NothingMasked(key, Pairs(s.contents) - {(d, n)});
        }
      case ResidentOf(d) => PairsWithEmpty(s.contents, d);
      case RebuildAll => NothingMasked(key, Pairs(s.contents));
      case _ =>
    }
  }

  /** Admitting a name clears the one tombstone that could mask it. */
  lemma UnmaskedWith(key: Keying, deleted: set<nat>, pairs: set<(nat, Name)>, d: nat, n: Name)
    requires Unmasked(key, deleted, pairs)
    ensures Unmasked(key, deleted - {key(d, n).lo}, pairs + {(d, n)})
  {}

  /** Every state of a script is precise exactly when none of its calls masks. */
  lemma {:induction false} ScriptPrecise(key: Keying, threshold: nat, s: FilterState, qs: seq<FilterCall>)
    requires PreciseState(key, s)
    ensures PreciseAlong(key, threshold, s, qs) <==> NeverMasks(key, threshold, s, qs)
    decreases |qs|
  {
    hide Step, Masks, PreciseState;
    if qs != [] {
      StepPrecise(key, threshold, s, qs[0]);
      var next := Step(key, threshold, s, qs[0]).0;
      if PreciseState(key, next) { ScriptPrecise(key, threshold, next, qs[1..]); }
    }
  }

  /** A script whose calls never mask is answered as by plain maps. */
  lemma {:induction false} ScriptAnswers(key: Keying, threshold: nat, s: FilterState, qs: seq<FilterCall>)
    ensures var run := Run(key, threshold, s, qs);
            PreciseState(key, s) && NeverMasks(key, threshold, s, qs) ==>
              PreciseState(key, run.0) && (run.0.contents, run.1) == PlainRun(s.contents, qs)
    decreases |qs|
  {
    hide Step, Masks, PreciseState, PlainStep;
    if PreciseState(key, s) && NeverMasks(key, threshold, s, qs) && qs != [] {
      StepPrecise(key, threshold, s, qs[0]);
      StepAnswers(key, threshold, s, qs[0]);
      ScriptAnswers(key, threshold, Step(key, threshold, s, qs[0]).0, qs[1..]);
    }
  }

  /** Two names with one low word: removing the first hides the second from a cold lookup. */
  lemma MaskedLookup()
    ensures var key: Keying := (d: nat, n: Name) => Hash(0, 0);
            var c: Contents := map[0 := map[[97] := 1, [98] := 2]];
            var qs := [UnlinkOf(0, [97]), LookupOf(0, [98])];
            && KeyingOk(key) && PreciseState(key, FilterState(c, {}, {}))
            && Run(key, REBUILD_THRESHOLD, FilterState(c, {}, {}), qs).1 == [Flag(true), Found(None)]
            && PlainRun(c, qs).1 == [Flag(true), Found(Some(2))]
  {
    var key: Keying := (d: nat, n: Name) => Hash(0, 0);
    var c: Contents := map[0 := map[[97] := 1, [98] := 2]];
    var qs := [UnlinkOf(0, [97]), LookupOf(0, [98])];
    var s := FilterState(c, {}, {});
    var s1 := Step(key, REBUILD_THRESHOLD, s, qs[0]).0;
    assert [97] != [98] by { assert [97][0] != [98][0]; }
    assert qs[1..] == [qs[1]] && qs[1..][1..] == [];
    assert {} + {key(0, [97]).lo} == {0} && s1.deleted == {0};
    assert Run(key, REBUILD_THRESHOLD, s1, qs[1..]).1 == [Found(None)];
    var c1 := PlainStep(c, qs[0]).0;
    assert PlainRun(c1, qs[1..]).1 == [Found(Some(2))];
  }

  lemma StepAnswers(key: Keying, threshold: nat, s: FilterState, q: FilterCall)
    requires PreciseState(key, s)
    ensures var step := Step(key, threshold, s, q); (step.0.contents, step.1) == PlainStep(s.contents, q)
  {
    hide Pairs, PreciseState, ColdAnswer;
    PreciseAnswers(key, s);
  }

  function WithDir(contents: Contents, d: nat): Contents { if d in contents then contents else contents[d := map[]] }

  ghost function WithoutName(contents: Contents, d: nat, n: Name): Contents
    requires d in contents
  {
    contents[d := contents[d] - {n}]
  }

  function WithName(contents: Contents, d: nat, n: Name, id: nat): Contents {
    contents[d := Put(NamesOf(contents, d), n, id)]
  }

  lemma ResolvesTo(ix: Name -> nat, chains: Chains, m: map<Name, nat>, name: Name)
    requires Indexes(ix, chains, m)
    ensures Resolve(ix, chains, name) == Get(m, name)
  {}

  lemma EmptyIndexes(ix: Name -> nat)
    ensures Indexes(ix, map[], map[])
  {}

  lemma AdmitsOk(key: Keying, f: Filter, pairs: set<(nat, Name)>)
    requires Admits(key, f, pairs)
    ensures FilterOk(f) && KeyingOk(key)
  {}

  lemma PairsWithEmpty(contents: Contents, d: nat)
    ensures d !in contents ==> Pairs(contents[d := map[]]) == Pairs(contents)
  {}

  lemma PairsPut(contents: Contents, d: nat, n: Name, id: nat)
    requires d in contents && n !in contents[d]
    ensures Pairs(contents[d := Put(contents[d], n, id)]) == Pairs(contents) + {(d, n)} && (d, n) !in Pairs(contents)
  {}

  lemma PairsDrop(contents: Contents, d: nat, n: Name)
    requires d in contents && n in contents[d]
    ensures Pairs(contents[d := contents[d] - {n}]) == Pairs(contents) - {(d, n)} && (d, n) in Pairs(contents)
  {}

  lemma AdmitsFewer(key: Keying, f: Filter, pairs: set<(nat, Name)>, d: nat, n: Name)
    requires Admits(key, f, pairs)
    ensures Admits(key, f, pairs - {(d, n)})
  {
    hide Test;
  }

  /** A new tombstone masks a live key exactly when another one shares its low word. */
  lemma MaskedBy(key: Keying, deleted: set<nat>, pairs: set<(nat, Name)>, d: nat, n: Name)
    ensures Unmasked(key, deleted, pairs) ==>
              (Unmasked(key, deleted + {key(d, n).lo}, pairs - {(d, n)}) <==> !Shares(key, pairs, d, n))
  {
    if Shares(key, pairs, d, n) {
      var p :| p in pairs && p != (d, n) && key(p.0, p.1).lo == key(d, n).lo;
      assert p in pairs - {(d, n)};
    }
  }

  lemma NothingMasked(key: Keying, pairs: set<(nat, Name)>)
    ensures Unmasked(key, {}, pairs)
  {}
}
