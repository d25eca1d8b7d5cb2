/** A directory index: segments of bounded size, each a hash index guarded by a Bloom filter. */
module Directories {
  import opened Bytes
  import opened Bloom

  type Name = Bytes

  datatype Entry = Entry(name: Name, inode: nat)

  /** The two hashes of a name: one for the filter, one for the index. Nothing is assumed of them but their width. */
  datatype Hashing = Hashing(bloom: Name -> Hash, index: Name -> nat)

  ghost predicate HashingOk(hs: Hashing) { forall n :: HashOk(hs.bloom(n)) }

  /** The filter's shape for a given capacity; its tuning does not matter for correctness. */
  datatype Tuning = Tuning(numBlocks: nat, k: nat)

  datatype Segment = Segment(filter: Filter, index: map<nat, seq<Entry>>, count: nat, cap: nat, tomb: nat)

  // ----- collision chains -----

  function FindIn(chain: seq<Entry>, name: Name): Option<nat> {
    if chain == [] then None
    else if chain[0].name == name then Some(chain[0].inode)
    else FindIn(chain[1..], name)
  }

  ghost predicate Distinct(chain: seq<Entry>) {
    forall i, j :: 0 <= i < j < |chain| ==> chain[i].name != chain[j].name
  }

  lemma {:induction false} FoundAt(chain: seq<Entry>, name: Name)
    ensures FindIn(chain, name).Some? <==> exists i :: 0 <= i < |chain| && chain[i].name == name
    ensures forall i :: 0 <= i < |chain| && chain[i].name == name && Distinct(chain) ==>
              FindIn(chain, name) == Some(chain[i].inode)
  {
    if chain != [] {
      FoundAt(chain[1..], name);
      if exists i :: 0 <= i < |chain| && chain[i].name == name {
        var i :| 0 <= i < |chain| && chain[i].name == name;
        if i > 0 { assert chain[1..][i - 1].name == name; }
      }
      forall i | 0 <= i < |chain| && chain[i].name == name && Distinct(chain)
        ensures FindIn(chain, name) == Some(chain[i].inode) {
        if i > 0 {
          assert chain[1..][i - 1] == chain[i];
          assert Distinct(chain[1..]);
        }
      }
    }
  }

  lemma {:induction false} FindAppended(chain: seq<Entry>, e: Entry, name: Name)
    ensures FindIn(chain + [e], name) ==
      if FindIn(chain, name).Some? then FindIn(chain, name) else if e.name == name then Some(e.inode) else None
  {
    if chain == [] {
      assert chain + [e] == [e];
      assert [e][1..] == [];
    } else {
      FindAppended(chain[1..], e, name);
      assert (chain + [e])[1..] == chain[1..] + [e];
    }
  }

  /** Swap the last entry into the hole. */
  function SwapRemove(chain: seq<Entry>, pos: nat): (c: seq<Entry>)
    requires pos < |chain|
    ensures |c| == |chain| - 1
  {
    chain[pos := chain[|chain| - 1]][..|chain| - 1]
  }

  lemma SwapRemoved(chain: seq<Entry>, pos: nat, n: Name)
    requires pos < |chain| && Distinct(chain)
    ensures Distinct(SwapRemove(chain, pos))
    ensures FindIn(SwapRemove(chain, pos), n) == if n == chain[pos].name then None else FindIn(chain, n)
  {
    var c, last := SwapRemove(chain, pos), |chain| - 1;
    forall i | 0 <= i < |c| ensures c[i] == if i == pos then chain[last] else chain[i] {}
    FoundAt(chain, n);
    FoundAt(c, n);
    if FindIn(chain, n).Some? && n != chain[pos].name {
      var i :| 0 <= i < |chain| && chain[i].name == n;
      assert c[if i == last then pos else i] == chain[i];
    }
  }

  // ----- a hash index over chains -----

  type Chains = map<nat, seq<Entry>>

  function ChainAt(chains: Chains, h: nat): seq<Entry> { if h in chains then chains[h] else [] }

  function Resolve(ix: Name -> nat, chains: Chains, name: Name): Option<nat> { FindIn(ChainAt(chains, ix(name)), name) }

  function Put(m: map<Name, nat>, name: Name, inode: nat): map<Name, nat> { m[name := inode] }

  function Get(m: map<Name, nat>, name: Name): Option<nat> { if name in m then Some(m[name]) else None }

  ghost predicate ChainsOk(ix: Name -> nat, chains: Chains) {
    forall h :: h in chains ==> Distinct(chains[h]) && forall i :: 0 <= i < |chains[h]| ==> ix(chains[h][i].name) == h
  }

  /** The index resolves exactly the map, whatever the hash function. */
  ghost predicate Indexes(ix: Name -> nat, chains: Chains, m: map<Name, nat>) {
    ChainsOk(ix, chains) && forall n :: Resolve(ix, chains, n) == Get(m, n)
  }

  function Appended(chains: Chains, h: nat, e: Entry): Chains { chains[h := ChainAt(chains, h) + [e]] }

  /** Take entry `pos` out of its chain, and the chain out of the index once it is empty. */
  function Dropped(chains: Chains, h: nat, pos: nat): Chains
    requires h in chains && pos < |chains[h]|
  {
    var c := SwapRemove(chains[h], pos);
    if c == [] then chains - {h} else chains[h := c]
  }

  lemma ChainTells(ix: Name -> nat, chains: Chains, m: map<Name, nat>, name: Name)
    requires Indexes(ix, chains, m)
    ensures var c := ChainAt(chains, ix(name));
            name in m <==> exists i :: 0 <= i < |c| && c[i].name == name
  {
    FoundAt(ChainAt(chains, ix(name)), name);
    assert Resolve(ix, chains, name) == Get(m, name);
  }

  lemma AppendChains(ix: Name -> nat, chains: Chains, m: map<Name, nat>, name: Name, inode: nat)
    requires Indexes(ix, chains, m) && name !in m
    ensures ChainsOk(ix, Appended(chains, ix(name), Entry(name, inode)))
  {
    FoundAt(ChainAt(chains, ix(name)), name);
    assert Resolve(ix, chains, name) == None;
  }

  lemma AppendIndexes(ix: Name -> nat, chains: Chains, m: map<Name, nat>, name: Name, inode: nat)
    requires Indexes(ix, chains, m) && name !in m
    ensures Indexes(ix, Appended(chains, ix(name), Entry(name, inode)), m[name := inode])
  {
    hide ChainsOk;
    AppendChains(ix, chains, m, name, inode);
    forall n ensures Resolve(ix, Appended(chains, ix(name), Entry(name, inode)), n) == Get(m[name := inode], n) {
      FindAppended(ChainAt(chains, ix(name)), Entry(name, inode), n);
      assert Resolve(ix, chains, n) == Get(m, n);
    }
  }

  lemma DropIndexes(ix: Name -> nat, chains: Chains, m: map<Name, nat>, h: nat, pos: nat)
    requires Indexes(ix, chains, m) && h in chains && pos < |chains[h]|
    ensures chains[h][pos].name in m && Indexes(ix, Dropped(chains, h, pos), m - {chains[h][pos].name})
  {
    hide SwapRemove;
    var name := chains[h][pos].name;
    FoundAt(chains[h], name);
    assert Resolve(ix, chains, name).Some?;
    forall n ensures Resolve(ix, Dropped(chains, h, pos), n) == Get(m - {name}, n) {
      SwapRemoved(chains[h], pos, n);
      assert Resolve(ix, chains, n) == Get(m, n);
    }
    DropChains(ix, chains, h, pos);
  }

  lemma DropChains(ix: Name -> nat, chains: Chains, h: nat, pos: nat)
    requires ChainsOk(ix, chains) && h in chains && pos < |chains[h]|
    ensures ChainsOk(ix, Dropped(chains, h, pos))
  {
    SwapRemoved(chains[h], pos, []);
  }

  // ----- one segment -----

  /**
   The segment represents the map: the index agrees with it, the filter admits all its names, the count is its size.
   */
  ghost predicate Represents(hs: Hashing, s: Segment, m: map<Name, nat>) {
    && HashingOk(hs) && FilterOk(s.filter) && Indexes(hs.index, s.index, m) && s.count == |m|
    && (forall n :: n in m ==> Test(s.filter, hs.bloom(n)))
  }

  function NewSegment(cap: nat, t: Tuning): Segment { Segment(Empty(t.numBlocks, t.k), map[], 0, cap, 0) }

  lemma NewRepresents(hs: Hashing, cap: nat, t: Tuning)
    requires HashingOk(hs)
    ensures Represents(hs, NewSegment(cap, t), map[])
  {}

  function SegFind(hs: Hashing, s: Segment, name: Name): Option<nat>
    requires HashingOk(hs) && FilterOk(s.filter)
  {
    if !Test(s.filter, hs.bloom(name)) then None else Resolve(hs.index, s.index, name)
  }

  /** The filter never hides a name: finding through it is looking up the map. */
  lemma FindIsGet(hs: Hashing, s: Segment, m: map<Name, nat>, name: Name)
    requires HashingOk(hs) && Represents(hs, s, m)
    ensures SegFind(hs, s, name) == Get(m, name)
  {
    hide Test;
  }

  function SegAdd(hs: Hashing, s: Segment, name: Name, inode: nat): Segment
    requires HashingOk(hs) && FilterOk(s.filter)
  {
    s.(filter := Add(s.filter, hs.bloom(name)), index := Appended(s.index, hs.index(name), Entry(name, inode)),
      count := s.count + 1)
  }

  lemma AddRepresents(hs: Hashing, s: Segment, m: map<Name, nat>, name: Name, inode: nat)
    requires HashingOk(hs) && Represents(hs, s, m) && name !in m
    ensures Represents(hs, SegAdd(hs, s, name, inode), m[name := inode])
    ensures SegAdd(hs, s, name, inode).cap == s.cap && SegAdd(hs, s, name, inode).count == s.count + 1
  {
    hide Test, Add, Indexes;
    AppendIndexes(hs.index, s.index, m, name, inode);
    AddedTests(s.filter, hs.bloom(name));
    forall n | n in m ensures Test(Add(s.filter, hs.bloom(name)), hs.bloom(n)) {
      TestStays(s.filter, hs.bloom(n), hs.bloom(name));
    }
  }

  // ----- removal and the lazy rebuild of the filter -----

  /** Every name of the chains tests true. */
  ghost predicate AllAdmitted(hs: Hashing, f: Filter, chains: Chains)
    requires HashingOk(hs) && FilterOk(f)
  {
    forall h, i :: h in chains && 0 <= i < |chains[h]| ==> Test(f, hs.bloom(chains[h][i].name))
  }

  ghost function BloomHashes(hs: Hashing, es: seq<Entry>): (r: seq<Hash>)
    requires HashingOk(hs)
    ensures |r| == |es| && forall i :: 0 <= i < |es| ==> r[i] == hs.bloom(es[i].name) && HashOk(r[i])
  {
    seq(|es|, i requires 0 <= i < |es| => hs.bloom(es[i].name))
  }

  /** Admit every name of a chain, and nothing else. */
  method AdmitChain(hs: Hashing, f0: Filter, chain: seq<Entry>) returns (f: Filter)
    requires HashingOk(hs) && FilterOk(f0)
    ensures Covers(f, f0) && forall i :: 0 <= i < |chain| ==> Test(f, hs.bloom(chain[i].name))
    ensures f == AddAll(f0, BloomHashes(hs, chain))
  {
    hide Test, Add;
    f := f0;
    var i := 0;
    while i < |chain|
      invariant 0 <= i <= |chain| && Covers(f, f0)
      invariant forall j :: 0 <= j < i ==> Test(f, hs.bloom(chain[j].name))
      invariant f == AddAll(f0, BloomHashes(hs, chain[..i]))
    {
      AddCovers(f, hs.bloom(chain[i].name));
      f := Add(f, hs.bloom(chain[i].name));
      i := i + 1;
      assert BloomHashes(hs, chain[..i])[..i - 1] == BloomHashes(hs, chain[..i - 1]);
    }
    assert chain[..i] == chain;
  }

  ghost predicate InChains(chains: Chains, e: Entry) { exists h :: h in chains && e in chains[h] }

  /** Admit every name of an index, visiting its chains in any order, and nothing else. */
  method AdmitIndex(hs: Hashing, f0: Filter, chains: Chains) returns (f: Filter, ghost order: seq<Entry>)
    requires HashingOk(hs) && FilterOk(f0)
    ensures Covers(f, f0) && AllAdmitted(hs, f, chains)
    ensures f == AddAll(f0, BloomHashes(hs, order)) && forall e :: e in order ==> InChains(chains, e)
  {
    hide Test, AddAll;
    AddNone(hs, f0);
    f, order := f0, [];
    var todo := chains.Keys;
    while todo != {}
      invariant Covers(f, f0) && todo <= chains.Keys
      invariant forall h, i :: h in chains && h !in todo && 0 <= i < |chains[h]| ==>
                Test(f, hs.bloom(chains[h][i].name))
      invariant f == AddAll(f0, BloomHashes(hs, order)) && forall e :: e in order ==> InChains(chains, e)
      decreases todo
    {
      var h :| h in todo;
      f := AdmitChain(hs, f, chains[h]);
      AddChain(hs, f0, order, chains[h]);
      order := order + chains[h];
      todo := todo - {h};
    }
  }

  lemma AddNone(hs: Hashing, f: Filter)
    requires HashingOk(hs) && FilterOk(f)
    ensures AddAll(f, BloomHashes(hs, [])) == f
  {}

  lemma AddChain(hs: Hashing, f: Filter, order: seq<Entry>, chain: seq<Entry>)
    requires HashingOk(hs) && FilterOk(f)
    ensures AddAll(AddAll(f, BloomHashes(hs, order)), BloomHashes(hs, chain)) ==
              AddAll(f, BloomHashes(hs, order + chain))
  {
    hide *;
    HashesJoin(hs, order, chain);
    AddAllMore(f, BloomHashes(hs, order), BloomHashes(hs, chain));
  }

  lemma HashesJoin(hs: Hashing, order: seq<Entry>, chain: seq<Entry>)
    requires HashingOk(hs)
    ensures BloomHashes(hs, order + chain) == BloomHashes(hs, order) + BloomHashes(hs, chain)
  {
    hide HashingOk, HashOk;
    var a, b, c := BloomHashes(hs, order), BloomHashes(hs, chain), BloomHashes(hs, order + chain);
    forall i | 0 <= i < |c| ensures c[i] == (a + b)[i] {
      assert (order + chain)[i] == if i < |order| then order[i] else chain[i - |order|];
    }
  }

  /** The names of the map the index stands for all test true. */
  lemma AdmittedNames(hs: Hashing, f: Filter, chains: Chains, m: map<Name, nat>)
    requires HashingOk(hs) && FilterOk(f) && AllAdmitted(hs, f, chains) && Indexes(hs.index, chains, m)
    ensures forall n :: n in m ==> Test(f, hs.bloom(n))
  {
    hide Test, Indexes;
    forall n | n in m ensures Test(f, hs.bloom(n)) { ChainTells(hs.index, chains, m, n); }
  }

  /** The filter holds the keys of live names only. */
  ghost predicate FilterFrom(hs: Hashing, f: Filter, t: Tuning, m: map<Name, nat>, order: seq<Entry>) {
    && HashingOk(hs) && f == AddAll(Empty(t.numBlocks, t.k), BloomHashes(hs, order))
    && forall e :: e in order ==> e.name in m
  }

  /** Rebuild the filter from the live names. */
  method Rebuild(hs: Hashing, s: Segment, t: Tuning, ghost m: map<Name, nat>) returns (s': Segment)
    requires HashingOk(hs) && Represents(hs, s, m)
    ensures FilterOk(s'.filter) && AllAdmitted(hs, s'.filter, s.index) && s' == s.(filter := s'.filter, tomb := 0)
    ensures exists order :: FilterFrom(hs, s'.filter, t, m, order)
  {
    hide Test, AddAll, Empty, Represents;
    ghost var order;
    var f;
    f, order := AdmitIndex(hs, Empty(t.numBlocks, t.k), s.index);
    forall e | e in order ensures e.name in m { InPart(hs, s, m, e); }
    assert FilterFrom(hs, f, t, m, order);
    return s.(filter := f, tomb := 0);
  }

  lemma InPart(hs: Hashing, s: Segment, m: map<Name, nat>, e: Entry)
    requires Represents(hs, s, m) && InChains(s.index, e)
    ensures e.name in m
  {
    hide Test, Indexes, InChains;
    Chained(hs.index, s.index, m, e);
  }

  lemma Chained(ix: Name -> nat, chains: Chains, m: map<Name, nat>, e: Entry)
    requires Indexes(ix, chains, m) && InChains(chains, e)
    ensures e.name in m
  {
    var h :| h in chains && e in chains[h];
    var j :| 0 <= j < |chains[h]| && chains[h][j] == e;
    ChainTells(ix, chains, m, e.name);
    assert ChainAt(chains, ix(e.name))[j].name == e.name;
  }

  /** First position of a name in a chain. */
  method Position(chain: seq<Entry>, name: Name) returns (p: Option<nat>)
    ensures p.Some? ==> p.value < |chain| && chain[p.value].name == name
    ensures p.None? ==> forall i :: 0 <= i < |chain| ==> chain[i].name != name
  {
    var i := 0;
    while i < |chain|
      invariant 0 <= i <= |chain| && forall j :: 0 <= j < i ==> chain[j].name != name
    {
      if chain[i].name == name {
        return Some(i);
      }
      i := i + 1;
    }
    return None;
  }

  /** The segment without one entry in its index; stale bits stay in the filter. */
  function SegDrop(s: Segment, h: nat, pos: nat): Segment
    requires h in s.index && pos < |s.index[h]| && s.count > 0
  {
    s.(index := Dropped(s.index, h, pos), count := s.count - 1, tomb := s.tomb + 1)
  }

  lemma DropRepresents(hs: Hashing, s: Segment, m: map<Name, nat>, h: nat, pos: nat)
    requires Represents(hs, s, m) && h in s.index && pos < |s.index[h]|
    ensures var name := s.index[h][pos].name;
            name in m && s.count > 0 && Represents(hs, SegDrop(s, h, pos), m - {name})
  {
    hide Test, Indexes;
    var name := s.index[h][pos].name;
    DropIndexes(hs.index, s.index, m, h, pos);
    assert |m - {name}| == |m| - 1 by { assert (m - {name}).Keys == m.Keys - {name}; }
  }

  lemma RebuiltRepresents(hs: Hashing, s: Segment, s': Segment, m: map<Name, nat>)
    requires HashingOk(hs) && Represents(hs, s, m) && FilterOk(s'.filter) && s' == s.(filter := s'.filter, tomb := 0)
    requires AllAdmitted(hs, s'.filter, s.index)
    ensures Represents(hs, s', m)
  {
    hide Test, Indexes;
    AdmittedNames(hs, s'.filter, s.index, m);
  }

  method SegRemove(hs: Hashing, s: Segment, name: Name, t: Tuning, ghost m: map<Name, nat>)
      returns (removed: bool, s': Segment)
    requires HashingOk(hs) && Represents(hs, s, m)
    ensures removed == (name in m) && s'.cap == s.cap
    ensures Represents(hs, s', if removed then m - {name} else m) && s'.count <= s.count
    ensures !removed ==> s' == s
    ensures removed ==>
              if s.tomb + 1 < Max(s.cap / 4, 1) then s'.tomb == s.tomb + 1 && s'.filter == s.filter
              else s'.tomb == 0 && exists order :: FilterFrom(hs, s'.filter, t, m - {name}, order)
  {
    hide Represents, Test, SegDrop, FilterFrom;
    var h := hs.index(name);
    SegmentTells(hs, s, m, name);
    if h !in s.index {
      return false, s;
    }
    var pos := Position(s.index[h], name);
    if pos.None? {
      return false, s;
    }
    DropRepresents(hs, s, m, h, pos.value);
    s' := SegDrop(s, h, pos.value);
    DropCap(s, h, pos.value);
    if s'.tomb >= Max(s'.cap / 4, 1) {
      ghost var s1 := s';
      s' := Rebuild(hs, s', t, m - {name});
      RebuiltRepresents(hs, s1, s', m - {name});
    }
    return true, s';
  }

  lemma DropCap(s: Segment, h: nat, pos: nat)
    requires h in s.index && pos < |s.index[h]| && s.count > 0
    ensures SegDrop(s, h, pos).cap == s.cap && SegDrop(s, h, pos).count < s.count
    ensures SegDrop(s, h, pos).tomb == s.tomb + 1 && SegDrop(s, h, pos).filter == s.filter
  {}

  lemma SegmentTells(hs: Hashing, s: Segment, m: map<Name, nat>, name: Name)
    requires Represents(hs, s, m)
    ensures var c := ChainAt(s.index, hs.index(name)); name in m <==> exists i :: 0 <= i < |c| && c[i].name == name
  {
    hide Test, Indexes;
    ChainTells(hs.index, s.index, m, name);
  }

  // ----- the directory -----

  /** A segment represents its part and does not outgrow the capacity. */
  ghost predicate SegmentFits(hs: Hashing, s: Segment, m: map<Name, nat>, cap: nat) {
    Represents(hs, s, m) && s.cap == cap && s.count <= Max(cap, 1)
  }

  /** The first segment with room has one entry more, or a new one holds it when all are full. */
  ghost predicate Pushed(was: seq<Segment>, now: seq<Segment>) {
    if (exists i :: 0 <= i < |was| && was[i].count < was[i].cap) then
      |now| == |was| && forall i :: 0 <= i < |was| ==>
        if was[i].count < was[i].cap && (forall j :: 0 <= j < i ==> was[j].count >= was[j].cap)
        then now[i].count == was[i].count + 1 else now[i] == was[i]
    else |now| == |was| + 1 && now[..|was|] == was && now[|was|].count == 1
  }

  class Directory {
    const hs: Hashing
    const cap: nat
    const tuning: Tuning
    var segments: seq<Segment>

    /** What the directory means, and how it is spread over the segments. */
    ghost var contents: map<Name, nat>
    ghost var parts: seq<map<Name, nat>>

    ghost predicate Valid()
      reads this
    {
      && HashingOk(hs) && |parts| == |segments| && Spread(contents, parts)
      && forall i :: 0 <= i < |segments| ==> SegmentFits(hs, segments[i], parts[i], cap)
    }

    constructor (hs: Hashing, cap: nat, tuning: Tuning)
      requires HashingOk(hs)
      ensures Valid() && contents == map[] && this.hs == hs
    {
      NewRepresents(hs, cap, tuning);
      this.hs, this.cap, this.tuning := hs, cap, tuning;
      segments := [NewSegment(cap, tuning)];
      contents, parts := map[], [map[]];
    }

    /** Resolving a name is looking it up in the map. */
    method Find(name: Name) returns (r: Option<nat>)
      requires Valid()
      ensures r == Get(contents, name)
    {
      hide Represents, SegFind;
      var i := 0;
      while i < |segments|
        invariant 0 <= i <= |segments| && forall j :: 0 <= j < i ==> name !in parts[j]
      {
        SegmentOk(hs, segments[i], parts[i]);
        FindIsGet(hs, segments[i], parts[i], name);
        var found := SegFind(hs, segments[i], name);
        if found.Some? {
          return found;
        }
        i := i + 1;
      }
      return None;
    }

    /** Put a name known to be absent into the first segment with room, opening a new one if all are full. */
    method PushUnique(name: Name, inode: nat)
      requires Valid() && name !in contents
      modifies this`segments, this`contents, this`parts
      ensures Valid() && contents == old(contents)[name := inode] && Pushed(old(segments), segments)
    {
      hide Represents, SegAdd, Spread, Put;
      var i := 0;
      while i < |segments|
        invariant 0 <= i <= |segments| && segments == old(segments) && contents == old(contents) && parts == old(parts)
        invariant forall j :: 0 <= j < i ==> segments[j].count >= segments[j].cap
      {
        if segments[i].count < segments[i].cap {
          SegmentOk(hs, segments[i], parts[i]);
          SpreadPut(contents, parts, i, name, inode);
          AddRepresents(hs, segments[i], parts[i], name, inode);
          segments := segments[i := SegAdd(hs, segments[i], name, inode)];
          PutIs(parts[i], name, inode);
          parts := parts[i := Put(parts[i], name, inode)];
          contents := contents[name := inode];
          return;
        }
        i := i + 1;
      }
      NewRepresents(hs, cap, tuning);
      var s := NewSegment(cap, tuning);
      AddRepresents(hs, s, map[], name, inode);
      segments := segments + [SegAdd(hs, s, name, inode)];
      SpreadNew(contents, parts, name, inode);
      PutIs(map[], name, inode);
      parts := parts + [Put(map[], name, inode)];
      contents := contents[name := inode];
    }

    /** Link a name; false if it exists anywhere. */
    method Insert(name: Name, inode: nat) returns (added: bool)
      requires Valid()
      modifies this`segments, this`contents, this`parts
      ensures Valid() && added == (name !in old(contents))
      ensures contents == if added then old(contents)[name := inode] else old(contents)
      ensures if added then Pushed(old(segments), segments) else segments == old(segments)
    {
      hide Represents, Spread, Pushed;
      var found := Find(name);
      if found.Some? {
        return false;
      }
      PushUnique(name, inode);
      return true;
    }

    /** Unlink a name; false if it was not present. */
    method Delete(name: Name) returns (removed: bool)
      requires Valid()
      modifies this`segments, this`contents, this`parts
      ensures Valid() && removed == (name in old(contents)) && contents == old(contents) - {name}
    {
      hide Represents;
      var i := 0;
      while i < |segments|
        invariant 0 <= i <= |segments| && Valid() && contents == old(contents)
        invariant forall j :: 0 <= j < i ==> name !in parts[j]
      {
        var gone, s := SegRemove(hs, segments[i], name, tuning, parts[i]);
        segments := segments[i := s];
        if gone {
          SpreadDrop(contents, parts, i, name);
          parts := parts[i := parts[i] - {name}];
          contents := contents - {name};
          return true;
        }
        i := i + 1;
      }
      assert contents - {name} == contents;
      return false;
    }

    /** The number of entries. */
    method Len() returns (n: nat)
      requires Valid()
      ensures n == |contents|
    {
      n := 0;
      var i := 0;
      while i < |segments|
        invariant 0 <= i <= |segments| && n == Total(parts[..i])
      {
        n := n + segments[i].count;
        i := i + 1;
        assert parts[..i][..i - 1] == parts[..i - 1];
      }
      assert parts[..i] == parts;
      TotalIs(contents, parts);
    }

    /** Every name with its inode, each once, in some order. */
    method Entries() returns (out: seq<Entry>)
      requires Valid()
      ensures Lists(out, contents)
    {
      hide Represents, Spread, Lists, Listed;
      out := [];
      var i := 0;
      ListedNone(contents, parts);
      while i < |segments|
        invariant 0 <= i <= |segments| && Listed(out, contents, parts, i)
      {
        var more := SegEntries(hs, segments[i], parts[i]);
        ListNext(out, more, contents, parts, i);
        out := out + more;
        i := i + 1;
      }
      ListedAll(out, contents, parts);
    }
  }

  lemma ListedNone(whole: map<Name, nat>, parts: seq<map<Name, nat>>)
    ensures Listed([], whole, parts, 0)
  {}

  lemma PutIs(m: map<Name, nat>, name: Name, inode: nat)
    ensures Put(m, name, inode) == m[name := inode]
  {}

  lemma SegmentOk(hs: Hashing, s: Segment, m: map<Name, nat>)
    requires Represents(hs, s, m)
    ensures FilterOk(s.filter)
  {}

  /** The parts are disjoint and together make up the whole. */
  ghost predicate Spread(whole: map<Name, nat>, parts: seq<map<Name, nat>>) {
    && (forall n :: n in whole ==> exists i :: 0 <= i < |parts| && n in parts[i])
    && (forall i, n :: 0 <= i < |parts| && n in parts[i] ==> n in whole && whole[n] == parts[i][n])
    && (forall i, j, n :: 0 <= i < j < |parts| ==> !(n in parts[i] && n in parts[j]))
  }

  lemma SpreadPut(whole: map<Name, nat>, parts: seq<map<Name, nat>>, i: nat, name: Name, inode: nat)
    requires Spread(whole, parts) && i < |parts| && name !in whole
    ensures name !in parts[i] && Spread(whole[name := inode], parts[i := Put(parts[i], name, inode)])
  {
    var whole', parts' := whole[name := inode], parts[i := Put(parts[i], name, inode)];
    forall n | n in whole' ensures exists j :: 0 <= j < |parts'| && n in parts'[j] {
      if n == name {
        assert n in parts'[i];
      } else {
        var j :| 0 <= j < |parts| && n in parts[j];
        assert n in parts'[j];
      }
    }
  }

  lemma SpreadNew(whole: map<Name, nat>, parts: seq<map<Name, nat>>, name: Name, inode: nat)
    requires Spread(whole, parts) && name !in whole
    ensures Spread(whole[name := inode], parts + [Put(map[], name, inode)])
  {
    var whole', parts' := whole[name := inode], parts + [Put(map[], name, inode)];
    forall n | n in whole' ensures exists j :: 0 <= j < |parts'| && n in parts'[j] {
      if n == name {
        assert n in parts'[|parts|];
      } else {
        var j :| 0 <= j < |parts| && n in parts[j];
        assert n in parts'[j];
      }
    }
  }

  lemma SpreadDrop(whole: map<Name, nat>, parts: seq<map<Name, nat>>, i: nat, name: Name)
    requires Spread(whole, parts) && i < |parts| && name in parts[i]
    ensures Spread(whole - {name}, parts[i := parts[i] - {name}])
  {
    var whole', parts' := whole - {name}, parts[i := parts[i] - {name}];
    forall n | n in whole' ensures exists j :: 0 <= j < |parts'| && n in parts'[j] {
      var j :| 0 <= j < |parts| && n in parts[j];
      assert n in parts'[j];
    }
  }

  ghost function Total(parts: seq<map<Name, nat>>): nat {
    if parts == [] then 0 else Total(parts[..|parts| - 1]) + |parts[|parts| - 1]|
  }

  lemma SpreadLast(whole: map<Name, nat>, parts: seq<map<Name, nat>>)
    requires Spread(whole, parts)
    ensures parts == [] ==> whole == map[]
    ensures parts != [] ==>
              && Spread(whole - parts[|parts| - 1].Keys, parts[..|parts| - 1])
              && parts[|parts| - 1].Keys <= whole.Keys
  {
    if parts == [] {
      assert whole == map[];
    } else {
      var n := |parts| - 1;
      var rest := whole - parts[n].Keys;
      forall k | k in rest ensures exists i :: 0 <= i < n && k in parts[..n][i] {
        var i :| 0 <= i < |parts| && k in parts[i];
        assert parts[..n][i] == parts[i];
      }
    }
  }

  lemma {:induction false} TotalIs(whole: map<Name, nat>, parts: seq<map<Name, nat>>)
    requires Spread(whole, parts)
    ensures Total(parts) == |whole|
  {
    hide Spread;
    SpreadLast(whole, parts);
    if parts != [] {
      var last := parts[|parts| - 1];
      var rest := whole - last.Keys;
      TotalIs(rest, parts[..|parts| - 1]);
      assert rest.Keys == whole.Keys - last.Keys;
      assert |whole.Keys| == |rest.Keys| + |last.Keys|;
      assert |last| == |last.Keys| && |rest| == |rest.Keys|;
    }
  }

  // ----- listing -----

  /** The list holds exactly the map's bindings, each once. */
  ghost predicate Lists(out: seq<Entry>, m: map<Name, nat>) {
    && Distinct(out)
    && (forall i :: 0 <= i < |out| ==> Get(m, out[i].name) == Some(out[i].inode))
    && (forall n :: n in m ==> exists i :: 0 <= i < |out| && out[i].name == n)
  }

  ghost predicate Collected(hs: Hashing, out: seq<Entry>, s: Segment, todo: set<nat>) {
    && Distinct(out)
    && (forall i :: 0 <= i < |out| ==>
         var h := hs.index(out[i].name); h in s.index && h !in todo && out[i] in s.index[h])
    && (forall h, e :: h in s.index && h !in todo && e in s.index[h] ==> e in out)
  }

  lemma CollectNext(hs: Hashing, out: seq<Entry>, s: Segment, todo: set<nat>, h: nat)
    requires ChainsOk(hs.index, s.index) && h in todo && h in s.index && Collected(hs, out, s, todo)
    ensures Collected(hs, out + s.index[h], s, todo - {h})
  {
    var c := s.index[h];
    var out' := out + c;
    forall i | 0 <= i < |out'| ensures var g := hs.index(out'[i].name);
      g in s.index && g !in todo - {h} && out'[i] in s.index[g] {
      if i >= |out| { assert out'[i] == c[i - |out|]; }
    }
    forall i, j | 0 <= i < j < |out'| ensures out'[i].name != out'[j].name {
      if i >= |out| { assert out'[i] == c[i - |out|]; }
      if j >= |out| { assert out'[j] == c[j - |out|]; }
    }
  }

  lemma CollectedAll(hs: Hashing, out: seq<Entry>, s: Segment, m: map<Name, nat>)
    requires Represents(hs, s, m) && Collected(hs, out, s, {})
    ensures Lists(out, m)
  {
    hide Test;
    forall i | 0 <= i < |out| ensures Get(m, out[i].name) == Some(out[i].inode) {
      var c := s.index[hs.index(out[i].name)];
      var j :| 0 <= j < |c| && c[j] == out[i];
      FoundAt(c, out[i].name);
      assert Resolve(hs.index, s.index, out[i].name) == Get(m, out[i].name);
    }
    forall n | n in m ensures exists i :: 0 <= i < |out| && out[i].name == n {
      assert Resolve(hs.index, s.index, n) == Get(m, n);
      var c := ChainAt(s.index, hs.index(n));
      FoundAt(c, n);
      var j :| 0 <= j < |c| && c[j].name == n;
      assert c[j] in out;
    }
  }

  /** The entries of one segment, chain by chain in any order. */
  method SegEntries(hs: Hashing, s: Segment, ghost m: map<Name, nat>) returns (out: seq<Entry>)
    requires Represents(hs, s, m)
    ensures Lists(out, m)
  {
    hide Test, Collected, Lists;
    out := [];
    var todo := s.index.Keys;
    assert Collected(hs, out, s, todo) by { CollectNone(hs, s); }
    while todo != {}
      invariant todo <= s.index.Keys && Collected(hs, out, s, todo)
      decreases todo
    {
      var h :| h in todo;
      CollectNext(hs, out, s, todo, h);
      out := out + s.index[h];
      todo := todo - {h};
    }
    CollectedAll(hs, out, s, m);
  }

  lemma CollectNone(hs: Hashing, s: Segment)
    ensures Collected(hs, [], s, s.index.Keys)
  {}

  /** Appending the list of one part to the list of the parts before it. */
  lemma ListNext(out: seq<Entry>, more: seq<Entry>, whole: map<Name, nat>, parts: seq<map<Name, nat>>, i: nat)
    requires Spread(whole, parts) && i < |parts| && Lists(more, parts[i]) && Listed(out, whole, parts, i)
    ensures Listed(out + more, whole, parts, i + 1)
  {
    var out' := out + more;
    forall k | 0 <= k < |out'| ensures Get(whole, out'[k].name) == Some(out'[k].inode)
      && exists j :: 0 <= j < i + 1 && out'[k].name in parts[j] {
      if k >= |out| {
        assert out'[k] == more[k - |out|];
        assert Get(parts[i], out'[k].name) == Some(out'[k].inode);
      } else {
        assert out'[k] == out[k];
      }
    }
    forall j, n | 0 <= j < i + 1 && n in parts[j] ensures exists k :: 0 <= k < |out'| && out'[k].name == n {
      if j == i {
        var k :| 0 <= k < |more| && more[k].name == n;
        assert out'[|out| + k].name == n;
      } else {
        var k :| 0 <= k < |out| && out[k].name == n;
        assert out'[k].name == n;
      }
    }
    forall k, l | 0 <= k < l < |out'| ensures out'[k].name != out'[l].name {
      if l >= |out| {
        assert out'[l] == more[l - |out|];
        assert Get(parts[i], out'[l].name).Some?;
        if k >= |out| { assert out'[k] == more[k - |out|]; }
      }
    }
  }

  /** The list of the first `i` parts. */
  ghost predicate Listed(out: seq<Entry>, whole: map<Name, nat>, parts: seq<map<Name, nat>>, i: nat)
    requires i <= |parts|
  {
    && Distinct(out)
    && (forall k :: 0 <= k < |out| ==>
         Get(whole, out[k].name) == Some(out[k].inode) && exists j :: 0 <= j < i && out[k].name in parts[j])
    && (forall j, n :: 0 <= j < i && n in parts[j] ==> exists k :: 0 <= k < |out| && out[k].name == n)
  }

  lemma ListedAll(out: seq<Entry>, whole: map<Name, nat>, parts: seq<map<Name, nat>>)
    requires Spread(whole, parts) && Listed(out, whole, parts, |parts|)
    ensures Lists(out, whole)
  {}
}
