/** What an inode's block map denotes: its refs, its contents, and the references it holds. */
module FileView {
  import opened Bytes
  import opened Store
  import opened Records
  import opened Inodes
  import Dedup
  import Machine

  type View = Machine.View

  // ----- one inode -----

  predicate Inline(i: Inode) { i.flags % 2 == 1 }

  predicate External(i: Inode) { i.size > 0 && !Inline(i) }

  function MapRef(i: Inode): Ref
    requires |i.blockMap| == 64
  {
    DecodeRef(i.blockMap)
  }

  /** The data records in order; a single one is held inline, several in a block-map blob. */
  ghost function RefsOf(i: Inode, plain: map<Key, Bytes>): seq<Ref> {
    if i.size == 0 || |i.blockMap| != 64 then []
    else if Inline(i) then [MapRef(i)]
    else if MapRef(i).hash in plain && DecodeRefs(plain[MapRef(i).hash]).Some?
      then DecodeRefs(plain[MapRef(i).hash]).value
    else []
  }

  ghost function KeysOf(refs: seq<Ref>): multiset<Key> {
    if refs == [] then multiset{} else KeysOf(refs[..|refs| - 1]) + multiset{refs[|refs| - 1].hash}
  }

  ghost function Container(i: Inode): multiset<Key> {
    if External(i) && |i.blockMap| == 64 then multiset{MapRef(i).hash} else multiset{}
  }

  /** Every reference the inode holds: its records, and the blob that lists them. */
  ghost function Keys(i: Inode, plain: map<Key, Bytes>): multiset<Key> { KeysOf(RefsOf(i, plain)) + Container(i) }

  ghost function TextOf(r: Ref, plain: map<Key, Bytes>): Bytes { if r.hash in plain then plain[r.hash] else [] }

  ghost function Texts(refs: seq<Ref>, plain: map<Key, Bytes>): (t: seq<Bytes>)
    ensures |t| == |refs| && forall j :: 0 <= j < |t| ==> t[j] == TextOf(refs[j], plain)
  {
    seq(|refs|, j requires 0 <= j < |refs| => TextOf(refs[j], plain))
  }

  /** The file's contents. */
  ghost function Content(i: Inode, plain: map<Key, Bytes>): Bytes { Flat(Texts(RefsOf(i, plain), plain)) }

  /** The ref names a stored block and says where it is. */
  ghost predicate Live(r: Ref, v: View) {
    r.hash in v.ddt && r.hash in v.plain && r == RefFrom(r.hash, v.ddt[r.hash])
  }

  ghost predicate RecordsOk(refs: seq<Ref>, size: nat, rs: nat, v: View) {
    && rs > 0 && |refs| == RecordCount(size, rs)
    && (forall j :: 0 <= j < |refs| ==>
          && Live(refs[j], v) && RecStart(rs, j) <= size
          && |TextOf(refs[j], v.plain)| == RecordEnd(size, rs, j) - RecStart(rs, j))
  }

  ghost predicate DataOk(i: Inode, v: View) {
    && Fits(i)
    && (i.size > 0 ==>
          && 12 <= i.recordSizeLog2 <= 15 && Live(MapRef(i), v)
          && (External(i) ==> DecodeRefs(v.plain[MapRef(i).hash]).Some?)
          && RecordsOk(RefsOf(i, v.plain), i.size, Shift(i.recordSizeLog2), v))
  }

  lemma ContentIs(i: Inode, v: View)
    requires DataOk(i, v)
    ensures |Content(i, v.plain)| == i.size
    ensures i.size > 0 ==> AreRecords(Texts(RefsOf(i, v.plain), v.plain), Content(i, v.plain), Shift(i.recordSizeLog2))
  {
    hide Live, RecordEnd, RecStart, RecordCount, MapRef;
    if i.size > 0 {
      SplitJoined(Texts(RefsOf(i, v.plain), v.plain), Shift(i.recordSizeLog2), i.size);
    }
  }

  // ----- keys of ref lists -----

  lemma {:induction false} KeyAt(refs: seq<Ref>, j: nat)
    requires j < |refs|
    ensures refs[j].hash in KeysOf(refs)
  {
    if j < |refs| - 1 { KeyAt(refs[..|refs| - 1], j); }
  }

  lemma KeysAppend(refs: seq<Ref>, r: Ref)
    ensures KeysOf(refs + [r]) == KeysOf(refs) + multiset{r.hash}
  {
    assert (refs + [r])[..|refs|] == refs;
  }

  lemma KeysTake(refs: seq<Ref>, j: nat)
    requires j < |refs|
    ensures KeysOf(refs[..j + 1]) == KeysOf(refs[..j]) + multiset{refs[j].hash}
  {
    assert refs[..j + 1] == refs[..j] + [refs[j]];
    KeysAppend(refs[..j], refs[j]);
  }

  // ----- all inodes -----

  ghost function Held(inodes: seq<Inode>, plain: map<Key, Bytes>): multiset<Key> {
    if inodes == [] then multiset{} else Held(inodes[..|inodes| - 1], plain) + Keys(inodes[|inodes| - 1], plain)
  }

  /** Every reference held by an inode is counted in the dedup table. */
  ghost predicate Covered(v: View) {
    forall k :: Held(v.inodes, v.plain)[k] <= Dedup.RefsOf(v.ddt, k)
  }

  ghost predicate FsOk(v: View) {
    (forall id :: 0 <= id < |v.inodes| ==> DataOk(v.inodes[id], v)) && Covered(v)
  }

  lemma {:induction false} HeldIncludes(inodes: seq<Inode>, plain: map<Key, Bytes>, id: nat, k: Key)
    requires id < |inodes|
    ensures Keys(inodes[id], plain)[k] <= Held(inodes, plain)[k]
  {
    hide Keys;
    if id < |inodes| - 1 { HeldIncludes(inodes[..|inodes| - 1], plain, id, k); }
  }

  lemma {:induction false} HeldSame(a: seq<Inode>, b: seq<Inode>, plain: map<Key, Bytes>, plain': map<Key, Bytes>)
    requires |a| == |b| && forall j :: 0 <= j < |a| ==> Keys(a[j], plain) == Keys(b[j], plain')
    ensures Held(a, plain) == Held(b, plain')
  {
    hide Keys;
    if a != [] { HeldSame(a[..|a| - 1], b[..|b| - 1], plain, plain'); }
  }

  // ----- frames -----

  /** The stored block behind `k` is the same in both views. */
  ghost predicate SameBlock(v: View, v': View, k: Key) {
    && k in v'.ddt && k in v'.plain && (k in v.ddt ==> RefFrom(k, v'.ddt[k]) == RefFrom(k, v.ddt[k]))
    && (k in v.plain ==> v'.plain[k] == v.plain[k])
  }

  lemma KeysMember(i: Inode, plain: map<Key, Bytes>, j: nat)
    requires j < |RefsOf(i, plain)|
    ensures RefsOf(i, plain)[j].hash in Keys(i, plain)
  {
    hide MapRef;
    KeyAt(RefsOf(i, plain), j);
  }

  lemma MapRefHeld(i: Inode, plain: map<Key, Bytes>)
    requires |i.blockMap| == 64 && i.size > 0
    ensures MapRef(i).hash in Keys(i, plain)
  {
    hide MapRef;
    if Inline(i) { KeyAt(RefsOf(i, plain), 0); }
  }

  lemma RefsSame(i: Inode, v: View, v': View)
    requires DataOk(i, v) && forall k :: k in Keys(i, v.plain) ==> SameBlock(v, v', k)
    ensures RefsOf(i, v'.plain) == RefsOf(i, v.plain) && Keys(i, v'.plain) == Keys(i, v.plain)
  {
    hide MapRef, RecordsOk;
    if i.size > 0 { MapRefHeld(i, v.plain); }
  }

  lemma TextsSame(refs: seq<Ref>, v: View, v': View)
    requires forall j :: 0 <= j < |refs| ==> Live(refs[j], v) && SameBlock(v, v', refs[j].hash)
    ensures Texts(refs, v'.plain) == Texts(refs, v.plain)
    ensures forall j :: 0 <= j < |refs| ==> Live(refs[j], v')
  {}

  /** An inode's contents depend only on the blocks it holds. */
  lemma DataFrame(i: Inode, v: View, v': View)
    requires DataOk(i, v) && forall k :: k in Keys(i, v.plain) ==> SameBlock(v, v', k)
    ensures DataOk(i, v') && RefsOf(i, v'.plain) == RefsOf(i, v.plain)
    ensures Keys(i, v'.plain) == Keys(i, v.plain) && Content(i, v'.plain) == Content(i, v.plain)
  {
    hide MapRef, Live, RecordEnd, RecStart, RecordCount, SameBlock, Keys;
    RefsSame(i, v, v');
    if i.size > 0 {
      MapRefHeld(i, v.plain);
      var refs := RefsOf(i, v.plain);
      forall j | 0 <= j < |refs| ensures SameBlock(v, v', refs[j].hash) { KeysMember(i, v.plain, j); }
      TextsSame(refs, v, v');
      forall j | 0 <= j < |refs| ensures TextOf(refs[j], v'.plain) == TextOf(refs[j], v.plain) {
        assert Texts(refs, v'.plain)[j] == Texts(refs, v.plain)[j];
      }
      MapLive(i, v, v');
    } else {
      assert Content(i, v'.plain) == Content(i, v.plain) == [];
    }
  }

  lemma MapLive(i: Inode, v: View, v': View)
    requires |i.blockMap| == 64 && Live(MapRef(i), v) && SameBlock(v, v', MapRef(i).hash)
    ensures Live(MapRef(i), v') && v'.plain[MapRef(i).hash] == v.plain[MapRef(i).hash]
  {
    hide MapRef;
  }

  /** Blocks are counted exactly when they are stored, and then they have a text. */
  ghost predicate Consistent(v: View) {
    forall k :: (Dedup.RefsOf(v.ddt, k) > 0 <==> k in v.ddt) && (k in v.ddt <==> k in v.plain)
  }

  /** Blocks present on both sides are the same. */
  ghost predicate Preserves(v: View, v': View) {
    forall k :: k in v.ddt && k in v'.ddt ==> SameBlock(v, v', k)
  }

  /** The reference counts moved exactly as the keys of one inode did. */
  ghost predicate Balanced(v: View, v': View, out: multiset<Key>, into: multiset<Key>) {
    forall k :: Dedup.RefsOf(v'.ddt, k) + out[k] == Dedup.RefsOf(v.ddt, k) + into[k]
  }

  /** A key the table still owes to an inode is stored on both sides. */
  lemma OwedStays(v: View, v': View, id: nat, x: Inode, j: nat, k: Key)
    requires FsOk(v) && Consistent(v) && Consistent(v') && Preserves(v, v')
    requires id < |v.inodes| && j < |v.inodes| && j != id && k in Keys(v.inodes[j], v.plain)
    requires Balanced(v, v', Keys(v.inodes[id], v.plain), Keys(x, v'.plain))
    ensures SameBlock(v, v', k)
  {
    hide Keys, DataOk, SameBlock;
    TwoHeld(v.inodes, v.plain, id, j, k);
    assert Held(v.inodes, v.plain)[k] <= Dedup.RefsOf(v.ddt, k);
    assert Dedup.RefsOf(v'.ddt, k) > 0;
  }

  lemma {:induction false} TwoHeld(inodes: seq<Inode>, plain: map<Key, Bytes>, a: nat, b: nat, k: Key)
    requires a < |inodes| && b < |inodes| && a != b
    ensures Keys(inodes[a], plain)[k] + Keys(inodes[b], plain)[k] <= Held(inodes, plain)[k]
  {
    hide Keys;
    var n := |inodes| - 1;
    if a == n {
      HeldIncludes(inodes[..n], plain, b, k);
    } else if b == n {
      HeldIncludes(inodes[..n], plain, a, k);
    } else {
      TwoHeld(inodes[..n], plain, a, b, k);
    }
  }

  /**
   Replacing one inode while the counts follow its keys keeps the filesystem consistent, keeps the surplus of every
   count over what the inodes hold, and leaves every other file as it was.
   */
  lemma ReplaceInode(v: View, v': View, id: nat, x: Inode)
    requires FsOk(v) && Consistent(v) && Consistent(v') && Preserves(v, v') && id < |v.inodes|
    requires v'.inodes == v.inodes[id := x] && DataOk(x, v')
    requires Balanced(v, v', Keys(v.inodes[id], v.plain), Keys(x, v'.plain))
    ensures FsOk(v') && SameSurplus(v, v') && OthersSame(v, v', id)
  {
    hide Keys, DataOk, SameBlock, Preserves, Consistent, Content;
    forall j | 0 <= j < |v.inodes| && j != id
      ensures DataOk(v.inodes[j], v') && Keys(v.inodes[j], v'.plain) == Keys(v.inodes[j], v.plain)
      ensures Content(v.inodes[j], v'.plain) == Content(v.inodes[j], v.plain)
    {
      forall k | k in Keys(v.inodes[j], v.plain) ensures SameBlock(v, v', k) { OwedStays(v, v', id, x, j, k); }
      DataFrame(v.inodes[j], v, v');
    }
    HeldReplaced(v, v', id, x);
  }

  /** The surplus of each count over what the inodes hold is unchanged. */
  ghost predicate SameSurplus(v: View, v': View) {
    forall k ::
      Dedup.RefsOf(v'.ddt, k) + Held(v.inodes, v.plain)[k] == Dedup.RefsOf(v.ddt, k) + Held(v'.inodes, v'.plain)[k]
  }

  ghost predicate OthersSame(v: View, v': View, id: nat) {
    |v'.inodes| == |v.inodes|
    && forall j :: 0 <= j < |v.inodes| && j != id ==>
         v'.inodes[j] == v.inodes[j] && Content(v'.inodes[j], v'.plain) == Content(v.inodes[j], v.plain)
  }

  lemma HeldReplaced(v: View, v': View, id: nat, x: Inode)
    requires id < |v.inodes| && v'.inodes == v.inodes[id := x] && Covered(v)
    requires forall j :: 0 <= j < |v.inodes| && j != id ==> Keys(v.inodes[j], v'.plain) == Keys(v.inodes[j], v.plain)
    requires Balanced(v, v', Keys(v.inodes[id], v.plain), Keys(x, v'.plain))
    ensures SameSurplus(v, v') && Covered(v')
  {
    hide Keys;
    var n := |v.inodes| - 1;
    HeldExchange(v.inodes, id, x, v.plain, v'.plain);
    forall k ensures Dedup.RefsOf(v'.ddt, k) + Held(v.inodes, v.plain)[k] ==
      Dedup.RefsOf(v.ddt, k) + Held(v'.inodes, v'.plain)[k] {
      assert (Held(v'.inodes, v'.plain) + Keys(v.inodes[id], v.plain))[k] ==
        (Held(v.inodes, v.plain) + Keys(x, v'.plain))[k];
    }
    forall k ensures Held(v'.inodes, v'.plain)[k] <= Dedup.RefsOf(v'.ddt, k) {
      assert Held(v.inodes, v.plain)[k] <= Dedup.RefsOf(v.ddt, k);
    }
  }

  lemma {:induction false} HeldExchange(inodes: seq<Inode>, id: nat, x: Inode, plain: map<Key, Bytes>, plain': map<Key,
      Bytes>)
    requires id < |inodes|
    requires forall j :: 0 <= j < |inodes| && j != id ==> Keys(inodes[j], plain') == Keys(inodes[j], plain)
    ensures Held(inodes[id := x], plain') + Keys(inodes[id], plain) == Held(inodes, plain) + Keys(x, plain')
  {
    hide Keys;
    var n := |inodes| - 1;
    if id == n {
      assert inodes[id := x][..n] == inodes[..n];
      HeldSame(inodes[..n], inodes[..n], plain, plain');
    } else {
      HeldExchange(inodes[..n], id, x, plain, plain');
      assert inodes[id := x][..n] == inodes[..n][id := x];
      SwapIn(Held(inodes[..n], plain), Held(inodes[..n][id := x], plain'),
             Keys(inodes[n], plain), Keys(inodes[id], plain), Keys(x, plain'));
    }
  }

  lemma SwapIn(h: multiset<Key>, h': multiset<Key>, l: multiset<Key>, k: multiset<Key>, k': multiset<Key>)
    requires h' + k == h + k'
    ensures h' + l + k == h + l + k'
  {
    assert h' + l + k == h' + k + l;
    assert h + l + k' == h + k' + l;
  }

  /** More references and more stored blocks change no file. */
  lemma GrowKeeps(v: View, v': View)
    requires FsOk(v) && v'.inodes == v.inodes
    requires forall k :: k in v.ddt ==> SameBlock(v, v', k)
    requires forall k :: Dedup.RefsOf(v'.ddt, k) >= Dedup.RefsOf(v.ddt, k)
    ensures FsOk(v') && forall j :: 0 <= j < |v.inodes| ==>
              Content(v.inodes[j], v'.plain) == Content(v.inodes[j], v.plain)
    ensures Held(v'.inodes, v'.plain) == Held(v.inodes, v.plain)
    ensures forall j :: 0 <= j < |v.inodes| ==> RefsOf(v.inodes[j], v'.plain) == RefsOf(v.inodes[j], v.plain)
  {
    hide Keys, DataOk, SameBlock, Content, RefsOf;
    forall j | 0 <= j < |v.inodes|
      ensures DataOk(v.inodes[j], v') && Keys(v.inodes[j], v'.plain) == Keys(v.inodes[j], v.plain)
      ensures Content(v.inodes[j], v'.plain) == Content(v.inodes[j], v.plain)
      ensures RefsOf(v.inodes[j], v'.plain) == RefsOf(v.inodes[j], v.plain)
    {
      forall k | k in Keys(v.inodes[j], v.plain) ensures SameBlock(v, v', k) {
        HeldIncludes(v.inodes, v.plain, j, k);
        assert Held(v.inodes, v.plain)[k] <= Dedup.RefsOf(v.ddt, k);
      }
      DataFrame(v.inodes[j], v, v');
    }
    HeldSame(v.inodes, v'.inodes, v.plain, v'.plain);
  }
}
