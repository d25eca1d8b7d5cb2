/** The membership gate: a filter and a tombstone set that spare cold directories a load. */
module Gates {
  import opened Bytes
  import opened Bloom
  import opened Directories
  import opened GlobalFilters

  const MIN_CAPACITY: nat := 1024
  const TOMBSTONE_FRACTION: nat := 4
  const SNAP_MAGIC: nat := 0x4741_5445_0000_0001
  const I64: int := 0x8000_0000_0000_0000

  /** A gate as a value: what a snapshot of it holds. */
  datatype Image = Image(filter: Filter, deleted: set<nat>, live: int, capacity: int)

  /** The gate is complete for a set of names: each is admitted and none is masked. */
  ghost predicate CompleteFor(key: Keying, g: Image, pairs: set<(nat, Name)>) {
    Admits(key, g.filter, pairs) && Unmasked(key, g.deleted, pairs)
  }

  class Gate {
    const key: Keying
    var filter: Filter
    var deleted: set<nat>
    var live: int
    var capacity: int

    /** The names recorded as present. */
    ghost var present: set<(nat, Name)>

    function AsImage(): Image
      reads this
    {
      Image(filter, deleted, live, capacity)
    }

    ghost predicate Valid()
      reads this
    {
      Admits(key, filter, present)
    }

    ghost predicate Counted()
      reads this
    {
      live == |present|
    }

    ghost predicate Complete()
      reads this
    {
      Unmasked(key, deleted, present)
    }

    /** A gate sized for twice the expected names, at least MIN_CAPACITY. */
    constructor (key: Keying, tuning: nat -> Tuning, expected: nat)
      requires KeyingOk(key)
      ensures Valid() && Complete() && Counted() && this.key == key && present == {} && deleted == {}
      ensures capacity == Max(2 * expected, MIN_CAPACITY) && live == 0
      ensures filter == Empty(tuning(capacity).numBlocks, tuning(capacity).k)
    {
      var c := Max(2 * expected, MIN_CAPACITY);
      this.key := key;
      filter, deleted, live, capacity := Empty(tuning(c).numBlocks, tuning(c).k), {}, 0, c;
      present := {};
    }

    /** A gate taken from a snapshot as it is. It serves some names exactly when the snapshot is complete for them. */
    constructor Restore(key: Keying, g: Image, ghost pairs: set<(nat, Name)>)
      ensures this.key == key && present == pairs && AsImage() == g
      ensures Valid() && Complete() <==> CompleteFor(key, g, pairs)
    {
      this.key := key;
      filter, deleted, live, capacity := g.filter, g.deleted, g.live, g.capacity;
      present := pairs;
    }

    /** Record a name: clear its tombstone, then admit it. Completeness is kept. */
    method Add(d: nat, name: Name)
      requires Valid()
      modifies this`filter, this`deleted, this`live, this`present
      ensures Valid() && present == old(present) + {(d, name)} && deleted == old(deleted) - {key(d, name).lo}
      ensures live == old(live) + 1 && ((d, name) !in old(present) && old(Counted()) ==> Counted())
      ensures capacity == old(capacity) && (Complete() <==> Unmasked(key, deleted, old(present)))
      ensures filter == Bloom.Add(old(filter), key(d, name))
    {
      hide Test, Admits;
      var h := key(d, name);
      deleted := deleted - {h.lo};
      AdmitMore(key, filter, present, d, name);
      AdmitsOk(key, filter, present);
      filter := Bloom.Add(filter, h);
      live := live + 1;
      present := present + {(d, name)};
    }

    /** Tombstone a name. Completeness is kept exactly when no other live name shares its low word. */
    method Remove(d: nat, name: Name)
      requires Valid()
      modifies this`deleted, this`live, this`present
      ensures Valid() && present == old(present) - {(d, name)} && deleted == old(deleted) + {key(d, name).lo}
      ensures live == old(live) - 1 && ((d, name) in old(present) && old(Counted()) ==> Counted())
      ensures old(Complete()) ==> (Complete() <==> !Shares(key, old(present), d, name))
    {
      hide Test, Admits, Unmasked, Shares;
      MaskedBy(key, deleted, present, d, name);
      AdmitsFewer(key, filter, present, d, name);
      deleted := deleted + {key(d, name).lo};
      live := live - 1;
      present := present - {(d, name)};
    }

    /** May the name be present? A complete gate never denies one that is. */
    method MayHold(d: nat, name: Name) returns (maybe: bool)
      requires Valid()
      ensures HashOk(key(d, name)) && FilterOk(filter)
      ensures maybe <==> Test(filter, key(d, name)) && key(d, name).lo !in deleted
      ensures (d, name) in present ==> (maybe <==> key(d, name).lo !in deleted)
      ensures Complete() && (d, name) in present ==> maybe
    {
      hide Test;
      var h := key(d, name);
      if !Test(filter, h) {
        return false;
      }
      return h.lo !in deleted;
    }

    predicate NeedsRebuild()
      reads this
    {
      live > capacity || |deleted| * TOMBSTONE_FRACTION > capacity
    }
  }

  // ----- the snapshot codec -----

  /** The filter's own encoding, which is foreign code. */
  datatype FilterCodec = FilterCodec(encode: Filter -> Bytes, decode: Bytes -> Option<Filter>)

  ghost predicate FilterCodecOk(c: FilterCodec) { forall f :: c.decode(c.encode(f)) == Some(f) }

  ghost predicate ImageFits(g: Image) {
    -I64 <= g.capacity < I64 && -I64 <= g.live < I64 && |g.deleted| < I64 && forall k :: k in g.deleted ==> k < U64
  }

  /** The tombstones in the order the map yields them. */
  ghost predicate OrderOf(order: seq<nat>, s: set<nat>) {
    |order| == |s| && forall k :: k in order <==> k in s
  }

  function KeyChunks(order: seq<nat>): (c: seq<Bytes>)
    ensures |c| == |order| && forall i :: 0 <= i < |order| ==> c[i] == Le(order[i], 8) && |c[i]| == 8
  {
    seq(|order|, i requires 0 <= i < |order| => Le(order[i], 8))
  }

  /** A signed 64-bit number as an unsigned word, and back. */
  function Word(x: int): nat { x % U64 }

  function Signed(w: nat): int { if w < I64 then w else w - U64 }

  function Header(g: Image, n: nat): (h: Bytes)
    ensures |h| == 32
  {
    Le(SNAP_MAGIC, 8) + Le(Word(g.capacity), 8) + Le(Word(g.live), 8) + Le(n, 8)
  }

  function MarshalGate(c: FilterCodec, g: Image, order: seq<nat>): Bytes {
    Header(g, |order|) + Flat(KeyChunks(order)) + c.encode(g.filter)
  }

  /** Read `n` tombstones from `off`; None when the data ends first. */
  function ReadKeys(data: Bytes, off: nat, n: nat): Option<set<nat>>
    decreases n
  {
    if n == 0 then Some({})
    else if off + 8 > |data| then None
    else
      var rest := ReadKeys(data, off + 8, n - 1);
      if rest.None? then None else Some({UnLe(data[off..off + 8])} + rest.value)
  }

  /** A loop to a negative bound runs no times. */
  function Max64(x: int): nat { if x < 0 then 0 else x }

  function UnmarshalGate(c: FilterCodec, data: Bytes): Option<Image> {
    if |data| < 32 || UnLe(data[0..8]) != SNAP_MAGIC then None
    else
      var n := Max64(Signed(UnLe(data[24..32])));
      var keys := ReadKeys(data, 32, n);
      if keys.None? || 32 + 8 * n > |data| then None
      else
        var f := c.decode(data[32 + 8 * n..]);
        if f.None? then None else Some(Image(f.value, keys.value, Signed(UnLe(data[16..24])),
          Signed(UnLe(data[8..16]))))
  }

  lemma HeaderParts(g: Image, n: nat, rest: Bytes)
    requires -I64 <= g.capacity < I64 && -I64 <= g.live < I64 && n < I64
    ensures var data := Header(g, n) + rest;
            && UnLe(data[0..8]) == SNAP_MAGIC && Signed(UnLe(data[8..16])) == g.capacity
            && Signed(UnLe(data[16..24])) == g.live && Signed(UnLe(data[24..32])) == n
  {
    hide UnLe, Le, Word;
    LeWidths(SNAP_MAGIC);
    LeWidths(Word(g.capacity));
    LeWidths(Word(g.live));
    LeWidths(n);
    SignedWord(g.capacity);
    SignedWord(g.live);
    var data := Header(g, n) + rest;
    assert data[0..8] == Le(SNAP_MAGIC, 8);
    assert data[8..16] == Le(Word(g.capacity), 8);
    assert data[16..24] == Le(Word(g.live), 8);
    assert data[24..32] == Le(n, 8);
  }

  lemma SignedWord(x: int)
    requires -I64 <= x < I64
    ensures Word(x) < U64 && Signed(Word(x)) == x
  {
    if x < 0 { assert Word(x) == x + U64; }
  }

  ghost function SetOf(order: seq<nat>): set<nat> { set k | k in order }

  lemma {:induction false} ReadsKeys(data: Bytes, order: seq<nat>, k: nat)
    requires k <= |order| && 32 + 8 * |order| <= |data|
    requires forall i :: 0 <= i < |order| ==> order[i] < U64 && data[32 + 8 * i..40 + 8 * i] == Le(order[i], 8)
    ensures ReadKeys(data, 32 + 8 * k, |order| - k) == Some(SetOf(order[k..]))
    decreases |order| - k
  {
    hide UnLe, Le, ReadKeys;
    ReadNone(data, 32 + 8 * k);
    if k < |order| {
      ReadsKeys(data, order, k + 1);
      LeWidths(order[k]);
      assert order[k..] == [order[k]] + order[k + 1..];
      assert SetOf(order[k..]) == {order[k]} + SetOf(order[k + 1..]);
      ReadOne(data, 32 + 8 * k, |order| - k - 1, order[k], SetOf(order[k + 1..]));
    } else {
      assert order[k..] == [] && SetOf([]) == {};
    }
  }

  lemma ReadNone(data: Bytes, off: nat)
    ensures ReadKeys(data, off, 0) == Some({})
  {}

  lemma ReadOne(data: Bytes, off: nat, n: nat, k: nat, rest: set<nat>)
    requires off + 8 <= |data| && UnLe(data[off..off + 8]) == k && ReadKeys(data, off + 8, n) == Some(rest)
    ensures ReadKeys(data, off, n + 1) == Some({k} + rest)
  {
    hide UnLe;
  }

  lemma KeySlices(head: Bytes, order: seq<nat>, tail: Bytes)
    requires |head| == 32
    ensures var data := head + Flat(KeyChunks(order)) + tail;
            && |Flat(KeyChunks(order))| == 8 * |order|
            && data[32 + 8 * |order|..] == tail
            && forall i :: 0 <= i < |order| ==> data[32 + 8 * i..40 + 8 * i] == Le(order[i], 8)
  {
    hide Le, Flat;
    var c := KeyChunks(order);
    var body := Flat(c);
    FlatLen(c);
    OffUniform(c, 8, |c|);
    var data := head + body + tail;
    forall i | 0 <= i < |order| ensures data[32 + 8 * i..40 + 8 * i] == Le(order[i], 8) {
      OffUniform(c, 8, i);
      FlatAt(c, i);
      assert data[32 + 8 * i..40 + 8 * i] == body[8 * i..8 * i + 8];
    }
  }

  /** A snapshot decodes to the gate it was taken of, in whatever order the tombstones came. */
  lemma GateRoundTrip(c: FilterCodec, g: Image, order: seq<nat>)
    requires FilterCodecOk(c) && ImageFits(g) && OrderOf(order, g.deleted)
    ensures UnmarshalGate(c, MarshalGate(c, g, order)) == Some(g)
  {
    hide UnLe, Le, Flat, Header, ReadKeys, KeyChunks, Signed;
    var data := MarshalGate(c, g, order);
    var tail := c.encode(g.filter);
    assert data == Header(g, |order|) + (Flat(KeyChunks(order)) + tail);
    HeaderParts(g, |order|, Flat(KeyChunks(order)) + tail);
    KeySlices(Header(g, |order|), order, tail);
    forall i | 0 <= i < |order| ensures order[i] < U64 { assert order[i] in order; }
    ReadsKeys(data, order, 0);
    assert order[0..] == order;
    assert SetOf(order) == g.deleted;
  }

  /** Serialize a gate, its tombstones in any order. */
  method SaveGate(c: FilterCodec, g: Image) returns (out: Bytes, ghost order: seq<nat>)
    ensures OrderOf(order, g.deleted) && out == MarshalGate(c, g, order)
    ensures FilterCodecOk(c) && ImageFits(g) ==> UnmarshalGate(c, out) == Some(g)
  {
    hide Le, Header, UnmarshalGate;
    out := Header(g, |g.deleted|);
    order := [];
    var todo := g.deleted;
    assert Flat(KeyChunks([])) == [];
    while todo != {}
      invariant todo <= g.deleted && out == Header(g, |g.deleted|) + Flat(KeyChunks(order))
      invariant |order| + |todo| == |g.deleted| && forall k :: k in order <==> k in g.deleted && k !in todo
      decreases todo
    {
      var k :| k in todo;
      KeyNext(order, k);
      assert Header(g, |g.deleted|) + (Flat(KeyChunks(order)) + Le(k, 8)) == out + Le(k, 8);
      out := out + Le(k, 8);
      order := order + [k];
      todo := todo - {k};
    }
    out := out + c.encode(g.filter);
    if FilterCodecOk(c) && ImageFits(g) {
      GateRoundTrip(c, g, order);
    }
  }

  lemma KeyNext(order: seq<nat>, k: nat)
    ensures Flat(KeyChunks(order + [k])) == Flat(KeyChunks(order)) + Le(k, 8)
  {
    var c := KeyChunks(order + [k]);
    assert c[..|order|] == KeyChunks(order);
  }

  /** Parse a snapshot. */
  method LoadGate(c: FilterCodec, data: Bytes) returns (r: Option<Image>)
    ensures r == UnmarshalGate(c, data)
  {
    if |data| < 32 || UnLe(data[0..8]) != SNAP_MAGIC {
      return None;
    }
    var n := Max64(Signed(UnLe(data[24..32])));
    var off: nat, i: nat := 32, 0;
    var deleted: set<nat> := {};
    MoreNone(ReadKeys(data, 32, n));
    while i < n
      invariant 0 <= i <= n && off == 32 + 8 * i && off <= |data|
      invariant ReadKeys(data, 32, n) == MoreKeys(deleted, ReadKeys(data, off, n - i))
    {
      if off + 8 > |data| {
        return None;
      }
      MoreNext(deleted, UnLe(data[off..off + 8]), ReadKeys(data, off + 8, n - i - 1));
      deleted := deleted + {UnLe(data[off..off + 8])};
      off := off + 8;
      i := i + 1;
    }
    assert ReadKeys(data, 32, n) == Some(deleted);
    var f := c.decode(data[off..]);
    if f.None? {
      return None;
    }
    return Some(Image(f.value, deleted, Signed(UnLe(data[16..24])), Signed(UnLe(data[8..16]))));
  }

  ghost function MoreKeys(have: set<nat>, rest: Option<set<nat>>): Option<set<nat>> {
    if rest.None? then None else Some(have + rest.value)
  }

  lemma MoreNone(rest: Option<set<nat>>)
    ensures MoreKeys({}, rest) == rest
  {
    if rest.Some? { assert {} + rest.value == rest.value; }
  }

  lemma MoreNext(have: set<nat>, k: nat, rest: Option<set<nat>>)
    ensures rest.Some? ==> MoreKeys(have, Some({k} + rest.value)) == MoreKeys(have + {k}, rest)
  {
    if rest.Some? { assert have + ({k} + rest.value) == have + {k} + rest.value; }
  }
}
