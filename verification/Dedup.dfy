/** The deduplication table: a content hash names the one stored copy of a block and counts its users. */
module Dedup {
  import opened Bytes

  type Key = Bytes

  datatype Error = Short

  datatype Entry = Entry(start: nat, count: nat, payload: nat, logical: nat, raw: bool, refs: nat)

  type Map = map<Key, Entry>

  const REC: nat := 57

  /** Every field fits its width on disk. */
  ghost predicate Fits(k: Key, e: Entry) {
    |k| == 32 && e.start < U64 && e.count < U32 && e.payload < U32 && e.logical < U32 && e.refs < U32
  }

  ghost predicate AllFit(m: Map) { forall k :: k in m ==> Fits(k, m[k]) }

  // ----- one record -----

  function RecordChunks(k: Key, e: Entry): seq<Bytes> {
    [k, Le(e.start, 8), Le(e.count, 4), Le(e.payload, 4), Le(e.logical, 4), [if e.raw then 1 else 0], Le(e.refs, 4)]
  }

  function EncodeRecord(k: Key, e: Entry): Bytes { Flat(RecordChunks(k, e)) }

  function RecordKey(b: Bytes): Key requires |b| == REC { b[..32] }

  function RecordEntry(b: Bytes): Entry
    requires |b| == REC
  {
    Entry(UnLe(b[32..40]), UnLe(b[40..44]), UnLe(b[44..48]), UnLe(b[48..52]), b[52] == 1, UnLe(b[53..57]))
  }

  lemma RecordOffsets(k: Key, e: Entry)
    requires |k| == 32
    ensures var c := RecordChunks(k, e);
            Off(c, 0) == 0 && Off(c, 1) == 32 && Off(c, 2) == 40 && Off(c, 3) == 44 && Off(c, 4) == 48
            && Off(c, 5) == 52 && Off(c, 6) == 53 && Off(c, 7) == 57
  {
    var c := RecordChunks(k, e);
    assert Off(c, 1) == 32;
    assert Off(c, 2) == 40;
    assert Off(c, 3) == 44;
    assert Off(c, 4) == 48;
    assert Off(c, 5) == 52;
    assert Off(c, 6) == 53;
  }

  lemma RecordRoundTrip(k: Key, e: Entry)
    requires Fits(k, e)
    ensures |EncodeRecord(k, e)| == REC
    ensures RecordKey(EncodeRecord(k, e)) == k && RecordEntry(EncodeRecord(k, e)) == e
  {
    var c := RecordChunks(k, e);
    RecordOffsets(k, e);
    FlatLen(c);
    FlatAt(c, 0);
    FlatAt(c, 1);
    FlatAt(c, 2);
    FlatAt(c, 3);
    FlatAt(c, 4);
    FlatAt(c, 5);
    FlatAt(c, 6);
    LeWidths(e.start);
    LeWidths(e.count);
    LeWidths(e.payload);
    LeWidths(e.logical);
    LeWidths(e.refs);
    var b := EncodeRecord(k, e);
    assert b[52..53][0] == b[52];
  }

  // ----- the whole table -----

  /** An order in which a table's entries may be visited: each key once. */
  ghost predicate Enumerates(order: seq<Key>, m: Map) {
    && |order| == |m|
    && (forall i :: 0 <= i < |order| ==> order[i] in m)
    && (forall i, j :: 0 <= i < j < |order| ==> order[i] != order[j])
    && (forall k :: k in m ==> k in order)
  }

  function Records(m: Map, order: seq<Key>): (c: seq<Bytes>)
    requires forall i :: 0 <= i < |order| ==> order[i] in m
    ensures |c| == |order|
  {
    if order == [] then [] else
    var n := |order| - 1;
    Records(m, order[..n]) + [EncodeRecord(order[n], m[order[n]])]
  }

  function Marshal(m: Map, order: seq<Key>): Bytes
    requires forall i :: 0 <= i < |order| ==> order[i] in m
  {
    Le(|m|, 8) + Flat(Records(m, order))
  }

  function RecordAt(data: Bytes, i: nat): (b: Bytes)
    requires 8 + REC * (i + 1) <= |data|
    ensures |b| == REC
  {
    data[8 + REC * i..8 + REC * i + REC]
  }

  /** The table after the first `n` records have been inserted in order. */
  function Decoded(data: Bytes, n: nat): Map
    requires 8 + REC * n <= |data|
  {
    if n == 0 then map[] else
    Decoded(data, n - 1)[RecordKey(RecordAt(data, n - 1)) := RecordEntry(RecordAt(data, n - 1))]
  }

  function Unmarshal(data: Bytes): Result<Map, Error> {
    if |data| < 8 then Err(Short) else
    var n := UnLe(data[..8]);
    if 8 + REC * n > |data| then Err(Short) else Ok(Decoded(data, n))
  }

  /** Record `i` is the last one for its key. */
  ghost predicate LastFor(data: Bytes, n: nat, i: nat, k: Key)
    requires 8 + REC * n <= |data|
  {
    && i < n && RecordKey(RecordAt(data, i)) == k
    && forall j :: i < j < n ==> RecordKey(RecordAt(data, j)) != k
  }

  lemma {:induction false} DecodedLast(data: Bytes, n: nat, k: Key)
    requires 8 + REC * n <= |data|
    ensures k in Decoded(data, n) <==> exists i :: LastFor(data, n, i, k)
    ensures forall i :: LastFor(data, n, i, k) ==> Decoded(data, n)[k] == RecordEntry(RecordAt(data, i))
  {
    hide RecordKey, RecordEntry, RecordAt;
    if n > 0 {
      DecodedLast(data, n - 1, k);
      if RecordKey(RecordAt(data, n - 1)) == k {
        assert LastFor(data, n, n - 1, k);
      } else {
        assert forall i: nat :: LastFor(data, n, i, k) ==> LastFor(data, n - 1, i, k);
        if k in Decoded(data, n - 1) {
          var i :| LastFor(data, n - 1, i, k);
          assert LastFor(data, n, i, k);
        }
      }
    }
  }

  /** Bytes give a table exactly when they hold the records they announce, and the last record for a key counts. */
  lemma UnmarshalLast(data: Bytes, k: Key)
    ensures Unmarshal(data).Ok? <==> |data| >= 8 && 8 + REC * UnLe(data[..8]) <= |data|
    ensures Unmarshal(data).Ok? ==>
              var n, m := UnLe(data[..8]), Unmarshal(data).value;
              && (k in m <==> exists i :: LastFor(data, n, i, k))
              && forall i :: LastFor(data, n, i, k) ==> m[k] == RecordEntry(RecordAt(data, i))
  {
    hide RecordKey, RecordEntry, RecordAt, LastFor;
    if Unmarshal(data).Ok? { DecodedLast(data, UnLe(data[..8]), k); }
  }

  lemma {:induction false} RecordsAt(m: Map, order: seq<Key>, i: nat)
    requires forall j :: 0 <= j < |order| ==> order[j] in m
    requires i < |order|
    ensures Records(m, order)[i] == EncodeRecord(order[i], m[order[i]])
  {
    if i < |order| - 1 {
      RecordsAt(m, order[..|order| - 1], i);
    }
  }

  lemma RecordWidths(m: Map, order: seq<Key>)
    requires AllFit(m) && forall j :: 0 <= j < |order| ==> order[j] in m
    ensures forall i :: 0 <= i < |order| ==> |Records(m, order)[i]| == REC
  {
    forall i | 0 <= i < |order| ensures |Records(m, order)[i]| == REC {
      RecordsAt(m, order, i);
      RecordRoundTrip(order[i], m[order[i]]);
    }
  }

  lemma MarshalLen(m: Map, order: seq<Key>)
    requires AllFit(m) && Enumerates(order, m)
    ensures |Marshal(m, order)| == 8 + REC * |m|
  {
    RecordWidths(m, order);
    FlatLen(Records(m, order));
    OffUniform(Records(m, order), REC, |order|);
  }

  lemma MarshalRecord(m: Map, order: seq<Key>, i: nat)
    requires AllFit(m) && Enumerates(order, m) && i < |order|
    ensures 8 + REC * (i + 1) <= |Marshal(m, order)|
    ensures RecordAt(Marshal(m, order), i) == EncodeRecord(order[i], m[order[i]])
  {
    hide EncodeRecord, Records;
    var c := Records(m, order);
    RecordWidths(m, order);
    MarshalLen(m, order);
    OffUniform(c, REC, i);
    OffUniform(c, REC, i + 1);
    FlatAt(c, i);
    RecordsAt(m, order, i);
    assert RecordAt(Marshal(m, order), i) == Flat(c)[REC * i..REC * i + REC];
  }

  /** After `n` records exactly the first `n` keys of the order are present, each with its entry. */
  lemma {:induction false} DecodedPrefix(m: Map, order: seq<Key>, n: nat)
    requires AllFit(m) && Enumerates(order, m) && n <= |order|
    ensures 8 + REC * n <= |Marshal(m, order)|
    ensures forall k :: k in Decoded(Marshal(m, order), n) <==> k in order[..n]
    ensures forall k :: k in Decoded(Marshal(m, order), n) ==> k in m && Decoded(Marshal(m, order), n)[k] == m[k]
  {
    hide EncodeRecord, RecordKey, RecordEntry, Marshal;
    MarshalLen(m, order);
    if n > 0 {
      DecodedPrefix(m, order, n - 1);
      MarshalRecord(m, order, n - 1);
      RecordRoundTrip(order[n - 1], m[order[n - 1]]);
      assert order[..n] == order[..n - 1] + [order[n - 1]];
    }
  }

  /** Whatever order the table is visited in, loading gives it back. */
  lemma TableRoundTrip(m: Map, order: seq<Key>)
    requires AllFit(m) && |m| < U64 && Enumerates(order, m)
    ensures Unmarshal(Marshal(m, order)) == Ok(m)
  {
    hide Records, RecordKey, RecordEntry, Le, UnLe, Flat, RecordAt, AllFit;
    MarshalLen(m, order);
    LeWidths(|m|);
    assert Marshal(m, order)[..8] == Le(|m|, 8);
    DecodedPrefix(m, order, |order|);
    assert order[..|order|] == order;
    assert Decoded(Marshal(m, order), |order|) == m;
  }

  function RefsOf(m: Map, k: Key): nat { if k in m then m[k].refs else 0 }

  class Table {
    var m: Map

    constructor (m: Map) ensures this.m == m { this.m := m; }

    /** A new unique block starts with one reference. */
    method Add(k: Key, e: Entry)
      modifies this
      ensures m == old(m)[k := e.(refs := 1)]
    {
      m := m[k := e.(refs := 1)];
    }

    method Incr(k: Key) returns (present: bool)
      modifies this
      ensures present == (k in old(m))
      ensures m == if present then old(m)[k := old(m)[k].(refs := old(m)[k].refs + 1)] else old(m)
    {
      present := k in m;
      if present {
        m := m[k := m[k].(refs := m[k].refs + 1)];
      }
    }

    /** Drop one reference; the last one removes the entry and hands it back so its clusters can be freed. */
    method Decr(k: Key) returns (freed: Option<Entry>)
      requires k in m ==> m[k].refs > 0
      modifies this
      ensures forall j :: RefsOf(m, j) == if j == k && k in old(m) then RefsOf(old(m), j) - 1 else RefsOf(old(m), j)
      ensures freed.Some? <==> k in old(m) && old(m)[k].refs == 1
      ensures m == if freed.Some? then old(m) - {k}
                   else if k in old(m) then old(m)[k := old(m)[k].(refs := old(m)[k].refs - 1)] else old(m)
      ensures freed.Some? ==> freed.value == old(m)[k].(refs := 0)
    {
      if k !in m {
        return None;
      }
      var e := m[k].(refs := m[k].refs - 1);
      if e.refs == 0 {
        m := m - {k};
        return Some(e);
      }
      m := m[k := e];
      return None;
    }

    /** Serialize into a caller's buffer at `at`, visiting the entries in an arbitrary order. */
    method MarshalInto(dst: array<byte>, at: nat) returns (ghost order: seq<Key>)
      requires AllFit(m) && at + 8 + REC * |m| <= dst.Length
      modifies dst
      ensures Enumerates(order, m) && at + |Marshal(m, order)| <= dst.Length
      ensures dst[..] == Patch(old(dst[..]), at, Marshal(m, order))
    {
      hide Patch, EncodeRecord, Fits, Marshal, Visited;
      ghost var before := dst[..];
      order := [];
      VisitNone(m);
      CopyInto(dst, at, Le(|m|, 8));
      var todo := m.Keys;
      var off := at + 8;
      while todo != {}
        invariant Visited(m, order, todo) && Within(m, order) && off == at + |Marshal(m, order)|
        invariant off + REC * |todo| <= |before| && dst[..] == Patch(before, at, Marshal(m, order))
        decreases todo
      {
        var k :| k in todo;
        VisitNext(m, order, todo, k);
        MarshalNext(m, order, k);
        CopyInto(dst, off, EncodeRecord(k, m[k]));
        PatchTwice(before, at, Marshal(m, order), EncodeRecord(k, m[k]));
        order := order + [k];
        todo := todo - {k};
        off := off + REC;
      }
      VisitAll(m, order);
    }
  }

  ghost predicate Within(m: Map, order: seq<Key>) { forall i :: 0 <= i < |order| ==> order[i] in m }

  ghost predicate Visited(m: Map, order: seq<Key>, todo: set<Key>) {
    && todo <= m.Keys && |order| + |todo| == |m|
    && (forall i :: 0 <= i < |order| ==> order[i] in m && order[i] !in todo)
    && (forall i, j :: 0 <= i < j < |order| ==> order[i] != order[j])
    && (forall k :: k in m && k !in todo ==> k in order)
  }

  lemma VisitNone(m: Map)
    ensures Visited(m, [], m.Keys) && Marshal(m, []) == Le(|m|, 8)
  {
    assert |m.Keys| == |m|;
  }

  lemma VisitAll(m: Map, order: seq<Key>)
    requires Visited(m, order, {})
    ensures Enumerates(order, m)
  {}

  lemma VisitNext(m: Map, order: seq<Key>, todo: set<Key>, k: Key)
    requires Visited(m, order, todo) && k in todo
    ensures Visited(m, order + [k], todo - {k}) && Within(m, order) && k in m && |todo - {k}| == |todo| - 1
  {
    assert |todo - {k}| == |todo| - 1;
    forall j | j in m && j !in todo - {k} ensures j in order + [k] {
      if j != k { assert j in order; }
    }
  }

  lemma MarshalNext(m: Map, order: seq<Key>, k: Key)
    requires AllFit(m) && k in m && Within(m, order)
    ensures |EncodeRecord(k, m[k])| == REC
    ensures Marshal(m, order + [k]) == Marshal(m, order) + EncodeRecord(k, m[k])
  {
    hide EncodeRecord, Fits;
    RecordRoundTrip(k, m[k]);
    assert (order + [k])[..|order|] == order;
    var c := Records(m, order + [k]);
    assert c[..|order|] == Records(m, order);
  }
}
