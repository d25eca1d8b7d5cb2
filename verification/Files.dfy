/** File contents on top of the deduplicating store: chunked reads, writes and truncation. */
module Files {
  import opened Bytes
  import opened Store
  import opened Records
  import opened Inodes
  import opened FileView
  import opened Volumes
  import Machine
  import Dedup
  import Alloc
  import Snapshot
  import Uber

  ghost predicate AllTrusted(c: Codec, plain: map<Key, Bytes>) {
    forall k :: k in plain ==> c.trusted(plain[k]) && c.hash(plain[k]) == k
  }

  /** What every committed view satisfies: all files are intact and every reference is counted. */
  ghost predicate GoodView(c: Codec, v: View) {
    FsOk(v) && Consistent(v) && AllTrusted(c, v.plain)
  }

  // ----- how the store moved -----

  /** Stored blocks stay, and the counts grew by `into`. */
  ghost predicate GrownBy(v: View, v': View, into: multiset<Key>) {
    && v'.inodes == v.inodes && (forall k :: k in v.ddt ==> SameBlock(v, v', k))
    && (forall k :: Dedup.RefsOf(v'.ddt, k) == Dedup.RefsOf(v.ddt, k) + into[k])
  }

  /** Nothing new is stored, and the counts shrank by `out`. */
  ghost predicate ShrunkBy(v: View, v': View, out: multiset<Key>) {
    && v'.inodes == v.inodes && (forall k :: k in v'.ddt ==> k in v.ddt && SameBlock(v, v', k))
    && (forall k :: Dedup.RefsOf(v'.ddt, k) + out[k] == Dedup.RefsOf(v.ddt, k))
  }

  lemma GrownTwice(v: View, v1: View, v2: View, a: multiset<Key>, b: multiset<Key>)
    requires GrownBy(v, v1, a) && GrownBy(v1, v2, b) && Consistent(v)
    ensures GrownBy(v, v2, a + b)
  {}

  lemma ShrunkTwice(v: View, v1: View, v2: View, a: multiset<Key>, b: multiset<Key>)
    requires ShrunkBy(v, v1, a) && ShrunkBy(v1, v2, b)
    ensures ShrunkBy(v, v2, a + b)
  {
    forall k ensures Dedup.RefsOf(v2.ddt, k) + (a + b)[k] == Dedup.RefsOf(v.ddt, k) {}
  }

  lemma GrownTable(v: View, v': View, into: multiset<Key>)
    requires GrownBy(v, v', into)
    ensures v'.inodes == v.inodes
  {}

  lemma GrownLive(v: View, v': View, into: multiset<Key>, r: Ref)
    requires GrownBy(v, v', into) && Live(r, v)
    ensures Live(r, v') && TextOf(r, v'.plain) == TextOf(r, v.plain)
  {}

  lemma GrownGood(c: Codec, v: View, v': View, into: multiset<Key>)
    requires GoodView(c, v) && GrownBy(v, v', into) && Consistent(v') && AllTrusted(c, v'.plain)
    ensures GoodView(c, v')
    ensures forall j :: 0 <= j < |v.inodes| ==> Content(v.inodes[j], v'.plain) == Content(v.inodes[j], v.plain)
    ensures forall j :: 0 <= j < |v.inodes| ==> RefsOf(v.inodes[j], v'.plain) == RefsOf(v.inodes[j], v.plain)
  {
    hide FsOk, Consistent, AllTrusted, SameBlock, Content, RefsOf;
    GrowKeeps(v, v');
  }

  /** A moment of a run: the state, and the run that led to it. */
  datatype Moment = Moment(s: Machine.State, run: seq<Machine.State>)

  /** Nothing was committed. */
  ghost predicate SameBase(a: Moment, b: Moment) {
    b.s.base == a.s.base && b.s.ub.nextInode == a.s.ub.nextInode && Machine.Unflipped(a.run, b.run)
  }

  /** With no frees pending nothing was committed, and none are pending now. */
  ghost predicate Calm(a: Moment, b: Moment) {
    b.s.ub.nextInode == a.s.ub.nextInode && (a.s.deferred == [] ==> SameBase(a, b) && b.s.deferred == [])
  }

  /** With no frees pending at the start nothing was committed. */
  ghost predicate Steady(a: Moment, b: Moment) {
    b.s.ub.nextInode == a.s.ub.nextInode && (a.s.deferred == [] ==> SameBase(a, b))
  }

  lemma BaseTwice(a: Moment, b: Moment, c: Moment)
    requires SameBase(a, b) && SameBase(b, c)
    ensures SameBase(a, c)
  {
    hide Machine.Unflipped;
    Machine.UnflippedTwice(a.run, b.run, c.run);
  }

  lemma CalmTwice(a: Moment, b: Moment, c: Moment)
    requires Calm(a, b) && Calm(b, c)
    ensures Calm(a, c)
  {
    hide SameBase;
    if a.s.deferred == [] { BaseTwice(a, b, c); }
  }

  lemma CalmSame(a: Moment, b: Moment, c: Moment)
    requires Calm(a, b) && SameBase(b, c) && c.s.deferred == b.s.deferred
    ensures Calm(a, c)
  {
    if a.s.deferred == [] { BaseTwice(a, b, c); }
  }

  lemma CalmThen(a: Moment, b: Moment, c: Moment)
    requires Calm(a, b) && SameBase(b, c)
    ensures Steady(a, c)
  {
    if a.s.deferred == [] { BaseTwice(a, b, c); }
  }

  lemma BaseThen(a: Moment, b: Moment, c: Moment)
    requires SameBase(a, b) && b.s.deferred == a.s.deferred && Steady(b, c)
    ensures Steady(a, c)
  {
    if a.s.deferred == [] { BaseTwice(a, b, c); }
  }

  lemma SteadyThen(a: Moment, b: Moment, c: Moment)
    requires Steady(a, b) && SameBase(b, c)
    ensures Steady(a, c)
  {
    if a.s.deferred == [] { BaseTwice(a, b, c); }
  }

  // ----- facts about a running volume -----

  lemma MemoryConsistent(c: Codec, s: Machine.State)
    requires Machine.Inv(c, s)
    ensures Consistent(Machine.Memory(s)) && forall k :: k in s.meta.ddt ==> RefFits(RefFrom(k, s.meta.ddt[k]))
  {
    hide Machine.Durable, Machine.Deferral, Machine.PhaseOk, Machine.Readable, Machine.Pinned, Machine.OneOwner,
      Snapshot.MetaOk, Snapshot.Geometry;
  }

  /** What a successful store did, seen by a client whose contents are all in play. */
  lemma StoredGrows(c: Codec, s: Machine.State, s': Machine.State, text: Bytes)
    requires CodecOk(c) && Stored(c, s, s', text) && c.trusted(text) && AllTrusted(c, s.plain)
    requires Consistent(Machine.Memory(s)) && Consistent(Machine.Memory(s'))
    ensures GrownBy(Machine.Memory(s), Machine.Memory(s'), multiset{c.hash(text)})
    ensures c.hash(text) in s'.plain && s'.plain[c.hash(text)] == text && AllTrusted(c, s'.plain)
    ensures s'.ub.nextInode == s.ub.nextInode
  {}

  lemma DroppedShrinks(c: Codec, s: Machine.State, s': Machine.State, k: Key)
    requires Machine.NextDrop(s, s', k) && Consistent(Machine.Memory(s)) && Consistent(Machine.Memory(s'))
    ensures ShrunkBy(Machine.Memory(s), Machine.Memory(s'), multiset{k})
    ensures s'.base == s.base && s'.ub.nextInode == s.ub.nextInode
    ensures forall c: Codec :: AllTrusted(c, s.plain) ==> AllTrusted(c, s'.plain)
  {}

  class Files {
    const vol: Volume

    constructor (vol: Volume) ensures this.vol == vol { this.vol := vol; }

    ghost function V(): View reads vol { Machine.Memory(vol.s) }

    ghost function P(): Moment reads vol { Moment(vol.s, vol.trace) }

    /** Holds even after the run has ended, so that what a crash leads to is known. */
    ghost predicate Sound()
      reads vol, vol.dev, vol.bm, vol.bm.bits, vol.ddt, vol.tbl
    {
      vol.Valid() && (forall v :: vol.good(v) == GoodView(vol.codec, v)) && GoodView(vol.codec, V())
    }

    ghost predicate Valid()
      reads vol, vol.dev, vol.bm, vol.bm.bits, vol.ddt, vol.tbl
    {
      Sound() && vol.s.phase.Idle?
    }

    /** The error has its cause, for an operation that stores records and a block map of `records` refs. */
    ghost predicate Excused(e: Store.Error, records: nat)
      reads vol
    {
      Cause(vol.codec, vol.dev.reliable, vol.s, e, Most(records))
    }

    // ----- store helpers -----

    method BsWrite(text: Bytes) returns (r: Result<Ref, Store.Error>)
      requires Valid() && |text| < U32
      modifies vol`s, vol`trace, vol`ub, vol.dev, vol.bm, vol.bm.bits, vol.ddt, vol.scratch
      ensures Sound() && old(vol.trace) <= vol.trace
      ensures r.Ok? ==> Valid() && GrownBy(old(V()), V(), multiset{r.value.hash})
      ensures r.Ok? ==> Live(r.value, V()) && TextOf(r.value, V().plain) == text && RefFits(r.value)
      ensures r.Err? ==> V() == old(V()) && (r.error != Ended ==> Valid())
      ensures r.Err? ==> Cause(vol.codec, vol.dev.reliable, vol.s, r.error, |text|)
      ensures Calm(old(P()), P()) && (r.Ok? ==> r.value.hash == vol.codec.hash(text))
      ensures r.Ok? && Reclaims(vol.codec, old(vol.s), text) ==> Machine.SnapView(vol.s.base) == old(V())
      ensures r.Ok? && !Reclaims(vol.codec, old(vol.s), text) ==>
                vol.s.base == old(vol.s.base) && vol.s.deferred == old(vol.s.deferred)
      ensures r.Ok? && !Reclaims(vol.codec, old(vol.s), text) && r.value.hash !in old(V()).ddt ==>
                Takes(vol.codec, old(vol.s.meta.bm), vol.s.meta.bm, text)
    {
      hide Machine.Inv, Machine.Accounted, Machine.IsRun, Machine.GoodRun, FsOk, Consistent, AllTrusted, SameBlock,
        Stored, NoRoom, Alloc.CountUsed, Takes;
      CodecIsOk(vol.codec, vol.s);
      MemoryConsistent(vol.codec, vol.s);
      if !vol.codec.trusted(text) {
        vol.End();
        return Err(Ended);
      }
      ghost var s := vol.s;
      r := vol.WriteOrReclaim(text);
      if r.Ok? {
        MemoryConsistent(vol.codec, vol.s);
        StoredGrows(vol.codec, s, vol.s, text);
        GrownGood(vol.codec, Machine.Memory(s), V(), multiset{vol.codec.hash(text)});
      }
    }

    /** Read a stored block. */
    method BsRead(ref: Ref) returns (r: Result<Bytes, Store.Error>)
      requires Valid() && Live(ref, V())
      ensures r.Ok? ==> r.value == TextOf(ref, V().plain)
      ensures r.Err? ==> r.error == Block && !vol.dev.reliable
    {
      hide Machine.Inv, Machine.Accounted, Machine.IsRun, Machine.GoodRun, FsOk, Consistent, AllTrusted;
      r := vol.ReadLive(ref);
    }

    // ----- reading -----

    /** The inode's data records in order. */
    method LoadRefs(i: Inode) returns (r: Result<seq<Ref>, Store.Error>)
      requires Valid() && DataOk(i, V())
      ensures r.Ok? ==> r.value == RefsOf(i, V().plain)
      ensures r.Err? ==> r.error == Block && !vol.dev.reliable
    {
      hide Machine.Inv, Machine.Accounted, Machine.IsRun, Machine.GoodRun, FsOk, Consistent, AllTrusted, MapRef,
        RecordsOk, Sound;
      if i.size == 0 {
        return Ok([]);
      }
      if Inline(i) {
        return Ok([MapRef(i)]);
      }
      var blob := BsRead(MapRef(i));
      if blob.Err? {
        return Err(blob.error);
      }
      return Ok(DecodeRefs(blob.value).value);
    }

    /** The whole contents. */
    method GetData(i: Inode) returns (r: Result<Bytes, Store.Error>)
      requires Valid() && DataOk(i, V())
      ensures r.Ok? ==> r.value == Content(i, V().plain)
      ensures r.Err? ==> r.error == Block && !vol.dev.reliable
    {
      hide FsOk, Consistent, AllTrusted, MapRef, Sound;
      var refs := LoadRefs(i);
      if refs.Err? {
        return Err(refs.error);
      }
      var out: Bytes := [];
      var j := 0;
      ghost var texts := Texts(refs.value, V().plain);
      while j < |refs.value|
        invariant 0 <= j <= |refs.value| && out == Flat(texts[..j])
      {
        RecordLive(i, V(), j);
        var rec := BsRead(refs.value[j]);
        if rec.Err? {
          return Err(rec.error);
        }
        out := out + rec.value;
        j := j + 1;
        assert texts[..j][..j - 1] == texts[..j - 1];
      }
      assert texts[..j] == texts;
      return Ok(out);
    }

    /** The part of record `n` that falls into `[off, end)`. */
    method ReadPart(i: Inode, refs: seq<Ref>, n: nat, off: nat, end: nat) returns (r: Result<Bytes, Store.Error>)
      requires Valid() && DataOk(i, V()) && refs == RefsOf(i, V().plain)
      requires off < end <= i.size && n <= RecIndex(Shift(i.recordSizeLog2), end - 1)
      ensures r.Ok? ==> var b, rs := Content(i, V().plain), Shift(i.recordSizeLog2);
                        |b| == i.size && Upto(b, off, end, rs, n) + r.value == Upto(b, off, end, rs, n + 1)
      ensures r.Err? ==> r.error == Block && !vol.dev.reliable
    {
      hide FsOk, Consistent, AllTrusted, MapRef, Sound, Content, RecStart, RecordCount, RefsOf, Live, RecordEnd,
        RecIndex, Record, Upto;
      var rs := Shift(i.recordSizeLog2);
      ContentIs(i, V());
      ReadInside(i, V(), n, end);
      RecordLive(i, V(), n);
      r := BsRead(refs[n]);
      if r.Err? {
        return r;
      }
      RecordTextIs(i, V(), n);
      var rec, start := r.value, RecStart(rs, n);
      var lo, hi := Max(off, start), Min(end, start + |rec|);
      TakePart(Content(i, V().plain), off, end, rs, n, lo, hi);
      return Ok(if lo < hi then rec[lo - start..hi - start] else []);
    }

    /** Up to `length` bytes from `off`, reading only the records the range overlaps. */
    method ReadRange(i: Inode, off: nat, length: nat) returns (r: Result<Bytes, Store.Error>)
      requires Valid() && DataOk(i, V())
      ensures r.Ok? ==> r.value == SliceOf(Content(i, V().plain), off, length)
      ensures r.Err? ==> r.error == Block && !vol.dev.reliable
    {
      hide FsOk, Consistent, AllTrusted, MapRef, Sound, Content, RecStart, RecordCount, RefsOf, Live, RecordEnd,
        RecIndex, Upto, DataOk;
      ghost var b := Content(i, V().plain);
      ContentIs(i, V());
      if length == 0 || off >= i.size {
        return Ok([]);
      }
      var end := Min(off + length, i.size);
      var refs := LoadRefs(i);
      if refs.Err? {
        return Err(refs.error);
      }
      var rs := Shift(i.recordSizeLog2);
      var out: Bytes := [];
      var n, last := RecIndex(rs, off), RecIndex(rs, end - 1);
      UptoEnds(b, off, end, rs);
      while n <= last
        invariant RecIndex(rs, off) <= n <= last + 1 && out == Upto(b, off, end, rs, n)
      {
        var part := ReadPart(i, refs.value, n, off, end);
        if part.Err? {
          return Err(part.error);
        }
        out := out + part.value;
        n := n + 1;
      }
      return Ok(out);
    }

    // ----- writing -----

    /** Record `refs` as the block map: none clears the data, one goes inline, several go into a blob. */
    method StoreRefs(i: Inode, refs: seq<Ref>, size: nat, log2: nat) returns (r: Result<Inode, Store.Error>)
      requires Valid() && Fits(i) && size < U64 && 4 + |refs| * REF_SIZE < U32
      requires if size == 0 then refs == [] else 12 <= log2 <= 15 && RecordsOk(refs, size, Shift(log2), V())
      modifies vol`s, vol`trace, vol`ub, vol.dev, vol.bm, vol.bm.bits, vol.ddt, vol.scratch
      ensures Sound() && old(vol.trace) <= vol.trace
      ensures r.Ok? ==> Valid() && GrownBy(old(V()), V(), Container(r.value)) && DataOk(r.value, V())
      ensures r.Ok? ==> RefsOf(r.value, V().plain) == refs && SameAttributes(i, r.value) && r.value.size == size
      ensures r.Ok? ==> r.value.recordSizeLog2 == if size == 0 then 0 else log2
      ensures r.Ok? ==> (Inline(r.value) <==> |refs| == 1) && (|refs| == 0 ==> r.value.blockMap == Zeros(64))
      ensures r.Err? ==> V() == old(V()) && (r.error != Ended ==> Valid()) && Excused(r.error, |refs|)
      ensures Calm(old(P()), P())
    {
      hide Machine.Inv, Machine.Accounted, Machine.IsRun, Machine.GoodRun, Sound, MapRef, Live, SameBlock, EncodeRefs,
        RecordsOk, Fits, Cause;
      Quiet();
      if |refs| == 0 {
        CountZero(size, Shift(log2), refs, V());
        EmptiedOk(i, V());
        return Ok(Emptied(i));
      }
      FitsOfLive(refs, size, log2);
      if |refs| == 1 {
        InlineOk(i, refs, size, log2, V());
        return Ok(WithMap(i, refs[0], size, log2, true));
      }
      EncodeRefsLen(refs);
      ghost var v := V();
      var m := BsWrite(EncodeRefs(refs));
      if m.Err? {
        CauseMore(vol.codec, vol.dev.reliable, vol.s, m.error, |EncodeRefs(refs)|, Most(|refs|));
        return Err(m.error);
      }
      GrownRecords(v, V(), multiset{m.value.hash}, refs, size, Shift(log2));
      ExternalOk(i, refs, m.value, size, log2, V());
      return Ok(WithMap(i, m.value, size, log2, false));
    }

    /** Doing nothing changes nothing. */
    lemma Quiet()
      requires Sound()
      ensures GrownBy(V(), V(), multiset{}) && Consistent(V()) && SameBase(P(), P())
    {
      hide FsOk, Consistent, AllTrusted, Machine.Inv, Machine.Accounted, Machine.IsRun, Machine.GoodRun;
      ShrunkNone(V());
    }

    /** Every ref of a stored record fits its encoding. */
    lemma FitsOfLive(refs: seq<Ref>, size: nat, log2: nat)
      requires Valid() && RecordsOk(refs, size, Shift(log2), V())
      ensures forall j :: 0 <= j < |refs| ==> RefFits(refs[j])
    {
      hide Machine.Inv, Machine.Accounted, Machine.IsRun, Machine.GoodRun, FsOk, Consistent, AllTrusted, RefFits,
        RecStart, RecordEnd, RecordCount;
      MemoryConsistent(vol.codec, vol.s);
    }

    method ReleaseOne(ref: Ref)
      requires vol.Ready() && AllTrusted(vol.codec, V().plain) && ref.hash in V().ddt
      modifies vol`s, vol`trace, vol.bm`deferred, vol.ddt
      ensures vol.Ready() && old(vol.trace) <= vol.trace && AllTrusted(vol.codec, V().plain) && Consistent(V())
      ensures ShrunkBy(old(V()), V(), multiset{ref.hash})
      ensures SameBase(old(P()), P())
    {
      hide Machine.Inv, Machine.Accounted, Machine.IsRun, Machine.GoodRun, Machine.NextDrop, AllTrusted, Consistent,
        ShrunkBy, Alloc.CountUsed;
      ghost var s := vol.s;
      MemoryConsistent(vol.codec, s);
      vol.Release(ref);
      MemoryConsistent(vol.codec, vol.s);
      DroppedShrinks(vol.codec, s, vol.s, ref.hash);
    }

    /** Drop one reference for each of the refs. */
    method ReleaseRefs(refs: seq<Ref>)
      requires vol.Ready() && AllTrusted(vol.codec, V().plain)
      requires forall k :: KeysOf(refs)[k] <= Dedup.RefsOf(V().ddt, k)
      modifies vol`s, vol`trace, vol.bm`deferred, vol.ddt
      ensures vol.Ready() && old(vol.trace) <= vol.trace && AllTrusted(vol.codec, V().plain) && Consistent(V())
      ensures ShrunkBy(old(V()), V(), KeysOf(refs))
      ensures SameBase(old(P()), P()) && (refs == [] ==> vol.s.deferred == old(vol.s.deferred))
    {
      hide Machine.Inv, Machine.Accounted, Machine.IsRun, Machine.GoodRun, AllTrusted, ShrunkBy, Consistent,
        Alloc.CountUsed, KeysOf;
      var j := 0;
      ghost var v := V();
      MemoryConsistent(vol.codec, vol.s);
      ShrunkNone(v);
      assert refs[..0] == [];
      while j < |refs|
        invariant 0 <= j <= |refs| && vol.Ready() && old(vol.trace) <= vol.trace && AllTrusted(vol.codec, V().plain)
                  && Consistent(V())
        invariant SameBase(old(P()), P()) && (j == 0 ==> vol.s.deferred == old(vol.s.deferred))
        invariant ShrunkBy(v, V(), KeysOf(refs[..j]))
      {
        ghost var v1, at := V(), P();
        StillCounted(v, v1, refs, j);
        ReleaseOne(refs[j]);
        BaseTwice(old(P()), at, P());
        ShrunkTwice(v, v1, V(), KeysOf(refs[..j]), multiset{refs[j].hash});
        KeysTake(refs, j);
        j := j + 1;
      }
      assert refs[..j] == refs;
    }

    /**
     Give up the replaced refs and install the new inode. `v` is the view the operation started from and `into` what it
     has added since; the refs given up and the keys of the new inode must balance the keys of the old one.
     */
    method Install(id: nat, x: Inode, drop: seq<Ref>, ghost v: View, ghost into: multiset<Key>)
      requires Valid() && id < |V().inodes| && DataOk(x, V())
      requires GoodView(vol.codec, v) && GrownBy(v, V(), into)
      requires KeysOf(drop) + Keys(x, V().plain) == Keys(v.inodes[id], v.plain) + into
      modifies vol`s, vol`trace, vol.bm`deferred, vol.ddt, vol.tbl
      ensures Valid() && old(vol.trace) <= vol.trace
      ensures Replaced(v, V(), id, x) && Content(x, V().plain) == Content(x, old(V()).plain)
      ensures SameBase(old(P()), P()) && (drop == [] ==> vol.s.deferred == old(vol.s.deferred))
    {
      hide Machine.Inv, Machine.Accounted, Machine.IsRun, Machine.GoodRun, AllTrusted, ShrunkBy, GrownBy, Consistent,
        Alloc.CountUsed, KeysOf, Keys, DataOk, FsOk, Content, Replaced, Fits;
      ghost var v1 := V();
      GrownTable(v, v1, into);
      CanDrop(v, v1, id, x, drop, into);
      DataFits(x, v1);
      ReleaseRefs(drop);
      ghost var v2, at := V(), P();
      var ok := vol.PutInode(id, x);
      BaseTwice(old(P()), at, P());
      InstallOk(vol.codec, v, v1, v2, V(), id, x, drop, into);
    }

    /** Read-modify-write one record and store it. */
    method RewriteRecord(j: Job, n: nat) returns (r: Result<Ref, Store.Error>)
      requires Valid() && JobOk(j, V()) && n < RecordCount(j.NewSize(), j.rs)
      modifies vol`s, vol`trace, vol`ub, vol.dev, vol.bm, vol.bm.bits, vol.ddt, vol.scratch
      ensures Sound() && old(vol.trace) <= vol.trace
      ensures r.Ok? ==> Valid() && GrownBy(old(V()), V(), multiset{r.value.hash}) && HoldsRecord(j, V(), n, r.value)
      ensures r.Err? ==> V() == old(V()) && (r.error != Ended ==> Valid()) && Excused(r.error, 0)
      ensures Calm(old(P()), P())
    {
      hide Sound, Splice, Overlay, RecStart, RecordCount, RecordEnd, Live, SameBlock, GrownBy, AreRecords,
        Cause;
      Quiet();
      var start, end := RecStart(j.rs, n), RecordEnd(j.NewSize(), j.rs, n);
      JobRecord(j, V(), n);
      var was: Bytes := [];
      if n < |j.refs| {
        var part := BsRead(j.refs[n]);
        if part.Err? {
          ReadExcused(0);
          return Err(part.error);
        }
        was := part.value;
      }
      var rec := Overlay(was, end - start, start, j.off, j.data);
      r := BsWrite(rec);
      if r.Err? { CauseMore(vol.codec, vol.dev.reliable, vol.s, r.error, |rec|, Most(0)); }
    }

    /** Write the data of a job record by record, carrying over the records it does not touch. */
    method WriteRecords(j: Job) returns (r: Result<(seq<Ref>, seq<Ref>), Store.Error>, ghost into: multiset<Key>)
      requires Valid() && JobOk(j, V()) && j.rs > 0
      modifies vol`s, vol`trace, vol`ub, vol.dev, vol.bm, vol.bm.bits, vol.ddt, vol.scratch
      ensures Sound() && old(vol.trace) <= vol.trace && GrownBy(old(V()), V(), into)
      ensures r.Ok? ==>
                Valid() && JobOk(j, V()) && Progress(j, V(), RecordCount(j.NewSize(), j.rs), r.value.0, r.value.1, into)
      ensures r.Err? ==> (r.error != Ended ==> Valid()) && Excused(r.error, 0)
      ensures Calm(old(P()), P()) && (r.Ok? && j.refs == [] ==> r.value.1 == [])
    {
      hide Sound, Splice, RecStart, RecordCount, RecordEnd, Live, SameBlock, GrownBy, AreRecords, KeysOf, Progress,
        JobOk, Excused;
      ghost var v := V();
      var newRefs: seq<Ref>, dropped: seq<Ref> := [], [];
      into := multiset{};
      Quiet();
      ProgressNone(j, v);
      var n, count := 0, RecordCount(j.NewSize(), j.rs);
      while n < count
        invariant 0 <= n <= count && Valid() && old(vol.trace) <= vol.trace && JobOk(j, V()) && Calm(old(P()), P())
        invariant GrownBy(v, V(), into) && Progress(j, V(), n, newRefs, dropped, into)
        invariant j.refs == [] ==> dropped == []
      {
        var start, end := RecStart(j.rs, n), RecordEnd(j.NewSize(), j.rs, n);
        var touched := j.off + |j.data| > start && j.off < end;
        if !touched && n < |j.refs| && end <= j.size {
          ProgressCarry(j, V(), n, newRefs, dropped, into);
          newRefs := newRefs + [j.refs[n]];
        } else {
          ghost var v1, at := V(), P();
          var w := RewriteRecord(j, n);
          CalmTwice(old(P()), at, P());
          if w.Err? {
            return Err(w.error), into;
          }
          ProgressRewrite(j, v, v1, V(), n, newRefs, dropped, into, w.value);
          newRefs := newRefs + [w.value];
          if n < |j.refs| {
            dropped := dropped + [j.refs[n]];
          }
          into := into + multiset{w.value.hash};
        }
        n := n + 1;
      }
      return Ok((newRefs, dropped)), into;
    }

    /**
     Stamp the inode whose block map was just stored, give up the refs it no longer needs, and put it into the table.
     */
    method Swap(id: nat, i: Inode, x: Inode, newRefs: seq<Ref>, dropped: seq<Ref>, now: nat, ghost v: View,
        ghost into: multiset<Key>)
      returns (y: Inode)
      requires Valid() && GoodView(vol.codec, v) && now < U64 && SwapReady(v, V(), id, i, x, newRefs, dropped, into)
      modifies vol`s, vol`trace, vol.bm`deferred, vol.ddt, vol.tbl
      ensures Valid() && old(vol.trace) <= vol.trace && Replaced(v, V(), id, y) && Touched(i, y, now)
      ensures y.size == x.size && y.recordSizeLog2 == x.recordSizeLog2
      ensures Content(y, V().plain) == Flat(Texts(newRefs, old(V()).plain))
      ensures SameBase(old(P()), P())
      ensures dropped == [] && i.size == 0 ==> vol.s.deferred == old(vol.s.deferred)
    {
      hide Machine.Inv, Machine.Accounted, Machine.IsRun, Machine.GoodRun, Live, GrownBy, KeysOf, Keys, DataOk, Content,
        RefsOf, Container, Replaced, Fits, SameData, MapRef, GoodView;
      MapFits(i);
      y := x.(mtime := now, ctime := now);
      TouchIgnored(x, now, V());
      var drop := if External(i) then dropped + [MapRef(i)] else dropped;
      SwapBalance(i, v, V(), id, newRefs, dropped, into, y);
      Install(id, y, drop, v, into + Container(x));
    }

    lemma StillExcused(e: Store.Error, a: nat, b: nat)
      requires Excused(e, a) && a <= b
      ensures Excused(e, b)
    {
      hide Cause;
      CauseMore(vol.codec, vol.dev.reliable, vol.s, e, Most(a), Most(b));
    }

    lemma ReadExcused(records: nat)
      requires !vol.dev.reliable
      ensures Excused(Block, records)
    {}

    /** Store the new records, then swap the block map: the second half of a write. */
    method FinishWrite(id: nat, i: Inode, j: Job, log2: nat, now: nat) returns (r: Result<Inode, Store.Error>)
      requires Valid() && id < |V().inodes| && SameData(i, V().inodes[id]) && Fits(i) && now < U64 && DataOk(i, V())
      requires JobOk(j, V()) && j.refs == RefsOf(i, V().plain) && j.rs == Shift(log2) && 12 <= log2 <= 15
      requires j.NewSize() < U64 && 4 + RecordCount(j.NewSize(), j.rs) * REF_SIZE < U32
      modifies vol`s, vol`trace, vol`ub, vol.dev, vol.bm, vol.bm.bits, vol.ddt, vol.scratch, vol.tbl
      ensures Sound() && old(vol.trace) <= vol.trace
      ensures r.Ok? ==> Valid() && Replaced(old(V()), V(), id, r.value) && Touched(i, r.value, now)
      ensures r.Ok? ==> Content(r.value, V().plain) == Splice(j.was, j.off, j.data)
      ensures r.Ok? ==> r.value.size == j.NewSize() && r.value.recordSizeLog2 == log2
      ensures r.Err? ==> OnlyLeaked(old(V()), V()) && (r.error != Ended ==> Valid())
      ensures r.Err? ==> Excused(r.error, RecordCount(j.NewSize(), j.rs))
      ensures Steady(old(P()), P()) && (j.refs == [] && i.size == 0 ==> Calm(old(P()), P()))
    {
      hide Machine.Inv, Machine.Accounted, Machine.IsRun, Machine.GoodRun, Splice, RecordCount, Live, GrownBy, KeysOf,
        Progress, JobOk, DataOk, Content, RefsOf, Container, RecordsOk, Replaced, OnlyLeaked, Fits, SameData, GoodView,
        Touched, SameAttributes, Cause, Excused;
      ghost var v := V();
      NewSizePositive(j, v);
      var w, into := WriteRecords(j);
      GrownLeaks(vol.codec, v, V(), into);
      if w.Err? {
        StillExcused(w.error, 0, RecordCount(j.NewSize(), j.rs));
        return Err(w.error);
      }
      var (newRefs, dropped) := w.value;
      ProgressDone(j, V(), newRefs, dropped, into);
      ghost var v1, at := V(), P();
      var x := StoreRefs(i, newRefs, j.NewSize(), log2);
      CalmTwice(old(P()), at, P());
      if x.Err? {
        return Err(x.error);
      }
      GrownTwiceGood(vol.codec, v, v1, V(), into, Container(x.value));
      GrownTexts(v1, V(), Container(x.value), newRefs, j.NewSize(), Shift(log2));
      ghost var stored := P();
      var y := Swap(id, i, x.value, newRefs, dropped, now, v, into);
      CalmThen(old(P()), stored, P());
      if j.refs == [] && i.size == 0 { CalmSame(old(P()), stored, P()); }
      return Ok(y);
    }

    /**
     Overwrite at `off`, extending the file with a zero-filled gap if needed; only overlapped records are rewritten.
     */
    method WriteAtLocked(id: nat, i: Inode, off: nat, data: Bytes, now: nat) returns (r: Result<Inode, Store.Error>)
      requires Valid() && InTable(i, id, V()) && now < U64 && (data != [] ==> WriteFits(i, off, |data|))
      modifies vol`s, vol`trace, vol`ub, vol.dev, vol.bm, vol.bm.bits, vol.ddt, vol.scratch, vol.tbl
      ensures Sound() && old(vol.trace) <= vol.trace
      ensures data == [] ==> r == Ok(i) && Valid() && V() == old(V())
      ensures r.Ok? && data != [] ==> Valid() && Replaced(old(V()), V(), id, r.value) && Touched(i, r.value, now)
      ensures r.Ok? && data != [] ==>
                Content(r.value, V().plain) == Splice(Content(old(V()).inodes[id], old(V()).plain), off, data)
      ensures r.Ok? && data != [] ==> r.value.size == Max(i.size, off + |data|)
      ensures r.Ok? && data != [] ==>
                r.value.recordSizeLog2 == if i.size > 0 then i.recordSizeLog2 else RecordSizeFor(off + |data|).1
      ensures r.Err? ==> OnlyLeaked(old(V()), V()) && (r.error != Ended ==> Valid())
      ensures r.Err? ==> data != [] && Excused(r.error, WriteCount(i, off, |data|))
      ensures Steady(old(P()), P()) && (i.size == 0 ==> Calm(old(P()), P()))
    {
      hide Machine.Inv, Machine.Accounted, Machine.IsRun, Machine.GoodRun, Splice, RecordCount, JobOk, DataOk, Content,
        RefsOf, Replaced, OnlyLeaked, Fits, SameData, GoodView, Touched, Shift, Excused;
      Quiet();
      if data == [] {
        return Ok(i);
      }
      TableData(vol.codec, i, id, V());
      LeakNothing(V());
      var refs := LoadRefs(i);
      if refs.Err? {
        ReadExcused(WriteCount(i, off, |data|));
        return Err(refs.error);
      }
      var newSize := Max(i.size, off + |data|);
      var (rs, log2) := if i.size > 0 then (Shift(i.recordSizeLog2), i.recordSizeLog2) else RecordSizeFor(newSize);
      var j := Job(Content(i, V().plain), i.size, refs.value, rs, off, data);
      JobStarts(i, V(), j, log2);
      assert i.size == 0 ==> refs.value == [] by { NoRefs(i, V()); }
      r := FinishWrite(id, i, j, log2, now);
    }

    /** Cut a blob into records and store each. */
    method WriteBlob(blob: Bytes, rs: nat) returns (r: Result<seq<Ref>, Store.Error>, ghost into: multiset<Key>)
      requires Valid() && 0 < rs <= 32768
      modifies vol`s, vol`trace, vol`ub, vol.dev, vol.bm, vol.bm.bits, vol.ddt, vol.scratch
      ensures Sound() && old(vol.trace) <= vol.trace && GrownBy(old(V()), V(), into)
      ensures r.Ok? ==> Valid() && Chopped(blob, rs, r.value, V(), RecordCount(|blob|, rs)) && into == KeysOf(r.value)
      ensures r.Err? ==> (r.error != Ended ==> Valid()) && Excused(r.error, 0)
      ensures Calm(old(P()), P())
    {
      hide Sound, RecStart, RecordCount, RecordEnd, Live, SameBlock, GrownBy, KeysOf, Chopped, Record, Consistent,
        Cause;
      ghost var v := V();
      var refs: seq<Ref> := [];
      into := multiset{};
      Quiet();
      ChoppedNone(blob, rs, v);
      var n := 0;
      while n < RecordCount(|blob|, rs)
        invariant 0 <= n <= RecordCount(|blob|, rs) && Valid() && old(vol.trace) <= vol.trace && into == KeysOf(refs)
                  && Calm(old(P()), P())
        invariant GrownBy(v, V(), into) && Chopped(blob, rs, refs, V(), n)
      {
        RecordStarts(|blob|, rs, n);
        RecordShort(blob, rs, n);
        ghost var v1, at := V(), P();
        var w := BsWrite(Record(blob, rs, n));
        CalmTwice(old(P()), at, P());
        if w.Err? {
          CauseMore(vol.codec, vol.dev.reliable, vol.s, w.error, |Record(blob, rs, n)|, Most(0));
          return Err(w.error), into;
        }
        ChoppedNext(blob, rs, refs, v, v1, V(), n, into, w.value);
        refs, into, n := refs + [w.value], into + multiset{w.value.hash}, n + 1;
      }
      return Ok(refs), into;
    }

    /** Replace the contents with `blob`. New records are written before the old ones are given up. */
    method SetData(id: nat, i: Inode, blob: Bytes, now: nat) returns (r: Result<Inode, Store.Error>)
      requires Valid() && InTable(i, id, V()) && now < U64 && BlobFits(blob)
      modifies vol`s, vol`trace, vol`ub, vol.dev, vol.bm, vol.bm.bits, vol.ddt, vol.scratch, vol.tbl
      ensures Sound() && old(vol.trace) <= vol.trace
      ensures r.Ok? ==> Valid() && Replaced(old(V()), V(), id, r.value) && Touched(i, r.value, now)
      ensures r.Ok? ==> Content(r.value, V().plain) == blob
      ensures r.Ok? ==>
                r.value.size == |blob| && r.value.recordSizeLog2 == if blob == [] then 0 else RecordSizeFor(|blob|).1
      ensures r.Err? ==> OnlyLeaked(old(V()), V()) && (r.error != Ended ==> Valid())
      ensures r.Err? ==> Excused(r.error, BlobCount(|blob|))
      ensures Steady(old(P()), P())
    {
      hide Machine.Inv, Machine.Accounted, Machine.IsRun, Machine.GoodRun, RecordCount, Live, GrownBy, KeysOf, DataOk,
        Content, RefsOf, Container, RecordsOk, Replaced, OnlyLeaked, Fits, SameData, GoodView, Touched, SameAttributes,
        Shift, RecordSizeFor, Chopped, Cause, Excused, Zeros, Inline, SwapReady;
      ghost var v := V();
      RecordSizeIsShift(|blob|);
      ShiftAtLeast(RecordSizeFor(|blob|).1);
      var (rs, log2) := RecordSizeFor(|blob|);
      var w, into := WriteBlob(blob, rs);
      GrownLeaks(vol.codec, v, V(), into);
      if w.Err? {
        StillExcused(w.error, 0, BlobCount(|blob|));
        return Err(w.error);
      }
      ChoppedDone(blob, rs, w.value, V());
      ghost var v1, at := V(), P();
      var x := StoreRefs(i, w.value, |blob|, if blob == [] then 0 else log2);
      CalmTwice(old(P()), at, P());
      if x.Err? {
        return Err(x.error);
      }
      GrownTwiceGood(vol.codec, v, v1, V(), into, Container(x.value));
      GrownLeaks(vol.codec, v, V(), into + Container(x.value));
      ChoppedTexts(v1, V(), Container(x.value), blob, rs, w.value);
      SwapSame(id, i, v, V(), x.value, w.value, into);
      ghost var stored := P();
      r := GiveUpOld(id, i, x.value, w.value, now, v, into);
      if r.Err? { ReadExcused(BlobCount(|blob|)); }
      CalmThen(old(P()), stored, P());
    }

    /** Release the old data and install the new inode. */
    method GiveUpOld(id: nat, i: Inode, x: Inode, newRefs: seq<Ref>, now: nat, ghost v: View, ghost into: multiset<Key>)
      returns (r: Result<Inode, Store.Error>)
      requires Valid() && GoodView(vol.codec, v) && now < U64 && OnlyLeaked(v, V()) && InTable(i, id, V())
      requires SwapReady(v, V(), id, i, x, newRefs, RefsOf(i, v.plain), into)
      modifies vol`s, vol`trace, vol.bm`deferred, vol.ddt, vol.tbl
      ensures Valid() && old(vol.trace) <= vol.trace
      ensures r.Ok? ==> Replaced(v, V(), id, r.value) && Touched(i, r.value, now)
      ensures r.Ok? ==> Content(r.value, V().plain) == Flat(Texts(newRefs, old(V()).plain))
      ensures r.Ok? ==> r.value.size == x.size && r.value.recordSizeLog2 == x.recordSizeLog2
      ensures r.Err? ==> r.error == Block && !vol.dev.reliable && OnlyLeaked(v, V())
      ensures SameBase(old(P()), P())
    {
      hide Machine.Inv, Machine.Accounted, Machine.IsRun, Machine.GoodRun, DataOk, Content, RefsOf, Replaced,
        OnlyLeaked, GoodView, Touched, SwapReady, InTable;
      TableData(vol.codec, i, id, V());
      Quiet();
      var refs := LoadRefs(i);
      if refs.Err? {
        return Err(refs.error);
      }
      OldRefsSame(vol.codec, v, V(), id, i, x, newRefs, into);
      var y := Swap(id, i, x, newRefs, refs.value, now, v, into);
      return Ok(y);
    }

    /** Free an inode's data and leave a blank slot with the next generation. */
    method ReclaimSlot(id: nat, i: Inode) returns (r: Result<Inode, Store.Error>)
      requires Valid() && InTable(i, id, V())
      modifies vol`s, vol`trace, vol.bm`deferred, vol.ddt, vol.tbl
      ensures Valid() && old(vol.trace) <= vol.trace
      ensures r.Ok? ==>
                r.value == Blank().(generation := (i.generation + 1) % U32) && Replaced(old(V()), V(), id, r.value)
      ensures r.Ok? ==> Content(r.value, V().plain) == []
      ensures r.Err? ==> r.error == Block && !vol.dev.reliable && V() == old(V())
      ensures SameBase(old(P()), P())
    {
      hide Machine.Inv, Machine.Accounted, Machine.IsRun, Machine.GoodRun, DataOk, Content, RefsOf, Replaced, GoodView,
        InTable, GrownBy, KeysOf, Keys, MapRef;
      ghost var v := V();
      TableData(vol.codec, i, id, v);
      Quiet();
      var refs := LoadRefs(i);
      if refs.Err? {
        return Err(refs.error);
      }
      InTableMap(i, id, v);
      var drop := if External(i) then refs.value + [MapRef(i)] else refs.value;
      var x := Blank().(generation := (i.generation + 1) % U32);
      BlankBalance(i, id, v, refs.value, x);
      Install(id, x, drop, v, multiset{});
      return Ok(x);
    }

    /** Put an inode into its slot, either with the data the slot has or with none. */
    method PutSlot(id: nat, x: Inode)
      requires Valid() && id < |V().inodes| && Fits(x) && (SameData(x, V().inodes[id]) || x.size == 0)
      modifies vol`s, vol`trace, vol.tbl
      ensures Valid() && old(vol.trace) <= vol.trace && SameBase(old(P()), P()) && vol.s.deferred == old(vol.s.deferred)
      ensures V() == old(V()).(inodes := old(V()).inodes[id := x]) && OthersSame(old(V()), V(), id)
      ensures SameSurplus(old(V()), V()) <==> Keys(x, V().plain) == Keys(old(V()).inodes[id], V().plain)
    {
      hide Machine.Inv, Machine.Accounted, Machine.IsRun, Machine.GoodRun, GoodView, Keys, SameSurplus, OthersSame,
        SameData, Fits;
      ghost var v := V();
      var ok := vol.PutInode(id, x);
      PutOk(vol.codec, v, V(), id, x);
    }

    // ----- operations on regular files -----

    /** A copy of a regular file's inode. */
    method GetRegular(id: nat) returns (r: Result<Inode, FsError>)
      requires Valid()
      ensures r.Ok? ==>
                IsRegular(V(), id) && r.value == V().inodes[id] && InTable(r.value, id, V()) && DataOk(r.value, V())
      ensures r.Err? ==> !IsRegular(V(), id) && r.error == NotThere(V(), id)
    {
      hide Machine.Inv, Machine.Accounted, Machine.IsRun, Machine.GoodRun, DataOk, Consistent, AllTrusted, Fits;
      var i := vol.tbl.Get(id);
      if i.Err? {
        return Err(NoInode);
      }
      if i.value.kind != TYPE_REGULAR {
        return Err(NotFile);
      }
      DataFits(i.value, V());
      return Ok(i.value);
    }

    /** Reading a range is slicing the contents. */
    method ReadAt(id: nat, off: nat, length: nat) returns (r: Result<Bytes, FsError>)
      requires Valid()
      ensures r.Ok? ==> IsRegular(V(), id) && r.value == SliceOf(FileBytes(V(), id), off, length)
      ensures r.Ok? ==> PartOf(FileBytes(V(), id), off, length, r.value)
      ensures r.Err? ==>
                if IsRegular(V(), id) then r.error == Io(Block) && !vol.dev.reliable else r.error == NotThere(V(), id)
    {
      hide Sound, DataOk, Content, InTable, PartOf, SliceOf;
      var i := GetRegular(id);
      if i.Err? {
        return Err(i.error);
      }
      var b := ReadRange(i.value, off, length);
      SliceParts(FileBytes(V(), id), off, length);
      return if b.Ok? then Ok(b.value) else Err(Io(b.error));
    }

    /** Writing at an offset is splicing; writing nothing does nothing, even past the end. */
    method WriteAt(id: nat, off: nat, data: Bytes, now: nat) returns (r: Result<(), FsError>)
      requires Valid() && now < U64 && (IsRegular(V(), id) && data != [] ==> WriteFits(V().inodes[id], off, |data|))
      modifies vol`s, vol`trace, vol`ub, vol.dev, vol.bm, vol.bm.bits, vol.ddt, vol.scratch, vol.tbl
      ensures Sound() && old(vol.trace) <= vol.trace
      ensures r.Ok? ==> Valid() && IsRegular(old(V()), id)
      ensures r.Ok? ==>
                if data == [] then V() == old(V())
                else FileBecomes(old(V()), V(), id, Splice(FileBytes(old(V()), id), off, data))
      ensures r.Ok? && data != [] ==> SplicedTo(FileBytes(old(V()), id), off, data, FileBytes(V(), id))
      ensures r.Err? && r.error.Io? ==>
                id < |old(V()).inodes| && data != []
                && Excused(r.error.error, WriteCount(old(V()).inodes[id], off, |data|))
      ensures r.Err? ==> OnlyLeaked(old(V()), V()) && (r.error != Io(Ended) ==> Valid())
      ensures r.Err? && !r.error.Io? ==>
                !IsRegular(old(V()), id) && r.error == NotThere(old(V()), id) && V() == old(V())
      ensures Steady(old(P()), P())
    {
      hide Sound, DataOk, Content, InTable, Splice, Replaced, Touched, OnlyLeaked, Excused, SplicedTo, RecordCount,
        Shift, RecordSizeFor;
      Quiet();
      LeakNothing(V());
      var i := GetRegular(id);
      if i.Err? {
        return Err(i.error);
      }
      ghost var v := V();
      var w := WriteAtLocked(id, i.value, off, data, now);
      if w.Err? {
        return Err(Io(w.error));
      }
      if data != [] {
        ReplacedFile(v, V(), id, i.value, w.value, now);
        SplicePlaces(FileBytes(v, id), off, data);
      }
      return Ok(());
    }

    /** Replace the whole contents. */
    method WriteFile(id: nat, data: Bytes, now: nat) returns (r: Result<(), FsError>)
      requires Valid() && now < U64 && BlobFits(data)
      modifies vol`s, vol`trace, vol`ub, vol.dev, vol.bm, vol.bm.bits, vol.ddt, vol.scratch, vol.tbl
      ensures Sound() && old(vol.trace) <= vol.trace
      ensures r.Ok? ==> Valid() && FileBecomes(old(V()), V(), id, data)
      ensures r.Err? && r.error.Io? ==> Excused(r.error.error, BlobCount(|data|))
      ensures r.Err? ==> OnlyLeaked(old(V()), V()) && (r.error != Io(Ended) ==> Valid())
      ensures r.Err? && !r.error.Io? ==>
                !IsRegular(old(V()), id) && r.error == NotThere(old(V()), id) && V() == old(V())
      ensures Steady(old(P()), P())
    {
      hide Sound, DataOk, Content, InTable, BlobFits, Replaced, Touched, OnlyLeaked, FileBecomes, Excused, BlobCount;
      Quiet();
      LeakNothing(V());
      var i := GetRegular(id);
      if i.Err? {
        return Err(i.error);
      }
      ghost var v := V();
      var w := SetData(id, i.value, data, now);
      if w.Err? {
        return Err(Io(w.error));
      }
      ReplacedFile(v, V(), id, i.value, w.value, now);
      return Ok(());
    }

    /** Truncation cuts the tail or extends with zeros. */
    method Truncate(id: nat, size: nat, now: nat) returns (r: Result<(), FsError>)
      requires Valid() && now < U64 && SizeFits(size)
      modifies vol`s, vol`trace, vol`ub, vol.dev, vol.bm, vol.bm.bits, vol.ddt, vol.scratch, vol.tbl
      ensures Sound() && old(vol.trace) <= vol.trace
      ensures r.Ok? ==> Valid() && IsRegular(old(V()), id)
      ensures r.Ok? ==> if size == old(V()).inodes[id].size then V() == old(V())
                        else FileBecomes(old(V()), V(), id, Resize(FileBytes(old(V()), id), size))
      ensures r.Ok? ==> CutTo(FileBytes(old(V()), id), FileBytes(V(), id), size)
      ensures r.Err? && r.error.Io? ==> Excused(r.error.error, BlobCount(size))
      ensures r.Err? ==> OnlyLeaked(old(V()), V()) && (r.error != Io(Ended) ==> Valid())
      ensures r.Err? && !r.error.Io? ==>
                !IsRegular(old(V()), id) && r.error == NotThere(old(V()), id) && V() == old(V())
      ensures Steady(old(P()), P())
    {
      hide Sound, DataOk, Content, InTable, Replaced, Touched, OnlyLeaked, RecordSizeFor, RecordCount, Excused,
        BlobCount, CutTo, Resize;
      Quiet();
      LeakNothing(V());
      var i := GetRegular(id);
      if i.Err? {
        return Err(i.error);
      }
      ghost var v := V();
      ResizeCuts(FileBytes(v, id), size);
      if size == i.value.size {
        ContentIs(i.value, v);
        KeepsSize(FileBytes(v, id));
        return Ok(());
      }
      var blob := GetData(i.value);
      if blob.Err? {
        ReadExcused(BlobCount(size));
        return Err(Io(blob.error));
      }
      var w := SetData(id, i.value, Resize(blob.value, size), now);
      if w.Err? {
        return Err(Io(w.error));
      }
      ReplacedFile(v, V(), id, i.value, w.value, now);
      return Ok(());
    }

    /** Make everything durable. */
    method Fsync() returns (r: Result<(), CommitError>)
      requires Valid()
      modifies vol`s, vol`trace, vol`ub, vol.dev, vol.bm, vol.bm.bits, vol.scratch
      ensures Sound() && old(vol.trace) <= vol.trace && V() == old(V())
      ensures r.Ok? ==>
                Valid() && Machine.SnapView(vol.s.base) == V() && vol.s.base.ub.nextInode == old(vol.s.ub.nextInode)
      ensures r == Err(MetaTooBig) ==> Valid()
      ensures r.Err? ==> vol.s.base == old(vol.s.base)
      ensures vol.s.ub.nextInode == old(vol.s.ub.nextInode)
      ensures Machine.Leads(old(vol.trace), vol.trace, old(V()), old(vol.s.ub.nextInode))
      ensures r.Ok? ==> !Machine.Unflipped(old(vol.trace), vol.trace)
      ensures r == Err(MetaTooBig) <==>
                old(vol.s.ub.seqNo) + 1 < U64
                && Snapshot.SavedLen(old(vol.s.meta)) > old(vol.s.ub.metaBlocks) * BLK
      ensures vol.dev.reliable ==> (r == Err(CommitEnded) <==> old(vol.s.ub.seqNo) + 1 >= U64)
    {
      hide Machine.Inv, Machine.Accounted, Machine.IsRun, Machine.GoodRun, GoodView, Alloc.CountUsed, Alloc.Applied;
      StampIs(vol.codec, vol.s);
      r := vol.Commit();
      assert vol.trace[|vol.trace| - 1] == vol.s && old(vol.trace)[|old(vol.trace)| - 1] == old(vol.s);
      assert r.Err? ==> r.error.MetaTooBig? || r.error.CommitEnded?;
    }
  }

  // ----- one write -----

  /** A write in progress: the old contents and their refs, the record size, and what is written where. */
  datatype Job = Job(ghost was: Bytes, size: nat, refs: seq<Ref>, rs: nat, off: nat, data: Bytes) {
    function NewSize(): nat { Max(size, off + |data|) }
  }

  ghost predicate JobOk(j: Job, v: View) {
    && j.size == |j.was| && 0 < j.rs <= 32768 && |j.data| > 0
    && |j.refs| == RecordCount(j.size, j.rs) && AreRecords(Texts(j.refs, v.plain), j.was, j.rs)
    && forall n :: 0 <= n < |j.refs| ==> Live(j.refs[n], v)
  }

  /** The ref holds record `n` of the new contents. */
  ghost predicate HoldsRecord(j: Job, v: View, n: nat, r: Ref) {
    && Live(r, v) && RecStart(j.rs, n) <= |Splice(j.was, j.off, j.data)|
    && TextOf(r, v.plain) == Record(Splice(j.was, j.off, j.data), j.rs, n)
  }

  ghost predicate Progress(j: Job, v: View, n: nat, newRefs: seq<Ref>, dropped: seq<Ref>, into: multiset<Key>) {
    && j.size == |j.was| && |newRefs| == n
    && (forall i :: 0 <= i < n ==> HoldsRecord(j, v, i, newRefs[i]))
    && KeysOf(newRefs) + KeysOf(dropped) == KeysOf(j.refs[..Min(n, |j.refs|)]) + into
  }

  lemma JobRecord(j: Job, v: View, n: nat)
    requires JobOk(j, v) && n < RecordCount(j.NewSize(), j.rs)
    ensures var b, start, end := Splice(j.was, j.off, j.data), RecStart(j.rs, n), RecordEnd(j.NewSize(), j.rs, n);
            && start < end <= |b| == j.NewSize() && end - start <= j.rs && end - start < U32
            && (n < |j.refs| ==> Live(j.refs[n], v))
            && var was := if n < |j.refs| then TextOf(j.refs[n], v.plain) else [];
               Overlay(was, end - start, start, j.off, j.data) == Record(b, j.rs, n)
  {
    hide Splice, Overlay, RecStart, Live, RecordCount;
    RecordStarts(j.NewSize(), j.rs, n);
    OverlayIsRecord(j.was, j.off, j.data, j.rs, n);
    if n < |j.refs| {
      RecordStarts(j.size, j.rs, n);
      assert Texts(j.refs, v.plain)[n] == TextOf(j.refs[n], v.plain);
    } else if RecStart(j.rs, n) < j.size {
      RecordInside(j.size, j.rs, n);
      assert false;
    }
  }

  /** A new block map is stored, and its refs together with the dropped ones balance the old refs. */
  ghost predicate SwapReady(v: View, v1: View, id: nat, i: Inode, x: Inode, newRefs: seq<Ref>, dropped: seq<Ref>,
      into: multiset<Key>) {
    && id < |v.inodes| && v1.inodes == v.inodes && SameData(i, v.inodes[id]) && Fits(i)
    && DataOk(x, v1) && RefsOf(x, v1.plain) == newRefs && SameAttributes(i, x)
    && GrownBy(v, v1, into + Container(x))
    && KeysOf(newRefs) + KeysOf(dropped) == KeysOf(RefsOf(i, v.plain)) + into
  }

  lemma NewSizePositive(j: Job, v: View)
    requires JobOk(j, v)
    ensures j.NewSize() > 0
  {}

  lemma GrownTwiceGood(c: Codec, v: View, v1: View, v2: View, a: multiset<Key>, b: multiset<Key>)
    requires GoodView(c, v) && GrownBy(v, v1, a) && GrownBy(v1, v2, b)
    ensures GrownBy(v, v2, a + b) && v2.inodes == v.inodes
  {
    hide GrownBy, FsOk, Consistent, AllTrusted;
    GrownTwice(v, v1, v2, a, b);
    GrownTable(v, v2, a + b);
  }

  lemma ProgressNone(j: Job, v: View)
    requires JobOk(j, v)
    ensures Progress(j, v, 0, [], [], multiset{})
  {
    hide AreRecords, Live, RecordCount;
    assert j.refs[..0] == [];
  }

  lemma ProgressCarry(j: Job, v: View, n: nat, newRefs: seq<Ref>, dropped: seq<Ref>, into: multiset<Key>)
    requires JobOk(j, v) && Progress(j, v, n, newRefs, dropped, into) && n < |j.refs|
    requires var start, end := RecStart(j.rs, n), RecordEnd(j.NewSize(), j.rs, n);
             !(j.off + |j.data| > start && j.off < end) && end <= j.size
    ensures Progress(j, v, n + 1, newRefs + [j.refs[n]], dropped, into)
  {
    hide KeysOf, RecStart, Live, RecordCount, Splice, Record;
    RecordStarts(j.size, j.rs, n);
    CarriedRecord(j.was, j.off, j.data, j.rs, n);
    assert Texts(j.refs, v.plain)[n] == TextOf(j.refs[n], v.plain);
    KeysAppend(newRefs, j.refs[n]);
    KeysTake(j.refs, n);
    CarrySum(KeysOf(newRefs), KeysOf(dropped), KeysOf(j.refs[..n]), into, multiset{j.refs[n].hash});
  }

  lemma CarrySum(a: multiset<Key>, d: multiset<Key>, o: multiset<Key>, into: multiset<Key>, k: multiset<Key>)
    requires a + d == o + into
    ensures (a + k) + d == (o + k) + into
  {
    assert (a + k) + d == (a + d) + k;
    assert (o + k) + into == (o + into) + k;
  }

  lemma RewriteSum(a: multiset<Key>, d: multiset<Key>, o: multiset<Key>, into: multiset<Key>, k: multiset<Key>,
      l: multiset<Key>)
    requires a + d == o + into
    ensures (a + k) + (d + l) == (o + l) + (into + k)
  {
    assert (a + k) + (d + l) == (a + d) + (k + l);
    assert (o + l) + (into + k) == (o + into) + (k + l);
  }

  lemma HoldsGrown(j: Job, v: View, v': View, into: multiset<Key>, n: nat, r: Ref)
    requires HoldsRecord(j, v, n, r) && GrownBy(v, v', into)
    ensures HoldsRecord(j, v', n, r)
  {
    hide GrownBy, Live, Splice, RecStart, Record;
    GrownLive(v, v', into, r);
  }

  lemma JobGrown(j: Job, v: View, v': View, into: multiset<Key>)
    requires JobOk(j, v) && GrownBy(v, v', into)
    ensures JobOk(j, v')
  {
    hide GrownBy, Live, RecordCount, AreRecords;
    forall n | 0 <= n < |j.refs| ensures Live(j.refs[n], v')
      && TextOf(j.refs[n], v'.plain) == TextOf(j.refs[n], v.plain) {
      GrownLive(v, v', into, j.refs[n]);
    }
    assert Texts(j.refs, v'.plain) == Texts(j.refs, v.plain);
  }

  lemma ProgressRewrite(j: Job, v0: View, v: View, v': View, n: nat, newRefs: seq<Ref>, dropped: seq<Ref>,
      into: multiset<Key>, r: Ref)
    requires JobOk(j, v) && Progress(j, v, n, newRefs, dropped, into) && GrownBy(v, v', multiset{r.hash})
              && HoldsRecord(j, v', n, r)
    requires GrownBy(v0, v, into) && Consistent(v0)
    ensures JobOk(j, v') && GrownBy(v0, v', into + multiset{r.hash})
    ensures Progress(j, v', n + 1, newRefs + [r], if n < |j.refs| then dropped + [j.refs[n]]
              else dropped, into + multiset{r.hash})
  {
    hide KeysOf, GrownBy, HoldsRecord, JobOk, Consistent;
    JobGrown(j, v, v', multiset{r.hash});
    GrownTwice(v0, v, v', into, multiset{r.hash});
    forall i | 0 <= i < n ensures HoldsRecord(j, v', i, newRefs[i]) {
      HoldsGrown(j, v, v', multiset{r.hash}, i, newRefs[i]);
    }
    KeysAppend(newRefs, r);
    if n < |j.refs| {
      KeysTake(j.refs, n);
      KeysAppend(dropped, j.refs[n]);
      RewriteSum(KeysOf(newRefs), KeysOf(dropped), KeysOf(j.refs[..n]), into, multiset{r.hash},
        multiset{j.refs[n].hash});
    } else {
      assert j.refs[..Min(n, |j.refs|)] == j.refs == j.refs[..Min(n + 1, |j.refs|)];
      RewriteSum(KeysOf(newRefs), KeysOf(dropped), KeysOf(j.refs), into, multiset{r.hash}, multiset{});
      assert KeysOf(dropped) + multiset{} == KeysOf(dropped) && KeysOf(j.refs) + multiset{} == KeysOf(j.refs);
    }
  }

  predicate SameData(i: Inode, j: Inode) {
    j.size == i.size && j.flags == i.flags && j.recordSizeLog2 == i.recordSizeLog2 && j.blockMap == i.blockMap
  }

  /** Only the data and its two times differ. */
  ghost predicate Touched(i: Inode, j: Inode, now: nat) {
    j.mtime == now && j.ctime == now && SameAttributes(i, j.(mtime := i.mtime, ctime := i.ctime))
  }

  /** No file changed; at worst some references are counted that no inode holds. */
  ghost predicate OnlyLeaked(v: View, v': View) {
    && v'.inodes == v.inodes && (forall k :: Dedup.RefsOf(v'.ddt, k) >= Dedup.RefsOf(v.ddt, k))
    && (forall j :: 0 <= j < |v.inodes| ==> Content(v.inodes[j], v'.plain) == Content(v.inodes[j], v.plain))
  }

  lemma GrownLeaks(c: Codec, v: View, v': View, into: multiset<Key>)
    requires GoodView(c, v) && GrownBy(v, v', into)
    ensures OnlyLeaked(v, v')
  {
    hide FsOk, Consistent, AllTrusted, SameBlock, Content;
    GrowKeeps(v, v');
  }

  /** The written records are those of the spliced contents. */
  lemma NoRefs(i: Inode, v: View)
    ensures i.size == 0 ==> RefsOf(i, v.plain) == []
  {}

  lemma ProgressDone(j: Job, v: View, newRefs: seq<Ref>, dropped: seq<Ref>, into: multiset<Key>)
    requires JobOk(j, v) && Progress(j, v, RecordCount(j.NewSize(), j.rs), newRefs, dropped, into)
    ensures RecordsOk(newRefs, j.NewSize(), j.rs, v) && |newRefs| == RecordCount(j.NewSize(), j.rs)
    ensures Flat(Texts(newRefs, v.plain)) == Splice(j.was, j.off, j.data)
    ensures KeysOf(newRefs) + KeysOf(dropped) == KeysOf(j.refs) + into
  {
    hide KeysOf, Live, RecStart, RecordCount, Splice;
    CountMonotone(j.size, j.NewSize(), j.rs);
    assert j.refs[..|j.refs|] == j.refs;
    var b, texts := Splice(j.was, j.off, j.data), Texts(newRefs, v.plain);
    forall i | 0 <= i < |texts| ensures RecStart(j.rs, i) <= |b| && texts[i] == Record(b, j.rs, i) {
      assert HoldsRecord(j, v, i, newRefs[i]);
    }
    JoinRecords(texts, b, j.rs);
  }

  lemma GrownTexts(v: View, v': View, into: multiset<Key>, refs: seq<Ref>, size: nat, rs: nat)
    requires GrownBy(v, v', into) && RecordsOk(refs, size, rs, v)
    ensures Texts(refs, v'.plain) == Texts(refs, v.plain)
  {
    hide GrownBy, Live, RecStart, RecordEnd, RecordCount;
    forall j | 0 <= j < |refs| ensures TextOf(refs[j], v'.plain) == TextOf(refs[j], v.plain) {
      GrownLive(v, v', into, refs[j]);
    }
  }

  /** Times are not data. */
  lemma TouchIgnored(x: Inode, now: nat, v: View)
    requires DataOk(x, v) && now < U64
    ensures var y := x.(mtime := now, ctime := now);
            && DataOk(y, v) && RefsOf(y, v.plain) == RefsOf(x, v.plain) && Container(y) == Container(x)
            && Content(y, v.plain) == Flat(Texts(RefsOf(x, v.plain), v.plain))
  {
    hide Live, RecordsOk;
  }

  lemma SameDataKeys(i: Inode, j: Inode, plain: map<Key, Bytes>)
    requires SameData(i, j)
    ensures RefsOf(i, plain) == RefsOf(j, plain) && Keys(i, plain) == Keys(j, plain)
              && Content(i, plain) == Content(j, plain)
  {
    hide DecodeRef, DecodeRefs, KeysOf;
  }

  lemma SameDataOk(i: Inode, j: Inode, v: View)
    requires SameData(i, j) && DataOk(j, v) && Fits(i)
    ensures DataOk(i, v)
  {
    hide RecordsOk, Live, DecodeRef, DecodeRefs;
  }

  lemma SwapBalance(i: Inode, v: View, v2: View, id: nat, newRefs: seq<Ref>, dropped: seq<Ref>, into: multiset<Key>,
      y: Inode)
    requires id < |v.inodes| && SameData(i, v.inodes[id]) && Fits(i) && RefsOf(y, v2.plain) == newRefs
    requires KeysOf(newRefs) + KeysOf(dropped) == KeysOf(RefsOf(i, v.plain)) + into
    ensures var drop := if External(i) then dropped + [MapRef(i)] else dropped;
            KeysOf(drop) + Keys(y, v2.plain) == Keys(v.inodes[id], v.plain) + (into + Container(y))
  {
    hide KeysOf, RefsOf, MapRef, Fits;
    DataKeys(i, v.inodes[id], v.plain);
    MapFits(i);
    if External(i) { KeysAppend(dropped, MapRef(i)); }
    var n, d, o, c, c' := KeysOf(newRefs), KeysOf(dropped), KeysOf(RefsOf(i, v.plain)), Container(i), Container(y);
    SwapSum(n, d, o, into, c, c');
    if !External(i) { assert d + c == d; }
  }

  lemma DataKeys(i: Inode, j: Inode, plain: map<Key, Bytes>)
    requires SameData(i, j)
    ensures Keys(j, plain) == KeysOf(RefsOf(i, plain)) + Container(i)
  {
    hide KeysOf, DecodeRef, DecodeRefs;
  }

  lemma SwapSum(n: multiset<Key>, d: multiset<Key>, o: multiset<Key>, into: multiset<Key>, c: multiset<Key>,
      c': multiset<Key>)
    requires n + d == o + into
    ensures (d + c) + (n + c') == (o + c) + (into + c')
  {
    assert (d + c) + (n + c') == (n + d) + (c + c');
    assert (o + c) + (into + c') == (o + into) + (c + c');
  }

  /** The inode is a copy of slot `id`, possibly with other attributes. */
  ghost predicate InTable(i: Inode, id: nat, v: View) {
    id < |v.inodes| && SameData(i, v.inodes[id]) && Fits(i)
  }

  lemma TableData(c: Codec, i: Inode, id: nat, v: View)
    requires GoodView(c, v) && InTable(i, id, v)
    ensures DataOk(i, v) && Content(i, v.plain) == Content(v.inodes[id], v.plain)
    ensures RefsOf(i, v.plain) == RefsOf(v.inodes[id], v.plain) && Fits(i) && SameData(i, v.inodes[id])
  {
    hide DataOk, Content, RefsOf, Consistent, AllTrusted, SameData, Fits;
    SameDataOk(i, v.inodes[id], v);
    SameDataKeys(i, v.inodes[id], v.plain);
  }

  lemma SlotInTable(c: Codec, v: View, id: nat)
    requires GoodView(c, v) && id < |v.inodes|
    ensures InTable(v.inodes[id], id, v)
  {
    hide Fits, Consistent, AllTrusted, DataOk;
    DataFits(v.inodes[id], v);
  }

  lemma LeakNothing(v: View)
    ensures OnlyLeaked(v, v)
  {}

  /** The record size a write uses: frozen once the file holds data, else chosen for the new size. */
  function WriteRate(i: Inode, newSize: nat): nat {
    if i.size > 0 then Shift(i.recordSizeLog2) else RecordSizeFor(newSize).0
  }

  /** The largest text an operation stores: a record, or a block map of so many refs. */
  ghost function Most(records: nat): nat { Max(32768, 4 + records * REF_SIZE) }

  /** Records of an inode after a write, and of a blob. */
  ghost function WriteCount(i: Inode, off: nat, n: nat): nat {
    var size := Max(i.size, off + n);
    if WriteRate(i, size) == 0 then 0 else RecordCount(size, WriteRate(i, size))
  }

  ghost function BlobCount(size: nat): nat { RecordCount(size, RecordSizeFor(size).0) }

  /** Why an id is not a regular file. */
  function NotThere(v: View, id: nat): FsError { if id < |v.inodes| then NotFile else NoInode }

  lemma KeepsSize(b: Bytes)
    ensures CutTo(b, b, |b|)
  {}

  /** The new size and its block map stay within the widths of their fields. */
  predicate WriteFits(i: Inode, off: nat, n: nat) {
    var newSize := Max(i.size, off + n);
    newSize < U64 && WriteRate(i, newSize) > 0 && 4 + RecordCount(newSize, WriteRate(i, newSize)) * REF_SIZE < U32
  }

  /** Files below 256 GiB fit, whatever their record size. */
  const SMALL: nat := 0x40_0000_0000

  lemma SmallCount(size: nat, l: nat)
    requires size < SMALL && 12 <= l <= 15
    ensures 4 + RecordCount(size, Shift(l)) * REF_SIZE < U32
  {
    ShiftValues();
    if l == 12 {
      assert RecordCount(size, 4096) <= 0x400_0000;
    } else if l == 13 {
      assert RecordCount(size, 8192) <= 0x400_0000;
    } else if l == 14 {
      assert RecordCount(size, 16384) <= 0x400_0000;
    } else {
      assert RecordCount(size, 32768) <= 0x400_0000;
    }
  }

  lemma SmallFits(size: nat)
    requires size < SMALL
    ensures SizeFits(size)
  {
    hide Shift, RecordCount;
    RecordSizeIsShift(size);
    SmallCount(size, RecordSizeFor(size).1);
  }

  lemma SmallWrites(i: Inode, v: View, off: nat, n: nat)
    requires DataOk(i, v) && Max(i.size, off + n) < SMALL
    ensures WriteFits(i, off, n)
  {
    hide Shift, RecordCount, DataOk;
    var size := Max(i.size, off + n);
    JobRefs(i, v);
    RecordSizeIsShift(size);
    SmallCount(size, if i.size > 0 then i.recordSizeLog2 else RecordSizeFor(size).1);
  }

  lemma JobStarts(i: Inode, v: View, j: Job, log2: nat)
    requires DataOk(i, v) && j.was == Content(i, v.plain) && j.size == i.size && j.refs == RefsOf(i, v.plain)
              && |j.data| > 0
    requires WriteFits(i, j.off, |j.data|)
    requires (j.rs, log2) == if i.size > 0 then (Shift(i.recordSizeLog2), i.recordSizeLog2)
              else RecordSizeFor(j.NewSize())
    ensures JobOk(j, v) && j.rs == Shift(log2) && 12 <= log2 <= 15
    ensures j.NewSize() < U64 && 4 + RecordCount(j.NewSize(), j.rs) * REF_SIZE < U32
  {
    hide Live, Shift, MapRef, RecordSizeFor, AreRecords, RecordCount, DataOk, Content, RefsOf;
    ContentIs(i, v);
    RecordSizeIsShift(j.NewSize());
    JobRefs(i, v);
    ShiftAtLeast(log2);
    NoRecords(j.rs);
  }

  lemma NoRecords(rs: nat)
    requires rs > 0
    ensures RecordCount(0, rs) == 0 && AreRecords([], [], rs)
  {}

  lemma JobRefs(i: Inode, v: View)
    requires DataOk(i, v)
    ensures forall n :: 0 <= n < |RefsOf(i, v.plain)| ==> Live(RefsOf(i, v.plain)[n], v)
    ensures i.size == 0 ==> RefsOf(i, v.plain) == []
    ensures i.size > 0 ==>
              |RefsOf(i, v.plain)| == RecordCount(i.size, Shift(i.recordSizeLog2)) && 12 <= i.recordSizeLog2 <= 15
  {
    hide Live, RecStart, RecordEnd, RecordCount, Shift, MapRef;
  }

  // ----- replacing all data -----

  predicate BlobFits(blob: Bytes) { SizeFits(|blob|) }

  predicate SizeFits(size: nat) {
    size < U64 && RecordSizeFor(size).0 > 0 && 4 + RecordCount(size, RecordSizeFor(size).0) * REF_SIZE < U32
  }

  /** The first `n` records of the blob are stored under the refs. */
  ghost predicate Chopped(blob: Bytes, rs: nat, refs: seq<Ref>, v: View, n: nat) {
    && |refs| == n
    && (forall i :: 0 <= i < n ==>
          Live(refs[i], v) && RecStart(rs, i) <= |blob| && TextOf(refs[i], v.plain) == Record(blob, rs, i))
  }

  lemma ChoppedNone(blob: Bytes, rs: nat, v: View)
    ensures Chopped(blob, rs, [], v, 0) && KeysOf([]) == multiset{}
  {}

  lemma RecordShort(blob: Bytes, rs: nat, n: nat)
    requires RecStart(rs, n) <= |blob| && rs <= 32768
    ensures |Record(blob, rs, n)| <= rs
  {
    hide RecStart;
  }

  lemma ChoppedNext(blob: Bytes, rs: nat, refs: seq<Ref>, v: View, v1: View, v2: View, n: nat, into: multiset<Key>,
      r: Ref)
    requires Chopped(blob, rs, refs, v1, n) && GrownBy(v, v1, into) && GrownBy(v1, v2, multiset{r.hash})
              && Consistent(v)
    requires Live(r, v2) && RecStart(rs, n) <= |blob| && TextOf(r, v2.plain) == Record(blob, rs, n)
              && into == KeysOf(refs)
    ensures Chopped(blob, rs, refs + [r], v2, n + 1) && GrownBy(v, v2, into + multiset{r.hash})
    ensures into + multiset{r.hash} == KeysOf(refs + [r])
  {
    hide KeysOf, GrownBy, Live, RecStart, Record, Consistent;
    GrownTwice(v, v1, v2, into, multiset{r.hash});
    KeysAppend(refs, r);
    forall i | 0 <= i < n ensures Live(refs[i], v2) && TextOf(refs[i], v2.plain) == TextOf(refs[i], v1.plain) {
      GrownLive(v1, v2, multiset{r.hash}, refs[i]);
    }
  }

  lemma ChoppedDone(blob: Bytes, rs: nat, refs: seq<Ref>, v: View)
    requires rs > 0 && Chopped(blob, rs, refs, v, RecordCount(|blob|, rs))
    ensures RecordsOk(refs, |blob|, rs, v) && Flat(Texts(refs, v.plain)) == blob && (blob == [] ==> refs == [])
    ensures |refs| == RecordCount(|blob|, rs)
  {
    hide Live, RecStart, RecordCount;
    NoRecords(rs);
    var texts := Texts(refs, v.plain);
    forall i | 0 <= i < |texts| ensures RecStart(rs, i) <= |blob| && texts[i] == Record(blob, rs, i) {
      assert texts[i] == TextOf(refs[i], v.plain);
    }
    JoinRecords(texts, blob, rs);
  }

  lemma ChoppedTexts(v: View, v': View, into: multiset<Key>, blob: Bytes, rs: nat, refs: seq<Ref>)
    requires GrownBy(v, v', into) && RecordsOk(refs, |blob|, rs, v) && Flat(Texts(refs, v.plain)) == blob
    ensures Flat(Texts(refs, v'.plain)) == blob
  {
    hide GrownBy, RecordsOk;
    GrownTexts(v, v', into, refs, |blob|, rs);
  }

  lemma SwapSame(id: nat, i: Inode, v: View, v2: View, x: Inode, newRefs: seq<Ref>, into: multiset<Key>)
    requires InTable(i, id, v) && v2.inodes == v.inodes && into == KeysOf(newRefs)
    requires DataOk(x, v2) && RefsOf(x, v2.plain) == newRefs && SameAttributes(i, x)
              && GrownBy(v, v2, into + Container(x))
    ensures SwapReady(v, v2, id, i, x, newRefs, RefsOf(i, v.plain), into) && InTable(i, id, v2)
  {
    hide GrownBy, DataOk, RefsOf, SameAttributes, KeysOf, Container, SameData, Fits;
  }

  lemma OldRefsSame(c: Codec, v: View, v2: View, id: nat, i: Inode, x: Inode, newRefs: seq<Ref>, into: multiset<Key>)
    requires GoodView(c, v) && SwapReady(v, v2, id, i, x, newRefs, RefsOf(i, v.plain), into)
    ensures RefsOf(i, v2.plain) == RefsOf(i, v.plain)
  {
    hide FsOk, Consistent, AllTrusted, SameBlock, RefsOf, DataOk, KeysOf, Container, SameAttributes, SameData;
    SameDataKeys(i, v.inodes[id], v.plain);
    SameDataKeys(i, v2.inodes[id], v2.plain);
    GrowKeeps(v, v2);
  }

  lemma InTableMap(i: Inode, id: nat, v: View)
    requires InTable(i, id, v)
    ensures |i.blockMap| == 64 && id < |v.inodes|
  {}

  lemma BlankBalance(i: Inode, id: nat, v: View, refs: seq<Ref>, x: Inode)
    requires InTable(i, id, v) && refs == RefsOf(i, v.plain) && x == Blank().(generation := (i.generation + 1) % U32)
    ensures var drop := if External(i) then refs + [MapRef(i)] else refs;
            DataOk(x, v) && KeysOf(drop) + Keys(x, v.plain) == Keys(v.inodes[id], v.plain) + multiset{}
    ensures forall plain :: Content(x, plain) == []
  {
    hide RefsOf, MapRef, Fits;
    BlankData(x, v);
    DataKeys(i, v.inodes[id], v.plain);
    MapFits(i);
    if External(i) { KeysAppend(refs, MapRef(i)); }
    assert Keys(x, v.plain) == multiset{};
  }

  lemma BlankData(x: Inode, v: View)
    requires Fits(x) && x.size == 0
    ensures DataOk(x, v) && Keys(x, v.plain) == multiset{} && Container(x) == multiset{}
    ensures forall plain :: RefsOf(x, plain) == [] && Content(x, plain) == []
  {}

  // ----- files -----

  datatype FsError = NotFile | NoInode | Io(error: Store.Error)

  ghost predicate IsRegular(v: View, id: nat) { id < |v.inodes| && v.inodes[id].kind == TYPE_REGULAR }

  ghost function FileBytes(v: View, id: nat): Bytes
    requires id < |v.inodes|
  {
    Content(v.inodes[id], v.plain)
  }

  /** File `id` now reads `b`; its identity, every other file, and the surplus of every count are unchanged. */
  ghost predicate FileBecomes(v: View, v': View, id: nat, b: Bytes) {
    && IsRegular(v, id) && |v'.inodes| == |v.inodes| && FileBytes(v', id) == b
    && v'.inodes[id].kind == v.inodes[id].kind && v'.inodes[id].nlink == v.inodes[id].nlink
    && v'.inodes[id].generation == v.inodes[id].generation
    && OthersSame(v, v', id) && SameSurplus(v, v')
  }

  /** Each count is exactly the number of its uses as a data record or as a block map. */
  ghost predicate Exact(v: View) { forall k :: Dedup.RefsOf(v.ddt, k) == Held(v.inodes, v.plain)[k] }

  /** No use goes uncounted. */
  lemma CoveredCounts(c: Codec, v: View, id: nat, k: Key)
    requires GoodView(c, v) && id < |v.inodes|
    ensures Keys(v.inodes[id], v.plain)[k] <= Dedup.RefsOf(v.ddt, k)
  {
    hide Held, Keys, DataOk;
    HeldIncludes(v.inodes, v.plain, id, k);
  }

  /**
   A slot that takes over its data, or gives it up, leaves an intact filesystem; the counts stay as exact as they were
   just if none is lost.
   */
  lemma StillCovered(v: View, v': View, out: multiset<Key>, into: multiset<Key>)
    requires v'.ddt == v.ddt && Held(v'.inodes, v'.plain) + out == Held(v.inodes, v.plain) + into
    requires Covered(v) && forall k :: into[k] <= out[k]
    ensures Covered(v')
  {
    hide Held;
    var was, now := Held(v.inodes, v.plain), Held(v'.inodes, v'.plain);
    forall k ensures now[k] <= was[k] { assert (now + out)[k] == (was + into)[k]; }
  }

  /** What is given up and what is taken on must be the same. */
  lemma SurplusBalance(v: View, v': View, out: multiset<Key>, into: multiset<Key>)
    requires v'.ddt == v.ddt && Held(v'.inodes, v'.plain) + out == Held(v.inodes, v.plain) + into
    ensures SameSurplus(v, v') <==> out == into
  {
    hide Held;
    var was, now := Held(v.inodes, v.plain), Held(v'.inodes, v'.plain);
    forall k ensures now[k] + out[k] == was[k] + into[k] { assert (now + out)[k] == (was + into)[k]; }
    if SameSurplus(v, v') {
      forall k ensures out[k] == into[k] {
        assert Dedup.RefsOf(v'.ddt, k) + was[k] == Dedup.RefsOf(v.ddt, k) + now[k];
      }
    }
  }

  lemma PutOk(c: Codec, v: View, v': View, id: nat, x: Inode)
    requires GoodView(c, v) && id < |v.inodes| && v' == v.(inodes := v.inodes[id := x])
    requires Fits(x) && (SameData(x, v.inodes[id]) || x.size == 0)
    ensures GoodView(c, v') && OthersSame(v, v', id)
    ensures SameSurplus(v, v') <==> Keys(x, v.plain) == Keys(v.inodes[id], v.plain)
  {
    hide Keys, DataOk, AllTrusted, Content, Fits, SameData, SameSurplus, Consistent, Covered, Held;
    PutData(v, id, x);
    PutAside(v, v');
    HeldExchange(v.inodes, id, x, v.plain, v.plain);
    StillCovered(v, v', Keys(v.inodes[id], v.plain), Keys(x, v.plain));
    SurplusBalance(v, v', Keys(v.inodes[id], v.plain), Keys(x, v.plain));
  }

  /** The data of the new inode are in place, and no more than those of the old one. */
  lemma PutData(v: View, id: nat, x: Inode)
    requires FsOk(v) && id < |v.inodes| && Fits(x) && (SameData(x, v.inodes[id]) || x.size == 0)
    ensures DataOk(x, v) && forall k :: Keys(x, v.plain)[k] <= Keys(v.inodes[id], v.plain)[k]
  {
    hide Keys, DataOk, Fits, SameData;
    if SameData(x, v.inodes[id]) {
      SameDataOk(x, v.inodes[id], v);
      SameDataKeys(x, v.inodes[id], v.plain);
    } else {
      BlankData(x, v);
    }
  }

  /** Whether data are in place does not depend on the inode table. */
  lemma PutAside(v: View, v': View)
    requires v'.ddt == v.ddt && v'.plain == v.plain
    ensures forall i :: DataOk(i, v) ==> DataOk(i, v')
    ensures Consistent(v) ==> Consistent(v')
  {
    hide Keys, RecStart, RecordEnd, RecordCount, Fits, MapRef, RefsOf, DecodeRefs;
  }

  lemma ReplacedFile(v: View, v': View, id: nat, i: Inode, y: Inode, now: nat)
    requires IsRegular(v, id) && i == v.inodes[id] && Replaced(v, v', id, y) && Touched(i, y, now)
    ensures FileBecomes(v, v', id, Content(y, v'.plain))
  {
    hide Content, SameSurplus, OthersSame;
  }

  lemma DataFits(x: Inode, v: View)
    requires DataOk(x, v)
    ensures Fits(x)
  {}

  /** One inode was replaced: it is in place, all others are untouched, and the counts followed. */
  ghost predicate Replaced(v: View, v': View, id: nat, x: Inode) {
    id < |v.inodes| && v'.inodes == v.inodes[id := x] && SameSurplus(v, v') && OthersSame(v, v', id)
  }

  lemma CanDrop(v: View, v1: View, id: nat, x: Inode, drop: seq<Ref>, into: multiset<Key>)
    requires FsOk(v) && id < |v.inodes| && GrownBy(v, v1, into)
    requires KeysOf(drop) + Keys(x, v1.plain) == Keys(v.inodes[id], v.plain) + into
    ensures forall k :: KeysOf(drop)[k] <= Dedup.RefsOf(v1.ddt, k)
  {
    hide KeysOf, Keys, DataOk, SameBlock;
    forall k ensures KeysOf(drop)[k] <= Dedup.RefsOf(v1.ddt, k) {
      HeldIncludes(v.inodes, v.plain, id, k);
      assert (KeysOf(drop) + Keys(x, v1.plain))[k] == (Keys(v.inodes[id], v.plain) + into)[k];
    }
  }

  /** After the release each count is what it was, plus the keys of the new inode, minus those of the old one. */
  lemma InstallBalance(v: View, v1: View, v2: View, id: nat, x: Inode, drop: seq<Ref>, into: multiset<Key>)
    requires id < |v.inodes| && GrownBy(v, v1, into) && ShrunkBy(v1, v2, KeysOf(drop))
    requires KeysOf(drop) + Keys(x, v1.plain) == Keys(v.inodes[id], v.plain) + into
    ensures Balanced(v, v2, Keys(v.inodes[id], v.plain), Keys(x, v1.plain))
  {
    hide KeysOf, Keys, SameBlock;
    forall k ensures Dedup.RefsOf(v2.ddt, k) + Keys(v.inodes[id], v.plain)[k] ==
      Dedup.RefsOf(v.ddt, k) + Keys(x, v1.plain)[k] {
      assert (KeysOf(drop) + Keys(x, v1.plain))[k] == (Keys(v.inodes[id], v.plain) + into)[k];
    }
  }

  lemma InstallPreserves(v: View, v1: View, v2: View, into: multiset<Key>, out: multiset<Key>)
    requires Consistent(v) && GrownBy(v, v1, into) && ShrunkBy(v1, v2, out)
    ensures Preserves(v, v2)
  {}

  lemma NewInodeStays(v: View, v1: View, v2: View, id: nat, x: Inode, out: multiset<Key>)
    requires FsOk(v) && id < |v.inodes| && DataOk(x, v1) && ShrunkBy(v1, v2, out) && Consistent(v2)
    requires Balanced(v, v2, Keys(v.inodes[id], v.plain), Keys(x, v1.plain))
    ensures DataOk(x, v2) && Keys(x, v2.plain) == Keys(x, v1.plain) && Content(x, v2.plain) == Content(x, v1.plain)
  {
    hide Keys, DataOk, SameBlock, Content;
    forall k | k in Keys(x, v1.plain) ensures SameBlock(v1, v2, k) {
      HeldIncludes(v.inodes, v.plain, id, k);
      assert Held(v.inodes, v.plain)[k] <= Dedup.RefsOf(v.ddt, k);
      assert Dedup.RefsOf(v2.ddt, k) > 0;
    }
    DataFrame(x, v1, v2);
  }

  lemma InstallOk(c: Codec, v: View, v1: View, v2: View, v3: View, id: nat, x: Inode, drop: seq<Ref>,
      into: multiset<Key>)
    requires GoodView(c, v) && id < |v.inodes| && DataOk(x, v1) && GrownBy(v, v1, into)
              && ShrunkBy(v1, v2, KeysOf(drop))
    requires KeysOf(drop) + Keys(x, v1.plain) == Keys(v.inodes[id], v.plain) + into
    requires Consistent(v2) && AllTrusted(c, v2.plain) && v3 == v2.(inodes := v2.inodes[id := x])
    ensures GoodView(c, v3) && Replaced(v, v3, id, x) && Content(x, v3.plain) == Content(x, v1.plain)
  {
    hide KeysOf, Keys, DataOk, FsOk, Content, SameBlock, Preserves, Balanced, SameSurplus, OthersSame, AllTrusted,
      Consistent;
    InstallBalance(v, v1, v2, id, x, drop, into);
    InstallPreserves(v, v1, v2, into, KeysOf(drop));
    NewInodeStays(v, v1, v2, id, x, KeysOf(drop));
    TableAside(v, v2, v3, id, x);
    ReplaceInode(v, v3, id, x);
  }

  /** These facts do not look at the inode table. */
  lemma TableAside(v: View, v2: View, v3: View, id: nat, x: Inode)
    requires v3.ddt == v2.ddt && v3.plain == v2.plain && id < |v.inodes|
    ensures Consistent(v2) ==> Consistent(v3)
    ensures Preserves(v, v2) ==> Preserves(v, v3)
    ensures DataOk(x, v2) ==> DataOk(x, v3)
    ensures Balanced(v, v2, Keys(v.inodes[id], v.plain), Keys(x, v2.plain)) ==>
              Balanced(v, v3, Keys(v.inodes[id], v.plain), Keys(x, v3.plain))
  {
    hide Keys, RecStart, RecordEnd, RecordCount, Fits, MapRef;
  }

  lemma RecordLive(i: Inode, v: View, j: nat)
    requires DataOk(i, v) && j < |RefsOf(i, v.plain)|
    ensures Live(RefsOf(i, v.plain)[j], v)
  {
    hide Live, MapRef, RecordEnd, RecStart, RecordCount;
  }

  lemma RecordTextIs(i: Inode, v: View, j: nat)
    requires DataOk(i, v) && i.size > 0 && j < |RefsOf(i, v.plain)|
    ensures var rs := Shift(i.recordSizeLog2);
            RecStart(rs, j) <= i.size == |Content(i, v.plain)|
            && TextOf(RefsOf(i, v.plain)[j], v.plain) == Record(Content(i, v.plain), rs, j)
  {
    hide Live, MapRef, RecordEnd, RecStart, RecordCount, DataOk, Content;
    ContentIs(i, v);
    assert Texts(RefsOf(i, v.plain), v.plain)[j] == TextOf(RefsOf(i, v.plain)[j], v.plain);
  }

  /** The bytes of `[off, end)` that lie before record `n`. */
  ghost function Upto(b: Bytes, off: nat, end: nat, rs: nat, n: nat): Bytes
    requires off <= end <= |b|
  {
    b[off..Min(end, Max(off, RecStart(rs, n)))]
  }

  lemma UptoEnds(b: Bytes, off: nat, end: nat, rs: nat)
    requires rs > 0 && off < end <= |b|
    ensures Upto(b, off, end, rs, RecIndex(rs, off)) == []
    ensures Upto(b, off, end, rs, RecIndex(rs, end - 1) + 1) == b[off..end]
    ensures RecIndex(rs, off) <= RecIndex(rs, end - 1)
  {
    hide RecStart, RecIndex;
    IndexIs(rs, off);
    IndexIs(rs, end - 1);
    IndexGrows(rs, off, end - 1);
  }

  lemma ReadInside(i: Inode, v: View, n: nat, end: nat)
    requires DataOk(i, v) && 0 < end <= i.size && n <= RecIndex(Shift(i.recordSizeLog2), end - 1)
    ensures RecStart(Shift(i.recordSizeLog2), n) < end && n < |RefsOf(i, v.plain)|
  {
    hide RecStart, RecIndex, RecordCount, RecordEnd, MapRef, Live;
    var rs := Shift(i.recordSizeLog2);
    IndexIs(rs, end - 1);
    StartsGrow(rs, n, RecIndex(rs, end - 1));
    RecordInside(i.size, rs, n);
  }

  lemma TakePart(b: Bytes, off: nat, end: nat, rs: nat, n: nat, lo: nat, hi: nat)
    requires rs > 0 && off < end <= |b| && RecStart(rs, n) < end
    requires lo == Max(off, RecStart(rs, n)) && hi == Min(end, RecStart(rs, n) + |Record(b, rs, n)|)
    ensures var start, rec := RecStart(rs, n), Record(b, rs, n);
            && start <= lo && (lo < hi ==> hi - start <= |rec|)
            && Upto(b, off, end, rs, n + 1) == Upto(b, off, end, rs, n) + (if lo < hi then rec[lo - start..hi - start]
                 else [])
  {
    hide RecStart;
    NextStart(rs, n);
    var start, rec := RecStart(rs, n), Record(b, rs, n);
    assert rec == b[start..start + |rec|];
    if lo < hi {
      assert Upto(b, off, end, rs, n) == b[off..lo] && Upto(b, off, end, rs, n + 1) == b[off..hi];
      SliceAgain(b, start, start + |rec|, lo, hi);
      SliceJoin(b, off, lo, hi);
    }
  }

  lemma SliceJoin(b: Bytes, from: nat, mid: nat, to: nat)
    requires from <= mid <= to <= |b|
    ensures b[from..mid] + b[mid..to] == b[from..to]
  {}

  lemma SliceAgain(b: Bytes, from: nat, to: nat, lo: nat, hi: nat)
    requires from <= lo <= hi <= to <= |b|
    ensures b[from..to][lo - from..hi - from] == b[lo..hi]
  {
    var s := b[from..to][lo - from..hi - from];
    assert |s| == hi - lo;
    forall k | 0 <= k < hi - lo ensures s[k] == b[lo..hi][k] { assert s[k] == b[from..to][lo - from + k]; }
  }

  // ----- block maps -----

  /** All fields that do not describe the data. */
  ghost predicate SameAttributes(i: Inode, j: Inode) {
    && j.nlink == i.nlink && j.generation == i.generation && j.uid == i.uid && j.gid == i.gid && j.atime == i.atime
    && j.mtime == i.mtime && j.ctime == i.ctime && j.mode == i.mode && j.kind == i.kind && j.checksum == i.checksum
  }

  function ClearInline(flags: nat): nat { flags - flags % 2 }

  function Emptied(i: Inode): Inode {
    i.(blockMap := Zeros(64), flags := ClearInline(i.flags), size := 0, recordSizeLog2 := 0)
  }

  function WithMap(i: Inode, r: Ref, size: nat, log2: nat, inline: bool): Inode {
    i.(blockMap := EncodeRef(r) + Zeros(64 - REF_SIZE), flags := ClearInline(i.flags) + (if inline then 1 else 0),
       size := size, recordSizeLog2 := log2)
  }

  lemma EmptiedOk(i: Inode, v: View)
    requires Fits(i)
    ensures DataOk(Emptied(i), v) && RefsOf(Emptied(i), v.plain) == [] && Container(Emptied(i)) == multiset{}
    ensures SameAttributes(i, Emptied(i))
  {}

  lemma MapIs(i: Inode, r: Ref, size: nat, log2: nat, inline: bool)
    requires Fits(i) && RefFits(r) && size < U64 && log2 < 256
    ensures var x := WithMap(i, r, size, log2, inline);
            Fits(x) && MapRef(x) == r && Inline(x) == inline && SameAttributes(i, x)
  {
    hide RefFits, EncodeRef, DecodeRef;
    RefRoundTrip(r, Zeros(64 - REF_SIZE));
    assert i.flags % 2 <= i.flags;
  }

  lemma CountZero(size: nat, rs: nat, refs: seq<Ref>, v: View)
    requires |refs| == 0 && rs > 0 && (size == 0 || RecordsOk(refs, size, rs, v))
    ensures size == 0
  {}

  lemma InlineOk(i: Inode, refs: seq<Ref>, size: nat, log2: nat, v: View)
    requires Fits(i) && |refs| == 1 && RefFits(refs[0]) && 0 < size < U64 && 12 <= log2 <= 15
    requires RecordsOk(refs, size, Shift(log2), v)
    ensures var x := WithMap(i, refs[0], size, log2, true);
            DataOk(x, v) && RefsOf(x, v.plain) == refs && Container(x) == multiset{} && SameAttributes(i, x)
  {
    hide RefFits, EncodeRef, MapRef, Fits, RecStart, RecordEnd, RecordCount;
    MapIs(i, refs[0], size, log2, true);
    MapFits(WithMap(i, refs[0], size, log2, true));
  }

  lemma MapFits(x: Inode)
    requires Fits(x)
    ensures |x.blockMap| == 64
  {}

  lemma ExternalOk(i: Inode, refs: seq<Ref>, m: Ref, size: nat, log2: nat, v: View)
    requires Fits(i) && |refs| < U32 && 0 < size < U64 && 12 <= log2 <= 15 && forall j :: 0 <= j < |refs| ==>
              RefFits(refs[j])
    requires RefFits(m) && Live(m, v) && TextOf(m, v.plain) == EncodeRefs(refs) && RecordsOk(refs, size, Shift(log2), v)
    ensures var x := WithMap(i, m, size, log2, false);
            DataOk(x, v) && RefsOf(x, v.plain) == refs && Container(x) == multiset{m.hash} && SameAttributes(i, x)
  {
    hide RefFits, EncodeRef, MapRef, Fits, RecordsOk, EncodeRefs, DecodeRefs;
    MapIs(i, m, size, log2, false);
    MapFits(WithMap(i, m, size, log2, false));
    RefsRoundTrip(refs);
  }

  lemma GrownRecords(v: View, v': View, into: multiset<Key>, refs: seq<Ref>, size: nat, rs: nat)
    requires GrownBy(v, v', into) && RecordsOk(refs, size, rs, v)
    ensures RecordsOk(refs, size, rs, v')
  {
    hide GrownBy, Live, RecStart, RecordEnd, RecordCount;
    forall j | 0 <= j < |refs| ensures Live(refs[j], v') && TextOf(refs[j], v'.plain) == TextOf(refs[j], v.plain) {
      GrownLive(v, v', into, refs[j]);
    }
  }

  lemma ShrunkNone(v: View)
    requires Consistent(v)
    ensures ShrunkBy(v, v, KeysOf([])) && GrownBy(v, v, multiset{})
  {}

  lemma StillCounted(v: View, v1: View, refs: seq<Ref>, j: nat)
    requires j < |refs| && ShrunkBy(v, v1, KeysOf(refs[..j])) && forall k :: KeysOf(refs)[k] <= Dedup.RefsOf(v.ddt, k)
    ensures refs[j].hash in v1.ddt
  {
    hide SameBlock;
    var k := refs[j].hash;
    KeysTake(refs, j);
    KeysPrefix(refs, j + 1, k);
    assert KeysOf(refs)[k] <= Dedup.RefsOf(v.ddt, k);
    assert Dedup.RefsOf(v1.ddt, k) + KeysOf(refs[..j])[k] == Dedup.RefsOf(v.ddt, k);
  }

  lemma {:induction false} KeysPrefix(refs: seq<Ref>, n: nat, k: Key)
    requires n <= |refs|
    ensures KeysOf(refs[..n])[k] <= KeysOf(refs)[k]
    decreases |refs|
  {
    if n < |refs| {
      var m := |refs| - 1;
      KeysPrefix(refs[..m], n, k);
      assert refs[..m][..n] == refs[..n];
    } else {
      assert refs[..n] == refs;
    }
  }

  /** The table on the device side is the one of the view. */
  lemma SameTable(f: Files)
    requires f.Sound()
    ensures f.vol.tbl.slots.inodes == f.V().inodes
  {
    hide GoodView, Machine.Inv, Machine.Accounted, Machine.IsRun, Machine.GoodRun;
  }

  /** Doing nothing commits nothing. */
  lemma AtRest(f: Files)
    requires f.Sound()
    ensures SameBase(f.P(), f.P())
  {
    hide GoodView, Machine.Inv, Machine.Accounted, Machine.IsRun, Machine.GoodRun;
  }

  lemma SoundGood(f: Files)
    requires f.Sound()
    ensures GoodView(f.vol.codec, f.V())
  {
    hide GoodView;
  }

  lemma CodecIsOk(c: Codec, s: Machine.State)
    requires Machine.Inv(c, s)
    ensures CodecOk(c)
  {
    hide CodecOk;
  }

  // ----- formatting, mounting, and what a crash means for files -----

  ghost function GoodFn(c: Codec): (f: View -> bool)
    ensures forall v :: f(v) == GoodView(c, v)
  {
    (v: View) => GoodView(c, v)
  }

  /** Where a crash may lead: the view of the last completed commit, or of the one in flight. */
  ghost predicate Survivor(s: Machine.State, v: View) {
    v == Machine.SnapView(s.base) || (Machine.Flipping(s) && v == Machine.Memory(s))
  }

  /**
   Crash safety for files: take any run in which every commit recorded an intact filesystem. Whatever a power failure
   leaves at any point of it, the mounted table, dedup table and texts are exactly those of a survivor, so every file
   has the contents it had there, byte for byte, and every reference is still counted.
   */
  lemma FilesSurvive(c: Codec, run: seq<Machine.State>, n: nat, img: Image) returns (sn: Machine.Snap)
    requires Machine.IsRun(c, run) && Machine.Start(c, run[0]) && Machine.GoodRun(GoodFn(c), run) && n < |run|
    requires Machine.CrashImage(c, run[n].disk, img)
    ensures Snapshot.Mount(c.hash, img) == Ok((sn.ub, sn.meta)) && Machine.ReadAll(c, img, sn.meta.ddt) == sn.plain
    ensures Survivor(run[n], Machine.SnapView(sn)) && GoodView(c, Machine.SnapView(sn))
    ensures forall id :: 0 <= id < |sn.meta.tbl.inodes| ==>
      |FileBytes(Machine.SnapView(sn), id)| == sn.meta.tbl.inodes[id].size
  {
    hide Machine.IsRun, Machine.Start, Machine.GoodRun, Machine.CrashImage, Snapshot.Mount, Machine.ReadAll, DataOk,
      Consistent, AllTrusted, Content;
    sn := Machine.GoodSurvives(c, GoodFn(c), run, n, img);
    var v := Machine.SnapView(sn);
    forall id | 0 <= id < |v.inodes| ensures |FileBytes(v, id)| == v.inodes[id].size { ContentIs(v.inodes[id], v); }
  }

  /** Mount after a power failure: all files are as in a survivor, and operations can go on. */
  method MountFiles(codec: Codec, dev: Device, ghost run: seq<Machine.State>)
      returns (r: Result<Files, Snapshot.MountError>)
    requires Running(codec, run) && Machine.GoodRun(GoodFn(codec), run) && dev.hash == codec.hash
    requires dev.Disk() == Machine.Disk(dev.cur, dev.cur, map[])
              && Machine.CrashImage(codec, run[|run| - 1].disk, dev.cur)
    ensures r.Err? ==> r.error == Snapshot.DeviceError && !dev.reliable
    ensures r.Ok? ==>
              fresh(r.value) && r.value.Valid() && r.value.vol.codec == codec && Survivor(run[|run| - 1], r.value.V())
    ensures r.Ok? ==> r.value.vol.trace == run + [r.value.vol.s] && Machine.SnapView(r.value.vol.s.base) == r.value.V()
    ensures r.Ok? ==> Machine.Candidate(run[|run| - 1], r.value.vol.s.base)
    ensures r.Ok? ==> r.value.vol.s.ub == r.value.vol.s.base.ub && r.value.vol.s.meta == r.value.vol.s.base.meta
    ensures r.Ok? ==> var vol := r.value.vol;
              vol.dev == dev && fresh(vol) && fresh(vol.bm) && fresh(vol.bm.bits) && fresh(vol.ddt) && fresh(vol.tbl)
                && fresh(vol.scratch)
  {
    hide Machine.Inv, Machine.Accounted, Machine.IsRun, Machine.GoodRun, Machine.CrashImage, Machine.NextCrash,
      GoodView;
    var v := Remount(codec, dev, GoodFn(codec), run);
    if v.Err? {
      return Err(v.error);
    }
    MountedGood(codec, run[|run| - 1], v.value.s, dev.cur, run + [v.value.s]);
    var f := new Files(v.value);
    return Ok(f);
  }

  lemma MountedGood(c: Codec, s: Machine.State, s': Machine.State, img: Image, run: seq<Machine.State>)
    requires Machine.Inv(c, s) && Machine.NextCrash(c, s, s', img)
    requires |run| > 0 && Machine.GoodRun(GoodFn(c), run) && run[|run| - 1] == s'
    ensures GoodView(c, Machine.Memory(s')) && Survivor(s, Machine.Memory(s'))
              && Machine.SnapView(s'.base) == Machine.Memory(s')
    ensures Machine.Candidate(s, s'.base) && s'.ub == s'.base.ub && s'.meta == s'.base.meta
  {
    hide Machine.Inv, Machine.CrashImage, Snapshot.Mount, ReadRef, Machine.Persisted, Machine.Beaten, Machine.SnapOk,
      GoodView;
    var sn := Machine.CrashRecovers(c, s, img);
    Machine.SnapKeys(c, s, img, sn);
    assert Machine.ReadAll(c, img, sn.meta.ddt) == sn.plain;
    assert Machine.Good(GoodFn(c), run[|run| - 1]);
  }

  /** A filesystem without data is intact. */
  lemma FreshGood(c: Codec, v: View)
    requires v.ddt == map[] && v.plain == map[] && forall id :: 0 <= id < |v.inodes| ==>
              Fits(v.inodes[id]) && v.inodes[id].size == 0
    ensures GoodView(c, v) && Exact(v)
  {
    hide Fits;
    forall id | 0 <= id < |v.inodes| ensures DataOk(v.inodes[id], v) && Keys(v.inodes[id], v.plain) == multiset{} {
      BlankData(v.inodes[id], v);
    }
    NothingHeld(v.inodes, v.plain);
  }

  lemma {:induction false} NothingHeld(inodes: seq<Inode>, plain: map<Key, Bytes>)
    requires forall j :: 0 <= j < |inodes| ==> Keys(inodes[j], plain) == multiset{}
    ensures Held(inodes, plain) == multiset{}
  {
    hide Keys;
    if inodes != [] { NothingHeld(inodes[..|inodes| - 1], plain); }
  }

  const DEFAULT_INODE_COUNT: nat := 4096
  const DEFAULT_DDT_RESERVE: nat := 262144
  const ROOT_INODE: nat := 0

  /** A fresh filesystem whose run can start: every count is zero and every file empty. */
  /** A device of so many blocks has no room for the two metadata slots and a data block. */
  ghost predicate TooSmall(blocks: nat) {
    blocks <= 2 + 2 * Snapshot.SlotBlocks(blocks, DEFAULT_INODE_COUNT, DEFAULT_DDT_RESERVE)
  }

  /** The first commit, in slots of the size that format computes. */
  ghost predicate Roomy(u: Uber.Uberblock, m: Snapshot.Meta) {
    u.seqNo == 1 && u.metaBlocks == Snapshot.SlotBlocks(m.bm.total, DEFAULT_INODE_COUNT, DEFAULT_DDT_RESERVE)
  }

  /** While nothing is stored such a slot holds the metadata. */
  lemma RoomySaves(c: Codec, s: Machine.State)
    requires Machine.Inv(c, s) && Roomy(s.ub, s.meta) && s.meta.ddt == map[]
    requires |s.meta.tbl.inodes| == DEFAULT_INODE_COUNT
    ensures Snapshot.SavedLen(s.meta) <= s.ub.metaBlocks * BLK
  {
    hide Machine.Inv, Snapshot.MetaOk, Snapshot.SlotBlocks;
    MetaIsOk(c, s);
    Snapshot.SlotSuffices(s.meta, DEFAULT_INODE_COUNT, DEFAULT_DDT_RESERVE);
  }

  method FormatImage(codec: Codec, dev: Device) returns (ok: bool, ghost s: Machine.State)
    requires CodecOk(codec) && dev.hash == codec.hash && |dev.cur| < U64
    requires |dev.cur| > 0 ==> Uber.Parse(dev.hash, dev.cur[0]).Err?
    requires Snapshot.SlotBlocks(|dev.cur|, DEFAULT_INODE_COUNT, DEFAULT_DDT_RESERVE) * BLK < U32
    modifies dev
    ensures !ok ==> !dev.reliable || TooSmall(|old(dev.cur)|)
    ensures ok ==> Roomy(s.base.ub, s.base.meta)
    ensures ok ==>
              Machine.Start(codec, s) && s.disk == dev.Disk() && dev.Disk() == Machine.Disk(dev.cur, dev.cur, map[])
    ensures ok ==>
              Machine.GoodRun(GoodFn(codec), [s]) && Running(codec, [s]) && Machine.CrashImage(codec, s.disk, dev.cur)
    ensures ok ==>
              s.leaked == {} && s.deferred == [] && Exact(Machine.Memory(s))
              && Machine.SnapView(s.base) == Machine.Memory(s)
    ensures ok ==> s.base.ub.nextInode == 1
    ensures ok ==>
              !Machine.Flipping(s) && Machine.Memory(s) ==
              Machine.View(EmptyTable(DEFAULT_INODE_COUNT).inodes, map[], map[])
  {
    hide Machine.Inv, Machine.Accounted, Uber.Parse, Snapshot.SlotBlocks, Snapshot.MetaOk, Snapshot.Describes,
      Alloc.Used, GoodView, Exact;
    var r;
    r, s := Format(codec, dev, DEFAULT_INODE_COUNT, DEFAULT_DDT_RESERVE);
    ok := r.Ok?;
    if ok {
      FreshGood(codec, Machine.Memory(s));
    }
  }
}
