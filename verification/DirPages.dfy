/** Directory pages: their codec, the layout a cached directory keeps, and flushing. */
module DirPages {
  import opened Bytes
  import opened Directories
  import Records

  const PAGE: nat := 4096
  const MAX_NAME: nat := 4082

  datatype Error = Corrupt

  type Pages = seq<seq<Entry>>

  /** A name that fits a page of its own, and a 64-bit inode id. */
  predicate EntryFits(e: Entry) { |e.name| <= MAX_NAME && e.inode < U64 }

  function EntryBytes(name: Name): nat { 10 + |name| }

  /** Bytes a page's entries occupy, header included. */
  function PageBytes(es: seq<Entry>): (n: nat)
    ensures n >= 4 + 10 * |es|
  {
    if es == [] then 4 else PageBytes(es[..|es| - 1]) + EntryBytes(es[|es| - 1].name)
  }

  ghost predicate PageFits(es: seq<Entry>) { PageBytes(es) <= PAGE && forall i :: 0 <= i < |es| ==> EntryFits(es[i]) }

  // ----- the page codec -----

  function EncodeEntry(e: Entry): (b: Bytes)
    requires EntryFits(e)
    ensures |b| == EntryBytes(e.name)
  {
    Le(|e.name|, 2) + Le(e.inode, 8) + e.name
  }

  ghost function EntryChunks(es: seq<Entry>): (c: seq<Bytes>)
    requires forall i :: 0 <= i < |es| ==> EntryFits(es[i])
    ensures |c| == |es| && forall i :: 0 <= i < |es| ==> c[i] == EncodeEntry(es[i])
  {
    if es == [] then [] else EntryChunks(es[..|es| - 1]) + [EncodeEntry(es[|es| - 1])]
  }

  /** Count, entries, zero padding. */
  ghost function EncodePage(es: seq<Entry>): Bytes
    requires PageFits(es)
  {
    Le(|es|, 4) + Flat(EntryChunks(es)) + Zeros(PAGE - PageBytes(es))
  }

  /** Read `n` entries from offset `off`: the entries and the offset after them. */
  function DecodeEntries(b: Bytes, off: nat, n: nat): Result<(seq<Entry>, nat), Error>
    decreases n
  {
    if n == 0 then Ok(([], off))
    else if off + 10 > |b| then Err(Corrupt)
    else
      var len := UnLe(b[off..off + 2]);
      if off + 10 + len > |b| then Err(Corrupt)
      else
        var e := Entry(b[off + 10..off + 10 + len], UnLe(b[off + 2..off + 10]));
        match DecodeEntries(b, off + 10 + len, n - 1)
        case Err(x) => Err(x)
        case Ok(rest) => Ok(([e] + rest.0, rest.1))
  }

  function DecodePage(b: Bytes): Result<(seq<Entry>, nat), Error> {
    if |b| < 4 then Err(Corrupt) else DecodeEntries(b, 4, UnLe(b[0..4]))
  }

  lemma {:induction false} ChunkOffsets(es: seq<Entry>, k: nat)
    requires (forall i :: 0 <= i < |es| ==> EntryFits(es[i])) && k <= |es|
    ensures 4 + Off(EntryChunks(es), k) == PageBytes(es[..k])
  {
    if k > 0 {
      ChunkOffsets(es, k - 1);
      assert es[..k][..k - 1] == es[..k - 1];
    }
  }

  lemma {:induction false} BytesGrow(es: seq<Entry>, k: nat)
    requires k <= |es|
    ensures PageBytes(es[..k]) <= PageBytes(es)
    decreases |es| - k
  {
    if k < |es| {
      BytesGrow(es, k + 1);
      assert es[..k + 1][..k] == es[..k];
    } else {
      assert es[..k] == es;
    }
  }

  lemma PageLength(es: seq<Entry>)
    requires PageFits(es)
    ensures |Flat(EntryChunks(es))| == PageBytes(es) - 4 && |EncodePage(es)| == PAGE
  {
    ChunkOffsets(es, |es|);
    assert es[..|es|] == es;
    FlatLen(EntryChunks(es));
  }

  /** Where entry `k` is in its page. */
  lemma EntrySlice(es: seq<Entry>, k: nat)
    requires PageFits(es) && k < |es|
    ensures var at := PageBytes(es[..k]);
            at + EntryBytes(es[k].name) <= |EncodePage(es)| == PAGE
              && EncodePage(es)[at..at + EntryBytes(es[k].name)] == EncodeEntry(es[k])
  {
    hide Flat, Off, PageBytes, EntryChunks, EncodeEntry;
    var c := EntryChunks(es);
    var body := Flat(c);
    PageLength(es);
    ChunkOffsets(es, k);
    FlatAt(c, k);
    var lo, len := Off(c, k), EntryBytes(es[k].name);
    assert body[lo..lo + len] == EncodeEntry(es[k]);
    SliceInside(Le(|es|, 4), body, Zeros(PAGE - PageBytes(es)), lo, len);
  }

  lemma SliceInside(a: Bytes, b: Bytes, c: Bytes, lo: nat, len: nat)
    requires lo + len <= |b|
    ensures (a + b + c)[|a| + lo..|a| + lo + len] == b[lo..lo + len]
  {}

  lemma SliceOfSlice(b: Bytes, lo: nat, hi: nat, i: nat, j: nat)
    requires i <= j && lo + j <= hi <= |b|
    ensures b[lo..hi][i..j] == b[lo + i..lo + j]
  {
    var x, y := b[lo..hi][i..j], b[lo + i..lo + j];
    assert forall k :: 0 <= k < |x| ==> x[k] == y[k];
  }

  lemma EntryParts(b: Bytes, at: nat, e: Entry)
    requires EntryFits(e) && at + EntryBytes(e.name) <= |b| && b[at..at + EntryBytes(e.name)] == EncodeEntry(e)
    ensures UnLe(b[at..at + 2]) == |e.name| && UnLe(b[at + 2..at + 10]) == e.inode
              && b[at + 10..at + 10 + |e.name|] == e.name
  {
    hide UnLe, Le;
    LeWidths(|e.name|);
    LeWidths(e.inode);
    var s := b[at..at + EntryBytes(e.name)];
    var x, y := Le(|e.name|, 2), Le(e.inode, 8);
    assert |x| == 2 && |y| == 8;
    assert s == x + y + e.name;
    assert b[at..at + 2] == s[0..2] == x;
    SliceInside(x, y, e.name, 0, 8);
    SliceOfSlice(b, at, at + EntryBytes(e.name), 2, 10);
    assert y[0..8] == y;
    assert b[at + 10..at + 10 + |e.name|] == s[10..] == e.name;
  }

  lemma {:induction false} DecodesFrom(es: seq<Entry>, k: nat)
    requires PageFits(es) && k <= |es|
    ensures DecodeEntries(EncodePage(es), PageBytes(es[..k]), |es| - k) == Ok((es[k..], PageBytes(es)))
    decreases |es| - k
  {
    hide EncodePage, EncodeEntry, DecodeEntries;
    if k == |es| {
      DecodeNone(EncodePage(es), PageBytes(es[..k]));
      assert es[..k] == es && es[k..] == [];
    } else {
      DecodesFrom(es, k + 1);
      EntrySlice(es, k);
      EntryParts(EncodePage(es), PageBytes(es[..k]), es[k]);
      assert es[..k + 1][..k] == es[..k];
      DecodeOne(EncodePage(es), PageBytes(es[..k]), es[k], |es| - k - 1, (es[k + 1..], PageBytes(es)));
      assert [es[k]] + es[k + 1..] == es[k..];
    }
  }

  lemma DecodeNone(b: Bytes, at: nat)
    ensures DecodeEntries(b, at, 0) == Ok(([], at))
  {}

  lemma DecodeOne(b: Bytes, at: nat, e: Entry, n: nat, rest: (seq<Entry>, nat))
    requires at + EntryBytes(e.name) <= |b| && UnLe(b[at..at + 2]) == |e.name| && UnLe(b[at + 2..at + 10]) == e.inode
    requires b[at + 10..at + 10 + |e.name|] == e.name && DecodeEntries(b, at + EntryBytes(e.name), n) == Ok(rest)
    ensures DecodeEntries(b, at, n + 1) == Ok(([e] + rest.0, rest.1))
  {
    hide UnLe;
  }

  /** Decoding gives back the entries and the bytes they occupy. */
  lemma PageRoundTrip(es: seq<Entry>)
    requires PageFits(es)
    ensures |EncodePage(es)| == PAGE && DecodePage(EncodePage(es)) == Ok((es, PageBytes(es)))
  {
    hide UnLe, Le, Flat, EntryChunks, DecodeEntries;
    PageLength(es);
    LeWidths(|es|);
    assert EncodePage(es)[0..4] == Le(|es|, 4);
    DecodesFrom(es, 0);
    assert es[..0] == [] && es[0..] == es;
  }

  /** Fill a page buffer entry by entry. */
  method EncodeDirPage(es: seq<Entry>) returns (buf: array<byte>)
    requires PageFits(es)
    ensures fresh(buf) && buf[..] == EncodePage(es)
  {
    hide EncodePage, EncodeEntry, Le, PageBytes, Flat;
    buf := new byte[PAGE](_ => 0);
    var off := 4;
    var i := 0;
    ghost var filled := Filled(es, 0);
    FilledStart(es);
    CopyInto(buf, 0, Le(|es|, 4));
    while i < |es|
      invariant 0 <= i <= |es| && off == PageBytes(es[..i]) && fresh(buf) && buf.Length == PAGE
                && buf[..] == Filled(es, i)
    {
      FilledNext(es, i);
      CopyInto(buf, off, EncodeEntry(es[i]));
      off := off + EntryBytes(es[i].name);
      i := i + 1;
    }
    FilledAll(es);
  }

  /** The buffer once the first `i` entries are in place. */
  ghost function Filled(es: seq<Entry>, i: nat): Bytes
    requires PageFits(es) && i <= |es|
  {
    BytesGrow(es, i);
    Le(|es|, 4) + Flat(EntryChunks(es)[..i]) + Zeros(PAGE - PageBytes(es[..i]))
  }

  lemma FilledStart(es: seq<Entry>)
    requires PageFits(es)
    ensures PageBytes(es[..0]) == 4 && |Le(|es|, 4)| == 4 && Filled(es, 0) == Patch(Zeros(PAGE), 0, Le(|es|, 4))
  {}

  lemma FilledNext(es: seq<Entry>, i: nat)
    requires PageFits(es) && i < |es|
    ensures PageBytes(es[..i + 1]) == PageBytes(es[..i]) + EntryBytes(es[i].name) <= PAGE && |Filled(es, i)| == PAGE
    ensures Filled(es, i + 1) == Patch(Filled(es, i), PageBytes(es[..i]), EncodeEntry(es[i]))
  {
    hide Le, EncodeEntry, Off, Flat, Patch;
    BytesGrow(es, i);
    BytesGrow(es, i + 1);
    ChunkOffsets(es, i);
    var c := EntryChunks(es);
    assert es[..i + 1][..i] == es[..i];
    assert c[..i + 1] == c[..i] + [c[i]];
    assert c[..i + 1][..i] == c[..i];
    FlatLen(c[..i]);
    OffOfPrefix(c, i, i);
    FlatSnoc(c[..i], c[i]);
    PatchAppend(Le(|es|, 4) + Flat(c[..i]), PAGE - PageBytes(es[..i]), c[i]);
    assert Le(|es|, 4) + (Flat(c[..i]) + c[i]) == Le(|es|, 4) + Flat(c[..i]) + c[i];
  }

  lemma FlatSnoc(c: seq<Bytes>, x: Bytes)
    ensures Flat(c + [x]) == Flat(c) + x
  {
    assert (c + [x])[..|c|] == c;
  }

  lemma PatchAppend(a: Bytes, z: nat, x: Bytes)
    requires |x| <= z
    ensures Patch(a + Zeros(z), |a|, x) == a + x + Zeros(z - |x|)
  {}

  lemma FilledAll(es: seq<Entry>)
    requires PageFits(es)
    ensures Filled(es, |es|) == EncodePage(es)
  {
    assert es[..|es|] == es && EntryChunks(es)[..|es|] == EntryChunks(es);
  }

  /** Parse a page entry by entry. */
  method DecodeDirPage(b: Bytes) returns (r: Result<(seq<Entry>, nat), Error>)
    ensures r == DecodePage(b)
  {
    if |b| < 4 {
      return Err(Corrupt);
    }
    var n := UnLe(b[0..4]);
    var off: nat, i: nat := 4, 0;
    var out: seq<Entry> := [];
    PrefixedNone(DecodeEntries(b, 4, n));
    while i < n
      invariant 0 <= i <= n && off <= |b|
      invariant DecodePage(b) == Prefixed(out, DecodeEntries(b, off, n - i))
    {
      if off + 10 > |b| {
        return Err(Corrupt);
      }
      var len := UnLe(b[off..off + 2]);
      var id := UnLe(b[off + 2..off + 10]);
      if off + 10 + len > |b| {
        return Err(Corrupt);
      }
      PrefixedNext(out, Entry(b[off + 10..off + 10 + len], id), DecodeEntries(b, off + 10 + len, n - i - 1));
      out := out + [Entry(b[off + 10..off + 10 + len], id)];
      off := off + 10 + len;
      i := i + 1;
    }
    assert out + [] == out;
    return Ok((out, off));
  }

  ghost function Prefixed(out: seq<Entry>, r: Result<(seq<Entry>, nat), Error>): Result<(seq<Entry>, nat), Error> {
    if r.Err? then r else Ok((out + r.value.0, r.value.1))
  }

  lemma PrefixedNone(r: Result<(seq<Entry>, nat), Error>)
    ensures Prefixed([], r) == r
  {
    if r.Ok? { assert [] + r.value.0 == r.value.0; }
  }

  lemma PrefixedNext(out: seq<Entry>, e: Entry, r: Result<(seq<Entry>, nat), Error>)
    ensures r.Ok? ==> Prefixed(out, Ok(([e] + r.value.0, r.value.1))) == Prefixed(out + [e], r)
    ensures r.Err? ==> Prefixed(out + [e], r) == r
  {
    if r.Ok? { assert out + ([e] + r.value.0) == out + [e] + r.value.0; }
  }

  // ----- the layout of a directory over its pages -----

  /**
   What a resident directory holds: its index as a map, its pages, their byte counts, each name's page, the changed
   pages.
   */
  datatype Layout = Layout(names: map<Name, nat>, pages: Pages, used: seq<nat>, pageOf: map<Name, nat>, dirty: set<nat>)

  ghost predicate PagesFit(pages: Pages) { forall p :: 0 <= p < |pages| ==> PageFits(pages[p]) }

  /** Pages, byte counts, name-to-page map and index describe the same set of entries. */
  ghost predicate LayoutOk(l: Layout) {
    && PagesFit(l.pages) && |l.used| == |l.pages| && l.pageOf.Keys == l.names.Keys
    && (forall p :: 0 <= p < |l.pages| ==> l.used[p] == PageBytes(l.pages[p]) && Distinct(l.pages[p]))
    && (forall p, i :: 0 <= p < |l.pages| && 0 <= i < |l.pages[p]| ==> PlacedAt(l, l.pages[p][i], p))
    && (forall n :: n in l.pageOf ==> l.pageOf[n] < |l.pages| && Mentions(l.pages[l.pageOf[n]], n))
    && (forall p :: p in l.dirty ==> p < |l.pages|)
  }

  ghost predicate PlacedAt(l: Layout, e: Entry, p: nat) {
    e.name in l.names && l.names[e.name] == e.inode && e.name in l.pageOf && l.pageOf[e.name] == p
  }

  ghost predicate Mentions(es: seq<Entry>, n: Name) { exists i :: 0 <= i < |es| && es[i].name == n }

  /** The pages determine everything else. */
  lemma LayoutUnique(a: Layout, b: Layout)
    requires LayoutOk(a) && LayoutOk(b) && a.pages == b.pages
    ensures a.used == b.used && a.pageOf == b.pageOf && a.names == b.names
  {
    hide PageBytes, PageFits;
    LayoutWithin(a, b);
    LayoutWithin(b, a);
    assert a.pageOf.Keys == b.pageOf.Keys && a.names.Keys == b.names.Keys;
    assert a.pageOf == b.pageOf;
    assert a.names == b.names;
  }

  lemma LayoutWithin(a: Layout, b: Layout)
    requires LayoutOk(a) && LayoutOk(b) && a.pages == b.pages
    ensures forall n :: n in a.names ==>
              n in b.names && n in b.pageOf && a.pageOf[n] == b.pageOf[n] && a.names[n] == b.names[n]
  {
    hide PageBytes, PageFits, Distinct;
    forall n | n in a.names ensures n in b.names && n in b.pageOf && a.pageOf[n] == b.pageOf[n]
      && a.names[n] == b.names[n] {
      var p := a.pageOf[n];
      var i :| 0 <= i < |a.pages[p]| && a.pages[p][i].name == n;
      assert PlacedAt(a, a.pages[p][i], p) && PlacedAt(b, b.pages[p][i], p);
    }
  }

  // ----- adding -----

  /** The first page with room, or the number of pages when none has. */
  function FirstRoom(used: seq<nat>, need: nat): (p: nat)
    ensures p <= |used| && (p < |used| ==> used[p] + need <= PAGE)
    ensures forall q :: 0 <= q < p ==> used[q] + need > PAGE
  {
    if used == [] then 0 else if used[0] + need <= PAGE then 0 else 1 + FirstRoom(used[1..], need)
  }

  function AddTo(l: Layout, name: Name, id: nat): (Layout, bool)
    requires |l.used| == |l.pages|
  {
    if name in l.names then (l, false)
    else
      var need := EntryBytes(name);
      var p := FirstRoom(l.used, need);
      var pages := if p < |l.pages| then l.pages else l.pages + [[]];
      var used := if p < |l.pages| then l.used else l.used + [4];
      (Layout(Put(l.names, name, id), pages[p := pages[p] + [Entry(name, id)]], used[p := used[p] + need],
              Put(l.pageOf, name, p), l.dirty + {p}),
       true)
  }

  lemma AppendFits(es: seq<Entry>, e: Entry)
    requires PageFits(es) && EntryFits(e) && PageBytes(es) + EntryBytes(e.name) <= PAGE
    ensures PageFits(es + [e]) && PageBytes(es + [e]) == PageBytes(es) + EntryBytes(e.name)
  {
    assert (es + [e])[..|es|] == es;
  }

  /** Room for an empty page at the end. */
  function Opened(l: Layout): Layout { l.(pages := l.pages + [[]], used := l.used + [4]) }

  lemma OpenedOk(l: Layout)
    requires LayoutOk(l)
    ensures LayoutOk(Opened(l))
  {
    var l' := Opened(l);
    forall p, i | 0 <= p < |l'.pages| && 0 <= i < |l'.pages[p]| ensures PlacedAt(l', l'.pages[p][i], p) {
      assert PlacedAt(l, l.pages[p][i], p);
    }
  }

  function PlaceIn(l: Layout, name: Name, id: nat, p: nat): Layout
    requires p < |l.pages| == |l.used|
  {
    Layout(Put(l.names, name, id), l.pages[p := l.pages[p] + [Entry(name, id)]],
      l.used[p := l.used[p] + EntryBytes(name)],
           Put(l.pageOf, name, p), l.dirty + {p})
  }

  lemma PlaceInOk(l: Layout, name: Name, id: nat, p: nat)
    requires LayoutOk(l) && name !in l.names && EntryFits(Entry(name, id)) && p < |l.pages|
              && l.used[p] + EntryBytes(name) <= PAGE
    ensures LayoutOk(PlaceIn(l, name, id, p))
  {
    hide PageBytes, PageFits;
    var e, l' := Entry(name, id), PlaceIn(l, name, id, p);
    AppendFits(l.pages[p], e);
    forall q, i | 0 <= q < |l'.pages| && 0 <= i < |l'.pages[q]| ensures PlacedAt(l', l'.pages[q][i], q) {
      if q != p || i < |l.pages[p]| { assert PlacedAt(l, l.pages[q][i], q); }
    }
    forall n | n in l'.pageOf ensures l'.pageOf[n] < |l'.pages| && Mentions(l'.pages[l'.pageOf[n]], n) {
      if n == name {
        assert l'.pages[p][|l.pages[p]|].name == n;
      } else {
        MentionsMore(l.pages[l.pageOf[n]], e, n);
      }
    }
    forall i, j | 0 <= i < j < |l'.pages[p]| ensures l'.pages[p][i].name != l'.pages[p][j].name {
      if j == |l.pages[p]| { assert PlacedAt(l, l.pages[p][i], p); }
    }
  }

  lemma MentionsMore(es: seq<Entry>, e: Entry, n: Name)
    requires Mentions(es, n)
    ensures Mentions(es + [e], n)
  {
    var i :| 0 <= i < |es| && es[i].name == n;
    assert (es + [e])[i].name == n;
  }

  /** Adding keeps the layout: the name goes to the first page with room, and no page outgrows its 4096 bytes. */
  lemma AddKeeps(l: Layout, name: Name, id: nat)
    requires LayoutOk(l) && EntryFits(Entry(name, id))
    ensures |l.used| == |l.pages| && LayoutOk(AddTo(l, name, id).0) && (AddTo(l, name, id).1 <==> name !in l.names)
    ensures AddTo(l, name, id).0.names == if name in l.names then l.names else l.names[name := id]
  {
    hide PageBytes, PageFits, LayoutOk;
    UsedPerPage(l);
    if name !in l.names {
      var p := FirstRoom(l.used, EntryBytes(name));
      if p < |l.pages| {
        PlaceInOk(l, name, id, p);
      } else {
        OpenedOk(l);
        PlaceInOk(Opened(l), name, id, p);
      }
    }
  }

  lemma UsedPerPage(l: Layout)
    requires LayoutOk(l)
    ensures |l.used| == |l.pages|
  {}

  // ----- deleting -----

  function IndexOf(es: seq<Entry>, name: Name): (i: nat)
    ensures i <= |es| && (i < |es| ==> es[i].name == name)
    ensures forall j :: 0 <= j < i ==> es[j].name != name
  {
    if es == [] then 0 else if es[0].name == name then 0 else 1 + IndexOf(es[1..], name)
  }

  function Removed(es: seq<Entry>, i: nat): seq<Entry> { if i < |es| then es[..i] + es[i + 1..] else es }

  /** Only the one entry goes, and the others keep their order. */
  lemma RemovedAt(es: seq<Entry>, i: nat, j: nat)
    requires i < |es| && j < |es| - 1
    ensures |Removed(es, i)| == |es| - 1 && Removed(es, i)[j] == es[if j < i then j else j + 1]
  {}

  lemma RemovedPrefix(es: seq<Entry>, i: nat, k: nat)
    requires i < k == |es| - 1
    ensures |Removed(es, i)| == k && Removed(es, i)[..k - 1] == Removed(es[..k], i)
  {
    hide Removed;
    RemovedAt(es, i, 0);
    var a, b := Removed(es, i)[..k - 1], Removed(es[..k], i);
    if k > 1 { RemovedAt(es[..k], i, 0); } else { RemovedOne(es[..k]); }
    forall j | 0 <= j < k - 1 ensures a[j] == b[j] {
      RemovedAt(es, i, j);
      RemovedAt(es[..k], i, j);
    }
  }

  lemma RemovedOne(es: seq<Entry>)
    requires |es| == 1
    ensures Removed(es, 0) == []
  {}

  lemma {:induction false} RemovedBytes(es: seq<Entry>, i: nat)
    requires i < |es|
    ensures PageBytes(Removed(es, i)) + EntryBytes(es[i].name) == PageBytes(es)
  {
    var k := |es| - 1;
    if i == k {
      assert Removed(es, i) == es[..k];
    } else {
      RemovedBytes(es[..k], i);
      RemovedAt(es, i, k - 1);
      RemovedPrefix(es, i, k);
    }
  }

  lemma RemovedOk(es: seq<Entry>, i: nat)
    requires i < |es| && PageFits(es) && Distinct(es)
    ensures PageFits(Removed(es, i)) && Distinct(Removed(es, i))
    ensures forall j :: 0 <= j < |Removed(es, i)| ==> Removed(es, i)[j] in es && Removed(es, i)[j].name != es[i].name
    ensures forall n :: Mentions(es, n) && n != es[i].name ==> Mentions(Removed(es, i), n)
  {
    hide PageBytes;
    RemovedBytes(es, i);
    var r := Removed(es, i);
    forall n | Mentions(es, n) && n != es[i].name ensures Mentions(r, n) {
      var j :| 0 <= j < |es| && es[j].name == n;
      assert r[if j < i then j else j - 1].name == n;
    }
  }

  /** The page a name is filed under holds it, once, and counts its bytes. */
  lemma PageOfName(l: Layout, name: Name)
    requires LayoutOk(l) && name in l.pageOf
    ensures var p := l.pageOf[name];
            && p < |l.pages| && p < |l.used| && IndexOf(l.pages[p], name) < |l.pages[p]|
            && PageFits(l.pages[p]) && Distinct(l.pages[p]) && l.used[p] == PageBytes(l.pages[p]) >= EntryBytes(name)
  {
    hide PageBytes, PageFits, Distinct, PlacedAt;
    var es := l.pages[l.pageOf[name]];
    assert Mentions(es, name);
    RemovedBytes(es, IndexOf(es, name));
  }

  function DelFrom(l: Layout, name: Name): (Layout, bool)
    requires LayoutOk(l)
  {
    if name !in l.pageOf then (l, false)
    else
      var p := l.pageOf[name];
      PageOfName(l, name);
      (Layout(l.names - {name}, l.pages[p := Removed(l.pages[p], IndexOf(l.pages[p], name))],
              l.used[p := l.used[p] - EntryBytes(name)], l.pageOf - {name}, l.dirty + {p}),
       true)
  }

  ghost predicate Placed(l: Layout, p: nat)
    requires p < |l.pages|
  {
    forall i :: 0 <= i < |l.pages[p]| ==> PlacedAt(l, l.pages[p][i], p)
  }

  lemma DelPlaced(l: Layout, name: Name, q: nat)
    requires LayoutOk(l) && name in l.pageOf && q < |l.pages|
    ensures Placed(DelFrom(l, name).0, q)
  {
    hide PageBytes, PageFits, Distinct, IndexOf;
    var p := l.pageOf[name];
    PageOfName(l, name);
    RemovedOk(l.pages[p], IndexOf(l.pages[p], name));
    var l' := DelFrom(l, name).0;
    forall k | 0 <= k < |l'.pages[q]| ensures PlacedAt(l', l'.pages[q][k], q) {
      var e := l'.pages[q][k];
      var m :| 0 <= m < |l.pages[q]| && l.pages[q][m] == e;
      assert PlacedAt(l, l.pages[q][m], q);
    }
  }

  /** Deleting keeps the layout and takes exactly that name away. */
  lemma DelKeeps(l: Layout, name: Name)
    requires LayoutOk(l)
    ensures LayoutOk(DelFrom(l, name).0) && (DelFrom(l, name).1 <==> name in l.names)
    ensures DelFrom(l, name).0.names == l.names - {name}
  {
    hide PageBytes, PageFits, IndexOf, Distinct, PlacedAt, Mentions, Removed;
    if name in l.pageOf {
      var p := l.pageOf[name];
      var i := IndexOf(l.pages[p], name);
      PageOfName(l, name);
      RemovedOk(l.pages[p], i);
      RemovedBytes(l.pages[p], i);
      var l' := DelFrom(l, name).0;
      forall q, k | 0 <= q < |l'.pages| && 0 <= k < |l'.pages[q]| ensures PlacedAt(l', l'.pages[q][k], q) {
        DelPlaced(l, name, q);
      }
    } else {
      assert l.names - {name} == l.names;
    }
  }

  // ----- the resident directory -----

  /** A resident directory: the Bloom-segmented index beside the page layout. */
  class CachedDir {
    const dir: Directory
    var pages: Pages
    var used: seq<nat>
    var pageOf: map<Name, nat>
    var dirty: set<nat>

    ghost function View(): Layout
      reads this, dir
    {
      Layout(dir.contents, pages, used, pageOf, dirty)
    }

    ghost predicate Valid()
      reads this, dir
    {
      dir.Valid() && LayoutOk(View())
    }

    constructor (hs: Hashing, cap: nat, tuning: Tuning)
      requires HashingOk(hs)
      ensures Valid() && fresh(dir) && View() == Layout(map[], [], [], map[], {})
    {
      dir := new Directory(hs, cap, tuning);
      pages, used, pageOf, dirty := [], [], map[], {};
    }

    method Room(need: nat) returns (p: nat)
      ensures p == FirstRoom(used, need)
    {
      p := 0;
      while p < |used|
        invariant 0 <= p <= |used| && FirstRoom(used, need) == p + FirstRoom(used[p..], need)
      {
        if used[p] + need <= PAGE {
          return;
        }
        assert used[p..][1..] == used[p + 1..];
        p := p + 1;
      }
    }

    /** Link a name in the index and in the first page with room. */
    method Add(name: Name, id: nat) returns (added: bool)
      requires Valid() && EntryFits(Entry(name, id))
      modifies this, dir
      ensures Valid() && (View(), added) == AddTo(old(View()), name, id)
    {
      hide LayoutOk, FirstRoom, Represents, Spread;
      AddKeeps(View(), name, id);
      added := dir.Insert(name, id);
      if !added {
        return;
      }
      var need := EntryBytes(name);
      var p := Room(need);
      if p == |pages| {
        pages := pages + [[]];
        used := used + [4];
      }
      pages := pages[p := pages[p] + [Entry(name, id)]];
      used := used[p := used[p] + need];
      pageOf := Put(pageOf, name, p);
      dirty := dirty + {p};
    }

    /** Unlink a name from the index and from its page. */
    method Del(name: Name) returns (removed: bool)
      requires Valid()
      modifies this, dir
      ensures Valid() && (View(), removed) == DelFrom(old(View()), name)
    {
      hide LayoutOk, Represents, Spread, IndexOf, PageFits, Distinct;
      DelKeeps(View(), name);
      if name !in pageOf {
        return false;
      }
      PageOfName(View(), name);
      var p := pageOf[name];
      var gone := dir.Delete(name);
      var pos := IndexOf(pages[p], name);
      pages := pages[p := Removed(pages[p], pos)];
      used := used[p := used[p] - EntryBytes(name)];
      pageOf := pageOf - {name};
      dirty := dirty + {p};
      return true;
    }
  }

  // ----- the stored image -----

  ghost predicate PageAt(blob: Bytes, p: nat, es: seq<Entry>) {
    PageFits(es) && PAGE * (p + 1) <= |blob| && blob[PAGE * p..PAGE * (p + 1)] == EncodePage(es)
  }

  /** The stored bytes are the encoded pages one after the other. */
  ghost predicate Holds(blob: Bytes, pages: Pages) {
    |blob| == PAGE * |pages| && forall p :: 0 <= p < |pages| ==> PageAt(blob, p, pages[p])
  }

  // ----- flushing -----

  /** Pages outside `dirty` are as stored. */
  ghost predicate Touches(was: Pages, pages: Pages, dirty: set<nat>) {
    && |was| <= |pages| && (forall p :: p in dirty ==> p < |pages|)
    && forall p :: 0 <= p < |pages| && p !in dirty ==> p < |was| && pages[p] == was[p]
  }

  lemma AddTouches(was: Pages, l: Layout, name: Name, id: nat)
    requires LayoutOk(l) && Touches(was, l.pages, l.dirty)
    ensures Touches(was, AddTo(l, name, id).0.pages, AddTo(l, name, id).0.dirty)
  {
    hide PageBytes, PageFits, FirstRoom;
  }

  lemma DelTouches(was: Pages, l: Layout, name: Name)
    requires LayoutOk(l) && Touches(was, l.pages, l.dirty)
    ensures Touches(was, DelFrom(l, name).0.pages, DelFrom(l, name).0.dirty)
  {
    hide PageBytes, PageFits, IndexOf, Removed;
  }

  /** The image part way through a flush, with the pages in `todo` still to be written. */
  ghost predicate Flushing(blob: Bytes, pages: Pages, todo: set<nat>) {
    && |blob| % PAGE == 0 && |blob| <= PAGE * |pages| && PagesFit(pages) && (forall p :: p in todo ==> p < |pages|)
    && forall p :: 0 <= p < |pages| && p !in todo ==> PageAt(blob, p, pages[p])
  }

  lemma FlushStart(blob: Bytes, was: Pages, pages: Pages, dirty: set<nat>)
    requires Holds(blob, was) && Touches(was, pages, dirty) && PagesFit(pages)
    ensures Flushing(blob, pages, dirty)
  {
    hide EncodePage, PageFits;
    forall p | 0 <= p < |pages| && p !in dirty ensures PageAt(blob, p, pages[p]) { assert PageAt(blob, p, was[p]); }
  }

  /** Writing one page at its offset; a gap it leaves is filled by the pages still to come. */
  lemma FlushNext(blob: Bytes, pages: Pages, todo: set<nat>, p: nat)
    requires Flushing(blob, pages, todo) && p in todo
    ensures PageFits(pages[p]) && |EncodePage(pages[p])| == PAGE
    ensures Flushing(Records.Splice(blob, PAGE * p, EncodePage(pages[p])), pages, todo - {p})
  {
    hide EncodePage, PageFits, Records.Splice;
    FlushFits(pages, p);
    var page := EncodePage(pages[p]);
    PageLength(pages[p]);
    var blob' := Records.Splice(blob, PAGE * p, page);
    assert |blob'| == Max(|blob|, PAGE * p + PAGE);
    SpliceSelf(blob, PAGE * p, page);
    forall q | 0 <= q < |pages| && q !in todo - {p} ensures PageAt(blob', q, pages[q]) {
      if q == p {
        assert PAGE * (p + 1) == PAGE * p + PAGE;
      } else {
        assert PageAt(blob, q, pages[q]);
        SpliceOther(blob, PAGE * p, page, PAGE * q, PAGE * (q + 1));
      }
    }
  }

  lemma FlushFits(pages: Pages, p: nat)
    requires PagesFit(pages) && p < |pages|
    ensures PageFits(pages[p])
  {}

  lemma SpliceSelf(was: Bytes, off: nat, data: Bytes)
    ensures Records.Splice(was, off, data)[off..off + |data|] == data
  {}

  lemma SpliceOther(was: Bytes, off: nat, data: Bytes, lo: nat, hi: nat)
    requires lo <= hi <= |was| && (hi <= off || off + |data| <= lo)
    ensures Records.Splice(was, off, data)[lo..hi] == was[lo..hi]
  {
    hide Records.Splice;
    var b := Records.Splice(was, off, data);
    forall j | lo <= j < hi ensures b[j] == was[j] { Records.SpliceAt(was, off, data, j); }
    assert forall j :: 0 <= j < hi - lo ==> b[lo..hi][j] == b[lo + j];
  }

  /** Once every changed page is written, the image holds the pages. */
  lemma FlushEnd(blob: Bytes, pages: Pages)
    requires Flushing(blob, pages, {})
    ensures Holds(blob, pages)
  {
    hide EncodePage, PageFits;
    if |pages| > 0 { assert PageAt(blob, |pages| - 1, pages[|pages| - 1]); }
  }

  // ----- loading -----

  type Decoded = seq<(seq<Entry>, nat)>

  function DecodePages(blob: Bytes): Result<Decoded, Error> {
    if blob == [] then Ok([])
    else
      var end := Min(PAGE, |blob|);
      var first := DecodePage(blob[..end]);
      if first.Err? then Err(first.error)
      else
        match DecodePages(blob[end..])
        case Err(x) => Err(x)
        case Ok(rest) => Ok([first.value] + rest)
  }

  /** A page's entries entered one by one into the index and the name-to-page map. */
  function Filed(l: Layout, es: seq<Entry>, p: nat): (r: Layout)
    ensures r.pages == l.pages && r.used == l.used && r.dirty == l.dirty
  {
    if es == [] then l
    else
      var e := es[|es| - 1];
      var before := Filed(l, es[..|es| - 1], p);
      before.(names := if e.name in before.names then before.names else Put(before.names, e.name, e.inode),
              pageOf := Put(before.pageOf, e.name, p))
  }

  function Built(ps: Decoded): Layout {
    if ps == [] then Layout(map[], [], [], map[], {})
    else
      var (es, used) := ps[|ps| - 1];
      var before := Built(ps[..|ps| - 1]);
      var l := Filed(before, es, |before.pages|);
      l.(pages := before.pages + [es], used := before.used + [used])
  }

  /** Load a directory from its stored bytes, page by page. */
  method LoadLayout(blob: Bytes) returns (r: Result<Layout, Error>)
    ensures DecodePages(blob).Ok? ==> r == Ok(Built(DecodePages(blob).value))
    ensures DecodePages(blob).Err? ==> r == Err(DecodePages(blob).error)
  {
    hide DecodePage, Filed, Built;
    var l := Layout(map[], [], [], map[], {});
    var off: nat := 0;
    ghost var done: Decoded := [];
    assert blob[0..] == blob;
    assert l == Built([]) by { BuiltNone(); }
    AfterNone(DecodePages(blob));
    while off < |blob|
      invariant off <= |blob| && l == Built(done)
      invariant DecodePages(blob) == After(done, DecodePages(blob[off..]))
    {
      var end := Min(off + PAGE, |blob|);
      var page := DecodeDirPage(blob[off..end]);
      DecodePagesNext(blob, off, end);
      if page.Err? {
        return Err(page.error);
      }
      var (es, used) := page.value;
      l := FileEntries(l, es, |l.pages|);
      l := l.(pages := l.pages + [es], used := l.used + [used]);
      AfterNext(done, page.value, DecodePages(blob[end..]));
      BuiltNext(done, es, used);
      done := done + [page.value];
      off := end;
    }
    assert blob[off..] == [] && done + [] == done;
    return Ok(l);
  }

  lemma BuiltNone()
    ensures Built([]) == Layout(map[], [], [], map[], {})
  {}

  lemma BuiltNext(done: Decoded, es: seq<Entry>, used: nat)
    ensures var before := Built(done);
            Built(done + [(es, used)]) == Filed(before, es, |before.pages|).(pages := before.pages + [es],
              used := before.used + [used])
  {
    assert (done + [(es, used)])[..|done|] == done;
  }

  lemma AfterNone(r: Result<Decoded, Error>)
    ensures After([], r) == r
  {
    if r.Ok? { assert [] + r.value == r.value; }
  }

  lemma DecodePagesNext(blob: Bytes, off: nat, end: nat)
    requires off < |blob| && end == Min(off + PAGE, |blob|)
    ensures var first := DecodePage(blob[off..end]);
            DecodePages(blob[off..]) ==
              if first.Err? then Err(first.error)
              else if DecodePages(blob[end..]).Err? then DecodePages(blob[end..])
              else Ok([first.value] + DecodePages(blob[end..]).value)
  {
    hide DecodePage;
    assert blob[off..][..end - off] == blob[off..end];
    assert blob[off..][end - off..] == blob[end..];
  }

  ghost function After(done: Decoded, r: Result<Decoded, Error>): Result<Decoded, Error> {
    if r.Err? then r else Ok(done + r.value)
  }

  lemma AfterNext(done: Decoded, x: (seq<Entry>, nat), r: Result<Decoded, Error>)
    ensures r.Ok? ==> After(done, Ok([x] + r.value)) == After(done + [x], r)
    ensures r.Err? ==> After(done + [x], r) == r
  {
    if r.Ok? { assert done + ([x] + r.value) == done + [x] + r.value; }
  }

  method FileEntries(l0: Layout, es: seq<Entry>, p: nat) returns (l: Layout)
    ensures l == Filed(l0, es, p)
  {
    l := l0;
    var i := 0;
    while i < |es|
      invariant 0 <= i <= |es| && l == Filed(l0, es[..i], p)
    {
      assert es[..i + 1][..i] == es[..i];
      if es[i].name !in l.names {
        l := l.(names := Put(l.names, es[i].name, es[i].inode));
      }
      l := l.(pageOf := Put(l.pageOf, es[i].name, p));
      i := i + 1;
    }
    assert es[..i] == es;
  }

  /** The names filed before entry `i` of page `k`. */
  ghost predicate Before(l: Layout, n: Name, k: nat, i: nat)
    requires n in l.pageOf && k < |l.pages|
  {
    l.pageOf[n] < k || (l.pageOf[n] == k && IndexOf(l.pages[k], n) < i)
  }

  /** The layout built once the first `k` pages are loaded. */
  ghost function Upto(l: Layout, k: nat): Layout
    requires LayoutOk(l) && k <= |l.pages|
  {
    Layout(map n | n in l.names && l.pageOf[n] < k :: l.names[n], l.pages[..k], l.used[..k],
           map n | n in l.pageOf && l.pageOf[n] < k :: l.pageOf[n], {})
  }

  ghost function Within(l: Layout, k: nat, i: nat): Layout
    requires LayoutOk(l) && k < |l.pages| && i <= |l.pages[k]|
  {
    Upto(l, k).(names := map n | n in l.names && Before(l, n, k, i) :: l.names[n],
                pageOf := map n | n in l.pageOf && Before(l, n, k, i) :: l.pageOf[n])
  }

  lemma DistinctIndex(es: seq<Entry>, i: nat)
    requires Distinct(es) && i < |es|
    ensures IndexOf(es, es[i].name) == i
  {
    var j := IndexOf(es, es[i].name);
    assert j <= i;
  }

  /** An entry is before the next position exactly if it was before this one or is the one here. */
  lemma BeforeNext(l: Layout, k: nat, i: nat, n: Name)
    requires LayoutOk(l) && k < |l.pages| && i < |l.pages[k]| && n in l.pageOf
    ensures Before(l, n, k, i + 1) <==> Before(l, n, k, i) || n == l.pages[k][i].name
    ensures n == l.pages[k][i].name ==> !Before(l, n, k, i)
  {
    hide PageBytes, PageFits, IndexOf;
    var es := l.pages[k];
    assert PlacedAt(l, es[i], k);
    DistinctIndex(es, i);
    if l.pageOf[n] == k && IndexOf(es, n) == i { assert Mentions(es, n); MentionedAt(es, n); }
  }

  lemma MentionedAt(es: seq<Entry>, n: Name)
    requires Mentions(es, n)
    ensures IndexOf(es, n) < |es| && es[IndexOf(es, n)].name == n
  {}

  lemma FiledNext(l: Layout, k: nat, i: nat)
    requires LayoutOk(l) && k < |l.pages| && i < |l.pages[k]|
    ensures var e := l.pages[k][i];
            && e.name !in Within(l, k, i).names
            && Within(l, k, i + 1) ==
               Within(l, k, i).(names := Put(Within(l, k, i).names, e.name, e.inode),
                 pageOf := Put(Within(l, k, i).pageOf, e.name, k))
  {
    hide PageBytes, PageFits, Before, Distinct, Mentions;
    var e := l.pages[k][i];
    assert PlacedAt(l, e, k);
    forall n | n in l.pageOf ensures (Before(l, n, k, i + 1) <==> Before(l, n, k, i) || n == e.name)
      && (n == e.name ==> !Before(l, n, k, i)) {
      BeforeNext(l, k, i, n);
    }
    assert Within(l, k, i + 1).names == Put(Within(l, k, i).names, e.name, e.inode);
    assert Within(l, k, i + 1).pageOf == Put(Within(l, k, i).pageOf, e.name, k);
  }

  lemma {:induction false} FiledWithin(l: Layout, k: nat, i: nat)
    requires LayoutOk(l) && k < |l.pages| && i <= |l.pages[k]|
    ensures Filed(Upto(l, k), l.pages[k][..i], k) == Within(l, k, i)
  {
    hide LayoutOk, Within;
    var es := l.pages[k];
    if i == 0 {
      WithinStart(l, k);
    } else {
      FiledWithin(l, k, i - 1);
      FiledNext(l, k, i - 1);
      assert es[..i][..i - 1] == es[..i - 1];
    }
  }

  lemma WithinStart(l: Layout, k: nat)
    requires LayoutOk(l) && k < |l.pages|
    ensures Within(l, k, 0) == Upto(l, k)
  {
    hide PageBytes, PageFits, IndexOf, Distinct, Mentions;
    assert Within(l, k, 0).names == Upto(l, k).names;
    assert Within(l, k, 0).pageOf == Upto(l, k).pageOf;
  }

  lemma WithinEnd(l: Layout, k: nat)
    requires LayoutOk(l) && k < |l.pages|
    ensures Upto(l, k + 1) == Within(l, k, |l.pages[k]|).(pages := l.pages[..k] + [l.pages[k]],
              used := l.used[..k] + [l.used[k]])
  {
    hide PageBytes, PageFits, IndexOf, Distinct;
    var w := Within(l, k, |l.pages[k]|);
    forall n | n in l.pageOf && l.pageOf[n] == k ensures Before(l, n, k, |l.pages[k]|) { MentionedAt(l.pages[k], n); }
    assert Upto(l, k + 1).names == w.names;
    assert Upto(l, k + 1).pageOf == w.pageOf;
    assert l.pages[..k + 1] == l.pages[..k] + [l.pages[k]];
    assert l.used[..k + 1] == l.used[..k] + [l.used[k]];
  }

  ghost function Decodings(l: Layout, k: nat): (ps: Decoded)
    requires k <= |l.pages| == |l.used|
    ensures |ps| == k && forall i :: 0 <= i < k ==> ps[i] == (l.pages[i], l.used[i])
  {
    seq(k, i requires 0 <= i < k => (l.pages[i], l.used[i]))
  }

  lemma {:induction false} BuiltUpto(l: Layout, k: nat)
    requires LayoutOk(l) && k <= |l.pages|
    ensures |l.used| == |l.pages| && Built(Decodings(l, k)) == Upto(l, k)
  {
    hide PageBytes, PageFits, Filed, Within, Built;
    if k == 0 {
      assert Decodings(l, 0) == [];
      BuiltNone();
    } else {
      BuiltUpto(l, k - 1);
      assert Decodings(l, k) == Decodings(l, k - 1) + [(l.pages[k - 1], l.used[k - 1])];
      BuiltNext(Decodings(l, k - 1), l.pages[k - 1], l.used[k - 1]);
      FiledWithin(l, k - 1, |l.pages[k - 1]|);
      assert l.pages[k - 1][..|l.pages[k - 1]|] == l.pages[k - 1];
      WithinEnd(l, k - 1);
    }
  }

  lemma {:induction false} DecodesStored(blob: Bytes, l: Layout, k: nat)
    requires LayoutOk(l) && Holds(blob, l.pages) && k <= |l.pages|
    ensures |l.used| == |l.pages|
    ensures DecodePages(blob[PAGE * k..]) == Ok(Decodings(l, |l.pages|)[k..])
    decreases |l.pages| - k
  {
    hide EncodePage, DecodePage, PageBytes, DecodePages;
    if k == |l.pages| {
      assert blob[PAGE * k..] == [] && Decodings(l, |l.pages|)[k..] == [];
      DecodeNothing();
    } else {
      DecodesStored(blob, l, k + 1);
      assert PageAt(blob, k, l.pages[k]);
      PageRoundTrip(l.pages[k]);
      DecodePagesNext(blob, PAGE * k, PAGE * (k + 1));
      assert Decodings(l, |l.pages|)[k..] == [(l.pages[k], l.used[k])] + Decodings(l, |l.pages|)[k + 1..];
    }
  }

  lemma DecodeNothing()
    ensures DecodePages([]) == Ok([])
  {}

  /** Loading the stored bytes of a directory gives back the layout it was stored from, with nothing dirty. */
  lemma Reloads(blob: Bytes, l: Layout)
    requires LayoutOk(l) && Holds(blob, l.pages)
    ensures DecodePages(blob).Ok? && Built(DecodePages(blob).value) == l.(dirty := {})
  {
    hide PageBytes, PageFits, EncodePage, DecodePages, Built, Distinct, Mentions;
    DecodesStored(blob, l, 0);
    BuiltUpto(l, |l.pages|);
    assert blob[PAGE * 0..] == blob;
    assert Decodings(l, |l.pages|)[0..] == Decodings(l, |l.pages|);
    assert Upto(l, |l.pages|).names == l.names;
    assert Upto(l, |l.pages|).pageOf == l.pageOf;
    assert l.pages[..|l.pages|] == l.pages && l.used[..|l.used|] == l.used;
  }

  // ----- reading without building the index -----

  /** The entries of all pages in order. */
  function Listing(pages: Pages): seq<Entry> {
    if pages == [] then [] else Listing(pages[..|pages| - 1]) + pages[|pages| - 1]
  }

  function PagesOf(ps: Decoded): (pages: Pages)
    ensures |pages| == |ps| && forall i :: 0 <= i < |ps| ==> pages[i] == ps[i].0
  {
    seq(|ps|, i requires 0 <= i < |ps| => ps[i].0)
  }

  /** Decode a directory's stored bytes into a flat list. */
  method ReadPages(blob: Bytes) returns (r: Result<seq<Entry>, Error>)
    ensures DecodePages(blob).Ok? ==> r == Ok(Listing(PagesOf(DecodePages(blob).value)))
    ensures DecodePages(blob).Err? ==> r == Err(DecodePages(blob).error)
  {
    hide DecodePage, Listing;
    var out: seq<Entry> := [];
    var off: nat := 0;
    ghost var done: Decoded := [];
    assert blob[0..] == blob;
    AfterNone(DecodePages(blob));
    ListingNext([], []);
    while off < |blob|
      invariant off <= |blob| && out == Listing(PagesOf(done))
      invariant DecodePages(blob) == After(done, DecodePages(blob[off..]))
    {
      var end := Min(off + PAGE, |blob|);
      var page := DecodeDirPage(blob[off..end]);
      DecodePagesNext(blob, off, end);
      if page.Err? {
        return Err(page.error);
      }
      out := out + page.value.0;
      AfterNext(done, page.value, DecodePages(blob[end..]));
      ListingNext(PagesOf(done), page.value.0);
      assert PagesOf(done + [page.value]) == PagesOf(done) + [page.value.0];
      done := done + [page.value];
      off := end;
    }
    assert blob[off..] == [] && done + [] == done;
    return Ok(out);
  }

  lemma ListingNext(pages: Pages, es: seq<Entry>)
    ensures Listing(pages + [es]) == Listing(pages) + es && Listing([]) == []
  {
    assert (pages + [es])[..|pages|] == pages;
  }

  /** Entries on the pages before page `p`. */
  ghost function CountBefore(pages: Pages, p: nat): nat
    requires p <= |pages|
  {
    if p == 0 then 0 else CountBefore(pages, p - 1) + |pages[p - 1]|
  }

  /** The list has the entries page by page, each page in its own order. */
  lemma {:induction false} ListingOrder(pages: Pages, p: nat, i: nat)
    requires p < |pages| && i < |pages[p]|
    ensures |Listing(pages)| == CountBefore(pages, |pages|) && CountBefore(pages, p) + i < |Listing(pages)|
    ensures Listing(pages)[CountBefore(pages, p) + i] == pages[p][i]
  {
    var n := |pages| - 1;
    ListingLen(pages);
    ListingLen(pages[..n]);
    CountPrefix(pages, n, p);
    CountPrefix(pages, n, n);
    if p < n { ListingOrder(pages[..n], p, i); }
  }

  lemma {:induction false} CountPrefix(pages: Pages, n: nat, p: nat)
    requires p <= n <= |pages|
    ensures CountBefore(pages[..n], p) == CountBefore(pages, p)
  {
    if p > 0 { CountPrefix(pages, n, p - 1); }
  }

  lemma {:induction false} ListingLen(pages: Pages)
    ensures |Listing(pages)| == CountBefore(pages, |pages|)
  {
    if pages != [] {
      ListingLen(pages[..|pages| - 1]);
      CountPrefix(pages, |pages| - 1, |pages| - 1);
    }
  }

  /** The flat list of a stored directory. */
  lemma ListsStored(blob: Bytes, l: Layout)
    requires LayoutOk(l) && Holds(blob, l.pages)
    ensures DecodePages(blob).Ok? && Listing(PagesOf(DecodePages(blob).value)) == Listing(l.pages)
  {
    hide PageBytes, PageFits, EncodePage, DecodePages, Distinct, Mentions, Listing;
    DecodesStored(blob, l, 0);
    assert blob[PAGE * 0..] == blob;
    assert PagesOf(Decodings(l, |l.pages|)[0..]) == l.pages;
  }

  ghost predicate OnPage(pages: Pages, e: Entry) { exists p :: 0 <= p < |pages| && e in pages[p] }

  lemma OnPageLast(pages: Pages, e: Entry)
    requires pages != []
    ensures OnPage(pages, e) <==> OnPage(pages[..|pages| - 1], e) || e in pages[|pages| - 1]
  {
    var k := |pages| - 1;
    if OnPage(pages[..k], e) {
      var p :| 0 <= p < k && e in pages[..k][p];
      assert e in pages[p];
    }
    if OnPage(pages, e) {
      var p :| 0 <= p < |pages| && e in pages[p];
      assert p < k ==> e in pages[..k][p];
    }
  }

  lemma {:induction false} ListedFrom(pages: Pages, e: Entry)
    ensures e in Listing(pages) <==> OnPage(pages, e)
  {
    hide OnPage;
    if pages == [] {
      NoPages(e);
    } else {
      ListedFrom(pages[..|pages| - 1], e);
      OnPageLast(pages, e);
    }
  }

  lemma NoPages(e: Entry)
    ensures !OnPage([], e)
  {}

  /** The list has an entry for exactly the bindings of the index. */
  lemma ListingIs(l: Layout, e: Entry)
    requires LayoutOk(l)
    ensures e in Listing(l.pages) <==> Get(l.names, e.name) == Some(e.inode)
  {
    hide PageBytes, PageFits, Distinct, Listing;
    ListedFrom(l.pages, e);
    if e in Listing(l.pages) {
      var p :| 0 <= p < |l.pages| && e in l.pages[p];
      var i :| 0 <= i < |l.pages[p]| && l.pages[p][i] == e;
      assert PlacedAt(l, l.pages[p][i], p);
    }
    if e.name in l.names && l.names[e.name] == e.inode {
      var p := l.pageOf[e.name];
      var i :| 0 <= i < |l.pages[p]| && l.pages[p][i].name == e.name;
      assert PlacedAt(l, l.pages[p][i], p);
    }
  }

  /** Names in the index fit a page, and their ids fit 64 bits. */
  lemma NamedFits(l: Layout, n: Name)
    requires LayoutOk(l) && n in l.names
    ensures EntryFits(Entry(n, l.names[n]))
  {
    hide PageBytes, Distinct;
    var p := l.pageOf[n];
    var i :| 0 <= i < |l.pages[p]| && l.pages[p][i].name == n;
    assert PlacedAt(l, l.pages[p][i], p);
    assert PageFits(l.pages[p]);
  }

  lemma {:induction false} ListingDistinct(l: Layout, k: nat)
    requires LayoutOk(l) && k <= |l.pages|
    ensures Distinct(Listing(l.pages[..k]))
  {
    hide PageBytes, PageFits, Mentions;
    if k > 0 {
      ListingDistinct(l, k - 1);
      var front, last := Listing(l.pages[..k - 1]), l.pages[k - 1];
      assert l.pages[..k][..k - 1] == l.pages[..k - 1];
      assert Listing(l.pages[..k]) == front + last;
      forall i, j | 0 <= i < |front| && 0 <= j < |last| ensures front[i].name != last[j].name {
        ListedFrom(l.pages[..k - 1], front[i]);
        var p :| 0 <= p < k - 1 && front[i] in l.pages[..k - 1][p];
        var m :| 0 <= m < |l.pages[p]| && l.pages[p][m] == front[i];
        assert PlacedAt(l, l.pages[p][m], p) && PlacedAt(l, l.pages[k - 1][j], k - 1);
      }
    }
  }

  /** Reading the pages lists every binding of the directory once. */
  lemma ListingLists(l: Layout)
    requires LayoutOk(l)
    ensures Lists(Listing(l.pages), l.names)
  {
    hide LayoutOk, Listing, Distinct;
    var out := Listing(l.pages);
    ListingDistinct(l, |l.pages|);
    assert l.pages[..|l.pages|] == l.pages;
    forall i | 0 <= i < |out| ensures Get(l.names, out[i].name) == Some(out[i].inode) { ListingIs(l, out[i]); }
    forall n | n in l.names ensures exists i :: 0 <= i < |out| && out[i].name == n {
      ListingIs(l, Entry(n, l.names[n]));
      var i :| 0 <= i < |out| && out[i] == Entry(n, l.names[n]);
    }
  }
}
