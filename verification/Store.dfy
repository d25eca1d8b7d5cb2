/**
 The data path on values: how a logical block is packed into clusters and read back.
 Hashing, compression and encryption are parameters; `CodecOk` is all that is assumed of them.
 */
module Store {
  import opened Bytes
  import Dedup

  type Key = Dedup.Key
  type Image = seq<Bytes>

  datatype Error =
    | Compress | Decompress | LogicalMismatch | ContentHashMismatch
    | Block            // the device refused a read or a write
    | OutOfBounds      // a ref whose payload exceeds its clusters
    | NoSpace
    | MetaFull         // the snapshot no longer fits its slot
    | Ended            // the run ended: a failed commit or a numeric overflow

  datatype Codec = Codec(
    hash: Bytes -> Bytes,
    compress: Bytes -> Option<Bytes>,
    decompress: Bytes -> Option<Bytes>,
    encrypt: (nat, Bytes) -> Bytes,
    decrypt: (nat, Bytes) -> Bytes,
    trusted: Bytes -> bool)   // the contents in play: the hash tells them apart

  ghost predicate CodecOk(c: Codec) {
    && (forall x :: |c.hash(x)| == 32)
    && (forall x :: c.compress(x).Some? ==> c.decompress(c.compress(x).value) == Some(x))
    && (forall a, x :: |x| == BLK ==> |c.encrypt(a, x)| == BLK && c.decrypt(a, c.encrypt(a, x)) == x)
    && (forall x, y :: c.trusted(x) && c.trusted(y) && c.hash(x) == c.hash(y) ==> x == y)
  }

  /** What an inode keeps to locate a logical block. */
  datatype Ref = Ref(hash: Key, start: nat, count: nat, payload: nat, logical: nat, raw: bool)

  function RefFrom(k: Key, e: Dedup.Entry): Ref { Ref(k, e.start, e.count, e.payload, e.logical, e.raw) }

  // ----- packing -----

  function Clusters(n: nat): nat { Max(DivCeil(n, BLK), 1) }

  /** The least number of clusters, at least one, that holds `n` bytes. */
  lemma ClustersLeast(n: nat)
    ensures Clusters(n) > 0 && (Clusters(n) - 1) * BLK < Max(n, 1) <= Clusters(n) * BLK
  {}

  lemma ClustersCover(n: nat)
    ensures n <= Clusters(n) * BLK
  {}

  datatype Packed = Packed(payload: Bytes, raw: bool)

  /** Compressed, unless compression does not shrink the block. */
  function Pack(c: Codec, text: Bytes): Option<Packed> {
    match c.compress(text)
    case None => None
    case Some(z) => Some(if |z| >= |text| then Packed(text, true) else Packed(z, false))
  }

  /** Bytes a text takes once packed: compressed, or as it is where compression does not shrink it. */
  ghost function PackedLen(c: Codec, text: Bytes): nat
    requires c.compress(text).Some?
  {
    Min(|c.compress(text).value|, |text|)
  }

  /** Packing fails exactly with the compressor, keeps the shorter of the two forms, and says which one it is. */
  lemma PackShortest(c: Codec, text: Bytes)
    ensures Pack(c, text).Some? <==> c.compress(text).Some?
    ensures Pack(c, text).Some? ==>
              var z, q := c.compress(text).value, Pack(c, text).value;
              |q.payload| == PackedLen(c, text) && (q.raw <==> |z| >= |text|) && q.payload == if q.raw then text else z
  {}

  function Padded(payload: Bytes): (b: Bytes)
    ensures |b| == Clusters(|payload|) * BLK && b[..|payload|] == payload
  {
    ClustersCover(|payload|);
    payload + Zeros(Clusters(|payload|) * BLK - |payload|)
  }

  /** The last cluster is filled up with zeros. */
  lemma PaddedZero(payload: Bytes, j: nat)
    requires |payload| <= j < Clusters(|payload|) * BLK
    ensures Padded(payload)[j] == 0
  {
    hide Clusters;
  }

  function Slice(b: Bytes, i: nat): (s: Bytes)
    requires (i + 1) * BLK <= |b|
    ensures |s| == BLK
  {
    b[i * BLK..(i + 1) * BLK]
  }

  lemma SliceInside(b: Bytes, n: nat, i: nat)
    requires |b| == n * BLK && i < n
    ensures (i + 1) * BLK <= |b|
  {}

  /** The `i`-th cluster as it is written: encrypted under its own address. */
  function Cluster(c: Codec, start: nat, payload: Bytes, i: nat): Bytes
    requires i < Clusters(|payload|)
  {
    SliceInside(Padded(payload), Clusters(|payload|), i);
    c.encrypt(start + i, Slice(Padded(payload), i))
  }

  // ----- reading -----

  function Gathered(c: Codec, img: Image, start: nat, n: nat): Bytes
    requires start + n <= |img|
  {
    if n == 0 then [] else Gathered(c, img, start, n - 1) + c.decrypt(start + n - 1, img[start + n - 1])
  }

  function Unpack(c: Codec, buf: Bytes, r: Ref): Result<Bytes, Error> {
    if r.payload > |buf| then Err(OutOfBounds) else
    var payload := buf[..r.payload];
    var text := if r.raw then Some(payload) else c.decompress(payload);
    if text.None? then Err(Decompress)
    else if |text.value| != r.logical then Err(LogicalMismatch)
    else if c.hash(text.value) != r.hash then Err(ContentHashMismatch)
    else Ok(text.value)
  }

  /** What `read` yields for a ref on a given image. */
  function ReadRef(c: Codec, img: Image, r: Ref): Result<Bytes, Error> {
    if r.start + r.count > |img| then Err(Block) else Unpack(c, Gathered(c, img, r.start, r.count), r)
  }

  /** The payload of a ref, decrypted, decodes to `b`. */
  ghost predicate DecodesTo(c: Codec, img: Image, r: Ref, b: Bytes) {
    && r.start + r.count <= |img| && r.payload <= |Gathered(c, img, r.start, r.count)|
    && var payload := Gathered(c, img, r.start, r.count)[..r.payload];
       if r.raw then b == payload else c.decompress(payload) == Some(b)
  }

  /**
   A read returns exactly what the clusters decode to, and only after checking its length and its content hash; each
   check that fails has its own error.
   */
  lemma ReadChecked(c: Codec, img: Image, r: Ref)
    ensures forall b :: ReadRef(c, img, r) == Ok(b) <==>
              DecodesTo(c, img, r, b) && |b| == r.logical && c.hash(b) == r.hash
    ensures ReadRef(c, img, r) == Err(LogicalMismatch) <==> exists b :: DecodesTo(c, img, r, b) && |b| != r.logical
    ensures ReadRef(c, img, r) == Err(ContentHashMismatch) <==>
              exists b :: DecodesTo(c, img, r, b) && |b| == r.logical && c.hash(b) != r.hash
    ensures ReadRef(c, img, r) == Err(Block) <==> r.start + r.count > |img|
  {
    hide Gathered;
    if r.start + r.count <= |img| && r.payload <= |Gathered(c, img, r.start, r.count)| {
      var payload := Gathered(c, img, r.start, r.count)[..r.payload];
      var text := if r.raw then Some(payload) else c.decompress(payload);
      if text.Some? { assert DecodesTo(c, img, r, text.value); }
    }
  }

  lemma ReadMatches(c: Codec, img: Image, r: Ref)
    ensures var text := ReadRef(c, img, r);
            text.Ok? ==> c.hash(text.value) == r.hash && |text.value| == r.logical
  {
    hide ReadRef, DecodesTo;
    ReadChecked(c, img, r);
  }

  ghost predicate AgreeOn(a: Image, b: Image, start: nat, count: nat) {
    |a| == |b| && forall i :: start <= i < start + count && i < |a| ==> a[i] == b[i]
  }

  lemma {:induction false} GatheredFrame(c: Codec, a: Image, b: Image, start: nat, n: nat, count: nat)
    requires n <= count && start + count <= |a| && AgreeOn(a, b, start, count)
    ensures Gathered(c, a, start, n) == Gathered(c, b, start, n)
  {
    if n > 0 { GatheredFrame(c, a, b, start, n - 1, count); }
  }

  /** A ref depends on its own clusters only. */
  lemma ReadFrame(c: Codec, a: Image, b: Image, r: Ref)
    requires AgreeOn(a, b, r.start, r.count)
    ensures ReadRef(c, a, r) == ReadRef(c, b, r)
  {
    if r.start + r.count <= |a| { GatheredFrame(c, a, b, r.start, r.count, r.count); }
  }

  /** The clusters of `payload` stand at `start`. */
  ghost predicate Stands(c: Codec, img: Image, start: nat, payload: Bytes, n: nat) {
    n <= Clusters(|payload|) && start + n <= |img|
    && forall i :: 0 <= i < n ==> img[start + i] == Cluster(c, start, payload, i)
  }

  lemma {:induction false} GatheredStands(c: Codec, img: Image, start: nat, payload: Bytes, n: nat)
    requires CodecOk(c) && Stands(c, img, start, payload, n)
    ensures n * BLK <= |Padded(payload)| && Gathered(c, img, start, n) == Padded(payload)[..n * BLK]
  {
    var p := Padded(payload);
    if n > 0 {
      GatheredStands(c, img, start, payload, n - 1);
      SliceInside(p, Clusters(|payload|), n - 1);
      assert img[start + (n - 1)] == Cluster(c, start, payload, n - 1);
      assert c.decrypt(start + n - 1, img[start + n - 1]) == Slice(p, n - 1);
      assert p[..n * BLK] == p[..(n - 1) * BLK] + Slice(p, n - 1);
    }
  }

  /** Reading back what was packed gives the original text. */
  lemma ReadBack(c: Codec, img: Image, start: nat, text: Bytes, packed: Packed)
    requires CodecOk(c) && Pack(c, text) == Some(packed)
    requires Stands(c, img, start, packed.payload, Clusters(|packed.payload|))
    ensures ReadRef(c, img, Ref(c.hash(text), start, Clusters(|packed.payload|), |packed.payload|, |text|,
              packed.raw)) == Ok(text)
  {
    var n := Clusters(|packed.payload|);
    GatheredStands(c, img, start, packed.payload, n);
    var b := Padded(packed.payload);
    assert b[..n * BLK] == b;
  }

  // ----- the 53-byte encoding of a ref -----

  const REF_SIZE: nat := 53

  ghost predicate RefFits(r: Ref) {
    |r.hash| == 32 && r.start < U64 && r.count < U32 && r.payload < U32 && r.logical < U32
  }

  function RefChunks(r: Ref): seq<Bytes> {
    [r.hash, Le(r.start, 8), Le(r.count, 4), Le(r.payload, 4), Le(r.logical, 4), [if r.raw then 1 else 0]]
  }

  function EncodeRef(r: Ref): Bytes { Flat(RefChunks(r)) }

  function DecodeRef(b: Bytes): Ref
    requires |b| >= REF_SIZE
  {
    Ref(b[..32], UnLe(b[32..40]), UnLe(b[40..44]), UnLe(b[44..48]), UnLe(b[48..52]), b[52] == 1)
  }

  lemma RefOffsets(r: Ref)
    requires |r.hash| == 32
    ensures var c := RefChunks(r);
            Off(c, 0) == 0 && Off(c, 1) == 32 && Off(c, 2) == 40 && Off(c, 3) == 44 && Off(c, 4) == 48
            && Off(c, 5) == 52 && Off(c, 6) == 53
  {
    var c := RefChunks(r);
    assert Off(c, 1) == 32;
    assert Off(c, 2) == 40;
    assert Off(c, 3) == 44;
    assert Off(c, 4) == 48;
    assert Off(c, 5) == 52;
  }

  /** A ref survives encoding, whatever bytes follow it. */
  lemma RefRoundTrip(r: Ref, tail: Bytes)
    requires RefFits(r)
    ensures |EncodeRef(r)| == REF_SIZE && DecodeRef(EncodeRef(r) + tail) == r
  {
    hide Flat;
    var c := RefChunks(r);
    RefOffsets(r);
    FlatLen(c);
    FlatAt(c, 0);
    FlatAt(c, 1);
    FlatAt(c, 2);
    FlatAt(c, 3);
    FlatAt(c, 4);
    FlatAt(c, 5);
    LeWidths(r.start);
    LeWidths(r.count);
    LeWidths(r.payload);
    LeWidths(r.logical);
    var b := EncodeRef(r);
    forall lo: nat, hi: nat | lo <= hi <= REF_SIZE ensures (b + tail)[lo..hi] == b[lo..hi] {}
    assert (b + tail)[52] == b[52..53][0];
  }
}
