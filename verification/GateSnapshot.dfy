/** When a stamped gate snapshot may stand in for the tree walk at a later mount. */
module GateSnapshots {
  import opened Bytes
  import opened Bloom
  import opened Directories
  import opened GlobalFilters
  import opened Gates

  type PairSet = set<(nat, Name)>

  /**
   What a mount can find: the names last committed, or those of a failed commit whose uberblock landed all the same.
   */
  datatype Disk = Disk(seqNo: nat, committed: PairSet, tries: set<PairSet>)

  datatype Event =
    | CommitDone(pairs: PairSet)
    | CommitFailed(pairs: PairSet)
    | MountLast
    | MountTried(pairs: PairSet)

  ghost predicate Possible(d: Disk, e: Event) { e.MountTried? ==> e.pairs in d.tries }

  ghost function DiskAfter(d: Disk, e: Event): Disk {
    match e
    case CommitDone(pairs) => Disk(d.seqNo + 1, pairs, {})
    case CommitFailed(pairs) => d.(tries := d.tries + {pairs})
    case MountLast => d.(tries := {})
    case MountTried(pairs) => Disk(d.seqNo + 1, pairs, {})
  }

  ghost predicate IsHistory(d: Disk, es: seq<Event>) {
    es == [] || (IsHistory(d, es[..|es| - 1]) && Possible(Later(d, es[..|es| - 1]), es[|es| - 1]))
  }

  ghost function Later(d: Disk, es: seq<Event>): Disk {
    if es == [] then d else DiskAfter(Later(d, es[..|es| - 1]), es[|es| - 1])
  }

  /** A sequence number never comes back with other names. */
  lemma {:induction false} StampsAreFinal(d: Disk, es: seq<Event>)
    ensures Later(d, es).seqNo >= d.seqNo
    ensures Later(d, es).seqNo == d.seqNo ==> Later(d, es).committed == d.committed
  {
    if es != [] { StampsAreFinal(d, es[..|es| - 1]); }
  }

  /** A snapshot that passes the stamp check and parses. */
  ghost predicate Loads(c: FilterCodec, snapshot: Bytes, seqNo: nat) {
    |snapshot| >= 8 && UnLe(snapshot[..8]) == seqNo && UnmarshalGate(c, snapshot[8..]).Some?
  }

  /** If a mount at the sequence number takes the snapshot, the gate in it is complete for the names mounted. */
  ghost predicate SnapshotSound(c: FilterCodec, key: Keying, snapshot: Bytes, seqNo: nat, pairs: PairSet) {
    Loads(c, snapshot, seqNo) ==> CompleteFor(key, UnmarshalGate(c, snapshot[8..]).value, pairs)
  }

  /** The snapshot is sound at every mount of every history that goes on from here. */
  ghost predicate ServesEver(c: FilterCodec, key: Keying, snapshot: Bytes, d: Disk) {
    forall es: seq<Event> :: IsHistory(d, es) ==>
      SnapshotSound(c, key, snapshot, Later(d, es).seqNo, Later(d, es).committed)
  }

  /** A snapshot stamped now serves every later mount exactly when its gate is complete for the names committed now. */
  lemma SnapshotServes(c: FilterCodec, key: Keying, snapshot: Bytes, g: Image, d: Disk)
    requires Loads(c, snapshot, d.seqNo) && UnmarshalGate(c, snapshot[8..]).value == g
    ensures ServesEver(c, key, snapshot, d) <==> CompleteFor(key, g, d.committed)
  {
    hide UnmarshalGate, CompleteFor, UnLe;
    if ServesEver(c, key, snapshot, d) {
      assert IsHistory(d, []) && Later(d, []) == d;
    }
    forall es: seq<Event> | CompleteFor(key, g, d.committed) && IsHistory(d, es)
      ensures SnapshotSound(c, key, snapshot, Later(d, es).seqNo, Later(d, es).committed)
    {
      StampsAreFinal(d, es);
    }
  }

  /** Names added since the commit do no harm: a gate complete for more names is complete for the committed ones. */
  lemma FewerNamesComplete(key: Keying, g: Image, more: PairSet, fewer: PairSet)
    requires CompleteFor(key, g, more) && fewer <= more
    ensures CompleteFor(key, g, fewer)
  {
    hide Test;
  }

  /** A committed name whose removal was not committed: the snapshot would hide it from the mount after a crash. */
  lemma UncommittedUnlink(c: FilterCodec, key: Keying, f: Filter, d: nat, n: Name, seqNo: nat, capacity: nat)
    requires FilterCodecOk(c) && KeyingOk(key) && seqNo < U64 && capacity < I64
    ensures var lo := key(d, n).lo;
            var snapshot := Le(seqNo, 8) + MarshalGate(c, Image(f, {lo}, 0, capacity), [lo]);
            && Loads(c, snapshot, seqNo)
            && !SnapshotSound(c, key, snapshot, seqNo, {(d, n)})
            && !ServesEver(c, key, snapshot, Disk(seqNo, {(d, n)}, {}))
  {
    hide MarshalGate, UnmarshalGate, Le, UnLe, Admits, FilterCodecOk, IsHistory, Later;
    var g := Image(f, {key(d, n).lo}, 0, capacity);
    var snapshot := Le(seqNo, 8) + MarshalGate(c, g, [key(d, n).lo]);
    LeWidths(seqNo);
    GateRoundTrip(c, g, [key(d, n).lo]);
    assert snapshot[..8] == Le(seqNo, 8) && snapshot[8..] == MarshalGate(c, g, [key(d, n).lo]);
    assert (d, n) in {(d, n)};
    SnapshotServes(c, key, snapshot, g, Disk(seqNo, {(d, n)}, {}));
  }
}
