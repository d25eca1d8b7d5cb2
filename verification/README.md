# BloomFS, verified

A Dafny model of BloomFS, a copy-on-write, deduplicating, compressed and optionally encrypted filesystem, with proofs of
what it promises. The model follows the Rust port (`rust/`) crate by crate, and the Go membership gate (`globalfilter/`,
and its wiring in `fs/fs.go`). Code that changes state is modelled by classes and methods proved against specification
functions; pure code by functions and lemmas.

`dafny verify dfyconfig.toml` checks the whole project.

## What is proved

**Crash safety over whole runs.** `Machine` is a step system: stores, releases, inode updates, commits cut into single
block writes and syncs, failing writes and syncs, power failures and mounts. A power failure keeps any subset of the
writes since the last sync and may tear any of them; a torn uberblock fails its checksum. `Machine.CrashSafety` says
that in every state of every run, whatever image a failure leaves, mount succeeds and returns exactly the bitmap, dedup
table and inode table of the last completed commit or of the one being flipped, that every entry of that table still
reads back its text, and that the run can go on from there. The pinning invariant behind it (`Machine.Inv`) and an exact
account of every cluster (`Machine.Accounted`) are kept by every step. `Volumes.Volume` is the imperative code; each of
its device writes is a step of the machine, so the theorem holds of its runs.

**Nothing fails without a cause.** Crash safety alone would be met by code that never commits, so every error is
characterised. On a reliable device mount always succeeds, format does unless the device is too small, and a commit does
unless the metadata outgrow their slot or the sequence number is at its limit (`Volumes.Volume.Commit`). A store fails
only for the causes of `Volumes.Cause`: an unreliable device, a compressor that fails, no run long enough for the stored
form with nothing left to reclaim, a full metadata slot, a number at its limit, or a text outside `trusted`. Every
operation above, up to whole sessions of names and data, fails only for such a cause or with the refusal of its
specification.

**Files.** `Files` cuts a byte sequence into records held by deduplicated blocks. Reading is slicing, writing at an
offset is splicing, truncation is cutting or zero-extending, for all sizes, offsets and data; every other file stays as
it was; every reference count moves exactly with the references the inodes hold. `Files.FilesSurvive` lifts crash
safety to the contents of files. `FileSessions` plays any calls of the data layer, on inodes of any kind, from format on
and across power failures and mounts: every reference an inode holds is always counted, and the counts are exact while
no call fails with a device or allocator error. When space runs out with frees pending, the code commits in the middle
of a call; only then can a commit hold half of one. `FileSessions.ForcedLeak` is an input on which a crash then brings
back counts that are too large. If no commit falls inside a call made with frees pending, calls are atomic: at every
point of the run a crash leads to what held between two calls, with exact counts (`FileSessions.Play`).

**Names.** `Trees` is the namespace as a state machine. The full invariant `Trees.Inv` says that the directory graph is
acyclic, each directory but the root is named once, each other inode is named as often as its link count says, the free
list is free of repetitions and of live ids, and every directory is under the root. Every rename, whatever it replaces,
keeps the graph acyclic and gives no directory a second name (`Trees.RenameKeepsGraph`). The loose invariant
`Trees.Forest`, in which a directory may have lost its name, holds in every session whose renames do not recycle the
directory they move out of (`Trees.SessionForest`); the full one in every session whose renames replace no directory in
use (`Trees.SessionKeeps`). Where the code does not keep an invariant, a lemma gives a failing input and another says
exactly when it does: `Trees.RenameKeeps`, `Trees.RenameKeepsForest`, `Trees.LinkKeeps`, `Trees.OpenKeeps`,
`Trees.RemountKeeps`. `Namespaces.Namespace` is the imperative code over stored directory pages with the directory
cache; its subtree walk keeps no visited set and terminates because the graph is a forest. `Namespaces.Lockstep` says
that the cache never shows in any answer. `DirectoryFiles` puts directories on the block layer, one record a page.

**The whole filesystem.** `Filesystems.Filesystem` is the namespace on that block layer: each operation loads directories
from their records, writes pages, slots and the next id through `Files`, and releases the data of what it recycles. Each
maps a disk that stores a tree to one that stores the tree after the operation, with every file in use and every
reference count as it should be (`Filesystems.Filesystem.Edit`). `NamespaceDisk` plays sessions of names, data and syncs
on it and gives the points of the run at which the calls are made. `NamespaceDisk.MayCommit` says, of the state there,
which calls may be interrupted by a commit; if none of those is, then whatever a power failure leaves at any later point,
mount brings back the directory tree and the files between two calls (`NamespaceDisk.NamespaceSurvives`), and after a
sync no earlier ones. `NamespaceDisk.FormatSession` says so from an unformatted device on.

**Directories and filters.** The Bloom-segmented directory is a plain map for any hash functions. The gate in front of
cold directories and the filesystem-wide filter never hide a live name unless another name's tombstone has its low hash
word, and exactly then; over whole scripts of calls their answers are those of plain maps while no removal leaves a
live name with its low word (`GlobalFilters.ScriptPrecise`, `GatedFilesystem.GatedFs.Play`). A gate snapshot serves
every later mount exactly when its gate is complete for the names committed when it is taken
(`GateSnapshots.SnapshotServes`); an uncommitted removal breaks it.

## Reading notes

- Foreign code (BLAKE3, zstd, AES-XTS, XXH3, the Go filter's encoding) is a record of functions with the laws it is
  trusted for: `Store.CodecOk`, `Directories.HashingOk`, `GlobalFilters.KeyingOk`, `Gates.FilterCodecOk`. The content
  hash is taken to be injective on the texts of the predicate `trusted`, which may be any set without collisions; storing
  another text ends the run.
- A device is reliable or not (`Volumes.Device.reliable`). An unreliable one may fail any call, at its own choice. The
  clock is a parameter.
- A run ends when a commit fails, or a reference count or the sequence number would overflow. Crash safety still covers
  the state it ends in.
- That the invariants can be met is shown by `Volumes.Format`, `FileSessions.FormatFs`, `Trees.FormattedKeeps` and the
  constructors.
- Link counts and generations wrap at 32 bits, as release builds do.
- Where comments and code differ the code is followed: writing no bytes past the end of a file does nothing, and opening
  or linking a slot that was never allocated is not refused.
- A commit may be forced in the middle of an operation to reclaim space. What a crash restores is then the state of that
  commit, which may hold half of the operation. A call made with nothing pending forces none, except where it may release
  before it stores: a rename that changes two pages or replaces the last link of something, and the making of a symbolic
  link in a directory that has a page.
- `Namespaces.Namespace` has the directory cache and keeps an inode's data as one byte sequence, so that no operation
  fails half way. `Filesystems.Filesystem` has the block layer, its errors and its commits, and loads every directory it
  needs. Both are proved against `Trees.Apply`. Directories checked out of the cache are values, changed by the functions
  that `DirPages.CachedDir` is proved to compute.
- A namespace operation that fails with a device or space error ends a session of `NamespaceDisk`: memory may then hold
  half of it. What was committed before is still covered.

## Model

| member | source | states |
|---|---|---|
| `Alloc.BitUpdate` | rust/bloomfs-alloc/src/lib.rs:74-88 | setting or clearing one bit of a word array changes that bit and no other |
| `Alloc.CountFlip` | rust/bloomfs-alloc/src/lib.rs:91-101 | flipping one bit changes the number of set bits by one |
| `Alloc.BitmapRoundTrip` | rust/bloomfs-alloc/src/lib.rs:199-243 | unmarshalling a marshalled bitmap gives back its words |
| `Alloc.UnmarshalChecks` | rust/bloomfs-alloc/src/lib.rs:223-243 | any bytes give a bitmap exactly when they hold a bit for every block |
| `Alloc.Bitmap.constructor` | rust/bloomfs-alloc/src/lib.rs:65-71 | a new bitmap has nothing set and nothing deferred |
| `Alloc.Bitmap.Load` | rust/bloomfs-alloc/src/lib.rs:223-243 | a loaded bitmap has the given words and counts its set bits |
| `Alloc.Bitmap.SetBit` | rust/bloomfs-alloc/src/lib.rs:80-83 | one bit is set, counted if it was clear, and no other changes |
| `Alloc.Bitmap.ClearBit` | rust/bloomfs-alloc/src/lib.rs:85-88 | one bit is cleared, counted if it was set, and no other changes |
| `Alloc.Bitmap.Reserve` | rust/bloomfs-alloc/src/lib.rs:91-101 | exactly the run is marked, `used` stays the number of set bits |
| `Alloc.Bitmap.Alloc` | rust/bloomfs-alloc/src/lib.rs:104-132 | returns the least start of a free run of the length, marks it and nothing else; NoSpace exactly when there is none; ZeroCount exactly for zero |
| `Alloc.Bitmap.Free` | rust/bloomfs-alloc/src/lib.rs:135-144 | exactly the run is cleared, `used` stays the number of set bits |
| `Alloc.Bitmap.Defer` | rust/bloomfs-alloc/src/lib.rs:149-155 | the range is queued and stays set |
| `Alloc.Bitmap.ApplyDeferred` | rust/bloomfs-alloc/src/lib.rs:158-163 | exactly the queued ranges are cleared and the queue is empty |
| `Alloc.Bitmap.MarshalInto` | rust/bloomfs-alloc/src/lib.rs:199-214 | writes the encoding at the front of a buffer and nothing behind it |
| `Dedup.RecordRoundTrip` | rust/bloomfs-dedup/src/lib.rs:122-143 | a record decodes to the key and entry it encodes |
| `Dedup.TableRoundTrip` | rust/bloomfs-dedup/src/lib.rs:115-190 | a table decodes to itself in whatever order its entries were written |
| `Dedup.UnmarshalLast` | rust/bloomfs-dedup/src/lib.rs:152-190 | any bytes give a table exactly when they hold the records they announce; a key has the last record written for it |
| `Dedup.Table.Add` | rust/bloomfs-dedup/src/lib.rs:71-75 | the entry is there with one reference |
| `Dedup.Table.Incr` | rust/bloomfs-dedup/src/lib.rs:77-85 | one more reference if present, else nothing |
| `Dedup.Table.Decr` | rust/bloomfs-dedup/src/lib.rs:90-101 | one reference fewer; the last one removes the entry and returns it |
| `Dedup.Table.MarshalInto` | rust/bloomfs-dedup/src/lib.rs:122-143 | writes the encoding in some order of the entries and nothing behind it |
| `Inodes.InodeRoundTrip` | rust/bloomfs-inode/src/lib.rs:142-199 | the 128-byte encoding decodes to the inode |
| `Inodes.TableRoundTrip` | rust/bloomfs-inode/src/lib.rs:297-335 | a table decodes to its slots up to the high-water mark, the rest blank |
| `Inodes.UnmarshalChecks` | rust/bloomfs-inode/src/lib.rs:321-335 | any bytes give a table exactly when they are a whole number of inodes within the capacity; each failure has its error |
| `Inodes.BlankZero` | rust/bloomfs-inode/src/lib.rs:142-165 | a slot never written is all zero bytes |
| `Inodes.Table.Put` | rust/bloomfs-inode/src/lib.rs:283-295 | one slot is replaced and the high-water mark covers it; out of range is an error |
| `Inodes.Table.MarshalInto` | rust/bloomfs-inode/src/lib.rs:297-309 | writes the slots up to the high-water mark and nothing behind them |
| `Uber.UberRoundTrip` | rust/bloomfs-cow/src/lib.rs:143-205 | a sealed uberblock fills a block and parses to itself |
| `Uber.ParseChecks` | rust/bloomfs-cow/src/lib.rs:177-205 | any bytes parse exactly when they fill a block, start with the magic number and carry the hash of what precedes it |
| `Store.ReadFrame` | rust/bloomfs-store/src/lib.rs:265-293 | reading a ref depends only on the blocks it covers |
| `Store.ReadBack` | rust/bloomfs-store/src/lib.rs:225-293 | clusters written for a text decode to that text, compressed or raw, encrypted or not |
| `Store.ClustersLeast` | rust/bloomfs-store/src/lib.rs:306-309 | a payload takes the least positive number of clusters that holds it |
| `Store.PackShortest` | rust/bloomfs-store/src/lib.rs:225-231 | what is stored is the shorter of the text and its compression, the text itself on a tie, and it is marked raw exactly then; only the compressor can fail |
| `Store.PaddedZero` | rust/bloomfs-store/src/lib.rs:236-239 | the rest of the last cluster is zero before encryption |
| `Store.ReadChecked` | rust/bloomfs-store/src/lib.rs:265-293 | a read returns a text exactly when the clusters decode to it and it has the length and the hash of the ref; each of the failing checks has its error exactly when it fails |
| `Store.RefRoundTrip` | rust/bloomfs-store/src/lib.rs:111-134 | the 53 bytes of a ref decode to it, whatever fills the rest of the 64-byte field |
| `Snapshot.SnapshotRoundTrip` | rust/bloomfs-cow/src/lib.rs:275-289 | a slot holding the concatenated snapshot, with anything behind it, loads to the bitmap, dedup table and inode table |
| `Snapshot.SlotSuffices` | rust/bloomfs-cow/src/lib.rs:211-224 | the slot sized by format holds any snapshot whose dedup table is within its reserve, although the bitmap is sized in bytes and written in words |
| `Snapshot.SlotTight` | rust/bloomfs-cow/src/lib.rs:211-224 | and the slot has no block more than the sizes add up to |
| `Snapshot.FreshFits` | rust/bloomfs-cow/src/lib.rs:217-259 | the first snapshot fits its slot |
| `Snapshot.LoadFrame` | rust/bloomfs-cow/src/lib.rs:275-289 | loading depends only on the active slot |
| `Snapshot.BestWins` | rust/bloomfs-cow/src/lib.rs:264-273 | mount finds no uberblock exactly when neither slot parses; else it takes one that parses, and none that does has a higher sequence number |
| `Snapshot.Serialize` | rust/bloomfs-cow/src/lib.rs:334-355 | the buffer carries the three tables one after the other, over stale contents |
| `Machine.CrashRecovers` | rust/bloomfs-cow/src/lib.rs:263-290 | in every state of the invariant, every crash image mounts to the last commit or the one in flight, with all its texts readable |
| `Machine.HitKeeps` | rust/bloomfs-store/src/lib.rs:217-223 | taking one more reference keeps the invariant |
| `Machine.BeginKeeps` | rust/bloomfs-store/src/lib.rs:225-234 | claiming free clusters for a new block keeps the invariant |
| `Machine.PutKeeps` | rust/bloomfs-store/src/lib.rs:236-250 | writing a claimed cluster touches nothing the last commit or a live entry owns |
| `Machine.PutFailKeeps` | rust/bloomfs-store/src/lib.rs:246-249 | giving the clusters back after a failed write keeps the invariant |
| `Machine.FinishKeeps` | rust/bloomfs-store/src/lib.rs:252-261 | adding the entry keeps the invariant; its clusters decode to its text |
| `Machine.DropKeeps` | rust/bloomfs-store/src/lib.rs:299-303 | the last release defers the clusters, so what the last commit owns stays set |
| `Machine.CommitBeginKeeps` | rust/bloomfs-cow/src/lib.rs:309-356 | starting a commit keeps the invariant |
| `Machine.MetaPutKeeps` | rust/bloomfs-cow/src/lib.rs:357-362 | writing the inactive slot never touches the active one |
| `Machine.MetaSyncKeeps` | rust/bloomfs-cow/src/lib.rs:363-365 | after the first sync the new snapshot is durable before its uberblock is written |
| `Machine.UberPutKeeps` | rust/bloomfs-cow/src/lib.rs:370-375 | the uberblock goes to the slot that does not hold the last commit |
| `Machine.CommitEndKeeps` | rust/bloomfs-cow/src/lib.rs:315-320 | applying the deferred frees after the flip frees no cluster of the new base or of a live entry |
| `Machine.CrashKeeps` | rust/bloomfs-cow/src/lib.rs:263-290 | a power failure and mount lead to a state of the invariant |
| `Machine.StepKeeps` | rust/bloomfs-cow/src/lib.rs:263-375 | every step of the system keeps the pinning invariant |
| `Machine.StepAccounts` | rust/bloomfs-alloc/src/lib.rs:104-163 | every step keeps the account: a cluster is set exactly if it is metadata, live, deferred, being written or leaked by a crash |
| `Machine.RunKeeps` | rust/bloomfs-cow/src/lib.rs:263-375 | both hold in every state of every run |
| `Machine.CrashSafety` | rust/bloomfs-cow/src/lib.rs:263-375 | the whole-run crash theorem |
| `Machine.BaseWasCommitted` | rust/bloomfs-cow/src/lib.rs:299-321 | the last commit is the starting one, or what memory held when some uberblock was being written |
| `Machine.GoodSurvives` | rust/bloomfs-cow/src/lib.rs:263-290 | what clients keep true of every state they commit is true of what any crash leads to |
| `Volumes.Device.ReadBlock` | rust/bloomfs-block/src/lib.rs:69-69 | returns the current block, or an error; a reliable device returns every block it has |
| `Volumes.Device.WriteBlock` | rust/bloomfs-block/src/lib.rs:71-71 | replaces one block until the next sync decides; an error may leave any content behind, and in an uberblock slot the old content, the new one, or one that does not parse; a reliable device makes none |
| `Volumes.Device.Sync` | rust/bloomfs-block/src/lib.rs:75-75 | success makes everything durable; a reliable device succeeds |
| `Volumes.Volume.Hit` | rust/bloomfs-store/src/lib.rs:217-223 | one more reference to a stored block, and its ref |
| `Volumes.Volume.WriteCluster` | rust/bloomfs-store/src/lib.rs:240-250 | one cluster is written, or all clusters of the block are given back |
| `Volumes.Volume.Place` | rust/bloomfs-store/src/lib.rs:236-261 | the block is stored with one reference, or nothing visible changed |
| `Volumes.Volume.Miss` | rust/bloomfs-store/src/lib.rs:225-261 | a new block is stored in the first run that fits, or entries and bitmap are as before; NoSpace exactly when no run is as long as the stored form needs, Compress exactly when the compressor fails, and any other error only from an unreliable device |
| `Volumes.Volume.Write` | rust/bloomfs-store/src/lib.rs:210-262 | the text gains one reference and a ref to it; the entry a new text gets has the length of the shorter of the text and its compression, is raw exactly when that is the text, and takes the least number of clusters for it; NoSpace exactly for a new text for which no run is that long, Compress exactly when the compressor fails, the end of the run exactly when the count is at its limit, and any other error only from an unreliable device; a failed write leaves every entry and the bitmap as before |
| `Volumes.Volume.Read` | rust/bloomfs-store/src/lib.rs:265-293 | what it returns has the hash and the length of the ref; on a reliable device the answer, text or error, is that of `Store.ReadChecked` |
| `Volumes.Volume.ReadLive` | rust/bloomfs-store/src/lib.rs:265-293 | a ref of a live entry reads back its text, always on a reliable device |
| `Volumes.Volume.Release` | rust/bloomfs-store/src/lib.rs:299-303 | one reference fewer; the last one drops the entry and defers its clusters |
| `Volumes.Volume.PutInode` | rust/bloomfs-inode/src/lib.rs:283-295 | the slot changes in memory as a step of the run |
| `Volumes.Volume.SetNextInode` | rust/bloomfs-fs/src/lib.rs:623-628 | the next unused id moves in memory as a step of the run |
| `Volumes.Volume.WriteSnapshot` | rust/bloomfs-cow/src/lib.rs:357-365 | the snapshot is written block by block and synced before the flip |
| `Volumes.Volume.WriteUber` | rust/bloomfs-cow/src/lib.rs:316-320 | flip, sync, and only then apply the frees |
| `Volumes.Volume.BeginCommit` | rust/bloomfs-cow/src/lib.rs:309-356 | the next uberblock names the other slot and the next sequence number |
| `Volumes.Volume.Commit` | rust/bloomfs-cow/src/lib.rs:299-321 | on success the last commit is what memory held and nothing is deferred; MetaTooBig exactly when the snapshot does not fit while the sequence number has room, and then nothing changed; on a reliable device the only other failure is the sequence number at its limit, so every other commit succeeds |
| `Volumes.Volume.WriteOrReclaim` | rust/bloomfs-fs/src/lib.rs:589-605 | a commit is taken only when the text is new, finds no room and frees are pending; when the store then succeeds it holds what memory held before; when NoSpace is returned nothing is pending and no run is long enough, even after every deferred range has been released; every error has its cause |
| `Volumes.FormatStarts` | rust/bloomfs-cow/src/lib.rs:211-259 | a formatted image is a state runs may start from |
| `Volumes.Format` | rust/bloomfs-cow/src/lib.rs:211-259 | leads to an empty filesystem with both slots of the computed size; DeviceTooSmall exactly when they do not fit; on a reliable device nothing else fails |
| `Volumes.ReadBest` | rust/bloomfs-cow/src/lib.rs:264-273 | picks the valid uberblock with the higher sequence number |
| `Volumes.LoadSnapshot` | rust/bloomfs-cow/src/lib.rs:263-290 | loads what the specification of mount says, unless the device fails; a reliable one fails only past its end |
| `Volumes.PowerLoss` | rust/bloomfs-block/src/lib.rs:74-75 | whatever image a power failure may leave becomes what the device holds |
| `Volumes.Remount` | rust/bloomfs-cow/src/lib.rs:263-290 | after a power failure only a device error can stop the mount, and on a reliable device nothing does; the volume goes on as a run |
| `Records.RecordSizeIsShift` | rust/bloomfs-fs/src/lib.rs:305-312 | the chosen record size is two to the stored exponent |
| `Records.RecordSizeGrows` | rust/bloomfs-fs/src/lib.rs:305-312 | the exponent reaches 13, 14 and 15 exactly at sizes of 32 KiB, 256 KiB and 2 MiB |
| `Records.JoinRecords` | rust/bloomfs-fs/src/lib.rs:315-325 | joining the records of a blob gives the blob |
| `Records.SplitJoined` | rust/bloomfs-fs/src/lib.rs:315-325 | texts of record lengths are the records of their join |
| `Records.OverlayIsRecord` | rust/bloomfs-fs/src/lib.rs:1252-1264 | read-modify-write of one record gives that record of the spliced contents |
| `Records.CarriedRecord` | rust/bloomfs-fs/src/lib.rs:1245-1251 | a record the write does not touch is a record of the spliced contents as it is |
| `Records.ResizeCuts` | rust/bloomfs-fs/src/lib.rs:1293-1300 | byte by byte: the new size, the old bytes up to it, zeros behind them |
| `Records.SliceParts` | rust/bloomfs-fs/src/lib.rs:1172-1192 | byte by byte: as many bytes from the offset on as are asked for and are there |
| `Records.SplicePlaces` | rust/bloomfs-fs/src/lib.rs:1217-1235 | byte by byte: the data at the offset, zeros in a gap before it, the old bytes elsewhere |
| `Records.DecodeChecks` | rust/bloomfs-fs/src/lib.rs:337-350 | any bytes give a block map exactly when they hold the refs they announce |
| `Records.RefsRoundTrip` | rust/bloomfs-fs/src/lib.rs:328-350 | a block-map blob decodes to its refs |
| `FileView.ContentIs` | rust/bloomfs-fs/src/lib.rs:639-648 | the contents have the inode's size and the refs hold its records |
| `FileView.DataFrame` | rust/bloomfs-fs/src/lib.rs:720-729 | an inode's contents depend only on the blocks it holds |
| `FileView.ReplaceInode` | rust/bloomfs-fs/src/lib.rs:653-717 | replacing one inode while the counts follow its keys keeps all others, and the surplus of every count |
| `Files.Files.BsWrite` | rust/bloomfs-fs/src/lib.rs:589-605 | stores a text and counts it once, moving no stored block; a commit is taken only when a new text finds no room and frees are pending, and holds what memory held before; every error has its cause |
| `Files.Files.LoadRefs` | rust/bloomfs-fs/src/lib.rs:639-648 | the records in order, from the inline ref or the block map |
| `Files.Files.GetData` | rust/bloomfs-fs/src/lib.rs:720-729 | the whole contents, always on a reliable device |
| `Files.Files.ReadRange` | rust/bloomfs-fs/src/lib.rs:1172-1192 | reading only the overlapped records gives the slice of the contents, always on a reliable device |
| `Files.Files.StoreRefs` | rust/bloomfs-fs/src/lib.rs:653-673 | the inode's refs become the given ones: no map for none, inline for one, in a blob for more |
| `Files.Files.ReleaseRefs` | rust/bloomfs-fs/src/lib.rs:678-694 | each ref gives up one reference and no other count moves |
| `Files.Files.WriteRecords` | rust/bloomfs-fs/src/lib.rs:1241-1269 | the new records are those of the spliced contents, untouched ones carried over, and old and new refs balance |
| `Files.Files.WriteAtLocked` | rust/bloomfs-fs/src/lib.rs:1217-1281 | contents become the splice, with a zero-filled gap; the record size is the frozen one, or for an empty file the one chosen for the new size; an error changes no file and can only leave counts too large |
| `Files.Files.SetData` | rust/bloomfs-fs/src/lib.rs:699-717 | contents become the blob, in records of the size chosen for it, new records written before old ones are given up |
| `Files.Files.PutSlot` | rust/bloomfs-fs/src/lib.rs:1368-1373 | a slot takes new attributes or gives its data up; every other inode is as before, and the surplus of every count exactly when the slot holds the same blocks |
| `Files.Files.ReclaimSlot` | rust/bloomfs-fs/src/lib.rs:1351-1365 | the slot is blank with the next generation and holds no reference |
| `Files.Files.ReadAt` | rust/bloomfs-fs/src/lib.rs:1167-1192 | reading is slicing, and byte for byte what `Records.SliceParts` says; fails only with the error for what is not a regular file, or on an unreliable device |
| `Files.Files.WriteAt` | rust/bloomfs-fs/src/lib.rs:1197-1203 | writing is splicing, byte for byte what `Records.SplicePlaces` says, every other file unchanged; fails only with the error for what is not a regular file, or with a store error that has its cause |
| `Files.Files.WriteFile` | rust/bloomfs-fs/src/lib.rs:1148-1154 | the file reads as the data, every other file unchanged; fails only as `WriteAt` does |
| `Files.Files.Truncate` | rust/bloomfs-fs/src/lib.rs:1285-1302 | of the new bytes: as many as asked for, each one the old byte at its place, or zero past the old end; every other file unchanged; fails only as `WriteAt` does |
| `Files.Files.Fsync` | rust/bloomfs-fs/src/lib.rs:565-585 | the last commit is what the files hold now, and a commit was taken; MetaTooBig exactly when the metadata outgrew its slot, and on a reliable device the only other failure is the sequence number at its limit |
| `Files.CoveredCounts` | rust/bloomfs-dedup/src/lib.rs:71-101 | no reference held by an inode of an intact filesystem is uncounted |
| `Files.FilesSurvive` | rust/bloomfs-fs/src/lib.rs:498-516 | after any crash every file is intact and is as in the last commit or the one in flight |
| `Files.MountFiles` | rust/bloomfs-fs/src/lib.rs:498-516 | the mounted filesystem holds such a state and can go on; on a reliable device the mount succeeds |
| `Files.FormatImage` | rust/bloomfs-fs/src/lib.rs:476-479 | a fresh image has every count exact and every file empty, and starts a run; on a reliable device that is not too small it is made |
| `Files.RoomySaves` | rust/bloomfs-cow/src/lib.rs:211-224 | in an image with the slots of a format, metadata without blocks always fit |
| `FileSessions.FormatFs` | rust/bloomfs-fs/src/lib.rs:476-494 | the formatted filesystem holds the empty root directory, with its attributes, and nothing else, in memory and in its last commit, with exact counts; on a reliable device that is not too small it is made |
| `FileSessions.Serve` | rust/bloomfs-fs/src/lib.rs:1148-1302 | any one call does what its operation promises, pages of directories and bare slots included; an error changes no file, has its cause, and only a device or allocator error can leave counts too large; a call other than a sync commits nothing unless frees are pending |
| `FileSessions.SmallCalls` | rust/bloomfs-fs/src/lib.rs:305-350 | no call that leaves its file below 256 GiB is skipped for the width of a field |
| `FileSessions.SessionExact` | rust/bloomfs-dedup/src/lib.rs:71-101 | in every view of a session each count covers its uses, and equals them while no call failed with a device or allocator error |
| `FileSessions.Play` | rust/bloomfs-fs/src/lib.rs:1148-1302 | the code plays any calls of the data layer as such a session; the marks are the points of the run at which the calls are made, and if no call made with frees pending there has a commit in its part of the run, a crash at any point leads to the commit before the session or to a view between two calls, with exact counts; every reply that is an error has its cause, in the states at the marks |
| `FileSessions.HalfDoneNotExact` | rust/bloomfs-fs/src/lib.rs:589-605 | a commit taken after records were stored and before their inode is installed has exact counts only if none were stored |
| `FileSessions.ForcedLeak` | rust/bloomfs-fs/src/lib.rs:589-605 | an input that breaks it: two new records, room for one, frees pending; the second store finds no room and commits, and what it commits has a count that is too large |
| `FileSessions.Round` | rust/bloomfs-fs/src/lib.rs:498-516 | a mount after a power failure, which succeeds on a reliable device, and the session that follows keep this, counts, causes and atomicity, so rounds chain |
| `Bloom.BlockInRange` | rust/bloomfs-bloom/src/lib.rs:69-80 | fastrange maps every 64-bit hash to a block |
| `Bloom.ProbeInRange` | rust/bloomfs-bloom/src/lib.rs:69-92 | every probe is a bit of the word array |
| `Bloom.BlockScales` | rust/bloomfs-bloom/src/lib.rs:69-80 | the block is the hash scaled to the number of blocks, rounded down |
| `Bloom.StrideOdd` | rust/bloomfs-bloom/src/lib.rs:78-78 | the stride is odd, and the high half of the low word or one more |
| `Bloom.EmptyShape` | rust/bloomfs-bloom/src/lib.rs:55-64 | a new filter has the blocks and probes asked for, at least one of each |
| `Bloom.AddedBits` | rust/bloomfs-bloom/src/lib.rs:83-92 | adding sets exactly the probed bits |
| `Bloom.AddedTests` | rust/bloomfs-bloom/src/lib.rs:83-105 | an added key tests true |
| `Bloom.TestStays` | rust/bloomfs-bloom/src/lib.rs:83-105 | a key that tests true does so after any addition |
| `Bloom.TestExact` | rust/bloomfs-bloom/src/lib.rs:83-105 | a filter with some keys added admits a key exactly when each of its probes is a probe of one of them; so it denies all others |
| `Bloom.BlockedFilter.Insert` | rust/bloomfs-bloom/src/lib.rs:83-92 | the word array in place becomes the filter with the key added |
| `Bloom.BlockedFilter.Contains` | rust/bloomfs-bloom/src/lib.rs:94-105 | the incremental probes decide membership as specified |
| `Directories.AppendIndexes` | rust/bloomfs-dir/src/lib.rs:66-73 | appending to a collision chain resolves to the map with the name added, for any hash function |
| `Directories.DropIndexes` | rust/bloomfs-dir/src/lib.rs:94-107 | swap-removal from a chain resolves to the map without the name |
| `Directories.FindIsGet` | rust/bloomfs-dir/src/lib.rs:78-90 | finding through the filter is looking up the map |
| `Directories.SegRemove` | rust/bloomfs-dir/src/lib.rs:94-134 | removes exactly the name; the filter is kept until the removals reach a quarter of the capacity, and is then rebuilt |
| `Directories.Rebuild` | rust/bloomfs-dir/src/lib.rs:124-134 | the new filter admits every live name, and holds the keys of live names only |
| `Directories.Directory.Find` | rust/bloomfs-dir/src/lib.rs:222-230 | the map's answer |
| `Directories.Directory.PushUnique` | rust/bloomfs-dir/src/lib.rs:208-219 | adds an absent name as `Insert` does, to the first segment with room, or to a new one exactly when all are full |
| `Directories.Directory.Insert` | rust/bloomfs-dir/src/lib.rs:182-201 | adds the name exactly when it is in no segment, where `PushUnique` puts it |
| `Directories.Directory.Delete` | rust/bloomfs-dir/src/lib.rs:233-241 | removes the name exactly when present |
| `Directories.Directory.Len` | rust/bloomfs-dir/src/lib.rs:244-246 | the number of names |
| `Directories.Directory.Entries` | rust/bloomfs-dir/src/lib.rs:264-277 | every binding once |
| `DirPages.PageRoundTrip` | rust/bloomfs-fs/src/lib.rs:358-399 | a page decodes to its entries and the bytes they occupy |
| `DirPages.EncodeDirPage` | rust/bloomfs-fs/src/lib.rs:358-370 | fills the page buffer as specified |
| `DirPages.DecodeDirPage` | rust/bloomfs-fs/src/lib.rs:374-399 | parses any bytes as specified, with its error cases |
| `DirPages.LayoutUnique` | rust/bloomfs-fs/src/lib.rs:200-206 | the pages determine byte counts, name-to-page map and index |
| `DirPages.AddKeeps` | rust/bloomfs-fs/src/lib.rs:261-282 | adding keeps pages, counts, map and index in step, and every page within 4096 bytes |
| `DirPages.DelKeeps` | rust/bloomfs-fs/src/lib.rs:286-299 | deleting keeps them in step and removes exactly that name |
| `DirPages.RemovedAt` | rust/bloomfs-fs/src/lib.rs:292-294 | only the deleted entry leaves its page, and the others keep their order |
| `DirPages.CachedDir.Add` | rust/bloomfs-fs/src/lib.rs:261-282 | the index and the first page with room change as specified |
| `DirPages.CachedDir.Del` | rust/bloomfs-fs/src/lib.rs:286-299 | the index and the name's page change as specified |
| `DirPages.FlushNext` | rust/bloomfs-fs/src/lib.rs:825-833 | writing one page at its offset leaves the others, whatever the order |
| `DirPages.FlushEnd` | rust/bloomfs-fs/src/lib.rs:825-833 | once the changed pages are written the image is the pages |
| `DirPages.LoadLayout` | rust/bloomfs-fs/src/lib.rs:736-765 | loads any bytes as specified, page by page |
| `DirPages.Reloads` | rust/bloomfs-fs/src/lib.rs:736-765 | reloading a stored directory gives back its layout |
| `DirPages.ReadPages` | rust/bloomfs-fs/src/lib.rs:840-855 | the flat list of any stored bytes |
| `DirPages.ListingLists` | rust/bloomfs-fs/src/lib.rs:904-915 | the flat list has every binding once |
| `DirPages.ListingOrder` | rust/bloomfs-fs/src/lib.rs:840-855 | the flat list has every entry at its place in page order, and nothing else |
| `DirectoryFiles.PageIsRecord` | rust/bloomfs-fs/src/lib.rs:54-57 | a stored directory has one ref per page, and the ref stands for exactly the page's bytes |
| `DirectoryFiles.FlushDir` | rust/bloomfs-fs/src/lib.rs:825-833 | the dirty pages are written in any order; the inode then holds the pages, keeps its record size, or gets the page size if it was empty; other inodes are untouched; a single dirty page commits nothing unless frees are pending; every error has its cause |
| `DirectoryFiles.MakeEdits` | rust/bloomfs-fs/src/lib.rs:261-299 | each edit opens at most one page and marks what it changes |
| `DirectoryFiles.EditDir` | rust/bloomfs-fs/src/lib.rs:784-797 | after the flush of an operation every page is one record again, and the surplus of every count is as before; every error has its cause |
| `DirectoryFiles.DirSession` | rust/bloomfs-fs/src/lib.rs:825-833 | so it is through any number of flushes, until one fails, and that error has its cause, or the directory outgrows its block map, exactly as its fields say: it holds the names the edits of the completed flushes say, and the surplus of every count is as before; other inodes are untouched in any case |
| `Trees.CreateKeeps` | rust/bloomfs-fs/src/lib.rs:1081-1113 | creating a node keeps the namespace invariant |
| `Trees.UnlinkKeeps` | rust/bloomfs-fs/src/lib.rs:1307-1327 | unlinking keeps it |
| `Trees.RmdirKeeps` | rust/bloomfs-fs/src/lib.rs:1330-1348 | removing an empty directory keeps it |
| `Trees.LinkKeeps` | rust/bloomfs-fs/src/lib.rs:1407-1421 | a link is made exactly when its guards pass, and keeps the invariant, full or loose, exactly when the target is then live and its count does not wrap |
| `Trees.LinkFreeSlot` | rust/bloomfs-fs/src/lib.rs:1407-1421 | an input that breaks it: a slot never allocated is given a name |
| `Trees.OpenKeeps` | rust/bloomfs-fs/src/lib.rs:1510-1517 | opening keeps the invariant, full or loose, exactly when the id is live, out of range, or not a regular file |
| `Trees.OpenFreeSlot` | rust/bloomfs-fs/src/lib.rs:1510-1517 | an input that breaks it: a slot never allocated opens as a regular file |
| `Trees.CloseKeeps` | rust/bloomfs-fs/src/lib.rs:1528-1548 | closing any id keeps the invariant exactly when the id is open, out of range, or still linked |
| `Trees.MoveKeepsAcyclic` | rust/bloomfs-fs/src/lib.rs:1457-1505 | moving a directory outside its own subtree keeps the graph acyclic |
| `Trees.NoCycle` | rust/bloomfs-fs/src/lib.rs:1457-1505 | in such a graph no directory is below itself |
| `Trees.RenameKeeps` | rust/bloomfs-fs/src/lib.rs:1425-1505 | a rename keeps the invariant exactly when it replaces no directory, or an empty one on its last link |
| `Trees.RenameOverDirectory` | rust/bloomfs-fs/src/lib.rs:1425-1443 | an input that breaks it: one empty directory renamed over another |
| `Trees.RenameKeepsGraph` | rust/bloomfs-fs/src/lib.rs:1425-1505 | every rename keeps the graph acyclic and gives no directory a second name |
| `Trees.RenameKeepsForest` | rust/bloomfs-fs/src/lib.rs:1425-1505 | a rename keeps the loose invariant exactly when it does not recycle the directory it moves out of |
| `Trees.RenameOverSource` | rust/bloomfs-fs/src/lib.rs:1425-1505 | an input that breaks it: an entry renamed over its own parent directory, whose link count had fallen |
| `Trees.EverythingReached` | rust/bloomfs-fs/src/lib.rs:1457-1505 | every directory is under the root |
| `Trees.LiveIff` | rust/bloomfs-fs/src/lib.rs:1307-1365 | an id is in use exactly while it is the root, has a name or is open |
| `Trees.FormattedKeeps` | rust/bloomfs-fs/src/lib.rs:476-494 | a fresh filesystem satisfies the invariant |
| `Trees.RebuildFree` | rust/bloomfs-fs/src/lib.rs:1553-1563 | the scan yields the specified list |
| `Trees.FreeSlotsAre` | rust/bloomfs-fs/src/lib.rs:1553-1563 | that list has each slot without links once, and no other |
| `Trees.RemountKeeps` | rust/bloomfs-fs/src/lib.rs:1553-1563 | mounting keeps the invariant, full or loose, exactly when the scan up to the table count meets no live slot without links and misses no slot that is free |
| `Trees.RoundTripLowers` | rust/bloomfs-fs/src/lib.rs:1330-1348 | making a directory, moving it elsewhere and removing it there costs the destination one link |
| `Trees.MountFreesDirectory` | rust/bloomfs-fs/src/lib.rs:1553-1563 | an input that breaks it: after two such round trips a live directory is on the free list |
| `Trees.SessionKeeps` | rust/bloomfs-fs/src/lib.rs:1081-1548 | the full invariant, and every directory under the root, in every state of every session whose renames replace no directory in use |
| `Trees.SessionForest` | rust/bloomfs-fs/src/lib.rs:1081-1548 | no cycle and no directory with two names in every state of every session whose renames do not recycle the directory they move out of; renames over other directories in use are included |
| `Trees.HandlesCounted` | rust/bloomfs-fs/src/lib.rs:1510-1548 | in every state of a session the open count is the number of handles opened and not closed, and while there is one the inode stays |
| `Trees.ApplyAges` | rust/bloomfs-fs/src/lib.rs:1351-1365 | a generation goes up, modulo its width, exactly when its slot is freed |
| `Trees.IssuedOnce` | rust/bloomfs-fs/src/lib.rs:619-629 | no id is issued twice under one generation unless the slot is freed 2^32 times in between |
| `Namespaces.Namespace.constructor` | rust/bloomfs-fs/src/lib.rs:476-494 | a fresh namespace |
| `Namespaces.Namespace.Mount` | rust/bloomfs-fs/src/lib.rs:498-516 | the mounted tree has the stored names and the rebuilt free list, whatever was stored; it keeps the invariant of the stored one, full or loose, exactly when the scan finds what is free |
| `Namespaces.Namespace.CacheInsert` | rust/bloomfs-fs/src/lib.rs:234-249 | the new entry is there under the next tick; the cache never exceeds its capacity; at most one entry goes, an oldest one, and only from a cache full of others |
| `Namespaces.Namespace.Oldest` | rust/bloomfs-fs/src/lib.rs:236-243 | an entry with the least tick |
| `Namespaces.Namespace.LoadDir` | rust/bloomfs-fs/src/lib.rs:736-765 | loads exactly the layout the directory was stored from |
| `Namespaces.Namespace.CheckoutDir` | rust/bloomfs-fs/src/lib.rs:772-780 | the same from the cache as from the store; it leaves the cache and nothing else does |
| `Namespaces.Namespace.FlushDir` | rust/bloomfs-fs/src/lib.rs:825-833 | the stored bytes become the pages, in any order of the dirty ones |
| `Namespaces.Namespace.CommitDir` | rust/bloomfs-fs/src/lib.rs:786-792 | store and cache agree with the changed directory, which is resident while the cache is on |
| `Namespaces.Namespace.CachePeek` | rust/bloomfs-fs/src/lib.rs:808-821 | what loading would give, which is then resident and newest, or None with the cache off |
| `Namespaces.Namespace.DirSubtreeContains` | rust/bloomfs-fs/src/lib.rs:867-881 | in any forest it terminates without a visited set and returns true exactly when the target is reachable |
| `Namespaces.WalkNext` | rust/bloomfs-fs/src/lib.rs:867-881 | no directory is pushed twice |
| `Namespaces.ListedNames` | rust/bloomfs-fs/src/lib.rs:904-915 | the names of the flat list are those of the directory, once each, in page order |
| `Namespaces.Namespace.Lookup` | rust/bloomfs-fs/src/lib.rs:886-901 | the directory's map, with the cache on or off |
| `Namespaces.Namespace.Readdir` | rust/bloomfs-fs/src/lib.rs:904-915 | no name twice, exactly the names of the directory, as many as it has, in page order, with the cache on or off; fails only for what is not a directory |
| `Namespaces.Namespace.AllocInode` | rust/bloomfs-fs/src/lib.rs:619-629 | the id freed last, or the next unused one, or NoInodes |
| `Namespaces.Namespace.CreateNode` | rust/bloomfs-fs/src/lib.rs:1081-1113 | tree, pages and reply are the specified ones, everything stays valid, and the data behind open handles is untouched |
| `Namespaces.Namespace.Unlink` | rust/bloomfs-fs/src/lib.rs:1307-1327 | likewise |
| `Namespaces.Namespace.Rmdir` | rust/bloomfs-fs/src/lib.rs:1330-1348 | likewise |
| `Namespaces.Namespace.Recycle` | rust/bloomfs-fs/src/lib.rs:1351-1365 | the slot is blank, on the free list and out of the cache |
| `Namespaces.Namespace.Link` | rust/bloomfs-fs/src/lib.rs:1407-1421 | tree, pages and reply are the specified ones for every target; the loose invariant is kept as `Trees.LinkKeeps` says |
| `Namespaces.Namespace.RenameOverwrite` | rust/bloomfs-fs/src/lib.rs:1425-1443 | drops what the destination names, unless it is the same inode |
| `Namespaces.Namespace.Rename` | rust/bloomfs-fs/src/lib.rs:1457-1505 | tree, pages and reply are the specified ones, within one directory and between two, directories in use replaced included |
| `Namespaces.Namespace.Open` | rust/bloomfs-fs/src/lib.rs:1510-1517 | one more open handle, for every id; the loose invariant is kept as `Trees.OpenKeeps` says |
| `Namespaces.Namespace.Close` | rust/bloomfs-fs/src/lib.rs:1528-1548 | one handle fewer, for every id; the last recycles an inode without names |
| `Namespaces.Namespace.SetDirCache` | rust/bloomfs-fs/src/lib.rs:533-539 | toggling the cache changes nothing else |
| `Namespaces.CacheMirrors` | rust/bloomfs-fs/src/lib.rs:772-821 | a resident directory is what loading would build |
| `Namespaces.Lockstep` | rust/bloomfs-fs/src/lib.rs:772-915 | two namespaces that start alike answer every script alike, whatever their caches |
| `Filesystems.Filesystem.Fresh` | rust/bloomfs-fs/src/lib.rs:476-494 | a formatted filesystem stores the tree with an empty root |
| `Filesystems.Filesystem.Mount` | rust/bloomfs-fs/src/lib.rs:498-516 | the mounted tree has the stored names and the rebuilt free list; it keeps the invariant of the stored one, full or loose, exactly when the scan finds what is free |
| `Filesystems.Filesystem.LoadDir` | rust/bloomfs-fs/src/lib.rs:736-765 | loads exactly the layout the directory was stored from, through its records; only an unreliable device can fail |
| `Filesystems.Filesystem.DirSubtreeContains` | rust/bloomfs-fs/src/lib.rs:867-881 | reading directories from the device, returns true exactly when the target is reachable; only an unreliable device can fail |
| `Filesystems.Filesystem.StoreDir` | rust/bloomfs-fs/src/lib.rs:786-833 | the changed pages are on the block layer, every other inode and directory is as before, and the surplus of every count too; every error has its cause |
| `Filesystems.Filesystem.AllocInode` | rust/bloomfs-fs/src/lib.rs:619-629 | the id freed last, or the next unused one, or NoInodes; commits nothing |
| `Filesystems.Filesystem.Recycle` | rust/bloomfs-fs/src/lib.rs:1351-1365 | the slot is blank, on the free list, and its data are released |
| `Filesystems.Filesystem.CreateNode` | rust/bloomfs-fs/src/lib.rs:1081-1113 | the disk stores the tree after the operation, the new inode has its kind, mode and times and no data, files in use keep their data, and counts move with their uses unless the slot still held data; with nothing pending no commit is taken, even on failure; every error has its cause |
| `Filesystems.Filesystem.Unlink` | rust/bloomfs-fs/src/lib.rs:1307-1327 | likewise |
| `Filesystems.Filesystem.Rmdir` | rust/bloomfs-fs/src/lib.rs:1330-1348 | likewise |
| `Filesystems.Filesystem.Link` | rust/bloomfs-fs/src/lib.rs:1407-1421 | likewise |
| `Filesystems.Filesystem.Rename` | rust/bloomfs-fs/src/lib.rs:1457-1505 | likewise, within one directory and between two, over files and over directories; with nothing pending no commit is taken by a rename that changes one page and recycles nothing |
| `Filesystems.Filesystem.Open` | rust/bloomfs-fs/src/lib.rs:1510-1517 | one more open handle |
| `Filesystems.Filesystem.Close` | rust/bloomfs-fs/src/lib.rs:1528-1548 | one handle fewer; the last releases the data of an inode without names |
| `Filesystems.Filesystem.Symlink` | rust/bloomfs-fs/src/lib.rs:1127-1135 | a new link whose data are the target, with its mode and times; an empty target is refused; with nothing pending no commit is taken if the link is refused or its directory had no page; every error has its cause |
| `Filesystems.Filesystem.Edit` | rust/bloomfs-fs/src/lib.rs:1081-1548 | any one operation: tree, pages and reply are those of the specification, and the disk stores them; the loose invariant is kept as the lemmas of `Trees` say; every error has its cause |
| `Filesystems.Filesystem.Serve` | rust/bloomfs-fs/src/lib.rs:1148-1302 | a call on data leaves tree and directories as they are; every error has its cause |
| `NamespaceDisk.PlayOne` | rust/bloomfs-fs/src/lib.rs:1081-1548 | one call of a session does what its specification says; a commit falls inside it only if the state before it lets it, and otherwise a crash inside it leads to the last commit or to what held before it; a call that is not completed has its cause |
| `NamespaceDisk.Play` | rust/bloomfs-fs/src/lib.rs:1081-1548 | so over any calls, up to the first that is not completed; the marks are the points of the run at which the calls are made, and if none that may commit there has a commit in its part of the run, a crash at any point leads to a scene between two calls or to the commit before the session, and after a sync to no earlier scene than its own; the call it stops at, if any, has its cause: the device, no room with nothing pending, the compressor, the metadata slot, or a field at its limit |
| `NamespaceDisk.SmallCalls` | rust/bloomfs-fs/src/lib.rs:305-399 | no call on directories and data below 256 GiB, with names that fit a page, ends a session by its size |
| `NamespaceDisk.SessionTrees` | rust/bloomfs-fs/src/lib.rs:1081-1548 | the tree of every scene is what the calls make of the first |
| `NamespaceDisk.SessionInv` | rust/bloomfs-fs/src/lib.rs:1081-1548 | every scene satisfies the namespace invariant when the renames replace no directory in use |
| `NamespaceDisk.SessionExact` | rust/bloomfs-fs/src/lib.rs:1081-1548 | in every scene each count is exactly the number of its uses and free slots hold no data, when no data call fails half way or names a free slot |
| `NamespaceDisk.NamespaceSurvives` | rust/bloomfs-fs/src/lib.rs:498-516 | at any point of such a session, whatever image a power failure leaves, mount returns the inodes, the directories page by page and the data of one of its scenes |
| `NamespaceDisk.Reopen` | rust/bloomfs-fs/src/lib.rs:498-516 | the filesystem mounted after the failure is that scene with the free list rebuilt, and can go on, under the full invariant or the loose one, exactly when the scan finds what is free; on a reliable device it is mounted |
| `NamespaceDisk.RemountTidy` | rust/bloomfs-fs/src/lib.rs:1553-1563 | after a mount the free slots hold no data exactly when no live inode without links did |
| `NamespaceDisk.ReuseLeaks` | rust/bloomfs-fs/src/lib.rs:1089-1100 | making an inode in a slot keeps counts in step with their uses exactly when the slot held no data |
| `NamespaceDisk.OrphanUntidy` | rust/bloomfs-fs/src/lib.rs:1553-1563 | an input that breaks it: a file unlinked while open, then mounted; the next inode is made over its data |
| `NamespaceDisk.FormatSession` | rust/bloomfs-fs/src/lib.rs:476-516 | from an unformatted device: format, which a reliable device that is not too small never refuses, then any calls, up to one that is not completed for a cause; under the same condition on the marks every point after the formatting recovers to a scene, and after a sync to none before it |
| `GlobalFilters.MaskedBy` | globalfilter/filter.go:198-225 | a new tombstone masks a live key exactly when another key has its low word |
| `GlobalFilters.GlobalFilter.Lookup` | globalfilter/filter.go:111-134 | a resident directory answers its map; a cold one too, unless the name's low word is tombstoned, and exactly then |
| `GlobalFilters.GlobalFilter.MarkResident` | globalfilter/filter.go:139-143 | the directory becomes resident; contents and the residency of others are unchanged |
| `GlobalFilters.GlobalFilter.Evict` | globalfilter/filter.go:147-153 | the directory becomes cold; contents and the residency of others are unchanged |
| `GlobalFilters.GlobalFilter.Create` | globalfilter/filter.go:177-194 | the map gains the name exactly when absent, and the filter its key and no other; a filter without masked names stays so |
| `GlobalFilters.GlobalFilter.Unlink` | globalfilter/filter.go:198-225 | the map loses the name; the tombstones afterwards are given in every case; a filter without masked names stays so exactly when no other live key has the low word, or the tombstones reach the threshold |
| `GlobalFilters.GlobalFilter.Rebuild` | globalfilter/filter.go:237-253 | every live key is admitted, the filter holds live keys only, and no tombstone is left |
| `GlobalFilters.GlobalFilter.Serve` | globalfilter/filter.go:111-253 | every call has its meaning on the maps, the tombstones and the resident set as values |
| `GlobalFilters.PreciseAnswers` | globalfilter/filter.go:111-134 | cold lookups all answer as the maps exactly when no live name is masked |
| `GlobalFilters.StepPrecise` | globalfilter/filter.go:177-253 | a call keeps that exactly when it does not remove a name whose low word another live one has, short of a rebuild |
| `GlobalFilters.ScriptPrecise` | globalfilter/filter.go:177-253 | every state of a script of calls is so exactly when no call of it masks |
| `GlobalFilters.ScriptAnswers` | globalfilter/filter.go:111-253 | a script that never masks is answered as by plain maps |
| `GlobalFilters.GlobalFilter.Play` | globalfilter/filter.go:111-253 | the code plays any script so |
| `GlobalFilters.MaskedLookup` | globalfilter/filter.go:198-225 | an input that breaks it: two names with one low word, the first removed, the second looked up cold |
| `Gates.Gate.constructor` | globalfilter/gate.go:48-59 | an empty gate with room for twice the names, or for the least number |
| `Gates.Gate.Add` | globalfilter/gate.go:77-84 | the name is recorded, whether or not it was, and completeness kept; the filter has its key and nothing else new |
| `Gates.Gate.Remove` | globalfilter/gate.go:88-94 | the name is taken out, whether or not it was recorded; completeness is kept exactly when no other live name has the low word |
| `Gates.Gate.MayHold` | globalfilter/gate.go:99-108 | admits a name exactly when the filter does and its low word is not tombstoned; so a complete gate never denies a live name |
| `Gates.GateRoundTrip` | globalfilter/gate.go:126-168 | a snapshot decodes to the gate, in any order of the tombstones |
| `Gates.SaveGate` | globalfilter/gate.go:126-144 | writes bytes that parse back to the gate |
| `Gates.LoadGate` | globalfilter/gate.go:147-168 | parses any bytes as specified, with its error cases |
| `GateSnapshots.StampsAreFinal` | fs/fs.go:486-504 | through any commits, failed commits and mounts a sequence number never comes back with other names |
| `GateSnapshots.SnapshotServes` | fs/fs.go:342-371 | a snapshot stamped now is sound at every mount of every later history exactly when its gate is complete for the names committed now |
| `GateSnapshots.FewerNamesComplete` | fs/fs.go:353-355 | uncommitted additions do no harm |
| `GateSnapshots.UncommittedUnlink` | fs/fs.go:353-371 | an input that breaks it: a removal not yet committed, a snapshot, a crash |
| `GatedFilesystem.GatedFs.constructor` | fs/fs.go:320-338 | the mounted gate follows the tree and is complete exactly when the snapshot, if taken, is complete for the mounted names |
| `GatedFilesystem.GatedFs.InstallGate` | fs/fs.go:342-351 | a snapshot that passes the stamp is taken as it is, anything else makes the walk; the gate is complete exactly when the snapshot was sound |
| `GatedFilesystem.GatedFs.SnapshotGate` | fs/fs.go:356-371 | the snapshot serves every later mount exactly when the gate is complete for the committed names, as it is when no removal is uncommitted |
| `GatedFilesystem.GatedFs.Walk` | fs/fs.go:395-413 | gathers each name of the directories it newly sees once; it sees all their children, and nothing the root does not reach |
| `GatedFilesystem.GatedFs.FillGate` | fs/fs.go:414-423 | the gate holds the names given, its filter exactly their keys; it masks none and needs no rebuild |
| `GatedFilesystem.GatedFs.WalkBuildGate` | fs/fs.go:390-423 | the built gate holds only live names, all of them exactly when every directory with names can be reached from the root; it masks none and needs no rebuild |
| `GatedFilesystem.GatedFs.Create` | fs/fs.go:1086-1087 | the gate follows the new name and stays complete |
| `GatedFilesystem.GatedFs.Link` | fs/fs.go:1556-1558 | likewise, for every target |
| `GatedFilesystem.GatedFs.Unlink` | fs/fs.go:1408-1412 | the gate follows; it stays complete exactly when no other live name has the low word |
| `GatedFilesystem.GatedFs.Rmdir` | fs/fs.go:1454-1455 | likewise |
| `GatedFilesystem.GatedFs.AddUnstored` | fs/fs.go:1086-1095 | a flush that fails after the gate was told of a new name leaves the gate as complete as it was |
| `GatedFilesystem.GatedFs.RemoveUnstored` | fs/fs.go:1408-1414 | a flush that fails after the gate was told of a removal leaves the stored name hidden from cold lookups |
| `GatedFilesystem.GatedFs.Rename` | fs/fs.go:1642-1672 | the gate follows all three edits, over a directory in use too; it stays complete exactly when no live name has the old name's low word |
| `GatedFilesystem.GatedFs.Commit` | fs/fs.go:494-504 | a failed commit changes no sequence number and leaves its names only as a possibility for the next mount; a successful one records the names, and the gate is rebuilt exactly when it holds more names than its capacity or tombstones than a quarter of it; it follows the tree exactly when it was not rebuilt or no directory with names is cut off |
| `GatedFilesystem.InvRooted` | fs/fs.go:390-423 | under the full invariant none is |
| `GatedFilesystem.RenameCutsOff` | fs/fs.go:1642-1672 | a rename over a directory in use that keeps names cuts it off |
| `GatedFilesystem.RenameOverInUse` | fs/fs.go:1642-1672 | an input that breaks it: "b" renamed over "a", which holds "x" |
| `GatedFilesystem.GatedFs.Lookup` | fs/fs.go:790-812 | with a complete gate a cold lookup is the directory's answer; otherwise it differs exactly for tombstoned low words |
| `GatedFilesystem.GatedFs.Play` | fs/fs.go:790-812 | in any session of operations, lookups and commits every answer is the one of the tree without a gate, while no operation takes a name away from a live one with its low word; commits and mounts follow the history of the disk |

## Left out

- Trees.RenameKeeps: directory link counts are not part of the invariant, because rename between directories does not maintain them.
- Namespaces.Namespace.Rename: required not to recycle the directory it moves out of; `Trees.RenameKeepsForest` shows that this is exactly what keeps the forest, and `Trees.RenameKeepsGraph` what holds even then.
- Namespaces.Namespace.Close: works on the inode id; the flag that makes a second close of one handle a no-op is not modelled.
- NamespaceDisk.NamespaceSurvives: a commit forced inside an operation may hold half of it, and is excluded.
- NamespaceDisk.Play: stops at a call that fails with a device or space error, or would outgrow the width of a field; going on with half an operation in memory is not modelled.
- NamespaceDisk.SessionExact: starts from free slots without data, as formatting leaves them; `NamespaceDisk.RemountTidy` says when a mount does. Data calls on a slot that is not in use are excluded, because they put data there.
- NamespaceDisk.SessionInv: renames over a directory in use are excluded; `Trees.RenameKeeps` shows that they break the invariant.
- Trees.SessionKeeps: likewise.
- Trees.SessionForest: renames that recycle the directory they move out of are excluded; `Trees.RenameKeepsForest` shows that they break it.
- Filesystems.Filesystem.Rename: required not to recycle the directory it moves out of, as for the namespace.
- Filesystems.Filesystem.CreateNode: the directory must have room for one more page within its size fields, and names fit a page.
- Filesystems.Filesystem.LoadDir: always reads the device; that the cache never shows is `Namespaces.Lockstep`.
- GatedFilesystem.GatedFs.Rename: required not to recycle the directory it moves out of, as for the namespace.
- GatedFilesystem.GatedFs.Commit: commits forced inside an operation are not modelled at this level.
- GatedFilesystem.GatedFs.Play: a sync is required to come with no directory with names cut off; `GatedFilesystem.GatedFs.Commit` says what happens otherwise.
- GatedFilesystem.GatedFs.Create: the namespace below does not fail; a flush that does is `GatedFilesystem.GatedFs.AddUnstored`.
- GatedFilesystem.GatedFs.Link: likewise.
- GatedFilesystem.GatedFs.Unlink: the namespace below does not fail; a flush that does is `GatedFilesystem.GatedFs.RemoveUnstored`.
- GatedFilesystem.GatedFs.Rmdir: likewise.
- GatedFilesystem.GatedFs.SnapshotGate: the sequence number is below 2^64.
- Namespaces.Namespace.CreateNode: names are required to fit a page (4082 bytes), as the page encoder demands of its callers; device and space errors in the middle of a namespace operation are not modelled.
- Files.Files.WriteAt: sizes are required to fit the 64-bit size field and the 32-bit count and length fields of the block map.
- FileSessions.Play: calls that would outgrow those fields are skipped, none below 256 GiB (`FileSessions.SmallCalls`); `DirectoryFiles.DirSession` stops at one.
- Volumes.Format: the first uberblock slot must not hold a valid uberblock of an older image, which format does not erase; slots are smaller than 4 GiB, because the source truncates the lengths of larger ones to 32 bits.
- Volumes.Volume.Commit: a failed commit ends the run; going on after one is not modelled.
- GatedFilesystem.GatedFs.Lookup: for an id that is not a directory the gate may answer "absent" where the directory layer reports an error.
- Names are byte strings: the lossy UTF-8 conversion of names read from disk is not modelled.
- Widths of open-handle counts and of the directory index counters are unbounded.
- The Go copies of the allocator, store, dedup, inode and commit code, and the rest of `fs/fs.go`: the same algorithms as the Rust crates.
- Bloom filter tuning and false-positive rates: floating-point estimates.
- Locks and concurrency: every operation runs under one exclusive lock.
- FUSE bindings, command-line tools, and file, raw and unbuffered devices: plumbing around the modelled device.
- Timestamps beyond the data times, permission checks, `stat`, `fallocate`, directory streams and extents: each is settled by reading one branch.
