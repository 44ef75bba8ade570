# ProcessFork in Dafny

ProcessFork captures a running agent as a content-addressed image (model diff,
paged cache, file tree, effect ledger, trace), stores it, ships it through a
registry, and merges two images three ways. This project models the parts where
its promises are decided, each in the form the Rust code has, and proves them.

| files | what they model |
|---|---|
| `Json`, `Base`, `Sorting`, `Cas` | JSON values, digests and hex, stable sorting, the store as a map |
| `PutProtocol`, `SweepRace` | `FsBlobStore::put` as steps of concurrent writers over inodes, alone and while a sweep deletes |
| `DiskStore`, `Manifests` | blob files, markers, image manifests and the references in them |
| `Gc`, `GcLaws` | `pf gc` and why it is safe, exact and idempotent |
| `Registry`, `Transport` | the file registry, pushes cut off in the middle of a file, and what survives a trip through it |
| `Ancestor`, `Meeting`, `Rounds` | the two-frontier search for a common ancestor, which one it returns, and when it is the promised one |
| `Tree`, `WorldMerge`, `WorldMergeLaws`, `WorldMergeAlgebra`, `ConflictFiles` | the three-way merge of file trees, and what it leaves at each path |
| `Ties`, `SignElection`, `TiesLaws`, `TiesValues`, `Diff`, `ModelMerge`, `NamedMerge`, `MergeModel`, `MergedWeights` | DARE, TIES, weight diffs and their merge, and the value of every merged weight |
| `Ledger`, `LedgerFile`, `Proxy` | the HMAC chain, its file format, and concurrent tool calls |
| `Paths`, `FsCapture`, `CaptureText`, `FsRestore` | capturing a directory tree, what its entries say, and rebuilding it, links followed as the kernel does |
| `Ways`, `FsRoundTrip`, `Landing` | where paths lead during a restore, and exactly when a restored capture is the tree that was captured |
| `Placement`, `Containment` | which manifests can be restored, with links in the way or without, and when a restore leaves its root |
| `MergeRestore`, `LinkedMerge` | which merged trees can be restored, and merges restored through links |
| `CacheFormat`, `Cache`, `CacheLaws` | the pager, its manifest, capture and restore |
| `Snapshot` | five concurrent captures joined into one manifest |

`dafny verify dfyconfig.toml` checks everything.

## What is assumed

SHA-256, HMAC-SHA-256, zstd, JSON text, RFC 3339 timestamps, UTF-8 validity and
the output function of SplitMix64 are the fields of `Base.Prim`: arbitrary total
functions. What is relied upon stands in two predicates that appear as
hypotheses where they are needed, and nowhere else:

- `Lawful`: a SHA-256 digest has 32 bytes, decompression undoes compression,
  parsing undoes printing of representable documents (integers of 64 bits, no
  fractions, each member name in one reading: `Json.Representable`), and printed JSON is neither empty
  nor contains a raw line feed (section 7 of RFC 8259).
- `CollisionFree(p, inputs)`: no two of the finitely many byte strings in play
  hash alike. It is never assumed of all byte strings.

Two JSON codecs whose texts nothing inspects (image manifests, weight diffs)
are parameters with a decode-of-encode law for what they can carry: instants that
a timestamp can hold (`Manifests.Timely`), and weights that print exactly
(`Diff.Exact`), as the 32-bit floating-point numbers do. A timestamp that `append` writes is
one that parsing and printing leave as it is. Nothing is assumed about HMAC. A
statement about tampering says which messages the ledger signed
(`Ledger.SignedBy`), and `Ledger.VerifiesOrBreaksPrimitive` drops even that.

## Where the code does not do what one might expect

What is claimed here about results is proved, with the exact condition under
which the expected behaviour does hold; where a condition is only sufficient,
that is said.

- `find_lca` says that if `a` is an ancestor of `b` then `a` is returned
  (crates/pf-merge/src/ancestor.rs:36-38). With a merge node it need not be
  (`Ancestor.MergeHistoryMissesAncestor`), nor is the result always lowest
  (`Ancestor.MergeHistoryNotLowest`). What is returned is exactly the
  common ancestor that both walks, each counted in rounds of its own, have seen
  soonest (`Rounds.LcaIsSoonest`). So an ancestor `a` of `b` is returned if and only
  if the walk from `b` gets to it before both walks have seen some proper ancestor
  of `a` (`Rounds.AncestorReturnedIff`), and the result is lowest if and only if a
  lowest common ancestor comes sooner than every one that is not
  (`Rounds.LowestIffSooner`). Two conditions that need no rounds are proved
  sufficient: no merge nodes, and, with merge nodes allowed anywhere else, that both
  images enter their common past through one image (`Meeting.GateIsReturned`).
- A blob file of a registry is written in place, and one that exists is skipped.
  A push that is cut off inside such a write leaves a file that the retry skips:
  the retry succeeds and every pull fails (`Transport.TornPushSpoilsPulls`), for
  good (`Transport.TornForGood`). After a successful push a pull succeeds if and
  only if every file already there read back before it (`Transport.PushThenPull`).
- `put` keeps a file that is at the digest's place, damaged or not. So a pull can
  report a content-id that its store cannot read (`Transport.DamagedReceiver`);
  each blob arrives if and only if no damaged file lay at its place
  (`Transport.TransportKeepsImageIff`, `Transport.TreeArrivesIff`).
- `put_manifest` keeps a marker of the name that is there, readable or not. The
  image is listed, and survives `pf gc`, if and only if there was none or it
  stands for the same manifest (`DiskStore.PutIsListedIff`, `GcLaws.PutSurvivesGcIff`).
- A restore follows links that it has placed, although
  crates/pf-world/src/fs.rs:332-334 says it never writes through one. A file above
  another kept entry always fails it (`Ways.FileAboveFails`), and so does a link
  above a directory (`Ways.LinkAboveFails`). Where nothing is to be restored through
  a link, a manifest restores if and only if there is neither and no link's target
  leaves the root (`Placement.RestorableIff`). A link above a file decides by where
  it leads: the file may end up behind it, or fail
  (`LinkedMerge.MergeRestoresThroughLink`, `LinkedMerge.MergeStopsAtLink`). With
  links anywhere, the exact condition is that each entry, those before it placed,
  fits where its path leads (`Containment.RestoresIffAllFit`).
- The check of link targets reads names and does not follow links. Links that all
  pass it can lead a file out of the root (`LinkedMerge.CheckedLinksLeaveRoot`). A
  restore leaves its root if and only if, the entries before it being placed, some
  entry's own path leads out (`Containment.LeavesRootIff`); it never does where
  nothing is restored through a link (`Placement.RestorableIff`).
- A merge without conflicts need not give a tree that can be restored: one side
  may turn into a file what the other puts entries into
  (`MergeRestore.CleanMergeDoesNotRestore`). It does not restore if a file that only
  one side brings stands above an entry that only the other brings, or such a link
  above such a directory; and where no such link stands above such a file or link,
  it restores if and only if that is not so (`MergeRestore.CleanMergeRestoresIff`).
- The run of `pf gc` goes by the manifests in the markers, a checkout by the blobs.
  If a marker holds another manifest, the retained image can lose its tree
  (`GcLaws.MisleadingMarker`); it keeps it if and only if what the restore fetches
  is marked (`GcLaws.CheckedOutTreeUnharmedIff`).
- `pf gc` takes no lock. A put that finds its blob there returns, and the sweep can
  then delete it (`SweepRace.SweepUndoesPut`). A returned put is readable later if
  and only if after every deletion since the blob was placed again
  (`SweepRace.ReturnedPutReadableIff`).
- A ledger file whose header declares no entries is found good whatever its lines
  are, under every secret (`LedgerFile.ZeroHeaderHidesLines`). Under the ledger's
  secret, lines of signed messages are found good if and only if they are a prefix
  of the ledger, given that its entries are distinct, and the header declares some
  (`LedgerFile.VerdictIffPrefix`).
- A ledger that holds two equal entries also verifies for lists that are not
  prefixes of it; distinct entries are exactly what is needed
  (`Ledger.PrefixOnlyIffDistinct`). A MAC whose hex letters change case still
  verifies, so "prefix" means equal up to that (`Ledger.SameEntry`).
- `merge(x, b, x)` loses a change of B that touches only mode or size
  (`WorldMergeAlgebra.OwnSideExact`).
- Captured entries are in path order (name by name), merged entries in text
  order, and `a/b` and `a-b` compare differently (`Paths.PathOrderIsNotTextOrder`).
  Merging a tree with itself gives back its digest if and only if its entries
  are in text order (`WorldMergeAlgebra.SelfMergeDigest`).
- The table in crates/pf-merge/src/world.rs:39-52 says a path deleted on one
  side is dropped. The code keeps it, with a conflict, if the other side changed
  it; the model follows the code.
- A name with a backslash is recorded with a slash, and a restore takes it for
  another path. A directory or link of such a name never comes back. A file whose
  recorded path is that of a link to it is written through the link, and since
  permission bits are not set on a path that names a link, it comes back if and only
  if its bits are those of a new file (`Landing.BackslashComesBack`);
  `Landing.RestoreUndoesCaptureIff` gives the exact condition, which for trees without
  links is that no name has a backslash (`Landing.NoLinksComesBackIff`).
- Segment ignores are matched against the root's own path too, so an ignored
  run in it empties the capture (`FsCapture.IgnoredRootKeepsNothing`).
- Merging two empty weight vectors panics in `trim_bottom`; the model reports
  it as an error and counts it among the unfit shapes (`MergeModel.MergeSucceedsIff`).
- Merging two empty diffs of different kinds keeps A's kind. In every other case an
  empty side is an identity (`MergeModel.EmptyIsIdentityIff`).
- After `restore_cache` into a fresh pager the allocator is past every page if and
  only if every index of the manifest is below its number of pages
  (`CacheLaws.AllocatorSoundIff`). For distinct indices, as a capture writes them
  (`CacheLaws.CapturedIndicesDistinct`), these are the index sets 0, 1, ..., n - 1 (`CacheLaws.DistinctSoundIffDense`); a
  manifest that repeats an index can pass without being dense
  (`CacheLaws.RepeatedIndexIsSound`).
- Temporary names are unique with one open store per process and directory, which
  suffices for complete blobs (`PutProtocol.VisibleBlobsAreComplete`); with two, a
  visible blob can be an empty file (`PutProtocol.TwoHandlesExposeTornBlob`).
- Neither GC nor push follows `parent_a` and `parent_b` of a merged ledger, so
  no claim is made about those blobs.

## Model

| member | source | states |
|---|---|---|
| `Base.HexRoundTrip` | crates/pf-effects/src/ledger.rs:149-164 | hex decoding accepts exactly the encoding of the tag, in either letter case |
| `Base.HashShape` | crates/pf-core/src/digest.rs:18-50 | every computed digest is well formed: it parses, and its hex part is 64 lower-case digits |
| `Cas.MemBlobStore.Put` | crates/pf-core/src/cas.rs:209-215 | returns the digest of the bytes; the map gains that key only if it was missing and loses or changes nothing |
| `Cas.MemBlobStore.Get` | crates/pf-core/src/cas.rs:217-222 | the value under the digest, or an error if there is none |
| `Cas.MemBlobStore.Contains` | crates/pf-core/src/cas.rs:224-226 | true exactly when `get` would succeed |
| `Cas.PutThenGet` | crates/pf-core/src/cas.rs:209-222 | what was put is read back, without collisions |
| `Cas.PutsCommute` | crates/pf-core/src/cas.rs:208-215 | puts commute and are idempotent: two lists with the same members leave the same store |
| `PutProtocol.VisibleBlobsAreComplete` | crates/pf-core/src/cas.rs:123-162 | in every interleaving of any number of puts, stopped anywhere, crashes included, each visible blob is the complete encoding of bytes hashing to its name |
| `PutProtocol.ReturnedPutIsDurable` | crates/pf-core/src/cas.rs:123-180 | with writers only (for sweeps see `SweepRace.ReturnedPutReadableIff`): once a put returned, get of its digest yields its bytes in every later state |
| `PutProtocol.OpenedFileIsFrozen` | crates/pf-core/src/cas.rs:148-180 | a reader that opened a visible blob sees the same bytes however long it reads, even if the name is renamed over |
| `PutProtocol.StepRefines` | crates/pf-core/src/cas.rs:123-180 | every step either performs one put of the map store or leaves what get returns unchanged |
| `PutProtocol.RunRefinesMemStore` | crates/pf-core/src/cas.rs:123-222 | every run shows the map store after the same puts in the order of their renames |
| `PutProtocol.TwoHandlesExposeTornBlob` | crates/pf-core/src/cas.rs:68-86 | with two handles of one process on one directory a reachable state shows an incomplete blob |
| `SweepRace.SweptBlobsAreComplete` | crates/pf-cli/src/commands/gc.rs:95-100 | with sweeps deleting blobs at any time, every visible blob is still the complete encoding of bytes hashing to its name |
| `SweepRace.ReturnedPutReadableIff` | crates/pf-core/src/cas.rs:123-180 | a returned put is readable in a later state if and only if after every deletion of its blob since the blob was placed again |
| `SweepRace.SweepUndoesPut` | crates/pf-core/src/cas.rs:128-130 | from any state with the blob there: a put that returns at once, and a sweep after which it cannot be read |
| `DiskStore.PfStore.Put` | crates/pf-core/src/cas.rs:123-162 | one file appears at the digest's place unless one is there, which is kept whatever it holds |
| `DiskStore.PfStore.Get` | crates/pf-core/src/cas.rs:164-180 | the bytes exactly when the file is there, decompresses, and hashes back to the digest |
| `DiskStore.PutRefinesMap` | crates/pf-core/src/cas.rs:123-180 | on a store without damaged files, put on disk is put on the map that get implements, and no damage appears |
| `DiskStore.PfStore.PutManifest` | crates/pf-core/src/store.rs:63-71 | stores the JSON under its digest and adds a marker of its hex digits unless there is one, readable or not; every other marker stays as it is |
| `DiskStore.PfStore.GetManifest` | crates/pf-core/src/store.rs:74-77 | decodes the blob under the content-id, or fails |
| `DiskStore.PfStore.IterManifests` | crates/pf-core/src/store.rs:80-91 | each readable marker exactly once, in any order, and no two of one content-id |
| `DiskStore.ManifestReadBack` | crates/pf-core/src/store.rs:63-77 | a manifest that was put is read back under the content-id returned |
| `DiskStore.PutsReadBackIff` | crates/pf-core/src/cas.rs:123-180 | on any store, damaged files included: after any sequence of puts, a blob put reads back if and only if no damaged file lay at its place before |
| `DiskStore.PutIsListedIff` | crates/pf-core/src/store.rs:63-91 | the image just put is listed if and only if no marker of its name was there, or one that already stood for it |
| `DiskStore.BlobNames` | crates/pf-core/src/cas.rs:94-102 | a file stands for a digest if and only if it is named by its 64 hex digits, with or without `.zst`; a put uses the directory of the first two |
| `Manifests.TransitiveBlobDigests` | crates/pf-registry/src/registry.rs:76-143 | exactly what the manifest refers to, each once, in order of first occurrence: its eight layer digests, field by field, the digest text of a tree entry's `blob`, and that of a page's `k` or `v` |
| `Manifests.AllRefsIff` | crates/pf-registry/src/registry.rs:76-143 | a digest is found if and only if it is one of the eight named fields, or text under `blob`, `k` or `v` that parses as a digest |
| `Manifests.TreeRefsCover` | crates/pf-registry/src/registry.rs:104-121 | whatever blob a typed reading of a tree names, the untyped walk finds, if its digest is well formed |
| `Manifests.CacheRefsCover` | crates/pf-registry/src/registry.rs:123-140 | the same for the K and V digests of every page |
| `Gc.Run` | crates/pf-cli/src/commands/gc.rs:25-138 | for every store, retention count and listing order: a blob file goes if and only if its name is a digest that no retained manifest refers to, field by field (`Gc.OnlyNeeded`); the markers of the evicted images go; nothing else changes, and a dry run changes nothing and reports the same numbers |
| `Gc.ReachableIffNeeded` | crates/pf-cli/src/commands/gc.rs:59-75 | what is marked is exactly the two names of each retained image and what its manifest refers to, field by field |
| `Gc.SweptOnlyNeeded` | crates/pf-cli/src/commands/gc.rs:77-104 | a sweep over those marks deletes a file if and only if its name is a digest that no retained image needs, and keeps the bytes of the others |
| `Gc.Sweep` | crates/pf-cli/src/commands/gc.rs:77-104 | deletes exactly the files named after unmarked digests and counts them and their bytes |
| `Gc.SizesAdd` | crates/pf-cli/src/commands/gc.rs:94-98 | the bytes counted are the sizes of the single files, added up |
| `Gc.Prune` | crates/pf-cli/src/commands/gc.rs:112-124 | removes exactly the markers of the evicted images and counts them |
| `GcLaws.SurvivorsAreTheReachable` | crates/pf-cli/src/commands/gc.rs:77-104 | afterwards exactly the blobs that were readable and are reachable can be read, and they read the same |
| `GcLaws.TreeReadsMarked` | crates/pf-registry/src/registry.rs:104-121 | the mark set contains every well-formed digest that restoring the tree fetches |
| `GcLaws.PageReadsMarked` | crates/pf-registry/src/registry.rs:123-140 | the mark set contains every well-formed digest that deserialising the pages fetches |
| `GcLaws.RetainedImagesUnharmed` | crates/pf-cli/src/commands/gc.rs:59-104 | every retained image keeps its manifest blob, each of its eight layers by name, and whatever else its manifest refers to; it restores the same tree and yields the same cache as before, failures included |
| `GcLaws.CheckedOutTreeUnharmedIff` | crates/pf-core/src/store.rs:74-77 | for the manifest that a checkout reads from the blob, whatever the marker holds: it reads the same after a run, and its tree restores as before if and only if every digest that fetches is marked |
| `GcLaws.CheckedOutPagesUnharmedIff` | crates/pf-core/src/store.rs:74-77 | the same for its cache pages |
| `GcLaws.MisleadingMarker` | crates/pf-cli/src/commands/gc.rs:59-75 | a retained image whose marker holds another manifest, and whose tree the run deletes |
| `GcLaws.KeptAreNewest` | crates/pf-cli/src/commands/gc.rs:36-57 | the retained images are the asked-for number of images, none older than an evicted one |
| `GcLaws.MarkersOfKept` | crates/pf-cli/src/commands/gc.rs:50-57 | afterwards the readable markers are exactly those of the retained images |
| `GcLaws.PutSurvivesGcIff` | crates/pf-core/src/store.rs:63-91 | an image just put is retained by a run that retains all under exactly the same condition |
| `GcLaws.SecondRunDeletesNothing` | crates/pf-cli/src/commands/gc.rs:36-124 | a second run with the same count, in any listing order, keeps the same images, finds no garbage and evicts nothing |
| `Registry.RegistryDir.Push` | crates/pf-registry/src/file.rs:58-89 | the new directory after a push that completes, fails on an unreadable blob, or is cut off at any byte of the manifest or a blob or in the signature; when it succeeds. That everything the manifest refers to, field by field, then has a file is `Transport.PushThenPull` |
| `Registry.RegistryDir.Pull` | crates/pf-registry/src/file.rs:91-143 | which check fails first (manifest, signature there, signature right, manifest readable, every blob readable), or the manifest and exactly the readable blobs |
| `Registry.PullInto` | crates/pf-cli/src/commands/stub.rs:89-108 | for any receiving store: its files are those after putting every blob of the directory and the manifest, its markers those after `put_manifest`, and the manifest's digest is reported; a failed pull changes nothing |
| `Transport.HistoryOwnPlaces` | crates/pf-registry/src/file.rs:158-192 | after any sequence of pushes, cut off anywhere, every file is at the place of the digest it is named after |
| `Transport.HistoryWithoutTears` | crates/pf-registry/src/file.rs:158-192 | if no push was cut off inside the write of a blob, every file holds the bytes of its digest |
| `Transport.TornForGood` | crates/pf-registry/src/file.rs:158-177 | a directory with a file that does not read back keeps one under every later push |
| `Transport.PushThenPull` | crates/pf-registry/src/file.rs:58-143 | from any directory with files at their own places: after a successful push, a pull succeeds if and only if the key signs alike and every file already there read back before the push; it yields the pushed manifest, and which error comes otherwise; every layer, field by field, and every blob of its tree and pages has a file |
| `Transport.PullAfterPushes` | crates/pf-registry/src/file.rs:58-143 | the same after any history of pushes, cut off anywhere, of which the last succeeded |
| `Transport.PushCopies` | crates/pf-registry/src/file.rs:58-89 | a push that is not cut off goes through what the manifest refers to, each once, and copies up to the first that has no file and cannot be read, and no further; earlier files stay, new ones hold the compressed bytes; it succeeds if and only if there is none |
| `Transport.PullSucceedsIff` | crates/pf-registry/src/file.rs:91-143 | on any directory: a pull yields a manifest if and only if it is there and decodes to it, the signature names `hmac-sha256` and its hash and carries the hex of its MAC under the key (or the built-in one), and every file named by a digest reads back |
| `Transport.ReplacedManifestIsRefused` | crates/pf-registry/src/file.rs:91-115 | a manifest put in the place of the pushed one is refused under every key, whatever HMAC does |
| `Transport.PullAfterCut` | crates/pf-registry/src/file.rs:91-110 | an empty directory has no manifest; a first push cut off in the manifest leaves no signature, one cut off in the signature a bad one |
| `Transport.TornPushSpoilsPulls` | crates/pf-registry/src/file.rs:158-177 | a push cut off inside its first blob, a retry that succeeds, and a pull that fails |
| `Transport.TransportKeepsImageIff` | crates/pf-cli/src/commands/stub.rs:75-108 | under any history and into any store, the content-id is kept, and the manifest, each of its eight layers by name and each blob of its tree and pages read as at the source if and only if no damaged file lay at their place |
| `Transport.TreeArrivesIff` | crates/pf-world/src/fs.rs:380-430 | a tree that restores at the source restores alike at the receiver if and only if none of the digests it fetches met a damaged file |
| `Transport.PagesArriveIff` | crates/pf-cache/src/serialize.rs:51-84 | the same for the pages of the cache |
| `Transport.ReceiverLosesNothing` | crates/pf-cli/src/commands/stub.rs:89-108 | what the receiving store could read before it reads alike afterwards |
| `Transport.DamagedReceiver` | crates/pf-core/src/cas.rs:123-162 | a store with a damaged file at the manifest's place, which cannot read the image whose content-id is reported |
| `Ancestor.FindLca` | crates/pf-merge/src/ancestor.rs:39-86 | the two-queue loop terminates on every finite parent graph and computes the search that the lemmas below are about |
| `Ancestor.LcaSound` | crates/pf-merge/src/ancestor.rs:39-86 | on every graph: a result is an ancestor of both, "none" means there is none, an error names a reachable node that justifies it |
| `Ancestor.NoCommonAncestorIffDisjoint` | crates/pf-merge/src/ancestor.rs:43-85 | with all manifests present and at most two parents, "no common ancestor" is reported exactly when the ancestor sets are disjoint |
| `Ancestor.LcaIsLowest` | crates/pf-merge/src/ancestor.rs:32-86 | without merge nodes (sufficient; for the exact condition see `Rounds.LowestIffSooner`), every other common ancestor is an ancestor of the result |
| `Ancestor.AncestorOfTheOtherIsReturned` | crates/pf-merge/src/ancestor.rs:36-38 | without merge nodes (sufficient; for the exact condition see `Rounds.AncestorReturnedIff`), an image that is an ancestor of the other is itself returned |
| `Ancestor.MergeHistoryNotLowest` | crates/pf-merge/src/ancestor.rs:48-78 | a history with a merge node whose result is not lowest |
| `Ancestor.MergeHistoryMissesAncestor` | crates/pf-merge/src/ancestor.rs:36-38 | a history with a merge node where the documented trivial case fails |
| `Meeting.LcaIsFirstMeeting` | crates/pf-merge/src/ancestor.rs:39-86 | on every supported graph, merges included, the result is exactly the first node on which the two walks, each run on its own, meet |
| `Rounds.LcaIsSoonest` | crates/pf-merge/src/ancestor.rs:39-86 | with the round in which a walk from one image alone first sees each ancestor, the result is exactly the common ancestor with the smallest later turn, the list of parents deciding ties |
| `Rounds.AncestorReturnedIff` | crates/pf-merge/src/ancestor.rs:36-38 | an ancestor `a` of `b` is returned if and only if the walk from `b` gets to it before both walks have seen any proper ancestor of `a` |
| `Rounds.OtherAncestorReturnedIff` | crates/pf-merge/src/ancestor.rs:36-38 | the same for an ancestor `b` of `a`, with B's turn the later in each round |
| `Rounds.LowestIffSooner` | crates/pf-merge/src/ancestor.rs:32-86 | the result is lowest if and only if some lowest common ancestor comes sooner than every common ancestor that is not lowest |
| `Meeting.GateIsReturned` | crates/pf-merge/src/ancestor.rs:32-86 | if both images enter their common past through one image it is returned and is lowest, whatever merge nodes there are (sufficient) |
| `Meeting.FunnelledAncestorIsReturned` | crates/pf-merge/src/ancestor.rs:36-38 | an ancestor through which the other reaches all that lies behind it is returned, merge nodes on the way allowed (sufficient) |
| `Meeting.DiamondIsHarmless` | crates/pf-merge/src/ancestor.rs:36-38 | a history with a merge node where the documented case holds |
| `Tree.TreeRoundTrip` | crates/pf-world/src/fs.rs:12-52 | the tree blob's JSON reads back to the same entries, optional members included |
| `Tree.TreeText` | crates/pf-world/src/fs.rs:12-52 | the stored bytes of a tree, member name by member name: `kind` is `fs.tree.v1`, and each of `entries` has `path`, `mode`, `size`, `kind` (`file`, `dir`, `symlink`) and, where there is one, `blob` and `link_target` |
| `WorldMerge.MergeWorld` | crates/pf-merge/src/world.rs:53-201 | the loop over all paths in ascending order computes the fold of the per-path decision, and stores the merged tree; what that leaves at each path is `ConflictFiles.MergeTable` |
| `WorldMerge.BuildConflictBlob` | crates/pf-merge/src/world.rs:224-239 | stores the marker text of the two contents and returns its digest, or fails and stores nothing if a content is missing; the bytes of that text are `ConflictFiles.MarkedHoldsBoth` |
| `ConflictFiles.MarkedHoldsBoth` | crates/pf-merge/src/world.rs:224-239 | the text is ten opening bytes, then all of A's text, nine separating bytes, all of B's text, and eleven closing bytes |
| `ConflictFiles.MergeTable` | crates/pf-merge/src/world.rs:88-200 | for every path of two complete images: which side's entry the merged tree holds or that it holds none, and the conflict record with A's blob, B's blob and the ancestor's each in its place; where both sides clash, a regular file with A's mode whose stored bytes hold both sides' texts, a note of the length standing for bytes that are not UTF-8 |
| `ConflictFiles.MergeFailsIff` | crates/pf-merge/src/world.rs:224-239 | the merge fails if and only if some path that both sides changed differently names a blob that is not stored, given that no conflict text written hashes to a missing digest |
| `ConflictFiles.LastCounts` | crates/pf-merge/src/world.rs:79-86 | of several entries with one path in a tree the last counts |
| `WorldMergeLaws.RunPerPath` | crates/pf-merge/src/world.rs:88-200 | on complete images the merge never fails and is, path by path, the three-way decision; the merged tree is blob-closed |
| `WorldMergeLaws.MergedTreeShape` | crates/pf-merge/src/world.rs:88-200 | one entry per surviving path, in strictly ascending order, each the decision for its path, all blobs in the store |
| `WorldMergeLaws.EveryPathCounted` | crates/pf-merge/src/world.rs:92-189 | clean paths plus conflicts is the number of paths of A and B together |
| `WorldMergeAlgebra.OtherSideUnchanged` | crates/pf-merge/src/world.rs:145-157 | the loop on (a, x, x) succeeds on any store with the entries of a, without conflicts |
| `WorldMergeAlgebra.SelfMerge` | crates/pf-merge/src/world.rs:163-167 | the loop on (a, a, x) succeeds on any store with the entries of a for every x, without conflicts |
| `WorldMergeAlgebra.OwnSideUnchanged` | crates/pf-merge/src/world.rs:158-162 | the loop on (x, b, x) succeeds on any store with the entries of b, as entries are compared, without conflicts |
| `WorldMergeAlgebra.OwnSideExact` | crates/pf-merge/src/world.rs:215-219 | merge(x, b, x) is exactly b if and only if B has no change of mode or size alone |
| `WorldMergeAlgebra.SwapSides` | crates/pf-merge/src/world.rs:92-189 | swapping the sides gives the same conflicts with digests swapped, the same clean count, and equal entries where there is no conflict |
| `WorldMergeAlgebra.SelfMergeDigest` | crates/pf-merge/src/world.rs:79-86 | merging a tree with itself gives its digest if and only if its entries are in text order |
| `Ways.FileAboveFails` | crates/pf-world/src/fs.rs:398-470 | any manifest, links and order included: with a file above another entry that is not left out nothing is restored |
| `Ways.LinkAboveFails` | crates/pf-world/src/fs.rs:398-470 | the same for a link above a directory entry, or above an entry that comes before it |
| `Ways.SettledForGood` | crates/pf-world/src/fs.rs:398-470 | once a path leads to something, or out of the root, it does so for the rest of the restore |
| `Placement.RestorableIff` | crates/pf-world/src/fs.rs:364-475 | entries with distinct plain paths and stored files, in any order: no restore if a link's target leaves the root or an entry is barred by a file above it, or by a link above a directory or an earlier entry; where nothing is to go through a link this is exact, the file system is what refuses, and the restore stays below the root |
| `Containment.RestoresIffAllFit` | crates/pf-world/src/fs.rs:364-475 | the same entries, links in the way or not: a restore succeeds if and only if no target leaves the root and, the entries before it placed, each path of a file or link, followed as the kernel does, has something yet to be made on its way or leads to a free place (a file's also to a file) |
| `Containment.LeavesRootIff` | crates/pf-world/src/fs.rs:409-470 | a restore leaves its root if and only if, the entries before it placed, the path of some file or the directory of some link, followed as the kernel does, leads out |
| `MergeRestore.MergedRestoresIff` | crates/pf-merge/src/world.rs:88-200 | the merged tree of two complete images, conflict markers included: the same three statements for the entries kept path by path, in text order |
| `MergeRestore.CleanMergeRestoresIff` | crates/pf-merge/src/world.rs:88-200 | of two trees that restore, a merge without conflicts does not restore if something only one side brings bars something only the other brings, and exactly then where no link of one side stands above a file or link of the other |
| `MergeRestore.CleanMergeDoesNotRestore` | crates/pf-merge/src/world.rs:123-162 | two trees that restore, a merge without conflicts, and a result that does not restore |
| `LinkedMerge.MergeRestoresThroughLink` | crates/pf-world/src/fs.rs:409-423 | a merge without conflicts that keeps a link above a file and restores it into the directory behind the link; `LinkedMerge.NamesText` gives the paths `cur`, `cur/x`, `v2` |
| `LinkedMerge.MergeStopsAtLink` | crates/pf-world/src/fs.rs:409-423 | the same merge with nothing behind the link does not restore |
| `LinkedMerge.CheckedLinksLeaveRoot` | crates/pf-world/src/fs.rs:602-635 | two links whose targets pass the check, and a file whose path leads out of the root through them; `LinkedMerge.OutwardText` gives the paths |
| `Ties.SplitMix64.Next` | crates/pf-model/src/merge.rs:180-191 | each draw advances the 64-bit state by the constant, wrapping, and depends on the state alone |
| `Ties.Dare` | crates/pf-model/src/merge.rs:26-51 | zeroes or rescales each entry by the draw of its position; refuses rates outside (0, 1) |
| `Ties.DaredEntry` | crates/pf-model/src/merge.rs:33-49 | whether an entry is dropped depends on the seed and its position only, not on the vector |
| `Ties.TrimBottom` | crates/pf-model/src/merge.rs:147-174 | zeroes what is below the order statistic; no result for an empty vector, on which the program panics |
| `Ties.ThresholdIsOrderStatistic` | crates/pf-model/src/merge.rs:154-166 | no more entries than the cut index lie below the threshold, and more than that at or below it |
| `Ties.TrimIsCut` | crates/pf-model/src/merge.rs:147-174 | at most floor(q n) entries change, to zero, each strictly smaller than every entry kept |
| `Ties.TrimIdentity` | crates/pf-model/src/merge.rs:154-173 | a vector with more than floor(q n) zeros, as DARE leaves it, is not changed |
| `SignElection.TiesMerge` | crates/pf-model/src/merge.rs:86-143 | the nested loops compute trim, sign election by summed magnitude (ties to plus) and scaled mean; exactly which inputs are refused with which error. What that is at each position, from the trimmed vectors alone, is `TiesValues.TiesValue` |
| `TiesLaws.TiesPermutationInvariant` | crates/pf-model/src/merge.rs:86-143 | permuting the input vectors changes neither result nor error |
| `TiesLaws.TiesScales` | crates/pf-model/src/merge.rs:86-143 | scaling all inputs by c > 0 scales the result by c |
| `TiesLaws.DareTiesBounded` | crates/pf-merge/src/model.rs:168-185 | every merged coordinate is at most abs(alpha) / (1 - p) times the larger input magnitude there |
| `TiesValues.DareValue` | crates/pf-model/src/merge.rs:26-51 | an entry is 0 if the draw of its position, given by the seed in closed form, is below the rate, and otherwise divided by 1 - rate |
| `TiesValues.TrimValue` | crates/pf-model/src/merge.rs:147-174 | an entry is zeroed if and only if at most floor(q n) entries are no larger in magnitude, itself included (all for q >= 1, none for q <= 0) |
| `TiesValues.TiesValue` | crates/pf-model/src/merge.rs:86-143 | at every position: the sign that wins is that of the plain sum of the trimmed values, a sum of 0 counting as plus, and the result is alpha times the mean of the values of that sign |
| `TiesValues.VecMergeValue` | crates/pf-merge/src/model.rs:168-185 | two vectors under DARE and TIES, at every position: equal signs give alpha times the mean, opposite signs alpha times the one of larger magnitude, a tie the positive one, and a zero leaves the other |
| `TiesValues.OneSided` | crates/pf-merge/src/model.rs:168-185 | where one side is zero, dropped or trimmed and the other is kept, the result is alpha / (1 - rate) times the other |
| `Diff.SealedIffValid` | crates/pf-model/src/diff.rs:150-166 | validation succeeds exactly on diffs whose declared shapes fit, and canonicalising twice is canonicalising once |
| `Diff.SealedOrder` | crates/pf-model/src/diff.rs:150-166 | the canonical form is a permutation in order of layer and matrix name, steps in order of number, and other diffs stay as they are |
| `Diff.StoreDiff` | crates/pf-model/src/serialize.rs:24-31 | stores the canonical diff, or nothing if it is not valid |
| `Diff.LoadDiff` | crates/pf-model/src/serialize.rs:34-44 | the diff under the digest, refused if missing, unreadable or of another layout |
| `Diff.StoredDiffRoundTrip` | crates/pf-model/src/serialize.rs:24-44 | a valid diff of weights that print exactly is read back in canonical order |
| `ModelMerge.MergeLora` | crates/pf-merge/src/model.rs:124-200 | the loop over all keys merges shared adapters and copies exclusive ones; a later adapter of a key wins. The weights of the shared ones are `MergedWeights.LoraMergeValues` |
| `ModelMerge.LoraMergeSound` | crates/pf-merge/src/model.rs:124-200 | succeeds exactly on fitting shapes; keys are the sorted union, exclusive adapters unchanged, the result valid and already canonical |
| `NamedMerge.MergeFull` | crates/pf-merge/src/model.rs:204-241 | the loop over all parameter names, with the seeds of each position; the merged weights are `MergedWeights.FullMergeValues` |
| `NamedMerge.FullMergeSound` | crates/pf-merge/src/model.rs:204-241 | succeeds exactly if shared vectors have one non-zero length; keys are the union, exclusive vectors unchanged |
| `NamedMerge.MergeIa3` | crates/pf-merge/src/model.rs:245-296 | the nested loops with the seed counter carried across layers; the merged weights are `MergedWeights.Ia3MergeValues` |
| `NamedMerge.Ia3MergeSound` | crates/pf-merge/src/model.rs:245-296 | the same for layers and matrices; a layer of one side is unchanged |
| `MergeModel.MergeDiffs` | crates/pf-merge/src/model.rs:32-111 | which diff is stored, which error is returned with nothing stored, and the three outcome flags |
| `MergeModel.MergeSucceedsIff` | crates/pf-merge/src/model.rs:41-111 | on valid diffs the merge fails exactly on unfit shared shapes, and its result is valid |
| `MergeModel.MergeKeepsKeys` | crates/pf-merge/src/model.rs:82-102 | within one kind, the keys of the result are the keys of either side |
| `MergeModel.StepsMergeStably` | crates/pf-merge/src/model.rs:92-98 | training steps: a sorted permutation of both traces, for one id first A's then B's in their own order |
| `MergeModel.MergedDiffIsReadBack` | crates/pf-merge/src/model.rs:104-110 | the digest reported loads to the merged diff, which is canonical and valid, if its weights print exactly |
| `MergeModel.EmptyIsIdentityIff` | crates/pf-merge/src/model.rs:47-71 | an empty B gives A in canonical order; an empty A gives B in canonical order if and only if B is not empty or is of A's kind |
| `MergedWeights.LoraMergeValues` | crates/pf-merge/src/model.rs:124-200 | every weight of both factors of a shared adapter, by the two-vector law on the last adapter of the key on each side with seeds s, s+1 and s+2, s+3; exclusive adapters are in the result |
| `MergedWeights.FullMergeValues` | crates/pf-merge/src/model.rs:204-241 | every weight of a shared parameter by the same law, the seeds being those of its rank among all names |
| `MergedWeights.Ia3MergeValues` | crates/pf-merge/src/model.rs:245-296 | every weight of a shared scaling vector by the same law, the seeds counting the shared vectors before it, layers before it included |
| `MergedWeights.MergedValues` | crates/pf-merge/src/model.rs:32-111 | the same of the diff that the merge of two stored diffs of one kind stores |
| `MergedWeights.MergedSteps` | crates/pf-merge/src/model.rs:92-98 | the stored training steps: all of both sides in order of id, and for one id A's and then B's |
| `MergedWeights.DifferentKinds` | crates/pf-merge/src/model.rs:72-80 | of two diffs of different kinds, neither empty, A's is stored |
| `Ledger.Ledger.Append` | crates/pf-effects/src/ledger.rs:120-152 | adds one entry with the given fields, whose MAC is over the hash of the entry before, if any, and then its own, and keeps the chain signed |
| `Ledger.Ledger.Verify` | crates/pf-effects/src/ledger.rs:156-173 | accepts exactly the lists all of whose MACs match, and otherwise reports the first that does not and why |
| `Ledger.AppendedVerifies` | crates/pf-effects/src/ledger.rs:120-173 | every appended ledger verifies |
| `Ledger.AcceptedIffWalk` | crates/pf-effects/src/ledger.rs:120-173 | without distinctness: what is accepted is exactly a walk along the ledger |
| `Ledger.VerifiesIffPrefix` | crates/pf-effects/src/ledger.rs:120-173 | with distinct entries, a list of signed messages verifies if and only if it is a prefix of the ledger |
| `Ledger.VerifiesOrBreaksPrimitive` | crates/pf-effects/src/ledger.rs:120-173 | a list that verifies and is no prefix carries a valid tag for a message never signed, or a SHA-256 collision |
| `Ledger.PrefixOnlyIffDistinct` | crates/pf-effects/src/ledger.rs:120-173 | only prefixes are accepted if and only if the ledger's entries are distinct |
| `LedgerFile.Serialize` | crates/pf-effects/src/ledger.rs:178-192 | stores the header and one line per entry |
| `LedgerFile.Deserialize` | crates/pf-effects/src/ledger.rs:197-218 | reads a header and its entries, empty lines skipped and each timestamp reprinted as RFC 3339, with the four ways it can fail |
| `LedgerFile.ReadIff` | crates/pf-effects/src/ledger.rs:197-218 | a file reads as a ledger if and only if its first line is a header of that kind and every further line is an entry; the entries are those of the lines in order; when it has no header or one of another kind |
| `LedgerFile.StoreLedger` | crates/pf-cli/src/commands/snapshot.rs:528-556 | stores the ledger file, with the header rewritten to embed the secret if asked |
| `LedgerFile.LedgerText` | crates/pf-effects/src/ledger.rs:178-192 | the stored file, member name by member name: a header of kind `effects.ledger.v1` with the number of entries and, if embedded, the secret in hex, and then for each entry in order a line with its seven members |
| `LedgerFile.LedgerLineFeeds` | crates/pf-effects/src/ledger.rs:178-192 | each line of the stored file, the last included, ends with one line feed |
| `LedgerFile.SnapshotFileRoundTrip` | crates/pf-cli/src/commands/snapshot.rs:528-556 | with or without the embedded secret the file reads back to the same entries |
| `LedgerFile.ValidateLedgerChain` | crates/pf-cli/src/commands/verify.rs:192-252 | the verdict on any bytes, with the operator's secret before the embedded one; a timestamp that is not RFC 3339 is refused, and MACs are checked over the reprinted instant |
| `LedgerFile.VerdictOnWrittenLedger` | crates/pf-cli/src/commands/verify.rs:192-252 | the verdict on every file a snapshot writes, for every operator secret: Ok under the signing or embedded secret, skipped without any |
| `LedgerFile.OperatorVerdict` | crates/pf-cli/src/commands/verify.rs:192-252 | under an operator's secret, on any bytes: when the chain is found good, and that a header declaring no entries is all it takes for an unkeyed Ok |
| `LedgerFile.EmbeddedVerdict` | crates/pf-cli/src/commands/verify.rs:192-252 | without an operator's secret, on any bytes: skipped if the first line is no header, or one that declares entries and holds no secret; otherwise good if and only if it declares none, or the secret, trimmed, is hex and the entries read and verify under it |
| `LedgerFile.VerdictIffPrefix` | crates/pf-cli/src/commands/verify.rs:192-252 | tamper evidence of the file: its lines are signed messages and the verdict is good if and only if they are a prefix of the ledger and the header declares some entries |
| `LedgerFile.ZeroHeaderHidesLines` | crates/pf-cli/src/commands/verify.rs:205-219 | a header that declares no entries gets Ok whatever the lines are, under every secret |
| `LedgerFile.CountWrittenLedger` | crates/pf-merge/src/effects.rs:84-139 | on written files the counts of entries and of irreversible entries are exact |
| `LedgerFile.MergeEffects` | crates/pf-merge/src/effects.rs:58-139 | on any two blobs, written by a snapshot or not: exactly which error is returned with nothing stored, or which record is stored; what the record says is `LedgerFile.MergedEffectsOfWritten` |
| `LedgerFile.MergedEffectsOfWritten` | crates/pf-merge/src/effects.rs:58-139 | for two written ledgers the stored bytes parse, and read by member name say `effects.merged.v1`, `parent_a`, `parent_b` and `ancestor` as given, the classes to replay, and in `summary` the number of A's entries as `a_entries`, of B's as `b_entries` and of B's irreversible ones as `b_irreversible_cached` |
| `Proxy.ToolProxy.Invoke` | crates/pf-effects/src/proxy.rs:59-80 | a call that succeeds has added exactly its signed entry, with the tool, its class, the key, the hash of the arguments and the hash of the result each in its place; one that fails leaves the ledger alone |
| `Proxy.OneEntryPerInvoke` | crates/pf-effects/src/proxy.rs:59-80 | in every interleaving the ledger verifies and its new entries are in one-to-one correspondence with the recorded calls, every returned call among them, and each entry names its call's tool, class, key, arguments' hash and result's hash |
| `Proxy.CallCame` | crates/pf-effects/src/proxy.rs:59-80 | at any point of any run, what a call holds comes from its own steps: the tool registered when it looked, the key minted for it, the answer it returns, the position the ledger had when it was recorded |
| `Proxy.RecordedForGood` | crates/pf-effects/src/proxy.rs:57-80 | a recorded call keeps its entry at its position in every later state, and the ledger only grows |
| `Proxy.RunsAreTamperEvident` | crates/pf-effects/src/proxy.rs:59-80 | with fresh idempotency keys, whatever the interleaving, only prefixes of the recorded ledger verify |
| `Paths.PathRoundTrip` | crates/pf-world/src/fs.rs:268-269 | a path without backslashes is read back from its recorded text |
| `Paths.RenderText` | crates/pf-world/src/fs.rs:268-269 | the recorded text of a path is its names in order with one slash between two, backslashes turned into slashes |
| `Paths.CheckTarget` | crates/pf-world/src/fs.rs:602-635 | the depth counter accepts exactly the relative targets that, followed name by name from the link's directory, never leave the root |
| `Paths.MatchesAnyIgnore` | crates/pf-world/src/fs.rs:540-563 | true exactly if some ignore entry occurs as a run of consecutive names |
| `Paths.IgnoreInherited` | crates/pf-world/src/fs.rs:540-563 | whatever lies below an ignored path is ignored |
| `Paths.ModeRoundTrip` | crates/pf-world/src/fs.rs:642-695 | every twelve permission bits survive printing and parsing |
| `Paths.ModeTextIsOctal` | crates/pf-world/src/fs.rs:692-695 | permission bits are recorded as four octal digits of that value |
| `Paths.UnreadableMode` | crates/pf-world/src/fs.rs:642-650 | a recorded mode with anything but octal digits is restored as 0644 |
| `Paths.PathOrderIsNotTextOrder` | crates/pf-world/src/fs.rs:260-261 | two paths that compare one way as paths and the other way as text |
| `FsCapture.Walk` | crates/pf-world/src/fs.rs:233-258 | the pruning walk, in any directory order, finds exactly the paths with nothing skipped at or above them |
| `CaptureText.KeptIff` | crates/pf-world/src/fs.rs:233-258 | a path is kept if and only if neither it nor anything above it, up to the root, has an ignore entry's names side by side in its full path or is hit, in full or by its last name, by a glob |
| `FsCapture.UnprunedWellFormed` | crates/pf-world/src/fs.rs:233-258 | what is kept is closed under parents: a directory tree again |
| `FsCapture.SegmentIgnoresAreIndependent` | crates/pf-world/src/fs.rs:236-253 | without globs, pruning keeps exactly the paths that are not ignored themselves |
| `FsCapture.GlobsPruneWhatTheyDoNotMatch` | crates/pf-world/src/fs.rs:236-253 | with globs it can drop a path that no rule matches |
| `FsCapture.IgnoredRootKeepsNothing` | crates/pf-world/src/fs.rs:250-252 | an ignored run in the root's path empties the capture |
| `FsCapture.Capture` | crates/pf-world/src/fs.rs:223-319 | digest and store are a function of the tree and the settings: sorted entries, each content put, then the tree |
| `CaptureText.CapturedShows` | crates/pf-world/src/fs.rs:260-318 | a capture has one entry for each kept path, in path order, with its text, its mode in octal, its length as the size (0 for a directory), its kind, the digest of its bytes or of its target's text, and the target |
| `FsRestore.RestoreTree` | crates/pf-world/src/fs.rs:364-475 | the tree that appears, links followed as the kernel does, or which error; an existing target is left alone (that a failed restore leaves no target is by construction here: staging is a local value) |
| `FsRestore.RestoreReadsOnly` | crates/pf-world/src/fs.rs:380-430 | stores that agree on the tree and its files' digests restore alike, failures included |
| `FsRoundTrip.RestoreOfPlainCapture` | crates/pf-world/src/fs.rs:223-475 | without backslashes, restoring a capture is refused exactly if a link escapes, and otherwise yields everything but disallowed absolute links |
| `Landing.RestoreUndoesCaptureIff` | crates/pf-world/src/fs.rs:223-475 | permissions never refusing anything, it rebuilds exactly the unpruned tree if and only if no directory or link has a backslash in its path, every link stays inside or is an allowed absolute one, and the files, laid where their recorded paths lead among the directories and earlier links, with the recorded bits unless that path names a link, are the files of the tree |
| `Landing.FileLands` | crates/pf-world/src/fs.rs:411-424 | its directories being there, a file is placed if and only if its path leads to a free place or a file; it goes there, with the recorded bits, except that a path that names a link has none set |
| `Landing.PlainComesBackIff` | crates/pf-world/src/fs.rs:223-475 | without backslashes: if and only if every link stays inside or is an allowed absolute one |
| `Landing.NoLinksComesBackIff` | crates/pf-world/src/fs.rs:223-475 | without links: if and only if no name has a backslash |
| `Landing.BackslashComesBack` | crates/pf-world/src/fs.rs:268-269 | a tree with a backslash in a file name that comes back, through a link, if and only if the file has the bits of a new one |
| `FsRoundTrip.CaptureIsBlobClosed` | crates/pf-world/src/fs.rs:264-318 | every blob a captured entry names is in the store |
| `CacheFormat.ManifestRoundTrip` | crates/pf-cache/src/format.rs:100-131 | the page manifest's JSON reads back, flattened metadata included |
| `CacheFormat.ManifestText` | crates/pf-cache/src/format.rs:18-131 | the stored bytes of a page manifest, member name by member name: layout, the five numbers and names of the metadata, each page with `ix`, `k` and `v`, and each sequence |
| `CacheFormat.OtherLayoutRefused` | crates/pf-cache/src/serialize.rs:51-62 | a page manifest is read if and only if its layout is `paged-batchinvariant-v1` |
| `CacheFormat.PageSizeIs` | crates/pf-cache/src/format.rs:18-68 | the size of a page half is layers times tokens times heads times head dimension times the bytes of a number (2, 2, 4, 1), in 64 bits |
| `Cache.SerializePages` | crates/pf-cache/src/serialize.rs:19-45 | stores every page half and the canonical manifest, or the pages before the first of a wrong size |
| `Cache.DeserializePages` | crates/pf-cache/src/serialize.rs:51-84 | the pages in manifest order, or the first reason they cannot be read |
| `Cache.SyntheticCachePager.AllocatePages` | crates/pf-cache/src/pager.rs:177-187 | the next n indices, or nothing changed if they leave 32 bits |
| `Cache.SyntheticCachePager.WritePage` | crates/pf-cache/src/pager.rs:189-200 | replaces one page, or nothing if a half has the wrong size |
| `Cache.CaptureCache` | crates/pf-cache/src/capture.rs:20-41 | the pager ends unpaused on every exit and is otherwise unchanged; what the store gains |
| `Cache.RestoreCache` | crates/pf-cache/src/capture.rs:47-74 | the pager's whole state on each of the four exits; writing a page never fails |
| `CacheLaws.CacheRoundTrip` | crates/pf-cache/src/capture.rs:20-74 | restoring a capture gives the same page map and the same sequences sorted by id |
| `CacheLaws.CapturedManifest` | crates/pf-cache/src/serialize.rs:19-45 | the stored manifest lists each page index once, ascending, with the digest of its K half as `k` and of its V half as `v`, the metadata unchanged and the sequences sorted by id |
| `CacheLaws.CaptureSucceedsIff` | crates/pf-cache/src/serialize.rs:27-36 | a capture succeeds if and only if both halves of every page have that size |
| `CacheLaws.DeserializedIff` | crates/pf-cache/src/serialize.rs:51-84 | pages are read if and only if the manifest is one and both halves of each page are stored in that size; what is read is the stored halves, each in its place, in the manifest's order |
| `CacheLaws.WrittenIs` | crates/pf-cache/src/capture.rs:62-74 | of several pages of one index the last is written, and pages of other indices stay |
| `CacheLaws.ManifestOrderFree` | crates/pf-cache/src/format.rs:125-130 | the manifest does not depend on the order in which distinct pages and sequences arrive |
| `CacheLaws.CaptureGrowsBy` | crates/pf-cache/src/serialize.rs:37-44 | the store gains exactly the missing digests of page halves and of the manifest |
| `CacheLaws.AllocatorSoundIff` | crates/pf-cache/src/capture.rs:47-74 | after a restore into a fresh pager, for any manifest that can be read: the next index is past every page if and only if every index is below the number of pages listed |
| `CacheLaws.DistinctSoundIffDense` | crates/pf-cache/src/capture.rs:62-68 | for distinct indices, if and only if they are 0, 1, ..., n - 1 |
| `CacheLaws.CapturedIndicesDistinct` | crates/pf-cache/src/serialize.rs:19-45 | the indices of a captured page map are distinct, so density is what a restored capture needs |
| `CacheLaws.RepeatedIndexIsSound` | crates/pf-cache/src/capture.rs:62-68 | a manifest that repeats an index, restores soundly and is not dense |
| `CacheLaws.DeserializeReadsOnly` | crates/pf-cache/src/serialize.rs:51-84 | stores that agree on the manifest and its page digests deserialise alike, failures included |
| `Snapshot.InterleavingsAgree` | crates/pf-core/src/snapshot.rs:123-146 | captures that choose each put and their layer from the digests returned so far: any two interleavings that run to the end leave the same store, the same digests and the same layers |
| `Snapshot.CapturesAreIndependent` | crates/pf-core/src/snapshot.rs:128-146 | at every point of every interleaving a capture has received exactly what it receives when it runs alone |
| `Snapshot.Finish` | crates/pf-core/src/snapshot.rs:141-180 | the first failed capture fails the snapshot and stores nothing; otherwise the manifest of the returned layers and its marker are stored |
| `Snapshot.SnapshotOfFive` | crates/pf-core/src/snapshot.rs:149-177 | five captures of the five kinds always give a manifest that refers to exactly what they returned, with the agent, the instant, the parents and the media type |
| `Snapshot.SnapshotIff` | crates/pf-core/src/snapshot.rs:141-177 | for any list of captures: it succeeds if and only if every capture returned a layer and all five kinds are among them, and the manifest refers to the last layer of each kind |

## Left out

- Network registries (Hugging Face, OCI, S3, IPFS), browser and process capture, adapters and language bindings: foreign services and operating-system I/O.
- SHA-256, HMAC, zstd, JSON text, RFC 3339 text and glob syntax themselves: they are parameters, and a glob is an arbitrary predicate on paths.
- Floating point: weights and draws are real numbers, so rounding, infinities and NaN (which JSON cannot carry) are not modelled.
- The output permutation of SplitMix64: each draw is an arbitrary function of the 64-bit state, whose stepping is modelled exactly.
- Numeric overflow of `clean_paths` and of the report of `pf gc`, and of the LoRA shape products: counts are natural numbers. `page_bytes` wraps at 64 bits, as in a release build.
- Following symbolic links during a capture, the APFS clone, names that are not Unicode, unreadable directories, and reading `.pfignore` files.
- Enforcement of permissions, fsync and power loss.
- FsRestore.RestoreTree: what lies outside the root is not modelled, so a restore whose paths lead out ends there as `LeavesRoot`, where the program goes on with whatever is outside; the slash at the end of a link's target is ignored; the `.pf-restore.*` directory that a failed restore leaves behind is not part of the outcome.
- Landing.RestoreUndoesCaptureIff: permissions are applied and never enforced; a directory without write permission that holds a file makes the program's second pass fail, because the first pass has applied the mode already.
- Placement.RestorableIff: permissions likewise.
- FsCapture.Capture: sockets, pipes and devices, on which reading blocks or fails, are not among the nodes of a tree.
- FsCapture.Capture: files are hashed one after another instead of on a thread pool; `Cas.PutsCommute` is why the order of the puts does not matter.
- Gc.Sweep: shard directories are walked as one set of files, and errors when a file is removed, which the program ignores, do not occur.
- Registry.RegistryDir.Push: the signature file is a record, not its JSON text, and one whose write was cut off counts as unreadable at whatever byte; a digest too short to name a file fails the push, where the program panics.
- PutProtocol: writing is a sequence of partial writes in order; disk-full and other I/O errors end a put as failed.
- Snapshot.InterleavingsAgree: a capture learns of the store only through the digests its puts return; captures that read blobs others wrote are not modelled.
- Proxy.OneEntryPerInvoke: what a tool does, how long it takes and whether it answers are up to the environment; the two locks make each step atomic.
- Environment redaction, quiesce and pause guards, command-line parsing and printing, `ReplayPolicy::decide`, benchmarks and fixtures: each is settled by reading one branch.
