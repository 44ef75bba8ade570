/** `pf gc`: keep the newest images, mark everything they refer to, sweep the
    other blobs, and prune the markers of the evicted images. */
module Gc {
  import opened Base
  import opened Sorting
  import opened Manifests
  import opened DiskStore
  import Cas

  datatype Report = Report(blobs: nat, bytes: nat, markers: nat)

  predicate NewestFirst(a: Image, b: Image) { a.manifest.createdAt >= b.manifest.createdAt }

  /** The images retained; a count of zero retains all. */
  function Kept(retain: nat, images: seq<Image>): seq<Image> {
    var sorted := Sort(images, NewestFirst);
    if retain > 0 && |sorted| > retain then sorted[..retain] else sorted
  }

  predicate HasCid(images: seq<Image>, cid: Digest) { exists i :: 0 <= i < |images| && images[i].cid == cid }

  /** Content-ids of the images that are not retained. */
  function Evicted(all: seq<Image>, kept: seq<Image>): seq<Digest> {
    if all == [] then []
    else
      var n := |all| - 1;
      Evicted(all[..n], kept) + (if HasCid(kept, all[n].cid) then [] else [all[n].cid])
  }

  // ---------- mark ----------

  function Elements(ds: seq<Digest>): set<Digest> { set d | d in ds }

  /** What one retained image keeps alive. */
  function Marks(p: Prim, c: ManifestCodec, blobs: Cas.Blobs, im: Image): set<Digest> {
    {im.cid, Of(p, c.encode(im.manifest))} + Elements(AllRefs(p, blobs, im.manifest))
  }

  function Reachable(p: Prim, c: ManifestCodec, blobs: Cas.Blobs, kept: seq<Image>): set<Digest> {
    if kept == [] then {} else Reachable(p, c, blobs, kept[..|kept| - 1]) + Marks(p, c, blobs, kept[|kept| - 1])
  }

  lemma {:induction false} ReachableIs(p: Prim, c: ManifestCodec, blobs: Cas.Blobs, kept: seq<Image>, d: Digest)
    ensures d in Reachable(p, c, blobs, kept) <==> exists im :: im in kept && d in Marks(p, c, blobs, im)
  {
    if kept != [] {
      var n := |kept| - 1;
      assert kept == kept[..n] + [kept[n]];
      ReachableIs(p, c, blobs, kept[..n], d);
    }
  }

  /** A retained image needs its own two names and all that its manifest refers to. */
  ghost predicate Needs(p: Prim, c: ManifestCodec, blobs: Cas.Blobs, im: Image, d: Digest) {
    d == im.cid || d == Of(p, c.encode(im.manifest)) || RefersTo(p, blobs, im.manifest, d)
  }

  ghost predicate Needed(p: Prim, c: ManifestCodec, blobs: Cas.Blobs, kept: seq<Image>, d: Digest) {
    exists im :: im in kept && Needs(p, c, blobs, im, d)
  }

  /** The mark set holds what a retained image needs, and nothing else. */
  lemma {:induction false} ReachableIffNeeded(p: Prim, c: ManifestCodec, blobs: Cas.Blobs, kept: seq<Image>, d: Digest)
    ensures d in Reachable(p, c, blobs, kept) <==> Needed(p, c, blobs, kept, d)
  {
    ReachableIs(p, c, blobs, kept, d);
    forall im
      ensures d in Marks(p, c, blobs, im) <==> Needs(p, c, blobs, im, d)
    {
      AllRefsIff(p, blobs, im.manifest, d);
    }
  }

  /** A blob file goes exactly if its name is a digest that no retained image needs. */
  ghost predicate OnlyNeeded(p: Prim, c: ManifestCodec, files: BlobFiles, kept: seq<Image>, after: BlobFiles) {
    && (forall f :: f in after ==> f in files && after[f] == files[f])
    && forall f :: f in files ==>
         (f in after <==> NameDigest(f.name).None? || Needed(p, c, View(p, files), kept, NameDigest(f.name).value))
  }

  lemma {:induction false} SweptOnlyNeeded(p: Prim, c: ManifestCodec, files: BlobFiles, kept: seq<Image>)
    ensures OnlyNeeded(p, c, files, kept, Swept(files, Reachable(p, c, View(p, files), kept)))
  {
    forall f | f in files && NameDigest(f.name).Some?
      ensures NameDigest(f.name).value in Reachable(p, c, View(p, files), kept) <==>
        Needed(p, c, View(p, files), kept, NameDigest(f.name).value)
    {
      ReachableIffNeeded(p, c, View(p, files), kept, NameDigest(f.name).value);
    }
  }

  method Mark(p: Prim, c: ManifestCodec, blobs: Cas.Blobs, kept: seq<Image>) returns (reachable: set<Digest>)
    ensures reachable == Reachable(p, c, blobs, kept)
  {
    reachable := {};
    for i := 0 to |kept|
      invariant reachable == Reachable(p, c, blobs, kept[..i])
    {
      assert kept[..i + 1][..i] == kept[..i];
      var marks := MarkOne(p, c, blobs, kept[i]);
      reachable := reachable + marks;
    }
    assert kept[..|kept|] == kept;
  }

  method MarkOne(p: Prim, c: ManifestCodec, blobs: Cas.Blobs, im: Image) returns (marks: set<Digest>)
    ensures marks == Marks(p, c, blobs, im)
  {
    marks := {im.cid};
    marks := marks + Elements(LayerDigests(im.manifest));
    marks := marks + {Of(p, c.encode(im.manifest))};
    var transitive := TransitiveBlobDigests(p, im.manifest, blobs);
    FirstsOf(AllRefs(p, blobs, im.manifest));
    marks := marks + Elements(transitive);
  }

  // ---------- sweep ----------

  /** A blob file is deleted if its name is a digest that was not marked. */
  predicate Garbage(f: BlobFile, reachable: set<Digest>) {
    NameDigest(f.name).Some? && NameDigest(f.name).value !in reachable
  }

  function Doomed(files: BlobFiles, reachable: set<Digest>): set<BlobFile> {
    set f | f in files && Garbage(f, reachable)
  }

  function Swept(files: BlobFiles, reachable: set<Digest>): BlobFiles {
    map f | f in files && !Garbage(f, reachable) :: files[f]
  }

  /** Bytes on disk of some of the files. */
  ghost function TotalSize(files: BlobFiles, fs: set<BlobFile>): nat
    requires fs <= files.Keys
  {
    if fs == {} then 0 else var f :| f in fs; |files[f]| + TotalSize(files, fs - {f})
  }

  lemma {:induction false} TotalSizeAdd(files: BlobFiles, fs: set<BlobFile>, f: BlobFile)
    requires fs <= files.Keys && f in files && f !in fs
    ensures TotalSize(files, fs + {f}) == TotalSize(files, fs) + |files[f]|
    decreases |fs|
  {
    var all := fs + {f};
    var g :| g in all && TotalSize(files, all) == |files[g]| + TotalSize(files, all - {g});
    if g == f {
      assert all - {g} == fs;
    } else {
      TotalSizeAdd(files, fs - {g}, f);
      assert all - {g} == (fs - {g}) + {f};
      TotalSizeAdd(files, fs - {g}, g);
      assert (fs - {g}) + {g} == fs;
    }
  }

  /** Sizes are those of single files and add up. */
  lemma {:induction false} SizesAdd(files: BlobFiles, fs: set<BlobFile>, gs: set<BlobFile>, f: BlobFile)
    requires fs !! gs && fs + gs <= files.Keys && f in files
    ensures TotalSize(files, {f}) == |files[f]|
    ensures TotalSize(files, fs + gs) == TotalSize(files, fs) + TotalSize(files, gs)
    decreases |gs|
  {
    TotalSizeAdd(files, {}, f);
    assert {} + {f} == {f};
    if g :| g in gs {
      SizesAdd(files, fs, gs - {g}, f);
      TotalSizeAdd(files, fs + (gs - {g}), g);
      TotalSizeAdd(files, gs - {g}, g);
      assert fs + (gs - {g}) + {g} == fs + gs && gs - {g} + {g} == gs;
    } else {
      assert fs + gs == fs;
    }
  }

  /** What was counted once all files but `todo` have been visited. */
  ghost predicate Counted(files: BlobFiles, reachable: set<Digest>, todo: set<BlobFile>, count: nat, bytes: nat) {
    var gone := Doomed(files, reachable) - todo;
    todo <= files.Keys && gone <= files.Keys && count == |gone| && bytes == TotalSize(files, gone)
  }

  function Remaining(files: BlobFiles, reachable: set<Digest>, todo: set<BlobFile>): BlobFiles {
    map f | f in files && (f in todo || !Garbage(f, reachable)) :: files[f]
  }

  lemma {:induction false} SweepStep(files: BlobFiles, reachable: set<Digest>, todo: set<BlobFile>, f: BlobFile, count: nat, bytes: nat)
    requires Counted(files, reachable, todo, count, bytes) && f in todo
    ensures
      if Garbage(f, reachable) then Counted(files, reachable, todo - {f}, count + 1, bytes + |files[f]|)
      else Counted(files, reachable, todo - {f}, count, bytes)
  {
    var gone, gone' := Doomed(files, reachable) - todo, Doomed(files, reachable) - (todo - {f});
    if Garbage(f, reachable) {
      assert gone' == gone + {f};
      TotalSizeAdd(files, gone, f);
    } else {
      assert gone' == gone;
    }
  }

  lemma {:induction false} RemainingStep(files: BlobFiles, reachable: set<Digest>, todo: set<BlobFile>, f: BlobFile)
    requires f in todo && f in files
    ensures f in Remaining(files, reachable, todo) && Remaining(files, reachable, todo)[f] == files[f]
    ensures Remaining(files, reachable, todo - {f})
         == if Garbage(f, reachable) then Remaining(files, reachable, todo) - {f} else Remaining(files, reachable, todo)
  {
  }

  method Sweep(store: PfStore, reachable: set<Digest>, dryRun: bool) returns (count: nat, bytes: nat)
    modifies store`files
    ensures store.files == if dryRun then old(store.files) else Swept(old(store.files), reachable)
    ensures Counted(old(store.files), reachable, {}, count, bytes)
  {
    ghost var files := store.files;
    count, bytes := 0, 0;
    var todo := store.files.Keys;
    while todo != {}
      invariant Counted(files, reachable, todo, count, bytes)
      invariant store.files == if dryRun then files else Remaining(files, reachable, todo)
    {
      var f :| f in todo;
      SweepStep(files, reachable, todo, f, count, bytes);
      RemainingStep(files, reachable, todo, f);
      todo := todo - {f};
      if Garbage(f, reachable) {
        count := count + 1;
        bytes := bytes + |store.files[f]|;
        if !dryRun {
          store.files := store.files - {f};
        }
      }
    }
  }

  // ---------- markers ----------

  function MarkerNames(cids: seq<Digest>): set<string> { set cid | cid in cids :: MarkerName(cid) }

  /** Each content-id has a marker of its own. */
  ghost predicate Prunable(markers: Markers, cids: seq<Digest>) {
    && (forall i, j :: 0 <= i < j < |cids| ==> MarkerName(cids[i]) != MarkerName(cids[j]))
    && forall i :: 0 <= i < |cids| ==> MarkerName(cids[i]) in markers
  }

  method Prune(store: PfStore, cids: seq<Digest>, dryRun: bool) returns (count: nat)
    requires Prunable(store.markers, cids)
    modifies store`markers
    ensures store.markers == if dryRun then old(store.markers) else old(store.markers) - MarkerNames(cids)
    ensures count == |cids|
  {
    count := 0;
    for i := 0 to |cids|
      invariant count == i
      invariant store.markers == if dryRun then old(store.markers) else old(store.markers) - MarkerNames(cids[..i])
    {
      var marker := MarkerName(cids[i]);
      if marker in store.markers {
        count := count + 1;
        if !dryRun {
          store.markers := store.markers - {marker};
        }
      }
    }
    assert cids[..|cids|] == cids;
  }

  // ---------- the command ----------

  /** One run. `images` is the order in which the markers happened to be listed;
      it decides only between images of one age. A dry run changes nothing and
      reports the same numbers. */
  method Run(p: Prim, c: ManifestCodec, store: PfStore, retain: nat, dryRun: bool)
    returns (report: Report, ghost images: seq<Image>)
    requires Lawful(p)
    modifies store
    ensures ListsImages(c, old(store.markers), images)
    ensures
      var reachable := Reachable(p, c, View(p, old(store.files)), Kept(retain, images));
      var evicted := Evicted(Sort(images, NewestFirst), Kept(retain, images));
      && Counted(old(store.files), reachable, {}, report.blobs, report.bytes)
      && report.markers == |evicted|
      && store.files == (if dryRun then old(store.files) else Swept(old(store.files), reachable))
      && store.markers == if dryRun then old(store.markers) else old(store.markers) - MarkerNames(evicted)
    ensures !dryRun ==> OnlyNeeded(p, c, old(store.files), Kept(retain, images), store.files)
  {
    var all := store.IterManifests(c);
    images := all;
    all := Sort(all, NewestFirst);
    var kept := if retain > 0 && |all| > retain then all[..retain] else all;
    var evicted := Evict(all, kept);
    EvictedMarkers(c, store.markers, images, kept);
    var reachable := Mark(p, c, View(p, store.files), kept);
    SweptOnlyNeeded(p, c, store.files, kept);
    var count, bytes := Sweep(store, reachable, dryRun);
    var markers := Prune(store, evicted, dryRun);
    report := Report(count, bytes, markers);
  }

  method Evict(all: seq<Image>, kept: seq<Image>) returns (evicted: seq<Digest>)
    ensures evicted == Evicted(all, kept)
  {
    var keptCids := set i | 0 <= i < |kept| :: kept[i].cid;
    evicted := [];
    for i := 0 to |all|
      invariant evicted == Evicted(all[..i], kept)
    {
      assert all[..i + 1][..i] == all[..i];
      if all[i].cid !in keptCids {
        evicted := evicted + [all[i].cid];
      }
    }
    assert all[..|all|] == all;
  }

  ghost predicate DistinctCids(images: seq<Image>) {
    forall i, j :: 0 <= i < j < |images| ==> images[i].cid != images[j].cid
  }

  ghost predicate Distinct<T>(xs: seq<T>) { forall i, j :: 0 <= i < j < |xs| ==> xs[i] != xs[j] }

  lemma {:induction false} EvictedIs(all: seq<Image>, kept: seq<Image>)
    ensures forall cid :: cid in Evicted(all, kept) <==> HasCid(all, cid) && !HasCid(kept, cid)
    ensures DistinctCids(all) ==> Distinct(Evicted(all, kept))
  {
    if all != [] {
      var n := |all| - 1;
      EvictedIs(all[..n], kept);
    }
  }

  /** Sorting keeps the images and keeps them distinct. */
  lemma {:induction false} SortedImages(images: seq<Image>)
    requires DistinctCids(images)
    ensures
      var sorted := Sort(images, NewestFirst);
      && DistinctCids(sorted) && Sorted(sorted, NewestFirst) && |sorted| == |images|
      && forall im :: im in sorted <==> im in images
  {
    var sorted := Sort(images, NewestFirst);
    SortSorts(images, NewestFirst);
    DistinctPermuted(images, sorted);
    forall i, j | 0 <= i < j < |sorted|
      ensures sorted[i].cid != sorted[j].cid
    {
      assert sorted[i] in images && sorted[j] in images;
    }
  }

  lemma {:induction false} MarkerNamesDiffer(d: Digest, e: Digest)
    requires IsDigest(d) && IsDigest(e) && d != e
    ensures MarkerName(d) != MarkerName(e)
  {
    assert d == PREFIX + HexPart(d) && e == PREFIX + HexPart(e);
    assert MarkerName(d)[..64] == HexPart(d) && MarkerName(e)[..64] == HexPart(e);
  }

  /** Each evicted image has its own marker. */
  lemma {:induction false} EvictedMarkers(c: ManifestCodec, markers: Markers, images: seq<Image>, kept: seq<Image>)
    requires ListsImages(c, markers, images)
    ensures Prunable(markers, Evicted(Sort(images, NewestFirst), kept))
  {
    var all := Sort(images, NewestFirst);
    var cids := Evicted(all, kept);
    SortedImages(images);
    EvictedIs(all, kept);
    forall i | 0 <= i < |cids|
      ensures MarkerName(cids[i]) in markers && IsDigest(cids[i])
    {
      assert cids[i] in cids;
      var j :| 0 <= j < |all| && all[j].cid == cids[i];
      assert all[j] in images;
      var name :| MarkedImage(c, markers, name) == Some(all[j]);
      MarkerOf(c, markers, name);
    }
    forall i, j | 0 <= i < j < |cids|
      ensures MarkerName(cids[i]) != MarkerName(cids[j])
    {
      MarkerNamesDiffer(cids[i], cids[j]);
    }
  }
}
