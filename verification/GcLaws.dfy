/** Garbage collection is safe, exact and idempotent. */
module GcLaws {
  import opened Base
  import opened Sorting
  import opened Tree
  import opened CacheFormat
  import opened Manifests
  import opened DiskStore
  import opened Gc
  import FsRestore
  import Cache
  import CacheLaws
  import Cas

  // ---------- what survives ----------

  /** A marked digest reads the same before and after the sweep; an unmarked one
      reads as missing. */
  lemma {:induction false} FetchAfterSweep(p: Prim, files: BlobFiles, reachable: set<Digest>, d: Digest)
    requires Lawful(p)
    ensures Fetch(p, Swept(files, reachable), d) == if d in reachable then Fetch(p, files, d) else None
  {
    if Fetch(p, files, d).Some? {
      FetchedIsDigest(p, files, d);
      DigestName(d);
    }
    if Fetch(p, Swept(files, reachable), d).Some? {
      FetchedIsDigest(p, Swept(files, reachable), d);
      DigestName(d);
    }
  }

  /** Exactly the blobs that were there and are reachable can still be read, and
      they read the same. */
  lemma {:induction false} SurvivorsAreTheReachable(p: Prim, files: BlobFiles, reachable: set<Digest>)
    requires Lawful(p)
    ensures
      var before, after := View(p, files), View(p, Swept(files, reachable));
      forall d :: Cas.Lookup(after, d) == if d in reachable then Cas.Lookup(before, d) else None
  {
    forall d
      ensures Cas.Lookup(View(p, Swept(files, reachable)), d)
           == if d in reachable then Cas.Lookup(View(p, files), d) else None
    {
      FetchAfterSweep(p, files, reachable, d);
      ViewIsFetch(p, files, d);
      ViewIsFetch(p, Swept(files, reachable), d);
    }
  }

  // ---------- safety ----------

  /** The mark set covers whatever restoring the tree fetches and finds. */
  lemma {:induction false} TreeReadsMarked(p: Prim, blobs: Cas.Blobs, m: Manifest, d: Digest)
    requires FsRestore.Fetches(p, blobs, m.worldFs, d) && IsDigest(d)
    ensures RefersTo(p, blobs, m, d)
  {
    AllRefsIff(p, blobs, m, d);
    if d != m.worldFs {
      var es := ReadTree(p, blobs[m.worldFs]).value;
      var i :| 0 <= i < |es| && FsRestore.NamesFile(es[i], d);
      TreeRefsCover(p, blobs[m.worldFs], i);
    }
  }

  lemma {:induction false} PageReadsMarked(p: Prim, blobs: Cas.Blobs, m: Manifest, d: Digest)
    requires CacheLaws.Fetches(p, blobs, m.cacheManifest, d) && IsDigest(d)
    ensures RefersTo(p, blobs, m, d)
  {
    AllRefsIff(p, blobs, m, d);
    if d != m.cacheManifest {
      var pages := ReadManifest(p, blobs[m.cacheManifest]).value.pages;
      var i :| 0 <= i < |pages| && CacheLaws.NamesPart(pages[i], d);
      CacheRefsCover(p, blobs[m.cacheManifest], i);
    }
  }

  lemma {:induction false} MarkedReadsKept(p: Prim, c: ManifestCodec, files: BlobFiles, kept: seq<Image>, im: Image, d: Digest)
    requires Lawful(p) && im in kept
    requires d == im.cid || RefersTo(p, View(p, files), im.manifest, d) || !IsDigest(d)
    ensures
      var before := View(p, files);
      Cas.Lookup(View(p, Swept(files, Reachable(p, c, before, kept))), d) == Cas.Lookup(before, d)
  {
    var reachable := Reachable(p, c, View(p, files), kept);
    ReachableIffNeeded(p, c, View(p, files), kept, d);
    SurvivorsAreTheReachable(p, files, reachable);
    ViewIsKeyed(p, files);
  }

  /** Every layer of the manifest reads alike. */
  ghost predicate SameLayers(m: Manifest, before: Cas.Blobs, after: Cas.Blobs) {
    && Cas.Lookup(after, m.modelBase) == Cas.Lookup(before, m.modelBase)
    && Cas.Lookup(after, m.modelDiff) == Cas.Lookup(before, m.modelDiff)
    && Cas.Lookup(after, m.cacheManifest) == Cas.Lookup(before, m.cacheManifest)
    && Cas.Lookup(after, m.worldFs) == Cas.Lookup(before, m.worldFs)
    && Cas.Lookup(after, m.worldEnv) == Cas.Lookup(before, m.worldEnv)
    && Cas.Lookup(after, m.worldProcs) == Cas.Lookup(before, m.worldProcs)
    && Cas.Lookup(after, m.ledger) == Cas.Lookup(before, m.ledger)
    && Cas.Lookup(after, m.messages) == Cas.Lookup(before, m.messages)
  }

  /** For every store and retention count, a retained image has the same
      manifest blob, restores the same tree and yields the same cache pages as
      before, failures included. */
  lemma {:induction false} RetainedImagesUnharmed(p: Prim, c: ManifestCodec, files: BlobFiles, kept: seq<Image>, im: Image,
                                                  f: FsRestore.System, opts: FsRestore.Options)
    requires Lawful(p) && im in kept
    ensures
      var before := View(p, files);
      var after := View(p, Swept(files, Reachable(p, c, before, kept)));
      && Cas.Lookup(after, im.cid) == Cas.Lookup(before, im.cid) && SameLayers(im.manifest, before, after)
      && (forall d :: RefersTo(p, before, im.manifest, d) ==> Cas.Lookup(after, d) == Cas.Lookup(before, d))
      && FsRestore.Restored(p, f, opts, after, im.manifest.worldFs) == FsRestore.Restored(p, f, opts, before, im.manifest.worldFs)
      && Cache.Deserialize(p, after, im.manifest.cacheManifest) == Cache.Deserialize(p, before, im.manifest.cacheManifest)
  {
    var before := View(p, files);
    var after := View(p, Swept(files, Reachable(p, c, before, kept)));
    MarkedReadsKept(p, c, files, kept, im, im.cid);
    forall d | RefersTo(p, before, im.manifest, d)
      ensures Cas.Lookup(after, d) == Cas.Lookup(before, d)
    {
      MarkedReadsKept(p, c, files, kept, im, d);
    }
    forall d | FsRestore.Fetches(p, before, im.manifest.worldFs, d)
      ensures Cas.Lookup(before, d) == Cas.Lookup(after, d)
    {
      if IsDigest(d) {
        TreeReadsMarked(p, before, im.manifest, d);
      }
      MarkedReadsKept(p, c, files, kept, im, d);
    }
    FsRestore.RestoreReadsOnly(p, f, opts, before, after, im.manifest.worldFs);
    forall d | CacheLaws.Fetches(p, before, im.manifest.cacheManifest, d)
      ensures Cas.Lookup(before, d) == Cas.Lookup(after, d)
    {
      if IsDigest(d) {
        PageReadsMarked(p, before, im.manifest, d);
      }
      MarkedReadsKept(p, c, files, kept, im, d);
    }
    CacheLaws.DeserializeReadsOnly(p, before, after, im.manifest.cacheManifest);
  }

  // ---------- what a checkout reads ----------

  /** The manifest that `get_manifest` reads under a content-id. The marker, by
      which the run goes, may hold another. */
  function BlobManifest(c: ManifestCodec, blobs: Cas.Blobs, cid: Digest): Option<Manifest> {
    match Cas.Lookup(blobs, cid)
    case Some(bytes) => c.decode(bytes)
    case None => None
  }

  /** A retained image is read by a checkout as before, and the tree it names
      restores as before if and only if what that fetches is marked. */
  lemma {:induction false} CheckedOutTreeUnharmedIff(p: Prim, c: ManifestCodec, files: BlobFiles, kept: seq<Image>, im: Image,
                                                     f: FsRestore.System, opts: FsRestore.Options)
    requires Lawful(p) && im in kept && BlobManifest(c, View(p, files), im.cid).Some?
    requires FsRestore.Restored(p, f, opts, View(p, files), BlobManifest(c, View(p, files), im.cid).value.worldFs).Success?
    ensures
      var before := View(p, files);
      var reachable := Reachable(p, c, before, kept);
      var after, tree := View(p, Swept(files, reachable)), BlobManifest(c, before, im.cid).value.worldFs;
      && BlobManifest(c, after, im.cid) == BlobManifest(c, before, im.cid)
      && (FsRestore.Restored(p, f, opts, after, tree) == FsRestore.Restored(p, f, opts, before, tree)
          <==> forall d :: FsRestore.Fetches(p, before, tree, d) ==> d in reachable)
  {
    var before := View(p, files);
    var reachable := Reachable(p, c, before, kept);
    var after, tree := View(p, Swept(files, reachable)), BlobManifest(c, before, im.cid).value.worldFs;
    MarkedReadsKept(p, c, files, kept, im, im.cid);
    SurvivorsAreTheReachable(p, files, reachable);
    if forall d :: FsRestore.Fetches(p, before, tree, d) ==> d in reachable {
      FsRestore.RestoreReadsOnly(p, f, opts, before, after, tree);
    } else {
      var d :| FsRestore.Fetches(p, before, tree, d) && d !in reachable;
      FsRestore.RestoredFetchedAll(p, f, opts, before, tree, d);
      assert Cas.Lookup(after, d) == None;
      if FsRestore.Restored(p, f, opts, after, tree).Success? {
        FsRestore.RestoredFetchedAll(p, f, opts, after, tree, tree);
        assert Cas.Lookup(after, tree) == Cas.Lookup(before, tree);
        FsRestore.RestoredFetchedAll(p, f, opts, after, tree, d);
      }
    }
  }

  /** The same for the pages of the cache it names. */
  lemma {:induction false} CheckedOutPagesUnharmedIff(p: Prim, c: ManifestCodec, files: BlobFiles, kept: seq<Image>, im: Image)
    requires Lawful(p) && im in kept && BlobManifest(c, View(p, files), im.cid).Some?
    requires Cache.Deserialize(p, View(p, files), BlobManifest(c, View(p, files), im.cid).value.cacheManifest).Success?
    ensures
      var before := View(p, files);
      var reachable := Reachable(p, c, before, kept);
      var after, pages := View(p, Swept(files, reachable)), BlobManifest(c, before, im.cid).value.cacheManifest;
      Cache.Deserialize(p, after, pages) == Cache.Deserialize(p, before, pages)
      <==> forall d :: CacheLaws.Fetches(p, before, pages, d) ==> d in reachable
  {
    var before := View(p, files);
    var reachable := Reachable(p, c, before, kept);
    var after, pages := View(p, Swept(files, reachable)), BlobManifest(c, before, im.cid).value.cacheManifest;
    SurvivorsAreTheReachable(p, files, reachable);
    if forall d :: CacheLaws.Fetches(p, before, pages, d) ==> d in reachable {
      CacheLaws.DeserializeReadsOnly(p, before, after, pages);
    } else {
      var d :| CacheLaws.Fetches(p, before, pages, d) && d !in reachable;
      CacheLaws.DeserializedFetchedAll(p, before, pages, d);
      assert Cas.Lookup(after, d) == None;
      if Cache.Deserialize(p, after, pages).Success? {
        CacheLaws.DeserializedFetchedAll(p, after, pages, pages);
        assert Cas.Lookup(after, pages) == Cas.Lookup(before, pages);
        CacheLaws.DeserializedFetchedAll(p, after, pages, d);
      }
    }
  }

  /** If the marker of the only image holds another manifest, which does not refer to
      the tree of the blob, the run retains the image and deletes its tree. */
  lemma {:induction false} MisleadingMarker(p: Prim, c: ManifestCodec, files: BlobFiles, im: Image,
                                            f: FsRestore.System, opts: FsRestore.Options)
    requires Lawful(p) && BlobManifest(c, View(p, files), im.cid).Some?
    requires !Needs(p, c, View(p, files), im, BlobManifest(c, View(p, files), im.cid).value.worldFs)
    ensures
      var before := View(p, files);
      var after, tree := View(p, Swept(files, Reachable(p, c, before, [im]))), BlobManifest(c, before, im.cid).value.worldFs;
      && BlobManifest(c, after, im.cid) == BlobManifest(c, before, im.cid)
      && FsRestore.Restored(p, f, opts, after, tree) == Failure(FsRestore.MissingBlob)
  {
    hide Needs, Reachable, Swept;
    var before := View(p, files);
    var reachable, tree := Reachable(p, c, before, [im]), BlobManifest(c, before, im.cid).value.worldFs;
    MarkedReadsKept(p, c, files, [im], im, im.cid);
    SurvivorsAreTheReachable(p, files, reachable);
    ReachableIffNeeded(p, c, before, [im], tree);
    assert Cas.Lookup(View(p, Swept(files, reachable)), tree) == None;
  }

  // ---------- which images stay ----------

  /** The retained images are the asked-for number of newest ones. */
  lemma {:induction false} KeptAreNewest(retain: nat, images: seq<Image>)
    requires DistinctCids(images)
    ensures
      var kept := Kept(retain, images);
      && |kept| == (if 0 < retain < |images| then retain else |images|)
      && DistinctCids(kept)
      && (forall im :: im in kept ==> im in images)
      && forall k, e :: k in kept && e in images && e !in kept ==> k.manifest.createdAt >= e.manifest.createdAt
  {
    SortedImages(images);
    forall k, e | k in Kept(retain, images) && e in images && e !in Kept(retain, images)
      ensures k.manifest.createdAt >= e.manifest.createdAt
    {
      KeptIsNewer(retain, images, k, e);
    }
  }

  lemma {:induction false} KeptIsNewer(retain: nat, images: seq<Image>, k: Image, e: Image)
    requires DistinctCids(images)
    requires k in Kept(retain, images) && e in images && e !in Kept(retain, images)
    ensures k.manifest.createdAt >= e.manifest.createdAt
  {
    var sorted, kept := Sort(images, NewestFirst), Kept(retain, images);
    SortedImages(images);
    var i :| 0 <= i < |kept| && kept[i] == k;
    var j :| 0 <= j < |sorted| && sorted[j] == e;
    assert forall q :: 0 <= q < |kept| ==> kept[q] == sorted[q] && kept[q] in kept;
    assert NewestFirst(sorted[i], sorted[j]);
  }

  /** An image that was put survives a run that retains all, marker and contents,
      exactly if it is listed. */
  lemma {:induction false} PutSurvivesGcIff(p: Prim, c: ManifestCodec, markers: Markers, m: Manifest, images: seq<Image>)
    requires Lawful(p) && LawfulManifests(c) && Timely(c, m) && ListsImages(c, MarkersAfterPut(p, c, markers, m), images)
    ensures
      var cid := Of(p, c.encode(m));
      Image(cid, m) in Kept(0, images) <==> MarkerName(cid) !in markers || c.decode(markers[MarkerName(cid)]) == Some(m)
  {
    PutIsListedIff(p, c, markers, m, images);
    SortedImages(images);
  }

  /** The markers after a run. */
  function MarkersAfter(retain: nat, images: seq<Image>, markers: Markers): Markers {
    markers - MarkerNames(Evicted(Sort(images, NewestFirst), Kept(retain, images)))
  }

  lemma {:induction false} KeptStillMarked(c: ManifestCodec, markers: Markers, images: seq<Image>, retain: nat, im: Image, name: string)
    requires ListsImages(c, markers, images) && im in Kept(retain, images)
    requires MarkedImage(c, markers, name) == Some(im)
    ensures MarkedImage(c, MarkersAfter(retain, images, markers), name) == Some(im)
  {
    var kept := Kept(retain, images);
    MarkerOf(c, markers, name);
    var i :| 0 <= i < |kept| && kept[i] == im;
    assert HasCid(kept, im.cid);
    KeptMarkerStays(c, markers, images, kept, im.cid);
  }

  lemma {:induction false} MarkedStillKept(c: ManifestCodec, markers: Markers, images: seq<Image>, retain: nat, im: Image, name: string)
    requires ListsImages(c, markers, images)
    requires MarkedImage(c, MarkersAfter(retain, images, markers), name) == Some(im)
    ensures MarkedImage(c, markers, name) == Some(im) && im in Kept(retain, images)
  {
    var kept, sorted := Kept(retain, images), Sort(images, NewestFirst);
    SortedImages(images);
    EvictedIs(sorted, kept);
    MarkerOf(c, markers, name);
    assert im in images && im in sorted;
    var j :| 0 <= j < |sorted| && sorted[j] == im;
    assert HasCid(sorted, im.cid);
    assert im.cid !in Evicted(sorted, kept);
    var i :| 0 <= i < |kept| && kept[i].cid == im.cid;
    assert kept[i] == sorted[i];
  }

  /** Afterwards the readable markers are those of the retained images. */
  lemma {:induction false} MarkersOfKept(c: ManifestCodec, markers: Markers, images: seq<Image>, retain: nat, im: Image)
    requires ListsImages(c, markers, images)
    ensures (exists name :: MarkedImage(c, MarkersAfter(retain, images, markers), name) == Some(im))
       <==> im in Kept(retain, images)
  {
    KeptAreNewest(retain, images);
    if im in Kept(retain, images) {
      var name :| MarkedImage(c, markers, name) == Some(im);
      KeptStillMarked(c, markers, images, retain, im, name);
    }
    if name :| MarkedImage(c, MarkersAfter(retain, images, markers), name) == Some(im) {
      MarkedStillKept(c, markers, images, retain, im, name);
    }
  }

  lemma {:induction false} KeptMarkerStays(c: ManifestCodec, markers: Markers, images: seq<Image>, kept: seq<Image>, cid: Digest)
    requires ListsImages(c, markers, images)
    requires HasCid(kept, cid) && IsDigest(cid)
    ensures MarkerName(cid) !in MarkerNames(Evicted(Sort(images, NewestFirst), kept))
  {
    var sorted := Sort(images, NewestFirst);
    SortedImages(images);
    EvictedIs(sorted, kept);
    forall other | other in Evicted(sorted, kept)
      ensures MarkerName(other) != MarkerName(cid)
    {
      var j :| 0 <= j < |sorted| && sorted[j].cid == other;
      assert sorted[j] in images;
      var name :| MarkedImage(c, markers, name) == Some(sorted[j]);
      MarkerOf(c, markers, name);
      MarkerNamesDiffer(other, cid);
    }
  }

  // ---------- a second run ----------

  /** What a retained image marks is the same after the sweep. */
  lemma {:induction false} SameMarks(p: Prim, c: ManifestCodec, files: BlobFiles, kept: seq<Image>, im: Image)
    requires Lawful(p) && im in kept
    ensures
      var before := View(p, files);
      Marks(p, c, View(p, Swept(files, Reachable(p, c, before, kept))), im) == Marks(p, c, before, im)
  {
    MarkedReadsKept(p, c, files, kept, im, im.manifest.worldFs);
    MarkedReadsKept(p, c, files, kept, im, im.manifest.cacheManifest);
  }

  lemma {:induction false} SameReachable(p: Prim, c: ManifestCodec, files: BlobFiles, kept: seq<Image>, again: seq<Image>)
    requires Lawful(p) && forall im :: im in again <==> im in kept
    ensures
      var before := View(p, files);
      var reachable := Reachable(p, c, before, kept);
      Reachable(p, c, View(p, Swept(files, reachable)), again) == reachable
  {
    var before := View(p, files);
    var reachable := Reachable(p, c, before, kept);
    var after := View(p, Swept(files, reachable));
    forall im | im in kept
      ensures Marks(p, c, before, im) == Marks(p, c, after, im)
    {
      SameMarks(p, c, files, kept, im);
    }
    forall d
      ensures d in Reachable(p, c, after, again) <==> d in reachable
    {
      ReachableIs(p, c, after, again, d);
      ReachableIs(p, c, before, kept, d);
    }
  }

  lemma {:induction false} SameLength(s: seq<Image>, t: seq<Image>)
    requires DistinctCids(s) && DistinctCids(t) && forall im :: im in s <==> im in t
    ensures |s| == |t|
  {
    forall im
      ensures multiset(s)[im] == multiset(t)[im]
    {
      OnceInDistinct(s, im);
      OnceInDistinct(t, im);
      assert im in multiset(s) <==> im in s;
      assert im in multiset(t) <==> im in t;
      assert im in s <==> im in t;
    }
    assert multiset(s) == multiset(t);
    SameElements(s, t);
  }

  /** A second run with the same count, whatever order it lists the markers in,
      retains the same images, finds no garbage and evicts nothing. */
  lemma {:induction false} SecondRunDeletesNothing(p: Prim, c: ManifestCodec, files: BlobFiles, markers: Markers, retain: nat,
                                                   images: seq<Image>, again: seq<Image>)
    requires Lawful(p) && ListsImages(c, markers, images)
    requires ListsImages(c, MarkersAfter(retain, images, markers), again)
    ensures
      var kept := Kept(retain, images);
      var files' := Swept(files, Reachable(p, c, View(p, files), kept));
      var kept' := Kept(retain, again);
      && (forall im :: im in kept' <==> im in kept)
      && Doomed(files', Reachable(p, c, View(p, files'), kept')) == {}
      && Evicted(Sort(again, NewestFirst), kept') == []
  {
    var kept, kept' := Kept(retain, images), Kept(retain, again);
    KeptAgain(c, markers, retain, images, again);
    SameReachable(p, c, files, kept, kept');
    var sorted := Sort(again, NewestFirst);
    forall i | 0 <= i < |sorted|
      ensures HasCid(kept', sorted[i].cid)
    {
      assert kept'[i] == sorted[i];
    }
    NoneEvicted(sorted, kept');
  }

  lemma {:induction false} NoneEvicted(all: seq<Image>, kept: seq<Image>)
    requires forall i :: 0 <= i < |all| ==> HasCid(kept, all[i].cid)
    ensures Evicted(all, kept) == []
  {
    if all != [] {
      NoneEvicted(all[..|all| - 1], kept);
    }
  }

  lemma {:induction false} KeptAgain(c: ManifestCodec, markers: Markers, retain: nat, images: seq<Image>, again: seq<Image>)
    requires ListsImages(c, markers, images)
    requires ListsImages(c, MarkersAfter(retain, images, markers), again)
    ensures Kept(retain, again) == Sort(again, NewestFirst)
    ensures forall im :: im in Kept(retain, again) <==> im in Kept(retain, images)
  {
    KeptAreNewest(retain, images);
    forall im
      ensures im in again <==> im in Kept(retain, images)
    {
      MarkersOfKept(c, markers, images, retain, im);
    }
    SameLength(again, Kept(retain, images));
    SortedImages(again);
  }
}
