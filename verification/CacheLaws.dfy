/** What capturing and restoring a paged cache promises. */
module CacheLaws {
  import opened Bits
  import opened Base
  import opened Sorting
  import opened CacheFormat
  import opened Cache
  import Cas

  // ---------- what the store gains ----------

  lemma {:induction false} PayloadOf(held: seq<Held>, b: Bytes)
    ensures b in Payloads(held) <==> exists h :: h in held && (b == h.1.k || b == h.1.v)
  {
    if held != [] {
      var n := |held| - 1;
      PayloadOf(held[..n], b);
      assert held == held[..n] + [held[n]];
    }
  }

  lemma {:induction false} HeldIn(pages: map<u32, PageBytes>, ixs: seq<u32>, h: Held)
    requires forall i :: 0 <= i < |ixs| ==> ixs[i] in pages
    ensures h in HeldAt(pages, ixs) <==> h.0 in ixs && h.1 == pages[h.0]
  {
    if ixs != [] {
      var n := |ixs| - 1;
      HeldIn(pages, ixs[..n], h);
      assert ixs == ixs[..n] + [ixs[n]];
    }
  }

  lemma {:induction false} AllHeldIn(pages: map<u32, PageBytes>, h: Held)
    ensures h in AllHeld(pages) <==> h.0 in pages && h.1 == pages[h.0]
  {
    IndicesOccupied(pages);
    HeldIn(pages, Indices(pages), h);
  }

  /** A digest of the K or the V part of some page. */
  ghost predicate PartOf(p: Prim, pages: map<u32, PageBytes>, d: Digest) {
    exists ix :: ix in pages && (d == Of(p, pages[ix].k) || d == Of(p, pages[ix].v))
  }

  /** A capture adds the digests of all page halves and of the manifest, where
      they are missing, and nothing else. */
  lemma {:induction false} CaptureGrowsBy(p: Prim, meta: CacheMeta, pages: map<u32, PageBytes>,
                                          seqs: seq<LogicalSeq>, m: Cas.Blobs, d: Digest)
    ensures
      var held := AllHeld(pages);
      d in Serialized(p, meta, held, seqs, m)
      <==> d in m || PartOf(p, pages, d) || d == Of(p, ManifestBytes(p, ManifestOf(p, meta, held, seqs)))
  {
    Cas.StoredKeys(p, m, Payloads(AllHeld(pages)), d);
    PartsArePayloads(p, pages, d);
  }

  lemma {:induction false} PartsArePayloads(p: Prim, pages: map<u32, PageBytes>, d: Digest)
    ensures PartOf(p, pages, d) <==> exists b :: b in Payloads(AllHeld(pages)) && d == Of(p, b)
  {
    var held := AllHeld(pages);
    if b :| b in Payloads(held) && d == Of(p, b) {
      PayloadOf(held, b);
      var h :| h in held && (b == h.1.k || b == h.1.v);
      AllHeldIn(pages, h);
      assert h.0 in pages;
    }
    if ix :| ix in pages && (d == Of(p, pages[ix].k) || d == Of(p, pages[ix].v)) {
      var h := (ix, pages[ix]);
      AllHeldIn(pages, h);
      PayloadOf(held, h.1.k);
      PayloadOf(held, h.1.v);
    }
  }

  // ---------- round trip ----------

  /** The bytes in play in a capture. */
  ghost function InPlay(p: Prim, meta: CacheMeta, held: seq<Held>, seqs: seq<LogicalSeq>, m: Cas.Blobs): set<Bytes> {
    m.Values + (set b | b in Payloads(held)) + {ManifestBytes(p, ManifestOf(p, meta, held, seqs))}
  }

  lemma {:induction false} SerializedHolds(p: Prim, meta: CacheMeta, held: seq<Held>, seqs: seq<LogicalSeq>, m: Cas.Blobs)
    requires Cas.Keyed(p, m) && CollisionFree(p, InPlay(p, meta, held, seqs, m))
    ensures
      var after := Serialized(p, meta, held, seqs, m);
      var manifest := ManifestBytes(p, ManifestOf(p, meta, held, seqs));
      && Cas.Keyed(p, after) && Cas.Extends(m, after)
      && Cas.Lookup(after, Of(p, manifest)) == Some(manifest)
      && forall b :: b in Payloads(held) ==> Cas.Lookup(after, Of(p, b)) == Some(b)
  {
    var inputs := InPlay(p, meta, held, seqs, m);
    Cas.StoredAllHolds(p, m, Payloads(held), inputs);
    Cas.StoredHolds(p, Cas.StoredAll(p, m, Payloads(held)), ManifestBytes(p, ManifestOf(p, meta, held, seqs)), inputs);
  }

  ghost predicate Available(p: Prim, m: Cas.Blobs, meta: CacheMeta, held: seq<Held>) {
    && (forall b :: b in Payloads(held) ==> Cas.Lookup(m, Of(p, b)) == Some(b))
    && forall i :: 0 <= i < |held| ==> FitsPage(meta, held[i].1)
  }

  lemma {:induction false} FetchedBack(p: Prim, m: Cas.Blobs, meta: CacheMeta, held: seq<Held>)
    requires Available(p, m, meta, held)
    ensures FetchPages(m, meta, PagesOf(p, held)) == Success(held)
  {
    if held != [] {
      var n := |held| - 1;
      assert held == held[..n] + [held[n]];
      FetchedBack(p, m, meta, held[..n]);
      var pages := PagesOf(p, held);
      assert pages[..|pages| - 1] == PagesOf(p, held[..n]);
      assert held[n].1.k in Payloads(held) && held[n].1.v in Payloads(held);
      assert FetchPage(m, meta, PageOf(p, held[n])) == Success(held[n]);
    }
  }

  lemma {:induction false} PagesOfAt(p: Prim, held: seq<Held>)
    ensures |PagesOf(p, held)| == |held|
    ensures forall i :: 0 <= i < |held| ==> PagesOf(p, held)[i] == PageOf(p, held[i])
  {
    if held != [] {
      PagesOfAt(p, held[..|held| - 1]);
    }
  }

  lemma {:induction false} HeldAtShape(pages: map<u32, PageBytes>, ixs: seq<u32>)
    requires forall i :: 0 <= i < |ixs| ==> ixs[i] in pages
    ensures |HeldAt(pages, ixs)| == |ixs|
    ensures forall i :: 0 <= i < |ixs| ==> HeldAt(pages, ixs)[i] == (ixs[i], pages[ixs[i]])
  {
    if ixs != [] {
      HeldAtShape(pages, ixs[..|ixs| - 1]);
    }
  }

  /** A capture lists its pages in canonical order already. */
  lemma {:induction false} HeldIsCanonical(p: Prim, pages: map<u32, PageBytes>)
    ensures Sort(PagesOf(p, AllHeld(pages)), IxLe) == PagesOf(p, AllHeld(pages))
  {
    IndicesOccupied(pages);
    HeldAtShape(pages, Indices(pages));
    PagesOfAt(p, AllHeld(pages));
    SortFixed(PagesOf(p, AllHeld(pages)), IxLe);
  }

  lemma {:induction false} WrittenBack(pages: map<u32, PageBytes>, ixs: seq<u32>)
    requires forall i :: 0 <= i < |ixs| ==> ixs[i] in pages
    ensures
      var r := Written(map[], HeldAt(pages, ixs));
      forall ix :: (ix in r <==> ix in ixs) && (ix in r ==> r[ix] == pages[ix])
  {
    if ixs != [] {
      var n := |ixs| - 1;
      WrittenBack(pages, ixs[..n]);
      assert ixs == ixs[..n] + [ixs[n]];
      var held := HeldAt(pages, ixs);
      assert held[..|held| - 1] == HeldAt(pages, ixs[..n]);
    }
  }

  // ---------- what a capture records ----------

  /** The page stands for that index, with the digest of its K half as `k` and of its V half as `v`. */
  predicate Stands(p: Prim, pg: Page, pages: map<u32, PageBytes>) {
    pg.ix in pages && pg.k == Of(p, pages[pg.ix].k) && pg.v == Of(p, pages[pg.ix].v)
  }

  /** One page for each index held, in ascending order. */
  ghost predicate ListsPages(p: Prim, recorded: seq<Page>, pages: map<u32, PageBytes>) {
    && (forall ix :: ix in pages ==> exists i :: 0 <= i < |recorded| && recorded[i].ix == ix)
    && (forall i :: 0 <= i < |recorded| ==> Stands(p, recorded[i], pages))
    && forall i, j :: 0 <= i < j < |recorded| ==> recorded[i].ix < recorded[j].ix
  }

  lemma {:induction false} PagesListed(p: Prim, pages: map<u32, PageBytes>)
    ensures ListsPages(p, PagesOf(p, AllHeld(pages)), pages)
  {
    hide PagesOf, HeldAt;
    var ixs, held := Indices(pages), AllHeld(pages);
    IndicesOccupied(pages);
    HeldAtShape(pages, ixs);
    PagesOfAt(p, held);
    var recorded := PagesOf(p, held);
    forall ix | ix in pages
      ensures exists i :: 0 <= i < |recorded| && recorded[i].ix == ix
    {
      assert ix in ixs;
      var i :| 0 <= i < |ixs| && ixs[i] == ix;
      assert recorded[i] == PageOf(p, held[i]);
    }
    forall i, j | 0 <= i < j < |recorded|
      ensures recorded[i].ix < recorded[j].ix
    {
      assert ixs[i] != ixs[j] && NatLe(ixs[i], ixs[j]);
    }
  }

  /** The manifest that a capture stores, field by field. */
  lemma {:induction false} CapturedManifest(p: Prim, meta: CacheMeta, pages: map<u32, PageBytes>, seqs: seq<LogicalSeq>)
    ensures
      var m := ManifestOf(p, meta, AllHeld(pages), seqs);
      && m.layout == "paged-batchinvariant-v1" && m.meta == meta && ListsPages(p, m.pages, pages)
      && multiset(m.logicalSeqs) == multiset(seqs) && Sorted(m.logicalSeqs, IdLe)
  {
    hide ListsPages, PagesOf, AllHeld;
    PagesListed(p, pages);
    HeldIsCanonical(p, pages);
    Orders();
    SortSorts(seqs, IdLe);
  }

  /** A half holds a vector of the head's dimension for every layer, token and
      head, `n` bytes a number, in 64 bits. */
  ghost predicate IsHalf(meta: CacheMeta, n: nat, half: Bytes) {
    SameMod64(|half|, HalfBytes(meta.nLayers, meta.pageSizeTokens, meta.nHeads, meta.headDim, n))
  }

  lemma {:induction false} SameSize(a: nat, b: nat, bytes: nat)
    requires SameMod64(a, bytes) && SameMod64(b, bytes)
    ensures a == b
  {
    var v: nat :| Wraps(a, bytes, v);
    var w: nat :| Wraps(b, bytes, w);
  }

  lemma {:induction false} FitsIff(meta: CacheMeta, n: nat, page: PageBytes)
    requires NumberBytes(meta.dtype, n)
    ensures FitsPage(meta, page) <==> IsHalf(meta, n, page.k) && IsHalf(meta, n, page.v)
  {
    hide SameMod64, HalfBytes, PageSize;
    PageSizeIs(meta, n);
    var bytes := HalfBytes(meta.nLayers, meta.pageSizeTokens, meta.nHeads, meta.headDim, n);
    if SameMod64(|page.k|, bytes) {
      SameSize(|page.k|, PageSize(meta), bytes);
    }
    if SameMod64(|page.v|, bytes) {
      SameSize(|page.v|, PageSize(meta), bytes);
    }
  }

  /** A capture succeeds exactly if both halves of every page have that size. */
  lemma {:induction false} CaptureSucceedsIff(meta: CacheMeta, n: nat, pages: map<u32, PageBytes>)
    requires NumberBytes(meta.dtype, n)
    ensures Fitting(meta, AllHeld(pages)) == |AllHeld(pages)|
       <==> forall ix :: ix in pages ==> IsHalf(meta, n, pages[ix].k) && IsHalf(meta, n, pages[ix].v)
  {
    hide FitsPage, IsHalf;
    var ixs, held := Indices(pages), AllHeld(pages);
    IndicesOccupied(pages);
    HeldAtShape(pages, ixs);
    forall ix | ix in pages
      ensures FitsPage(meta, pages[ix]) <==> IsHalf(meta, n, pages[ix].k) && IsHalf(meta, n, pages[ix].v)
      ensures exists i :: 0 <= i < |ixs| && ixs[i] == ix
    {
      FitsIff(meta, n, pages[ix]);
      assert ix in ixs;
    }
    assert forall i :: 0 <= i < |held| ==> held[i] == (ixs[i], pages[ixs[i]]);
    if forall i :: 0 <= i < |held| ==> FitsPage(meta, held[i].1) {
      forall ix | ix in pages
        ensures FitsPage(meta, pages[ix])
      {
        var i :| 0 <= i < |ixs| && ixs[i] == ix;
        assert FitsPage(meta, held[i].1);
      }
    }
  }

  // ---------- the round trip ----------

  /** Restoring a capture into a fresh pager: the same page map, and the same
      sequences in the order of their ids. */
  lemma {:induction false} CacheRoundTrip(p: Prim, meta: CacheMeta, pages: map<u32, PageBytes>, seqs: seq<LogicalSeq>, m: Cas.Blobs)
    requires Lawful(p) && Cas.Keyed(p, m)
    requires forall ix :: ix in pages ==> FitsPage(meta, pages[ix])
    requires CollisionFree(p, InPlay(p, meta, AllHeld(pages), seqs, m))
    ensures
      var held := AllHeld(pages);
      var digest := Of(p, ManifestBytes(p, ManifestOf(p, meta, held, seqs)));
      && Fitting(meta, held) == |held| == |pages|
      && Deserialize(p, Serialized(p, meta, held, seqs, m), digest) == Success(Deserialized(meta, held, Sort(seqs, IdLe)))
      && Written(map[], held) == pages
    ensures multiset(Sort(seqs, IdLe)) == multiset(seqs) && Sorted(Sort(seqs, IdLe), IdLe)
  {
    AllHeldFits(meta, pages);
    AllHeldWritten(pages);
    DeserializedBack(p, meta, pages, seqs, m);
    Orders();
    SortSorts(seqs, IdLe);
  }

  lemma {:induction false} AllHeldWritten(pages: map<u32, PageBytes>)
    ensures Written(map[], AllHeld(pages)) == pages
  {
    IndicesOccupied(pages);
    WrittenBack(pages, Indices(pages));
  }

  lemma {:induction false} DeserializedBack(p: Prim, meta: CacheMeta, pages: map<u32, PageBytes>, seqs: seq<LogicalSeq>, m: Cas.Blobs)
    requires Lawful(p) && Cas.Keyed(p, m)
    requires forall ix :: ix in pages ==> FitsPage(meta, pages[ix])
    requires CollisionFree(p, InPlay(p, meta, AllHeld(pages), seqs, m))
    ensures
      var held := AllHeld(pages);
      var digest := Of(p, ManifestBytes(p, ManifestOf(p, meta, held, seqs)));
      Deserialize(p, Serialized(p, meta, held, seqs, m), digest) == Success(Deserialized(meta, held, Sort(seqs, IdLe)))
  {
    var held := AllHeld(pages);
    AllHeldFits(meta, pages);
    SerializedHolds(p, meta, held, seqs, m);
    ManifestRoundTrip(p, ManifestOf(p, meta, held, seqs));
    HeldIsCanonical(p, pages);
    FetchedBack(p, Serialized(p, meta, held, seqs, m), meta, held);
  }

  lemma {:induction false} AllHeldFits(meta: CacheMeta, pages: map<u32, PageBytes>)
    requires forall ix :: ix in pages ==> FitsPage(meta, pages[ix])
    ensures
      var held := AllHeld(pages);
      |held| == |pages| && forall i :: 0 <= i < |held| ==> FitsPage(meta, held[i].1)
  {
    IndicesOccupied(pages);
    HeldAtShape(pages, Indices(pages));
    DistinctCount(Indices(pages), pages.Keys);
  }

  lemma {:induction false} DistinctCount(xs: seq<u32>, elements: set<u32>)
    requires forall i, j :: 0 <= i < j < |xs| ==> xs[i] != xs[j]
    requires forall x :: x in xs <==> x in elements
    ensures |xs| == |elements|
  {
    if xs == [] {
      assert elements == {};
    } else {
      var n := |xs| - 1;
      assert xs == xs[..n] + [xs[n]];
      DistinctCount(xs[..n], elements - {xs[n]});
    }
  }

  // ---------- the digest does not depend on the order ----------

  lemma {:induction false} Without<T>(h: seq<T>, j: nat)
    requires j < |h|
    ensures multiset(h) == multiset(h[..j] + h[j + 1..]) + multiset{h[j]}
  {
    assert h == h[..j] + [h[j]] + h[j + 1..];
  }

  lemma {:induction false} PagesWithout(p: Prim, h: seq<Held>, j: nat)
    requires j < |h|
    ensures multiset(PagesOf(p, h)) == multiset(PagesOf(p, h[..j] + h[j + 1..])) + multiset{PageOf(p, h[j])}
  {
    var one := [h[j]];
    assert h == h[..j] + one + h[j + 1..];
    PagesOfConcat(p, h[..j], h[j + 1..]);
    PagesOfConcat(p, h[..j] + one, h[j + 1..]);
    PagesOfConcat(p, h[..j], one);
    assert one[..0] == [] && PagesOf(p, one) == [PageOf(p, h[j])];
  }

  lemma {:induction false} RestAgrees<T>(g: seq<T>, h: seq<T>, j: nat)
    requires multiset(g) == multiset(h) && g != [] && j < |h| && h[j] == g[0]
    ensures multiset(g[..0] + g[1..]) == multiset(h[..j] + h[j + 1..])
  {
    Without(g, 0);
    Without(h, j);
    var g', h' := multiset(g[..0] + g[1..]), multiset(h[..j] + h[j + 1..]);
    assert g' == multiset(g) - multiset{g[0]} && h' == multiset(h) - multiset{g[0]};
  }

  lemma {:induction false} PagesOfPermuted(p: Prim, g: seq<Held>, h: seq<Held>)
    requires multiset(g) == multiset(h)
    ensures multiset(PagesOf(p, g)) == multiset(PagesOf(p, h))
    decreases |g|
  {
    SameElements(g, h);
    if g != [] {
      assert g[0] in h;
      var j :| 0 <= j < |h| && h[j] == g[0];
      RestAgrees(g, h, j);
      PagesOfPermuted(p, g[..0] + g[1..], h[..j] + h[j + 1..]);
      PagesWithout(p, g, 0);
      PagesWithout(p, h, j);
    }
  }

  lemma {:induction false} PagesOfConcat(p: Prim, g: seq<Held>, h: seq<Held>)
    ensures PagesOf(p, g + h) == PagesOf(p, g) + PagesOf(p, h)
    decreases |h|
  {
    if h == [] {
      assert g + h == g;
    } else {
      var n := |h| - 1;
      assert (g + h)[..|g + h| - 1] == g + h[..n];
      PagesOfConcat(p, g, h[..n]);
    }
  }

  /** Pages of one index are one page, and sequences of one id are one sequence. */
  ghost predicate Distinct(held: seq<Held>, seqs: seq<LogicalSeq>) {
    && (forall i, j :: 0 <= i < |held| && 0 <= j < |held| && held[i].0 == held[j].0 ==> held[i] == held[j])
    && (forall i, j :: 0 <= i < |seqs| && 0 <= j < |seqs| && seqs[i].id == seqs[j].id ==> seqs[i] == seqs[j])
  }

  /** The manifest, and so its digest, is the same for every order in which the
      pages and the sequences arrive. */
  lemma {:induction false} ManifestOrderFree(p: Prim, meta: CacheMeta, g: seq<Held>, h: seq<Held>, ss: seq<LogicalSeq>, ts: seq<LogicalSeq>)
    requires multiset(g) == multiset(h) && multiset(ss) == multiset(ts)
    requires Distinct(g, ss)
    ensures ManifestOf(p, meta, g, ss) == ManifestOf(p, meta, h, ts)
  {
    Orders();
    PagesOfPermuted(p, g, h);
    PagesOfAt(p, g);
    SortUnique(PagesOf(p, g), PagesOf(p, h), IxLe);
    forall i, j | 0 <= i < |ss| && 0 <= j < |ss| && IdLe(ss[i], ss[j]) && IdLe(ss[j], ss[i])
      ensures ss[i] == ss[j]
    {
      StrTotal(ss[i].id, ss[j].id);
    }
    SortUnique(ss, ts, IdLe);
  }

  // ---------- the allocator after a restore ----------

  /** The indices 0, 1, ..., n - 1. */
  function FirstIndices(n: nat): set<u32>
    requires n <= 0x1_0000_0000
  {
    if n == 0 then {} else FirstIndices(n - 1) + {n - 1}
  }

  lemma {:induction false} FirstCount(n: nat)
    requires n <= 0x1_0000_0000
    ensures |FirstIndices(n)| == n
    ensures forall ix: u32 :: ix in FirstIndices(n) <==> ix < n
  {
    if n > 0 {
      FirstCount(n - 1);
      var last: u32 := n - 1;
      assert FirstIndices(n) == FirstIndices(n - 1) + {last};
      forall ix: u32
        ensures ix in FirstIndices(n) <==> ix < n
      {
        assert ix in FirstIndices(n - 1) <==> ix < n - 1;
      }
    }
  }

  lemma {:induction false} SubsetCount<T>(s: set<T>, t: set<T>)
    requires s <= t && |s| == |t|
    ensures s == t
  {
    if s == {} {
    } else {
      var x :| x in s;
      SubsetCount(s - {x}, t - {x});
    }
  }

  /** The state that `RestoreCache` leaves in a pager that was fresh. */
  ghost predicate RestoredFresh(pager: SyntheticCachePager, held: seq<Held>)
    reads pager
  {
    pager.pages == Written(map[], held) && pager.nextPageIx == |held|
  }

  /** After a restore into a fresh pager the next index is past every page if and
      only if every index of the manifest is below its number of pages. */
  lemma {:induction false} AllocatorSoundIff(pager: SyntheticCachePager, held: seq<Held>)
    requires RestoredFresh(pager, held)
    ensures pager.AllocatorSound() <==> forall i :: 0 <= i < |held| ==> held[i].0 < |held|
  {
    forall ix
      ensures ix in pager.pages <==> exists i :: 0 <= i < |held| && held[i].0 == ix
    {
      WrittenKeys(held, ix);
    }
    if pager.AllocatorSound() {
      forall i | 0 <= i < |held|
        ensures held[i].0 < |held|
      {
        assert held[i].0 in pager.pages;
      }
    }
    if forall i :: 0 <= i < |held| ==> held[i].0 < |held| {
      forall ix | ix in pager.pages
        ensures ix < pager.nextPageIx
      {
        var i :| 0 <= i < |held| && held[i].0 == ix;
      }
    }
  }

  lemma {:induction false} WrittenKeys(held: seq<Held>, ix: u32)
    ensures ix in Written(map[], held) <==> exists i :: 0 <= i < |held| && held[i].0 == ix
  {
    if held != [] {
      var n := |held| - 1;
      WrittenKeys(held[..n], ix);
      if i :| 0 <= i < n && held[..n][i].0 == ix {
        assert held[i].0 == ix;
      }
      if i :| 0 <= i < |held| && held[i].0 == ix {
        assert i < n ==> held[..n][i].0 == ix;
      }
    }
  }

  /** For a manifest whose indices are distinct, as every capture writes, those
      are exactly the index sets 0, 1, ..., n - 1. */
  lemma {:induction false} DistinctSoundIffDense(pager: SyntheticCachePager, held: seq<Held>)
    requires RestoredFresh(pager, held)
    requires forall i, j :: 0 <= i < j < |held| ==> held[i].0 != held[j].0
    ensures pager.AllocatorSound() <==> pager.pages.Keys == FirstIndices(|held|)
  {
    var n := |held|;
    AllocatorSoundIff(pager, held);
    forall ix
      ensures ix in pager.pages <==> exists i :: 0 <= i < |held| && held[i].0 == ix
    {
      WrittenKeys(held, ix);
    }
    FirstCount(n);
    if pager.AllocatorSound() {
      forall ix | ix in pager.pages
        ensures ix < n
      {
        var i :| 0 <= i < |held| && held[i].0 == ix;
      }
      DistinctKeys(held);
      SubsetCount(pager.pages.Keys, FirstIndices(n));
    } else {
      var i :| 0 <= i < |held| && held[i].0 >= n;
      assert held[i].0 in pager.pages && held[i].0 !in FirstIndices(n);
    }
  }

  /** What a capture lists has distinct indices. */
  lemma {:induction false} CapturedIndicesDistinct(pages: map<u32, PageBytes>)
    ensures
      var held := AllHeld(pages);
      forall i, j :: 0 <= i < j < |held| ==> held[i].0 != held[j].0
  {
    IndicesOccupied(pages);
    HeldAtShape(pages, Indices(pages));
  }

  lemma {:induction false} DistinctKeys(held: seq<Held>)
    requires forall i, j :: 0 <= i < j < |held| ==> held[i].0 != held[j].0
    ensures |Written(map[], held)| == |held|
  {
    if held != [] {
      var n := |held| - 1;
      DistinctKeys(held[..n]);
      WrittenKeys(held[..n], held[n].0);
      var before := Written(map[], held[..n]);
      assert Written(map[], held).Keys == before.Keys + {held[n].0};
    }
  }

  /** With an index twice the allocator can be sound over a set with gaps. */
  lemma {:induction false} RepeatedIndexIsSound(pager: SyntheticCachePager, x: PageBytes)
    requires RestoredFresh(pager, [(0, x), (0, x), (2, x)])
    ensures pager.AllocatorSound() && pager.pages.Keys == {0, 2} && pager.nextPageIx == 3
  {
    var held: seq<Held> := [(0, x), (0, x), (2, x)];
    AllocatorSoundIff(pager, held);
    forall ix
      ensures ix in pager.pages <==> ix == 0 || ix == 2
    {
      WrittenKeys(held, ix);
      assert held[0].0 == 0 && held[2].0 == 2;
    }
  }

  // ---------- what deserialising reads ----------

  /** The digests that `deserialize_pages` fetches. */
  ghost predicate Fetches(p: Prim, m: Cas.Blobs, digest: Digest, d: Digest) {
    d == digest
    || (digest in m && ReadManifest(p, m[digest]).Some?
        && exists i :: 0 <= i < |ReadManifest(p, m[digest]).value.pages| && NamesPart(ReadManifest(p, m[digest]).value.pages[i], d))
  }

  predicate NamesPart(pg: Page, d: Digest) { pg.k == d || pg.v == d }

  lemma {:induction false} DeserializeReadsOnly(p: Prim, m: Cas.Blobs, m': Cas.Blobs, digest: Digest)
    requires forall d :: Fetches(p, m, digest, d) ==> Cas.Lookup(m, d) == Cas.Lookup(m', d)
    ensures Deserialize(p, m, digest) == Deserialize(p, m', digest)
  {
    assert Cas.Lookup(m, digest) == Cas.Lookup(m', digest);
    if digest in m && ReadManifest(p, m[digest]).Some? {
      var manifest := ReadManifest(p, m[digest]).value;
      forall i | 0 <= i < |manifest.pages|
        ensures SamePage(m, m', manifest.pages[i])
      {
        assert NamesPart(manifest.pages[i], manifest.pages[i].k) && NamesPart(manifest.pages[i], manifest.pages[i].v);
      }
      PagesReadOnly(m, m', manifest.meta, manifest.pages);
    }
  }

  ghost predicate SamePage(m: Cas.Blobs, m': Cas.Blobs, pg: Page) {
    Cas.Lookup(m, pg.k) == Cas.Lookup(m', pg.k) && Cas.Lookup(m, pg.v) == Cas.Lookup(m', pg.v)
  }

  lemma {:induction false} PagesReadOnly(m: Cas.Blobs, m': Cas.Blobs, meta: CacheMeta, pages: seq<Page>)
    requires forall i :: 0 <= i < |pages| ==> SamePage(m, m', pages[i])
    ensures FetchPages(m, meta, pages) == FetchPages(m', meta, pages)
  {
    if pages != [] {
      var n := |pages| - 1;
      PagesReadOnly(m, m', meta, pages[..n]);
      assert SamePage(m, m', pages[n]);
    }
  }

  /** Deserialising that succeeds found everything it fetched. */
  lemma {:induction false} DeserializedFetchedAll(p: Prim, m: Cas.Blobs, digest: Digest, d: Digest)
    requires Deserialize(p, m, digest).Success? && Fetches(p, m, digest, d)
    ensures d in m
  {
    if d != digest {
      var manifest := ReadManifest(p, m[digest]).value;
      var i :| 0 <= i < |manifest.pages| && NamesPart(manifest.pages[i], d);
      PagesFoundAll(m, manifest.meta, manifest.pages, i);
    }
  }

  lemma {:induction false} PagesFoundAll(m: Cas.Blobs, meta: CacheMeta, pages: seq<Page>, i: nat)
    requires FetchPages(m, meta, pages).Success? && i < |pages|
    ensures pages[i].k in m && pages[i].v in m
  {
    var n := |pages| - 1;
    if i < n {
      PagesFoundAll(m, meta, pages[..n], i);
    }
  }

  // ---------- what is written ----------

  predicate LastAt(held: seq<Held>, i: nat) {
    i < |held| && forall j :: i < j < |held| ==> held[j].0 != held[i].0
  }

  /** Of several pages of one index the last is written; other pages stay. */
  lemma {:induction false} WrittenIs(pages: map<u32, PageBytes>, held: seq<Held>, ix: u32)
    ensures ix in Written(pages, held) <==> ix in pages || exists i :: 0 <= i < |held| && held[i].0 == ix
    ensures forall i: nat :: LastAt(held, i) && held[i].0 == ix ==> Written(pages, held)[ix] == held[i].1
    ensures ix in pages && (forall i :: 0 <= i < |held| ==> held[i].0 != ix) ==> Written(pages, held)[ix] == pages[ix]
  {
    if held != [] {
      var last := |held| - 1;
      WrittenIs(pages, held[..last], ix);
      forall i: nat | LastAt(held, i) && held[i].0 == ix
        ensures Written(pages, held)[ix] == held[i].1
      {
        if i < last {
          assert held[..last][i] == held[i];
          assert LastAt(held[..last], i);
        }
      }
      assert forall i :: 0 <= i < last ==> held[..last][i] == held[i];
    }
  }

  // ---------- when pages can be read ----------

  /** Both halves of the page are stored and have the right size. */
  ghost predicate PageReads(m: Cas.Blobs, meta: CacheMeta, n: nat, pg: Page) {
    pg.k in m && pg.v in m && IsHalf(meta, n, m[pg.k]) && IsHalf(meta, n, m[pg.v])
  }

  /** What was read of a page: its index and the stored halves, each in its place. */
  predicate ReadAs(m: Cas.Blobs, pg: Page, h: Held) {
    pg.k in m && pg.v in m && h.0 == pg.ix && h.1.k == m[pg.k] && h.1.v == m[pg.v]
  }

  lemma {:induction false} FetchPageIff(m: Cas.Blobs, meta: CacheMeta, n: nat, pg: Page)
    requires NumberBytes(meta.dtype, n)
    ensures FetchPage(m, meta, pg).Success? <==> PageReads(m, meta, n, pg)
    ensures FetchPage(m, meta, pg).Success? ==> ReadAs(m, pg, FetchPage(m, meta, pg).value)
    ensures FetchPage(m, meta, pg) == Failure(NotStored) <==> pg.k !in m || pg.v !in m
  {
    hide FitsPage, IsHalf;
    if pg.k in m && pg.v in m {
      FitsIff(meta, n, PageBytes(m[pg.k], m[pg.v]));
    }
  }

  lemma {:induction false} FetchPagesIff(m: Cas.Blobs, meta: CacheMeta, n: nat, pages: seq<Page>)
    requires NumberBytes(meta.dtype, n)
    ensures FetchPages(m, meta, pages).Success? <==> forall i :: 0 <= i < |pages| ==> PageReads(m, meta, n, pages[i])
    ensures FetchPages(m, meta, pages).Success? ==>
      var held := FetchPages(m, meta, pages).value;
      |held| == |pages| && forall i :: 0 <= i < |pages| ==> ReadAs(m, pages[i], held[i])
  {
    hide PageReads, ReadAs, FetchPage;
    if pages != [] {
      var last := |pages| - 1;
      FetchPagesIff(m, meta, n, pages[..last]);
      FetchPageIff(m, meta, n, pages[last]);
      assert forall i :: 0 <= i < last ==> pages[..last][i] == pages[i];
    }
  }

  /** Pages are read back exactly if the manifest is one and each half is stored in
      the right size; what is read is the stored halves, in the manifest's order. */
  lemma {:induction false} DeserializedIff(p: Prim, m: Cas.Blobs, digest: Digest, n: nat)
    requires digest in m && ReadManifest(p, m[digest]).Some? ==> NumberBytes(ReadManifest(p, m[digest]).value.meta.dtype, n)
    ensures
      var r := Deserialize(p, m, digest);
      && (r == Failure(NotAManifest) <==> digest in m && ReadManifest(p, m[digest]).None?)
      && (r.Success? <==>
            && digest in m && ReadManifest(p, m[digest]).Some?
            && var manifest := ReadManifest(p, m[digest]).value;
               forall i :: 0 <= i < |manifest.pages| ==> PageReads(m, manifest.meta, n, manifest.pages[i]))
      && (r.Success? ==>
            var manifest := ReadManifest(p, m[digest]).value;
            && r.value.meta == manifest.meta && r.value.seqs == manifest.logicalSeqs && |r.value.held| == |manifest.pages|
            && forall i :: 0 <= i < |manifest.pages| ==> ReadAs(m, manifest.pages[i], r.value.held[i]))
  {
    hide PageReads, ReadAs, ReadManifest;
    if digest in m && ReadManifest(p, m[digest]).Some? {
      var manifest := ReadManifest(p, m[digest]).value;
      FetchPagesIff(m, manifest.meta, n, manifest.pages);
      FetchFailure(m, manifest.meta, manifest.pages);
    }
  }

  lemma {:induction false} FetchFailure(m: Cas.Blobs, meta: CacheMeta, pages: seq<Page>)
    ensures FetchPages(m, meta, pages).Failure? ==>
      FetchPages(m, meta, pages).error == NotStored || FetchPages(m, meta, pages).error == WrongSize
  {
    if pages != [] {
      FetchFailure(m, meta, pages[..|pages| - 1]);
    }
  }
}
