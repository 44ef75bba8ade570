/** The paged cache: the pager and its allocator, the form in which its pages are
    serialised, and capture and restore between pause and resume. */
module Cache {
  import opened Bits
  import opened Base
  import opened Sorting
  import opened CacheFormat
  import Cas

  datatype PageBytes = PageBytes(k: Bytes, v: Bytes)

  type Held = (u32, PageBytes)

  predicate FitsPage(meta: CacheMeta, page: PageBytes) { |page.k| == PageSize(meta) && |page.v| == PageSize(meta) }

  // ---------- serialize_pages ----------

  function PageOf(p: Prim, h: Held): Page { Page(h.0, Of(p, h.1.k), Of(p, h.1.v)) }

  function PagesOf(p: Prim, held: seq<Held>): seq<Page> {
    if held == [] then [] else PagesOf(p, held[..|held| - 1]) + [PageOf(p, held[|held| - 1])]
  }

  /** The byte strings that serialising the pages puts into the store. */
  function Payloads(held: seq<Held>): seq<Bytes> {
    if held == [] then [] else Payloads(held[..|held| - 1]) + [held[|held| - 1].1.k, held[|held| - 1].1.v]
  }

  /** How many pages come before the first of a wrong size. */
  function Fitting(meta: CacheMeta, held: seq<Held>): (n: nat)
    ensures n <= |held|
    ensures n == |held| <==> forall i :: 0 <= i < |held| ==> FitsPage(meta, held[i].1)
  {
    if held == [] || !FitsPage(meta, held[0].1) then 0 else 1 + Fitting(meta, held[1..])
  }

  function ManifestOf(p: Prim, meta: CacheMeta, held: seq<Held>, seqs: seq<LogicalSeq>): PageManifest {
    Canonical(PageManifest(LAYOUT_V1, meta, PagesOf(p, held), seqs))
  }

  /** The store once all pages and the manifest are in. */
  function Serialized(p: Prim, meta: CacheMeta, held: seq<Held>, seqs: seq<LogicalSeq>, m: Cas.Blobs): Cas.Blobs {
    Cas.Stored(p, Cas.StoredAll(p, m, Payloads(held)), ManifestBytes(p, ManifestOf(p, meta, held, seqs)))
  }

  /** The store after the first `n` pages. */
  function PagesStored(p: Prim, held: seq<Held>, n: nat, m: Cas.Blobs): Cas.Blobs
    requires n <= |held|
  {
    Cas.StoredAll(p, m, Payloads(held[..n]))
  }

  method SerializePages(p: Prim, store: Cas.MemBlobStore, meta: CacheMeta, held: seq<Held>, seqs: seq<LogicalSeq>)
    returns (r: Option<Digest>)
    requires store.Valid(p)
    modifies store
    ensures store.Valid(p)
    ensures
      if Fitting(meta, held) == |held|
      then r == Some(Of(p, ManifestBytes(p, ManifestOf(p, meta, held, seqs))))
           && store.inner == Serialized(p, meta, held, seqs, old(store.inner))
      else r.None? && store.inner == PagesStored(p, held, Fitting(meta, held), old(store.inner))
  {
    var pages := StorePages(p, store, meta, held);
    if pages.None? {
      return None;
    }
    assert held[..|held|] == held;
    var manifest := Canonical(PageManifest(LAYOUT_V1, meta, pages.value, seqs));
    var digest := store.Put(p, ManifestBytes(p, manifest));
    return Some(digest);
  }

  /** The loop over the pages; it stops at one of a wrong size. */
  method StorePages(p: Prim, store: Cas.MemBlobStore, meta: CacheMeta, held: seq<Held>) returns (r: Option<seq<Page>>)
    requires store.Valid(p)
    modifies store
    ensures store.Valid(p)
    ensures store.inner == PagesStored(p, held, Fitting(meta, held), old(store.inner))
    ensures r == if Fitting(meta, held) == |held| then Some(PagesOf(p, held)) else None
  {
    var pages: seq<Page> := [];
    for i := 0 to |held|
      invariant store.Valid(p)
      invariant pages == PagesOf(p, held[..i])
      invariant store.inner == PagesStored(p, held, i, old(store.inner))
      invariant AllFit(meta, held, i)
    {
      if !FitsPage(meta, held[i].1) {
        FittingStops(meta, held, i);
        return None;
      }
      SerializeStep(p, held, i, old(store.inner));
      var page := StorePage(p, store, held[i]);
      pages := pages + [page];
    }
    assert held[..|held|] == held;
    return Some(pages);
  }

  method StorePage(p: Prim, store: Cas.MemBlobStore, h: Held) returns (page: Page)
    requires store.Valid(p)
    modifies store
    ensures store.Valid(p) && page == PageOf(p, h)
    ensures store.inner == Cas.Stored(p, Cas.Stored(p, old(store.inner), h.1.k), h.1.v)
  {
    var k := store.Put(p, h.1.k);
    var v := store.Put(p, h.1.v);
    page := Page(h.0, k, v);
  }

  ghost predicate AllFit(meta: CacheMeta, held: seq<Held>, n: nat) {
    n <= |held| && forall i :: 0 <= i < n ==> FitsPage(meta, held[i].1)
  }

  lemma {:induction false} FittingStops(meta: CacheMeta, held: seq<Held>, i: nat)
    requires AllFit(meta, held, i) && i < |held| && !FitsPage(meta, held[i].1)
    ensures Fitting(meta, held) == i
  {
    if i > 0 {
      FittingStops(meta, held[1..], i - 1);
    }
  }

  lemma {:induction false} SerializeStep(p: Prim, held: seq<Held>, i: nat, m: Cas.Blobs)
    requires i < |held|
    ensures PagesOf(p, held[..i + 1]) == PagesOf(p, held[..i]) + [PageOf(p, held[i])]
    ensures PagesStored(p, held, i + 1, m) == Cas.Stored(p, Cas.Stored(p, PagesStored(p, held, i, m), held[i].1.k), held[i].1.v)
  {
    assert held[..i + 1][..i] == held[..i];
    var k, v, bs := held[i].1.k, held[i].1.v, Payloads(held[..i]);
    assert bs + [k, v] == (bs + [k]) + [v];
    Cas.StoredAllAppend(p, m, bs, k);
    Cas.StoredAllAppend(p, m, bs + [k], v);
  }

  // ---------- deserialize_pages ----------

  datatype CacheError = NotStored | NotAManifest | WrongSize | WrongMeta | NoRoom

  datatype Deserialized = Deserialized(meta: CacheMeta, held: seq<Held>, seqs: seq<LogicalSeq>)

  function FetchPage(m: Cas.Blobs, meta: CacheMeta, pg: Page): Result<Held, CacheError> {
    if pg.k !in m || pg.v !in m then Failure(NotStored)
    else if !FitsPage(meta, PageBytes(m[pg.k], m[pg.v])) then Failure(WrongSize)
    else Success((pg.ix, PageBytes(m[pg.k], m[pg.v])))
  }

  function FetchPages(m: Cas.Blobs, meta: CacheMeta, pages: seq<Page>): Result<seq<Held>, CacheError> {
    if pages == [] then Success([])
    else
      match FetchPages(m, meta, pages[..|pages| - 1])
      case Failure(e) => Failure(e)
      case Success(held) => Fetched(held, FetchPage(m, meta, pages[|pages| - 1]))
  }

  function Fetched(held: seq<Held>, r: Result<Held, CacheError>): Result<seq<Held>, CacheError> {
    match r
    case Failure(e) => Failure(e)
    case Success(h) => Success(held + [h])
  }

  function Deserialize(p: Prim, m: Cas.Blobs, digest: Digest): Result<Deserialized, CacheError> {
    if digest !in m then Failure(NotStored)
    else
      match ReadManifest(p, m[digest])
      case None => Failure(NotAManifest)
      case Some(manifest) =>
        match FetchPages(m, manifest.meta, manifest.pages)
        case Failure(e) => Failure(e)
        case Success(held) => Success(Deserialized(manifest.meta, held, manifest.logicalSeqs))
  }

  method DeserializePages(p: Prim, store: Cas.MemBlobStore, digest: Digest) returns (r: Result<Deserialized, CacheError>)
    ensures r == Deserialize(p, store.inner, digest)
  {
    var bytes := store.Get(digest);
    if bytes.None? {
      return Failure(NotStored);
    }
    var manifest := ReadManifest(p, bytes.value);
    if manifest.None? {
      return Failure(NotAManifest);
    }
    var pages := manifest.value.pages;
    var held: seq<Held> := [];
    for i := 0 to |pages|
      invariant FetchPages(store.inner, manifest.value.meta, pages[..i]) == Success(held)
    {
      assert pages[..i + 1][..i] == pages[..i];
      var h := ReadOne(store, manifest.value.meta, pages[i]);
      if h.Failure? {
        FetchFails(store.inner, manifest.value.meta, pages, i + 1);
        return Failure(h.error);
      }
      held := held + [h.value];
    }
    assert pages[..|pages|] == pages;
    return Success(Deserialized(manifest.value.meta, held, manifest.value.logicalSeqs));
  }

  method ReadOne(store: Cas.MemBlobStore, meta: CacheMeta, pg: Page) returns (r: Result<Held, CacheError>)
    ensures r == FetchPage(store.inner, meta, pg)
  {
    var k := store.Get(pg.k);
    if k.None? {
      return Failure(NotStored);
    }
    var v := store.Get(pg.v);
    if v.None? {
      return Failure(NotStored);
    }
    var page := PageBytes(k.value, v.value);
    if !FitsPage(meta, page) {
      return Failure(WrongSize);
    }
    return Success((pg.ix, page));
  }

  lemma {:induction false} FetchFails(m: Cas.Blobs, meta: CacheMeta, pages: seq<Page>, i: nat)
    requires i <= |pages| && FetchPages(m, meta, pages[..i]).Failure?
    ensures FetchPages(m, meta, pages) == FetchPages(m, meta, pages[..i])
    decreases |pages| - i
  {
    if i == |pages| {
      assert pages[..i] == pages;
    } else {
      assert pages[..i + 1][..i] == pages[..i];
      FetchFails(m, meta, pages, i + 1);
    }
  }

  // ---------- the pager ----------

  /** The occupied pages, in ascending order of index. */
  ghost function Indices(pages: map<u32, PageBytes>): seq<u32> { Sort(ListOf(pages.Keys), NatLe) }

  function HeldAt(pages: map<u32, PageBytes>, ixs: seq<u32>): seq<Held>
    requires forall i :: 0 <= i < |ixs| ==> ixs[i] in pages
  {
    if ixs == [] then [] else HeldAt(pages, ixs[..|ixs| - 1]) + [(ixs[|ixs| - 1], pages[ixs[|ixs| - 1]])]
  }

  /** Pages written one after another; a later one of the same index wins. */
  function Written(pages: map<u32, PageBytes>, held: seq<Held>): map<u32, PageBytes> {
    if held == [] then pages else Written(pages, held[..|held| - 1])[held[|held| - 1].0 := held[|held| - 1].1]
  }

  class SyntheticCachePager {
    const meta: CacheMeta
    var pages: map<u32, PageBytes>
    var logicalSeqs: seq<LogicalSeq>
    var nextPageIx: u32
    var paused: bool

    constructor (meta: CacheMeta)
      ensures this.meta == meta && pages == map[] && logicalSeqs == [] && nextPageIx == 0 && !paused
    {
      this.meta := meta;
      pages, logicalSeqs, nextPageIx, paused := map[], [], 0, false;
    }

    /** Whatever the allocator hands out next is free. */
    ghost predicate AllocatorSound()
      reads this
    {
      forall ix :: ix in pages ==> ix < nextPageIx
    }

    method Pause()
      modifies this`paused
      ensures paused
    {
      paused := true;
    }

    method Resume()
      modifies this`paused
      ensures !paused
    {
      paused := false;
    }

    method OccupiedPages() returns (ixs: seq<u32>)
      ensures ixs == Indices(pages)
      ensures Lists(ixs, pages.Keys, NatLe)
    {
      Orders();
      ixs := SortSet(pages.Keys, NatLe);
      ListsSorted(pages.Keys, NatLe);
      ListsUnique(ixs, Indices(pages), pages.Keys, NatLe);
    }

    method ReadPage(ix: u32) returns (r: Option<PageBytes>)
      ensures r == if ix in pages then Some(pages[ix]) else None
    {
      r := if ix in pages then Some(pages[ix]) else None;
    }

    /** The next `n` indices, unless they leave 32 bits. */
    method AllocatePages(n: nat) returns (r: Option<seq<u32>>)
      modifies this`nextPageIx
      ensures
        if old(nextPageIx) + n < 0x1_0000_0000
        then nextPageIx == old(nextPageIx) + n && r.Some? && |r.value| == n
             && forall i :: 0 <= i < n ==> r.value[i] == old(nextPageIx) + i
        else nextPageIx == old(nextPageIx) && r.None?
    {
      if n >= 0x1_0000_0000 || nextPageIx + n >= 0x1_0000_0000 {
        return None;
      }
      var start := nextPageIx;
      nextPageIx := nextPageIx + n;
      return Some(seq(n, i requires 0 <= i < n => start + i));
    }

    method WritePage(ix: u32, page: PageBytes) returns (ok: bool)
      modifies this`pages
      ensures ok <==> FitsPage(meta, page)
      ensures pages == if ok then old(pages)[ix := page] else old(pages)
    {
      if !FitsPage(meta, page) {
        return false;
      }
      pages := pages[ix := page];
      return true;
    }

    method InstallLogicalSeqs(seqs: seq<LogicalSeq>)
      modifies this`logicalSeqs
      ensures logicalSeqs == seqs
    {
      logicalSeqs := seqs;
    }
  }

  // ---------- capture and restore ----------

  /** Everything the pager holds, as a capture lists it. */
  ghost function AllHeld(pages: map<u32, PageBytes>): seq<Held> {
    IndicesOccupied(pages);
    HeldAt(pages, Indices(pages))
  }

  lemma {:induction false} IndicesOccupied(pages: map<u32, PageBytes>)
    ensures Lists(Indices(pages), pages.Keys, NatLe)
    ensures forall i :: 0 <= i < |Indices(pages)| ==> Indices(pages)[i] in pages
  {
    Orders();
    ListsSorted(pages.Keys, NatLe);
    forall i | 0 <= i < |Indices(pages)|
      ensures Indices(pages)[i] in pages
    {
      assert Indices(pages)[i] in Indices(pages);
    }
  }

  /** A capture changes nothing in the pager and leaves it running, whether or
      not it succeeds. */
  method CaptureCache(p: Prim, store: Cas.MemBlobStore, pager: SyntheticCachePager) returns (r: Option<Digest>)
    requires store.Valid(p)
    modifies store, pager`paused
    ensures store.Valid(p) && !pager.paused
    ensures
      var held := AllHeld(pager.pages);
      if Fitting(pager.meta, held) == |held|
      then r == Some(Of(p, ManifestBytes(p, ManifestOf(p, pager.meta, held, pager.logicalSeqs))))
           && store.inner == Serialized(p, pager.meta, held, pager.logicalSeqs, old(store.inner))
      else r.None? && store.inner == PagesStored(p, held, Fitting(pager.meta, held), old(store.inner))
  {
    pager.Pause();
    var ixs := pager.OccupiedPages();
    var captured := ReadAll(pager, ixs);
    IndicesOccupied(pager.pages);
    r := SerializePages(p, store, pager.meta, captured, pager.logicalSeqs);
    pager.Resume();
  }

  method ReadAll(pager: SyntheticCachePager, ixs: seq<u32>) returns (captured: seq<Held>)
    requires forall i :: 0 <= i < |ixs| ==> ixs[i] in pager.pages
    ensures captured == HeldAt(pager.pages, ixs)
  {
    captured := [];
    for i := 0 to |ixs|
      invariant captured == HeldAt(pager.pages, ixs[..i])
    {
      assert ixs[..i + 1][..i] == ixs[..i];
      var page := pager.ReadPage(ixs[i]);
      captured := captured + [(ixs[i], page.value)];
    }
    assert ixs[..|ixs|] == ixs;
  }

  /** A restore fails before it touches the pager if the manifest or a page
      cannot be read or the metadata differ, and right after pausing if the
      index space is full. Otherwise pages are written at their old indices. */
  method RestoreCache(p: Prim, store: Cas.MemBlobStore, pager: SyntheticCachePager, digest: Digest)
    returns (error: Option<CacheError>)
    modifies pager
    ensures
      match Deserialize(p, store.inner, digest)
      case Failure(e) =>
        error == Some(e) && StateIs(pager, old(pager.paused), old(pager.pages), old(pager.logicalSeqs), old(pager.nextPageIx))
      case Success(d) =>
        if d.meta != pager.meta
        then error == Some(WrongMeta) && StateIs(pager, old(pager.paused), old(pager.pages), old(pager.logicalSeqs), old(pager.nextPageIx))
        else if old(pager.nextPageIx) + |d.held| >= 0x1_0000_0000
        then error == Some(NoRoom) && StateIs(pager, false, old(pager.pages), old(pager.logicalSeqs), old(pager.nextPageIx))
        else error.None? && StateIs(pager, false, Written(old(pager.pages), d.held), d.seqs, old(pager.nextPageIx) + |d.held|)
  {
    var restored := DeserializePages(p, store, digest);
    if restored.Failure? {
      return Some(restored.error);
    }
    var d := restored.value;
    if d.meta != pager.meta {
      return Some(WrongMeta);
    }
    FetchedFit(p, store.inner, digest);
    pager.Pause();
    var slots := pager.AllocatePages(|d.held|);
    if slots.None? {
      error := Some(NoRoom);
    } else {
      WriteAll(pager, d.held);
      pager.InstallLogicalSeqs(d.seqs);
      error := None;
    }
    pager.Resume();
  }

  method WriteAll(pager: SyntheticCachePager, held: seq<Held>)
    requires forall i :: 0 <= i < |held| ==> FitsPage(pager.meta, held[i].1)
    modifies pager`pages
    ensures pager.pages == Written(old(pager.pages), held)
  {
    for i := 0 to |held|
      invariant pager.pages == Written(old(pager.pages), held[..i])
    {
      assert held[..i + 1][..i] == held[..i];
      var ok := pager.WritePage(held[i].0, held[i].1);
    }
    assert held[..|held|] == held;
  }

  /** The whole state of a pager. */
  ghost predicate StateIs(pager: SyntheticCachePager, paused: bool, pages: map<u32, PageBytes>, seqs: seq<LogicalSeq>, next: nat)
    reads pager
  {
    pager.paused == paused && pager.pages == pages && pager.logicalSeqs == seqs && pager.nextPageIx == next
  }

  lemma {:induction false} FetchedPagesFit(m: Cas.Blobs, meta: CacheMeta, pages: seq<Page>)
    requires FetchPages(m, meta, pages).Success?
    ensures
      var held := FetchPages(m, meta, pages).value;
      |held| == |pages| && forall i :: 0 <= i < |held| ==> FitsPage(meta, held[i].1)
  {
    if pages != [] {
      FetchedPagesFit(m, meta, pages[..|pages| - 1]);
    }
  }

  lemma {:induction false} FetchedFit(p: Prim, m: Cas.Blobs, digest: Digest)
    requires Deserialize(p, m, digest).Success?
    ensures
      var d := Deserialize(p, m, digest).value;
      forall i :: 0 <= i < |d.held| ==> FitsPage(d.meta, d.held[i].1)
  {
    var manifest := ReadManifest(p, m[digest]).value;
    FetchedPagesFit(m, manifest.meta, manifest.pages);
  }
}
