/** Image manifests, the layers they name, and the blobs that those layers name
    in turn, as far as GC and the registry follow them. */
module Manifests {
  import opened Bits
  import opened Base
  import opened Tree
  import opened CacheFormat
  import Cas
  import Json

  datatype Agent = Agent(kind: string, version: string, fingerprint: string)

  datatype Manifest = Manifest(
    schemaVersion: u32,
    mediaType: string,
    agent: Agent,
    modelBase: Digest,
    modelDiff: Digest,
    cacheLayout: string,
    cacheManifest: Digest,
    worldFs: Digest,
    worldEnv: Digest,
    worldProcs: Digest,
    ledger: Digest,
    messages: Digest,
    createdAt: int,
    parents: seq<Digest>)

  /** JSON of a manifest. The instants that a timestamp can hold are `timely`. */
  datatype ManifestCodec = ManifestCodec(
    encode: Manifest -> Bytes,
    decode: Bytes -> Option<Manifest>,
    timely: int -> bool)

  predicate Timely(c: ManifestCodec, m: Manifest) { c.timely(m.createdAt) }

  ghost predicate LawfulManifests(c: ManifestCodec) { forall m :: Timely(c, m) ==> c.decode(c.encode(m)) == Some(m) }

  /** `manifest_blob_digests` */
  function LayerDigests(m: Manifest): seq<Digest> {
    [m.modelBase, m.modelDiff, m.cacheManifest, m.worldFs, m.worldEnv, m.worldProcs, m.ledger, m.messages]
  }

  // ---------- references inside layers ----------

  /** The digest under a member, if there is text that parses as one. */
  function RefAt(v: Json.Value, k: Json.Key): seq<Digest> {
    if v.HasText(k) && IsDigest(v.At(k).s) then [v.At(k).s] else []
  }

  function EntryRefs(items: seq<Json.Value>): seq<Digest> {
    if items == [] then [] else EntryRefs(items[..|items| - 1]) + RefAt(items[|items| - 1], Json.Blob)
  }

  function PageRefs(items: seq<Json.Value>): seq<Digest> {
    if items == [] then []
    else PageRefs(items[..|items| - 1]) + RefAt(items[|items| - 1], Json.K) + RefAt(items[|items| - 1], Json.V)
  }

  /** Blobs named by a file tree, whatever its entries look like otherwise. */
  function TreeRefs(p: Prim, b: Bytes): seq<Digest> {
    match p.parse(b)
    case None => []
    case Some(v) =>
      if v.Says(Json.Kind, TREE_KIND) && v.HasList(Json.Entries) then EntryRefs(v.At(Json.Entries).items) else []
  }

  /** Blobs named by a page manifest, whatever its layout. */
  function CacheRefs(p: Prim, b: Bytes): seq<Digest> {
    match p.parse(b)
    case None => []
    case Some(v) => if v.HasList(Json.Pages) then PageRefs(v.At(Json.Pages).items) else []
  }

  /** All references of a manifest, in the order in which they are found. */
  function AllRefs(p: Prim, blobs: Cas.Blobs, m: Manifest): seq<Digest> {
    LayerDigests(m)
    + (if m.worldFs in blobs then TreeRefs(p, blobs[m.worldFs]) else [])
    + (if m.cacheManifest in blobs then CacheRefs(p, blobs[m.cacheManifest]) else [])
  }

  // ---------- what a manifest refers to ----------

  /** `d` is the well-formed text that some item holds under a member. */
  ghost predicate ItemNames(items: seq<Json.Value>, k: Json.Key, d: Digest) {
    IsDigest(d) && exists i :: 0 <= i < |items| && items[i].HasText(k) && items[i].At(k).s == d
  }

  /** An entry of the tree blob names `d`. */
  ghost predicate TreeNames(p: Prim, blobs: Cas.Blobs, tree: Digest, d: Digest) {
    && tree in blobs && p.parse(blobs[tree]).Some?
    && var v := p.parse(blobs[tree]).value;
       v.Says(Json.Kind, "fs.tree.v1") && v.HasList(Json.Entries) && ItemNames(v.At(Json.Entries).items, Json.Blob, d)
  }

  /** A page of the page manifest has `d` for a half. */
  ghost predicate PagesName(p: Prim, blobs: Cas.Blobs, pages: Digest, d: Digest) {
    && pages in blobs && p.parse(blobs[pages]).Some?
    && var v := p.parse(blobs[pages]).value;
       v.HasList(Json.Pages) && (ItemNames(v.At(Json.Pages).items, Json.K, d) || ItemNames(v.At(Json.Pages).items, Json.V, d))
  }

  /** Everything a manifest refers to: its layers, field by field, and what its tree
      and its page manifest name. */
  ghost predicate RefersTo(p: Prim, blobs: Cas.Blobs, m: Manifest, d: Digest) {
    || d == m.modelBase || d == m.modelDiff || d == m.cacheManifest || d == m.worldFs
    || d == m.worldEnv || d == m.worldProcs || d == m.ledger || d == m.messages
    || TreeNames(p, blobs, m.worldFs, d) || PagesName(p, blobs, m.cacheManifest, d)
  }

  lemma {:induction false} EntryRefsAre(items: seq<Json.Value>, d: Digest)
    ensures d in EntryRefs(items) <==> ItemNames(items, Json.Blob, d)
  {
    if items != [] {
      var n := |items| - 1;
      EntryRefsAre(items[..n], d);
      ItemNamesStep(items, Json.Blob, d);
    }
  }

  lemma {:induction false} ItemNamesStep(items: seq<Json.Value>, k: Json.Key, d: Digest)
    requires items != []
    ensures ItemNames(items, k, d) <==> ItemNames(items[..|items| - 1], k, d) || d in RefAt(items[|items| - 1], k)
  {
    var n := |items| - 1;
    if ItemNames(items[..n], k, d) {
      var i :| 0 <= i < n && items[..n][i].HasText(k) && items[..n][i].At(k).s == d;
      assert items[i].HasText(k) && items[i].At(k).s == d;
    }
    if ItemNames(items, k, d) {
      var i :| 0 <= i < |items| && items[i].HasText(k) && items[i].At(k).s == d;
      assert i < n ==> items[..n][i] == items[i];
    }
  }

  lemma {:induction false} PageRefsAre(items: seq<Json.Value>, d: Digest)
    ensures d in PageRefs(items) <==> ItemNames(items, Json.K, d) || ItemNames(items, Json.V, d)
  {
    if items != [] {
      PageRefsAre(items[..|items| - 1], d);
      ItemNamesStep(items, Json.K, d);
      ItemNamesStep(items, Json.V, d);
    }
  }

  /** The walk finds exactly what the manifest refers to. */
  lemma {:induction false} AllRefsIff(p: Prim, blobs: Cas.Blobs, m: Manifest, d: Digest)
    ensures d in AllRefs(p, blobs, m) <==> RefersTo(p, blobs, m, d)
  {
    if m.worldFs in blobs && p.parse(blobs[m.worldFs]).Some? && p.parse(blobs[m.worldFs]).value.HasList(Json.Entries) {
      EntryRefsAre(p.parse(blobs[m.worldFs]).value.At(Json.Entries).items, d);
    }
    if m.cacheManifest in blobs && p.parse(blobs[m.cacheManifest]).Some? && p.parse(blobs[m.cacheManifest]).value.HasList(Json.Pages) {
      PageRefsAre(p.parse(blobs[m.cacheManifest]).value.At(Json.Pages).items, d);
    }
  }

  /** Only first occurrences, in the same order. */
  function Firsts(ds: seq<Digest>): seq<Digest> {
    if ds == [] then []
    else
      var n := |ds| - 1;
      Firsts(ds[..n]) + (if ds[n] in ds[..n] then [] else [ds[n]])
  }

  lemma {:induction false} FirstsOf(ds: seq<Digest>)
    ensures forall d :: d in Firsts(ds) <==> d in ds
    ensures forall i, j :: 0 <= i < j < |Firsts(ds)| ==> Firsts(ds)[i] != Firsts(ds)[j]
  {
    if ds != [] {
      var n := |ds| - 1;
      FirstsOf(ds[..n]);
      assert ds == ds[..n] + [ds[n]];
    }
  }

  /** `transitive_blob_digests`: every reference once, in insertion order. */
  method TransitiveBlobDigests(p: Prim, m: Manifest, blobs: Cas.Blobs) returns (order: seq<Digest>)
    ensures order == Firsts(AllRefs(p, blobs, m))
    ensures forall d :: d in order <==> RefersTo(p, blobs, m, d)
    ensures forall i, j :: 0 <= i < j < |order| ==> order[i] != order[j]
  {
    var seen: set<string>;
    ghost var found: seq<Digest> := LayerDigests(m);
    seen, order := AddAll({}, [], [], LayerDigests(m));
    assert [] + LayerDigests(m) == LayerDigests(m);
    if m.worldFs in blobs {
      var tree := p.parse(blobs[m.worldFs]);
      if tree.Some? && tree.value.Says(Json.Kind, TREE_KIND) && tree.value.HasList(Json.Entries) {
        seen, order := AddEntries(seen, order, found, tree.value.At(Json.Entries).items);
        found := found + EntryRefs(tree.value.At(Json.Entries).items);
      }
    }
    assert found == LayerDigests(m) + (if m.worldFs in blobs then TreeRefs(p, blobs[m.worldFs]) else []);
    if m.cacheManifest in blobs {
      var pages := p.parse(blobs[m.cacheManifest]);
      if pages.Some? && pages.value.HasList(Json.Pages) {
        seen, order := AddPages(seen, order, found, pages.value.At(Json.Pages).items);
        found := found + PageRefs(pages.value.At(Json.Pages).items);
      }
    }
    assert found == AllRefs(p, blobs, m);
    FirstsOf(found);
    forall d
      ensures d in found <==> RefersTo(p, blobs, m, d)
    {
      AllRefsIff(p, blobs, m, d);
    }
  }

  /** The set of what was seen beside the list of first occurrences. */
  ghost predicate Tracks(seen: set<string>, order: seq<Digest>, found: seq<Digest>) {
    order == Firsts(found) && forall d :: d in seen <==> d in found
  }

  method Add(seen: set<string>, order: seq<Digest>, ghost found: seq<Digest>, d: Digest)
    returns (seen': set<string>, order': seq<Digest>)
    requires Tracks(seen, order, found)
    ensures Tracks(seen', order', found + [d])
  {
    assert (found + [d])[..|found|] == found;
    seen' := seen + {d};
    order' := if d in seen then order else order + [d];
  }

  method AddAll(seen: set<string>, order: seq<Digest>, ghost found: seq<Digest>, ds: seq<Digest>)
    returns (seen': set<string>, order': seq<Digest>)
    requires Tracks(seen, order, found)
    ensures Tracks(seen', order', found + ds)
  {
    seen', order' := seen, order;
    assert found + ds[..0] == found;
    for i := 0 to |ds|
      invariant Tracks(seen', order', found + ds[..i])
    {
      seen', order' := Add(seen', order', found + ds[..i], ds[i]);
      assert found + ds[..i] + [ds[i]] == found + ds[..i + 1];
    }
    assert ds[..|ds|] == ds;
  }

  method AddEntries(seen: set<string>, order: seq<Digest>, ghost found: seq<Digest>, items: seq<Json.Value>)
    returns (seen': set<string>, order': seq<Digest>)
    requires Tracks(seen, order, found)
    ensures Tracks(seen', order', found + EntryRefs(items))
  {
    seen', order' := seen, order;
    assert found + EntryRefs(items[..0]) == found;
    for i := 0 to |items|
      invariant Tracks(seen', order', found + EntryRefs(items[..i]))
    {
      seen', order' := AddAll(seen', order', found + EntryRefs(items[..i]), RefAt(items[i], Json.Blob));
      assert items[..i + 1][..i] == items[..i];
      assert found + EntryRefs(items[..i]) + RefAt(items[i], Json.Blob) == found + EntryRefs(items[..i + 1]);
    }
    assert items[..|items|] == items;
  }

  method AddPage(seen: set<string>, order: seq<Digest>, ghost found: seq<Digest>, page: Json.Value)
    returns (seen': set<string>, order': seq<Digest>)
    requires Tracks(seen, order, found)
    ensures Tracks(seen', order', found + RefAt(page, Json.K) + RefAt(page, Json.V))
  {
    seen', order' := AddAll(seen, order, found, RefAt(page, Json.K));
    seen', order' := AddAll(seen', order', found + RefAt(page, Json.K), RefAt(page, Json.V));
  }

  lemma {:induction false} PageStep(found: seq<Digest>, items: seq<Json.Value>, i: nat)
    requires i < |items|
    ensures found + PageRefs(items[..i]) + RefAt(items[i], Json.K) + RefAt(items[i], Json.V)
         == found + PageRefs(items[..i + 1])
  {
    assert items[..i + 1][..i] == items[..i];
    var k, v := RefAt(items[i], Json.K), RefAt(items[i], Json.V);
    assert PageRefs(items[..i + 1]) == PageRefs(items[..i]) + k + v;
  }

  method AddPages(seen: set<string>, order: seq<Digest>, ghost found: seq<Digest>, items: seq<Json.Value>)
    returns (seen': set<string>, order': seq<Digest>)
    requires Tracks(seen, order, found)
    ensures Tracks(seen', order', found + PageRefs(items))
  {
    seen', order' := seen, order;
    assert found + PageRefs(items[..0]) == found;
    for i := 0 to |items|
      invariant Tracks(seen', order', found + PageRefs(items[..i]))
    {
      seen', order' := AddPage(seen', order', found + PageRefs(items[..i]), items[i]);
      PageStep(found, items, i);
    }
    assert items[..|items|] == items;
  }

  // ---------- the walk covers what the readers fetch ----------

  lemma {:induction false} EntryRefOf(items: seq<Json.Value>, i: nat)
    requires i < |items| && items[i].HasText(Json.Blob) && IsDigest(items[i].At(Json.Blob).s)
    ensures items[i].At(Json.Blob).s in EntryRefs(items)
  {
    var n := |items| - 1;
    if i < n {
      assert items[..n][i] == items[i];
      EntryRefOf(items[..n], i);
    }
  }

  lemma {:induction false} PageRefOf(items: seq<Json.Value>, i: nat, k: Json.Key)
    requires i < |items| && (k == Json.K || k == Json.V) && items[i].HasText(k) && IsDigest(items[i].At(k).s)
    ensures items[i].At(k).s in PageRefs(items)
  {
    var n := |items| - 1;
    if i < n {
      assert items[..n][i] == items[i];
      PageRefOf(items[..n], i, k);
    }
  }

  lemma {:induction false} TypedEntries(items: seq<Json.Value>, i: nat)
    requires JsonEntries(items).Some? && i < |JsonEntries(items).value|
    ensures |JsonEntries(items).value| == |items| && JsonEntry(items[i]) == Some(JsonEntries(items).value[i])
  {
    if |items| == 1 {
      assert items[1..] == [];
    } else {
      TypedEntries(items[1..], if i == 0 then 0 else i - 1);
    }
  }

  /** Whatever blob a typed reading of a tree names, the untyped walk finds, if
      its digest is well formed. */
  lemma {:induction false} TreeRefsCover(p: Prim, b: Bytes, i: nat)
    requires ReadTree(p, b).Some? && i < |ReadTree(p, b).value|
    requires ReadTree(p, b).value[i].blob.Some? && IsDigest(ReadTree(p, b).value[i].blob.value)
    ensures ReadTree(p, b).value[i].blob.value in TreeRefs(p, b)
  {
    var items := p.parse(b).value.At(Json.Entries).items;
    TypedEntries(items, i);
    EntryRefOf(items, i);
  }

  lemma {:induction false} DecodedAt<T>(vs: seq<Json.Value>, decode: Json.Value -> Option<T>, i: nat)
    requires DecodeList(vs, decode).Some? && i < |DecodeList(vs, decode).value|
    ensures |DecodeList(vs, decode).value| == |vs| && decode(vs[i]) == Some(DecodeList(vs, decode).value[i])
  {
    if |vs| == 1 {
      assert vs[1..] == [];
    } else {
      DecodedAt(vs[1..], decode, if i == 0 then 0 else i - 1);
    }
  }

  /** The same for the two halves of a page. */
  lemma {:induction false} CacheRefsCover(p: Prim, b: Bytes, i: nat)
    requires ReadManifest(p, b).Some? && i < |ReadManifest(p, b).value.pages|
    ensures
      var pg := ReadManifest(p, b).value.pages[i];
      (IsDigest(pg.k) ==> pg.k in CacheRefs(p, b)) && (IsDigest(pg.v) ==> pg.v in CacheRefs(p, b))
  {
    var items := p.parse(b).value.At(Json.Pages).items;
    var pg := ReadManifest(p, b).value.pages[i];
    DecodedAt(items, JsonPage, i);
    if IsDigest(pg.k) {
      PageRefOf(items, i, Json.K);
    }
    if IsDigest(pg.v) {
      PageRefOf(items, i, Json.V);
    }
  }
}
