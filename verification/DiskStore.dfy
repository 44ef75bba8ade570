/** The store on disk. */
module DiskStore {
  // Blob files in shard directories, image markers, and the map of digests to
  // bytes that reading them amounts to.

  import opened Bits
  import opened Base
  import opened Manifests
  import Cas

  /** A file `blobs/sha256/<shard>/<name>`. */
  datatype BlobFile = BlobFile(shard: string, name: string)

  type BlobFiles = map<BlobFile, Bytes>

  const ZST: string := ".zst"
  const MARKER: string := ".json"

  predicate EndsWith(s: string, suffix: string) { |suffix| <= |s| && s[|s| - |suffix|..] == suffix }

  function Strip(s: string, suffix: string): string
    requires EndsWith(s, suffix)
  {
    s[..|s| - |suffix|]
  }

  /** `Digest256::parse` of "sha256:" and a file's stem. */
  function StemDigest(stem: string): Option<Digest> {
    if IsDigest(PREFIX + stem) then Some(PREFIX + stem) else None
  }

  /** The digest that a directory walk reads off a blob's name. */
  function NameDigest(name: string): Option<Digest> { StemDigest(if EndsWith(name, ZST) then Strip(name, ZST) else name) }

  function PathOf(d: Digest): BlobFile
    requires |HexPart(d)| >= 2
  {
    BlobFile(HexPart(d)[..2], HexPart(d) + ZST)
  }

  /** `get`: read the file, decompress, and hash again. */
  function Fetch(p: Prim, files: BlobFiles, d: Digest): Option<Bytes> {
    if |HexPart(d)| < 2 || PathOf(d) !in files then None
    else
      match p.unzstd(files[PathOf(d)])
      case None => None
      case Some(b) => if Of(p, b) == d then Some(b) else None
  }

  /** Digests that some blob file is named after. */
  function Named(files: BlobFiles): set<Digest> {
    set f | f in files && NameDigest(f.name).Some? :: NameDigest(f.name).value
  }

  /** What `get` returns, as a map. */
  function View(p: Prim, files: BlobFiles): Cas.Blobs {
    map d | d in Named(files) && Fetch(p, files, d).Some? :: Fetch(p, files, d).value
  }

  lemma {:induction false} DigestName(d: Digest)
    requires IsDigest(d)
    ensures |HexPart(d)| == 64 && NameDigest(PathOf(d).name) == Some(d)
  {
    var name := HexPart(d) + ZST;
    assert name[|name| - 4..] == ZST && name[..|name| - 4] == HexPart(d);
    assert d == d[..7] + d[7..];
  }

  /** A blob file is named by the 64 hex digits, with or without `.zst`, and lies
      in the directory of the first two. */
  lemma {:induction false} BlobNames(name: string, d: Digest)
    ensures NameDigest(name) == Some(d) <==> IsDigest(d) && (name == d[7..] + ".zst" || name == d[7..])
    ensures IsDigest(d) ==> |HexPart(d)| == 64 && PathOf(d) == BlobFile(d[7..9], d[7..] + ".zst")
  {
    if IsDigest(d) {
      DigestName(d);
      assert d == PREFIX + d[7..] && HexPart(d) == d[7..];
      assert d[7..][..2] == d[7..9];
      assert d[7..][60] == d[67] && d[67] != '.' && ZST[0] == '.';
    }
    if NameDigest(name).Some? {
      var stem := if EndsWith(name, ZST) then Strip(name, ZST) else name;
      assert (PREFIX + stem)[7..] == stem;
      assert EndsWith(name, ZST) ==> name == stem + ZST;
    }
  }

  lemma {:induction false} FetchedIsDigest(p: Prim, files: BlobFiles, d: Digest)
    requires Lawful(p) && Fetch(p, files, d).Some?
    ensures IsDigest(d) && d in Named(files) && d == Of(p, Fetch(p, files, d).value)
  {
    HashShape(p, Fetch(p, files, d).value);
    DigestName(d);
    assert PathOf(d) in files;
  }

  lemma {:induction false} ViewIsFetch(p: Prim, files: BlobFiles, d: Digest)
    requires Lawful(p)
    ensures Cas.Lookup(View(p, files), d) == Fetch(p, files, d)
  {
    if Fetch(p, files, d).Some? {
      FetchedIsDigest(p, files, d);
    }
  }

  lemma {:induction false} ViewIsKeyed(p: Prim, files: BlobFiles)
    requires Lawful(p)
    ensures Cas.Keyed(p, View(p, files))
    ensures forall d :: d in View(p, files) ==> IsDigest(d)
  {
    forall d | d in View(p, files)
      ensures Of(p, View(p, files)[d]) == d && IsDigest(d)
    {
      FetchedIsDigest(p, files, d);
    }
  }

  /** No file at the place of a well-formed digest is damaged. */
  ghost predicate Intact(p: Prim, files: BlobFiles) {
    forall d :: IsDigest(d) && PlacedIn(files, d) ==> Fetch(p, files, d).Some?
  }

  ghost predicate PlacedIn(files: BlobFiles, d: Digest)
    requires IsDigest(d)
  {
    DigestName(d);
    PathOf(d) in files
  }

  /** The files after `put`: one that is already there is kept as it is. */
  function FilesAfterPut(p: Prim, files: BlobFiles, b: Bytes): BlobFiles {
    var d := Of(p, b);
    if |HexPart(d)| < 2 || PathOf(d) in files then files else files[PathOf(d) := p.zstd(b)]
  }

  lemma {:induction false} PathInjective(d: Digest, e: Digest)
    requires IsDigest(d) && IsDigest(e)
    ensures |HexPart(d)| == 64 && |HexPart(e)| == 64
    ensures PathOf(d) == PathOf(e) ==> d == e
  {
    DigestName(d);
    DigestName(e);
  }

  lemma {:induction false} FetchAfterPut(p: Prim, files: BlobFiles, b: Bytes, d: Digest)
    requires Lawful(p) && Intact(p, files)
    ensures Fetch(p, FilesAfterPut(p, files, b), d) == Cas.Lookup(Cas.Stored(p, View(p, files), b), d)
  {
    HashShape(p, b);
    DigestName(Of(p, b));
    ViewIsFetch(p, files, d);
    ViewIsFetch(p, files, Of(p, b));
    var after := FilesAfterPut(p, files, b);
    assert PathOf(Of(p, b)) in files ==> PlacedIn(files, Of(p, b));
    if Fetch(p, after, d).Some? {
      FetchedIsDigest(p, after, d);
      PathInjective(d, Of(p, b));
    }
    if Fetch(p, files, d).Some? {
      FetchedIsDigest(p, files, d);
      PathInjective(d, Of(p, b));
    }
  }

  /** On an intact store, `put` is `put` on the map. */
  lemma {:induction false} PutRefinesMap(p: Prim, files: BlobFiles, b: Bytes)
    requires Lawful(p) && Intact(p, files)
    ensures View(p, FilesAfterPut(p, files, b)) == Cas.Stored(p, View(p, files), b)
    ensures Intact(p, FilesAfterPut(p, files, b))
  {
    var after := FilesAfterPut(p, files, b);
    var v, w := View(p, after), Cas.Stored(p, View(p, files), b);
    forall d
      ensures Cas.Lookup(v, d) == Cas.Lookup(w, d)
    {
      FetchAfterPut(p, files, b, d);
      ViewIsFetch(p, after, d);
    }
    SameLookups(v, w);
    HashShape(p, b);
    forall d | IsDigest(d) && PlacedIn(after, d)
      ensures Fetch(p, after, d).Some?
    {
      FetchAfterPut(p, files, b, d);
      PathInjective(d, Of(p, b));
      ViewIsFetch(p, files, d);
      if PlacedIn(files, d) {
        assert Fetch(p, files, d).Some?;
      }
    }
  }

  /** A file is at a digest's place and does not read back. */
  ghost predicate Damaged(p: Prim, files: BlobFiles, d: Digest) {
    IsDigest(d) && PlacedIn(files, d) && Fetch(p, files, d).None?
  }

  function FilesAfterPuts(p: Prim, files: BlobFiles, bs: seq<Bytes>): BlobFiles {
    if bs == [] then files else FilesAfterPut(p, FilesAfterPuts(p, files, bs[..|bs| - 1]), bs[|bs| - 1])
  }

  ghost predicate DigestOfOne(p: Prim, bs: seq<Bytes>, d: Digest) { exists b :: b in bs && Of(p, b) == d }

  lemma {:induction false} OnePut(p: Prim, files: BlobFiles, b: Bytes, d: Digest)
    requires Lawful(p) && IsDigest(d)
    ensures
      var after := FilesAfterPut(p, files, b);
      && (PlacedIn(after, d) <==> PlacedIn(files, d) || Of(p, b) == d)
      && (PlacedIn(files, d) || Of(p, b) != d ==> Fetch(p, after, d) == Fetch(p, files, d))
      && (!PlacedIn(files, d) && Of(p, b) == d ==> Fetch(p, after, d) == Some(b))
  {
    HashShape(p, b);
    PathInjective(d, Of(p, b));
  }

  /** Puts change no file that is there, and add none but the digests put. */
  lemma {:induction false} PutsKeepFiles(p: Prim, files: BlobFiles, bs: seq<Bytes>, d: Digest)
    requires Lawful(p) && IsDigest(d)
    ensures PlacedIn(files, d) || !DigestOfOne(p, bs, d) ==>
      Fetch(p, FilesAfterPuts(p, files, bs), d) == Fetch(p, files, d)
    ensures PlacedIn(FilesAfterPuts(p, files, bs), d) <==> PlacedIn(files, d) || DigestOfOne(p, bs, d)
  {
    if bs != [] {
      var n := |bs| - 1;
      assert bs == bs[..n] + [bs[n]];
      PutsKeepFiles(p, files, bs[..n], d);
      OnePut(p, FilesAfterPuts(p, files, bs[..n]), bs[n], d);
      assert DigestOfOne(p, bs, d) <==> DigestOfOne(p, bs[..n], d) || Of(p, bs[n]) == d;
    }
  }

  /** What was put reads back exactly if no damaged file lay at its place. */
  lemma {:induction false} PutsReadBackIff(p: Prim, files: BlobFiles, bs: seq<Bytes>, b: Bytes, inputs: set<Bytes>)
    requires Lawful(p) && b in bs && CollisionFree(p, inputs)
    requires View(p, files).Values <= inputs && forall x :: x in bs ==> x in inputs
    ensures Fetch(p, FilesAfterPuts(p, files, bs), Of(p, b)) == Some(b) <==> !Damaged(p, files, Of(p, b))
  {
    var d := Of(p, b);
    HashShape(p, b);
    if PlacedIn(files, d) {
      PutsKeepFiles(p, files, bs, d);
      if Fetch(p, files, d).Some? {
        PlacedReads(p, files, d, b, inputs);
      }
    } else {
      FirstPutReads(p, files, bs, b, inputs);
    }
  }

  lemma {:induction false} PlacedReads(p: Prim, files: BlobFiles, d: Digest, b: Bytes, inputs: set<Bytes>)
    requires Lawful(p) && d == Of(p, b) && b in inputs && CollisionFree(p, inputs)
    requires View(p, files).Values <= inputs && Fetch(p, files, d).Some?
    ensures Fetch(p, files, d) == Some(b)
  {
    ViewIsFetch(p, files, d);
    assert View(p, files)[d] in View(p, files).Values;
    OfInjective(p, inputs, View(p, files)[d], b);
  }

  lemma {:induction false} FirstPutReads(p: Prim, files: BlobFiles, bs: seq<Bytes>, b: Bytes, inputs: set<Bytes>)
    requires Lawful(p) && b in bs && CollisionFree(p, inputs) && forall x :: x in bs ==> x in inputs
    requires IsDigest(Of(p, b)) && !PlacedIn(files, Of(p, b))
    ensures Fetch(p, FilesAfterPuts(p, files, bs), Of(p, b)) == Some(b)
  {
    var n, d := |bs| - 1, Of(p, b);
    PutsKeepFiles(p, files, bs[..n], d);
    OnePut(p, FilesAfterPuts(p, files, bs[..n]), bs[n], d);
    if DigestOfOne(p, bs[..n], d) {
      InEarlier(p, bs, b, inputs);
      FirstPutReads(p, files, bs[..n], b, inputs);
    } else {
      OnlyLast(p, bs, b);
    }
  }

  lemma {:induction false} InEarlier(p: Prim, bs: seq<Bytes>, b: Bytes, inputs: set<Bytes>)
    requires bs != [] && b in bs && CollisionFree(p, inputs) && forall x :: x in bs ==> x in inputs
    requires DigestOfOne(p, bs[..|bs| - 1], Of(p, b))
    ensures b in bs[..|bs| - 1] && forall x :: x in bs[..|bs| - 1] ==> x in inputs
  {
    var x :| x in bs[..|bs| - 1] && Of(p, x) == Of(p, b);
    OfInjective(p, inputs, x, b);
  }

  lemma {:induction false} OnlyLast(p: Prim, bs: seq<Bytes>, b: Bytes)
    requires bs != [] && b in bs && !DigestOfOne(p, bs[..|bs| - 1], Of(p, b))
    ensures b == bs[|bs| - 1]
  {
    var n := |bs| - 1;
    assert bs == bs[..n] + [bs[n]];
    assert b !in bs[..n];
  }

  lemma {:induction false} SameLookups(m: Cas.Blobs, m': Cas.Blobs)
    requires forall d :: Cas.Lookup(m, d) == Cas.Lookup(m', d)
    ensures m == m'
  {
    forall d
      ensures d in m <==> d in m'
      ensures d in m ==> m[d] == m'[d]
    {
      assert Cas.Lookup(m, d) == Cas.Lookup(m', d);
    }
  }

  // ---------- markers ----------

  type Markers = map<string, Bytes>

  datatype Image = Image(cid: Digest, manifest: Manifest)

  /** The image that a marker file stands for, if it can be read. */
  function MarkedImage(c: ManifestCodec, markers: Markers, name: string): Option<Image> {
    if name !in markers || !EndsWith(name, MARKER) then None
    else
      match (StemDigest(Strip(name, MARKER)), c.decode(markers[name]))
      case (Some(cid), Some(m)) => Some(Image(cid, m))
      case _ => None
  }

  function MarkerName(cid: Digest): string { HexPart(cid) + MARKER }

  lemma {:induction false} MarkerOf(c: ManifestCodec, markers: Markers, name: string)
    requires MarkedImage(c, markers, name).Some?
    ensures name == MarkerName(MarkedImage(c, markers, name).value.cid)
    ensures IsDigest(MarkedImage(c, markers, name).value.cid)
  {
    var stem := Strip(name, MARKER);
    assert name == stem + MARKER;
    assert (PREFIX + stem)[7..] == stem;
  }

  /** `iter_manifests` in some order: each readable marker once. */
  ghost predicate ListsImages(c: ManifestCodec, markers: Markers, images: seq<Image>) {
    && (forall im :: im in images <==> exists name :: MarkedImage(c, markers, name) == Some(im))
    && (forall i, j :: 0 <= i < j < |images| ==> images[i].cid != images[j].cid)
  }

  class PfStore {
    var files: BlobFiles
    var markers: Markers

    constructor ()
      ensures files == map[] && markers == map[]
    {
      files, markers := map[], map[];
    }

    /** A temp file, then a rename: to a single process, one step. */
    method Put(p: Prim, bytes: Bytes) returns (d: Digest)
      requires Lawful(p)
      modifies this`files
      ensures d == Of(p, bytes) && files == FilesAfterPut(p, old(files), bytes)
    {
      d := Of(p, bytes);
      HashShape(p, bytes);
      if PathOf(d) !in files {
        files := files[PathOf(d) := p.zstd(bytes)];
      }
    }

    method Get(p: Prim, d: Digest) returns (r: Option<Bytes>)
      requires Lawful(p)
      ensures r == Cas.Lookup(View(p, files), d)
    {
      ViewIsFetch(p, files, d);
      if |HexPart(d)| < 2 || PathOf(d) !in files {
        return None;
      }
      var bytes := p.unzstd(files[PathOf(d)]);
      if bytes.None? || Of(p, bytes.value) != d {
        return None;
      }
      return bytes;
    }

    /** Blob first, then the marker, unless a marker is there. */
    method PutManifest(p: Prim, c: ManifestCodec, m: Manifest) returns (cid: Digest)
      requires Lawful(p)
      modifies this
      ensures cid == Of(p, c.encode(m)) && files == FilesAfterPut(p, old(files), c.encode(m))
      ensures markers == MarkersAfterPut(p, c, old(markers), m)
      ensures MarkerAdded(old(markers), markers, cid[7..] + ".json", c.encode(m))
    {
      var json := c.encode(m);
      cid := Put(p, json);
      HashShape(p, json);
      assert MarkerName(cid) == cid[7..] + ".json";
      if MarkerName(cid) !in markers {
        markers := markers[MarkerName(cid) := json];
      }
    }

    method GetManifest(p: Prim, c: ManifestCodec, cid: Digest) returns (r: Option<Manifest>)
      requires Lawful(p)
      ensures r == match Cas.Lookup(View(p, files), cid) case Some(b) => c.decode(b) case None => None
    {
      var bytes := Get(p, cid);
      if bytes.None? {
        return None;
      }
      r := c.decode(bytes.value);
    }

    /** The directory may be listed in any order. */
    method IterManifests(c: ManifestCodec) returns (images: seq<Image>)
      ensures ListsImages(c, markers, images)
    {
      images := [];
      var rest := markers.Keys;
      while rest != {}
        invariant rest <= markers.Keys
        invariant forall im :: im in images <==> exists name :: name !in rest && MarkedImage(c, markers, name) == Some(im)
        invariant forall i, j :: 0 <= i < j < |images| ==> images[i].cid != images[j].cid
      {
        var name :| name in rest;
        var image := MarkedImage(c, markers, name);
        if image.Some? {
          NotYetListed(c, markers, images, rest, name);
          images := images + [image.value];
        }
        rest := rest - {name};
      }
    }
  }

  /** The name has a marker now, a new one with those bytes; all others are as before. */
  ghost predicate MarkerAdded(before: Markers, after: Markers, name: string, bytes: Bytes) {
    && name in after && after[name] == (if name in before then before[name] else bytes)
    && (forall n :: n in after <==> n in before || n == name)
    && forall n :: n in before ==> after[n] == before[n]
  }

  /** The markers after `put_manifest`. */
  function MarkersAfterPut(p: Prim, c: ManifestCodec, markers: Markers, m: Manifest): Markers {
    var name := MarkerName(Of(p, c.encode(m)));
    if name in markers then markers else markers[name := c.encode(m)]
  }

  /** An image that was put is listed exactly if no marker of its name was there,
      or one that already stood for it. */
  lemma {:induction false} PutIsListedIff(p: Prim, c: ManifestCodec, markers: Markers, m: Manifest, images: seq<Image>)
    requires Lawful(p) && LawfulManifests(c) && Timely(c, m) && ListsImages(c, MarkersAfterPut(p, c, markers, m), images)
    ensures
      var cid := Of(p, c.encode(m));
      Image(cid, m) in images <==> MarkerName(cid) !in markers || c.decode(markers[MarkerName(cid)]) == Some(m)
  {
    var cid, after := Of(p, c.encode(m)), MarkersAfterPut(p, c, markers, m);
    var name := MarkerName(cid);
    HashShape(p, c.encode(m));
    assert name[..|name| - 5] == HexPart(cid) && name[|name| - 5..] == MARKER;
    assert PREFIX + HexPart(cid) == cid;
    assert Strip(name, MARKER) == HexPart(cid);
    if Image(cid, m) in images {
      var other :| MarkedImage(c, after, other) == Some(Image(cid, m));
      MarkerOf(c, after, other);
      assert other == name;
    }
    if name !in markers || c.decode(markers[name]) == Some(m) {
      assert MarkedImage(c, after, name) == Some(Image(cid, m));
    }
  }

  /** A manifest that was put is read back under its content-id. */
  lemma {:induction false} ManifestReadBack(p: Prim, c: ManifestCodec, files: BlobFiles, m: Manifest)
    requires Lawful(p) && LawfulManifests(c) && Timely(c, m) && Intact(p, files)
    requires CollisionFree(p, View(p, files).Values + {c.encode(m)})
    ensures
      var stored := Cas.Lookup(View(p, FilesAfterPut(p, files, c.encode(m))), Of(p, c.encode(m)));
      stored == Some(c.encode(m)) && c.decode(stored.value) == Some(m)
  {
    PutRefinesMap(p, files, c.encode(m));
    ViewIsKeyed(p, files);
    Cas.PutThenGet(p, View(p, files), c.encode(m));
  }

  lemma {:induction false} NotYetListed(c: ManifestCodec, markers: Markers, images: seq<Image>, rest: set<string>, name: string)
    requires forall im :: im in images <==> exists name :: name !in rest && MarkedImage(c, markers, name) == Some(im)
    requires name in rest && MarkedImage(c, markers, name).Some?
    ensures forall i :: 0 <= i < |images| ==> images[i].cid != MarkedImage(c, markers, name).value.cid
  {
    MarkerOf(c, markers, name);
    forall i | 0 <= i < |images|
      ensures images[i].cid != MarkedImage(c, markers, name).value.cid
    {
      assert images[i] in images;
      var other :| other !in rest && MarkedImage(c, markers, other) == Some(images[i]);
      MarkerOf(c, markers, other);
    }
  }
}
