/** `merge_world`: three-way merge of captured trees, path by path. */
module WorldMerge {
  import opened Bits
  import opened Base
  import opened Sorting
  import opened Tree
  import Cas

  datatype Conflict = Conflict(path: string, a: Digest, b: Digest, x: Option<Digest>)

  datatype Merge = Merge(mergedFs: Digest, conflicts: seq<Conflict>, cleanPaths: nat)

  /** Collecting into an ordered map: a later entry of the same path wins. */
  function MapOf(es: seq<Entry>): map<string, Entry> {
    if es == [] then map[] else MapOf(es[..|es| - 1])[es[|es| - 1].path := es[|es| - 1]]
  }

  function At(m: map<string, Entry>, path: string): Option<Entry> {
    if path in m then Some(m[path]) else None
  }

  /** Mode and size are not compared. */
  predicate EntriesEqual(e: Entry, f: Entry) {
    e.kind == f.kind && e.blob == f.blob && e.linkTarget == f.linkTarget
  }

  /** Both absent, or equal in the sense of the merge. */
  predicate Same(e: Option<Entry>, f: Option<Entry>) {
    match (e, f)
    case (None, None) => true
    case (Some(v), Some(w)) => EntriesEqual(v, w)
    case _ => false
  }

  // ---------- what is decided for one path ----------

  datatype Decision = Absent | Take(choice: Option<Entry>) | KeepModified(e: Entry) | Clash(e: Entry, f: Entry)

  /** The three-way rule: a side that did not change since the ancestor yields
      to the other; equal changes agree; anything else is a conflict. */
  function Decide(a: Option<Entry>, b: Option<Entry>, x: Option<Entry>): Decision {
    if a.None? && b.None? then Absent
    else if Same(b, x) then Take(a)
    else if Same(a, x) then Take(b)
    else if Same(a, b) then Take(a)
    else if a.Some? && b.Some? then Clash(a.value, b.value)
    else KeepModified(if a.Some? then a.value else b.value)
  }

  function ZeroDigest(p: Prim): Digest { Of(p, []) }

  function BlobOf(p: Prim, e: Option<Entry>): Digest {
    if e.Some? && e.value.blob.Some? then e.value.blob.value else ZeroDigest(p)
  }

  function ConflictAt(p: Prim, path: string, a: Option<Entry>, b: Option<Entry>, x: Option<Entry>): Conflict {
    Conflict(path, BlobOf(p, a), BlobOf(p, b), if x.Some? then x.value.blob else None)
  }

  /** `bytes_to_text`, as bytes again. */
  function Text(p: Prim, b: Bytes): Bytes {
    if p.isUtf8(b) then b else Ascii("<binary: " + Decimal(|b|) + " bytes>")
  }

  function Marked(p: Prim, a: Bytes, b: Bytes): Bytes {
    Ascii("<<<<<<< A\n") + a + Ascii("\n=======\n") + b + Ascii("\n>>>>>>> B\n")
  }

  /** What an entry contributes to a conflict marker; `None` if its blob is missing. */
  function Content(p: Prim, m: Cas.Blobs, e: Entry): Option<Bytes> {
    if e.blob.None? then Some([])
    else if e.blob.value in m then Some(Text(p, m[e.blob.value]))
    else None
  }

  function MarkerEntry(e: Entry, d: Digest, size: u64): Entry {
    e.(blob := Some(d), size := size, kind := File, linkTarget := None)
  }

  // ---------- the loop as a fold over the paths ----------

  datatype Progress = Progress(blobs: Cas.Blobs, merged: seq<Entry>, conflicts: seq<Conflict>, clean: nat)

  function Optional(e: Option<Entry>): seq<Entry> { if e.Some? then [e.value] else [] }

  function Step(p: Prim, s: Progress, path: string, a: Option<Entry>, b: Option<Entry>, x: Option<Entry>): Option<Progress> {
    match Decide(a, b, x)
    case Absent => Some(s)
    case Take(e) => Some(s.(merged := s.merged + Optional(e), clean := s.clean + 1))
    case KeepModified(e) =>
      Some(s.(merged := s.merged + [e], conflicts := s.conflicts + [ConflictAt(p, path, a, b, x)]))
    case Clash(e, f) => Clashed(p, s, e, f, ConflictAt(p, path, a, b, x))
  }

  /** A marker blob of both contents, unless one of them is missing. */
  function Clashed(p: Prim, s: Progress, e: Entry, f: Entry, conflict: Conflict): Option<Progress> {
    match (Content(p, s.blobs, e), Content(p, s.blobs, f))
    case (Some(ea), Some(fb)) =>
      var text := Marked(p, ea, fb);
      var blobs := Cas.Stored(p, s.blobs, text);
      Some(Progress(blobs, s.merged + [MarkerEntry(e, Of(p, text), Size64(blobs[Of(p, text)]))],
                    s.conflicts + [conflict], s.clean))
    case _ => None
  }

  datatype Trees = Trees(a: map<string, Entry>, b: map<string, Entry>, x: map<string, Entry>)

  function StepAt(p: Prim, s: Progress, t: Trees, path: string): Option<Progress> {
    Step(p, s, path, At(t.a, path), At(t.b, path), At(t.x, path))
  }

  function Fold(p: Prim, s: Progress, t: Trees, paths: seq<string>): Option<Progress>
    decreases |paths|
  {
    if paths == [] then Some(s)
    else
      match StepAt(p, s, t, paths[0])
      case None => None
      case Some(next) => Fold(p, next, t, paths[1..])
  }

  ghost predicate AllPaths(t: Trees, paths: seq<string>) {
    Ascending(paths) && forall k :: k in paths <==> k in t.a || k in t.b || k in t.x
  }

  /** One path in the program's own case analysis. */
  method MergePath(p: Prim, store: Cas.MemBlobStore, path: string,
                   inA: Option<Entry>, inB: Option<Entry>, inX: Option<Entry>, ghost s: Progress)
    returns (ok: bool, entry: Option<Entry>, conflict: Option<Conflict>, clean: nat)
    requires store.Valid(p) && s.blobs == store.inner
    modifies store
    ensures store.Valid(p) && Cas.Extends(old(store.inner), store.inner)
    ensures Step(p, s, path, inA, inB, inX) ==
      if ok then Some(Progress(store.inner, s.merged + Optional(entry),
                               s.conflicts + (if conflict.Some? then [conflict.value] else []), s.clean + clean))
      else None
  {
    ok, entry, conflict, clean := true, None, None, 0;
    assert s.merged + [] == s.merged && s.conflicts + [] == s.conflicts;
    match (inA, inB, inX) {
      case (None, None, _) =>
      case (Some(ea), None, None) =>
        entry, clean := Some(ea), 1;
      case (None, Some(eb), None) =>
        entry, clean := Some(eb), 1;
      case (Some(ea), None, Some(ex)) =>
        if EntriesEqual(ea, ex) {
          clean := 1;
        } else {
          entry := Some(ea);
          conflict := Some(Conflict(path, BlobOf(p, inA), ZeroDigest(p), ex.blob));
        }
      case (None, Some(eb), Some(ex)) =>
        if EntriesEqual(eb, ex) {
          clean := 1;
        } else {
          entry := Some(eb);
          conflict := Some(Conflict(path, ZeroDigest(p), BlobOf(p, inB), ex.blob));
        }
      case (Some(ea), Some(eb), _) =>
        ok, entry, conflict, clean := MergeBoth(p, store, path, ea, eb, inX, s);
    }
  }

  /** A path both sides have. */
  method MergeBoth(p: Prim, store: Cas.MemBlobStore, path: string, ea: Entry, eb: Entry, inX: Option<Entry>, ghost s: Progress)
    returns (ok: bool, entry: Option<Entry>, conflict: Option<Conflict>, clean: nat)
    requires store.Valid(p) && s.blobs == store.inner
    modifies store
    ensures store.Valid(p) && Cas.Extends(old(store.inner), store.inner)
    ensures Step(p, s, path, Some(ea), Some(eb), inX) ==
      if ok then Some(Progress(store.inner, s.merged + Optional(entry),
                               s.conflicts + (if conflict.Some? then [conflict.value] else []), s.clean + clean))
      else None
  {
    ok, entry, conflict, clean := true, None, None, 0;
    assert s.merged + [] == s.merged && s.conflicts + [] == s.conflicts;
    var touchedA := inX.None? || !EntriesEqual(ea, inX.value);
    var touchedB := inX.None? || !EntriesEqual(eb, inX.value);
    if !touchedA && !touchedB {
      entry, clean := Some(ea), 1;
    } else if touchedA && !touchedB {
      entry, clean := Some(ea), 1;
    } else if !touchedA && touchedB {
      entry, clean := Some(eb), 1;
    } else if EntriesEqual(ea, eb) {
      entry, clean := Some(ea), 1;
    } else {
      ok, entry := WriteMarkers(p, store, path, ea, eb, inX, s);
      if ok {
        conflict := Some(Conflict(path, BlobOf(p, Some(ea)), BlobOf(p, Some(eb)), if inX.Some? then inX.value.blob else None));
      }
    }
  }

  /** Both sides changed, and differently. */
  method WriteMarkers(p: Prim, store: Cas.MemBlobStore, path: string, ea: Entry, eb: Entry, inX: Option<Entry>, ghost s: Progress)
    returns (ok: bool, entry: Option<Entry>)
    requires store.Valid(p) && s.blobs == store.inner
    modifies store
    ensures store.Valid(p) && Cas.Extends(old(store.inner), store.inner)
    ensures Clashed(p, s, ea, eb, ConflictAt(p, path, Some(ea), Some(eb), inX)) ==
      if ok then Some(Progress(store.inner, s.merged + Optional(entry),
                               s.conflicts + [ConflictAt(p, path, Some(ea), Some(eb), inX)], s.clean))
      else None
  {
    var d := BuildConflictBlob(p, store, ea, eb);
    if d.None? {
      return false, None;
    }
    var marker := store.Get(d.value);
    return true, Some(MarkerEntry(ea, d.value, Size64(marker.value)));
  }

  method BuildConflictBlob(p: Prim, store: Cas.MemBlobStore, a: Entry, b: Entry) returns (d: Option<Digest>)
    requires store.Valid(p)
    modifies store
    ensures store.Valid(p) && Cas.Extends(old(store.inner), store.inner)
    ensures
      match (Content(p, old(store.inner), a), Content(p, old(store.inner), b))
      case (Some(ea), Some(fb)) =>
        d == Some(Of(p, Marked(p, ea, fb))) && store.inner == Cas.Stored(p, old(store.inner), Marked(p, ea, fb))
      case _ => d.None? && store.inner == old(store.inner)
  {
    var aText, bText := [], [];
    if a.blob.Some? {
      var bytes := store.Get(a.blob.value);
      if bytes.None? {
        return None;
      }
      aText := Text(p, bytes.value);
    }
    if b.blob.Some? {
      var bytes := store.Get(b.blob.value);
      if bytes.None? {
        return None;
      }
      bText := Text(p, bytes.value);
    }
    Cas.StoredGrows(p, store.inner, Marked(p, aText, bText));
    var digest := store.Put(p, Marked(p, aText, bText));
    return Some(digest);
  }

  function TreeAt(p: Prim, m: Cas.Blobs, d: Digest): Option<seq<Entry>> {
    if d in m then ReadTree(p, m[d]) else None
  }

  /** `merge_world` computes the fold of the three-way rule over all paths in
      ascending order and stores the merged tree. */
  method MergeWorld(p: Prim, store: Cas.MemBlobStore, a: Digest, b: Digest, x: Digest) returns (r: Option<Merge>)
    requires store.Valid(p)
    modifies store
    ensures store.Valid(p) && Cas.Extends(old(store.inner), store.inner)
    ensures
      var m := old(store.inner);
      match (TreeAt(p, m, a), TreeAt(p, m, b), TreeAt(p, m, x))
      case (Some(ta), Some(tb), Some(tx)) =>
        exists paths :: Computed(p, m, Trees(MapOf(ta), MapOf(tb), MapOf(tx)), paths, r, store.inner)
      case _ => r.None? && store.inner == m
  {
    ghost var m := store.inner;
    var aBytes := store.Get(a);
    var bBytes := store.Get(b);
    var xBytes := store.Get(x);
    if aBytes.None? || bBytes.None? || xBytes.None? {
      return None;
    }
    var aTree, bTree, xTree := ReadTree(p, aBytes.value), ReadTree(p, bBytes.value), ReadTree(p, xBytes.value);
    if aTree.None? || bTree.None? || xTree.None? {
      return None;
    }
    var t := Trees(MapOf(aTree.value), MapOf(bTree.value), MapOf(xTree.value));
    var allPaths := SortedKeys(t.a.Keys + t.b.Keys + t.x.Keys);
    assert AllPaths(t, allPaths);
    var s := MergePaths(p, store, t, allPaths);
    if s.None? {
      r := None;
    } else {
      Cas.StoredGrows(p, store.inner, TreeBytes(p, s.value.merged));
      var d := store.Put(p, TreeBytes(p, s.value.merged));
      r := Some(Merge(d, s.value.conflicts, s.value.clean));
    }
    assert TreeAt(p, m, a) == aTree && TreeAt(p, m, b) == bTree && TreeAt(p, m, x) == xTree;
    assert Computed(p, m, Trees(MapOf(aTree.value), MapOf(bTree.value), MapOf(xTree.value)), allPaths, r, store.inner);
  }

  /** The loop over all paths. */
  method MergePaths(p: Prim, store: Cas.MemBlobStore, t: Trees, allPaths: seq<string>) returns (r: Option<Progress>)
    requires store.Valid(p)
    modifies store
    ensures store.Valid(p) && Cas.Extends(old(store.inner), store.inner)
    ensures r == Fold(p, Progress(old(store.inner), [], [], 0), t, allPaths)
    ensures r.Some? ==> store.inner == r.value.blobs
  {
    ghost var m := store.inner;
    var merged: seq<Entry>, conflicts: seq<Conflict>, cleanPaths := [], [], 0;
    for i := 0 to |allPaths|
      invariant store.Valid(p) && Cas.Extends(m, store.inner)
      invariant Fold(p, Progress(m, [], [], 0), t, allPaths)
             == Fold(p, Progress(store.inner, merged, conflicts, cleanPaths), t, allPaths[i..])
    {
      var path := allPaths[i];
      ghost var s := Progress(store.inner, merged, conflicts, cleanPaths);
      assert allPaths[i..][0] == path && allPaths[i..][1..] == allPaths[i + 1..];
      var ok, entry, conflict, clean := MergePath(p, store, path, At(t.a, path), At(t.b, path), At(t.x, path), s);
      if !ok {
        return None;
      }
      merged := merged + Optional(entry);
      conflicts := conflicts + (if conflict.Some? then [conflict.value] else []);
      cleanPaths := cleanPaths + clean;
    }
    return Some(Progress(store.inner, merged, conflicts, cleanPaths));
  }

  ghost predicate Computed(p: Prim, m: Cas.Blobs, t: Trees, paths: seq<string>, r: Option<Merge>, m': Cas.Blobs) {
    && AllPaths(t, paths)
    && match Fold(p, Progress(m, [], [], 0), t, paths)
    case None => r.None?
    case Some(s) =>
      && r == Some(Merge(Of(p, TreeBytes(p, s.merged)), s.conflicts, s.clean))
      && m' == Cas.Stored(p, s.blobs, TreeBytes(p, s.merged))
  }
}
