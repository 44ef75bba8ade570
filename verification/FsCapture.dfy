/** Capturing a directory tree: the walk that prunes what is ignored, the entries
    sorted by path, and the blobs they name. */
module FsCapture {
  import opened Bits
  import opened Base
  import opened Sorting
  import opened Paths
  import opened Tree
  import Cas

  /** What a path on disk holds. A link's own permission bits are those of
      Linux, 0777. */
  datatype Node =
    | Directory(mode: nat)
    | Regular(mode: nat, bytes: Bytes)
    | Link(target: string)

  type Disk = map<Rel, Node>

  const LINK_MODE: nat := 511

  /** A real directory tree: every path is a list of names below the root, its
      parent is a directory, and permission bits are twelve. */
  ghost predicate WellFormed(t: Disk) { forall path :: path in t ==> GoodPath(t, path) }

  ghost predicate GoodPath(t: Disk, path: Rel)
    requires path in t
  {
    && path != [] && IsRel(path)
    && (|path| > 1 ==> DirOf(path) in t && t[DirOf(path)].Directory?)
    && (t[path].Directory? ==> t[path].mode < 4096)
    && (t[path].Regular? ==> t[path].mode < 4096 && |t[path].bytes| < 0x1_0000_0000_0000_0000)
    && (t[path].Link? ==> t[path].target != "")
  }

  /** The settings of a capture: where the root is, the ignore list, the
      compiled globs, and how text becomes bytes. */
  datatype Settings = Settings(root: seq<string>, ignores: seq<string>, globs: seq<Rel -> bool>, utf8: string -> Bytes)

  /** A glob is tried on the relative path and on the file name. */
  predicate GlobHits(glob: Rel -> bool, path: Rel) { glob(path) || (path != [] && glob([path[|path| - 1]])) }

  predicate AnyGlob(globs: seq<Rel -> bool>, path: Rel) { exists j :: 0 <= j < |globs| && GlobHits(globs[j], path) }

  /** The segment rules see the full path, root included; the globs see the rest. */
  predicate Skipped(c: Settings, path: Rel) { AnyIgnore(c.root + path, c.ignores) || AnyGlob(c.globs, path) }

  method MatchesAnyGlob(globs: seq<Rel -> bool>, path: Rel) returns (r: bool)
    ensures r == AnyGlob(globs, path)
  {
    for j := 0 to |globs|
      invariant forall k :: 0 <= k < j ==> !GlobHits(globs[k], path)
    {
      if globs[j](path) {
        assert GlobHits(globs[j], path);
        return true;
      }
      if path != [] && globs[j]([path[|path| - 1]]) {
        assert GlobHits(globs[j], path);
        return true;
      }
    }
    return false;
  }

  /** The walk reaches a path if neither it nor anything above it is skipped. */
  predicate Reached(c: Settings, path: Rel) { forall i :: 0 <= i <= |path| ==> !Skipped(c, path[..i]) }

  ghost function Kept(c: Settings, t: Disk): set<Rel> { set path | path in t && Reached(c, path) }

  function Unpruned(c: Settings, t: Disk): Disk { map path | path in t && Reached(c, path) :: t[path] }

  // ---------- the walk ----------

  predicate ChildOf(path: Rel, dir: Rel) { |path| == |dir| + 1 && path[..|dir|] == dir }

  /** One directory listing. */
  function Listing(t: Disk, dir: Rel): set<Rel> { set path | path in t && ChildOf(path, dir) }

  lemma {:induction false} ReachedStep(c: Settings, path: Rel)
    requires path != []
    ensures Reached(c, path) <==> Reached(c, DirOf(path)) && !Skipped(c, path)
  {
    var up := DirOf(path);
    forall i | 0 <= i <= |up|
      ensures up[..i] == path[..i]
    {
    }
    assert path[..|path|] == path;
  }

  /** The children of one directory that the walk accepts. */
  method AcceptChildren(c: Settings, t: Disk, dir: Rel) returns (accepted: set<Rel>)
    ensures forall path :: path in accepted <==> path in Listing(t, dir) && !Skipped(c, path)
  {
    accepted := {};
    var rest := Listing(t, dir);
    while rest != {}
      invariant rest <= Listing(t, dir)
      invariant forall path :: path in accepted <==> path in Listing(t, dir) && path !in rest && !Skipped(c, path)
    {
      var path :| path in rest;
      var ignored := MatchesAnyIgnore(c.root + path, c.ignores);
      var globbed := MatchesAnyGlob(c.globs, path);
      if !ignored && !globbed {
        accepted := accepted + {path};
      }
      rest := rest - {path};
    }
  }

  function Directories(t: Disk, paths: set<Rel>): set<Rel> {
    set path | path in paths && path in t && t[path].Directory?
  }

  /** `found` holds the accepted paths whose parents have been listed; every
      accepted directory has been listed or is open. */
  ghost predicate Walking(c: Settings, t: Disk, found: set<Rel>, open: set<Rel>, listed: set<Rel>) {
    && Reached(c, [])
    && open !! listed
    && open + listed == Directories(t, found) + {[]}
    && (forall path :: path in found <==> path in t && path != [] && Reached(c, path) && DirOf(path) in listed)
  }

  /** The pruning walk finds exactly the reached paths. */
  method Walk(c: Settings, t: Disk) returns (found: set<Rel>)
    requires WellFormed(t)
    ensures found == Kept(c, t)
  {
    found := {};
    var ignored := MatchesAnyIgnore(c.root + [], c.ignores);
    var globbed := MatchesAnyGlob(c.globs, []);
    if ignored || globbed {
      RootSkipped(c, t);
      return;
    }
    var open: set<Rel> := {[]};
    ghost var listed: set<Rel> := {};
    while open != {}
      invariant Walking(c, t, found, open, listed)
      decreases t.Keys + {[]} - listed
    {
      var dir :| dir in open;
      var accepted := AcceptChildren(c, t, dir);
      WalkStep(c, t, found, open, listed, dir, accepted);
      found := found + accepted;
      open := open - {dir} + Directories(t, accepted);
      listed := listed + {dir};
    }
    WalkComplete(c, t, found, listed);
  }

  lemma {:induction false} RootSkipped(c: Settings, t: Disk)
    requires Skipped(c, [])
    ensures Kept(c, t) == {} && Unpruned(c, t) == map[]
  {
    forall path | path in t
      ensures !Reached(c, path)
    {
      assert path[..0] == [];
    }
  }

  lemma {:induction false} WalkStep(c: Settings, t: Disk, found: set<Rel>, open: set<Rel>, listed: set<Rel>, dir: Rel, accepted: set<Rel>)
    requires WellFormed(t) && Walking(c, t, found, open, listed) && dir in open
    requires forall path :: path in accepted <==> path in Listing(t, dir) && !Skipped(c, path)
    ensures Walking(c, t, found + accepted, open - {dir} + Directories(t, accepted), listed + {dir})
  {
    assert Reached(c, dir);
    forall path | path in t && path != []
      ensures path in accepted <==> Reached(c, path) && DirOf(path) == dir
    {
      if DirOf(path) == dir {
        ReachedStep(c, path);
      }
    }
    forall path | path in Directories(t, accepted)
      ensures path !in listed && path != dir
    {
      assert DirOf(path) == dir;
    }
  }

  lemma {:induction false} FoundAll(c: Settings, t: Disk, found: set<Rel>, listed: set<Rel>, path: Rel)
    requires WellFormed(t) && Walking(c, t, found, {}, listed)
    requires path in t && Reached(c, path)
    ensures path in found
    decreases |path|
  {
    assert GoodPath(t, path);
    ReachedStep(c, path);
    if |path| == 1 {
      assert DirOf(path) == [];
    } else {
      FoundAll(c, t, found, listed, DirOf(path));
    }
  }

  lemma {:induction false} WalkComplete(c: Settings, t: Disk, found: set<Rel>, listed: set<Rel>)
    requires WellFormed(t) && Walking(c, t, found, {}, listed)
    ensures found == Kept(c, t)
  {
    forall path | path in t && Reached(c, path)
      ensures path in found
    {
      FoundAll(c, t, found, listed, path);
    }
  }

  // ---------- which paths are kept ----------

  /** What is kept is a directory tree again. */
  lemma {:induction false} UnprunedWellFormed(c: Settings, t: Disk)
    requires WellFormed(t)
    ensures WellFormed(Unpruned(c, t)) && Unpruned(c, t).Keys == Kept(c, t)
  {
    var kept := Unpruned(c, t);
    forall path | path in kept
      ensures GoodPath(kept, path)
    {
      assert GoodPath(t, path);
      ReachedStep(c, path);
    }
  }

  /** With segment rules only, pruning a walk is the same as judging every path
      by itself. */
  lemma {:induction false} SegmentIgnoresAreIndependent(c: Settings, t: Disk)
    requires WellFormed(t) && c.globs == []
    ensures Kept(c, t) == set path | path in t && !AnyIgnore(c.root + path, c.ignores)
  {
    forall path | path in t
      ensures Reached(c, path) <==> !AnyIgnore(c.root + path, c.ignores)
    {
      forall i | 0 <= i <= |path|
        ensures Skipped(c, path[..i]) ==> AnyIgnore(c.root + path, c.ignores)
      {
        IgnoreInherited(c.root + path[..i], path[i..], c.ignores);
        assert c.root + path == (c.root + path[..i]) + path[i..];
      }
      assert path[..|path|] == path;
    }
  }

  /** With globs it is not: a glob that hits a directory also drops what is in it. */
  lemma {:induction false} GlobsPruneWhatTheyDoNotMatch(c: Settings, bytes: Bytes)
    requires |c.globs| == 1 && c.ignores == []
    requires forall path :: c.globs[0](path) <==> path == ["a"]
    ensures
      var t: Disk := map[["a"] := Directory(493), ["a", "b"] := Regular(420, bytes)];
      Kept(c, t) == {} && !Skipped(c, ["a", "b"])
  {
    var t: Disk := map[["a"] := Directory(493), ["a", "b"] := Regular(420, bytes)];
    assert GlobHits(c.globs[0], ["a"]);
    assert ["a", "b"][..1] == ["a"] && ["a"][..1] == ["a"];
    assert !GlobHits(c.globs[0], ["a", "b"]);
  }

  /** A root whose own path holds an ignored run is captured as empty. */
  lemma {:induction false} IgnoredRootKeepsNothing(c: Settings, t: Disk)
    requires AnyIgnore(c.root, c.ignores)
    ensures Kept(c, t) == {}
  {
    assert c.root + [] == c.root;
    RootSkipped(c, t);
  }

  // ---------- entries ----------

  function EntryOf(p: Prim, c: Settings, path: Rel, node: Node): Entry
    requires node.Directory? || node.Regular? ==> node.mode < 4096
  {
    match node
    case Directory(mode) => Entry(Render(path), ModeText(mode), 0, Dir, None, None)
    case Regular(mode, bytes) => Entry(Render(path), ModeText(mode), Size64(bytes), File, Some(Of(p, bytes)), None)
    case Link(target) =>
      Entry(Render(path), ModeText(LINK_MODE), Size64(c.utf8(target)), Symlink, Some(Of(p, c.utf8(target))), Some(target))
  }

  /** The bytes that capturing a node puts into the store. */
  function ContentOf(c: Settings, node: Node): seq<Bytes> {
    match node
    case Directory(_) => []
    case Regular(_, bytes) => [bytes]
    case Link(target) => [c.utf8(target)]
  }

  ghost predicate Within(paths: seq<Rel>, t: Disk) { forall i :: 0 <= i < |paths| ==> paths[i] in t }

  function EntriesOf(p: Prim, c: Settings, t: Disk, paths: seq<Rel>): (es: seq<Entry>)
    requires WellFormed(t) && Within(paths, t)
  {
    if paths == [] then []
    else
      var n := |paths| - 1;
      assert GoodPath(t, paths[n]);
      EntriesOf(p, c, t, paths[..n]) + [EntryOf(p, c, paths[n], t[paths[n]])]
  }

  function ContentsOf(c: Settings, t: Disk, paths: seq<Rel>): seq<Bytes>
    requires Within(paths, t)
  {
    if paths == [] then []
    else
      var n := |paths| - 1;
      ContentsOf(c, t, paths[..n]) + ContentOf(c, t[paths[n]])
  }

  /** The kept paths in the order of the manifest. */
  ghost function Order(c: Settings, t: Disk): seq<Rel> { Sort(ListOf(Kept(c, t)), PathLe) }

  lemma {:induction false} OrderLists(c: Settings, t: Disk)
    ensures Lists(Order(c, t), Kept(c, t), PathLe) && Within(Order(c, t), Unpruned(c, t)) && Within(Order(c, t), t)
  {
    PathOrder();
    ListsSorted(Kept(c, t), PathLe);
    forall i | 0 <= i < |Order(c, t)|
      ensures Order(c, t)[i] in Kept(c, t)
    {
      assert Order(c, t)[i] in Order(c, t);
    }
  }

  ghost function Captured(p: Prim, c: Settings, t: Disk): seq<Entry>
    requires WellFormed(t)
  {
    OrderLists(c, t);
    EntriesOf(p, c, t, Order(c, t))
  }

  ghost function Contents(c: Settings, t: Disk): seq<Bytes> {
    OrderLists(c, t);
    ContentsOf(c, t, Order(c, t))
  }

  /** The store after a capture: what every kept file and link holds, then the tree. */
  ghost function AfterCapture(p: Prim, c: Settings, t: Disk, m: Cas.Blobs): Cas.Blobs
    requires WellFormed(t)
  {
    Cas.Stored(p, Cas.StoredAll(p, m, Contents(c, t)), TreeBytes(p, Captured(p, c, t)))
  }

  /** `capture`: the digest and the store depend on the tree and the settings
      alone, not on the order in which directories were listed. */
  method Capture(p: Prim, c: Settings, t: Disk, store: Cas.MemBlobStore) returns (digest: Digest)
    requires WellFormed(t) && store.Valid(p)
    modifies store
    ensures store.Valid(p)
    ensures digest == Of(p, TreeBytes(p, Captured(p, c, t)))
    ensures store.inner == AfterCapture(p, c, t, old(store.inner))
  {
    var found := Walk(c, t);
    PathOrder();
    var raw := SortSet(found, PathLe);
    OrderLists(c, t);
    ListsUnique(raw, Order(c, t), found, PathLe);
    var entries := CaptureEntries(p, c, t, raw, store);
    digest := store.Put(p, TreeBytes(p, entries));
  }

  method CaptureEntries(p: Prim, c: Settings, t: Disk, raw: seq<Rel>, store: Cas.MemBlobStore) returns (entries: seq<Entry>)
    requires WellFormed(t) && Within(raw, t) && store.Valid(p)
    modifies store
    ensures store.Valid(p)
    ensures entries == EntriesOf(p, c, t, raw)
    ensures store.inner == Cas.StoredAll(p, old(store.inner), ContentsOf(c, t, raw))
  {
    entries := [];
    for i := 0 to |raw|
      invariant store.Valid(p)
      invariant entries == EntriesOf(p, c, t, raw[..i])
      invariant store.inner == Cas.StoredAll(p, old(store.inner), ContentsOf(c, t, raw[..i]))
    {
      CaptureStep(p, c, t, raw, i, old(store.inner));
      var entry := CaptureEntry(p, c, raw[i], t[raw[i]], store);
      entries := entries + [entry];
    }
    assert raw[..|raw|] == raw;
  }

  lemma {:induction false} CaptureStep(p: Prim, c: Settings, t: Disk, raw: seq<Rel>, i: nat, m: Cas.Blobs)
    requires WellFormed(t) && Within(raw, t) && i < |raw|
    ensures GoodPath(t, raw[i])
    ensures EntriesOf(p, c, t, raw[..i + 1]) == EntriesOf(p, c, t, raw[..i]) + [EntryOf(p, c, raw[i], t[raw[i]])]
    ensures Cas.StoredAll(p, m, ContentsOf(c, t, raw[..i + 1]))
         == Cas.StoredAll(p, Cas.StoredAll(p, m, ContentsOf(c, t, raw[..i])), ContentOf(c, t[raw[i]]))
  {
    assert raw[..i + 1][..i] == raw[..i];
    Cas.StoredAllConcat(p, m, ContentsOf(c, t, raw[..i]), ContentOf(c, t[raw[i]]));
  }

  method CaptureEntry(p: Prim, c: Settings, path: Rel, node: Node, store: Cas.MemBlobStore) returns (entry: Entry)
    requires (node.Directory? || node.Regular? ==> node.mode < 4096) && store.Valid(p)
    modifies store
    ensures store.Valid(p)
    ensures entry == EntryOf(p, c, path, node)
    ensures store.inner == Cas.StoredAll(p, old(store.inner), ContentOf(c, node))
  {
    var rel := Render(path);
    match node
    case Directory(mode) =>
      entry := Entry(rel, ModeText(mode), 0, Dir, None, None);
    case Link(target) =>
      var text := c.utf8(target);
      var blob := store.Put(p, text);
      Cas.StoredAllAppend(p, old(store.inner), [], text);
      entry := Entry(rel, ModeText(LINK_MODE), Size64(text), Symlink, Some(blob), Some(target));
    case Regular(mode, bytes) =>
      var blob := store.Put(p, bytes);
      Cas.StoredAllAppend(p, old(store.inner), [], bytes);
      entry := Entry(rel, ModeText(mode), Size64(bytes), File, Some(blob), None);
  }
}
