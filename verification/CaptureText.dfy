/** What the captured tree says about each kept path. */
module CaptureText {
  // The entries of a capture in terms of the paths on disk: the text of the path
  // and of the permission bits, the size, the kind, and the digest of the content.

  import opened Bits
  import opened Base
  import opened Paths
  import opened Tree
  import opened FsCapture

  /** The size is the length, in 64 bits. */
  predicate Measures(size: u64, bytes: Bytes) {
    (|bytes| - size) % 0x1_0000_0000_0000_0000 == 0 && (|bytes| < 0x1_0000_0000_0000_0000 ==> size == |bytes|)
  }

  /** The entry records what the path holds. A link's content is the text of its
      target, and its bits are 0777. */
  predicate Shows(p: Prim, c: Settings, e: Entry, path: Rel, node: Node) {
    && PathText(path, e.path)
    && match node
       case Directory(mode) =>
         e.kind == Dir && OctalText(e.mode, mode) && e.size == 0 && e.blob == None && e.linkTarget == None
       case Regular(mode, bytes) =>
         && e.kind == File && OctalText(e.mode, mode) && Measures(e.size, bytes)
         && e.blob == Some(Of(p, bytes)) && e.linkTarget == None
       case Link(target) =>
         && e.kind == Symlink && e.mode == "0777" && Measures(e.size, c.utf8(target))
         && e.blob == Some(Of(p, c.utf8(target))) && e.linkTarget == Some(target)
  }

  lemma {:induction false} SizeMeasures(bytes: Bytes)
    ensures Measures(Size64(bytes), bytes)
  {
  }

  lemma {:induction false} LinkMode()
    ensures ModeText(LINK_MODE) == "0777"
  {
  }

  lemma {:induction false} EntryShows(p: Prim, c: Settings, path: Rel, node: Node)
    requires node.Directory? || node.Regular? ==> node.mode < 4096
    ensures Shows(p, c, EntryOf(p, c, path, node), path, node)
  {
    hide PathText, OctalText, Measures, ModeText, Size64;
    RenderText(path);
    match node
    case Directory(mode) =>
      ModeTextIsOctal(mode);
    case Regular(mode, bytes) =>
      ModeTextIsOctal(mode);
      SizeMeasures(bytes);
    case Link(target) =>
      LinkMode();
      SizeMeasures(c.utf8(target));
  }

  ghost predicate AllShown(p: Prim, c: Settings, t: Disk, es: seq<Entry>, paths: seq<Rel>) {
    && |es| == |paths| && Within(paths, t)
    && forall i :: 0 <= i < |es| ==> Shows(p, c, es[i], paths[i], t[paths[i]])
  }

  lemma {:induction false} OneMoreShown(p: Prim, c: Settings, t: Disk, es: seq<Entry>, paths: seq<Rel>, e: Entry, path: Rel)
    requires AllShown(p, c, t, es, paths) && path in t && Shows(p, c, e, path, t[path])
    ensures AllShown(p, c, t, es + [e], paths + [path])
  {
    hide Shows;
  }

  lemma {:induction false} EntriesShow(p: Prim, c: Settings, t: Disk, paths: seq<Rel>)
    requires WellFormed(t) && Within(paths, t)
    ensures AllShown(p, c, t, EntriesOf(p, c, t, paths), paths)
  {
    hide AllShown, Shows, EntryOf;
    if paths == [] {
      EmptyShown(p, c, t);
    } else {
      var last := |paths| - 1;
      assert GoodPath(t, paths[last]);
      EntriesShow(p, c, t, paths[..last]);
      EntryShows(p, c, paths[last], t[paths[last]]);
      OneMoreShown(p, c, t, EntriesOf(p, c, t, paths[..last]), paths[..last],
                   EntryOf(p, c, paths[last], t[paths[last]]), paths[last]);
      assert paths == paths[..last] + [paths[last]];
    }
  }

  lemma {:induction false} EmptyShown(p: Prim, c: Settings, t: Disk)
    ensures AllShown(p, c, t, [], [])
  {
    hide Shows;
  }

  /** The paths are those that nothing at or above them skips, each once and in order. */
  ghost predicate ListsKept(c: Settings, t: Disk, paths: seq<Rel>) {
    && (forall path :: path in paths <==> path in t && Reached(c, path))
    && forall i, j :: 0 <= i < j < |paths| ==> paths[i] != paths[j] && PathLe(paths[i], paths[j])
  }

  /** A capture has one entry for each kept path, in the order of the paths, and it
      shows what lies there. */
  lemma {:induction false} CapturedShows(p: Prim, c: Settings, t: Disk)
    requires WellFormed(t)
    ensures exists paths :: ListsKept(c, t, paths) && AllShown(p, c, t, Captured(p, c, t), paths)
  {
    hide AllShown;
    OrderLists(c, t);
    EntriesShow(p, c, t, Order(c, t));
    assert ListsKept(c, t, Order(c, t));
  }

  // ---------- what is kept ----------

  /** The names of an ignore entry stand side by side somewhere in the path. */
  ghost predicate Holds(path: seq<string>, names: seq<string>) {
    exists before, after :: path == before + names + after
  }

  ghost predicate IgnoredBy(path: seq<string>, ignore: string) { Pieces(ignore) != [] && Holds(path, Pieces(ignore)) }

  /** A glob hits the path or its last name. */
  predicate HitBy(path: Rel, glob: Rel -> bool) { glob(path) || (path != [] && glob(path[|path| - 1..])) }

  /** An ignore entry or a glob drops the path; the entries see the root's names too. */
  ghost predicate Dropped(c: Settings, path: Rel) {
    (exists ignore :: ignore in c.ignores && IgnoredBy(c.root + path, ignore))
    || (exists glob :: glob in c.globs && HitBy(path, glob))
  }

  lemma {:induction false} HasRunIs(path: seq<string>, names: seq<string>)
    ensures HasRun(path, names) <==> Holds(path, names)
  {
    if i :| 0 <= i <= |path| && RunAt(path, names, i) {
      assert path == path[..i] + names + path[i + |names|..];
    }
    if before, after :| path == before + names + after {
      assert RunAt(path, names, |before|);
    }
  }

  lemma {:induction false} SkippedIs(c: Settings, path: Rel)
    ensures Skipped(c, path) <==> Dropped(c, path)
  {
    forall ignore
      ensures Matches(c.root + path, ignore) <==> IgnoredBy(c.root + path, ignore)
    {
      HasRunIs(c.root + path, Pieces(ignore));
    }
    forall glob
      ensures GlobHits(glob, path) <==> HitBy(path, glob)
    {
      assert path != [] ==> path[|path| - 1..] == [path[|path| - 1]];
    }
  }

  /** A path is kept exactly if neither it nor anything above it, up to the root, is dropped. */
  lemma {:induction false} KeptIff(c: Settings, t: Disk, path: Rel)
    ensures path in Kept(c, t) <==> path in t && forall i :: 0 <= i <= |path| ==> !Dropped(c, path[..i])
  {
    hide Dropped, Skipped;
    forall i | 0 <= i <= |path|
      ensures Skipped(c, path[..i]) <==> Dropped(c, path[..i])
    {
      SkippedIs(c, path[..i]);
    }
  }
}
