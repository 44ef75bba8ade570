/** Rebuilding a directory tree from its `fs.tree.v1` blob: directories first,
    then files and symbolic links, into a staging directory. */
module FsRestore {
  import opened Bits
  import opened Base
  import opened Paths
  import opened Tree
  import opened FsCapture
  import Cas

  datatype RestoreError =
    | TargetExists
    | MissingBlob
    | NotATree
    | UnsafePath
    | EntryWithoutBlob
    | EntryWithoutTarget
    | EscapingLink
    | LeavesRoot
    | OnDisk

  /** The operating system: the permission bits of new files and directories, and
      how many links it follows along one path. */
  datatype System = System(dirMode: nat, fileMode: nat, links: nat)

  datatype Options = Options(allowAbsoluteSymlinks: bool)

  type Outcome = Result<Disk, RestoreError>

  // ---------- where a path leads ----------

  /** A place below the root, a way out of the root, or none. */
  datatype Place = Lands(path: Rel) | Outside | Nowhere

  predicate IsDir(disk: Disk, path: Rel) { path == [] || (path in disk && disk[path].Directory?) }

  /** Following `names` from the directory `at` as the kernel does, links included.
      Only the last name may be missing. What lies outside the root is not known. */
  function Resolve(disk: Disk, at: Rel, names: seq<string>, links: nat): Place
    decreases links, |names|
  {
    if names == [] then Lands(at)
    else if names[0] == ".." then
      if at == [] then Outside else Resolve(disk, DirOf(at), names[1..], links)
    else
      var next := at + [names[0]];
      if next in disk && disk[next].Link? then
        if links == 0 then Nowhere
        else if IsAbsolute(disk[next].target) then Outside
        else Resolve(disk, at, Parts(disk[next].target) + names[1..], links - 1)
      else if |names| == 1 then Lands(next)
      else if IsDir(disk, next) then Resolve(disk, next, names[1..], links)
      else Nowhere
  }

  /** Where the last name of a path stands: a link there is not followed. */
  function Slot(f: System, disk: Disk, path: Rel): Place
    requires path != []
  {
    match Resolve(disk, [], DirOf(path), f.links)
    case Lands(dir) => if IsDir(disk, dir) then Lands(dir + [path[|path| - 1]]) else Nowhere
    case Outside => Outside
    case Nowhere => Nowhere
  }

  // ---------- operations of the file system ----------

  /** `create_dir_all` */
  function MakeDirs(f: System, disk: Disk, path: Rel): Outcome
    decreases |path|
  {
    if path == [] then Success(disk)
    else
      match MakeDirs(f, disk, DirOf(path))
      case Failure(e) => Failure(e)
      case Success(d) => MakeDir(f, d, path)
  }

  /** `mkdir`, or a directory that is there already, perhaps behind a link. */
  function MakeDir(f: System, disk: Disk, path: Rel): Outcome
    requires path != []
  {
    match Slot(f, disk, path)
    case Outside => Failure(LeavesRoot)
    case Nowhere => Failure(OnDisk)
    case Lands(p) => if p in disk then IsThere(f, disk, path) else Success(disk[p := Directory(f.dirMode)])
  }

  function IsThere(f: System, disk: Disk, path: Rel): Outcome {
    match Resolve(disk, [], path, f.links)
    case Outside => Failure(LeavesRoot)
    case Nowhere => Failure(OnDisk)
    case Lands(p) => if IsDir(disk, p) then Success(disk) else Failure(OnDisk)
  }

  /** The path names a link, whatever that leads to. */
  predicate NamesLink(f: System, disk: Disk, path: Rel) {
    path != [] && Slot(f, disk, path).Lands? && Slot(f, disk, path).path in disk && disk[Slot(f, disk, path).path].Link?
  }

  /** `apply_mode`: nothing if the path names a link, else `set_permissions` on what
      is there. The root of the tree is not part of it. */
  function SetMode(f: System, disk: Disk, path: Rel, mode: nat): Disk {
    if NamesLink(f, disk, path) then disk
    else
      match Resolve(disk, [], path, f.links)
      case Lands(p) => if p in disk then disk[p := WithMode(disk[p], mode)] else disk
      case _ => disk
  }

  function WithMode(node: Node, mode: nat): Node {
    match node
    case Directory(_) => Directory(mode)
    case Regular(_, bytes) => Regular(mode, bytes)
    case Link(_) => node
  }

  /** `write` goes through links and keeps the permissions of a file that is there. */
  function WriteFile(f: System, disk: Disk, path: Rel, bytes: Bytes): Outcome {
    match Resolve(disk, [], path, f.links)
    case Outside => Failure(LeavesRoot)
    case Nowhere => Failure(OnDisk)
    case Lands(p) =>
      if p == [] then Failure(OnDisk)
      else if p !in disk then Success(disk[p := Regular(f.fileMode, bytes)])
      else if disk[p].Regular? then Success(disk[p := Regular(disk[p].mode, bytes)])
      else Failure(OnDisk)
  }

  /** `symlink` */
  function MakeLink(f: System, disk: Disk, path: Rel, target: string): Outcome {
    if path == [] || target == "" then Failure(OnDisk)
    else
      match Slot(f, disk, path)
      case Outside => Failure(LeavesRoot)
      case Nowhere => Failure(OnDisk)
      case Lands(p) => if p in disk then Failure(OnDisk) else Success(disk[p := Link(target)])
  }

  // ---------- the two passes ----------

  /** `safe_join` */
  predicate SafePath(s: string) { !IsAbsolute(s) && ".." !in Parts(s) }

  function PlaceDir(f: System, disk: Disk, e: Entry): Outcome {
    if e.kind != Dir then Success(disk)
    else if !SafePath(e.path) then Failure(UnsafePath)
    else
      match MakeDirs(f, disk, Parts(e.path))
      case Failure(error) => Failure(error)
      case Success(d) => Success(SetMode(f, d, Parts(e.path), ModeBits(e.mode)))
  }

  function PlaceFile(f: System, m: Cas.Blobs, disk: Disk, path: Rel, e: Entry): Outcome {
    if e.blob.None? then Failure(EntryWithoutBlob)
    else if e.blob.value !in m then Failure(MissingBlob)
    else
      match MakeDirs(f, disk, DirOf(path))
      case Failure(error) => Failure(error)
      case Success(d) =>
        match WriteFile(f, d, path, m[e.blob.value])
        case Failure(error) => Failure(error)
        case Success(written) => Success(SetMode(f, written, path, ModeBits(e.mode)))
  }

  function PlaceLink(f: System, opts: Options, disk: Disk, path: Rel, e: Entry): Outcome {
    if e.linkTarget.None? then Failure(EntryWithoutTarget)
    else
      var target := e.linkTarget.value;
      if IsAbsolute(target) && !opts.allowAbsoluteSymlinks then Success(disk)
      else if !IsAbsolute(target) && !StaysInside(path, target) then Failure(EscapingLink)
      else
        match MakeDirs(f, disk, DirOf(path))
        case Failure(error) => Failure(error)
        case Success(d) => MakeLink(f, d, path, target)
  }

  function PlaceEntry(f: System, opts: Options, m: Cas.Blobs, disk: Disk, e: Entry): Outcome {
    if !SafePath(e.path) then Failure(UnsafePath)
    else
      match e.kind
      case Dir => Success(disk)
      case File => PlaceFile(f, m, disk, Parts(e.path), e)
      case Symlink => PlaceLink(f, opts, disk, Parts(e.path), e)
  }

  function AllDirs(f: System, es: seq<Entry>): Outcome {
    if es == [] then Success(map[])
    else
      match AllDirs(f, es[..|es| - 1])
      case Failure(error) => Failure(error)
      case Success(disk) => PlaceDir(f, disk, es[|es| - 1])
  }

  /** The second pass over `es`, after the first pass left `disk`. */
  function AllEntries(f: System, opts: Options, m: Cas.Blobs, disk: Disk, es: seq<Entry>): Outcome {
    if es == [] then Success(disk)
    else
      match AllEntries(f, opts, m, disk, es[..|es| - 1])
      case Failure(error) => Failure(error)
      case Success(next) => PlaceEntry(f, opts, m, next, es[|es| - 1])
  }

  function Rebuilt(f: System, opts: Options, m: Cas.Blobs, es: seq<Entry>): Outcome {
    match AllDirs(f, es)
    case Failure(error) => Failure(error)
    case Success(disk) => AllEntries(f, opts, m, disk, es)
  }

  /** What `restore_tree_with_options` builds from a tree digest. */
  function Restored(p: Prim, f: System, opts: Options, m: Cas.Blobs, digest: Digest): Outcome {
    if digest !in m then Failure(MissingBlob)
    else
      match ReadTree(p, m[digest])
      case None => Failure(NotATree)
      case Some(es) => Rebuilt(f, opts, m, es)
  }

  // ---------- the method ----------

  /** Everything is built in a staging directory and renamed at the end. A failure
      leaves the staging directory behind, which is not part of the outcome. */
  method RestoreTree(p: Prim, f: System, opts: Options, store: Cas.MemBlobStore, digest: Digest, target: Option<Disk>)
    returns (error: Option<RestoreError>, after: Option<Disk>)
    ensures target.Some? ==> error == Some(TargetExists) && after == target
    ensures target.None? ==>
      match Restored(p, f, opts, store.inner, digest)
      case Success(disk) => error.None? && after == Some(disk)
      case Failure(e) => error == Some(e) && after.None?
  {
    if target.Some? {
      return Some(TargetExists), target;
    }
    var bytes := store.Get(digest);
    if bytes.None? {
      return Some(MissingBlob), None;
    }
    var tree := ReadTree(p, bytes.value);
    if tree.None? {
      return Some(NotATree), None;
    }
    var dirs := CreateDirs(f, tree.value);
    if dirs.Failure? {
      return Some(dirs.error), None;
    }
    var staged := CreateEntries(f, opts, store, dirs.value, tree.value);
    match staged
    case Failure(e) => return Some(e), None;
    case Success(disk) => return None, Some(disk);
  }

  /** Pass 1: directories. */
  method CreateDirs(f: System, es: seq<Entry>) returns (r: Outcome)
    ensures r == AllDirs(f, es)
  {
    var staging: Disk := map[];
    for i := 0 to |es|
      invariant AllDirs(f, es[..i]) == Success(staging)
    {
      assert es[..i + 1][..i] == es[..i];
      var e := es[i];
      if e.kind == Dir {
        var made := if SafePath(e.path) then MakeDirs(f, staging, Parts(e.path)) else Failure(UnsafePath);
        if made.Failure? {
          DirsFail(f, es, i + 1);
          return made;
        }
        staging := SetMode(f, made.value, Parts(e.path), ModeBits(e.mode));
      }
    }
    assert es[..|es|] == es;
    return Success(staging);
  }

  /** Pass 2: files and symbolic links. */
  method CreateEntries(f: System, opts: Options, store: Cas.MemBlobStore, dirs: Disk, es: seq<Entry>) returns (r: Outcome)
    ensures r == AllEntries(f, opts, store.inner, dirs, es)
  {
    var staging := dirs;
    for i := 0 to |es|
      invariant AllEntries(f, opts, store.inner, dirs, es[..i]) == Success(staging)
    {
      assert es[..i + 1][..i] == es[..i];
      var next := CreateEntry(f, opts, store, staging, es[i]);
      if next.Failure? {
        EntriesFail(f, opts, store.inner, dirs, es, i + 1);
        return next;
      }
      staging := next.value;
    }
    assert es[..|es|] == es;
    return Success(staging);
  }

  method CreateEntry(f: System, opts: Options, store: Cas.MemBlobStore, staging: Disk, e: Entry) returns (r: Outcome)
    ensures r == PlaceEntry(f, opts, store.inner, staging, e)
  {
    if !SafePath(e.path) {
      return Failure(UnsafePath);
    }
    var path := Parts(e.path);
    match e.kind
    case Dir => return Success(staging);
    case File =>
      if e.blob.None? {
        return Failure(EntryWithoutBlob);
      }
      var bytes := store.Get(e.blob.value);
      if bytes.None? {
        return Failure(MissingBlob);
      }
      var made := MakeDirs(f, staging, DirOf(path));
      if made.Failure? {
        return made;
      }
      var written := WriteFile(f, made.value, path, bytes.value);
      if written.Failure? {
        return written;
      }
      return Success(SetMode(f, written.value, path, ModeBits(e.mode)));
    case Symlink =>
      if e.linkTarget.None? {
        return Failure(EntryWithoutTarget);
      }
      var target := e.linkTarget.value;
      if IsAbsolute(target) {
        if !opts.allowAbsoluteSymlinks {
          return Success(staging);
        }
      } else {
        var inside := CheckTarget(path, target);
        if !inside {
          return Failure(EscapingLink);
        }
      }
      var made := MakeDirs(f, staging, DirOf(path));
      if made.Failure? {
        return made;
      }
      return MakeLink(f, made.value, path, target);
  }

  lemma {:induction false} DirsFail(f: System, es: seq<Entry>, i: nat)
    requires i <= |es| && AllDirs(f, es[..i]).Failure?
    ensures AllDirs(f, es) == AllDirs(f, es[..i])
    decreases |es| - i
  {
    if i == |es| {
      assert es[..i] == es;
    } else {
      assert es[..i + 1][..i] == es[..i];
      DirsFail(f, es, i + 1);
    }
  }

  lemma {:induction false} EntriesFail(f: System, opts: Options, m: Cas.Blobs, disk: Disk, es: seq<Entry>, i: nat)
    requires i <= |es| && AllEntries(f, opts, m, disk, es[..i]).Failure?
    ensures AllEntries(f, opts, m, disk, es) == AllEntries(f, opts, m, disk, es[..i])
    decreases |es| - i
  {
    if i == |es| {
      assert es[..i] == es;
    } else {
      assert es[..i + 1][..i] == es[..i];
      EntriesFail(f, opts, m, disk, es, i + 1);
    }
  }

  // ---------- what a restore reads ----------

  /** The digests that restoring a tree fetches. */
  ghost predicate Fetches(p: Prim, m: Cas.Blobs, digest: Digest, d: Digest) {
    d == digest
    || (digest in m && ReadTree(p, m[digest]).Some?
        && exists i :: 0 <= i < |ReadTree(p, m[digest]).value| && NamesFile(ReadTree(p, m[digest]).value[i], d))
  }

  predicate NamesFile(e: Entry, d: Digest) { e.kind == File && e.blob == Some(d) }

  /** Two stores that agree on those digests restore the same tree, or fail alike. */
  lemma {:induction false} RestoreReadsOnly(p: Prim, f: System, opts: Options, m: Cas.Blobs, m': Cas.Blobs, digest: Digest)
    requires forall d :: Fetches(p, m, digest, d) ==> Cas.Lookup(m, d) == Cas.Lookup(m', d)
    ensures Restored(p, f, opts, m, digest) == Restored(p, f, opts, m', digest)
  {
    assert Cas.Lookup(m, digest) == Cas.Lookup(m', digest);
    if digest in m && ReadTree(p, m[digest]).Some? {
      var es := ReadTree(p, m[digest]).value;
      forall i | 0 <= i < |es| && es[i].kind == File && es[i].blob.Some?
        ensures Cas.Lookup(m, es[i].blob.value) == Cas.Lookup(m', es[i].blob.value)
      {
        assert NamesFile(es[i], es[i].blob.value);
      }
      match AllDirs(f, es) {
        case Success(disk) => EntriesReadOnly(f, opts, m, m', disk, es);
        case Failure(_) =>
      }
    }
  }

  lemma {:induction false} EntriesReadOnly(f: System, opts: Options, m: Cas.Blobs, m': Cas.Blobs, disk: Disk, es: seq<Entry>)
    requires forall i :: 0 <= i < |es| && es[i].kind == File && es[i].blob.Some? ==>
      Cas.Lookup(m, es[i].blob.value) == Cas.Lookup(m', es[i].blob.value)
    ensures AllEntries(f, opts, m, disk, es) == AllEntries(f, opts, m', disk, es)
  {
    if es != [] {
      var n := |es| - 1;
      EntriesReadOnly(f, opts, m, m', disk, es[..n]);
      assert es[n].kind == File && es[n].blob.Some? ==>
        Cas.Lookup(m, es[n].blob.value) == Cas.Lookup(m', es[n].blob.value);
    }
  }

  /** A restore that succeeds found everything it fetched. */
  lemma {:induction false} RestoredFetchedAll(p: Prim, f: System, opts: Options, m: Cas.Blobs, digest: Digest, d: Digest)
    requires Restored(p, f, opts, m, digest).Success? && Fetches(p, m, digest, d)
    ensures d in m
  {
    if d != digest {
      var es := ReadTree(p, m[digest]).value;
      var i :| 0 <= i < |es| && NamesFile(es[i], d);
      EntriesFoundAll(f, opts, m, AllDirs(f, es).value, es, i);
    }
  }

  lemma {:induction false} EntriesFoundAll(f: System, opts: Options, m: Cas.Blobs, disk: Disk, es: seq<Entry>, i: nat)
    requires AllEntries(f, opts, m, disk, es).Success? && i < |es| && es[i].kind == File && es[i].blob.Some?
    ensures es[i].blob.value in m
  {
    var n := |es| - 1;
    if i < n {
      EntriesFoundAll(f, opts, m, disk, es[..n], i);
    }
  }
}
