/** When a restored capture is the tree that was captured. */
module Landing {
  // A name with a backslash is recorded with a slash, so a restore takes it for
  // another path. A directory or a link of that kind never comes back; a file does
  // if its recorded path leads to it through links.

  import opened Bits
  import opened Base
  import opened Sorting
  import opened Paths
  import opened Tree
  import opened FsCapture
  import opened FsRestore
  import opened FsRoundTrip
  import opened Ways
  import Cas

  /** The path that a restore reads in the entry of `path`. */
  function Recorded(path: Rel): Rel { Parts(Render(path)) }

  /** The directories, and the links among `ps`. */
  function Skeleton(k: Disk, ps: seq<Rel>): Disk {
    map path | path in k && (k[path].Directory? || (k[path].Link? && path in ps)) :: k[path]
  }

  function Files(k: Disk): Disk { map path | path in k && k[path].Regular? :: k[path] }

  predicate IsFile(k: Disk, path: Rel) { path in k && k[path].Regular? }

  /** Where the recorded path of the `n`-th entry leads, among the directories and
      the links before it. */
  function LandsAt(f: System, k: Disk, ps: seq<Rel>, n: nat): Place
    requires n < |ps|
  {
    Resolve(Skeleton(k, ps[..n]), [], Recorded(ps[n]), f.links)
  }

  /** The permission bits of a file written at `path`, which leads to `place`: those
      recorded, unless `path` names a link; then those of the file that is there, or
      of a new one. */
  function BitsAt(f: System, d: Disk, path: Rel, place: Rel, recorded: nat): nat {
    if !NamesLink(f, d, path) then recorded
    else if place in d && d[place].Regular? then d[place].mode
    else f.fileMode
  }

  /** The files of the first `n` entries, each laid where its recorded path leads; a
      later one replaces an earlier one. */
  function LaidOut(f: System, k: Disk, ps: seq<Rel>, n: nat): Disk
    requires n <= |ps|
  {
    if n == 0 then map[]
    else
      var before := LaidOut(f, k, ps, n - 1);
      if IsFile(k, ps[n - 1]) && LandsAt(f, k, ps, n - 1).Lands?
      then before[LandsAt(f, k, ps, n - 1).path := LaidAt(f, k, ps, n - 1, before)]
      else before
  }

  function LaidAt(f: System, k: Disk, ps: seq<Rel>, n: nat, before: Disk): Node
    requires n < |ps| && IsFile(k, ps[n]) && LandsAt(f, k, ps, n).Lands?
  {
    var d := Skeleton(k, ps[..n]) + before;
    Regular(BitsAt(f, d, Recorded(ps[n]), LandsAt(f, k, ps, n).path, k[ps[n]].mode), k[ps[n]].bytes)
  }

  predicate TargetKept(opts: Options, path: Rel, target: string) {
    if IsAbsolute(target) then opts.allowAbsoluteSymlinks else StaysInside(path, target)
  }

  /** Directories and links without backslashes, no link left out or refused, every
      file recorded under a path that leads somewhere, and the files laid out so are
      those of the tree. */
  ghost predicate ComesBack(f: System, opts: Options, k: Disk, ps: seq<Rel>) {
    && PlainWays(k) && LinksKept(opts, k)
    && (forall n :: 0 <= n < |ps| && IsFile(k, ps[n]) ==> SafePath(Render(ps[n])) && LandsAt(f, k, ps, n).Lands?)
    && LaidOut(f, k, ps, |ps|) == Files(k)
  }

  ghost predicate PlainWays(k: Disk) { forall path :: path in k && !k[path].Regular? ==> Plain(path) }

  ghost predicate LinksKept(opts: Options, k: Disk) {
    forall path :: path in k && k[path].Link? ==> TargetKept(opts, path, k[path].target)
  }

  // ---------- one file ----------

  /** With its directories there, a file is placed exactly if its path leads to a
      place where a file can be, and it goes there. */
  lemma {:induction false} FileLands(f: System, m: Cas.Blobs, d: Disk, path: Rel, e: Entry, b: Bytes)
    requires MakeDirs(f, d, DirOf(path)) == Success(d) && e.blob.Some? && Cas.Lookup(m, e.blob.value) == Some(b)
    ensures
      var r, place := PlaceFile(f, m, d, path, e), Resolve(d, [], path, f.links);
      && (r.Success? <==> place.Lands? && RoomAt(d, place.path))
      && (r.Success? ==> r.value == d[place.path := Regular(BitsAt(f, d, path, place.path, ModeBits(e.mode)), b)])
  {
    var w := WriteFile(f, d, path, b);
    if w.Success? {
      var p := Resolve(d, [], path, f.links).path;
      var bits := BitsAt(f, d, path, p, ModeBits(e.mode));
      WrittenLeads(f, d, path, b);
      WrittenSameWays(f, d, path, b);
      assert path != [];
      SameWaysSlot(f, d, w.value, path);
      assert w.value[p := Regular(bits, b)] == d[p := Regular(bits, b)];
    }
  }

  lemma {:induction false} MakeDirsAdds(f: System, d: Disk, path: Rel)
    requires MakeDirs(f, d, path).Success?
    ensures
      var r := MakeDirs(f, d, path).value;
      && (forall q :: q in d ==> q in r && r[q] == d[q])
      && forall q :: q in r && q !in d ==> r[q].Directory?
    decreases |path|
  {
    if path != [] {
      MakeDirsAdds(f, d, DirOf(path));
    }
  }

  // ---------- the disk after each entry ----------

  /** Files where `k` has files, or nothing. */
  ghost predicate Apart(k: Disk, files: Disk) { forall q :: q in files ==> files[q].Regular? && RoomAt(k, q) }

  /** What the first `n` entries leave of `k`. */
  function Stage(f: System, k: Disk, ps: seq<Rel>, n: nat): Disk
    requires n <= |ps|
  {
    Skeleton(k, ps[..n]) + LaidOut(f, k, ps, n)
  }

  lemma {:induction false} StageWays(f: System, k: Disk, ps: seq<Rel>, n: nat)
    requires n <= |ps| && Apart(k, LaidOut(f, k, ps, n))
    ensures SameWays(Skeleton(k, ps[..n]), Stage(f, k, ps, n))
  {
    var s, d := Skeleton(k, ps[..n]), Stage(f, k, ps, n);
    forall q
      ensures IsDir(s, q) <==> IsDir(d, q)
      ensures LinkAt(s, q) == LinkAt(d, q)
    {
    }
  }

  lemma {:induction false} StageRooted(f: System, k: Disk, ps: seq<Rel>, n: nat)
    requires WellFormed(k) && n <= |ps| && Apart(k, LaidOut(f, k, ps, n))
    ensures Rooted(Stage(f, k, ps, n))
  {
    var d := Stage(f, k, ps, n);
    forall q, i | IsDir(d, q) && 0 <= i <= |q|
      ensures IsDir(d, q[..i])
    {
      assert q[..|q|] == q && q[..0] == [];
      if 0 < i < |q| {
        AncestorsAreDirectories(k, q, i);
      }
    }
  }

  lemma {:induction false} SkeletonStep(k: Disk, ps: seq<Rel>, n: nat)
    requires n < |ps| && ps[n] in k
    ensures Skeleton(k, ps[..n + 1])
         == if k[ps[n]].Link? then Skeleton(k, ps[..n])[ps[n] := k[ps[n]]] else Skeleton(k, ps[..n])
  {
    assert ps[..n + 1] == ps[..n] + [ps[n]];
  }

  lemma {:induction false} StageParents(f: System, k: Disk, ps: seq<Rel>, n: nat, path: Rel)
    requires WellFormed(k) && path in k && n <= |ps| && Apart(k, LaidOut(f, k, ps, n))
    ensures ParentsThere(Stage(f, k, ps, n), path)
  {
    assert GoodPath(k, path);
    forall i | 0 < i < |path|
      ensures path[..i] in Stage(f, k, ps, n) && Stage(f, k, ps, n)[path[..i]].Directory?
    {
      AncestorsAreDirectories(k, path, i);
    }
  }

  /** The entry of `k` at `ps[n]`. */
  function EntryAtN(p: Prim, c: Settings, k: Disk, ps: seq<Rel>, n: nat): Entry
    requires n < |ps| && ps[n] in k && GoodPath(k, ps[n])
  {
    EntryOf(p, c, ps[n], k[ps[n]])
  }

  // ---------- the step of each kind ----------

  lemma {:induction false} StageLink(f: System, k: Disk, ps: seq<Rel>, n: nat)
    requires Listed(k, ps) && n < |ps| && k[ps[n]].Link? && Apart(k, LaidOut(f, k, ps, n))
    ensures ps[n] !in Stage(f, k, ps, n) && Stage(f, k, ps, n + 1) == Stage(f, k, ps, n)[ps[n] := k[ps[n]]]
  {
    SkeletonStep(k, ps, n);
    assert ps[n] !in ps[..n];
    assert ps[n] !in LaidOut(f, k, ps, n);
  }

  lemma {:induction false} LinkStage(p: Prim, c: Settings, f: System, opts: Options, m: Cas.Blobs, k: Disk, ps: seq<Rel>, n: nat)
    requires Listed(k, ps) && n < |ps| && GoodPath(k, ps[n]) && k[ps[n]].Link? && Plain(ps[n])
    requires Apart(k, LaidOut(f, k, ps, n)) && TargetKept(opts, ps[n], k[ps[n]].target)
    ensures PlaceEntry(f, opts, m, Stage(f, k, ps, n), EntryAtN(p, c, k, ps, n)) == Success(Stage(f, k, ps, n + 1))
  {
    SafeRendered(ps[n]);
    StageParents(f, k, ps, n, ps[n]);
    StageLink(f, k, ps, n);
    LinkStep(p, c, f, opts, Stage(f, k, ps, n), ps[n], k[ps[n]]);
  }

  lemma {:induction false} DirStage(p: Prim, c: Settings, f: System, opts: Options, m: Cas.Blobs, k: Disk, ps: seq<Rel>, n: nat)
    requires Listed(k, ps) && n < |ps| && GoodPath(k, ps[n]) && k[ps[n]].Directory? && Plain(ps[n])
    ensures PlaceEntry(f, opts, m, Stage(f, k, ps, n), EntryAtN(p, c, k, ps, n)) == Success(Stage(f, k, ps, n + 1))
  {
    SafeRendered(ps[n]);
    SkeletonStep(k, ps, n);
  }

  lemma {:induction false} StageFile(f: System, k: Disk, ps: seq<Rel>, n: nat)
    requires n < |ps| && IsFile(k, ps[n]) && LandsAt(f, k, ps, n).Lands? && Apart(k, LaidOut(f, k, ps, n))
    ensures
      var d, place := Stage(f, k, ps, n), LandsAt(f, k, ps, n).path;
      Stage(f, k, ps, n + 1) == d[place := Regular(BitsAt(f, d, Recorded(ps[n]), place, k[ps[n]].mode), k[ps[n]].bytes)]
    ensures Apart(k, LaidOut(f, k, ps, n + 1)) <==> RoomAt(k, LandsAt(f, k, ps, n).path)
    ensures RoomAt(k, LandsAt(f, k, ps, n).path) ==> RoomAt(Stage(f, k, ps, n), LandsAt(f, k, ps, n).path)
  {
    SkeletonStep(k, ps, n);
    var files, place := LaidOut(f, k, ps, n), LandsAt(f, k, ps, n).path;
    assert LaidOut(f, k, ps, n + 1) == files[place := LaidAt(f, k, ps, n, files)];
    assert place in LaidOut(f, k, ps, n + 1);
  }

  /** Where the entry leads on the disk as it is then. */
  lemma {:induction false} LandsOnStage(f: System, k: Disk, ps: seq<Rel>, n: nat)
    requires WellFormed(k) && n < |ps| && Apart(k, LaidOut(f, k, ps, n))
    ensures Resolve(Stage(f, k, ps, n), [], Recorded(ps[n]), f.links) == LandsAt(f, k, ps, n)
    ensures Rooted(Stage(f, k, ps, n))
  {
    StageWays(f, k, ps, n);
    SameWaysResolve(Skeleton(k, ps[..n]), Stage(f, k, ps, n), [], Recorded(ps[n]), f.links);
    StageRooted(f, k, ps, n);
  }

  lemma {:induction false} FileStage(p: Prim, c: Settings, f: System, opts: Options, m: Cas.Blobs, k: Disk, ps: seq<Rel>, n: nat)
    requires Listed(k, ps) && FilesStored(p, m, k) && n < |ps| && GoodPath(k, ps[n]) && k[ps[n]].Regular?
    requires Apart(k, LaidOut(f, k, ps, n)) && SafePath(Render(ps[n])) && LandsAt(f, k, ps, n).Lands?
    requires RoomAt(k, LandsAt(f, k, ps, n).path)
    ensures PlaceEntry(f, opts, m, Stage(f, k, ps, n), EntryAtN(p, c, k, ps, n)) == Success(Stage(f, k, ps, n + 1))
  {
    var path, d := Recorded(ps[n]), Stage(f, k, ps, n);
    LandsOnStage(f, k, ps, n);
    StageFile(f, k, ps, n);
    assert path != [];
    ParentsReached(f, d, path);
    FileLands(f, m, d, path, EntryAtN(p, c, k, ps, n), k[ps[n]].bytes);
    ModeRoundTrip(k[ps[n]].mode);
  }

  // ---------- a tree that comes back ----------

  lemma {:induction false} LaidOutGrows(f: System, k: Disk, ps: seq<Rel>, n: nat, u: nat)
    requires n <= u <= |ps|
    ensures LaidOut(f, k, ps, n).Keys <= LaidOut(f, k, ps, u).Keys
    decreases u
  {
    if n < u {
      LaidOutGrows(f, k, ps, n, u - 1);
    }
  }

  lemma {:induction false} LaidOutAreFiles(f: System, k: Disk, ps: seq<Rel>, n: nat)
    requires n <= |ps|
    ensures forall q :: q in LaidOut(f, k, ps, n) ==> LaidOut(f, k, ps, n)[q].Regular?
  {
    if n > 0 {
      LaidOutAreFiles(f, k, ps, n - 1);
    }
  }

  lemma {:induction false} StaysApart(f: System, k: Disk, ps: seq<Rel>, n: nat)
    requires WellFormed(k) && n <= |ps| && LaidOut(f, k, ps, |ps|) == Files(k)
    ensures Apart(k, LaidOut(f, k, ps, n))
  {
    LaidOutGrows(f, k, ps, n, |ps|);
    LaidOutAreFiles(f, k, ps, n);
    forall q | q in LaidOut(f, k, ps, n)
      ensures RoomAt(k, q)
    {
      assert q in Files(k);
      assert GoodPath(k, q);
    }
  }

  /** The second pass up to `n` leaves `Stage`. */
  ghost predicate Staging(p: Prim, c: Settings, f: System, opts: Options, m: Cas.Blobs, k: Disk, ps: seq<Rel>, n: nat)
    requires WellFormed(k) && Within(ps, k) && n <= |ps|
  {
    AllEntries(f, opts, m, Skeleton(k, []), EntriesOf(p, c, k, ps[..n])) == Success(Stage(f, k, ps, n))
  }

  lemma {:induction false} EntryStaged(p: Prim, c: Settings, f: System, opts: Options, m: Cas.Blobs, k: Disk, ps: seq<Rel>, n: nat)
    requires Listed(k, ps) && FilesStored(p, m, k) && ComesBack(f, opts, k, ps) && n < |ps| && GoodPath(k, ps[n])
    ensures PlaceEntry(f, opts, m, Stage(f, k, ps, n), EntryAtN(p, c, k, ps, n)) == Success(Stage(f, k, ps, n + 1))
  {
    StaysApart(f, k, ps, n);
    match k[ps[n]] {
      case Directory(_) => DirStage(p, c, f, opts, m, k, ps, n);
      case Link(_) => LinkStage(p, c, f, opts, m, k, ps, n);
      case Regular(_, _) =>
        StaysApart(f, k, ps, n + 1);
        StageFile(f, k, ps, n);
        FileStage(p, c, f, opts, m, k, ps, n);
    }
  }

  lemma {:induction false} NextStaging(p: Prim, c: Settings, f: System, opts: Options, m: Cas.Blobs, k: Disk, ps: seq<Rel>, n: nat)
    requires WellFormed(k) && Within(ps, k) && n < |ps| && GoodPath(k, ps[n]) && Staging(p, c, f, opts, m, k, ps, n)
    ensures AllEntries(f, opts, m, Skeleton(k, []), EntriesOf(p, c, k, ps[..n + 1]))
         == PlaceEntry(f, opts, m, Stage(f, k, ps, n), EntryAtN(p, c, k, ps, n))
  {
    EntryAt(p, c, k, ps, n);
    var es, e := EntriesOf(p, c, k, ps[..n]), EntryAtN(p, c, k, ps, n);
    assert (es + [e])[..|es|] == es;
  }

  /** How far the second pass goes through the stages. */
  ghost function Reached(p: Prim, c: Settings, f: System, opts: Options, m: Cas.Blobs, k: Disk, ps: seq<Rel>): set<nat>
    requires WellFormed(k) && Within(ps, k)
  {
    set n: nat | n <= |ps| && Staging(p, c, f, opts, m, k, ps, n)
  }

  lemma {:induction false} StartReached(p: Prim, c: Settings, f: System, opts: Options, m: Cas.Blobs, k: Disk, ps: seq<Rel>)
    requires WellFormed(k) && Within(ps, k)
    ensures 0 in Reached(p, c, f, opts, m, k, ps)
  {
    assert Stage(f, k, ps, 0) == Skeleton(k, []);
  }

  lemma {:induction false} NextReached(p: Prim, c: Settings, f: System, opts: Options, m: Cas.Blobs, k: Disk, ps: seq<Rel>, n: nat)
    requires WellFormed(k) && Within(ps, k) && n < |ps| && GoodPath(k, ps[n]) && n in Reached(p, c, f, opts, m, k, ps)
    requires PlaceEntry(f, opts, m, Stage(f, k, ps, n), EntryAtN(p, c, k, ps, n)) == Success(Stage(f, k, ps, n + 1))
    ensures n + 1 in Reached(p, c, f, opts, m, k, ps)
  {
    NextStaging(p, c, f, opts, m, k, ps, n);
  }

  lemma {:induction false} StagesRun(p: Prim, c: Settings, f: System, opts: Options, m: Cas.Blobs, k: Disk, ps: seq<Rel>, n: nat)
    requires Listed(k, ps) && FilesStored(p, m, k) && ComesBack(f, opts, k, ps) && n <= |ps|
    ensures n in Reached(p, c, f, opts, m, k, ps)
  {
    if n == 0 {
      StartReached(p, c, f, opts, m, k, ps);
    } else {
      var last := n - 1;
      StagesRun(p, c, f, opts, m, k, ps, last);
      assert GoodPath(k, ps[last]);
      EntryStaged(p, c, f, opts, m, k, ps, last);
      NextReached(p, c, f, opts, m, k, ps, last);
    }
  }

  lemma {:induction false} FirstPassBuilds(p: Prim, c: Settings, f: System, k: Disk, ps: seq<Rel>)
    requires Listed(k, ps) && PlainDirs(k)
    ensures AllDirs(f, EntriesOf(p, c, k, ps)) == Success(Skeleton(k, []))
  {
    DirsBuilt(p, c, f, k, ps, |ps|);
    assert ps[..|ps|] == ps;
    assert DirPart(k, ps) == Skeleton(k, []);
  }

  lemma {:induction false} WholeStage(f: System, k: Disk, ps: seq<Rel>)
    requires Listed(k, ps) && Apart(k, LaidOut(f, k, ps, |ps|))
    ensures Stage(f, k, ps, |ps|) == k <==> LaidOut(f, k, ps, |ps|) == Files(k)
  {
    assert ps[..|ps|] == ps;
    SplitDisk(k, ps, LaidOut(f, k, ps, |ps|));
  }

  lemma {:induction false} SplitDisk(k: Disk, ps: seq<Rel>, files: Disk)
    requires Listed(k, ps) && Apart(k, files)
    ensures Skeleton(k, ps) + files == k <==> files == Files(k)
  {
    var s := Skeleton(k, ps);
    assert forall q :: q in s <==> q in k && !k[q].Regular?;
    if s + files == k {
      FilesIn(k, s, files);
    }
    if files == Files(k) {
      assert (s + files).Keys == k.Keys;
    }
  }

  lemma {:induction false} FilesIn(k: Disk, s: Disk, files: Disk)
    requires s + files == k && Apart(k, files) && forall q :: q in s <==> q in k && !k[q].Regular?
    ensures files == Files(k)
  {
    forall q
      ensures q in files <==> q in Files(k)
    {
      assert q in s + files <==> q in s || q in files;
    }
  }

  lemma {:induction false} ComesBackRebuilt(p: Prim, c: Settings, f: System, opts: Options, m: Cas.Blobs, k: Disk, ps: seq<Rel>)
    requires Listed(k, ps) && FilesStored(p, m, k) && ComesBack(f, opts, k, ps)
    ensures Rebuilt(f, opts, m, EntriesOf(p, c, k, ps)) == Success(k)
  {
    FirstPassBuilds(p, c, f, k, ps);
    StagesRun(p, c, f, opts, m, k, ps, |ps|);
    assert ps[..|ps|] == ps;
    StaysApart(f, k, ps, |ps|);
    WholeStage(f, k, ps);
  }

  // ---------- a tree that came back ----------

  /** Directories and links without backslashes, and no absolute link that was not
      asked for. */
  ghost predicate Tidy(opts: Options, d: Disk) {
    && PlainWays(d)
    && forall q :: q in d && d[q].Link? && IsAbsolute(d[q].target) ==> opts.allowAbsoluteSymlinks
  }

  ghost predicate TidyOutcome(opts: Options, r: Outcome) { r.Success? ==> Tidy(opts, r.value) }

  lemma {:induction false} SlotPlain(f: System, opts: Options, d: Disk, path: Rel)
    requires Tidy(opts, d) && Plain(path) && path != [] && Slot(f, d, path).Lands?
    ensures Plain(Slot(f, d, path).path)
  {
    var dir := Resolve(d, [], DirOf(path), f.links).path;
    assert dir == [] || Plain(dir);
  }

  lemma {:induction false} MakeDirsTidy(f: System, opts: Options, d: Disk, path: Rel)
    requires Tidy(opts, d) && Plain(path)
    ensures TidyOutcome(opts, MakeDirs(f, d, path))
    decreases |path|
  {
    if path != [] {
      MakeDirsTidy(f, opts, d, DirOf(path));
      if MakeDirs(f, d, path).Success? {
        SlotPlain(f, opts, MakeDirs(f, d, DirOf(path)).value, path);
      }
    }
  }

  lemma {:induction false} FileTidy(f: System, opts: Options, m: Cas.Blobs, d: Disk, path: Rel, e: Entry)
    requires Tidy(opts, d) && Plain(path)
    ensures TidyOutcome(opts, PlaceFile(f, m, d, path, e))
  {
    MakeDirsTidy(f, opts, d, DirOf(path));
  }

  lemma {:induction false} LinkTidy(f: System, opts: Options, d: Disk, path: Rel, e: Entry)
    requires Tidy(opts, d) && Plain(path)
    ensures TidyOutcome(opts, PlaceLink(f, opts, d, path, e))
  {
    MakeDirsTidy(f, opts, d, DirOf(path));
    var r := PlaceLink(f, opts, d, path, e);
    if r.Success? && r.value != d {
      SlotPlain(f, opts, MakeDirs(f, d, DirOf(path)).value, path);
    }
  }

  ghost predicate PlainEntry(e: Entry) { Plain(Parts(e.path)) }

  ghost predicate PlainManifest(es: seq<Entry>) { forall i :: 0 <= i < |es| ==> PlainEntry(es[i]) }

  lemma {:induction false} DirsTidy(f: System, opts: Options, es: seq<Entry>)
    requires PlainManifest(es)
    ensures TidyOutcome(opts, AllDirs(f, es))
  {
    if es != [] {
      var n := |es| - 1;
      DirsTidy(f, opts, es[..n]);
      if AllDirs(f, es[..n]).Success? {
        assert PlainEntry(es[n]);
        MakeDirsTidy(f, opts, AllDirs(f, es[..n]).value, Parts(es[n].path));
      }
    }
  }

  lemma {:induction false} EntriesTidy(f: System, opts: Options, m: Cas.Blobs, d: Disk, es: seq<Entry>)
    requires Tidy(opts, d) && PlainManifest(es)
    ensures TidyOutcome(opts, AllEntries(f, opts, m, d, es))
  {
    if es != [] {
      var n := |es| - 1;
      EntriesTidy(f, opts, m, d, es[..n]);
      if AllEntries(f, opts, m, d, es[..n]).Success? {
        var before := AllEntries(f, opts, m, d, es[..n]).value;
        assert PlainEntry(es[n]);
        FileTidy(f, opts, m, before, Parts(es[n].path), es[n]);
        LinkTidy(f, opts, before, Parts(es[n].path), es[n]);
      }
    }
  }

  lemma {:induction false} ManifestPlain(p: Prim, c: Settings, k: Disk, ps: seq<Rel>)
    requires WellFormed(k) && Within(ps, k)
    ensures PlainManifest(EntriesOf(p, c, k, ps))
  {
    if ps != [] {
      var n := |ps| - 1;
      ManifestPlain(p, c, k, ps[..n]);
      RenderedPlain(ps[n]);
      assert GoodPath(k, ps[n]);
    }
  }

  /** Whatever is restored from a recorded tree is tidy. */
  lemma {:induction false} RebuiltIsTidy(p: Prim, c: Settings, f: System, opts: Options, m: Cas.Blobs, k: Disk, ps: seq<Rel>)
    requires WellFormed(k) && Within(ps, k)
    ensures TidyOutcome(opts, Rebuilt(f, opts, m, EntriesOf(p, c, k, ps)))
  {
    var es := EntriesOf(p, c, k, ps);
    ManifestPlain(p, c, k, ps);
    DirsTidy(f, opts, es);
    if AllDirs(f, es).Success? {
      EntriesTidy(f, opts, m, AllDirs(f, es).value, es);
    }
  }

  /** If the disk ends as `k`, placing a file makes no directories, and the file goes
      where `k` has one. */
  lemma {:induction false} FileCameBack(p: Prim, c: Settings, f: System, opts: Options, m: Cas.Blobs, k: Disk, ps: seq<Rel>, n: nat)
    requires Listed(k, ps) && FilesStored(p, m, k) && n < |ps| && GoodPath(k, ps[n]) && k[ps[n]].Regular?
    requires Apart(k, LaidOut(f, k, ps, n))
    requires PlaceEntry(f, opts, m, Stage(f, k, ps, n), EntryAtN(p, c, k, ps, n)).Success?
    requires Grown(PlaceEntry(f, opts, m, Stage(f, k, ps, n), EntryAtN(p, c, k, ps, n)).value, k)
    ensures SafePath(Render(ps[n])) && LandsAt(f, k, ps, n).Lands? && RoomAt(k, LandsAt(f, k, ps, n).path)
  {
    var d, e := Stage(f, k, ps, n), EntryAtN(p, c, k, ps, n);
    var path, r := Recorded(ps[n]), PlaceEntry(f, opts, m, d, e).value;
    PlacedOnMade(f, opts, m, d, e);
    NothingMade(f, k, ps, n, DirOf(path), r);
    FileLands(f, m, d, path, e, k[ps[n]].bytes);
    LandsOnStage(f, k, ps, n);
    var place := LandsAt(f, k, ps, n).path;
    assert place in r && r[place].Regular?;
  }

  lemma {:induction false} NothingMade(f: System, k: Disk, ps: seq<Rel>, n: nat, up: Rel, r: Disk)
    requires n <= |ps| && MakeDirs(f, Stage(f, k, ps, n), up).Success?
    requires Grown(MakeDirs(f, Stage(f, k, ps, n), up).value, r) && Grown(r, k)
    ensures MakeDirs(f, Stage(f, k, ps, n), up) == Success(Stage(f, k, ps, n))
  {
    var d := Stage(f, k, ps, n);
    var made := MakeDirs(f, d, up).value;
    MakeDirsAdds(f, d, up);
    forall q | q in made
      ensures q in d
    {
      if made[q].Directory? {
        assert q in r && q in k && k[q].Directory?;
        assert q in Skeleton(k, ps[..n]);
      }
    }
    assert made == d;
  }

  lemma {:induction false} LinkCameBack(p: Prim, c: Settings, f: System, opts: Options, m: Cas.Blobs,
                                        k: Disk, ps: seq<Rel>, n: nat, d: Disk)
    requires Tidy(opts, k) && n < |ps| && ps[n] in k && GoodPath(k, ps[n]) && k[ps[n]].Link?
    requires PlaceEntry(f, opts, m, d, EntryAtN(p, c, k, ps, n)).Success?
    ensures Plain(ps[n]) && TargetKept(opts, ps[n], k[ps[n]].target)
  {
    SafeRendered(ps[n]);
  }

  /** One more entry, if the disk ends as `k`. */
  lemma {:induction false} OneCameBack(p: Prim, c: Settings, f: System, opts: Options, m: Cas.Blobs, k: Disk, ps: seq<Rel>, n: nat)
    requires Listed(k, ps) && FilesStored(p, m, k) && n < |ps| && GoodPath(k, ps[n]) && Tidy(opts, k)
    requires Apart(k, LaidOut(f, k, ps, n))
    requires PlaceEntry(f, opts, m, Stage(f, k, ps, n), EntryAtN(p, c, k, ps, n)).Success?
    requires Grown(PlaceEntry(f, opts, m, Stage(f, k, ps, n), EntryAtN(p, c, k, ps, n)).value, k)
    ensures PlaceEntry(f, opts, m, Stage(f, k, ps, n), EntryAtN(p, c, k, ps, n)) == Success(Stage(f, k, ps, n + 1))
    ensures Apart(k, LaidOut(f, k, ps, n + 1))
    ensures IsFile(k, ps[n]) ==> SafePath(Render(ps[n])) && LandsAt(f, k, ps, n).Lands?
    ensures k[ps[n]].Link? ==> TargetKept(opts, ps[n], k[ps[n]].target)
  {
    match k[ps[n]] {
      case Directory(_) => DirStage(p, c, f, opts, m, k, ps, n);
      case Link(_) =>
        LinkCameBack(p, c, f, opts, m, k, ps, n, Stage(f, k, ps, n));
        LinkStage(p, c, f, opts, m, k, ps, n);
      case Regular(_, _) =>
        FileCameBack(p, c, f, opts, m, k, ps, n);
        StageFile(f, k, ps, n);
        FileStage(p, c, f, opts, m, k, ps, n);
    }
  }

  /** Up to `n` the run went through the stages, and its entries were fit to come back. */
  ghost predicate FitTo(f: System, opts: Options, k: Disk, ps: seq<Rel>, n: nat)
    requires n <= |ps|
  {
    && Apart(k, LaidOut(f, k, ps, n))
    && forall i :: 0 <= i < n ==> FitAt(f, opts, k, ps, i)
  }

  ghost predicate FitAt(f: System, opts: Options, k: Disk, ps: seq<Rel>, i: nat)
    requires i < |ps|
  {
    && (IsFile(k, ps[i]) ==> SafePath(Render(ps[i])) && LandsAt(f, k, ps, i).Lands?)
    && (ps[i] in k && k[ps[i]].Link? ==> TargetKept(opts, ps[i], k[ps[i]].target))
  }

  /** How far the run is known to have gone through the stages. */
  ghost function Back(p: Prim, c: Settings, f: System, opts: Options, m: Cas.Blobs, k: Disk, ps: seq<Rel>): set<nat>
    requires WellFormed(k) && Within(ps, k)
  {
    set n | n in Reached(p, c, f, opts, m, k, ps) && FitTo(f, opts, k, ps, n)
  }

  lemma {:induction false} StartBack(p: Prim, c: Settings, f: System, opts: Options, m: Cas.Blobs, k: Disk, ps: seq<Rel>)
    requires WellFormed(k) && Within(ps, k)
    ensures 0 in Back(p, c, f, opts, m, k, ps)
  {
    StartReached(p, c, f, opts, m, k, ps);
  }

  lemma {:induction false} NextBack(p: Prim, c: Settings, f: System, opts: Options, m: Cas.Blobs, k: Disk, ps: seq<Rel>, n: nat)
    requires Listed(k, ps) && FilesStored(p, m, k) && Tidy(opts, k) && n < |ps| && n in Back(p, c, f, opts, m, k, ps)
    requires AllEntries(f, opts, m, Skeleton(k, []), EntriesOf(p, c, k, ps)) == Success(k)
    ensures n + 1 in Back(p, c, f, opts, m, k, ps)
  {
    assert GoodPath(k, ps[n]);
    NextStaging(p, c, f, opts, m, k, ps, n);
    PrefixOfRun(p, c, f, opts, m, k, ps, n + 1);
    OneCameBack(p, c, f, opts, m, k, ps, n);
    NextReached(p, c, f, opts, m, k, ps, n);
    FitNext(f, opts, k, ps, n);
  }

  lemma {:induction false} FitNext(f: System, opts: Options, k: Disk, ps: seq<Rel>, n: nat)
    requires n < |ps| && FitTo(f, opts, k, ps, n) && FitAt(f, opts, k, ps, n) && Apart(k, LaidOut(f, k, ps, n + 1))
    ensures FitTo(f, opts, k, ps, n + 1)
  {
  }

  lemma {:induction false} AllCameBack(p: Prim, c: Settings, f: System, opts: Options, m: Cas.Blobs, k: Disk, ps: seq<Rel>, n: nat)
    requires Listed(k, ps) && FilesStored(p, m, k) && Tidy(opts, k) && n <= |ps|
    requires AllEntries(f, opts, m, Skeleton(k, []), EntriesOf(p, c, k, ps)) == Success(k)
    ensures n in Back(p, c, f, opts, m, k, ps)
  {
    if n == 0 {
      StartBack(p, c, f, opts, m, k, ps);
    } else {
      var last := n - 1;
      AllCameBack(p, c, f, opts, m, k, ps, last);
      NextBack(p, c, f, opts, m, k, ps, last);
    }
  }

  lemma {:induction false} PrefixOfRun(p: Prim, c: Settings, f: System, opts: Options, m: Cas.Blobs, k: Disk, ps: seq<Rel>, n: nat)
    requires WellFormed(k) && Within(ps, k) && n <= |ps|
    requires AllEntries(f, opts, m, Skeleton(k, []), EntriesOf(p, c, k, ps)) == Success(k)
    ensures AllEntries(f, opts, m, Skeleton(k, []), EntriesOf(p, c, k, ps[..n])).Success?
    ensures Grown(AllEntries(f, opts, m, Skeleton(k, []), EntriesOf(p, c, k, ps[..n])).value, k)
  {
    PrefixOfEntries(p, c, k, ps, n);
    EntriesGrow(f, opts, m, Skeleton(k, []), EntriesOf(p, c, k, ps), n);
  }

  lemma {:induction false} PrefixOfEntries(p: Prim, c: Settings, k: Disk, ps: seq<Rel>, n: nat)
    requires WellFormed(k) && Within(ps, k) && n <= |ps|
    ensures |EntriesOf(p, c, k, ps)| == |ps| && EntriesOf(p, c, k, ps)[..n] == EntriesOf(p, c, k, ps[..n])
    decreases |ps|
  {
    if ps == [] {
    } else if n == |ps| {
      PrefixOfEntries(p, c, k, ps[..|ps| - 1], n - 1);
      assert ps[..n] == ps;
    } else {
      PrefixOfEntries(p, c, k, ps[..|ps| - 1], n);
      assert ps[..|ps| - 1][..n] == ps[..n];
    }
  }

  lemma {:induction false} RebuiltComesBack(p: Prim, c: Settings, f: System, opts: Options, m: Cas.Blobs, k: Disk, ps: seq<Rel>)
    requires Listed(k, ps) && FilesStored(p, m, k) && Rebuilt(f, opts, m, EntriesOf(p, c, k, ps)) == Success(k)
    ensures ComesBack(f, opts, k, ps)
  {
    RebuiltIsTidy(p, c, f, opts, m, k, ps);
    FirstPassBuilds(p, c, f, k, ps);
    AllCameBack(p, c, f, opts, m, k, ps, |ps|);
    assert ps[..|ps|] == ps;
    WholeStage(f, k, ps);
    FitComesBack(f, opts, k, ps);
  }

  lemma {:induction false} FitComesBack(f: System, opts: Options, k: Disk, ps: seq<Rel>)
    requires Listed(k, ps) && Tidy(opts, k) && FitTo(f, opts, k, ps, |ps|) && LaidOut(f, k, ps, |ps|) == Files(k)
    ensures ComesBack(f, opts, k, ps)
  {
    forall n | 0 <= n < |ps| && IsFile(k, ps[n])
      ensures SafePath(Render(ps[n])) && LandsAt(f, k, ps, n).Lands?
    {
      assert FitAt(f, opts, k, ps, n);
    }
    forall path | path in k && k[path].Link?
      ensures TargetKept(opts, path, k[path].target)
    {
      assert path in ps;
      var i :| 0 <= i < |ps| && ps[i] == path;
      assert FitAt(f, opts, k, ps, i);
    }
  }

  // ---------- the main results ----------

  /** Restoring a capture rebuilds exactly the unpruned part of the tree (paths,
      kinds, bytes, link targets and modes) if and only if its directories and
      links have no backslash, every link stays inside or is absolute where that
      is allowed, and the files, laid where their recorded paths lead, are the
      files of the tree. */
  lemma {:induction false} RestoreUndoesCaptureIff(p: Prim, c: Settings, f: System, opts: Options, t: Disk, m: Cas.Blobs)
    requires Lawful(p) && WellFormed(t) && Cas.Keyed(p, m) && CollisionFree(p, InPlay(p, c, t, m))
    ensures
      Restored(p, f, opts, AfterCapture(p, c, t, m), Of(p, TreeBytes(p, Captured(p, c, t)))) == Success(Unpruned(c, t))
      <==> ComesBack(f, opts, Unpruned(c, t), Order(c, t))
  {
    var k, ps, after := Unpruned(c, t), Order(c, t), AfterCapture(p, c, t, m);
    RestoreIsRebuild(p, c, f, opts, t, m);
    KeptFilesStored(p, c, t, m);
    if ComesBack(f, opts, k, ps) {
      ComesBackRebuilt(p, c, f, opts, after, k, ps);
    }
    if Rebuilt(f, opts, after, EntriesOf(p, c, k, ps)) == Success(k) {
      RebuiltComesBack(p, c, f, opts, after, k, ps);
    }
  }

  /** Without backslashes the condition is one on the links alone. */
  lemma {:induction false} PlainComesBackIff(p: Prim, c: Settings, f: System, opts: Options, t: Disk, m: Cas.Blobs)
    requires Lawful(p) && WellFormed(t) && Cas.Keyed(p, m) && CollisionFree(p, InPlay(p, c, t, m))
    requires PlainTree(Unpruned(c, t))
    ensures
      Restored(p, f, opts, AfterCapture(p, c, t, m), Of(p, TreeBytes(p, Captured(p, c, t)))) == Success(Unpruned(c, t))
      <==> LinksKept(opts, Unpruned(c, t))
  {
    var k := Unpruned(c, t);
    RestoreOfPlainCapture(p, c, f, opts, t, m);
    if LinksKept(opts, k) {
      forall path | path in k
        ensures !Escaping(k, path) && Returns(opts, k[path])
      {
      }
      assert Returning(opts, k) == k;
    }
    if !(exists path :: path in k && Escaping(k, path)) && Returning(opts, k) == k {
      forall path | path in k && k[path].Link?
        ensures TargetKept(opts, path, k[path].target)
      {
        assert path in Returning(opts, k);
        assert !Escaping(k, path);
      }
    }
  }

  /** Without links no name with a backslash comes back. */
  lemma {:induction false} NoLinksComesBackIff(p: Prim, c: Settings, f: System, opts: Options, t: Disk, m: Cas.Blobs)
    requires Lawful(p) && WellFormed(t) && Cas.Keyed(p, m) && CollisionFree(p, InPlay(p, c, t, m))
    requires forall path :: path in Unpruned(c, t) ==> !Unpruned(c, t)[path].Link?
    ensures
      Restored(p, f, opts, AfterCapture(p, c, t, m), Of(p, TreeBytes(p, Captured(p, c, t)))) == Success(Unpruned(c, t))
      <==> PlainTree(Unpruned(c, t))
  {
    var k, ps := Unpruned(c, t), Order(c, t);
    RestoreUndoesCaptureIff(p, c, f, opts, t, m);
    if PlainTree(k) {
      PlainComesBackIff(p, c, f, opts, t, m);
    }
    if ComesBack(f, opts, k, ps) {
      LaidOutPlain(f, k, ps, |ps|);
      forall path | path in k && k[path].Regular?
        ensures Plain(path)
      {
        assert path in Files(k);
      }
    }
  }

  lemma {:induction false} LaidOutPlain(f: System, k: Disk, ps: seq<Rel>, n: nat)
    requires n <= |ps| && forall path :: path in k ==> !k[path].Link?
    requires forall i :: 0 <= i < |ps| && IsFile(k, ps[i]) ==> SafePath(Render(ps[i]))
    ensures forall q :: q in LaidOut(f, k, ps, n) ==> Plain(q)
  {
    if n > 0 {
      LaidOutPlain(f, k, ps, n - 1);
      if IsFile(k, ps[n - 1]) {
        RenderedPlain(ps[n - 1]);
        UnlinkedWay(Skeleton(k, ps[..n - 1]), Recorded(ps[n - 1]), f.links);
      }
    }
  }

  // ---------- an example ----------

  /** A directory, a link in it, and a file beside it. */
  function Detour(dir: string, link: string, target: string, file: string, mode: nat, bytes: Bytes): Disk {
    map[[dir] := Directory(493), [dir, link] := Link(target), [file] := Regular(mode, bytes)]
  }

  function DetourPaths(dir: string, link: string, file: string): seq<Rel> { [[dir], [dir, link], [file]] }

  /** The file `a\\b` is recorded as `a/b`, which is a link to it: it comes back, if its
      permission bits are those of a new file. A path that names a link has none set. */
  lemma {:induction false} BackslashComesBack(f: System, opts: Options, mode: nat, bytes: Bytes)
    requires f.links > 0 && mode < 4096 && |bytes| < 0x1_0000_0000_0000_0000
    ensures
      var k := Detour("a", "b", "../a\\b", "a\\b", mode, bytes);
      && Listed(k, DetourPaths("a", "b", "a\\b")) && !PlainTree(k)
      && (ComesBack(f, opts, k, DetourPaths("a", "b", "a\\b")) <==> mode == f.fileMode)
  {
    DetourText();
    DetourListed("a", "b", "../a\\b", "a\\b", mode, bytes);
    DetourComesBack(f, opts, "a", "b", "../a\\b", "a\\b", mode, bytes);
    assert '\\' in ["a\\b"][0];
  }

  /** What the example needs of its names. */
  ghost predicate DetourNames(dir: string, link: string, target: string, file: string) {
    && IsName(dir) && IsName(link) && IsName(file) && '\\' !in dir && '\\' !in link && dir != file
    && StrLe(dir, file)
    && target != "" && !IsAbsolute(target) && Parts(target) == ["..", file]
    && SafePath(Render([file])) && Recorded([file]) == [dir, link]
  }

  lemma {:induction false} DetourText()
    ensures DetourNames("a", "b", "../a\\b", "a\\b")
  {
    DetourTarget();
    DetourRecord();
    assert "a"[1..] == "" && StrLe("a", "a\\b");
  }

  /** One step up, then a name. */
  lemma {:induction false} PartsOfUp(name: string)
    requires IsName(name)
    ensures Parts("../" + name) == ["..", name] && !IsAbsolute("../" + name)
  {
    var s := "../" + name;
    PiecesOfJoin([name]);
    assert s[..2] == ".." && s[3..] == name;
    assert s[2..][0] == '/' && s[1..][1..] == s[2..] && s[1..][0] == '.';
    assert Slash(s) == 2;
    assert Join([name]) == name && Pieces(name) == [name];
    assert Pieces(s) == [".."] + Pieces(name) == ["..", name];
    assert [name][1..] == [] && ["..", name][1..] == [name];
    assert WithoutDots([name]) == [name];
  }

  lemma {:induction false} DetourTarget()
    ensures Parts("../a\\b") == ["..", "a\\b"] && !IsAbsolute("../a\\b")
  {
    PartsOfUp("a\\b");
    assert "../" + "a\\b" == "../a\\b";
  }

  lemma {:induction false} DetourRecord()
    ensures Render(["a\\b"]) == "a/b" && SafePath("a/b") && Recorded(["a\\b"]) == ["a", "b"]
  {
    assert Join(["a\\b"]) == "a\\b";
    assert "a\\b"[1..] == "\\b" && "\\b"[1..] == "b" && "b"[1..] == "";
    assert ["a", "b"][1..] == ["b"];
    assert Join(["a", "b"]) == "a/b";
    assert Render(["a", "b"]) == "a/b";
    PathRoundTrip(["a", "b"]);
  }

  lemma {:induction false} DetourListed(dir: string, link: string, target: string, file: string, mode: nat, bytes: Bytes)
    requires DetourNames(dir, link, target, file) && mode < 4096 && |bytes| < 0x1_0000_0000_0000_0000
    ensures Listed(Detour(dir, link, target, file, mode, bytes), DetourPaths(dir, link, file))
  {
    var k, ps := Detour(dir, link, target, file, mode, bytes), DetourPaths(dir, link, file);
    assert DirOf([dir, link]) == [dir];
    StrTotal(dir, dir);
    assert [dir][1..] == [] && [dir, link][1..] == [link];
    assert PathLe([dir], [dir, link]) && PathLe([dir], [file]) && PathLe([dir, link], [file]);
  }

  lemma {:induction false} DetourLands(f: System, dir: string, link: string, target: string, file: string, mode: nat, bytes: Bytes)
    requires DetourNames(dir, link, target, file) && f.links > 0
    ensures LandsAt(f, Detour(dir, link, target, file, mode, bytes), DetourPaths(dir, link, file), 2) == Lands([file])
  {
    var k, ps := Detour(dir, link, target, file, mode, bytes), DetourPaths(dir, link, file);
    var s := Skeleton(k, ps[..2]);
    assert ps[..2] == [[dir], [dir, link]];
    assert [] + [dir] == [dir] && [dir] + [link] == [dir, link] && [] + [file] == [file];
    assert [dir, link][1..] == [link] && [link][1..] == [] && ["..", file][1..] == [file] && ["..", file] + [] == ["..", file];
    assert Resolve(s, [], [file], f.links - 1) == Lands([file]);
    assert DirOf([dir]) == [];
    assert Resolve(s, [dir], ["..", file], f.links - 1) == Lands([file]);
    assert Resolve(s, [dir], [link], f.links) == Lands([file]);
    assert Resolve(s, [], [dir, link], f.links) == Lands([file]);
  }

  /** The recorded path names the link, so no permission bits are set. */
  lemma {:induction false} DetourBits(f: System, dir: string, link: string, target: string, file: string, mode: nat, bytes: Bytes)
    requires DetourNames(dir, link, target, file) && f.links > 0
    ensures
      var k, ps := Detour(dir, link, target, file, mode, bytes), DetourPaths(dir, link, file);
      LandsAt(f, k, ps, 2) == Lands([file]) && LaidAt(f, k, ps, 2, map[]) == Regular(f.fileMode, bytes)
  {
    var k, ps := Detour(dir, link, target, file, mode, bytes), DetourPaths(dir, link, file);
    DetourLands(f, dir, link, target, file, mode, bytes);
    var d := Skeleton(k, ps[..2]) + map[];
    assert ps[..2] == [[dir], [dir, link]];
    assert [] + [dir] == [dir] && DirOf([dir, link]) == [dir] && [dir] + [link] == [dir, link];
    assert Resolve(d, [], [dir], f.links) == Lands([dir]);
    assert Slot(f, d, [dir, link]) == Lands([dir, link]);
    assert [file] !in d;
  }

  lemma {:induction false} DetourLaidOut(f: System, dir: string, link: string, target: string, file: string, mode: nat, bytes: Bytes)
    requires DetourNames(dir, link, target, file) && f.links > 0
    ensures
      var k, ps := Detour(dir, link, target, file, mode, bytes), DetourPaths(dir, link, file);
      LaidOut(f, k, ps, 3) == map[[file] := Regular(f.fileMode, bytes)] && Files(k) == map[[file] := Regular(mode, bytes)]
  {
    hide LaidAt, LandsAt, Skeleton;
    var k, ps := Detour(dir, link, target, file, mode, bytes), DetourPaths(dir, link, file);
    DetourBits(f, dir, link, target, file, mode, bytes);
    assert LaidOut(f, k, ps, 0) == map[] && LaidOut(f, k, ps, 1) == map[] && LaidOut(f, k, ps, 2) == map[];
  }

  lemma {:induction false} DetourLinks(opts: Options, dir: string, link: string, target: string, file: string, mode: nat, bytes: Bytes)
    requires DetourNames(dir, link, target, file)
    ensures
      var k := Detour(dir, link, target, file, mode, bytes);
      PlainWays(k) && LinksKept(opts, k)
  {
    assert DirOf([dir, link]) == [dir] && ["..", file][1..] == [file] && [file][1..] == [];
    assert [] + [file] == [file] && file != "..";
    assert Follow([], [file]) == Follow([file], []);
    assert Follow([dir], ["..", file]) == Follow([], [file]);
  }

  lemma {:induction false} DetourComesBack(f: System, opts: Options, dir: string, link: string, target: string,
                                           file: string, mode: nat, bytes: Bytes)
    requires DetourNames(dir, link, target, file) && f.links > 0
    ensures ComesBack(f, opts, Detour(dir, link, target, file, mode, bytes), DetourPaths(dir, link, file)) <==> mode == f.fileMode
  {
    hide LaidOut, LandsAt, Files, PlainWays, LinksKept;
    var k, ps := Detour(dir, link, target, file, mode, bytes), DetourPaths(dir, link, file);
    DetourLands(f, dir, link, target, file, mode, bytes);
    DetourLaidOut(f, dir, link, target, file, mode, bytes);
    DetourLinks(opts, dir, link, target, file, mode, bytes);
    assert Regular(f.fileMode, bytes) == Regular(mode, bytes) <==> mode == f.fileMode;
    assert map[[file] := Regular(f.fileMode, bytes)] == map[[file] := Regular(mode, bytes)] ==> mode == f.fileMode by {
      assert map[[file] := Regular(mode, bytes)][[file]] == Regular(mode, bytes);
      assert map[[file] := Regular(f.fileMode, bytes)][[file]] == Regular(f.fileMode, bytes);
    }
  }
}
