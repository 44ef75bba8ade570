/** When a restore succeeds, and when it leaves its root. */
module Containment {
  // The check of a link's target reads names. Whether an entry can be placed, and
  // whether the restore stays below its root, is decided by where the recorded paths
  // lead on the disk as it is then.

  import opened Base
  import opened Paths
  import opened Tree
  import opened FsCapture
  import opened FsRestore
  import opened FsRoundTrip
  import opened Ways
  import opened Placement
  import Cas

  // ---------- disks with all their directories ----------

  /** Everything is in a directory. */
  ghost predicate Grounded(d: Disk) { Rooted(d) && forall q :: q in d ==> q != [] && IsDir(d, DirOf(q)) }

  lemma {:induction false} RootedWith(d: Disk, p: Rel, node: Node)
    requires Rooted(d) && p != [] && IsDir(d, DirOf(p)) && (p in d ==> SameKind(d[p], node))
    ensures Rooted(d[p := node])
  {
    var r := d[p := node];
    forall q
      ensures IsDir(d, q) ==> IsDir(r, q)
      ensures IsDir(r, q) && q != p ==> IsDir(d, q)
    {
    }
    forall q, i | IsDir(r, q) && 0 <= i <= |q|
      ensures IsDir(r, q[..i])
    {
      if i == |q| {
        assert q[..i] == q;
      } else if q == p {
        assert p[..i] == DirOf(p)[..i];
        assert IsDir(d, DirOf(p)[..i]);
      } else {
        assert IsDir(d, q[..i]);
      }
    }
  }

  lemma {:induction false} GroundedWith(d: Disk, p: Rel, node: Node)
    requires Grounded(d) && p != [] && IsDir(d, DirOf(p)) && (p in d ==> SameKind(d[p], node))
    ensures Grounded(d[p := node])
  {
    var r := d[p := node];
    RootedWith(d, p, node);
    forall q | q in r
      ensures q != [] && IsDir(r, DirOf(q))
    {
      assert IsDir(d, DirOf(q));
      assert DirOf(p) != p;
    }
  }

  /** A path ends in a directory of the disk, or in one of its names. */
  lemma {:induction false} LandsInDir(d: Disk, at: Rel, names: seq<string>, links: nat)
    requires Rooted(d) && IsDir(d, at) && Resolve(d, at, names, links).Lands?
    ensures
      var p := Resolve(d, at, names, links).path;
      p == [] || IsDir(d, DirOf(p))
    decreases links, |names|
  {
    if names == [] {
      assert at != [] ==> IsDir(d, at[..|at| - 1]);
    } else if names[0] == ".." {
      assert IsDir(d, at[..|at| - 1]);
      LandsInDir(d, DirOf(at), names[1..], links);
    } else {
      var next := at + [names[0]];
      if next in d && d[next].Link? {
        LandsInDir(d, at, Parts(d[next].target) + names[1..], links - 1);
      } else if |names| > 1 {
        LandsInDir(d, next, names[1..], links);
      } else {
        assert DirOf(next) == at;
      }
    }
  }

  lemma {:induction false} SlotInDir(f: System, d: Disk, path: Rel)
    requires path != [] && Slot(f, d, path).Lands?
    ensures Slot(f, d, path).path != [] && IsDir(d, DirOf(Slot(f, d, path).path))
  {
    var dir := Resolve(d, [], DirOf(path), f.links).path;
    assert DirOf(dir + [path[|path| - 1]]) == dir;
  }

  lemma {:induction false} MakeDirsGrounded(f: System, d: Disk, path: Rel)
    requires Grounded(d) && MakeDirs(f, d, path).Success?
    ensures Grounded(MakeDirs(f, d, path).value)
    decreases |path|
  {
    if path != [] {
      var made := MakeDirs(f, d, DirOf(path)).value;
      MakeDirsGrounded(f, d, DirOf(path));
      SlotInDir(f, made, path);
      var p := Slot(f, made, path).path;
      if p !in made {
        GroundedWith(made, p, Directory(f.dirMode));
      }
    }
  }

  lemma {:induction false} SetModeGrounded(f: System, d: Disk, path: Rel, mode: nat)
    requires Grounded(d)
    ensures Grounded(SetMode(f, d, path, mode))
  {
    var place := Resolve(d, [], path, f.links);
    if place.Lands? && place.path in d {
      GroundedWith(d, place.path, WithMode(d[place.path], mode));
    }
  }

  lemma {:induction false} FileGrounded(f: System, m: Cas.Blobs, d: Disk, path: Rel, e: Entry)
    requires Grounded(d) && PlaceFile(f, m, d, path, e).Success?
    ensures Grounded(PlaceFile(f, m, d, path, e).value)
  {
    MakeDirsGrounded(f, d, DirOf(path));
    var made := MakeDirs(f, d, DirOf(path)).value;
    var written := WriteFile(f, made, path, m[e.blob.value]).value;
    var p := Resolve(made, [], path, f.links).path;
    LandsInDir(made, [], path, f.links);
    GroundedWith(made, p, written[p]);
    SetModeGrounded(f, written, path, ModeBits(e.mode));
  }

  lemma {:induction false} LinkGrounded(f: System, opts: Options, d: Disk, path: Rel, e: Entry)
    requires Grounded(d) && path != [] && PlaceLink(f, opts, d, path, e).Success?
    ensures Grounded(PlaceLink(f, opts, d, path, e).value)
  {
    var r := PlaceLink(f, opts, d, path, e).value;
    if r != d {
      MakeDirsGrounded(f, d, DirOf(path));
      var made := MakeDirs(f, d, DirOf(path)).value;
      SlotInDir(f, made, path);
      GroundedWith(made, Slot(f, made, path).path, Link(e.linkTarget.value));
    }
  }

  lemma {:induction false} EntriesGrounded(f: System, opts: Options, m: Cas.Blobs, d: Disk, es: seq<Entry>)
    requires Grounded(d) && AllEntries(f, opts, m, d, es).Success?
    requires forall i :: 0 <= i < |es| ==> Parts(es[i].path) != []
    ensures Grounded(AllEntries(f, opts, m, d, es).value)
  {
    if es != [] {
      var n := |es| - 1;
      EntriesGrounded(f, opts, m, d, es[..n]);
      var before := AllEntries(f, opts, m, d, es[..n]).value;
      if es[n].kind == File {
        FileGrounded(f, m, before, Parts(es[n].path), es[n]);
      } else if es[n].kind == Symlink {
        LinkGrounded(f, opts, before, Parts(es[n].path), es[n]);
      }
    }
  }

  lemma {:induction false} DirsGrounded(f: System, es: seq<Entry>)
    requires AllDirs(f, es).Success?
    ensures Grounded(AllDirs(f, es).value)
  {
    if es != [] {
      var n := |es| - 1;
      DirsGrounded(f, es[..n]);
      if es[n].kind == Dir {
        var before := AllDirs(f, es[..n]).value;
        MakeDirsGrounded(f, before, Parts(es[n].path));
        SetModeGrounded(f, MakeDirs(f, before, Parts(es[n].path)).value, Parts(es[n].path), ModeBits(es[n].mode));
      }
    }
  }

  // ---------- create_dir_all and the root ----------

  ghost predicate Bare(d: Disk, x: Rel) { forall name :: x + [name] !in d }

  ghost predicate EndsBare(f: System, d: Disk, path: Rel) {
    Resolve(d, [], path, f.links).Lands? && Bare(d, Resolve(d, [], path, f.links).path)
  }

  /** If `create_dir_all` makes anything, the last directory is new and empty. */
  lemma {:induction false} MadeIsBare(f: System, d: Disk, path: Rel)
    requires Grounded(d) && ".." !in path && MakeDirs(f, d, path).Success? && MakeDirs(f, d, path).value != d
    ensures EndsBare(f, MakeDirs(f, d, path).value, path)
    decreases |path|
  {
    var up, last := DirOf(path), path[|path| - 1];
    var made, r := MakeDirs(f, d, up).value, MakeDirs(f, d, path).value;
    MakeDirsGrounded(f, d, up);
    MadeLeads(f, d, up);
    if made != d {
      MadeIsBare(f, d, up);
    }
    var p := Slot(f, made, path).path;
    assert p !in made;
    NewIsBare(f, made, path);
  }

  lemma {:induction false} NewIsBare(f: System, d: Disk, path: Rel)
    requires Grounded(d) && path != [] && ".." !in path && MakeDir(f, d, path).Success? && Slot(f, d, path).path !in d
    ensures EndsBare(f, MakeDir(f, d, path).value, path)
  {
    NewLeads(f, d, path, f.dirMode);
    SlotInDir(f, d, path);
    NewHasNothing(d, Slot(f, d, path).path, Directory(f.dirMode));
  }

  lemma {:induction false} NewHasNothing(d: Disk, p: Rel, node: Node)
    requires Grounded(d) && p != [] && p !in d
    ensures Bare(d[p := node], p)
  {
    forall name
      ensures p + [name] !in d[p := node]
    {
      assert DirOf(p + [name]) == p;
    }
  }

  /** A place in a bare directory leads nowhere else. */
  lemma {:induction false} BareLands(f: System, d: Disk, path: Rel)
    requires path != [] && ".." !in path && EndsBare(f, d, DirOf(path)) && IsDir(d, Resolve(d, [], DirOf(path), f.links).path)
    ensures Resolve(d, [], path, f.links) == Slot(f, d, path) && Slot(f, d, path).Lands?
    ensures Slot(f, d, path).path != [] && Slot(f, d, path).path !in d
  {
    OneMoreName(d, [], DirOf(path), path[|path| - 1], f.links);
    assert DirOf(path) + [path[|path| - 1]] == path;
  }

  /** `create_dir_all` leaves the root exactly if the path does. */
  lemma {:induction false} MakeDirsLeavesIff(f: System, d: Disk, path: Rel)
    requires Grounded(d) && ".." !in path
    ensures MakeDirs(f, d, path) == Failure(LeavesRoot) <==> Resolve(d, [], path, f.links) == Outside
    decreases |path|
  {
    if path != [] {
      var up, last := DirOf(path), path[|path| - 1];
      assert up + [last] == path;
      MakeDirsLeavesIff(f, d, up);
      if Resolve(d, [], path, f.links).Outside? {
        LeadsThrough(d, [], up, [last], f.links);
      }
      if Resolve(d, [], up, f.links).Outside? {
        OutsideStays(d, [], up, [last], f.links);
      } else {
        LastDirLeavesIff(f, d, path);
      }
    }
  }

  lemma {:induction false} LastDirLeavesIff(f: System, d: Disk, path: Rel)
    requires Grounded(d) && path != [] && ".." !in path && !Resolve(d, [], DirOf(path), f.links).Outside?
    requires MakeDirs(f, d, DirOf(path)) != Failure(LeavesRoot)
    requires Resolve(d, [], path, f.links).Outside? ==> LeadsToDir(f, d, DirOf(path))
    ensures MakeDirs(f, d, path) == Failure(LeavesRoot) <==> Resolve(d, [], path, f.links) == Outside
  {
    var up, last := DirOf(path), path[|path| - 1];
    assert up + [last] == path;
    if Resolve(d, [], path, f.links).Outside? {
      UpReached(f, d, up);
      if Slot(f, d, path).path !in d {
        OneMoreName(d, [], up, last, f.links);
      }
    }
    if MakeDirs(f, d, path) == Failure(LeavesRoot) {
      var made := MakeDirs(f, d, up).value;
      UpIsDir(f, d, up);
      if made != d {
        MadeIsBare(f, d, up);
        BareLands(f, made, path);
      }
    }
  }

  lemma {:induction false} UpIsDir(f: System, d: Disk, up: Rel)
    requires ".." !in up && MakeDirs(f, d, up).Success?
    ensures LeadsToDir(f, MakeDirs(f, d, up).value, up)
  {
    MadeLeads(f, d, up);
    if up != [] {
      UponSelf(up);
    }
  }

  // ---------- one entry ----------

  /** What must not lead out: the file's path, or the directory of a link. */
  function Way(path: Rel, e: Entry): Rel { if e.kind == File then path else DirOf(path) }

  /** A path that leads out fails the file. */
  lemma {:induction false} OutsideFails(f: System, m: Cas.Blobs, d: Disk, path: Rel, e: Entry)
    requires Grounded(d) && path != [] && ".." !in path && e.blob.Some? && e.blob.value in m
    requires Resolve(d, [], path, f.links).Outside?
    ensures PlaceFile(f, m, d, path, e) == Failure(LeavesRoot)
  {
    var up, last := DirOf(path), path[|path| - 1];
    assert up + [last] == path;
    NoUpSteps(path);
    MakeDirsLeavesIff(f, d, up);
    LeadsThrough(d, [], up, [last], f.links);
    if !Resolve(d, [], up, f.links).Outside? {
      UpReached(f, d, up);
    }
  }

  lemma {:induction false} WriteLeaves(f: System, d: Disk, path: Rel, made: Disk)
    requires Grounded(d) && path != [] && ".." !in path && MakeDirs(f, d, DirOf(path)) == Success(made)
    requires Resolve(made, [], path, f.links).Outside?
    ensures Resolve(d, [], path, f.links).Outside?
  {
    NoUpSteps(path);
    UpIsDir(f, d, DirOf(path));
    if made != d {
      MadeIsBare(f, d, DirOf(path));
      BareLands(f, made, path);
    }
  }

  lemma {:induction false} FileLeft(f: System, m: Cas.Blobs, d: Disk, path: Rel, e: Entry)
    requires Grounded(d) && path != [] && ".." !in path && PlaceFile(f, m, d, path, e) == Failure(LeavesRoot)
    ensures Resolve(d, [], path, f.links).Outside?
  {
    var up := DirOf(path);
    NoUpSteps(path);
    match MakeDirs(f, d, up)
    case Success(made) => WriteLeaves(f, d, path, made);
    case Failure(_) =>
      MakeDirsLeavesIff(f, d, up);
      OutsideStays(d, [], up, [path[|path| - 1]], f.links);
      assert up + [path[|path| - 1]] == path;
  }

  lemma {:induction false} FileLeavesIff(f: System, m: Cas.Blobs, d: Disk, path: Rel, e: Entry)
    requires Grounded(d) && path != [] && ".." !in path && e.blob.Some? && e.blob.value in m
    ensures PlaceFile(f, m, d, path, e) == Failure(LeavesRoot) <==> Resolve(d, [], path, f.links) == Outside
  {
    if Resolve(d, [], path, f.links).Outside? {
      OutsideFails(f, m, d, path, e);
    }
    if PlaceFile(f, m, d, path, e) == Failure(LeavesRoot) {
      FileLeft(f, m, d, path, e);
    }
  }

  lemma {:induction false} LinkLeavesIff(f: System, opts: Options, m: Cas.Blobs, d: Disk, path: Rel, e: Entry)
    requires Grounded(d) && TitledAt(m, path, e) && e.kind == Symlink && Lies(opts, e) && !Escapes(path, e)
    ensures PlaceLink(f, opts, d, path, e) == Failure(LeavesRoot) <==> Resolve(d, [], DirOf(path), f.links) == Outside
  {
    NoUpSteps(path);
    MakeDirsLeavesIff(f, d, DirOf(path));
    if MakeDirs(f, d, DirOf(path)).Success? {
      UpIsDir(f, d, DirOf(path));
    }
  }

  lemma {:induction false} EntryLeavesIff(f: System, opts: Options, m: Cas.Blobs, d: Disk, path: Rel, e: Entry)
    requires Grounded(d) && TitledAt(m, path, e)
    ensures PlaceEntry(f, opts, m, d, e) == Failure(LeavesRoot) <==>
      Lies(opts, e) && !Escapes(path, e) && Resolve(d, [], Way(path, e), f.links) == Outside
  {
    SafeRendered(path);
    if Lies(opts, e) && !Escapes(path, e) {
      if e.kind == File {
        FileLeavesIff(f, m, d, path, e);
      } else {
        LinkLeavesIff(f, opts, m, d, path, e);
      }
    }
  }

  // ---------- the whole restore ----------

  /** With the entries before it placed, the way of the `n`-th leads out of the root. */
  ghost predicate LeadsOut(f: System, opts: Options, m: Cas.Blobs, ps: seq<Rel>, es: seq<Entry>, d: Disk, n: nat)
    requires n < |ps| == |es|
  {
    && Lies(opts, es[n]) && !Escapes(ps[n], es[n])
    && AllEntries(f, opts, m, d, es[..n]).Success?
    && Resolve(AllEntries(f, opts, m, d, es[..n]).value, [], Way(ps[n], es[n]), f.links) == Outside
  }

  ghost predicate SomeLeadsOut(f: System, opts: Options, m: Cas.Blobs, ps: seq<Rel>, es: seq<Entry>, d: Disk, n: nat)
    requires n <= |ps| == |es|
  {
    exists i :: 0 <= i < n && LeadsOut(f, opts, m, ps, es, d, i)
  }

  /** How many entries are judged rightly by `SomeLeadsOut`. */
  ghost function OutJudged(f: System, opts: Options, m: Cas.Blobs, ps: seq<Rel>, es: seq<Entry>, d: Disk): set<nat>
    requires |ps| == |es|
  {
    set n: nat | n <= |es| && (AllEntries(f, opts, m, d, es[..n]) == Failure(LeavesRoot) <==> SomeLeadsOut(f, opts, m, ps, es, d, n))
  }

  lemma {:induction false} OutJudgedStart(f: System, opts: Options, m: Cas.Blobs, ps: seq<Rel>, es: seq<Entry>, d: Disk)
    requires |ps| == |es|
    ensures 0 in OutJudged(f, opts, m, ps, es, d)
  {
  }

  lemma {:induction false} OutJudgedNext(f: System, opts: Options, m: Cas.Blobs, ps: seq<Rel>, es: seq<Entry>, d: Disk, n: nat)
    requires Titled(m, ps, es) && Grounded(d) && n < |es| && n in OutJudged(f, opts, m, ps, es, d)
    ensures n + 1 in OutJudged(f, opts, m, ps, es, d)
  {
    assert es[..n + 1][..n] == es[..n];
    EntryLeaves(f, opts, m, ps, es, d, n);
    SomeLeadsOutNext(f, opts, m, ps, es, d, n);
  }

  lemma {:induction false} SomeLeadsOutNext(f: System, opts: Options, m: Cas.Blobs, ps: seq<Rel>, es: seq<Entry>, d: Disk, n: nat)
    requires n < |ps| == |es|
    ensures SomeLeadsOut(f, opts, m, ps, es, d, n + 1) <==>
      SomeLeadsOut(f, opts, m, ps, es, d, n) || LeadsOut(f, opts, m, ps, es, d, n)
  {
  }

  lemma {:induction false} EntriesLeaveIff(f: System, opts: Options, m: Cas.Blobs, ps: seq<Rel>, es: seq<Entry>, d: Disk, n: nat)
    requires Titled(m, ps, es) && Grounded(d) && n <= |es|
    ensures n in OutJudged(f, opts, m, ps, es, d)
  {
    if n == 0 {
      OutJudgedStart(f, opts, m, ps, es, d);
    } else {
      var last := n - 1;
      EntriesLeaveIff(f, opts, m, ps, es, d, last);
      OutJudgedNext(f, opts, m, ps, es, d, last);
    }
  }

  lemma {:induction false} EntryLeaves(f: System, opts: Options, m: Cas.Blobs, ps: seq<Rel>, es: seq<Entry>, d: Disk, n: nat)
    requires Titled(m, ps, es) && Grounded(d) && n < |es|
    ensures AllEntries(f, opts, m, d, es[..n]).Success? ==>
      (PlaceEntry(f, opts, m, AllEntries(f, opts, m, d, es[..n]).value, es[n]) == Failure(LeavesRoot)
       <==> LeadsOut(f, opts, m, ps, es, d, n))
  {
    if AllEntries(f, opts, m, d, es[..n]).Success? {
      forall i | 0 <= i < n
        ensures Parts(es[..n][i].path) != []
      {
        assert TitledAt(m, ps[i], es[i]);
        SafeRendered(ps[i]);
      }
      EntriesGrounded(f, opts, m, d, es[..n]);
      assert TitledAt(m, ps[n], es[n]);
      EntryLeavesIff(f, opts, m, AllEntries(f, opts, m, d, es[..n]).value, ps[n], es[n]);
    }
  }

  /** A restore leaves its root if and only if, the entries before it being placed,
      the way of some entry leads out: whatever its links' targets passed. */
  lemma {:induction false} LeavesRootIff(f: System, opts: Options, m: Cas.Blobs, ps: seq<Rel>, es: seq<Entry>)
    requires Titled(m, ps, es)
    ensures AllDirs(f, es).Success?
    ensures Rebuilt(f, opts, m, es) == Failure(LeavesRoot) <==> SomeLeadsOut(f, opts, m, ps, es, AllDirs(f, es).value, |es|)
  {
    assert es[..|es|] == es;
    DirsAlwaysMade(f, m, ps, es, |es|);
    DirsGrounded(f, es);
    EntriesLeaveIff(f, opts, m, ps, es, AllDirs(f, es).value, |es|);
  }

  // ---------- when an entry can be placed ----------

  /** The directories before `q` can be reached, and nothing has its last name. */
  ghost predicate IsFresh(f: System, d: Disk, q: Rel) { q != [] && Slot(f, d, q).Lands? && Slot(f, d, q).path !in d }

  /** Some name on the way to `path` is yet to be made. */
  ghost predicate NewOnWay(f: System, d: Disk, path: Rel) { exists q :: Upon(q, path) && IsFresh(f, d, q) }

  lemma {:induction false} FreshIsNoDir(f: System, d: Disk, q: Rel)
    requires ".." !in q && IsFresh(f, d, q)
    ensures !LeadsToDir(f, d, q)
  {
    SlotInDir(f, d, q);
    OneMoreName(d, [], DirOf(q), q[|q| - 1], f.links);
    assert DirOf(q) + [q[|q| - 1]] == q;
  }

  lemma {:induction false} PrefixNoUp(q: Rel, path: Rel)
    requires ".." !in path && Upon(q, path)
    ensures ".." !in q
  {
    forall i | 0 <= i < |q|
      ensures q[i] != ".."
    {
      assert q[i] == path[i] && path[i] in path;
    }
  }

  lemma {:induction false} NewOnWayStep(f: System, d: Disk, path: Rel)
    requires path != []
    ensures NewOnWay(f, d, path) <==> IsFresh(f, d, path) || NewOnWay(f, d, DirOf(path))
  {
    UponSelf(path);
    forall q
      ensures Upon(q, path) <==> q == path || Upon(q, DirOf(path))
    {
      UponStep(q, path);
    }
  }

  /** `create_dir_all` makes something exactly if something is yet to be made. */
  lemma {:induction false} MadeIsNew(f: System, d: Disk, path: Rel)
    requires Grounded(d) && ".." !in path && MakeDirs(f, d, path).Success?
    ensures MakeDirs(f, d, path).value != d <==> NewOnWay(f, d, path)
    decreases |path|
  {
    if NewOnWay(f, d, path) {
      var q :| Upon(q, path) && IsFresh(f, d, q);
      MadeLeads(f, d, path);
      PrefixNoUp(q, path);
      FreshIsNoDir(f, d, q);
    }
    if path != [] && MakeDirs(f, d, path).value != d {
      NoUpSteps(path);
      MadeIsNew(f, d, DirOf(path));
      NewOnWayStep(f, d, path);
    }
  }

  /** It succeeds exactly if something is yet to be made, or all is there. */
  lemma {:induction false} MakeDirsOpenIff(f: System, d: Disk, path: Rel)
    requires Grounded(d) && ".." !in path
    ensures MakeDirs(f, d, path).Success? <==> path == [] || LeadsToDir(f, d, path) || NewOnWay(f, d, path)
    decreases |path|
  {
    if path != [] {
      var up := DirOf(path);
      NoUpSteps(path);
      MakeDirsOpenIff(f, d, up);
      NewOnWayStep(f, d, path);
      if MakeDirs(f, d, path).Success? {
        MadeIsNew(f, d, path);
        UpIsDir(f, d, path);
      }
      if LeadsToDir(f, d, path) {
        UpReached(f, d, path);
      } else if NewOnWay(f, d, path) {
        NewCanBeMade(f, d, path);
      }
    }
  }

  lemma {:induction false} NewCanBeMade(f: System, d: Disk, path: Rel)
    requires Grounded(d) && path != [] && ".." !in path && NewOnWay(f, d, path)
    requires NewOnWay(f, d, DirOf(path)) ==> MakeDirs(f, d, DirOf(path)).Success?
    ensures MakeDirs(f, d, path).Success?
  {
    var up := DirOf(path);
    NoUpSteps(path);
    NewOnWayStep(f, d, path);
    if NewOnWay(f, d, up) {
      BareAfterNew(f, d, path);
    } else {
      UpReached(f, d, up);
    }
  }

  /** Behind a directory that was just made there is nothing. */
  lemma {:induction false} BareAfterNew(f: System, d: Disk, path: Rel)
    requires Grounded(d) && path != [] && ".." !in path && NewOnWay(f, d, DirOf(path)) && MakeDirs(f, d, DirOf(path)).Success?
    ensures
      var made := MakeDirs(f, d, DirOf(path)).value;
      && Resolve(made, [], path, f.links) == Slot(f, made, path) && Slot(f, made, path).Lands?
      && Slot(f, made, path).path != [] && Slot(f, made, path).path !in made
  {
    NoUpSteps(path);
    MadeIsNew(f, d, DirOf(path));
    MadeIsBare(f, d, DirOf(path));
    UpIsDir(f, d, DirOf(path));
    BareLands(f, MakeDirs(f, d, DirOf(path)).value, path);
  }

  /** The entry's path has something yet to be made before its last name, or leads
      to a place that is free or, for a file, holds a file. */
  ghost predicate Fits(f: System, d: Disk, path: Rel, e: Entry)
    requires path != []
  {
    if e.kind == File then
      NewOnWay(f, d, DirOf(path)) || (Resolve(d, [], path, f.links).Lands? && RoomAt(d, Resolve(d, [], path, f.links).path))
    else NewOnWay(f, d, path)
  }

  lemma {:induction false} FileFitsIff(f: System, m: Cas.Blobs, d: Disk, path: Rel, e: Entry)
    requires Grounded(d) && TitledAt(m, path, e) && e.kind == File
    ensures PlaceFile(f, m, d, path, e).Success? <==> Fits(f, d, path, e)
  {
    var up := DirOf(path);
    NoUpSteps(path);
    MakeDirsOpenIff(f, d, up);
    if NewOnWay(f, d, up) {
      BareAfterNew(f, d, path);
    } else {
      if MakeDirs(f, d, up).Success? {
        MadeIsNew(f, d, up);
      }
      if Resolve(d, [], path, f.links).Lands? {
        ParentsReached(f, d, path);
      }
    }
  }

  lemma {:induction false} LinkFitsIff(f: System, opts: Options, m: Cas.Blobs, d: Disk, path: Rel, e: Entry)
    requires Grounded(d) && TitledAt(m, path, e) && e.kind == Symlink && Lies(opts, e) && !Escapes(path, e)
    ensures PlaceLink(f, opts, d, path, e).Success? <==> Fits(f, d, path, e)
  {
    var up := DirOf(path);
    NoUpSteps(path);
    MakeDirsOpenIff(f, d, up);
    NewOnWayStep(f, d, path);
    if NewOnWay(f, d, up) {
      BareAfterNew(f, d, path);
    } else {
      if MakeDirs(f, d, up).Success? {
        MadeIsNew(f, d, up);
      }
      if IsFresh(f, d, path) {
        SlotInDir(f, d, path);
        UpReached(f, d, up);
      }
    }
  }

  lemma {:induction false} EntryFitsIff(f: System, opts: Options, m: Cas.Blobs, d: Disk, path: Rel, e: Entry)
    requires Grounded(d) && TitledAt(m, path, e)
    ensures PlaceEntry(f, opts, m, d, e).Success? <==> !Escapes(path, e) && (Lies(opts, e) ==> Fits(f, d, path, e))
  {
    SafeRendered(path);
    if Lies(opts, e) && !Escapes(path, e) {
      if e.kind == File {
        FileFitsIff(f, m, d, path, e);
      } else {
        LinkFitsIff(f, opts, m, d, path, e);
      }
    }
  }

  /** With the entries before it placed, the `n`-th is left out or fits. */
  ghost predicate FitsInTurn(f: System, opts: Options, m: Cas.Blobs, ps: seq<Rel>, es: seq<Entry>, d: Disk, n: nat)
    requires n < |ps| == |es|
  {
    && !Escapes(ps[n], es[n])
    && (Lies(opts, es[n]) && AllEntries(f, opts, m, d, es[..n]).Success? && ps[n] != [] ==>
          Fits(f, AllEntries(f, opts, m, d, es[..n]).value, ps[n], es[n]))
  }

  ghost predicate AllFit(f: System, opts: Options, m: Cas.Blobs, ps: seq<Rel>, es: seq<Entry>, d: Disk, n: nat)
    requires n <= |ps| == |es|
  {
    forall i :: 0 <= i < n ==> FitsInTurn(f, opts, m, ps, es, d, i)
  }

  lemma {:induction false} InTurn(f: System, opts: Options, m: Cas.Blobs, ps: seq<Rel>, es: seq<Entry>, d: Disk, n: nat)
    requires Titled(m, ps, es) && Grounded(d) && n < |es| && AllEntries(f, opts, m, d, es[..n]).Success?
    ensures PlaceEntry(f, opts, m, AllEntries(f, opts, m, d, es[..n]).value, es[n]).Success?
       <==> FitsInTurn(f, opts, m, ps, es, d, n)
  {
    forall i | 0 <= i < n
      ensures Parts(es[..n][i].path) != []
    {
      assert TitledAt(m, ps[i], es[i]);
      SafeRendered(ps[i]);
    }
    EntriesGrounded(f, opts, m, d, es[..n]);
    assert TitledAt(m, ps[n], es[n]);
    EntryFitsIff(f, opts, m, AllEntries(f, opts, m, d, es[..n]).value, ps[n], es[n]);
  }

  /** How many entries are judged rightly by `AllFit`. */
  ghost function FitJudged(f: System, opts: Options, m: Cas.Blobs, ps: seq<Rel>, es: seq<Entry>, d: Disk): set<nat>
    requires |ps| == |es|
  {
    set n: nat | n <= |es| && (AllEntries(f, opts, m, d, es[..n]).Success? <==> AllFit(f, opts, m, ps, es, d, n))
  }

  lemma {:induction false} FitJudgedStart(f: System, opts: Options, m: Cas.Blobs, ps: seq<Rel>, es: seq<Entry>, d: Disk)
    requires |ps| == |es|
    ensures 0 in FitJudged(f, opts, m, ps, es, d)
  {
  }

  lemma {:induction false} FitJudgedNext(f: System, opts: Options, m: Cas.Blobs, ps: seq<Rel>, es: seq<Entry>, d: Disk, n: nat)
    requires Titled(m, ps, es) && Grounded(d) && n < |es| && n in FitJudged(f, opts, m, ps, es, d)
    ensures n + 1 in FitJudged(f, opts, m, ps, es, d)
  {
    OneMoreFits(f, opts, m, ps, es, d, n);
    AllFitNext(f, opts, m, ps, es, d, n);
  }

  lemma {:induction false} OneMoreFits(f: System, opts: Options, m: Cas.Blobs, ps: seq<Rel>, es: seq<Entry>, d: Disk, n: nat)
    requires Titled(m, ps, es) && Grounded(d) && n < |es|
    ensures AllEntries(f, opts, m, d, es[..n + 1]).Success? <==>
      AllEntries(f, opts, m, d, es[..n]).Success? && FitsInTurn(f, opts, m, ps, es, d, n)
  {
    OneMorePlaced(f, opts, m, d, es, n);
    if AllEntries(f, opts, m, d, es[..n]).Success? {
      InTurn(f, opts, m, ps, es, d, n);
    }
  }

  lemma {:induction false} OneMorePlaced(f: System, opts: Options, m: Cas.Blobs, d: Disk, es: seq<Entry>, n: nat)
    requires n < |es|
    ensures AllEntries(f, opts, m, d, es[..n + 1]).Success? <==>
      && AllEntries(f, opts, m, d, es[..n]).Success?
      && PlaceEntry(f, opts, m, AllEntries(f, opts, m, d, es[..n]).value, es[n]).Success?
  {
    assert es[..n + 1][..n] == es[..n];
  }

  lemma {:induction false} AllFitNext(f: System, opts: Options, m: Cas.Blobs, ps: seq<Rel>, es: seq<Entry>, d: Disk, n: nat)
    requires n < |ps| == |es|
    ensures AllFit(f, opts, m, ps, es, d, n + 1) <==> AllFit(f, opts, m, ps, es, d, n) && FitsInTurn(f, opts, m, ps, es, d, n)
  {
  }

  lemma {:induction false} EntriesFitIff(f: System, opts: Options, m: Cas.Blobs, ps: seq<Rel>, es: seq<Entry>, d: Disk, n: nat)
    requires Titled(m, ps, es) && Grounded(d) && n <= |es|
    ensures n in FitJudged(f, opts, m, ps, es, d)
  {
    if n == 0 {
      FitJudgedStart(f, opts, m, ps, es, d);
    } else {
      var last := n - 1;
      EntriesFitIff(f, opts, m, ps, es, d, last);
      FitJudgedNext(f, opts, m, ps, es, d, last);
    }
  }

  /** A restore succeeds if and only if no link's target leaves the root and, the
      entries before it being placed, every entry that is not left out fits where
      its path leads, links followed. */
  lemma {:induction false} RestoresIffAllFit(f: System, opts: Options, m: Cas.Blobs, ps: seq<Rel>, es: seq<Entry>)
    requires Titled(m, ps, es)
    ensures AllDirs(f, es).Success?
    ensures Rebuilt(f, opts, m, es).Success? <==> AllFit(f, opts, m, ps, es, AllDirs(f, es).value, |es|)
  {
    assert es[..|es|] == es;
    DirsAlwaysMade(f, m, ps, es, |es|);
    DirsGrounded(f, es);
    EntriesFitIff(f, opts, m, ps, es, AllDirs(f, es).value, |es|);
  }
}
