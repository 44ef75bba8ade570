/** Which lists of entries can be restored at all. `restore_tree` takes any manifest,
    not only one that a capture wrote; the merge of two trees writes such manifests. */
module Placement {

  import opened Bits
  import opened Base
  import opened Paths
  import opened Tree
  import opened FsCapture
  import opened FsRestore
  import opened FsRoundTrip
  import opened Ways
  import Cas

  // ---------- lists of entries ----------

  /** Entries with the paths they stand for: relative, free of backslashes and
      distinct, with whatever a restore needs of them. */
  ghost predicate Titled(m: Cas.Blobs, ps: seq<Rel>, es: seq<Entry>) {
    && |ps| == |es|
    && (forall i, j :: 0 <= i < j < |ps| ==> ps[i] != ps[j])
    && forall i :: 0 <= i < |ps| ==> TitledAt(m, ps[i], es[i])
  }

  ghost predicate TitledAt(m: Cas.Blobs, path: Rel, e: Entry) {
    && path != [] && IsRel(path) && Plain(path) && e.path == Render(path)
    && (e.kind == File ==> e.blob.Some? && e.blob.value in m)
    && (e.kind == Symlink ==> e.linkTarget.Some? && e.linkTarget.value != "")
  }

  predicate Escapes(path: Rel, e: Entry) {
    e.kind == Symlink && e.linkTarget.Some? && !IsAbsolute(e.linkTarget.value) && !StaysInside(path, e.linkTarget.value)
  }

  // ---------- pass 1 ----------

  ghost predicate DirAbove(ps: seq<Rel>, es: seq<Entry>, n: nat, q: Rel) {
    exists i :: 0 <= i < n && i < |ps| && i < |es| && es[i].kind == Dir && Upon(q, ps[i])
  }

  ghost predicate OnlyDirs(ps: seq<Rel>, es: seq<Entry>, n: nat, d: Disk) {
    forall q :: (q in d <==> DirAbove(ps, es, n, q)) && (q in d ==> d[q].Directory?)
  }

  lemma {:induction false} DirAboveStep(ps: seq<Rel>, es: seq<Entry>, n: nat, q: Rel)
    requires n < |ps| == |es|
    ensures DirAbove(ps, es, n + 1, q) <==> DirAbove(ps, es, n, q) || (es[n].kind == Dir && Upon(q, ps[n]))
  {
    if es[n].kind == Dir && Upon(q, ps[n]) {
      assert DirAbove(ps, es, n + 1, q);
    }
  }

  /** The first pass never fails: there is nothing but directories yet. */
  lemma {:induction false} DirsAlwaysMade(f: System, m: Cas.Blobs, ps: seq<Rel>, es: seq<Entry>, n: nat)
    requires Titled(m, ps, es) && n <= |es|
    ensures AllDirs(f, es[..n]).Success? && OnlyDirs(ps, es, n, AllDirs(f, es[..n]).value)
  {
    if n > 0 {
      DirsAlwaysMade(f, m, ps, es, n - 1);
      assert es[..n][..n - 1] == es[..n - 1];
      var d := AllDirs(f, es[..n - 1]).value;
      OneDirMade(f, m, ps, es, n - 1, d);
    }
  }

  lemma {:induction false} OneDirMade(f: System, m: Cas.Blobs, ps: seq<Rel>, es: seq<Entry>, n: nat, d: Disk)
    requires Titled(m, ps, es) && n < |es| && OnlyDirs(ps, es, n, d)
    ensures PlaceDir(f, d, es[n]).Success? && OnlyDirs(ps, es, n + 1, PlaceDir(f, d, es[n]).value)
  {
    assert TitledAt(m, ps[n], es[n]);
    if es[n].kind == Dir {
      DirAmongDirs(f, m, d, ps[n], es[n]);
    }
    MoreDirs(ps, es, n, d, PlaceDir(f, d, es[n]).value);
  }

  lemma {:induction false} MoreDirs(ps: seq<Rel>, es: seq<Entry>, n: nat, d: Disk, r: Disk)
    requires n < |ps| == |es| && OnlyDirs(ps, es, n, d)
    requires forall q :: (q in r <==> q in d || (es[n].kind == Dir && Upon(q, ps[n]))) && (q in r ==> r[q].Directory?)
    ensures OnlyDirs(ps, es, n + 1, r)
  {
    forall q
      ensures DirAbove(ps, es, n + 1, q) <==> DirAbove(ps, es, n, q) || (es[n].kind == Dir && Upon(q, ps[n]))
    {
      DirAboveStep(ps, es, n, q);
    }
  }

  lemma {:induction false} DirAmongDirs(f: System, m: Cas.Blobs, d: Disk, path: Rel, e: Entry)
    requires TitledAt(m, path, e) && e.kind == Dir && forall q :: q in d ==> d[q].Directory?
    ensures PlaceDir(f, d, e).Success?
    ensures
      var r := PlaceDir(f, d, e).value;
      forall q :: (q in r <==> q in d || Upon(q, path)) && (q in r ==> r[q].Directory?)
  {
    SafeRendered(path);
    MakeDirsIff(f, d, path);
    var made := MakeDirs(f, d, path).value;
    DirsOnTheWay(made, path);
    ModeAt(f, made, path, ModeBits(e.mode));
  }

  lemma {:induction false} DirsOnTheWay(d: Disk, path: Rel)
    requires path != [] && forall q :: Upon(q, path) ==> q in d && d[q].Directory?
    ensures path in d && Unlinked(d, path) && DirsAbove(d, path)
  {
    UponSelf(path);
    forall q | Upon(q, DirOf(path))
      ensures IsDir(d, q)
    {
      UponStep(q, path);
    }
  }

  /** `set_permissions` where no link is in the way. */
  lemma {:induction false} ModeAt(f: System, d: Disk, path: Rel, mode: nat)
    requires path in d && path != [] && ".." !in path && Unlinked(d, path) && DirsAbove(d, path)
    ensures SetMode(f, d, path, mode) == d[path := WithMode(d[path], mode)]
  {
    UnlinkedWay(d, path, f.links);
    UnlinkedSlot(f, d, path);
  }

  // ---------- pass 2 ----------

  /** Some of the first `n` entries lies at `q`. */
  ghost predicate LiesAt(opts: Options, ps: seq<Rel>, es: seq<Entry>, n: nat, q: Rel) {
    exists i :: 0 <= i < n && i < |ps| && i < |es| && Lies(opts, es[i]) && ps[i] == q
  }

  /** Some of the first `n` entries lies below `q`. */
  ghost predicate LiesBelow(opts: Options, ps: seq<Rel>, es: seq<Entry>, n: nat, q: Rel) {
    exists i :: 0 <= i < n && i < |ps| && i < |es| && Lies(opts, es[i]) && Upon(q, DirOf(ps[i]))
  }

  /** Some of the first `n` entries is a link that lies at `q`. */
  ghost predicate LinkLiesAt(opts: Options, ps: seq<Rel>, es: seq<Entry>, n: nat, q: Rel) {
    exists i :: 0 <= i < n && i < |ps| && i < |es| && es[i].kind == Symlink && Lies(opts, es[i]) && ps[i] == q
  }

  /** After `n` entries of the second pass: directories where one is asked for or
      something lies below, and files and links where they lie. */
  ghost predicate Laid(opts: Options, ps: seq<Rel>, es: seq<Entry>, n: nat, d: Disk) {
    forall q :: LaidAt(opts, ps, es, n, d, q)
  }

  ghost predicate LaidAt(opts: Options, ps: seq<Rel>, es: seq<Entry>, n: nat, d: Disk, q: Rel) {
    && (q in d && d[q].Directory? <==> DirAbove(ps, es, |es|, q) || LiesBelow(opts, ps, es, n, q))
    && (q in d && !d[q].Directory? <==> LiesAt(opts, ps, es, n, q))
    && (q in d && d[q].Link? ==> LinkLiesAt(opts, ps, es, n, q))
  }

  /** An entry that lies above another that is laid or asked for as a directory. */
  predicate Shadow(opts: Options, ps: seq<Rel>, es: seq<Entry>, i: nat, j: nat)
    requires i < |ps| == |es| && j < |ps|
  {
    Lies(opts, es[i]) && (es[j].kind == Dir || Lies(opts, es[j])) && Upon(ps[i], DirOf(ps[j]))
  }

  /** No such pair among the first `n` entries and the directories. */
  ghost predicate ClearTo(opts: Options, ps: seq<Rel>, es: seq<Entry>, n: nat)
    requires n <= |ps| == |es|
  {
    forall i, j :: 0 <= i < n && 0 <= j < |ps| && (j < n || es[j].kind == Dir) ==> !Shadow(opts, ps, es, i, j)
  }

  ghost predicate StayTo(ps: seq<Rel>, es: seq<Entry>, n: nat)
    requires n <= |ps| == |es|
  {
    forall i :: 0 <= i < n ==> !Escapes(ps[i], es[i])
  }

  /** A kept link, and later a file or link below it: where the link leads decides. */
  predicate Through(opts: Options, ps: seq<Rel>, es: seq<Entry>, i: nat, j: nat)
    requires i < |ps| == |es| && j < |ps|
  {
    es[i].kind == Symlink && i < j && Lies(opts, es[j]) && Shadow(opts, ps, es, i, j)
  }

  /** No entry is to be restored through a link. */
  ghost predicate Untangled(opts: Options, ps: seq<Rel>, es: seq<Entry>)
    requires |ps| == |es|
  {
    forall i, j :: 0 <= i < |ps| && 0 <= j < |ps| ==> !Through(opts, ps, es, i, j)
  }

  /** A file above another kept entry, or a link above a directory or above an
      entry that comes before it. */
  ghost predicate Barred(opts: Options, ps: seq<Rel>, es: seq<Entry>)
    requires |ps| == |es|
  {
    exists i, j :: 0 <= i < |ps| && 0 <= j < |ps| && Shadow(opts, ps, es, i, j) && !Through(opts, ps, es, i, j)
  }

  /** Where no link is in the way, the path leads where it says once its
      directories are made. */
  lemma {:induction false} WayToLay(f: System, d: Disk, path: Rel)
    requires path != [] && ".." !in path && Unlinked(d, path)
    ensures
      var r := MakeDirs(f, d, DirOf(path));
      match r
      case Failure(e) => e == OnDisk && !WayFree(d, DirOf(path))
      case Success(made) =>
        && WayFree(d, DirOf(path)) && WayMade(d, DirOf(path), made)
        && Unlinked(made, path) && DirsAbove(made, path) && (path in made <==> path in d)
        && Resolve(made, [], path, f.links) == Lands(path) && Slot(f, made, path) == Lands(path)
  {
    var up := DirOf(path);
    NoUpSteps(path);
    UponSelf(path);
    forall q
      ensures Upon(q, path) <==> q == path || Upon(q, up)
    {
      UponStep(q, path);
    }
    MakeDirsIff(f, d, up);
    if MakeDirs(f, d, up).Success? {
      var made := MakeDirs(f, d, up).value;
      UnlinkedWay(made, path, f.links);
      UnlinkedSlot(f, made, path);
    }
  }

  /** What becomes of a file or link whose path nothing has taken. */
  ghost predicate LayOutcome(d: Disk, path: Rel, e: Entry, r: Outcome) {
    && (r.Success? <==> !Escapes(path, e) && WayFree(d, DirOf(path)) && path !in d)
    && (r.Success? ==> LaidOn(d, path, e.kind, r.value))
    && (r.Failure? ==> r.error == if Escapes(path, e) then EscapingLink else OnDisk)
  }

  /** Laying one more file or link where no link is in the way, at a path where no
      file or link is yet. */
  lemma {:induction false} LayOne(f: System, opts: Options, m: Cas.Blobs, d: Disk, path: Rel, e: Entry)
    requires TitledAt(m, path, e) && Lies(opts, e) && Unlinked(d, path)
    requires path in d ==> d[path].Directory?
    ensures LayOutcome(d, path, e, PlaceEntry(f, opts, m, d, e))
  {
    SafeRendered(path);
    if e.kind == File {
      LayFile(f, m, d, path, e);
    } else {
      LayLink(f, opts, m, d, path, e);
    }
  }

  lemma {:induction false} LaidOnMade(d: Disk, path: Rel, made: Disk, node: Node, kind: Kind)
    requires WayMade(d, DirOf(path), made) && path !in made && !node.Directory? && (node.Link? ==> kind == Symlink)
    ensures LaidOn(d, path, kind, made[path := node])
  {
  }

  /** A file written where its path leads, and its permission bits. */
  lemma {:induction false} WrittenFile(f: System, d: Disk, path: Rel, bytes: Bytes, mode: nat)
    requires path != [] && ".." !in path && path !in d && Unlinked(d, path) && DirsAbove(d, path)
    ensures WriteFile(f, d, path, bytes).Success?
    ensures SetMode(f, WriteFile(f, d, path, bytes).value, path, mode) == d[path := Regular(mode, bytes)]
  {
    UnlinkedWay(d, path, f.links);
    var r := d[path := Regular(f.fileMode, bytes)];
    ModeAt(f, r, path, mode);
    assert r[path := Regular(mode, bytes)] == d[path := Regular(mode, bytes)];
  }

  lemma {:induction false} LayFile(f: System, m: Cas.Blobs, d: Disk, path: Rel, e: Entry)
    requires TitledAt(m, path, e) && e.kind == File && Unlinked(d, path)
    requires path in d ==> d[path].Directory?
    ensures LayOutcome(d, path, e, PlaceFile(f, m, d, path, e))
  {
    WayToLay(f, d, path);
    match MakeDirs(f, d, DirOf(path))
    case Failure(_) =>
    case Success(made) =>
      if path in made {
        assert PlaceFile(f, m, d, path, e) == Failure(OnDisk);
      } else {
        WrittenFile(f, made, path, m[e.blob.value], ModeBits(e.mode));
        LaidOnMade(d, path, made, Regular(ModeBits(e.mode), m[e.blob.value]), File);
      }
  }

  lemma {:induction false} LayLink(f: System, opts: Options, m: Cas.Blobs, d: Disk, path: Rel, e: Entry)
    requires TitledAt(m, path, e) && e.kind == Symlink && Lies(opts, e) && Unlinked(d, path)
    requires path in d ==> d[path].Directory?
    ensures LayOutcome(d, path, e, PlaceLink(f, opts, d, path, e))
  {
    WayToLay(f, d, path);
    match MakeDirs(f, d, DirOf(path))
    case Failure(_) =>
    case Success(made) =>
      if path !in made {
        LaidOnMade(d, path, made, Link(e.linkTarget.value), Symlink);
      }
  }

  /** `r` is `d` with the directories above `path` and something at `path`. */
  ghost predicate LaidOn(d: Disk, path: Rel, kind: Kind, r: Disk) {
    && (forall q :: q in r <==> q in d || Upon(q, DirOf(path)) || q == path)
    && (forall q :: q in d ==> r[q] == d[q])
    && (forall q :: Upon(q, DirOf(path)) ==> q in r && r[q].Directory?)
    && path in r && !r[path].Directory? && (r[path].Link? ==> kind == Symlink)
  }

  /** What the entry at `n` adds to the pairs that must not be. */
  lemma {:induction false} ClearStep(opts: Options, m: Cas.Blobs, ps: seq<Rel>, es: seq<Entry>, n: nat)
    requires Titled(m, ps, es) && n < |es| && ClearTo(opts, ps, es, n)
    ensures ClearTo(opts, ps, es, n + 1) <==>
      (Lies(opts, es[n]) ==> !AboveLies(opts, ps, es, n, ps[n]) && !Wanted(opts, ps, es, n, ps[n]))
  {
    assert TitledAt(m, ps[n], es[n]);
    if Lies(opts, es[n]) {
      if ClearTo(opts, ps, es, n + 1) {
        if AboveLies(opts, ps, es, n, ps[n]) {
          var i :| 0 <= i < n && Lies(opts, es[i]) && Upon(ps[i], DirOf(ps[n]));
          assert Shadow(opts, ps, es, i, n);
        }
        if Wanted(opts, ps, es, n, ps[n]) {
          WantedIsShadow(opts, m, ps, es, n);
        }
      }
      forall i, j | 0 <= i < n + 1 && 0 <= j < |ps| && (j < n + 1 || es[j].kind == Dir) && Shadow(opts, ps, es, i, j)
        ensures AboveLies(opts, ps, es, n, ps[n]) || Wanted(opts, ps, es, n, ps[n])
      {
        NewShadow(opts, m, ps, es, n, i, j);
      }
    }
  }

  /** A file or link among the first `n` is above `path`. */
  ghost predicate AboveLies(opts: Options, ps: seq<Rel>, es: seq<Entry>, n: nat, path: Rel) {
    exists i :: 0 <= i < n && i < |ps| && i < |es| && Lies(opts, es[i]) && Upon(ps[i], DirOf(path))
  }

  /** A directory is needed at `q`. */
  ghost predicate Wanted(opts: Options, ps: seq<Rel>, es: seq<Entry>, n: nat, q: Rel) {
    DirAbove(ps, es, |es|, q) || LiesBelow(opts, ps, es, n, q)
  }

  lemma {:induction false} WantedIsShadow(opts: Options, m: Cas.Blobs, ps: seq<Rel>, es: seq<Entry>, n: nat)
    requires Titled(m, ps, es) && n < |es| && Lies(opts, es[n]) && Wanted(opts, ps, es, n, ps[n])
    ensures !ClearTo(opts, ps, es, n + 1)
  {
    if DirAbove(ps, es, |es|, ps[n]) {
      var j :| 0 <= j < |es| && es[j].kind == Dir && Upon(ps[n], ps[j]);
      assert TitledAt(m, ps[j], es[j]);
      assert j != n;
      UponStep(ps[n], ps[j]);
      assert Shadow(opts, ps, es, n, j);
    } else {
      var j :| 0 <= j < n && Lies(opts, es[j]) && Upon(ps[n], DirOf(ps[j]));
      assert Shadow(opts, ps, es, n, j);
    }
  }

  lemma {:induction false} NewShadow(opts: Options, m: Cas.Blobs, ps: seq<Rel>, es: seq<Entry>, n: nat, i: nat, j: nat)
    requires Titled(m, ps, es) && n < |es| && ClearTo(opts, ps, es, n)
    requires i < n + 1 && j < |ps| && (j < n + 1 || es[j].kind == Dir)
    requires Shadow(opts, ps, es, i, j)
    ensures Lies(opts, es[n]) && (AboveLies(opts, ps, es, n, ps[n]) || Wanted(opts, ps, es, n, ps[n]))
  {
    assert TitledAt(m, ps[i], es[i]) && TitledAt(m, ps[j], es[j]);
    UponStep(ps[i], ps[j]);
    assert !Upon(ps[j], DirOf(ps[j]));
  }

  /** Whether the entry at `n` can be laid is decided by the entries before it. */
  lemma {:induction false} WayIsClear(opts: Options, m: Cas.Blobs, ps: seq<Rel>, es: seq<Entry>, n: nat, d: Disk)
    requires Titled(m, ps, es) && n < |es| && Laid(opts, ps, es, n, d)
    ensures WayFree(d, DirOf(ps[n])) <==> !AboveLies(opts, ps, es, n, ps[n])
    ensures ps[n] in d ==> d[ps[n]].Directory?
    ensures Lies(opts, es[n]) ==> (ps[n] in d <==> Wanted(opts, ps, es, n, ps[n]))
  {
    if AboveLies(opts, ps, es, n, ps[n]) {
      var i :| 0 <= i < n && Lies(opts, es[i]) && Upon(ps[i], DirOf(ps[n]));
      assert LaidAt(opts, ps, es, n, d, ps[i]) && LiesAt(opts, ps, es, n, ps[i]);
      assert ps[i] in d && !d[ps[i]].Directory?;
    }
    if q :| Upon(q, DirOf(ps[n])) && q in d && !d[q].Directory? {
      assert LaidAt(opts, ps, es, n, d, q) && LiesAt(opts, ps, es, n, q);
      var i :| 0 <= i < n && Lies(opts, es[i]) && ps[i] == q;
      assert AboveLies(opts, ps, es, n, ps[n]);
    }
    assert LaidAt(opts, ps, es, n, d, ps[n]);
    assert forall i :: 0 <= i < n ==> ps[i] != ps[n];
  }

  lemma {:induction false} LaidStep(opts: Options, ps: seq<Rel>, es: seq<Entry>, n: nat, d: Disk, r: Disk)
    requires n < |ps| == |es| && Laid(opts, ps, es, n, d) && Lies(opts, es[n])
    requires LaidOn(d, ps[n], es[n].kind, r) && ps[n] !in d && WayFree(d, DirOf(ps[n]))
    ensures Laid(opts, ps, es, n + 1, r)
  {
    assert !Upon(ps[n], DirOf(ps[n]));
    var next := n + 1;
    forall q
      ensures LaidAt(opts, ps, es, next, r, q)
    {
      LiesStep(opts, ps, es, n, q);
      assert LaidAt(opts, ps, es, n, d, q) && LaidAt(opts, ps, es, n, d, ps[n]);
    }
  }

  lemma {:induction false} LiesStep(opts: Options, ps: seq<Rel>, es: seq<Entry>, n: nat, q: Rel)
    requires n < |ps| == |es|
    ensures LiesBelow(opts, ps, es, n + 1, q) <==> LiesBelow(opts, ps, es, n, q) || (Lies(opts, es[n]) && Upon(q, DirOf(ps[n])))
    ensures LiesAt(opts, ps, es, n + 1, q) <==> LiesAt(opts, ps, es, n, q) || (Lies(opts, es[n]) && q == ps[n])
    ensures LinkLiesAt(opts, ps, es, n + 1, q) <==>
      LinkLiesAt(opts, ps, es, n, q) || (es[n].kind == Symlink && Lies(opts, es[n]) && q == ps[n])
  {
    if Lies(opts, es[n]) && Upon(q, DirOf(ps[n])) {
      assert LiesBelow(opts, ps, es, n + 1, q);
    }
    if Lies(opts, es[n]) && q == ps[n] {
      assert LiesAt(opts, ps, es, n + 1, q);
      assert es[n].kind == Symlink ==> LinkLiesAt(opts, ps, es, n + 1, q);
    }
  }

  lemma {:induction false} NoLinkInWay(opts: Options, m: Cas.Blobs, ps: seq<Rel>, es: seq<Entry>, n: nat, d: Disk)
    requires Titled(m, ps, es) && n < |es| && Laid(opts, ps, es, n, d) && Untangled(opts, ps, es) && Lies(opts, es[n])
    ensures Unlinked(d, ps[n])
  {
    assert TitledAt(m, ps[n], es[n]);
    forall q | Upon(q, ps[n]) && q in d
      ensures !d[q].Link?
    {
      assert LaidAt(opts, ps, es, n, d, q);
      if d[q].Link? {
        var i :| 0 <= i < n && es[i].kind == Symlink && Lies(opts, es[i]) && ps[i] == q;
        UponStep(q, ps[n]);
        assert Through(opts, ps, es, i, n);
      }
    }
  }

  /** One entry of the second pass. */
  lemma {:induction false} EntryIff(f: System, opts: Options, m: Cas.Blobs, ps: seq<Rel>, es: seq<Entry>, n: nat, d: Disk)
    requires Titled(m, ps, es) && n < |es| && Laid(opts, ps, es, n, d) && ClearTo(opts, ps, es, n)
    requires Untangled(opts, ps, es)
    ensures PlaceEntry(f, opts, m, d, es[n]).Success? <==> ClearTo(opts, ps, es, n + 1) && !Escapes(ps[n], es[n])
    ensures PlaceEntry(f, opts, m, d, es[n]).Success? ==> Laid(opts, ps, es, n + 1, PlaceEntry(f, opts, m, d, es[n]).value)
    ensures PlaceEntry(f, opts, m, d, es[n]).Failure? ==>
      PlaceEntry(f, opts, m, d, es[n]).error == if Escapes(ps[n], es[n]) then EscapingLink else OnDisk
  {
    assert TitledAt(m, ps[n], es[n]);
    ClearStep(opts, m, ps, es, n);
    if Lies(opts, es[n]) {
      WayIsClear(opts, m, ps, es, n, d);
      NoLinkInWay(opts, m, ps, es, n, d);
      LayOne(f, opts, m, d, ps[n], es[n]);
      if PlaceEntry(f, opts, m, d, es[n]).Success? {
        LaidStep(opts, ps, es, n, d, PlaceEntry(f, opts, m, d, es[n]).value);
      }
    } else {
      LeftOut(f, opts, m, d, ps[n], es[n]);
      var next := n + 1;
      forall q
        ensures LaidAt(opts, ps, es, next, d, q)
      {
        assert LaidAt(opts, ps, es, n, d, q);
        LiesStep(opts, ps, es, n, q);
      }
    }
  }

  lemma {:induction false} LeftOut(f: System, opts: Options, m: Cas.Blobs, d: Disk, path: Rel, e: Entry)
    requires TitledAt(m, path, e) && !Lies(opts, e)
    ensures PlaceEntry(f, opts, m, d, e) == Success(d) && !Escapes(path, e)
  {
    SafeRendered(path);
  }

  /** The second pass over the first `n` entries succeeds exactly when none of them
      escapes or shadows. */
  ghost predicate LaidIff(opts: Options, ps: seq<Rel>, es: seq<Entry>, n: nat, r: Outcome)
    requires n <= |ps| == |es|
  {
    match r
    case Success(d) => ClearTo(opts, ps, es, n) && StayTo(ps, es, n) && Laid(opts, ps, es, n, d)
    case Failure(e) => e != LeavesRoot && (!StayTo(ps, es, n) || (!ClearTo(opts, ps, es, n) && e == OnDisk))
  }

  lemma {:induction false} LaidIffNone(opts: Options, ps: seq<Rel>, es: seq<Entry>, d: Disk)
    requires |ps| == |es| && OnlyDirs(ps, es, |es|, d)
    ensures LaidIff(opts, ps, es, 0, Success(d))
  {
  }

  lemma {:induction false} LaidIffOne(opts: Options, ps: seq<Rel>, es: seq<Entry>, n: nat, r: Outcome)
    requires n < |ps| == |es| && ClearTo(opts, ps, es, n) && StayTo(ps, es, n)
    requires r.Success? <==> ClearTo(opts, ps, es, n + 1) && !Escapes(ps[n], es[n])
    requires r.Success? ==> Laid(opts, ps, es, n + 1, r.value)
    requires r.Failure? ==> r.error == if Escapes(ps[n], es[n]) then EscapingLink else OnDisk
    ensures LaidIff(opts, ps, es, n + 1, r)
  {
    assert StayTo(ps, es, n + 1) <==> !Escapes(ps[n], es[n]);
  }

  lemma {:induction false} LaidIffStep(f: System, opts: Options, m: Cas.Blobs, ps: seq<Rel>, es: seq<Entry>, n: nat, r: Outcome)
    requires Titled(m, ps, es) && Untangled(opts, ps, es) && n < |es| && LaidIff(opts, ps, es, n, r)
    ensures LaidIff(opts, ps, es, n + 1, PlacedNext(f, opts, m, r, es[n]))
  {
    match r
    case Success(d) =>
      EntryIff(f, opts, m, ps, es, n, d);
      LaidIffOne(opts, ps, es, n, PlaceEntry(f, opts, m, d, es[n]));
    case Failure(_) =>
      assert StayTo(ps, es, n + 1) ==> StayTo(ps, es, n);
      assert ClearTo(opts, ps, es, n + 1) ==> ClearTo(opts, ps, es, n);
  }

  /** The second pass over the first `n` entries. */
  function PassedTo(f: System, opts: Options, m: Cas.Blobs, d: Disk, es: seq<Entry>, n: nat): Outcome
    requires n <= |es|
  {
    AllEntries(f, opts, m, d, es[..n])
  }

  /** The lengths up to which the second pass does what its entries say. */
  ghost function Judged(f: System, opts: Options, m: Cas.Blobs, ps: seq<Rel>, es: seq<Entry>, d: Disk): set<nat>
    requires |ps| == |es|
  {
    set n: nat | n <= |es| && LaidIff(opts, ps, es, n, PassedTo(f, opts, m, d, es, n))
  }

  lemma {:induction false} JudgedNext(f: System, opts: Options, m: Cas.Blobs, ps: seq<Rel>, es: seq<Entry>, d: Disk, n: nat)
    requires Titled(m, ps, es) && Untangled(opts, ps, es) && n in Judged(f, opts, m, ps, es, d) && n < |es|
    ensures n + 1 in Judged(f, opts, m, ps, es, d)
  {
    assert es[..n + 1][..n] == es[..n];
    LaidIffStep(f, opts, m, ps, es, n, PassedTo(f, opts, m, d, es, n));
  }

  lemma {:induction false} SecondPassIff(f: System, opts: Options, m: Cas.Blobs, ps: seq<Rel>, es: seq<Entry>, d: Disk, n: nat)
    requires Titled(m, ps, es) && Untangled(opts, ps, es) && n <= |es| && OnlyDirs(ps, es, |es|, d)
    ensures n in Judged(f, opts, m, ps, es, d)
  {
    if n == 0 {
      LaidIffNone(opts, ps, es, d);
    } else {
      SecondPassIff(f, opts, m, ps, es, d, n - 1);
      JudgedNext(f, opts, m, ps, es, d, n - 1);
    }
  }

  /** A link that leaves the root fails the restore. */
  lemma {:induction false} RestoredStay(f: System, opts: Options, m: Cas.Blobs, ps: seq<Rel>, es: seq<Entry>)
    requires Titled(m, ps, es) && Rebuilt(f, opts, m, es).Success?
    ensures StayTo(ps, es, |es|)
  {
    var d := AllDirs(f, es).value;
    forall i | 0 <= i < |es|
      ensures !Escapes(ps[i], es[i])
    {
      assert TitledAt(m, ps[i], es[i]);
      SafeRendered(ps[i]);
      EntryStands(f, opts, m, d, es, i);
    }
  }

  lemma {:induction false} BarredFails(f: System, opts: Options, m: Cas.Blobs, ps: seq<Rel>, es: seq<Entry>)
    requires Titled(m, ps, es) && Barred(opts, ps, es)
    ensures Rebuilt(f, opts, m, es).Failure?
  {
    var i, j :| 0 <= i < |ps| && 0 <= j < |ps| && Shadow(opts, ps, es, i, j) && !Through(opts, ps, es, i, j);
    assert TitledAt(m, ps[i], es[i]) && TitledAt(m, ps[j], es[j]);
    ShadowFails(f, opts, m, ps, es, i, j);
  }

  lemma {:induction false} ShadowFails(f: System, opts: Options, m: Cas.Blobs, ps: seq<Rel>, es: seq<Entry>, i: nat, j: nat)
    requires |ps| == |es| && i < |ps| && j < |ps| && TitledAt(m, ps[i], es[i]) && TitledAt(m, ps[j], es[j])
    requires Shadow(opts, ps, es, i, j) && !Through(opts, ps, es, i, j)
    ensures Rebuilt(f, opts, m, es).Failure?
  {
    SafeRendered(ps[i]);
    SafeRendered(ps[j]);
    UponSelf(ps[i]);
    if es[i].kind == File {
      FileAboveFails(f, opts, m, es, i, j);
    } else {
      LinkAboveFails(f, opts, m, es, i, j);
    }
  }

  /** Restoring a list of entries fails if a link leaves the root or an entry is
      barred by another. Where nothing is to be restored through a link this is all
      that can go wrong, and the restore stays below the root. */
  lemma {:induction false} RestorableIff(f: System, opts: Options, m: Cas.Blobs, ps: seq<Rel>, es: seq<Entry>)
    requires Titled(m, ps, es)
    ensures Rebuilt(f, opts, m, es).Success? ==> StayTo(ps, es, |es|) && !Barred(opts, ps, es)
    ensures Untangled(opts, ps, es) ==>
      && (Rebuilt(f, opts, m, es).Success? <==> StayTo(ps, es, |es|) && !Barred(opts, ps, es))
      && (StayTo(ps, es, |es|) && Barred(opts, ps, es) ==> Rebuilt(f, opts, m, es) == Failure(OnDisk))
      && Rebuilt(f, opts, m, es) != Failure(LeavesRoot)
  {
    if Rebuilt(f, opts, m, es).Success? {
      RestoredStay(f, opts, m, ps, es);
    }
    if Barred(opts, ps, es) {
      BarredFails(f, opts, m, ps, es);
    }
    if Untangled(opts, ps, es) {
      UntangledRestores(f, opts, m, ps, es);
    }
  }

  lemma {:induction false} UntangledRestores(f: System, opts: Options, m: Cas.Blobs, ps: seq<Rel>, es: seq<Entry>)
    requires Titled(m, ps, es) && Untangled(opts, ps, es)
    ensures Rebuilt(f, opts, m, es).Success? <==> StayTo(ps, es, |es|) && !Barred(opts, ps, es)
    ensures StayTo(ps, es, |es|) && Barred(opts, ps, es) ==> Rebuilt(f, opts, m, es) == Failure(OnDisk)
    ensures Rebuilt(f, opts, m, es) != Failure(LeavesRoot)
  {
    assert es[..|es|] == es;
    DirsAlwaysMade(f, m, ps, es, |es|);
    SecondPassIff(f, opts, m, ps, es, AllDirs(f, es).value, |es|);
    ClearIffNotBarred(opts, ps, es);
  }

  lemma {:induction false} ClearIffNotBarred(opts: Options, ps: seq<Rel>, es: seq<Entry>)
    requires |ps| == |es| && Untangled(opts, ps, es)
    ensures ClearTo(opts, ps, es, |es|) <==> !Barred(opts, ps, es)
  {
    forall i, j | 0 <= i < |es| && 0 <= j < |es| && Shadow(opts, ps, es, i, j)
      ensures Barred(opts, ps, es)
    {
      assert !Through(opts, ps, es, i, j);
    }
  }
}
