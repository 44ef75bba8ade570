/** Where paths lead while a tree is rebuilt. Without links in the way, resolution is
    what the names say. With links, where a path leads is settled once it leads to
    something: a restore only adds. */
module Ways {

  import opened Bits
  import opened Base
  import opened Paths
  import opened Tree
  import opened FsCapture
  import opened FsRestore
  import Cas

  // ---------- prefixes ----------

  /** `q` is `path` or a directory above it. */
  predicate Upon(q: Rel, path: Rel) { q != [] && q <= path }

  lemma {:induction false} UponStep(q: Rel, path: Rel)
    requires path != []
    ensures Upon(q, path) <==> q == path || Upon(q, DirOf(path))
  {
    var n := |path| - 1;
    if Upon(q, path) && q != path {
      assert |q| <= n && q == path[..|q|] && path[..n][..|q|] == path[..|q|];
    }
    if Upon(q, DirOf(path)) {
      assert q == path[..n][..|q|] && path[..n][..|q|] == path[..|q|];
    }
  }

  lemma {:induction false} UponSelf(path: Rel)
    requires path != []
    ensures Upon(path, path) && !Upon(path, DirOf(path))
  {
    assert |DirOf(path)| < |path|;
  }

  // ---------- no links in the way ----------

  ghost predicate Unlinked(d: Disk, path: Rel) { forall q :: Upon(q, path) && q in d ==> !d[q].Link? }

  ghost predicate DirsAbove(d: Disk, path: Rel) { forall q :: Upon(q, DirOf(path)) ==> IsDir(d, q) }

  lemma {:induction false} WayFrom(d: Disk, path: Rel, i: nat, links: nat)
    requires i <= |path| && ".." !in path && Unlinked(d, path)
    requires forall q :: Upon(q, path) && |q| <= i && |q| < |path| ==> IsDir(d, q)
    ensures Resolve(d, path[..i], path[i..], links) == if DirsAbove(d, path) then Lands(path) else Nowhere
    decreases |path| - i
  {
    if i == |path| {
      assert path[..i] == path;
      DirsAboveAre(d, path);
    } else {
      var next := path[..i + 1];
      assert path[i..][0] == path[i] && path[i] in path;
      assert next == path[..i] + [path[i]] && Upon(next, path);
      assert path[i..][1..] == path[i + 1..];
      if i + 1 == |path| {
        DirsAboveAre(d, path);
        assert next == path;
      } else if IsDir(d, next) {
        forall q | Upon(q, path) && |q| <= i + 1
          ensures IsDir(d, q)
        {
          assert |q| == i + 1 ==> q == next;
        }
        WayFrom(d, path, i + 1, links);
      } else {
        UponStep(next, path);
      }
    }
  }

  lemma {:induction false} DirsAboveAre(d: Disk, path: Rel)
    ensures DirsAbove(d, path) <==> forall q :: Upon(q, path) && |q| < |path| ==> IsDir(d, q)
  {
    if path != [] {
      forall q
        ensures Upon(q, path) && |q| < |path| <==> Upon(q, DirOf(path))
      {
        UponStep(q, path);
        UponSelf(path);
      }
    }
  }

  /** Where no link is in the way, a path leads where its names say. */
  lemma {:induction false} UnlinkedWay(d: Disk, path: Rel, links: nat)
    requires ".." !in path && Unlinked(d, path)
    ensures Resolve(d, [], path, links) == if DirsAbove(d, path) then Lands(path) else Nowhere
  {
    assert path[..0] == [] && path[0..] == path;
    WayFrom(d, path, 0, links);
  }

  lemma {:induction false} UnlinkedSlot(f: System, d: Disk, path: Rel)
    requires path != [] && ".." !in path && Unlinked(d, DirOf(path))
    ensures Slot(f, d, path) == if DirsAbove(d, path) then Lands(path) else Nowhere
  {
    var up := DirOf(path);
    UnlinkedWay(d, up, f.links);
    assert up + [path[|path| - 1]] == path;
    if up != [] {
      UponSelf(up);
      forall q
        ensures Upon(q, up) <==> q == up || Upon(q, DirOf(up))
      {
        UponStep(q, up);
      }
    }
  }

  /** Nothing on the way to `path`, itself included, is a file or a link. */
  ghost predicate WayFree(d: Disk, path: Rel) { forall q :: Upon(q, path) && q in d ==> d[q].Directory? }

  /** `r` is `d` with the directories on the way to `path`. */
  ghost predicate WayMade(d: Disk, path: Rel, r: Disk) {
    && (forall q :: q in r <==> q in d || Upon(q, path))
    && (forall q :: q in d ==> r[q] == d[q])
    && forall q :: Upon(q, path) ==> q in r && r[q].Directory?
  }

  /** Without links in the way `create_dir_all` succeeds exactly if no file is
      either, and then makes the directories that the names say. */
  lemma {:induction false} MakeDirsIff(f: System, d: Disk, path: Rel)
    requires ".." !in path && Unlinked(d, path)
    ensures MakeDirs(f, d, path).Success? <==> WayFree(d, path)
    ensures MakeDirs(f, d, path).Success? ==> WayMade(d, path, MakeDirs(f, d, path).value)
    ensures MakeDirs(f, d, path).Failure? ==> MakeDirs(f, d, path).error == OnDisk
    decreases |path|
  {
    if path != [] {
      var up := DirOf(path);
      forall q
        ensures Upon(q, path) <==> q == path || Upon(q, up)
      {
        UponStep(q, path);
      }
      UponSelf(path);
      MakeDirsIff(f, d, up);
      if MakeDirs(f, d, up).Success? {
        var made := MakeDirs(f, d, up).value;
        UnlinkedSlot(f, made, path);
        UnlinkedWay(made, path, f.links);
      }
    }
  }

  // ---------- a restore only adds ----------

  predicate SameKind(a: Node, b: Node) {
    match (a, b)
    case (Directory(_), Directory(_)) => true
    case (Regular(_, _), Regular(_, _)) => true
    case (Link(s), Link(t)) => s == t
    case _ => false
  }

  ghost predicate Grown(d: Disk, r: Disk) { forall q :: q in d ==> q in r && SameKind(d[q], r[q]) }

  /** The place is the root or something is there. */
  predicate Settled(d: Disk, place: Place) {
    match place
    case Lands(q) => q == [] || q in d
    case Outside => true
    case Nowhere => false
  }

  /** A path that leads to something, or out of the root, does so for good. */
  lemma {:induction false} SettledForGood(d: Disk, r: Disk, at: Rel, names: seq<string>, links: nat)
    requires Grown(d, r) && Settled(d, Resolve(d, at, names, links))
    ensures Resolve(r, at, names, links) == Resolve(d, at, names, links)
    decreases links, |names|
  {
    if names != [] {
      if names[0] == ".." {
        if at != [] {
          SettledForGood(d, r, DirOf(at), names[1..], links);
        }
      } else {
        var next := at + [names[0]];
        if next in d && d[next].Link? {
          if links > 0 && !IsAbsolute(d[next].target) {
            SettledForGood(d, r, at, Parts(d[next].target) + names[1..], links - 1);
          }
        } else if |names| > 1 {
          SettledForGood(d, r, next, names[1..], links);
        }
      }
    }
  }

  ghost predicate GrownOutcome(d: Disk, r: Outcome) { r.Success? ==> Grown(d, r.value) }

  lemma {:induction false} GrownTwice(d: Disk, e: Disk, r: Disk)
    requires Grown(d, e) && Grown(e, r)
    ensures Grown(d, r)
  {
  }

  lemma {:induction false} MakeDirsGrows(f: System, d: Disk, path: Rel)
    ensures GrownOutcome(d, MakeDirs(f, d, path))
    decreases |path|
  {
    if path != [] {
      MakeDirsGrows(f, d, DirOf(path));
    }
  }

  lemma {:induction false} PlaceDirGrows(f: System, d: Disk, e: Entry)
    ensures GrownOutcome(d, PlaceDir(f, d, e))
  {
    MakeDirsGrows(f, d, Parts(e.path));
  }

  lemma {:induction false} WriteGrows(f: System, d: Disk, path: Rel, bytes: Bytes, mode: nat)
    ensures WriteFile(f, d, path, bytes).Success? ==>
      Grown(d, WriteFile(f, d, path, bytes).value) && Grown(d, SetMode(f, WriteFile(f, d, path, bytes).value, path, mode))
  {
  }

  /** What is placed is added to the disk with the directories above it. */
  lemma {:induction false} PlacedOnMade(f: System, opts: Options, m: Cas.Blobs, d: Disk, e: Entry)
    requires PlaceEntry(f, opts, m, d, e).Success? && Lies(opts, e)
    ensures ".." !in Parts(e.path) && MakeDirs(f, d, DirOf(Parts(e.path))).Success?
    ensures Grown(MakeDirs(f, d, DirOf(Parts(e.path))).value, PlaceEntry(f, opts, m, d, e).value)
  {
    var path := Parts(e.path);
    if e.kind == File {
      WriteGrows(f, MakeDirs(f, d, DirOf(path)).value, path, m[e.blob.value], ModeBits(e.mode));
    }
  }

  lemma {:induction false} PlaceEntryGrows(f: System, opts: Options, m: Cas.Blobs, d: Disk, e: Entry)
    ensures GrownOutcome(d, PlaceEntry(f, opts, m, d, e))
  {
    var r := PlaceEntry(f, opts, m, d, e);
    if r.Success? && Lies(opts, e) {
      PlacedOnMade(f, opts, m, d, e);
      MakeDirsGrows(f, d, DirOf(Parts(e.path)));
      GrownTwice(d, MakeDirs(f, d, DirOf(Parts(e.path))).value, r.value);
    }
  }

  lemma {:induction false} DirsGrow(f: System, es: seq<Entry>, n: nat)
    requires n <= |es| && AllDirs(f, es).Success?
    ensures AllDirs(f, es[..n]).Success? && Grown(AllDirs(f, es[..n]).value, AllDirs(f, es).value)
    decreases |es| - n
  {
    if n == |es| {
      assert es[..n] == es;
    } else {
      var k := |es| - 1;
      DirsGrow(f, es[..k], n);
      assert es[..k][..n] == es[..n];
      PlaceDirGrows(f, AllDirs(f, es[..k]).value, es[k]);
    }
  }

  lemma {:induction false} EntriesGrow(f: System, opts: Options, m: Cas.Blobs, d: Disk, es: seq<Entry>, n: nat)
    requires n <= |es| && AllEntries(f, opts, m, d, es).Success?
    ensures AllEntries(f, opts, m, d, es[..n]).Success?
    ensures Grown(AllEntries(f, opts, m, d, es[..n]).value, AllEntries(f, opts, m, d, es).value)
    decreases |es| - n
  {
    if n == |es| {
      assert es[..n] == es;
    } else {
      var k := |es| - 1;
      EntriesGrow(f, opts, m, d, es[..k], n);
      assert es[..k][..n] == es[..n];
      PlaceEntryGrows(f, opts, m, AllEntries(f, opts, m, d, es[..k]).value, es[k]);
    }
  }

  // ---------- every directory made can be reached ----------

  ghost predicate LeadsToDir(f: System, d: Disk, q: Rel) {
    Resolve(d, [], q, f.links).Lands? && IsDir(d, Resolve(d, [], q, f.links).path)
  }

  lemma {:induction false} LeadsStill(f: System, d: Disk, r: Disk, q: Rel)
    requires Grown(d, r) && LeadsToDir(f, d, q)
    ensures LeadsToDir(f, r, q)
  {
    SettledForGood(d, r, [], q, f.links);
  }

  /** Resolution knows directories and links only: files make no difference. */
  ghost predicate SameWays(d: Disk, r: Disk) {
    && (forall q :: IsDir(d, q) <==> IsDir(r, q))
    && forall q :: LinkAt(d, q) == LinkAt(r, q)
  }

  function LinkAt(d: Disk, q: Rel): Option<string> {
    if q in d && d[q].Link? then Some(d[q].target) else None
  }

  lemma {:induction false} SameWaysResolve(d: Disk, r: Disk, at: Rel, names: seq<string>, links: nat)
    requires SameWays(d, r)
    ensures Resolve(r, at, names, links) == Resolve(d, at, names, links)
    decreases links, |names|
  {
    if names != [] {
      if names[0] == ".." {
        if at != [] {
          SameWaysResolve(d, r, DirOf(at), names[1..], links);
        }
      } else {
        var next := at + [names[0]];
        assert LinkAt(d, next) == LinkAt(r, next);
        if LinkAt(d, next).Some? {
          if links > 0 && !IsAbsolute(d[next].target) {
            SameWaysResolve(d, r, at, Parts(d[next].target) + names[1..], links - 1);
          }
        } else if |names| > 1 {
          assert IsDir(d, next) <==> IsDir(r, next);
          SameWaysResolve(d, r, next, names[1..], links);
        }
      }
    }
  }

  /** A path that leads to a directory, and one more name that is no link. */
  lemma {:induction false} OneMoreName(d: Disk, at: Rel, names: seq<string>, last: string, links: nat)
    requires Resolve(d, at, names, links).Lands? && last != ".."
    requires
      var dir := Resolve(d, at, names, links).path;
      IsDir(d, dir) && LinkAt(d, dir + [last]).None?
    ensures Resolve(d, at, names + [last], links) == Lands(Resolve(d, at, names, links).path + [last])
    decreases links, |names|
  {
    if names == [] {
      assert names + [last] == [last];
    } else {
      assert (names + [last])[1..] == names[1..] + [last];
      if names[0] == ".." {
        OneMoreName(d, DirOf(at), names[1..], last, links);
      } else {
        var next := at + [names[0]];
        if next in d && d[next].Link? {
          var rest := Parts(d[next].target) + names[1..];
          assert Parts(d[next].target) + (names[1..] + [last]) == rest + [last];
          OneMoreName(d, at, rest, last, links - 1);
        } else if |names| > 1 {
          OneMoreName(d, next, names[1..], last, links);
        } else {
          assert names[1..] + [last] == [last];
          OneMoreName(d, next, [], last, links);
        }
      }
    }
  }

  /** What is above a directory is one. */
  ghost predicate Rooted(d: Disk) { forall q, i :: IsDir(d, q) && 0 <= i <= |q| ==> IsDir(d, q[..i]) }

  /** A longer path that leads somewhere leads through a directory, or has left the
      root before. */
  lemma {:induction false} LeadsThrough(d: Disk, at: Rel, names: seq<string>, more: seq<string>, links: nat)
    requires !Resolve(d, at, names + more, links).Nowhere? && more != [] && IsDir(d, at) && Rooted(d)
    ensures
      var place := Resolve(d, at, names, links);
      place.Outside? || (place.Lands? && IsDir(d, place.path))
    decreases links, |names|
  {
    if names != [] {
      assert (names + more)[1..] == names[1..] + more;
      if names[0] == ".." {
        if at != [] {
          LeadsThrough(d, DirOf(at), names[1..], more, links);
        }
      } else {
        var next := at + [names[0]];
        if next in d && d[next].Link? {
          if links > 0 && !IsAbsolute(d[next].target) {
            var rest := Parts(d[next].target) + names[1..];
            assert Parts(d[next].target) + (names[1..] + more) == rest + more;
            LeadsThrough(d, at, rest, more, links - 1);
          }
        } else {
          LeadsThrough(d, next, names[1..], more, links);
        }
      }
    }
  }

  /** A path that has left the root does not come back. */
  lemma {:induction false} OutsideStays(d: Disk, at: Rel, names: seq<string>, more: seq<string>, links: nat)
    requires Resolve(d, at, names, links).Outside?
    ensures Resolve(d, at, names + more, links).Outside?
    decreases links, |names|
  {
    assert (names + more)[1..] == names[1..] + more;
    if names[0] == ".." {
      if at != [] {
        OutsideStays(d, DirOf(at), names[1..], more, links);
      }
    } else {
      var next := at + [names[0]];
      if next in d && d[next].Link? {
        if !IsAbsolute(d[next].target) {
          var rest := Parts(d[next].target) + names[1..];
          assert Parts(d[next].target) + (names[1..] + more) == rest + more;
          OutsideStays(d, at, rest, more, links - 1);
        }
      } else {
        OutsideStays(d, next, names[1..], more, links);
      }
    }
  }

  /** After `create_dir_all` every directory on the way can be reached. */
  lemma {:induction false} MadeLeads(f: System, d: Disk, path: Rel)
    requires ".." !in path && MakeDirs(f, d, path).Success?
    ensures forall q :: Upon(q, path) ==> LeadsToDir(f, MakeDirs(f, d, path).value, q)
    decreases |path|
  {
    if path != [] {
      var up := DirOf(path);
      MadeLeads(f, d, up);
      var made, r := MakeDirs(f, d, up).value, MakeDirs(f, d, path).value;
      MakeDirLeads(f, made, path);
      forall q | Upon(q, path)
        ensures LeadsToDir(f, r, q)
      {
        UponStep(q, path);
        if q != path {
          LeadsStill(f, made, r, q);
        }
      }
    }
  }

  /** A directory made where nothing was is reached by its path. */
  lemma {:induction false} NewLeads(f: System, d: Disk, path: Rel, mode: nat)
    requires path != [] && ".." !in path && Slot(f, d, path).Lands? && Slot(f, d, path).path !in d
    ensures Resolve(d[Slot(f, d, path).path := Directory(mode)], [], path, f.links) == Slot(f, d, path)
  {
    var up, last, p := DirOf(path), path[|path| - 1], Slot(f, d, path).path;
    var r := d[p := Directory(mode)];
    SettledForGood(d, r, [], up, f.links);
    OneMoreName(r, [], up, last, f.links);
    assert up + [last] == path;
  }

  lemma {:induction false} MakeDirLeads(f: System, d: Disk, path: Rel)
    requires path != [] && ".." !in path && MakeDir(f, d, path).Success?
    ensures Grown(d, MakeDir(f, d, path).value) && LeadsToDir(f, MakeDir(f, d, path).value, path)
  {
    if Slot(f, d, path).path !in d {
      NewLeads(f, d, path, f.dirMode);
    }
  }

  /** Creating directories that can be reached changes nothing. */
  lemma {:induction false} DirsAlreadyThere(f: System, d: Disk, path: Rel)
    requires ".." !in path && forall q :: Upon(q, path) ==> LeadsToDir(f, d, q)
    ensures MakeDirs(f, d, path) == Success(d)
    decreases |path|
  {
    if path != [] {
      var up, last := DirOf(path), path[|path| - 1];
      forall q
        ensures Upon(q, path) <==> q == path || Upon(q, up)
      {
        UponStep(q, path);
      }
      DirsAlreadyThere(f, d, up);
      assert up == [] || LeadsToDir(f, d, up) by {
        if up != [] {
          UponSelf(up);
        }
      }
      var dir := Resolve(d, [], up, f.links).path;
      assert up + [last] == path;
      if dir + [last] !in d {
        OneMoreName(d, [], up, last, f.links);
      }
      assert LeadsToDir(f, d, path);
    }
  }

  ghost predicate LeadsToFile(f: System, d: Disk, path: Rel) {
    match Resolve(d, [], path, f.links)
    case Lands(p) => p != [] && p in d && d[p].Regular?
    case Outside => false
    case Nowhere => false
  }

  lemma {:induction false} SameWaysSlot(f: System, d: Disk, r: Disk, path: Rel)
    requires SameWays(d, r) && path != []
    ensures Slot(f, r, path) == Slot(f, d, path) && NamesLink(f, r, path) == NamesLink(f, d, path)
  {
    SameWaysResolve(d, r, [], DirOf(path), f.links);
    var slot := Slot(f, d, path);
    if slot.Lands? {
      assert LinkAt(d, slot.path) == LinkAt(r, slot.path);
    }
  }

  /** A file that is written changes no way. */
  lemma {:induction false} WrittenSameWays(f: System, d: Disk, path: Rel, bytes: Bytes)
    requires WriteFile(f, d, path, bytes).Success?
    ensures SameWays(d, WriteFile(f, d, path, bytes).value)
  {
  }

  /** Once a file is written it is reached by the path it was written to. */
  lemma {:induction false} WrittenLeads(f: System, d: Disk, path: Rel, bytes: Bytes)
    requires WriteFile(f, d, path, bytes).Success?
    ensures
      var p, r := Resolve(d, [], path, f.links).path, WriteFile(f, d, path, bytes).value;
      Resolve(r, [], path, f.links) == Lands(p) && p != [] && p in r && r[p].Regular?
  {
    var r := WriteFile(f, d, path, bytes).value;
    SameWaysResolve(d, r, [], path, f.links);
  }

  lemma {:induction false} FileStands(f: System, opts: Options, m: Cas.Blobs, d: Disk, e: Entry)
    requires e.kind == File && PlaceEntry(f, opts, m, d, e).Success?
    ensures LeadsToFile(f, PlaceEntry(f, opts, m, d, e).value, Parts(e.path))
  {
    var path := Parts(e.path);
    var made := MakeDirs(f, d, DirOf(path)).value;
    var written := WriteFile(f, made, path, m[e.blob.value]).value;
    WrittenLeads(f, made, path, m[e.blob.value]);
    SameWaysResolve(written, SetMode(f, written, path, ModeBits(e.mode)), [], path, f.links);
  }

  /** A file or link that is placed has directories above it. */
  lemma {:induction false} PlacedBelow(f: System, opts: Options, m: Cas.Blobs, d: Disk, e: Entry, q: Rel)
    requires PlaceEntry(f, opts, m, d, e).Success? && Lies(opts, e) && Upon(q, DirOf(Parts(e.path)))
    ensures LeadsToDir(f, PlaceEntry(f, opts, m, d, e).value, q)
  {
    var path, r := Parts(e.path), PlaceEntry(f, opts, m, d, e).value;
    PlacedOnMade(f, opts, m, d, e);
    NoUpSteps(path);
    MadeLeads(f, d, DirOf(path));
    LeadsStill(f, MakeDirs(f, d, DirOf(path)).value, r, q);
  }

  lemma {:induction false} NoUpSteps(path: Rel)
    requires ".." !in path
    ensures ".." !in DirOf(path)
  {
  }

  /** A file, or a link that is not left out. */
  predicate Lies(opts: Options, e: Entry) {
    e.kind == File
    || (e.kind == Symlink && e.linkTarget.Some? && (IsAbsolute(e.linkTarget.value) ==> opts.allowAbsoluteSymlinks))
  }

  /** What a restore puts on disk. */
  predicate IsKept(opts: Options, e: Entry) { e.kind == Dir || Lies(opts, e) }

  lemma {:induction false} DirStands(f: System, d: Disk, e: Entry, q: Rel)
    requires e.kind == Dir && PlaceDir(f, d, e).Success? && Upon(q, Parts(e.path))
    ensures LeadsToDir(f, PlaceDir(f, d, e).value, q)
  {
    var path, r := Parts(e.path), PlaceDir(f, d, e).value;
    MadeLeads(f, d, path);
    LeadsStill(f, MakeDirs(f, d, path).value, r, q);
  }

  // ---------- nothing is restored below a file ----------

  lemma {:induction false} EntryStands(f: System, opts: Options, m: Cas.Blobs, d: Disk, es: seq<Entry>, i: nat)
    requires i < |es| && AllEntries(f, opts, m, d, es).Success?
    ensures AllEntries(f, opts, m, d, es[..i]).Success?
    ensures PlaceEntry(f, opts, m, AllEntries(f, opts, m, d, es[..i]).value, es[i]).Success?
    ensures Grown(PlaceEntry(f, opts, m, AllEntries(f, opts, m, d, es[..i]).value, es[i]).value, AllEntries(f, opts, m, d, es).value)
  {
    EntriesGrow(f, opts, m, d, es, i + 1);
    assert es[..i + 1][..i] == es[..i];
  }

  lemma {:induction false} DirEntryStands(f: System, es: seq<Entry>, i: nat)
    requires i < |es| && AllDirs(f, es).Success?
    ensures AllDirs(f, es[..i]).Success? && PlaceDir(f, AllDirs(f, es[..i]).value, es[i]).Success?
    ensures Grown(PlaceDir(f, AllDirs(f, es[..i]).value, es[i]).value, AllDirs(f, es).value)
  {
    DirsGrow(f, es, i + 1);
    assert es[..i + 1][..i] == es[..i];
  }

  lemma {:induction false} FileInTheEnd(f: System, opts: Options, m: Cas.Blobs, es: seq<Entry>, i: nat)
    requires i < |es| && es[i].kind == File && Rebuilt(f, opts, m, es).Success?
    ensures LeadsToFile(f, Rebuilt(f, opts, m, es).value, Parts(es[i].path))
  {
    var d := AllDirs(f, es).value;
    EntryStands(f, opts, m, d, es, i);
    var before := AllEntries(f, opts, m, d, es[..i]).value;
    FileStands(f, opts, m, before, es[i]);
    SettledForGood(PlaceEntry(f, opts, m, before, es[i]).value, Rebuilt(f, opts, m, es).value, [], Parts(es[i].path), f.links);
  }

  lemma {:induction false} DirsInTheEnd(f: System, opts: Options, m: Cas.Blobs, es: seq<Entry>, j: nat, q: Rel)
    requires j < |es| && IsKept(opts, es[j]) && Rebuilt(f, opts, m, es).Success? && Upon(q, DirOf(Parts(es[j].path)))
    ensures LeadsToDir(f, Rebuilt(f, opts, m, es).value, q)
  {
    var d, r := AllDirs(f, es).value, Rebuilt(f, opts, m, es).value;
    if es[j].kind == Dir {
      DirEntryStands(f, es, j);
      var before := AllDirs(f, es[..j]).value;
      UponStep(q, Parts(es[j].path));
      DirStands(f, before, es[j], q);
      LeadsStill(f, PlaceDir(f, before, es[j]).value, d, q);
      EntriesGrow(f, opts, m, d, es, 0);
      LeadsStill(f, d, r, q);
    } else {
      EntryStands(f, opts, m, d, es, j);
      var before := AllEntries(f, opts, m, d, es[..j]).value;
      PlacedBelow(f, opts, m, before, es[j], q);
      LeadsStill(f, PlaceEntry(f, opts, m, before, es[j]).value, r, q);
    }
  }

  /** Whatever links there are: with a file above another kept entry, in any
      order, nothing is restored. */
  lemma {:induction false} FileAboveFails(f: System, opts: Options, m: Cas.Blobs, es: seq<Entry>, i: nat, j: nat)
    requires i < |es| && j < |es| && es[i].kind == File && IsKept(opts, es[j])
    requires Upon(Parts(es[i].path), DirOf(Parts(es[j].path)))
    ensures Rebuilt(f, opts, m, es).Failure?
  {
    if Rebuilt(f, opts, m, es).Success? {
      FileInTheEnd(f, opts, m, es, i);
      DirsInTheEnd(f, opts, m, es, j, Parts(es[i].path));
    }
  }

  // ---------- no link replaces a directory ----------

  /** The last name of the path is there, links before it followed. */
  ghost predicate Taken(f: System, d: Disk, q: Rel) { q != [] && Slot(f, d, q).Lands? && Slot(f, d, q).path in d }

  lemma {:induction false} TakenStill(f: System, d: Disk, r: Disk, q: Rel)
    requires Grown(d, r) && Taken(f, d, q)
    ensures Taken(f, r, q)
  {
    SettledForGood(d, r, [], DirOf(q), f.links);
  }

  lemma {:induction false} MadeTakes(f: System, d: Disk, path: Rel, q: Rel)
    requires MakeDirs(f, d, path).Success? && Upon(q, path)
    ensures Taken(f, MakeDirs(f, d, path).value, q)
    decreases |path|
  {
    var up := DirOf(path);
    var made, r := MakeDirs(f, d, up).value, MakeDirs(f, d, path).value;
    UponStep(q, path);
    assert Grown(made, r);
    if q == path {
      SettledForGood(made, r, [], up, f.links);
    } else {
      MadeTakes(f, d, up, q);
      TakenStill(f, made, r, q);
    }
  }

  lemma {:induction false} LinkNeedsRoom(f: System, opts: Options, m: Cas.Blobs, d: Disk, e: Entry)
    requires e.kind == Symlink && Lies(opts, e) && Taken(f, d, Parts(e.path))
    ensures PlaceEntry(f, opts, m, d, e).Failure?
  {
    var up := DirOf(Parts(e.path));
    MakeDirsGrows(f, d, up);
    if MakeDirs(f, d, up).Success? {
      TakenStill(f, d, MakeDirs(f, d, up).value, Parts(e.path));
    }
  }

  lemma {:induction false} EntryTakes(f: System, opts: Options, m: Cas.Blobs, d: Disk, e: Entry, q: Rel)
    requires PlaceEntry(f, opts, m, d, e).Success? && Lies(opts, e) && Upon(q, DirOf(Parts(e.path)))
    ensures Taken(f, PlaceEntry(f, opts, m, d, e).value, q)
  {
    PlacedOnMade(f, opts, m, d, e);
    var up := DirOf(Parts(e.path));
    MadeTakes(f, d, up, q);
    TakenStill(f, MakeDirs(f, d, up).value, PlaceEntry(f, opts, m, d, e).value, q);
  }

  lemma {:induction false} DirTakes(f: System, d: Disk, e: Entry, q: Rel)
    requires e.kind == Dir && PlaceDir(f, d, e).Success? && Upon(q, Parts(e.path))
    ensures Taken(f, PlaceDir(f, d, e).value, q)
  {
    var path := Parts(e.path);
    MadeTakes(f, d, path, q);
    TakenStill(f, MakeDirs(f, d, path).value, PlaceDir(f, d, e).value, q);
  }

  /** A kept link above a directory entry, or above a kept entry that comes before
      it, finds its place taken. */
  lemma {:induction false} LinkAboveFails(f: System, opts: Options, m: Cas.Blobs, es: seq<Entry>, i: nat, j: nat)
    requires i < |es| && j < |es| && es[i].kind == Symlink && Lies(opts, es[i])
    requires es[j].kind == Dir || (Lies(opts, es[j]) && j < i)
    requires Upon(Parts(es[i].path), DirOf(Parts(es[j].path)))
    ensures Rebuilt(f, opts, m, es).Failure?
  {
    if Rebuilt(f, opts, m, es).Success? {
      var d, q := AllDirs(f, es).value, Parts(es[i].path);
      EntryStands(f, opts, m, d, es, i);
      var before := AllEntries(f, opts, m, d, es[..i]).value;
      if es[j].kind == Dir {
        DirEntryStands(f, es, j);
        UponStep(q, Parts(es[j].path));
        DirTakes(f, AllDirs(f, es[..j]).value, es[j], q);
        TakenStill(f, PlaceDir(f, AllDirs(f, es[..j]).value, es[j]).value, d, q);
        EntriesGrow(f, opts, m, d, es[..i], 0);
        TakenStill(f, d, before, q);
      } else {
        EntryStands(f, opts, m, d, es[..i], j);
        assert es[..i][..j] == es[..j] && es[..i][j] == es[j];
        var early := AllEntries(f, opts, m, d, es[..j]).value;
        EntryTakes(f, opts, m, early, es[j], q);
        TakenStill(f, PlaceEntry(f, opts, m, early, es[j]).value, before, q);
      }
      LinkNeedsRoom(f, opts, m, before, es[i]);
    }
  }

  // ---------- what can be reached ----------

  /** Where a file can be written. */
  predicate RoomAt(d: Disk, p: Rel) { p != [] && (p in d ==> d[p].Regular?) }

  /** A directory that can be reached is found, not made. */
  lemma {:induction false} UpReached(f: System, d: Disk, up: Rel)
    requires Rooted(d) && ".." !in up && LeadsToDir(f, d, up)
    ensures MakeDirs(f, d, up) == Success(d)
  {
    forall q | Upon(q, up)
      ensures LeadsToDir(f, d, q)
    {
      if q != up {
        var rest := up[|q|..];
        assert q + rest == up && rest != [];
        LeadsThrough(d, [], q, rest, f.links);
        if Resolve(d, [], q, f.links).Outside? {
          OutsideStays(d, [], q, rest, f.links);
        }
      }
    }
    DirsAlreadyThere(f, d, up);
  }

  /** What a path that leads somewhere passes is there. */
  lemma {:induction false} ParentsReached(f: System, d: Disk, path: Rel)
    requires Rooted(d) && path != [] && ".." !in path && Resolve(d, [], path, f.links).Lands?
    ensures MakeDirs(f, d, DirOf(path)) == Success(d)
  {
    var up, last := DirOf(path), path[|path| - 1];
    assert up + [last] == path;
    LeadsThrough(d, [], up, [last], f.links);
    if Resolve(d, [], up, f.links).Outside? {
      OutsideStays(d, [], up, [last], f.links);
    }
    NoUpSteps(path);
    UpReached(f, d, up);
  }
}
