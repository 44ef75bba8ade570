/** Restoring through links: examples. A kept link above a kept file: the restore may
    go through it, fail, or leave the root. The check of a link's target reads names
    and does not follow links. */
module LinkedMerge {

  import opened Bits
  import opened Base
  import opened Sorting
  import opened Paths
  import opened Tree
  import opened FsCapture
  import opened FsRestore
  import opened WorldMerge
  import opened WorldMergeLaws
  import opened MergeRestore
  import Algebra = WorldMergeAlgebra
  import Cas

  function LinkTo(path: string, target: string): Entry { Entry(path, "0777", 0, Symlink, None, Some(target)) }

  /** The texts of a link at `cur`, a file `x` below it, and the place it points to. */
  ghost predicate Names(cur: string, x: string, to: string, k: string, l: string, v: string) {
    && IsName(cur) && IsName(x) && IsName(to) && cur != to
    && SafePath(k) && SafePath(l) && SafePath(v) && v != ""
    && Parts(k) == [cur] && Parts(l) == [cur, x] && Parts(v) == [to]
    && StrLe(k, l) && StrLe(l, v) && StrLe(k, v)
  }

  /** There are such texts. */
  lemma {:induction false} NamesText()
    ensures Names("cur", "x", "v2", "cur", "cur/x", "v2")
  {
    TextOfOne("cur");
    TextOfOne("v2");
    TextOfTwo("cur", "x");
    assert "cur" + "/" + "x" == "cur/x";
    PrefixTextLe("cur", "/x");
    assert "cur" + "/x" == "cur/x";
  }

  lemma {:induction false} TextOfOne(name: string)
    requires IsName(name) && '\\' !in name
    ensures Parts(name) == [name] && SafePath(name)
  {
    PlainText(name);
    assert Join([name]) == name && Render([name]) == name;
    PathRoundTrip([name]);
  }

  lemma {:induction false} TextOfTwo(name: string, below: string)
    requires IsName(name) && IsName(below) && '\\' !in name && '\\' !in below
    ensures Parts(name + "/" + below) == [name, below] && SafePath(name + "/" + below)
  {
    assert [name, below][1..] == [below] && Join([below]) == below;
    assert Join([name, below]) == name + "/" + below;
    PlainJoin([name, below]);
    PlainText(Join([name, below]));
    PathRoundTrip([name, below]);
  }

  // ---------- one entry after another ----------

  lemma {:induction false} EntriesOfThree(f: System, opts: Options, m: Cas.Blobs, d: Disk, e: Entry, g: Entry, h: Entry)
    ensures AllEntries(f, opts, m, d, [e]) == PlaceEntry(f, opts, m, d, e)
    ensures AllEntries(f, opts, m, d, [e, g]) ==
      match PlaceEntry(f, opts, m, d, e)
      case Failure(error) => Failure(error)
      case Success(r) => PlaceEntry(f, opts, m, r, g)
    ensures AllEntries(f, opts, m, d, [e, g, h]) ==
      match AllEntries(f, opts, m, d, [e, g])
      case Failure(error) => Failure(error)
      case Success(r) => PlaceEntry(f, opts, m, r, h)
  {
    assert [e][..0] == [] && [e, g][..1] == [e] && [e, g, h][..2] == [e, g];
  }

  lemma {:induction false} LinkPlaced(f: System, opts: Options, m: Cas.Blobs, d: Disk, cur: string, to: string, k: string, v: string)
    requires IsName(cur) && IsName(to) && Parts(k) == [cur] && SafePath(k) && Parts(v) == [to] && SafePath(v) && v != ""
    requires [cur] !in d
    ensures PlaceEntry(f, opts, m, d, LinkTo(k, v)) == Success(d[[cur] := Link(v)])
  {
    assert DirOf([cur]) == [] && [] + [cur] == [cur];
    assert Follow([], [to]) == Follow([to], []) by {
      assert [] + [to] == [to] && [to][1..] == [];
    }
  }

  /** A link to a directory stands for it. */
  lemma {:induction false} DirBehind(f: System, d: Disk, cur: string, to: string, v: string)
    requires IsName(cur) && IsName(to) && Parts(v) == [to] && SafePath(v) && f.links > 0
    requires [cur] in d && d[[cur]] == Link(v) && IsDir(d, [to]) && [to] in d
    ensures Resolve(d, [], [cur], f.links) == Lands([to]) && MakeDirs(f, d, [cur]) == Success(d)
  {
    assert DirOf([cur]) == [] && [] + [cur] == [cur] && [] + [to] == [to];
    assert [cur][1..] == [] && [to] + [] == [to] && [to][1..] == [];
    assert Resolve(d, [], [to], f.links - 1) == Lands([to]);
    assert Slot(f, d, [cur]) == Lands([cur]);
  }

  lemma {:induction false} SlotBehind(f: System, d: Disk, cur: string, x: string, to: string, v: string)
    requires IsName(cur) && IsName(to) && Parts(v) == [to] && SafePath(v) && f.links > 0
    requires [cur] in d && d[[cur]] == Link(v) && IsDir(d, [to]) && [to] in d
    ensures Slot(f, d, [cur, x]) == Lands([to, x])
  {
    hide Resolve;
    DirBehind(f, d, cur, to, v);
    assert DirOf([cur, x]) == [cur] && [to] + [x] == [to, x];
  }

  /** The kernel follows the link on the way, and `x` goes where it points. */
  lemma {:induction false} FileThrough(f: System, opts: Options, m: Cas.Blobs, d: Disk, cur: string, x: string, to: string,
                                       k: string, l: string, v: string, b: Digest, size: u64)
    requires Names(cur, x, to, k, l, v) && f.links > 0 && b in m
    requires [cur] in d && d[[cur]] == Link(v) && IsDir(d, [to]) && [to, x] !in d
    ensures PlaceEntry(f, opts, m, d, FileAt(l, b, size)) == Success(d[[to, x] := Regular(ModeBits("0644"), m[b])])
  {
    hide ModeBits, Resolve, Slot, MakeDirs;
    assert DirOf([cur, x]) == [cur];
    DirBehind(f, d, cur, to, v);
    FileBehind(f, d, cur, x, to, v);
    var r := d[[to, x] := Regular(f.fileMode, m[b])];
    FileBehind(f, r, cur, x, to, v);
    SlotBehind(f, r, cur, x, to, v);
    assert r[[to, x] := Regular(ModeBits("0644"), m[b])] == d[[to, x] := Regular(ModeBits("0644"), m[b])];
  }

  lemma {:induction false} FileBehind(f: System, d: Disk, cur: string, x: string, to: string, v: string)
    requires IsName(cur) && IsName(x) && IsName(to) && Parts(v) == [to] && SafePath(v) && f.links > 0
    requires [cur] in d && d[[cur]] == Link(v) && IsDir(d, [to]) && [to] in d && ([to, x] in d ==> !d[[to, x]].Link?)
    ensures Resolve(d, [], [cur, x], f.links) == Lands([to, x])
  {
    assert [] + [cur] == [cur] && [] + [to] == [to] && [to] + [x] == [to, x];
    assert [cur, x][1..] == [x] && [to, x][1..] == [x];
    assert Resolve(d, [to], [x], f.links - 1) == Lands([to, x]);
    assert Resolve(d, [], [to, x], f.links - 1) == Lands([to, x]);
  }

  /** A link that points to nothing is in the way. */
  lemma {:induction false} FileNowhere(f: System, opts: Options, m: Cas.Blobs, d: Disk, cur: string, x: string, to: string,
                                       k: string, l: string, v: string, b: Digest, size: u64)
    requires Names(cur, x, to, k, l, v) && b in m
    requires [cur] in d && d[[cur]] == Link(v) && [to] !in d
    ensures PlaceEntry(f, opts, m, d, FileAt(l, b, size)) == Failure(OnDisk)
  {
    assert DirOf([cur, x]) == [cur] && DirOf([cur]) == [] && [] + [cur] == [cur] && [] + [to] == [to];
    assert [cur][1..] == [] && [to] + [] == [to];
    assert f.links > 0 ==> Resolve(d, [], [to], f.links - 1) == Lands([to]);
    assert f.links > 0 ==> Resolve(d, [], [cur], f.links) == Lands([to]);
    assert Slot(f, d, [cur]) == Lands([cur]);
    assert MakeDirs(f, d, [cur]) == IsThere(f, d, [cur]) == Failure(OnDisk);
  }

  // ---------- merges without conflicts ----------

  /** A made the directory `k` a link; B left it alone and put the file `l` into it.
      The directory `v` that the link points to is there, or is not. */
  function Relinked(k: string, l: string, v: string, b: Digest, size: u64, there: bool): Trees {
    var rest: map<string, Entry> := if there then map[v := FolderAt(v)] else map[];
    Trees(rest[k := LinkTo(k, v)], rest[k := FolderAt(k)][l := FileAt(l, b, size)], rest[k := FolderAt(k)])
  }

  lemma {:induction false} RelinkedOutputs(p: Prim, m: Cas.Blobs, k: string, l: string, v: string, b: Digest, size: u64, there: bool)
    requires k != l && k != v && l != v
    ensures
      var t := Relinked(k, l, v, b, size, there);
      && OutputAt(p, m, t, k) == Some(LinkTo(k, v)) && OutputAt(p, m, t, l) == Some(FileAt(l, b, size))
      && OutputAt(p, m, t, v) == (if there then Some(FolderAt(v)) else None)
      && !ConflictedAt(t, k) && !ConflictedAt(t, l) && !ConflictedAt(t, v)
  {
  }

  function RelinkedPaths(k: string, l: string, v: string, there: bool): seq<string> { if there then [k, l, v] else [k, l] }

  function RelinkedEntries(k: string, l: string, v: string, b: Digest, size: u64, there: bool): seq<Entry> {
    if there then [LinkTo(k, v), FileAt(l, b, size), FolderAt(v)] else [LinkTo(k, v), FileAt(l, b, size)]
  }

  /** The merge has no conflict and keeps the link and the file. */
  lemma {:induction false} RelinkedMerged(p: Prim, m: Cas.Blobs, k: string, l: string, v: string, b: Digest, size: u64, there: bool)
    requires k != l && k != v && l != v && StrLe(k, l) && StrLe(l, v) && StrLe(k, v)
    ensures
      var t, paths := Relinked(k, l, v, b, size, there), RelinkedPaths(k, l, v, there);
      var r := Algebra.Run(p, m, t, paths);
      && AllPaths(t, paths) && r.Some?
      && r.value.blobs == m && r.value.conflicts == [] && r.value.merged == RelinkedEntries(k, l, v, b, size, there)
  {
    var t, paths := Relinked(k, l, v, b, size, there), RelinkedPaths(k, l, v, there);
    RelinkedOutputs(p, m, k, l, v, b, size, there);
    Algebra.QuietRun(p, m, t, paths);
    Algebra.NoConflicts(p, t, paths);
    RelinkedLists(p, m, k, l, v, b, size, there);
  }

  lemma {:induction false} RelinkedLists(p: Prim, m: Cas.Blobs, k: string, l: string, v: string, b: Digest, size: u64, there: bool)
    requires k != l && k != v && l != v
    ensures Entries(p, m, Relinked(k, l, v, b, size, there), RelinkedPaths(k, l, v, there)) == RelinkedEntries(k, l, v, b, size, there)
  {
    var t := Relinked(k, l, v, b, size, there);
    RelinkedOutputs(p, m, k, l, v, b, size, there);
    EntriesOfTwo(p, m, t, k, l);
    EntriesOfTwo(p, m, t, l, v);
    assert [k, l, v][1..] == [l, v];
    assert Entries(p, m, t, [k, l, v]) == Optional(OutputAt(p, m, t, k)) + Entries(p, m, t, [l, v]);
  }

  /** A merge that is clean and restores: `x` ends up in the directory that the link
      points to. */
  lemma {:induction false} MergeRestoresThroughLink(p: Prim, f: System, opts: Options, m: Cas.Blobs, cur: string, x: string, to: string,
                                                    k: string, l: string, v: string, b: Digest, size: u64)
    requires Names(cur, x, to, k, l, v) && b in m && f.links > 0
    ensures
      var t, paths := Relinked(k, l, v, b, size, true), RelinkedPaths(k, l, v, true);
      var r := Algebra.Run(p, m, t, paths);
      && AllPaths(t, paths) && r.Some? && r.value.conflicts == []
      && Rebuilt(f, opts, r.value.blobs, r.value.merged) ==
           Success(map[[to] := Directory(ModeBits("0755")), [cur] := Link(v), [to, x] := Regular(ModeBits("0644"), m[b])])
  {
    assert k != l && k != v && l != v;
    RelinkedMerged(p, m, k, l, v, b, size, true);
    ThroughRebuilt(f, opts, m, cur, x, to, k, l, v, b, size);
  }

  lemma {:induction false} ThroughRebuilt(f: System, opts: Options, m: Cas.Blobs, cur: string, x: string, to: string,
                                          k: string, l: string, v: string, b: Digest, size: u64)
    requires Names(cur, x, to, k, l, v) && f.links > 0 && b in m
    ensures Rebuilt(f, opts, m, [LinkTo(k, v), FileAt(l, b, size), FolderAt(v)]) ==
      Success(map[[to] := Directory(ModeBits("0755")), [cur] := Link(v), [to, x] := Regular(ModeBits("0644"), m[b])])
  {
    var e, g, h := LinkTo(k, v), FileAt(l, b, size), FolderAt(v);
    var d0: Disk := map[[to] := Directory(ModeBits("0755"))];
    OneFolder(f, e, g, h, to);
    assert [cur] != [to];
    LinkPlaced(f, opts, m, d0, cur, to, k, v);
    var d1 := d0[[cur] := Link(v)];
    FileThrough(f, opts, m, d1, cur, x, to, k, l, v, b, size);
    EntriesOfThree(f, opts, m, d0, e, g, h);
    assert d1[[to, x] := Regular(ModeBits("0644"), m[b])]
        == map[[to] := Directory(ModeBits("0755")), [cur] := Link(v), [to, x] := Regular(ModeBits("0644"), m[b])];
  }

  lemma {:induction false} OneFolder(f: System, e: Entry, g: Entry, h: Entry, to: string)
    requires e.kind != Dir && g.kind != Dir && h == FolderAt(h.path) && SafePath(h.path) && Parts(h.path) == [to] && IsName(to)
    ensures AllDirs(f, [e, g]) == Success(map[])
    ensures AllDirs(f, [e, g, h]) == Success(map[[to] := Directory(ModeBits("0755"))])
  {
    assert [e][..0] == [] && [e, g][..1] == [e] && [e, g, h][..2] == [e, g];
    assert AllDirs(f, [e]) == Success(map[]) && AllDirs(f, [e, g]) == Success(map[]);
    assert DirOf([to]) == [] && [] + [to] == [to];
    var d: Disk := map[[to] := Directory(f.dirMode)];
    assert Slot(f, map[], [to]) == Lands([to]);
    assert MakeDirs(f, map[], [to]) == Success(d);
    assert Resolve(d, [], [to], f.links) == Lands([to]);
    assert SetMode(f, d, [to], ModeBits("0755")) == map[[to] := Directory(ModeBits("0755"))];
  }

  /** The same merge, but the link points to nothing: it does not restore. */
  lemma {:induction false} MergeStopsAtLink(p: Prim, f: System, opts: Options, m: Cas.Blobs, cur: string, x: string, to: string,
                                            k: string, l: string, v: string, b: Digest, size: u64)
    requires Names(cur, x, to, k, l, v) && b in m
    ensures
      var t, paths := Relinked(k, l, v, b, size, false), RelinkedPaths(k, l, v, false);
      var r := Algebra.Run(p, m, t, paths);
      && AllPaths(t, paths) && r.Some? && r.value.conflicts == []
      && Rebuilt(f, opts, r.value.blobs, r.value.merged) == Failure(OnDisk)
  {
    assert k != l && k != v && l != v;
    RelinkedMerged(p, m, k, l, v, b, size, false);
    NowhereRebuilt(f, opts, m, cur, x, to, k, l, v, b, size);
  }

  lemma {:induction false} NowhereRebuilt(f: System, opts: Options, m: Cas.Blobs, cur: string, x: string, to: string,
                                          k: string, l: string, v: string, b: Digest, size: u64)
    requires Names(cur, x, to, k, l, v) && b in m
    ensures Rebuilt(f, opts, m, [LinkTo(k, v), FileAt(l, b, size)]) == Failure(OnDisk)
  {
    var e, g, h := LinkTo(k, v), FileAt(l, b, size), FolderAt(v);
    OneFolder(f, e, g, h, to);
    LinkPlaced(f, opts, m, map[], cur, to, k, v);
    FileNowhere(f, opts, m, map[[cur] := Link(v)], cur, x, to, k, l, v, b, size);
    EntriesOfThree(f, opts, m, map[], e, g, h);
  }

  // ---------- out of the root ----------

  /** A directory, a link in it to the root, a link through both, and a file below that. */
  function Outward(dir: string, up: string, far: string, x: string, kd: string, ku: string, kf: string, kx: string,
                   tu: string, tf: string, b: Digest, size: u64): seq<Entry> {
    [FolderAt(kd), LinkTo(ku, tu), LinkTo(kf, tf), FileAt(kx, b, size)]
  }

  ghost predicate OutwardNames(dir: string, up: string, far: string, x: string,
                               kd: string, ku: string, kf: string, kx: string, tu: string, tf: string) {
    OutwardEntries(dir, up, far, x, kd, ku, kf, kx) && OutwardTargets(dir, up, tu, tf)
  }

  ghost predicate OutwardEntries(dir: string, up: string, far: string, x: string, kd: string, ku: string, kf: string, kx: string) {
    && IsName(dir) && IsName(up) && IsName(far) && IsName(x) && dir != far
    && SafePath(kd) && SafePath(ku) && SafePath(kf) && SafePath(kx)
    && Parts(kd) == [dir] && Parts(ku) == [dir, up] && Parts(kf) == [far] && Parts(kx) == [far, x]
  }

  ghost predicate OutwardTargets(dir: string, up: string, tu: string, tf: string) {
    && tu != "" && tf != "" && !IsAbsolute(tu) && !IsAbsolute(tf)
    && Parts(tu) == [".."] && Parts(tf) == [dir, up, ".."]
  }

  /** There are such texts. */
  lemma {:induction false} OutwardText()
    ensures OutwardNames("d", "e", "f", "x", "d", "d/e", "f", "f/x", "..", "d/e/..")
  {
    EntryTexts();
    TargetTexts();
  }

  lemma {:induction false} EntryTexts()
    ensures OutwardEntries("d", "e", "f", "x", "d", "d/e", "f", "f/x")
  {
    TextOfOne("d");
    TextOfOne("f");
    PairTexts();
  }

  lemma {:induction false} PairTexts()
    ensures Parts("d/e") == ["d", "e"] && SafePath("d/e") && Parts("f/x") == ["f", "x"] && SafePath("f/x")
  {
    TextOfTwo("d", "e");
    TextOfTwo("f", "x");
    assert "d" + "/" + "e" == "d/e" && "f" + "/" + "x" == "f/x";
  }

  lemma {:induction false} TargetTexts()
    ensures OutwardTargets("d", "e", "..", "d/e/..")
  {
    UpText();
    assert "e" + "/" + ".." == "e/.." && "d" + "/" + "e/.." == "d/e/..";
    NamesThenUp("d", "e", "e/..", "d/e/..");
  }

  lemma {:induction false} UpText()
    ensures Pieces("..") == [".."] && Parts("..") == [".."]
  {
    assert Slash("..") == 2 && ".."[..2] == "..";
    assert [".."][1..] == [];
  }

  lemma {:induction false} NamesThenUp(a: string, b: string, rest: string, s: string)
    requires IsName(a) && IsName(b) && rest == b + "/" + ".." && s == a + "/" + rest
    ensures Parts(s) == [a, b, ".."]
  {
    UpText();
    OnePiece(b, "..");
    OnePiece(a, rest);
    assert [a] + ([b] + [".."]) == [a, b, ".."];
    NoDotsIn(a, b);
  }

  lemma {:induction false} NoDotsIn(a: string, b: string)
    requires IsName(a) && IsName(b)
    ensures WithoutDots([a, b, ".."]) == [a, b, ".."]
  {
    assert [a, b, ".."][1..] == [b, ".."] && [b, ".."][1..] == [".."] && [".."][1..] == [];
    assert WithoutDots([".."]) == [".."];
    assert WithoutDots([b, ".."]) == [b, ".."];
  }

  lemma {:induction false} OnePiece(a: string, rest: string)
    requires IsName(a)
    ensures Pieces(a + "/" + rest) == [a] + Pieces(rest)
  {
    var s := a + "/" + rest;
    SlashInName(a, "/" + rest);
    assert a + ("/" + rest) == s && Slash("/" + rest) == 0;
    assert s[..|a|] == a && s[|a| + 1..] == rest;
  }

  /** Both links pass the check, and the file's way leaves the root. */
  lemma {:induction false} CheckedLinksLeaveRoot(f: System, opts: Options, m: Cas.Blobs, dir: string, up: string, far: string, x: string,
                                                 kd: string, ku: string, kf: string, kx: string, tu: string, tf: string,
                                                 b: Digest, size: u64)
    requires OutwardNames(dir, up, far, x, kd, ku, kf, kx, tu, tf) && f.links >= 2
    requires b in m
    ensures StaysInside([dir, up], tu) && StaysInside([far], tf)
    ensures Rebuilt(f, opts, m, Outward(dir, up, far, x, kd, ku, kf, kx, tu, tf, b, size)) == Failure(LeavesRoot)
  {
    OutwardStays(dir, up, far, tu, tf);
    var e0, e1, e2, e3 := FolderAt(kd), LinkTo(ku, tu), LinkTo(kf, tf), FileAt(kx, b, size);
    var d0: Disk := map[[dir] := Directory(ModeBits("0755"))];
    FolderFirst(f, e0, e1, e2, e3, dir);
    assert [e0][..0] == [] && [e0, e1][..1] == [e0] && [e0, e1, e2][..2] == [e0, e1] && [e0, e1, e2, e3][..3] == [e0, e1, e2];
    var d1 := d0[[dir, up] := Link(tu)];
    var d2 := d1[[far] := Link(tf)];
    InnerLinkPlaced(f, opts, m, d0, dir, up, ku, tu);
    OuterLinkPlaced(f, opts, m, d1, far, kf, tf);
    FileLeaves(f, opts, m, d2, dir, up, far, x, kx, tu, tf, b, size);
    assert AllEntries(f, opts, m, d0, [e0]) == Success(d0);
    assert AllEntries(f, opts, m, d0, [e0, e1]) == Success(d1);
    assert AllEntries(f, opts, m, d0, [e0, e1, e2]) == Success(d2);
  }

  lemma {:induction false} FolderFirst(f: System, h: Entry, e: Entry, g: Entry, i: Entry, to: string)
    requires e.kind != Dir && g.kind != Dir && i.kind != Dir
    requires h == FolderAt(h.path) && SafePath(h.path) && Parts(h.path) == [to] && IsName(to)
    ensures AllDirs(f, [h, e, g, i]) == Success(map[[to] := Directory(ModeBits("0755"))])
  {
    OneFolder(f, e, g, h, to);
    assert [h][..0] == [] && [h, e][..1] == [h] && [h, e, g][..2] == [h, e] && [h, e, g, i][..3] == [h, e, g];
    assert [e, g, h][..2] == [e, g];
    assert PlaceDir(f, map[], h) == Success(map[[to] := Directory(ModeBits("0755"))]);
    assert AllDirs(f, [h]) == PlaceDir(f, map[], h);
    assert AllDirs(f, [h, e]) == AllDirs(f, [h]) && AllDirs(f, [h, e, g]) == AllDirs(f, [h, e]);
  }

  lemma {:induction false} InnerLinkPlaced(f: System, opts: Options, m: Cas.Blobs, d: Disk, dir: string, up: string,
                                           k: string, target: string)
    requires IsName(dir) && IsName(up) && Parts(k) == [dir, up] && SafePath(k) && target != ""
    requires IsDir(d, [dir]) && [dir, up] !in d && StaysInside([dir, up], target)
    ensures PlaceEntry(f, opts, m, d, LinkTo(k, target)) == Success(d[[dir, up] := Link(target)])
  {
    assert DirOf([dir, up]) == [dir] && DirOf([dir]) == [] && [] + [dir] == [dir] && [dir] + [up] == [dir, up];
    assert Resolve(d, [], [dir], f.links) == Lands([dir]);
    assert Slot(f, d, [dir]) == Lands([dir]);
    assert MakeDirs(f, d, [dir]) == Success(d);
  }

  lemma {:induction false} OuterLinkPlaced(f: System, opts: Options, m: Cas.Blobs, d: Disk, far: string, k: string, target: string)
    requires IsName(far) && Parts(k) == [far] && SafePath(k) && target != "" && [far] !in d && StaysInside([far], target)
    ensures PlaceEntry(f, opts, m, d, LinkTo(k, target)) == Success(d[[far] := Link(target)])
  {
    assert DirOf([far]) == [] && [] + [far] == [far];
  }

  lemma {:induction false} FileLeaves(f: System, opts: Options, m: Cas.Blobs, d: Disk, dir: string, up: string, far: string, x: string,
                                      k: string, tu: string, tf: string, b: Digest, size: u64)
    requires IsName(dir) && IsName(up) && IsName(far) && f.links >= 2 && b in m
    requires SafePath(k) && Parts(k) == [far, x] && !IsAbsolute(tu) && !IsAbsolute(tf)
    requires Parts(tu) == [".."] && Parts(tf) == [dir, up, ".."]
    requires IsDir(d, [dir]) && [dir, up] in d && d[[dir, up]] == Link(tu) && [far] in d && d[[far]] == Link(tf)
    ensures PlaceEntry(f, opts, m, d, FileAt(k, b, size)) == Failure(LeavesRoot)
  {
    assert DirOf([far, x]) == [far] && DirOf([far]) == [] && DirOf([dir]) == [];
    assert [] + [far] == [far] && [] + [dir] == [dir] && [dir] + [up] == [dir, up];
    assert [far][1..] == [] && [dir, up, ".."] + [] == [dir, up, ".."];
    assert [dir, up, ".."][1..] == [up, ".."] && [up, ".."][1..] == [".."] && ([".."] + [".."])[1..] == [".."];
    assert Resolve(d, [], [".."], f.links - 2) == Outside;
    assert Resolve(d, [dir], [".."] + [".."], f.links - 2) == Outside;
    assert Resolve(d, [dir], [up, ".."], f.links - 1) == Outside;
    assert Resolve(d, [], [dir, up, ".."], f.links - 1) == Outside;
    assert Resolve(d, [], [far], f.links) == Outside;
    assert Slot(f, d, [far]) == Lands([far]);
    assert MakeDirs(f, d, [far]) == Failure(LeavesRoot);
  }

  lemma {:induction false} OutwardStays(dir: string, up: string, far: string, tu: string, tf: string)
    requires IsName(dir) && IsName(up) && !IsAbsolute(tu) && !IsAbsolute(tf)
    requires Parts(tu) == [".."] && Parts(tf) == [dir, up, ".."]
    ensures StaysInside([dir, up], tu) && StaysInside([far], tf)
  {
    assert DirOf([dir, up]) == [dir] && DirOf([far]) == [];
    assert [".."][1..] == [] && [dir, up, ".."][1..] == [up, ".."] && [up, ".."][1..] == [".."];
    assert [] + [dir] == [dir] && [dir] + [up] == [dir, up] && [dir, up][..1] == [dir];
    assert Follow([dir], [".."]) == Follow([], []);
    assert Follow([dir, up], [".."]) == Follow([dir], []);
    assert Follow([dir], [up, ".."]) == Follow([dir, up], [".."]);
    assert Follow([], [dir, up, ".."]) == Follow([dir], [up, ".."]);
  }
}
