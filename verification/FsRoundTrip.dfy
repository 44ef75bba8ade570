/** Capture and restore undo each other: on which trees they do, and what becomes of
    the others. */
module FsRoundTrip {

  import opened Bits
  import opened Base
  import opened Sorting
  import opened Paths
  import opened Tree
  import opened FsCapture
  import opened FsRestore
  import opened Ways
  import Cas

  /** Every name of the tree is free of backslashes. */
  ghost predicate PlainTree(k: Disk) { forall path :: path in k ==> Plain(path) }

  ghost predicate PlainDirs(k: Disk) { forall path :: path in k && k[path].Directory? ==> Plain(path) }

  predicate Escaping(k: Disk, path: Rel)
    requires path in k
  {
    k[path].Link? && !IsAbsolute(k[path].target) && !StaysInside(path, k[path].target)
  }

  /** Absolute links are left out unless they were asked for. */
  predicate Returns(opts: Options, node: Node) {
    node.Link? && IsAbsolute(node.target) ==> opts.allowAbsoluteSymlinks
  }

  function Returning(opts: Options, k: Disk): Disk { map path | path in k && Returns(opts, k[path]) :: k[path] }

  /** `k` listed in the order of the manifest. */
  ghost predicate Listed(k: Disk, ps: seq<Rel>) {
    WellFormed(k) && Lists(ps, k.Keys, PathLe) && Within(ps, k)
  }

  function DirPart(k: Disk, ps: seq<Rel>): Disk { map path | path in k && path in ps && k[path].Directory? :: k[path] }

  /** All directories, and of `ps` what returns. */
  function Staged(opts: Options, k: Disk, ps: seq<Rel>): Disk {
    map path | path in k && (k[path].Directory? || (path in ps && Returns(opts, k[path]))) :: k[path]
  }

  // ---------- entries of a listed tree ----------

  lemma {:induction false} EntryAt(p: Prim, c: Settings, k: Disk, ps: seq<Rel>, n: nat)
    requires WellFormed(k) && Within(ps, k) && n < |ps|
    ensures GoodPath(k, ps[n])
    ensures EntriesOf(p, c, k, ps[..n + 1]) == EntriesOf(p, c, k, ps[..n]) + [EntryOf(p, c, ps[n], k[ps[n]])]
  {
    assert ps[..n + 1][..n] == ps[..n];
  }

  lemma {:induction false} EntriesOfKept(p: Prim, c: Settings, t: Disk, ps: seq<Rel>)
    requires WellFormed(t) && WellFormed(Unpruned(c, t)) && Within(ps, Unpruned(c, t)) && Within(ps, t)
    ensures EntriesOf(p, c, t, ps) == EntriesOf(p, c, Unpruned(c, t), ps)
  {
    if ps != [] {
      EntriesOfKept(p, c, t, ps[..|ps| - 1]);
    }
  }

  lemma {:induction false} SafeRendered(path: Rel)
    requires path != [] && IsRel(path) && Plain(path)
    ensures SafePath(Render(path)) && Parts(Render(path)) == path
  {
    PathRoundTrip(path);
  }

  // ---------- ancestors ----------

  lemma {:induction false} AncestorsAreDirectories(k: Disk, path: Rel, i: nat)
    requires WellFormed(k) && path in k && 0 < i < |path|
    ensures path[..i] in k && k[path[..i]].Directory?
    decreases |path|
  {
    assert GoodPath(k, path);
    if i < |path| - 1 {
      AncestorsAreDirectories(k, DirOf(path), i);
      assert DirOf(path)[..i] == path[..i];
    }
  }

  /** In the order of the manifest they come first. */
  lemma {:induction false} AncestorsComeFirst(k: Disk, ps: seq<Rel>, n: nat, i: nat)
    requires Listed(k, ps) && n < |ps| && 0 < i < |ps[n]|
    ensures ps[n][..i] in DirPart(k, ps[..n])
  {
    var up := ps[n][..i];
    AncestorsAreDirectories(k, ps[n], i);
    assert up in ps;
    var j :| 0 <= j < |ps| && ps[j] == up;
    PrefixLe(ps[n], i);
    if n < j {
      PathTotal(ps[n], ps[j]);
    }
    assert j < n;
    assert ps[..n][j] == up;
  }

  /** The directories above `path` are there, and so no link is in the way. */
  ghost predicate ParentsThere(d: Disk, path: Rel) {
    path != [] && IsRel(path) && forall i :: 0 < i < |path| ==> path[..i] in d && d[path[..i]].Directory?
  }

  lemma {:induction false} ParentsLead(f: System, d: Disk, path: Rel)
    requires ParentsThere(d, path)
    ensures ".." !in path && Unlinked(d, DirOf(path)) && DirsAbove(d, path)
    ensures MakeDirs(f, d, DirOf(path)) == Success(d)
  {
    var up := DirOf(path);
    forall q | Upon(q, up)
      ensures q in d && d[q].Directory?
    {
      assert q == up[..|q|] && up[..|q|] == path[..|q|];
    }
    MakeDirsIff(f, d, up);
    assert MakeDirs(f, d, up).value == d;
  }

  lemma {:induction false} FreePlace(f: System, d: Disk, path: Rel)
    requires ParentsThere(d, path) && (path in d ==> !d[path].Link?)
    ensures Resolve(d, [], path, f.links) == Lands(path) && Slot(f, d, path) == Lands(path)
    ensures MakeDirs(f, d, DirOf(path)) == Success(d)
  {
    ParentsLead(f, d, path);
    forall q
      ensures Upon(q, path) <==> q == path || Upon(q, DirOf(path))
    {
      UponStep(q, path);
    }
    UnlinkedWay(d, path, f.links);
    UnlinkedSlot(f, d, path);
  }

  lemma {:induction false} ParentsStay(d: Disk, path: Rel, node: Node)
    requires ParentsThere(d, path)
    ensures ParentsThere(d[path := node], path)
  {
    forall i | 0 < i < |path|
      ensures path[..i] in d[path := node] && d[path := node][path[..i]].Directory?
    {
      assert path[..i] != path;
    }
  }

  lemma {:induction false} ModeOfNew(f: System, d: Disk, path: Rel, node: Node, mode: nat)
    requires ParentsThere(d, path) && !node.Link?
    ensures SetMode(f, d[path := node], path, mode) == d[path := WithMode(node, mode)]
  {
    hide Resolve, Slot, ParentsThere;
    var r := d[path := node];
    ParentsStay(d, path, node);
    FreePlace(f, r, path);
    assert r[path := WithMode(node, mode)] == d[path := WithMode(node, mode)];
  }

  // ---------- pass 1 ----------

  lemma {:induction false} DirMade(f: System, k: Disk, ps: seq<Rel>, n: nat)
    requires Listed(k, ps) && n < |ps| && GoodPath(k, ps[n])
    ensures
      var d := DirPart(k, ps[..n]);
      MakeDirs(f, d, ps[n]) == Success(d[ps[n] := Directory(f.dirMode)]) && ParentsThere(d, ps[n])
  {
    var path, d := ps[n], DirPart(k, ps[..n]);
    forall i | 0 < i < |path|
      ensures path[..i] in d && d[path[..i]].Directory?
    {
      AncestorsComeFirst(k, ps, n, i);
    }
    DirsPartHas(k, ps[..n], path);
    FreePlace(f, d, path);
  }

  lemma {:induction false} DirsPartHas(k: Disk, ps: seq<Rel>, path: Rel)
    ensures path in DirPart(k, ps) ==> DirPart(k, ps)[path].Directory?
  {
  }

  lemma {:induction false} DirPartStep(k: Disk, ps: seq<Rel>, n: nat)
    requires n < |ps| && ps[n] in k
    ensures DirPart(k, ps[..n + 1])
         == if k[ps[n]].Directory? then DirPart(k, ps[..n])[ps[n] := k[ps[n]]] else DirPart(k, ps[..n])
  {
    assert ps[..n + 1] == ps[..n] + [ps[n]];
  }

  lemma {:induction false} DirPlaced(p: Prim, c: Settings, f: System, d: Disk, path: Rel, node: Node)
    requires path != [] && IsRel(path) && Plain(path) && node.Directory? && node.mode < 4096
    requires MakeDirs(f, d, path) == Success(d[path := Directory(f.dirMode)]) && ParentsThere(d, path)
    ensures PlaceDir(f, d, EntryOf(p, c, path, node)) == Success(d[path := node])
  {
    SafeRendered(path);
    ModeRoundTrip(node.mode);
    ModeOfNew(f, d, path, Directory(f.dirMode), node.mode);
  }

  lemma {:induction false} DirStep(p: Prim, c: Settings, f: System, k: Disk, ps: seq<Rel>, n: nat)
    requires Listed(k, ps) && PlainDirs(k) && n < |ps|
    requires GoodPath(k, ps[n])
    ensures PlaceDir(f, DirPart(k, ps[..n]), EntryOf(p, c, ps[n], k[ps[n]])) == Success(DirPart(k, ps[..n + 1]))
  {
    DirPartStep(k, ps, n);
    if k[ps[n]].Directory? {
      DirMade(f, k, ps, n);
      DirPlaced(p, c, f, DirPart(k, ps[..n]), ps[n], k[ps[n]]);
    }
  }

  /** The first pass over `ps` makes exactly its directories. */
  ghost predicate DirsBuiltTo(p: Prim, c: Settings, f: System, k: Disk, ps: seq<Rel>)
    requires WellFormed(k)
  {
    Within(ps, k) && AllDirs(f, EntriesOf(p, c, k, ps)) == Success(DirPart(k, ps))
  }

  lemma {:induction false} DirsBuilt(p: Prim, c: Settings, f: System, k: Disk, ps: seq<Rel>, n: nat)
    requires Listed(k, ps) && PlainDirs(k) && n <= |ps|
    ensures DirsBuiltTo(p, c, f, k, ps[..n])
  {
    if n > 0 {
      DirsBuilt(p, c, f, k, ps, n - 1);
      OneMoreDir(p, c, f, k, ps, n - 1);
    }
  }

  lemma {:induction false} OneMoreDir(p: Prim, c: Settings, f: System, k: Disk, ps: seq<Rel>, n: nat)
    requires Listed(k, ps) && PlainDirs(k) && n < |ps|
    requires DirsBuiltTo(p, c, f, k, ps[..n])
    ensures DirsBuiltTo(p, c, f, k, ps[..n + 1])
  {
    EntryAt(p, c, k, ps, n);
    DirStep(p, c, f, k, ps, n);
  }

  // ---------- pass 2 ----------

  /** The store holds the bytes of every file. */
  ghost predicate FilesStored(p: Prim, m: Cas.Blobs, k: Disk) {
    forall path :: path in k && k[path].Regular? ==> Cas.Lookup(m, Of(p, k[path].bytes)) == Some(k[path].bytes)
  }

  lemma {:induction false} ParentsStaged(opts: Options, k: Disk, ps: seq<Rel>, path: Rel)
    requires WellFormed(k) && path in k
    ensures ParentsThere(Staged(opts, k, ps), path)
  {
    assert GoodPath(k, path);
    forall i | 0 < i < |path|
      ensures path[..i] in k && k[path[..i]].Directory?
    {
      AncestorsAreDirectories(k, path, i);
    }
  }

  lemma {:induction false} StagedStep(opts: Options, k: Disk, ps: seq<Rel>, n: nat)
    requires n < |ps| && ps[n] in k
    ensures Staged(opts, k, ps[..n + 1])
         == if !k[ps[n]].Directory? && Returns(opts, k[ps[n]]) then Staged(opts, k, ps[..n])[ps[n] := k[ps[n]]]
            else Staged(opts, k, ps[..n])
  {
    assert ps[..n + 1] == ps[..n] + [ps[n]];
  }

  lemma {:induction false} FileStep(p: Prim, c: Settings, f: System, m: Cas.Blobs, d: Disk, path: Rel, node: Node)
    requires node.Regular? && node.mode < 4096 && path != [] && path !in d
    requires Cas.Lookup(m, Of(p, node.bytes)) == Some(node.bytes) && ParentsThere(d, path)
    ensures PlaceFile(f, m, d, path, EntryOf(p, c, path, node)) == Success(d[path := node])
  {
    ModeRoundTrip(node.mode);
    FreePlace(f, d, path);
    ModeOfNew(f, d, path, Regular(f.fileMode, node.bytes), node.mode);
  }

  lemma {:induction false} LinkStep(p: Prim, c: Settings, f: System, opts: Options, d: Disk, path: Rel, node: Node)
    requires node.Link? && node.target != "" && path !in d && ParentsThere(d, path)
    ensures PlaceLink(f, opts, d, path, EntryOf(p, c, path, node)) ==
      if !IsAbsolute(node.target) && !StaysInside(path, node.target) then Failure(EscapingLink)
      else Success(if Returns(opts, node) then d[path := node] else d)
  {
    FreePlace(f, d, path);
  }

  lemma {:induction false} EntryStep(p: Prim, c: Settings, f: System, opts: Options, m: Cas.Blobs, k: Disk, ps: seq<Rel>, n: nat)
    requires Listed(k, ps) && PlainTree(k) && FilesStored(p, m, k) && n < |ps|
    requires GoodPath(k, ps[n])
    ensures PlaceEntry(f, opts, m, Staged(opts, k, ps[..n]), EntryOf(p, c, ps[n], k[ps[n]])) ==
      if Escaping(k, ps[n]) then Failure(EscapingLink) else Success(Staged(opts, k, ps[..n + 1]))
  {
    var path, d := ps[n], Staged(opts, k, ps[..n]);
    StagedStep(opts, k, ps, n);
    SafeRendered(path);
    ParentsStaged(opts, k, ps[..n], path);
    match k[path] {
      case Directory(_) =>
      case Regular(_, _) => FileStep(p, c, f, m, d, path, k[path]);
      case Link(_) => LinkStep(p, c, f, opts, d, path, k[path]);
    }
  }

  /** One more entry of the second pass. */
  function PlacedNext(f: System, opts: Options, m: Cas.Blobs, r: Outcome, e: Entry): Outcome {
    match r
    case Failure(_) => r
    case Success(d) => PlaceEntry(f, opts, m, d, e)
  }

  /** A link among `ps` that leaves the root. */
  ghost predicate SomeEscape(k: Disk, ps: seq<Rel>) {
    exists i :: 0 <= i < |ps| && ps[i] in k && Escaping(k, ps[i])
  }

  lemma {:induction false} EscapeStep(k: Disk, ps: seq<Rel>, n: nat)
    requires n < |ps| && ps[n] in k
    ensures SomeEscape(k, ps[..n + 1]) <==> SomeEscape(k, ps[..n]) || Escaping(k, ps[n])
  {
    assert ps[..n + 1] == ps[..n] + [ps[n]];
    if SomeEscape(k, ps[..n]) {
      var i :| 0 <= i < |ps[..n]| && ps[..n][i] in k && Escaping(k, ps[..n][i]);
      assert ps[..n + 1][i] == ps[..n][i];
    }
    if Escaping(k, ps[n]) {
      assert ps[..n + 1][n] == ps[n];
    }
  }

  /** The outcome of the second pass over `ps`. */
  ghost function Expected(opts: Options, k: Disk, ps: seq<Rel>): Outcome {
    if SomeEscape(k, ps) then Failure(EscapingLink) else Success(Staged(opts, k, ps))
  }

  lemma {:induction false} ExpectedStep(p: Prim, c: Settings, f: System, opts: Options, m: Cas.Blobs, k: Disk, ps: seq<Rel>, n: nat)
    requires Listed(k, ps) && PlainTree(k) && FilesStored(p, m, k) && n < |ps|
    requires GoodPath(k, ps[n])
    ensures Expected(opts, k, ps[..n + 1]) == PlacedNext(f, opts, m, Expected(opts, k, ps[..n]), EntryOf(p, c, ps[n], k[ps[n]]))
  {
    EntryStep(p, c, f, opts, m, k, ps, n);
    EscapeStep(k, ps, n);
  }

  /** The second pass over `done`, after the first pass over all of `ps`. */
  ghost predicate PlacedTo(p: Prim, c: Settings, f: System, opts: Options, m: Cas.Blobs, k: Disk, ps: seq<Rel>, done: seq<Rel>)
    requires WellFormed(k)
  {
    Within(done, k) && AllEntries(f, opts, m, DirPart(k, ps), EntriesOf(p, c, k, done)) == Expected(opts, k, done)
  }

  lemma {:induction false} EntriesPlaced(p: Prim, c: Settings, f: System, opts: Options, m: Cas.Blobs,
                                         k: Disk, ps: seq<Rel>, n: nat)
    requires Listed(k, ps) && PlainTree(k) && FilesStored(p, m, k) && n <= |ps|
    ensures PlacedTo(p, c, f, opts, m, k, ps, ps[..n])
  {
    if n == 0 {
      assert DirPart(k, ps) == Staged(opts, k, ps[..0]);
    } else {
      EntriesPlaced(p, c, f, opts, m, k, ps, n - 1);
      EntryAt(p, c, k, ps, n - 1);
      ExpectedStep(p, c, f, opts, m, k, ps, n - 1);
    }
  }

  /** Rebuilding the manifest of a tree without backslashes: refused if a link
      leaves the root, and otherwise everything but the absolute links. */
  lemma {:induction false} PlainTreeRebuilt(p: Prim, c: Settings, f: System, opts: Options, m: Cas.Blobs, k: Disk, ps: seq<Rel>)
    requires Listed(k, ps) && PlainTree(k) && FilesStored(p, m, k)
    ensures Rebuilt(f, opts, m, EntriesOf(p, c, k, ps)) ==
      if exists path :: path in k && Escaping(k, path) then Failure(EscapingLink) else Success(Returning(opts, k))
  {
    assert ps[..|ps|] == ps;
    DirsBuilt(p, c, f, k, ps, |ps|);
    EntriesPlaced(p, c, f, opts, m, k, ps, |ps|);
    assert Staged(opts, k, ps) == Returning(opts, k);
    if path :| path in k && Escaping(k, path) {
      assert path in ps;
      assert SomeEscape(k, ps);
    }
  }

  // ---------- the store after a capture ----------

  /** The bytes in play: what the store held and what the capture puts. */
  ghost function InPlay(p: Prim, c: Settings, t: Disk, m: Cas.Blobs): set<Bytes>
    requires WellFormed(t)
  {
    m.Values + (set b | b in Contents(c, t)) + {TreeBytes(p, Captured(p, c, t))}
  }

  lemma {:induction false} ContentListed(c: Settings, t: Disk, ps: seq<Rel>, i: nat)
    requires Within(ps, t) && i < |ps|
    ensures forall b :: b in ContentOf(c, t[ps[i]]) ==> b in ContentsOf(c, t, ps)
  {
    var n := |ps| - 1;
    if i < n {
      ContentListed(c, t, ps[..n], i);
    }
  }

  lemma {:induction false} CaptureStores(p: Prim, c: Settings, t: Disk, m: Cas.Blobs)
    requires WellFormed(t) && Cas.Keyed(p, m) && CollisionFree(p, InPlay(p, c, t, m))
    ensures
      var after := AfterCapture(p, c, t, m);
      var tree := TreeBytes(p, Captured(p, c, t));
      && Cas.Keyed(p, after) && Cas.Extends(m, after) && after.Values <= InPlay(p, c, t, m)
      && Cas.Lookup(after, Of(p, tree)) == Some(tree)
      && forall b :: b in Contents(c, t) ==> Cas.Lookup(after, Of(p, b)) == Some(b)
  {
    Cas.StoredAllHolds(p, m, Contents(c, t), InPlay(p, c, t, m));
    Cas.StoredHolds(p, Cas.StoredAll(p, m, Contents(c, t)), TreeBytes(p, Captured(p, c, t)), InPlay(p, c, t, m));
  }

  lemma {:induction false} KeptFilesStored(p: Prim, c: Settings, t: Disk, m: Cas.Blobs)
    requires WellFormed(t) && Cas.Keyed(p, m) && CollisionFree(p, InPlay(p, c, t, m))
    ensures FilesStored(p, AfterCapture(p, c, t, m), Unpruned(c, t))
  {
    CaptureStores(p, c, t, m);
    OrderLists(c, t);
    var k, ps := Unpruned(c, t), Order(c, t);
    forall path | path in k && k[path].Regular?
      ensures k[path].bytes in Contents(c, t)
    {
      assert path in ps;
      var i :| 0 <= i < |ps| && ps[i] == path;
      ContentListed(c, t, ps, i);
      assert k[path].bytes in ContentOf(c, t[ps[i]]);
    }
  }

  /** Every blob the captured entries name is in the store afterwards. */
  lemma {:induction false} CaptureIsBlobClosed(p: Prim, c: Settings, t: Disk, m: Cas.Blobs)
    requires WellFormed(t) && Cas.Keyed(p, m) && CollisionFree(p, InPlay(p, c, t, m))
    ensures BlobClosed(AfterCapture(p, c, t, m), Captured(p, c, t))
  {
    CaptureStores(p, c, t, m);
    OrderLists(c, t);
    EntriesNameContents(p, c, t, Order(c, t));
    var es, after := Captured(p, c, t), AfterCapture(p, c, t, m);
    forall i | 0 <= i < |es| && es[i].blob.Some?
      ensures es[i].blob.value in after
    {
      assert DigestOfOne(p, es[i].blob.value, Contents(c, t));
      var b :| b in Contents(c, t) && es[i].blob.value == Of(p, b);
      assert Cas.Lookup(after, Of(p, b)) == Some(b);
    }
  }

  /** Every blob of the entries is the digest of one of the byte strings. */
  ghost predicate NameContents(p: Prim, es: seq<Entry>, bs: seq<Bytes>) {
    forall i :: 0 <= i < |es| && es[i].blob.Some? ==> DigestOfOne(p, es[i].blob.value, bs)
  }

  ghost predicate DigestOfOne(p: Prim, d: Digest, bs: seq<Bytes>) { exists b :: b in bs && d == Of(p, b) }

  lemma {:induction false} EntriesNameContents(p: Prim, c: Settings, t: Disk, ps: seq<Rel>)
    requires WellFormed(t) && Within(ps, t)
    ensures NameContents(p, EntriesOf(p, c, t, ps), ContentsOf(c, t, ps))
  {
    if ps != [] {
      var n := |ps| - 1;
      EntriesNameContents(p, c, t, ps[..n]);
      assert GoodPath(t, ps[n]);
      var e, bs := EntryOf(p, c, ps[n], t[ps[n]]), ContentOf(c, t[ps[n]]);
      if e.blob.Some? {
        assert bs[0] in bs;
      }
    }
  }

  // ---------- the main results ----------

  /** What restoring a fresh capture gives when no kept name has a backslash. */
  lemma {:induction false} RestoreOfPlainCapture(p: Prim, c: Settings, f: System, opts: Options, t: Disk, m: Cas.Blobs)
    requires Lawful(p) && WellFormed(t) && Cas.Keyed(p, m) && CollisionFree(p, InPlay(p, c, t, m))
    requires PlainTree(Unpruned(c, t))
    ensures
      var k := Unpruned(c, t);
      Restored(p, f, opts, AfterCapture(p, c, t, m), Of(p, TreeBytes(p, Captured(p, c, t)))) ==
        if exists path :: path in k && Escaping(k, path) then Failure(EscapingLink) else Success(Returning(opts, k))
  {
    RestoreIsRebuild(p, c, f, opts, t, m);
    KeptFilesStored(p, c, t, m);
    PlainTreeRebuilt(p, c, f, opts, AfterCapture(p, c, t, m), Unpruned(c, t), Order(c, t));
  }

  lemma {:induction false} RestoreIsRebuild(p: Prim, c: Settings, f: System, opts: Options, t: Disk, m: Cas.Blobs)
    requires Lawful(p) && WellFormed(t) && Cas.Keyed(p, m) && CollisionFree(p, InPlay(p, c, t, m))
    ensures Listed(Unpruned(c, t), Order(c, t))
    ensures
      var after := AfterCapture(p, c, t, m);
      Restored(p, f, opts, after, Of(p, TreeBytes(p, Captured(p, c, t))))
      == Rebuilt(f, opts, after, EntriesOf(p, c, Unpruned(c, t), Order(c, t)))
  {
    UnprunedWellFormed(c, t);
    OrderLists(c, t);
    CaptureStores(p, c, t, m);
    TreeRoundTrip(p, Captured(p, c, t));
    EntriesOfKept(p, c, t, Order(c, t));
  }
}
