/** Laws of `merge_world`. */
module WorldMergeAlgebra {
  // Units, swapping the sides, and when the digest comes back.

  import opened Base
  import opened Sorting
  import opened Tree
  import opened WorldMerge
  import opened WorldMergeLaws
  import Cas

  // ---------- algebra ----------

  /** The entries of one tree in the order of `paths`. */
  function Listing(t: map<string, Entry>, paths: seq<string>): seq<Entry> {
    if paths == [] then [] else Optional(At(t, paths[0])) + Listing(t, paths[1..])
  }

  lemma {:induction false} PointwiseListing(p: Prim, m: Cas.Blobs, t: Trees, side: map<string, Entry>, paths: seq<string>)
    requires forall k :: k in paths ==> OutputAt(p, m, t, k) == At(side, k)
    ensures Entries(p, m, t, paths) == Listing(side, paths)
  {
    if paths != [] {
      assert paths[0] in paths && forall k :: k in paths[1..] ==> k in paths;
      PointwiseListing(p, m, t, side, paths[1..]);
    }
  }

  lemma {:induction false} NoConflicts(p: Prim, t: Trees, paths: seq<string>)
    requires forall k :: k in paths ==> !ConflictedAt(t, k)
    ensures Conflicts(p, t, paths) == []
  {
    if paths != [] {
      assert paths[0] in paths && forall k :: k in paths[1..] ==> k in paths;
      NoConflicts(p, t, paths[1..]);
    }
  }

  /** The whole loop of `merge_world` over a store. */
  function Run(p: Prim, m: Cas.Blobs, t: Trees, paths: seq<string>): Option<Progress> {
    Fold(p, Progress(m, [], [], 0), t, paths)
  }

  predicate QuietAt(t: Trees, k: string) { !Decide(At(t.a, k), At(t.b, k), At(t.x, k)).Clash? }

  function Advanced(s: Progress, out: seq<Entry>, conflicts: seq<Conflict>, clean: nat): Progress {
    Progress(s.blobs, s.merged + out, s.conflicts + conflicts, s.clean + clean)
  }

  lemma {:induction false} AdvancedTwice(s: Progress, out: seq<Entry>, cs: seq<Conflict>, n: nat,
                                         more: seq<Entry>, ds: seq<Conflict>, k: nat)
    ensures Advanced(Advanced(s, out, cs, n), more, ds, k) == Advanced(s, out + more, cs + ds, n + k)
  {
    assert s.merged + out + more == s.merged + (out + more);
    assert s.conflicts + cs + ds == s.conflicts + (cs + ds);
  }

  lemma {:induction false} QuietStepAt(p: Prim, m: Cas.Blobs, s: Progress, t: Trees, k: string)
    requires QuietAt(t, k)
    ensures StepAt(p, s, t, k) == Some(Advanced(s, Optional(OutputAt(p, m, t, k)), ConflictsAt(p, t, k), CleanCount(t, k)))
  {
    assert s.merged + [] == s.merged && s.conflicts + [] == s.conflicts;
  }

  /** Where no two changes clash the loop writes nothing and cannot fail, whatever
      the store holds. */
  lemma {:induction false} QuietFold(p: Prim, m: Cas.Blobs, s: Progress, t: Trees, paths: seq<string>)
    requires forall k :: k in paths ==> QuietAt(t, k)
    ensures Fold(p, s, t, paths) == Some(Advanced(s, Entries(p, m, t, paths), Conflicts(p, t, paths), Cleans(t, paths)))
    decreases |paths|
  {
    if paths == [] {
      assert s.merged + [] == s.merged && s.conflicts + [] == s.conflicts;
    } else {
      var k := paths[0];
      var out, cs, n := Optional(OutputAt(p, m, t, k)), ConflictsAt(p, t, k), CleanCount(t, k);
      QuietStepAt(p, m, s, t, k);
      QuietFold(p, m, Advanced(s, out, cs, n), t, paths[1..]);
      AdvancedTwice(s, out, cs, n, Entries(p, m, t, paths[1..]), Conflicts(p, t, paths[1..]), Cleans(t, paths[1..]));
    }
  }

  lemma {:induction false} QuietRun(p: Prim, m: Cas.Blobs, t: Trees, paths: seq<string>)
    requires forall k :: k in paths ==> QuietAt(t, k)
    ensures Run(p, m, t, paths) == Some(Progress(m, Entries(p, m, t, paths), Conflicts(p, t, paths), Cleans(t, paths)))
  {
    QuietFold(p, m, Progress(m, [], [], 0), t, paths);
    assert [] + Entries(p, m, t, paths) == Entries(p, m, t, paths);
    assert [] + Conflicts(p, t, paths) == Conflicts(p, t, paths);
  }

  /** Merging with an unchanged other side keeps A: merge(a, x, x) = a. */
  lemma {:induction false} OtherSideUnchanged(p: Prim, m: Cas.Blobs, a: map<string, Entry>, x: map<string, Entry>, paths: seq<string>)
    ensures
      var r := Run(p, m, Trees(a, x, x), paths);
      r.Some? && r.value.merged == Listing(a, paths) && r.value.conflicts == []
  {
    QuietRun(p, m, Trees(a, x, x), paths);
    PointwiseListing(p, m, Trees(a, x, x), a, paths);
    NoConflicts(p, Trees(a, x, x), paths);
  }

  /** Merging a tree with itself keeps it, whatever the ancestor: merge(a, a, x) = a. */
  lemma {:induction false} SelfMerge(p: Prim, m: Cas.Blobs, a: map<string, Entry>, x: map<string, Entry>, paths: seq<string>)
    ensures
      var r := Run(p, m, Trees(a, a, x), paths);
      r.Some? && r.value.merged == Listing(a, paths) && r.value.conflicts == []
  {
    QuietRun(p, m, Trees(a, a, x), paths);
    PointwiseListing(p, m, Trees(a, a, x), a, paths);
    NoConflicts(p, Trees(a, a, x), paths);
  }

  /** Entry by entry: the same paths, and equal as the merge compares. */
  ghost predicate EqualLists(es: seq<Entry>, fs: seq<Entry>) {
    |es| == |fs| && forall i :: 0 <= i < |es| ==> es[i].path == fs[i].path && EntriesEqual(es[i], fs[i])
  }

  /** merge(x, b, x) = b without conflicts, up to mode and size. */
  lemma {:induction false} OwnSideUnchanged(p: Prim, m: Cas.Blobs, b: map<string, Entry>, x: map<string, Entry>, paths: seq<string>)
    requires OwnPaths(b) && OwnPaths(x)
    ensures
      var r := Run(p, m, Trees(x, b, x), paths);
      r.Some? && EqualLists(r.value.merged, Listing(b, paths)) && r.value.conflicts == []
  {
    QuietRun(p, m, Trees(x, b, x), paths);
    OwnSideEntries(p, m, b, x, paths);
    NoConflicts(p, Trees(x, b, x), paths);
  }

  lemma {:induction false} OwnSideEntries(p: Prim, m: Cas.Blobs, b: map<string, Entry>, x: map<string, Entry>, paths: seq<string>)
    requires OwnPaths(b) && OwnPaths(x)
    ensures EqualLists(Entries(p, m, Trees(x, b, x), paths), Listing(b, paths))
  {
    if paths != [] {
      OwnSideEntries(p, m, b, x, paths[1..]);
      OwnSideAt(p, m, b, x, paths[0]);
    }
  }

  lemma {:induction false} OwnSideAt(p: Prim, m: Cas.Blobs, b: map<string, Entry>, x: map<string, Entry>, k: string)
    ensures Same(OutputAt(p, m, Trees(x, b, x), k), At(b, k))
    ensures OutputAt(p, m, Trees(x, b, x), k) == At(b, k) <==>
      !(k in b && k in x && EntriesEqual(b[k], x[k]) && b[k] != x[k])
  {
  }

  lemma {:induction false} ListingHas(t: map<string, Entry>, paths: seq<string>)
    ensures forall e: Entry :: e in Listing(t, paths) <==> exists k :: k in paths && At(t, k) == Some(e)
  {
    if paths != [] {
      ListingHas(t, paths[1..]);
      assert paths == [paths[0]] + paths[1..];
    }
  }

  /** B's side survives exactly if B did not change only the mode or the size of
      an entry of the ancestor: such a change of B's is lost. */
  lemma {:induction false} OwnSideExact(p: Prim, m: Cas.Blobs, b: map<string, Entry>, x: map<string, Entry>, paths: seq<string>)
    requires OwnPaths(b) && OwnPaths(x) && Ascending(paths)
    requires forall k :: k in paths <==> k in b || k in x
    ensures Run(p, m, Trees(x, b, x), paths).Some?
    ensures Run(p, m, Trees(x, b, x), paths).value.merged == Listing(b, paths) <==>
      forall k :: k in b && k in x && EntriesEqual(b[k], x[k]) ==> b[k] == x[k]
  {
    var t := Trees(x, b, x);
    QuietRun(p, m, t, paths);
    if forall k :: k in b && k in x && EntriesEqual(b[k], x[k]) ==> b[k] == x[k] {
      forall k | k in paths
        ensures OutputAt(p, m, t, k) == At(b, k)
      {
        OwnSideAt(p, m, b, x, k);
      }
      PointwiseListing(p, m, t, b, paths);
    } else {
      var k :| k in b && k in x && EntriesEqual(b[k], x[k]) && b[k] != x[k];
      OwnSideAt(p, m, b, x, k);
      EntriesArePerPath(p, m, t, paths);
      ListingHas(b, paths);
      assert b[k] in Listing(b, paths);
      assert b[k].path == k && b[k] !in Entries(p, m, t, paths);
    }
  }

  function Swapped(c: Conflict): Conflict { c.(a := c.b, b := c.a) }

  function SwappedAll(cs: seq<Conflict>): seq<Conflict> {
    if cs == [] then [] else [Swapped(cs[0])] + SwappedAll(cs[1..])
  }

  /** Two merged lists agree on paths, and on every path without a conflict the
      entries are equal as the merge compares. */
  ghost predicate AgreeButConflicts(t: Trees, es: seq<Entry>, fs: seq<Entry>) {
    && |es| == |fs|
    && forall i :: 0 <= i < |es| ==>
         es[i].path == fs[i].path && (ConflictedAt(t, es[i].path) || EntriesEqual(es[i], fs[i]))
  }

  /** Swapping the sides gives the same conflict paths with digests swapped, the
      same clean count, and the same entries wherever there is no conflict. */
  lemma {:induction false} SwapSides(p: Prim, m: Cas.Blobs, t: Trees, paths: seq<string>)
    requires OwnPaths(t.a) && OwnPaths(t.b)
    requires Ready(p, m, t) && Ready(p, m, Trees(t.b, t.a, t.x))
    ensures
      var r, s := Run(p, m, t, paths), Run(p, m, Trees(t.b, t.a, t.x), paths);
      && r.Some? && s.Some?
      && s.value.conflicts == SwappedAll(r.value.conflicts)
      && s.value.clean == r.value.clean
      && AgreeButConflicts(t, s.value.merged, r.value.merged)
  {
    RunPerPath(p, m, t, paths);
    RunPerPath(p, m, Trees(t.b, t.a, t.x), paths);
    SwapConflicts(p, m, t, paths);
    SwapEntries(p, m, t, paths);
  }

  lemma {:induction false} SwapConflicts(p: Prim, m: Cas.Blobs, t: Trees, paths: seq<string>)
    ensures
      var s := Trees(t.b, t.a, t.x);
      Conflicts(p, s, paths) == SwappedAll(Conflicts(p, t, paths)) && Cleans(s, paths) == Cleans(t, paths)
  {
    if paths != [] {
      SwapConflicts(p, m, t, paths[1..]);
      SwapCons(p, t, paths[0], Conflicts(p, t, paths[1..]));
    }
  }

  lemma {:induction false} SwapAt(p: Prim, m: Cas.Blobs, t: Trees, k: string)
    ensures
      var e, f := OutputAt(p, m, Trees(t.b, t.a, t.x), k), OutputAt(p, m, t, k);
      (e.Some? <==> f.Some?) && (e.Some? ==> ConflictedAt(t, k) || EntriesEqual(e.value, f.value))
  {
  }

  lemma {:induction false} SwapEntries(p: Prim, m: Cas.Blobs, t: Trees, paths: seq<string>)
    requires OwnPaths(t.a) && OwnPaths(t.b)
    ensures AgreeButConflicts(t, Entries(p, m, Trees(t.b, t.a, t.x), paths), Entries(p, m, t, paths))
  {
    if paths != [] {
      var s, k := Trees(t.b, t.a, t.x), paths[0];
      SwapEntries(p, m, t, paths[1..]);
      SwapAt(p, m, t, k);
      OutputPath(p, m, t, k);
      OutputPath(p, m, s, k);
    }
  }

  lemma {:induction false} SwapCons(p: Prim, t: Trees, k: string, rest: seq<Conflict>)
    ensures SwappedAll(ConflictsAt(p, t, k) + rest) ==
      (if ConflictedAt(t, k) then [Swapped(Pair(p, t, k))] else []) + SwappedAll(rest)
  {
    if ConflictedAt(t, k) {
      assert (ConflictsAt(p, t, k) + rest)[1..] == rest;
    } else {
      assert ConflictsAt(p, t, k) + rest == rest;
    }
  }

  // ---------- from entry lists to tree digests ----------

  lemma {:induction false} ListingPaths(t: map<string, Entry>, paths: seq<string>)
    requires OwnPaths(t) && Ascending(paths)
    ensures Ascending(PathsOf(Listing(t, paths)))
    ensures forall k :: k in PathsOf(Listing(t, paths)) <==> k in paths && k in t
  {
    if paths != [] {
      var k, rest := paths[0], Listing(t, paths[1..]);
      ListingPaths(t, paths[1..]);
      assert paths == [k] + paths[1..];
      if k in t {
        assert ([t[k]] + rest)[1..] == rest;
        assert PathsOf([t[k]] + rest) == [k] + PathsOf(rest);
        AscendingCons(k, paths[1..], PathsOf(rest));
      } else {
        assert Optional(At(t, k)) + rest == rest;
      }
    }
  }

  lemma {:induction false} PathsOfAt(es: seq<Entry>)
    ensures |PathsOf(es)| == |es| && forall i :: 0 <= i < |es| ==> PathsOf(es)[i] == es[i].path
  {
    if es != [] {
      PathsOfAt(es[1..]);
    }
  }

  lemma {:induction false} MapOfAt(es: seq<Entry>, i: nat)
    requires Ascending(PathsOf(es)) && i < |es|
    ensures es[i].path in MapOf(es) && MapOf(es)[es[i].path] == es[i]
  {
    PathsOfAt(es);
    var n := |es| - 1;
    if i < n {
      PathsOfAt(es[..n]);
      assert forall j :: 0 <= j < n ==> PathsOf(es[..n])[j] == PathsOf(es)[j];
      MapOfAt(es[..n], i);
      assert PathsOf(es)[i] != PathsOf(es)[n];
    }
  }

  /** A tree is what its own entries list to exactly when they are in strictly
      ascending text order of their paths. */
  lemma {:induction false} ListingOfOwn(es: seq<Entry>, paths: seq<string>)
    requires Ascending(paths) && forall k :: k in MapOf(es) ==> k in paths
    ensures Listing(MapOf(es), paths) == es <==> Ascending(PathsOf(es))
  {
    MapOfOwnPaths(es);
    ListingPaths(MapOf(es), paths);
    if Ascending(PathsOf(es)) {
      AscendingListing(es, paths);
    }
  }

  lemma {:induction false} AscendingListing(es: seq<Entry>, paths: seq<string>)
    requires Ascending(paths) && forall k :: k in MapOf(es) ==> k in paths
    requires Ascending(PathsOf(es))
    ensures Listing(MapOf(es), paths) == es
  {
    var t := MapOf(es);
    var ls := Listing(t, paths);
    MapOfOwnPaths(es);
    ListingPaths(t, paths);
    PathsOfAt(es);
    PathsOfAt(ls);
    forall k
      ensures k in PathsOf(ls) <==> k in PathsOf(es)
    {
      if k in PathsOf(es) {
        var i :| 0 <= i < |es| && PathsOf(es)[i] == k;
        assert es[i].path == k;
      }
      if k in PathsOf(ls) {
        var i :| 0 <= i < |es| && es[i].path == k;
        assert PathsOf(es)[i] == k;
      }
    }
    AscendingUnique(PathsOf(ls), PathsOf(es));
    ListingHas(t, paths);
    forall i | 0 <= i < |es|
      ensures ls[i] == es[i]
    {
      MapOfAt(es, i);
      assert ls[i] in ls;
      var k :| k in paths && At(t, k) == Some(ls[i]);
      assert PathsOf(ls)[i] == PathsOf(es)[i];
    }
  }

  /** Merging a tree with itself gives back its digest if and only if its
      entries are in strictly ascending text order. */
  lemma {:induction false} SelfMergeDigest(p: Prim, m: Cas.Blobs, es: seq<Entry>, x: map<string, Entry>, paths: seq<string>)
    requires Lawful(p) && AllPaths(Trees(MapOf(es), MapOf(es), x), paths)
    requires CollisionFree(p, {TreeBytes(p, es), TreeBytes(p, Listing(MapOf(es), paths))})
    ensures
      var r := Run(p, m, Trees(MapOf(es), MapOf(es), x), paths);
      r.Some? && r.value.conflicts == []
      && (Of(p, TreeBytes(p, r.value.merged)) == Of(p, TreeBytes(p, es)) <==> Ascending(PathsOf(es)))
  {
    var a := MapOf(es);
    var ls := Listing(a, paths);
    SelfMerge(p, m, a, x, paths);
    ListingOfOwn(es, paths);
    if Of(p, TreeBytes(p, ls)) == Of(p, TreeBytes(p, es)) {
      OfInjective(p, {TreeBytes(p, es), TreeBytes(p, ls)}, TreeBytes(p, ls), TreeBytes(p, es));
      TreeRoundTrip(p, es);
      TreeRoundTrip(p, ls);
    }
  }
}
