/** Which merged trees can be restored. A merge decides path by path, so a file of one
    side can end up above an entry of the other. */
module MergeRestore {

  import opened Bits
  import opened Base
  import opened Sorting
  import opened Paths
  import opened Tree
  import opened FsCapture
  import opened FsRestore
  import opened WorldMerge
  import opened WorldMergeLaws
  import Algebra = WorldMergeAlgebra
  import opened Placement
  import opened Ways
  import Cas

  /** A tree of plain paths, each entry with what a restore needs of it. */
  ghost predicate Placeable(m: Cas.Blobs, t: map<string, Entry>) {
    forall k :: k in t ==> t[k].path == k && TitledAt(m, Parts(k), t[k])
  }

  /** A file or link at `k` above an entry at `l` that is not left out. */
  predicate Blocks(opts: Options, upper: Option<Entry>, k: string, lower: Option<Entry>, l: string) {
    && upper.Some? && lower.Some?
    && Lies(opts, upper.value) && (lower.value.kind == Dir || Lies(opts, lower.value))
    && Upon(Parts(k), DirOf(Parts(l)))
  }

  predicate Leaves(k: string, e: Option<Entry>) { e.Some? && Escapes(Parts(k), e.value) }

  /** A link above a file or a link: where it leads decides. */
  predicate Leads(opts: Options, upper: Option<Entry>, k: string, lower: Option<Entry>, l: string) {
    Blocks(opts, upper, k, lower, l) && upper.value.kind == Symlink && lower.value.kind != Dir
  }

  /** A file above anything, or a link above a directory. */
  predicate Bars(opts: Options, upper: Option<Entry>, k: string, lower: Option<Entry>, l: string) {
    Blocks(opts, upper, k, lower, l) && !Leads(opts, upper, k, lower, l)
  }

  /** Among what the merge keeps, something bars something else. */
  ghost predicate Blocked(p: Prim, opts: Options, m: Cas.Blobs, t: Trees) {
    exists k, l :: Bars(opts, OutputAt(p, m, t, k), k, OutputAt(p, m, t, l), l)
  }

  /** Among what the merge keeps, something is to be restored through a link. */
  ghost predicate Linked(p: Prim, opts: Options, m: Cas.Blobs, t: Trees) {
    exists k, l :: Leads(opts, OutputAt(p, m, t, k), k, OutputAt(p, m, t, l), l)
  }

  ghost predicate SomeLeaves(p: Prim, m: Cas.Blobs, t: Trees) { exists k :: Leaves(k, OutputAt(p, m, t, k)) }

  // ---------- the merged list as titled entries ----------

  function PartsOf(es: seq<Entry>): seq<Rel> { seq(|es|, i requires 0 <= i < |es| => Parts(es[i].path)) }

  ghost predicate HasFiles(blobs: Cas.Blobs, es: seq<Entry>) {
    forall i :: 0 <= i < |es| && es[i].kind == File ==> es[i].blob.Some? && es[i].blob.value in blobs
  }

  /** Where a kept entry comes from: a side, or a marker in place of A's entry. */
  predicate Origin(t: Trees, k: string, e: Entry) {
    || (k in t.a && e == t.a[k])
    || (k in t.b && e == t.b[k])
    || (k in t.a && e.path == t.a[k].path && e.kind == File && e.blob.Some?)
  }

  lemma {:induction false} OutputOrigin(p: Prim, m: Cas.Blobs, t: Trees, k: string)
    ensures OutputAt(p, m, t, k).Some? ==> Origin(t, k, OutputAt(p, m, t, k).value)
  {
  }

  lemma {:induction false} OriginTitled(m: Cas.Blobs, blobs: Cas.Blobs, t: Trees, k: string, e: Entry)
    requires Placeable(m, t.a) && Placeable(m, t.b) && Origin(t, k, e)
    requires e.kind == File && e.blob.Some? ==> e.blob.value in blobs
    ensures TitledAt(blobs, Parts(k), e)
  {
    if k in t.a {
      assert TitledAt(m, Parts(k), t.a[k]);
    }
    if k in t.b {
      assert TitledAt(m, Parts(k), t.b[k]);
    }
  }

  lemma {:induction false} EntryAtIndex(p: Prim, m: Cas.Blobs, t: Trees, paths: seq<string>, i: nat)
    requires Placeable(m, t.a) && Placeable(m, t.b) && Ascending(paths) && i < |Entries(p, m, t, paths)|
    ensures
      var e := Entries(p, m, t, paths)[i];
      OutputAt(p, m, t, e.path) == Some(e)
  {
    EntriesArePerPath(p, m, t, paths);
    assert Entries(p, m, t, paths)[i] in Entries(p, m, t, paths);
  }

  lemma {:induction false} MergedTitled(p: Prim, m: Cas.Blobs, blobs: Cas.Blobs, t: Trees, paths: seq<string>)
    requires Placeable(m, t.a) && Placeable(m, t.b) && Ascending(paths) && HasFiles(blobs, Entries(p, m, t, paths))
    ensures Titled(blobs, PartsOf(Entries(p, m, t, paths)), Entries(p, m, t, paths))
  {
    var es := Entries(p, m, t, paths);
    forall i | 0 <= i < |es|
      ensures TitledAt(blobs, PartsOf(es)[i], es[i])
    {
      EntryAtIndex(p, m, t, paths, i);
      OutputOrigin(p, m, t, es[i].path);
      OriginTitled(m, blobs, t, es[i].path, es[i]);
    }
    EntriesArePerPath(p, m, t, paths);
    Algebra.PathsOfAt(es);
    forall i, j | 0 <= i < j < |es|
      ensures PartsOf(es)[i] != PartsOf(es)[j]
    {
      assert PathsOf(es)[i] != PathsOf(es)[j];
      assert TitledAt(blobs, PartsOf(es)[i], es[i]) && TitledAt(blobs, PartsOf(es)[j], es[j]);
    }
  }

  lemma {:induction false} EntryOfOutput(p: Prim, m: Cas.Blobs, t: Trees, paths: seq<string>, k: string) returns (i: nat)
    requires Placeable(m, t.a) && Placeable(m, t.b) && AllPaths(t, paths) && OutputAt(p, m, t, k).Some?
    ensures i < |Entries(p, m, t, paths)| && Entries(p, m, t, paths)[i] == OutputAt(p, m, t, k).value
    ensures Entries(p, m, t, paths)[i].path == k
  {
    var es := Entries(p, m, t, paths);
    EntriesArePerPath(p, m, t, paths);
    OutputPath(p, m, t, k);
    assert OutputAt(p, m, t, k).value in es;
    i :| 0 <= i < |es| && es[i] == OutputAt(p, m, t, k).value;
  }

  // ---------- in text order a path comes before what is below it ----------

  lemma {:induction false} PrefixTextLe(s: string, more: string)
    ensures StrLe(s, s + more)
  {
    if s != "" {
      assert (s + more)[1..] == s[1..] + more;
      PrefixTextLe(s[1..], more);
    }
  }

  lemma {:induction false} JoinPrefix(path: Rel, i: nat) returns (more: string)
    requires 0 < i <= |path|
    ensures Join(path) == Join(path[..i]) + more
  {
    if |path| == 1 {
      more := "";
    } else if i == 1 {
      assert path[..1] == [path[0]];
      more := "/" + Join(path[1..]);
    } else {
      more := JoinPrefix(path[1..], i - 1);
      assert path[..i][1..] == path[1..][..i - 1] && path[..i][0] == path[0];
      assert Join(path) == path[0] + "/" + Join(path[1..]);
      assert Join(path[..i]) == path[0] + "/" + Join(path[..i][1..]);
    }
  }

  lemma {:induction false} UponTextLe(q: Rel, path: Rel)
    requires Upon(q, path) && Plain(path)
    ensures StrLe(Render(q), Render(path))
  {
    var more := JoinPrefix(path, |q|);
    assert path[..|q|] == q;
    PlainJoin(path);
    PlainJoin(q);
    PlainText(Join(path));
    PlainText(Join(q));
    PrefixTextLe(Join(q), more);
  }

  /** So in a merged list a link comes before what is to be restored through it. */
  lemma {:induction false} AboveComesFirst(blobs: Cas.Blobs, ps: seq<Rel>, es: seq<Entry>, i: nat, j: nat)
    requires Titled(blobs, ps, es) && Ascending(PathsOf(es)) && i < |es| && j < |es| && Upon(ps[i], DirOf(ps[j]))
    ensures i < j
  {
    assert TitledAt(blobs, ps[i], es[i]) && TitledAt(blobs, ps[j], es[j]);
    AboveIsSmaller(blobs, ps[i], es[i], ps[j], es[j]);
    SmallerIsFirst(es, i, j);
  }

  lemma {:induction false} SmallerIsFirst(es: seq<Entry>, i: nat, j: nat)
    requires Ascending(PathsOf(es)) && i < |es| && j < |es| && !StrLe(es[j].path, es[i].path)
    ensures i < j
  {
    Algebra.PathsOfAt(es);
    StrTotal(es[j].path, es[i].path);
  }

  lemma {:induction false} AboveIsSmaller(blobs: Cas.Blobs, q: Rel, e: Entry, path: Rel, g: Entry)
    requires TitledAt(blobs, q, e) && TitledAt(blobs, path, g) && Upon(q, DirOf(path))
    ensures StrLe(e.path, g.path) && e.path != g.path && !StrLe(g.path, e.path)
  {
    UponStep(q, path);
    UponSelf(path);
    UponTextLe(q, path);
    PathRoundTrip(q);
    PathRoundTrip(path);
    StrTotal(e.path, g.path);
  }

  lemma {:induction false} ShadowIs(p: Prim, opts: Options, m: Cas.Blobs, blobs: Cas.Blobs, t: Trees, paths: seq<string>, i: nat, j: nat)
    requires Placeable(m, t.a) && Placeable(m, t.b) && AllPaths(t, paths) && HasFiles(blobs, Entries(p, m, t, paths))
    requires i < |Entries(p, m, t, paths)| && j < |Entries(p, m, t, paths)|
    ensures
      var es := Entries(p, m, t, paths);
      var ps, k, l := PartsOf(es), es[i].path, es[j].path;
      && (Shadow(opts, ps, es, i, j) <==> Blocks(opts, OutputAt(p, m, t, k), k, OutputAt(p, m, t, l), l))
      && (Through(opts, ps, es, i, j) <==> Leads(opts, OutputAt(p, m, t, k), k, OutputAt(p, m, t, l), l))
  {
    EntryAtIndex(p, m, t, paths, i);
    EntryAtIndex(p, m, t, paths, j);
    if Shadow(opts, PartsOf(Entries(p, m, t, paths)), Entries(p, m, t, paths), i, j) {
      MergedTitled(p, m, blobs, t, paths);
      EntriesArePerPath(p, m, t, paths);
      AboveComesFirst(blobs, PartsOf(Entries(p, m, t, paths)), Entries(p, m, t, paths), i, j);
    }
  }

  lemma {:induction false} BarredIffBlocked(p: Prim, opts: Options, m: Cas.Blobs, blobs: Cas.Blobs, t: Trees, paths: seq<string>)
    requires Placeable(m, t.a) && Placeable(m, t.b) && AllPaths(t, paths) && HasFiles(blobs, Entries(p, m, t, paths))
    ensures
      var es := Entries(p, m, t, paths);
      Barred(opts, PartsOf(es), es) <==> Blocked(p, opts, m, t)
  {
    var es := Entries(p, m, t, paths);
    var ps := PartsOf(es);
    if Blocked(p, opts, m, t) {
      var k, l :| Bars(opts, OutputAt(p, m, t, k), k, OutputAt(p, m, t, l), l);
      var i := EntryOfOutput(p, m, t, paths, k);
      var j := EntryOfOutput(p, m, t, paths, l);
      ShadowIs(p, opts, m, blobs, t, paths, i, j);
      assert Shadow(opts, ps, es, i, j) && !Through(opts, ps, es, i, j);
    }
    if Barred(opts, ps, es) {
      var i, j :| 0 <= i < |ps| && 0 <= j < |ps| && Shadow(opts, ps, es, i, j) && !Through(opts, ps, es, i, j);
      ShadowIs(p, opts, m, blobs, t, paths, i, j);
      assert Bars(opts, OutputAt(p, m, t, es[i].path), es[i].path, OutputAt(p, m, t, es[j].path), es[j].path);
    }
  }

  lemma {:induction false} UntangledIffNotLinked(p: Prim, opts: Options, m: Cas.Blobs, blobs: Cas.Blobs, t: Trees, paths: seq<string>)
    requires Placeable(m, t.a) && Placeable(m, t.b) && AllPaths(t, paths) && HasFiles(blobs, Entries(p, m, t, paths))
    ensures
      var es := Entries(p, m, t, paths);
      Untangled(opts, PartsOf(es), es) <==> !Linked(p, opts, m, t)
  {
    var es := Entries(p, m, t, paths);
    var ps := PartsOf(es);
    if Linked(p, opts, m, t) {
      var k, l :| Leads(opts, OutputAt(p, m, t, k), k, OutputAt(p, m, t, l), l);
      var i := EntryOfOutput(p, m, t, paths, k);
      var j := EntryOfOutput(p, m, t, paths, l);
      ShadowIs(p, opts, m, blobs, t, paths, i, j);
      assert Through(opts, ps, es, i, j);
    }
    if !Untangled(opts, ps, es) {
      var i, j :| 0 <= i < |ps| && 0 <= j < |ps| && Through(opts, ps, es, i, j);
      ShadowIs(p, opts, m, blobs, t, paths, i, j);
      assert Leads(opts, OutputAt(p, m, t, es[i].path), es[i].path, OutputAt(p, m, t, es[j].path), es[j].path);
    }
  }

  lemma {:induction false} StayIffNoneLeaves(p: Prim, m: Cas.Blobs, t: Trees, paths: seq<string>)
    requires Placeable(m, t.a) && Placeable(m, t.b) && AllPaths(t, paths)
    ensures
      var es := Entries(p, m, t, paths);
      StayTo(PartsOf(es), es, |es|) <==> !SomeLeaves(p, m, t)
  {
    var es := Entries(p, m, t, paths);
    if SomeLeaves(p, m, t) {
      var k :| Leaves(k, OutputAt(p, m, t, k));
      var i := EntryOfOutput(p, m, t, paths, k);
      assert Escapes(PartsOf(es)[i], es[i]);
    }
    if !StayTo(PartsOf(es), es, |es|) {
      var i :| 0 <= i < |es| && Escapes(PartsOf(es)[i], es[i]);
      EntryAtIndex(p, m, t, paths, i);
      assert Leaves(es[i].path, OutputAt(p, m, t, es[i].path));
    }
  }

  /** The outcome of restoring the merged entries: never a success where a link
      leaves or an entry is barred, and exactly otherwise a success where nothing
      goes through a link. */
  ghost predicate RestoresIff(p: Prim, f: System, opts: Options, m: Cas.Blobs, t: Trees, blobs: Cas.Blobs, es: seq<Entry>) {
    && (Rebuilt(f, opts, blobs, es).Success? ==> !SomeLeaves(p, m, t) && !Blocked(p, opts, m, t))
    && (!Linked(p, opts, m, t) ==>
          && (Rebuilt(f, opts, blobs, es).Success? <==> !SomeLeaves(p, m, t) && !Blocked(p, opts, m, t))
          && (!SomeLeaves(p, m, t) && Blocked(p, opts, m, t) ==> Rebuilt(f, opts, blobs, es) == Failure(OnDisk))
          && Rebuilt(f, opts, blobs, es) != Failure(LeavesRoot))
  }

  lemma {:induction false} EntriesRestoreIff(p: Prim, f: System, opts: Options, m: Cas.Blobs,
                                             t: Trees, paths: seq<string>, blobs: Cas.Blobs)
    requires Placeable(m, t.a) && Placeable(m, t.b) && AllPaths(t, paths) && HasFiles(blobs, Entries(p, m, t, paths))
    ensures RestoresIff(p, f, opts, m, t, blobs, Entries(p, m, t, paths))
  {
    var es := Entries(p, m, t, paths);
    MergedTitled(p, m, blobs, t, paths);
    RestorableIff(f, opts, blobs, PartsOf(es), es);
    BarredIffBlocked(p, opts, m, blobs, t, paths);
    UntangledIffNotLinked(p, opts, m, blobs, t, paths);
    StayIffNoneLeaves(p, m, t, paths);
  }

  /** The merged tree of two complete images, conflicts and markers included, fails
      to restore if a kept link leaves the root or a kept entry is barred, and this
      is all that can go wrong where nothing kept is below a kept link. */
  lemma {:induction false} MergedRestoresIff(p: Prim, f: System, opts: Options, m: Cas.Blobs, t: Trees, paths: seq<string>)
    requires Placeable(m, t.a) && Placeable(m, t.b) && AllPaths(t, paths) && Ready(p, m, t)
    ensures
      var r := Algebra.Run(p, m, t, paths);
      r.Some? && RestoresIff(p, f, opts, m, t, r.value.blobs, r.value.merged)
  {
    RunPerPath(p, m, t, paths);
    var r := Algebra.Run(p, m, t, paths).value;
    forall i | 0 <= i < |r.merged| && r.merged[i].kind == File
      ensures r.merged[i].blob.Some? && r.merged[i].blob.value in r.blobs
    {
      var e := r.merged[i];
      EntryAtIndex(p, m, t, paths, i);
      OutputOrigin(p, m, t, e.path);
      OriginTitled(m, r.blobs, t, e.path, e);
    }
    EntriesRestoreIff(p, f, opts, m, t, paths, r.blobs);
  }

  // ---------- merges without conflicts ----------

  /** A tree whose links stay inside and that has nothing above anything but
      directories, as every captured one: it restores by itself. */
  ghost predicate RestoresAlone(opts: Options, t: map<string, Entry>) {
    && (forall k :: k in t ==> !Leaves(k, At(t, k)))
    && forall k, l :: k in t && l in t ==> !Blocks(opts, At(t, k), k, At(t, l), l)
  }

  /** What is kept at `k` comes from this side, and not from the other as well. */
  predicate OnlyFrom(side: map<string, Entry>, other: map<string, Entry>, k: string, e: Option<Entry>) {
    e == At(side, k) && e != At(other, k)
  }

  /** Something only one side brings bars something only the other brings. */
  ghost predicate Crossed(p: Prim, opts: Options, m: Cas.Blobs, t: Trees) {
    exists k, l :: CrossedAt(opts, t, k, OutputAt(p, m, t, k), l, OutputAt(p, m, t, l))
  }

  predicate CrossedAt(opts: Options, t: Trees, k: string, e: Option<Entry>, l: string, g: Option<Entry>) {
    Bars(opts, e, k, g, l) && Across(t, k, e, l, g)
  }

  predicate Across(t: Trees, k: string, e: Option<Entry>, l: string, g: Option<Entry>) {
    (OnlyFrom(t.a, t.b, k, e) && OnlyFrom(t.b, t.a, l, g)) || (OnlyFrom(t.b, t.a, k, e) && OnlyFrom(t.a, t.b, l, g))
  }

  /** A link only one side brings above a file or link only the other brings. */
  ghost predicate CrossLinked(p: Prim, opts: Options, m: Cas.Blobs, t: Trees) {
    exists k, l :: CrossLinkedAt(opts, t, k, OutputAt(p, m, t, k), l, OutputAt(p, m, t, l))
  }

  predicate CrossLinkedAt(opts: Options, t: Trees, k: string, e: Option<Entry>, l: string, g: Option<Entry>) {
    Leads(opts, e, k, g, l) && Across(t, k, e, l, g)
  }

  /** The outcome of restoring a merge of two trees that restore, without conflicts. */
  ghost predicate CleanRestoresIff(p: Prim, f: System, opts: Options, m: Cas.Blobs, t: Trees, blobs: Cas.Blobs, es: seq<Entry>) {
    && (Crossed(p, opts, m, t) ==> Rebuilt(f, opts, blobs, es).Failure?)
    && (!CrossLinked(p, opts, m, t) ==> (Rebuilt(f, opts, blobs, es).Success? <==> !Crossed(p, opts, m, t)))
    && (!CrossLinked(p, opts, m, t) && Crossed(p, opts, m, t) ==> Rebuilt(f, opts, blobs, es) == Failure(OnDisk))
  }

  /** Two trees that restore, merged without a conflict, do not restore if a file
      that only one of them brings stands above something that only the other
      brings, or such a link above such a directory. Where no such link stands
      above such a file or link, they restore if and only if that is not so. */
  lemma {:induction false} CleanMergeRestoresIff(p: Prim, f: System, opts: Options, m: Cas.Blobs, t: Trees, paths: seq<string>)
    requires Placeable(m, t.a) && Placeable(m, t.b) && AllPaths(t, paths)
    requires RestoresAlone(opts, t.a) && RestoresAlone(opts, t.b)
    requires forall k :: k in paths ==> !ConflictedAt(t, k)
    ensures
      var r := Algebra.Run(p, m, t, paths);
      r.Some? && r.value.conflicts == [] && CleanRestoresIff(p, f, opts, m, t, r.value.blobs, r.value.merged)
  {
    forall k | k in paths
      ensures Algebra.QuietAt(t, k)
    {
      assert !ConflictedAt(t, k);
    }
    Algebra.QuietRun(p, m, t, paths);
    Algebra.NoConflicts(p, t, paths);
    forall k
      ensures FromASide(t, k, OutputAt(p, m, t, k))
    {
      CleanOutput(p, m, t, paths, k);
    }
    CleanHasFiles(p, m, t, paths);
    EntriesRestoreIff(p, f, opts, m, t, paths, m);
    CleanOutcome(p, f, opts, m, t, m, Entries(p, m, t, paths));
  }

  lemma {:induction false} CleanOutcome(p: Prim, f: System, opts: Options, m: Cas.Blobs, t: Trees, blobs: Cas.Blobs, es: seq<Entry>)
    requires RestoresAlone(opts, t.a) && RestoresAlone(opts, t.b)
    requires forall k :: FromASide(t, k, OutputAt(p, m, t, k))
    requires RestoresIff(p, f, opts, m, t, blobs, es)
    ensures CleanRestoresIff(p, f, opts, m, t, blobs, es)
  {
    NoneLeaves(p, opts, m, t);
    BlockedIffCrossed(p, opts, m, t);
  }

  lemma {:induction false} CleanHasFiles(p: Prim, m: Cas.Blobs, t: Trees, paths: seq<string>)
    requires Placeable(m, t.a) && Placeable(m, t.b) && AllPaths(t, paths)
    requires forall k :: FromASide(t, k, OutputAt(p, m, t, k))
    ensures HasFiles(m, Entries(p, m, t, paths))
  {
    var es := Entries(p, m, t, paths);
    forall i | 0 <= i < |es| && es[i].kind == File
      ensures es[i].blob.Some? && es[i].blob.value in m
    {
      EntryAtIndex(p, m, t, paths, i);
      assert FromASide(t, es[i].path, OutputAt(p, m, t, es[i].path));
      assert es[i].path in t.a ==> TitledAt(m, Parts(es[i].path), t.a[es[i].path]);
      assert es[i].path in t.b ==> TitledAt(m, Parts(es[i].path), t.b[es[i].path]);
    }
  }

  predicate FromASide(t: Trees, k: string, e: Option<Entry>) { e == At(t.a, k) || e == At(t.b, k) }

  lemma {:induction false} CleanOutput(p: Prim, m: Cas.Blobs, t: Trees, paths: seq<string>, k: string)
    requires AllPaths(t, paths) && forall q :: q in paths ==> !ConflictedAt(t, q)
    ensures FromASide(t, k, OutputAt(p, m, t, k))
  {
    if k in paths {
      assert !ConflictedAt(t, k);
    }
  }

  lemma {:induction false} NoneLeaves(p: Prim, opts: Options, m: Cas.Blobs, t: Trees)
    requires RestoresAlone(opts, t.a) && RestoresAlone(opts, t.b)
    requires forall k :: FromASide(t, k, OutputAt(p, m, t, k))
    ensures !SomeLeaves(p, m, t)
  {
    forall k
      ensures !Leaves(k, OutputAt(p, m, t, k))
    {
      assert FromASide(t, k, OutputAt(p, m, t, k));
      assert k in t.a ==> !Leaves(k, At(t.a, k));
      assert k in t.b ==> !Leaves(k, At(t.b, k));
    }
  }

  lemma {:induction false} BlocksAcross(opts: Options, t: Trees, k: string, e: Option<Entry>, l: string, g: Option<Entry>)
    requires RestoresAlone(opts, t.a) && RestoresAlone(opts, t.b)
    requires FromASide(t, k, e) && FromASide(t, l, g)
    ensures Blocks(opts, e, k, g, l) ==> Across(t, k, e, l, g)
  {
    assert k in t.a && l in t.a ==> !Blocks(opts, At(t.a, k), k, At(t.a, l), l);
    assert k in t.b && l in t.b ==> !Blocks(opts, At(t.b, k), k, At(t.b, l), l);
  }

  lemma {:induction false} BlockedIffCrossed(p: Prim, opts: Options, m: Cas.Blobs, t: Trees)
    requires RestoresAlone(opts, t.a) && RestoresAlone(opts, t.b)
    requires forall k :: FromASide(t, k, OutputAt(p, m, t, k))
    ensures Blocked(p, opts, m, t) <==> Crossed(p, opts, m, t)
    ensures Linked(p, opts, m, t) <==> CrossLinked(p, opts, m, t)
  {
    forall k, l
      ensures Bars(opts, OutputAt(p, m, t, k), k, OutputAt(p, m, t, l), l) <==>
        CrossedAt(opts, t, k, OutputAt(p, m, t, k), l, OutputAt(p, m, t, l))
      ensures Leads(opts, OutputAt(p, m, t, k), k, OutputAt(p, m, t, l), l) <==>
        CrossLinkedAt(opts, t, k, OutputAt(p, m, t, k), l, OutputAt(p, m, t, l))
    {
      assert FromASide(t, k, OutputAt(p, m, t, k)) && FromASide(t, l, OutputAt(p, m, t, l));
      BlocksAcross(opts, t, k, OutputAt(p, m, t, k), l, OutputAt(p, m, t, l));
    }
  }

  // ---------- an example ----------

  function FolderAt(path: string): Entry { Entry(path, "0755", 0, Dir, None, None) }

  function FileAt(path: string, d: Digest, size: u64): Entry { Entry(path, "0644", size, File, Some(d), None) }

  /** A made the directory `k` a file; B left it alone and put the file `l` into it. */
  function Turned(k: string, l: string, d: Digest, size: u64): Trees {
    Trees(map[k := FileAt(k, d, size)], map[k := FolderAt(k), l := FileAt(l, d, size)], map[k := FolderAt(k)])
  }

  /** The texts `k` and `l` of a directory and of a path in it. */
  predicate Inside(dir: Rel, path: Rel, k: string, l: string) {
    && dir != [] && path != [] && dir == DirOf(path) && IsRel(dir) && IsRel(path) && Plain(dir) && Plain(path)
    && k == Render(dir) && l == Render(path) && StrLe(k, l)
  }

  lemma {:induction false} InsideParts(dir: Rel, path: Rel, k: string, l: string)
    requires Inside(dir, path, k, l)
    ensures Parts(k) == dir && Parts(l) == path && k != l && |dir| < |path|
  {
    PathRoundTrip(dir);
    PathRoundTrip(path);
  }

  /** The merge has no conflict, each side restores, and the result does not. */
  lemma {:induction false} CleanMergeDoesNotRestore(p: Prim, f: System, opts: Options, m: Cas.Blobs, d: Digest, size: u64)
    requires d in m
    ensures
      var t := Turned("a", "a/b", d, size);
      var r := Algebra.Run(p, m, t, ["a", "a/b"]);
      && RestoresAlone(opts, t.a) && RestoresAlone(opts, t.b)
      && r.Some? && r.value.conflicts == []
      && r.value.merged == [FileAt("a", d, size), FileAt("a/b", d, size)]
      && Rebuilt(f, opts, r.value.blobs, r.value.merged) == Failure(OnDisk)
  {
    InsideText();
    InsideParts(["a"], ["a", "b"], "a", "a/b");
    TurnedSides(opts, "a", "a/b", d, size);
    TurnedFails(p, f, opts, m, ["a"], ["a", "b"], "a", "a/b", d, size);
  }

  lemma {:induction false} InsideText()
    ensures Inside(["a"], ["a", "b"], "a", "a/b")
  {
    assert Render(["a"]) == "a";
    assert Join(["a", "b"]) == "a/b" by {
      assert ["a", "b"][1..] == ["b"];
    }
    assert Render(["a", "b"]) == "a/b";
    assert DirOf(["a", "b"]) == ["a"];
  }

  lemma {:induction false} TurnedFails(p: Prim, f: System, opts: Options, m: Cas.Blobs, dir: Rel, path: Rel,
                                       k: string, l: string, d: Digest, size: u64)
    requires d in m && Inside(dir, path, k, l)
    ensures
      var t := Turned(k, l, d, size);
      var r := Algebra.Run(p, m, t, [k, l]);
      && r.Some? && r.value.conflicts == []
      && r.value.merged == [FileAt(k, d, size), FileAt(l, d, size)]
      && Rebuilt(f, opts, r.value.blobs, r.value.merged) == Failure(OnDisk)
  {
    var t := Turned(k, l, d, size);
    InsideParts(dir, path, k, l);
    TurnedPlaceable(m, dir, path, k, l, d, size);
    TurnedSides(opts, k, l, d, size);
    TurnedAllPaths(k, l, d, size);
    TurnedOutputs(p, m, k, l, d, size);
    TurnedCrossed(p, opts, m, dir, path, k, l, d, size);
    TurnedUnlinked(p, opts, m, k, l, d, size);
    CleanMergeRestoresIff(p, f, opts, m, t, [k, l]);
    TurnedMerged(p, m, k, l, d, size);
  }

  lemma {:induction false} TurnedPlaceable(m: Cas.Blobs, dir: Rel, path: Rel, k: string, l: string, d: Digest, size: u64)
    requires d in m && Inside(dir, path, k, l)
    ensures Placeable(m, Turned(k, l, d, size).a) && Placeable(m, Turned(k, l, d, size).b)
  {
    hide SafePath, Plain;
    InsideParts(dir, path, k, l);
    assert TitledAt(m, dir, FileAt(k, d, size)) && TitledAt(m, dir, FolderAt(k)) && TitledAt(m, path, FileAt(l, d, size));
  }

  lemma {:induction false} TurnedAllPaths(k: string, l: string, d: Digest, size: u64)
    requires k != l && StrLe(k, l)
    ensures AllPaths(Turned(k, l, d, size), [k, l])
  {
  }

  /** Nothing lies above anything else if no path is longer than that of a file. */
  lemma {:induction false} FlatRestores(opts: Options, t: map<string, Entry>)
    requires forall k :: k in t ==> t[k].kind != Symlink
    requires forall k, l :: k in t && l in t && t[k].kind == File ==> |Parts(l)| <= |Parts(k)|
    ensures RestoresAlone(opts, t)
  {
    forall k, l | k in t && l in t && t[k].kind == File
      ensures !Blocks(opts, At(t, k), k, At(t, l), l)
    {
      NotAbove(opts, At(t, k), k, At(t, l), l);
    }
  }

  lemma {:induction false} NotAbove(opts: Options, upper: Option<Entry>, k: string, lower: Option<Entry>, l: string)
    requires |Parts(l)| <= |Parts(k)|
    ensures !Blocks(opts, upper, k, lower, l)
  {
  }

  lemma {:induction false} TurnedSides(opts: Options, k: string, l: string, d: Digest, size: u64)
    requires k != l && |Parts(k)| < |Parts(l)|
    ensures RestoresAlone(opts, Turned(k, l, d, size).a) && RestoresAlone(opts, Turned(k, l, d, size).b)
  {
    FlatRestores(opts, Turned(k, l, d, size).a);
    FlatRestores(opts, Turned(k, l, d, size).b);
  }

  lemma {:induction false} TurnedOutputs(p: Prim, m: Cas.Blobs, k: string, l: string, d: Digest, size: u64)
    requires k != l
    ensures
      var t := Turned(k, l, d, size);
      && OutputAt(p, m, t, k) == Some(FileAt(k, d, size)) && OutputAt(p, m, t, l) == Some(FileAt(l, d, size))
      && !ConflictedAt(t, k) && !ConflictedAt(t, l)
  {
  }

  lemma {:induction false} TurnedCrossed(p: Prim, opts: Options, m: Cas.Blobs, dir: Rel, path: Rel,
                                         k: string, l: string, d: Digest, size: u64)
    requires Inside(dir, path, k, l)
    ensures Crossed(p, opts, m, Turned(k, l, d, size))
  {
    var t := Turned(k, l, d, size);
    InsideParts(dir, path, k, l);
    TurnedOutputs(p, m, k, l, d, size);
    assert Bars(opts, OutputAt(p, m, t, k), k, OutputAt(p, m, t, l), l);
    assert CrossedAt(opts, t, k, OutputAt(p, m, t, k), l, OutputAt(p, m, t, l));
  }

  lemma {:induction false} TurnedUnlinked(p: Prim, opts: Options, m: Cas.Blobs, k: string, l: string, d: Digest, size: u64)
    requires k != l
    ensures !CrossLinked(p, opts, m, Turned(k, l, d, size))
  {
    var t := Turned(k, l, d, size);
    TurnedOutputs(p, m, k, l, d, size);
    forall q
      ensures OutputAt(p, m, t, q).Some? ==> OutputAt(p, m, t, q).value.kind != Symlink
    {
      assert q != k && q != l ==> OutputAt(p, m, t, q).None?;
    }
  }

  lemma {:induction false} TurnedMerged(p: Prim, m: Cas.Blobs, k: string, l: string, d: Digest, size: u64)
    requires k != l
    ensures
      var r := Algebra.Run(p, m, Turned(k, l, d, size), [k, l]);
      r.Some? && r.value.merged == [FileAt(k, d, size), FileAt(l, d, size)]
  {
    var t := Turned(k, l, d, size);
    TurnedOutputs(p, m, k, l, d, size);
    Algebra.QuietRun(p, m, t, [k, l]);
    EntriesOfTwo(p, m, t, k, l);
  }

  lemma {:induction false} EntriesOfTwo(p: Prim, m: Cas.Blobs, t: Trees, k: string, l: string)
    ensures Entries(p, m, t, [k, l]) == Optional(OutputAt(p, m, t, k)) + Optional(OutputAt(p, m, t, l))
  {
    assert [k, l][1..] == [l] && [l][1..] == [];
    assert Entries(p, m, t, [l]) == Optional(OutputAt(p, m, t, l)) + Entries(p, m, t, []);
    assert Entries(p, m, t, [k, l]) == Optional(OutputAt(p, m, t, k)) + Entries(p, m, t, [l]);
  }
}
