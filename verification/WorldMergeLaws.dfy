/** What `merge_world` promises about the merged tree. */
module WorldMergeLaws {
  import opened Bits
  import opened Base
  import opened Sorting
  import opened Tree
  import opened WorldMerge
  import Cas

  /** The entry of the merged tree for a path, given the two sides' and the ancestor's. */
  function Output(p: Prim, m: Cas.Blobs, a: Option<Entry>, b: Option<Entry>, x: Option<Entry>): Option<Entry> {
    match Decide(a, b, x)
    case Absent => None
    case Take(choice) => choice
    case KeepModified(e) => Some(e)
    case Clash(e, f) =>
      match MarkerText(p, m, e, f)
      case Some(text) => Some(MarkerEntry(e, Of(p, text), Size64(text)))
      case None => None
  }

  function MarkerText(p: Prim, m: Cas.Blobs, e: Entry, f: Entry): Option<Bytes> {
    match (Content(p, m, e), Content(p, m, f))
    case (Some(ea), Some(fb)) => Some(Marked(p, ea, fb))
    case _ => None
  }

  predicate Conflicted(a: Option<Entry>, b: Option<Entry>, x: Option<Entry>) {
    Decide(a, b, x).KeepModified? || Decide(a, b, x).Clash?
  }

  function OutputAt(p: Prim, m: Cas.Blobs, t: Trees, k: string): Option<Entry> {
    Output(p, m, At(t.a, k), At(t.b, k), At(t.x, k))
  }

  predicate ConflictedAt(t: Trees, k: string) { Conflicted(At(t.a, k), At(t.b, k), At(t.x, k)) }

  predicate CleanAt(t: Trees, k: string) { (k in t.a || k in t.b) && !ConflictedAt(t, k) }

  function CleanCount(t: Trees, k: string): nat { if CleanAt(t, k) then 1 else 0 }

  function Entries(p: Prim, m: Cas.Blobs, t: Trees, paths: seq<string>): seq<Entry> {
    if paths == [] then [] else Optional(OutputAt(p, m, t, paths[0])) + Entries(p, m, t, paths[1..])
  }

  function Conflicts(p: Prim, t: Trees, paths: seq<string>): seq<Conflict> {
    if paths == [] then []
    else ConflictsAt(p, t, paths[0]) + Conflicts(p, t, paths[1..])
  }

  function ConflictsAt(p: Prim, t: Trees, k: string): seq<Conflict> {
    if ConflictedAt(t, k) then [Pair(p, t, k)] else []
  }

  function Pair(p: Prim, t: Trees, k: string): Conflict { ConflictAt(p, k, At(t.a, k), At(t.b, k), At(t.x, k)) }

  function Cleans(t: Trees, paths: seq<string>): nat {
    if paths == [] then 0 else CleanCount(t, paths[0]) + Cleans(t, paths[1..])
  }

  ghost predicate ClosedMap(m: Cas.Blobs, t: map<string, Entry>) {
    forall k :: k in t && t[k].blob.Some? ==> t[k].blob.value in m
  }

  /** The marker texts this merge may write. */
  ghost function MarkerTexts(p: Prim, m: Cas.Blobs, t: Trees): set<Bytes> {
    set k | k in t.a && k in t.b && MarkerText(p, m, t.a[k], t.b[k]).Some? :: MarkerText(p, m, t.a[k], t.b[k]).value
  }

  /** The situation of every merge of complete images: both sides' blobs are
      stored, and nothing read or written collides. */
  ghost predicate Ready(p: Prim, m: Cas.Blobs, t: Trees) {
    && Cas.Keyed(p, m) && ClosedMap(m, t.a) && ClosedMap(m, t.b)
    && CollisionFree(p, m.Values + MarkerTexts(p, m, t))
  }

  ghost predicate Between(p: Prim, m: Cas.Blobs, t: Trees, now: Cas.Blobs) {
    && Cas.Keyed(p, now) && Cas.Extends(m, now)
    && now.Values <= m.Values + MarkerTexts(p, m, t)
  }

  /** From `s` to `s'` the loop added these entries and conflicts, and stored
      every blob the new entries name. */
  ghost predicate Advances(p: Prim, m: Cas.Blobs, t: Trees, s: Progress, s': Progress,
                           out: seq<Entry>, conflicts: seq<Conflict>, clean: nat) {
    && Between(p, m, t, s'.blobs) && Cas.Extends(s.blobs, s'.blobs)
    && s'.merged == s.merged + out && s'.conflicts == s.conflicts + conflicts && s'.clean == s.clean + clean
    && BlobClosed(s'.blobs, out)
  }

  lemma {:induction false} AdvancesCompose(p: Prim, m: Cas.Blobs, t: Trees, s: Progress, s1: Progress, s2: Progress,
                                           out: seq<Entry>, conflicts: seq<Conflict>, clean: nat,
                                           out': seq<Entry>, conflicts': seq<Conflict>, clean': nat)
    requires Advances(p, m, t, s, s1, out, conflicts, clean)
    requires Advances(p, m, t, s1, s2, out', conflicts', clean')
    ensures Advances(p, m, t, s, s2, out + out', conflicts + conflicts', clean + clean')
  {
    assert s.merged + (out + out') == (s.merged + out) + out';
    assert s.conflicts + (conflicts + conflicts') == (s.conflicts + conflicts) + conflicts';
    forall i | 0 <= i < |out + out'| && (out + out')[i].blob.Some?
      ensures (out + out')[i].blob.value in s2.blobs
    {
      assert (out + out')[i] == if i < |out| then out[i] else out'[i - |out|];
    }
  }

  lemma {:induction false} StepPerPath(p: Prim, m: Cas.Blobs, t: Trees, s: Progress, k: string)
    requires Ready(p, m, t) && Between(p, m, t, s.blobs)
    ensures StepAt(p, s, t, k).Some?
    ensures Advances(p, m, t, s, StepAt(p, s, t, k).value, Optional(OutputAt(p, m, t, k)), ConflictsAt(p, t, k),
                     CleanCount(t, k))
  {
    if Decide(At(t.a, k), At(t.b, k), At(t.x, k)).Clash? {
      ClashAdvances(p, m, t, s, k);
    } else {
      QuietAdvances(p, m, t, s, k);
    }
  }

  lemma {:induction false} QuietAdvances(p: Prim, m: Cas.Blobs, t: Trees, s: Progress, k: string)
    requires Ready(p, m, t) && Between(p, m, t, s.blobs)
    requires !Decide(At(t.a, k), At(t.b, k), At(t.x, k)).Clash?
    ensures StepAt(p, s, t, k).Some?
    ensures Advances(p, m, t, s, StepAt(p, s, t, k).value, Optional(OutputAt(p, m, t, k)), ConflictsAt(p, t, k),
                     CleanCount(t, k))
  {
    QuietStep(p, m, t, s, k);
    var s' := StepAt(p, s, t, k).value;
    assert Between(p, m, t, s'.blobs);
  }

  lemma {:induction false} QuietStep(p: Prim, m: Cas.Blobs, t: Trees, s: Progress, k: string)
    requires !Decide(At(t.a, k), At(t.b, k), At(t.x, k)).Clash?
    ensures StepAt(p, s, t, k) == Some(Progress(s.blobs, s.merged + Optional(OutputAt(p, m, t, k)),
                                                s.conflicts + ConflictsAt(p, t, k), s.clean + CleanCount(t, k)))
  {
    assert s.conflicts + [] == s.conflicts && s.merged + [] == s.merged;
    assert Decide(At(t.a, k), At(t.b, k), At(t.x, k)).Absent? <==> k !in t.a && k !in t.b;
  }

  lemma {:induction false} ClashAdvances(p: Prim, m: Cas.Blobs, t: Trees, s: Progress, k: string)
    requires Ready(p, m, t) && Between(p, m, t, s.blobs)
    requires Decide(At(t.a, k), At(t.b, k), At(t.x, k)).Clash?
    ensures StepAt(p, s, t, k).Some?
    ensures Advances(p, m, t, s, StepAt(p, s, t, k).value, Optional(OutputAt(p, m, t, k)), ConflictsAt(p, t, k),
                     CleanCount(t, k))
  {
    ClashStep(p, m, t, s, k);
    assert k in t.a && k in t.b && ConflictedAt(t, k);
    assert Decide(At(t.a, k), At(t.b, k), At(t.x, k)) == Clash(t.a[k], t.b[k]);
  }

  lemma {:induction false} ClashStep(p: Prim, m: Cas.Blobs, t: Trees, s: Progress, k: string)
    requires Ready(p, m, t) && Between(p, m, t, s.blobs)
    requires Decide(At(t.a, k), At(t.b, k), At(t.x, k)).Clash?
    ensures
      var text := MarkerText(p, m, t.a[k], t.b[k]);
      && text.Some? && MarkerText(p, s.blobs, t.a[k], t.b[k]) == text
      && var now := Cas.Stored(p, s.blobs, text.value);
         Between(p, m, t, now) && Cas.Extends(s.blobs, now) && Of(p, text.value) in now && now[Of(p, text.value)] == text.value
  {
    assert Content(p, s.blobs, t.a[k]) == Content(p, m, t.a[k]) && Content(p, m, t.a[k]).Some?;
    assert Content(p, s.blobs, t.b[k]) == Content(p, m, t.b[k]) && Content(p, m, t.b[k]).Some?;
    var text := MarkerText(p, m, t.a[k], t.b[k]).value;
    var inputs := m.Values + MarkerTexts(p, m, t);
    assert text in inputs;
    Cas.StoredGrows(p, s.blobs, text);
    if Of(p, text) in s.blobs {
      assert s.blobs[Of(p, text)] in s.blobs.Values;
      OfInjective(p, inputs, s.blobs[Of(p, text)], text);
    } else {
      var now := Cas.Stored(p, s.blobs, text);
      forall v | v in now.Values
        ensures v in inputs
      {
        assert v == text || v in s.blobs.Values;
      }
    }
  }

  /** The loop never fails on complete images, and what it accumulates is the
      per-path outcome of every path in turn. */
  lemma {:induction false} FoldPerPath(p: Prim, m: Cas.Blobs, t: Trees, s: Progress, paths: seq<string>)
    requires Ready(p, m, t) && Between(p, m, t, s.blobs)
    ensures Fold(p, s, t, paths).Some?
    ensures Advances(p, m, t, s, Fold(p, s, t, paths).value,
                     Entries(p, m, t, paths), Conflicts(p, t, paths), Cleans(t, paths))
    decreases |paths|
  {
    if paths == [] {
      assert s.merged + [] == s.merged && s.conflicts + [] == s.conflicts;
    } else {
      var k := paths[0];
      StepPerPath(p, m, t, s, k);
      var next := StepAt(p, s, t, k).value;
      FoldPerPath(p, m, t, next, paths[1..]);
      AdvancesCompose(p, m, t, s, next, Fold(p, s, t, paths).value,
                      Optional(OutputAt(p, m, t, k)), ConflictsAt(p, t, k), CleanCount(t, k),
                      Entries(p, m, t, paths[1..]), Conflicts(p, t, paths[1..]), Cleans(t, paths[1..]));
    }
  }

  /** The whole loop on complete images. */
  lemma {:induction false} RunPerPath(p: Prim, m: Cas.Blobs, t: Trees, paths: seq<string>)
    requires Ready(p, m, t)
    ensures
      var r := Fold(p, Progress(m, [], [], 0), t, paths);
      && r.Some?
      && r.value.merged == Entries(p, m, t, paths)
      && r.value.conflicts == Conflicts(p, t, paths)
      && r.value.clean == Cleans(t, paths)
      && BlobClosed(r.value.blobs, r.value.merged) && Cas.Extends(m, r.value.blobs)
  {
    FoldPerPath(p, m, t, Progress(m, [], [], 0), paths);
    assert [] + Entries(p, m, t, paths) == Entries(p, m, t, paths);
    assert [] + Conflicts(p, t, paths) == Conflicts(p, t, paths);
  }

  // ---------- shape of the merged tree ----------

  function PathsOf(es: seq<Entry>): seq<string> {
    if es == [] then [] else [es[0].path] + PathsOf(es[1..])
  }

  ghost predicate OwnPaths(t: map<string, Entry>) { forall k :: k in t ==> t[k].path == k }

  lemma {:induction false} MapOfOwnPaths(es: seq<Entry>)
    ensures OwnPaths(MapOf(es))
    ensures forall k :: k in MapOf(es) <==> exists i :: 0 <= i < |es| && es[i].path == k
  {
    if es != [] {
      MapOfOwnPaths(es[..|es| - 1]);
      assert es == es[..|es| - 1] + [es[|es| - 1]];
    }
  }

  lemma {:induction false} AscendingCons(k: string, later: seq<string>, rest: seq<string>)
    requires Ascending([k] + later) && Ascending(rest) && forall q :: q in rest ==> q in later
    ensures Ascending([k] + rest)
  {
    forall j | 0 <= j < |rest|
      ensures StrLe(k, rest[j]) && k != rest[j]
    {
      assert rest[j] in rest;
      var i :| 0 <= i < |later| && later[i] == rest[j];
      assert ([k] + later)[i + 1] == rest[j] && ([k] + later)[0] == k;
    }
  }

  lemma {:induction false} OutputPath(p: Prim, m: Cas.Blobs, t: Trees, k: string)
    requires OwnPaths(t.a) && OwnPaths(t.b)
    ensures OutputAt(p, m, t, k).Some? ==> OutputAt(p, m, t, k).value.path == k
  {
  }

  lemma {:induction false} EntriesArePerPath(p: Prim, m: Cas.Blobs, t: Trees, paths: seq<string>)
    requires OwnPaths(t.a) && OwnPaths(t.b) && Ascending(paths)
    ensures Ascending(PathsOf(Entries(p, m, t, paths)))
    ensures forall e :: e in Entries(p, m, t, paths) <==> e.path in paths && OutputAt(p, m, t, e.path) == Some(e)
    ensures forall k :: k in PathsOf(Entries(p, m, t, paths)) ==> k in paths
  {
    if paths != [] {
      var k, rest := paths[0], Entries(p, m, t, paths[1..]);
      EntriesArePerPath(p, m, t, paths[1..]);
      OutputPath(p, m, t, k);
      assert paths == [k] + paths[1..];
      var out := OutputAt(p, m, t, k);
      if out.Some? {
        assert ([out.value] + rest)[1..] == rest;
        assert PathsOf([out.value] + rest) == [k] + PathsOf(rest);
        AscendingCons(k, paths[1..], PathsOf(rest));
      } else {
        assert Optional(out) + rest == rest;
      }
    }
  }

  /** The merged tree has one entry per surviving path, in strictly ascending
      order, and each entry is the three-way decision for its path. */
  lemma {:induction false} MergedTreeShape(p: Prim, m: Cas.Blobs, t: Trees, paths: seq<string>)
    requires Ready(p, m, t) && AllPaths(t, paths) && OwnPaths(t.a) && OwnPaths(t.b)
    ensures
      var r := Fold(p, Progress(m, [], [], 0), t, paths);
      && r.Some?
      && Ascending(PathsOf(r.value.merged))
      && (forall e :: e in r.value.merged <==> OutputAt(p, m, t, e.path) == Some(e))
      && BlobClosed(r.value.blobs, r.value.merged)
      && Cas.Extends(m, r.value.blobs)
  {
    RunPerPath(p, m, t, paths);
    EntriesArePerPath(p, m, t, paths);
    forall e: Entry | OutputAt(p, m, t, e.path) == Some(e)
      ensures e.path in paths
    {
    }
  }

  function Present(t: Trees, paths: seq<string>): set<string> {
    if paths == [] then {}
    else Present(t, paths[1..]) + (if paths[0] in t.a || paths[0] in t.b then {paths[0]} else {})
  }

  lemma {:induction false} PresentIs(t: Trees, paths: seq<string>)
    ensures forall k :: k in Present(t, paths) <==> k in paths && (k in t.a || k in t.b)
  {
    if paths != [] {
      PresentIs(t, paths[1..]);
      assert paths == [paths[0]] + paths[1..];
    }
  }

  lemma {:induction false} CountOne(p: Prim, t: Trees, k: string)
    ensures CleanCount(t, k) + |ConflictsAt(p, t, k)| == if k in t.a || k in t.b then 1 else 0
  {
  }

  lemma {:induction false} PresentAll(t: Trees, paths: seq<string>)
    requires AllPaths(t, paths)
    ensures Present(t, paths) == t.a.Keys + t.b.Keys
  {
    PresentIs(t, paths);
  }

  lemma {:induction false} CountPaths(p: Prim, t: Trees, paths: seq<string>)
    requires Ascending(paths)
    ensures Cleans(t, paths) + |Conflicts(p, t, paths)| == |Present(t, paths)|
  {
    if paths != [] {
      CountPaths(p, t, paths[1..]);
      CountOne(p, t, paths[0]);
      PresentIs(t, paths[1..]);
      assert paths[0] !in paths[1..];
    }
  }

  /** Every path of either side is counted exactly once: as clean or as a conflict. */
  lemma {:induction false} EveryPathCounted(p: Prim, m: Cas.Blobs, t: Trees, paths: seq<string>)
    requires Ready(p, m, t) && AllPaths(t, paths)
    ensures
      var r := Fold(p, Progress(m, [], [], 0), t, paths);
      r.Some? && r.value.clean + |r.value.conflicts| == |t.a.Keys + t.b.Keys|
  {
    RunPerPath(p, m, t, paths);
    CountPaths(p, t, paths);
    PresentAll(t, paths);
  }
}
