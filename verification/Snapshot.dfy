/** `Snapshotter::snapshot`: five captures at once, one manifest. */
module Snapshot {
  import opened Bits
  import opened Base
  import opened Manifests
  import opened DiskStore
  import Cas

  const MEDIATYPE_V1: string := "application/vnd.processfork.image.v1+json"

  datatype Layer =
    | ModelLayer(base: Digest, diff: Digest)
    | CacheLayer(layout: string, manifest: Digest)
    | WorldLayer(fs: Digest, env: Digest, procs: Digest)
    | EffectsLayer(ledger: Digest)
    | TraceLayer(messages: Digest)

  /** What a capture does next: put some bytes, or end with a layer or a failure. */
  datatype Move = PutNext(bytes: Bytes) | Finish(layer: Option<Layer>)

  /** One capture decides by the digests that its puts have returned so far. */
  datatype Capture = Capture(next: seq<Digest> -> Move)

  // ---------- interleavings ----------

  /** The store, and the digests each thread has received. */
  datatype State = State(blobs: Cas.Blobs, got: seq<seq<Digest>>)

  predicate Enabled(captures: seq<Capture>, s: State, t: nat) {
    t < |captures| && |s.got| == |captures| && captures[t].next(s.got[t]).PutNext?
  }

  function Next(p: Prim, captures: seq<Capture>, s: State, t: nat): State
    requires Enabled(captures, s, t)
  {
    var b := captures[t].next(s.got[t]).bytes;
    State(Cas.Stored(p, s.blobs, b), s.got[t := s.got[t] + [Of(p, b)]])
  }

  /** A run of the threads, one put at a time. */
  ghost predicate Run(p: Prim, captures: seq<Capture>, m: Cas.Blobs, states: seq<State>, schedule: seq<nat>) {
    && |states| == |schedule| + 1
    && states[0] == State(m, seq(|captures|, _ => []))
    && forall i :: 0 <= i < |schedule| ==>
         Enabled(captures, states[i], schedule[i]) && states[i + 1] == Next(p, captures, states[i], schedule[i])
  }

  /** All threads have ended, as `thread::scope` waits for. */
  predicate Joined(captures: seq<Capture>, s: State) {
    |s.got| == |captures| && forall t :: 0 <= t < |captures| ==> captures[t].next(s.got[t]).Finish?
  }

  /** What the threads returned. */
  function Results(captures: seq<Capture>, s: State): seq<Option<Layer>>
    requires Joined(captures, s)
  {
    seq(|captures|, t requires 0 <= t < |captures| => captures[t].next(s.got[t]).layer)
  }

  /** The digests a capture has received after `k` puts when it runs alone. */
  function Solo(p: Prim, capture: Capture, k: nat): (r: seq<Digest>)
    ensures |r| <= k
  {
    if k == 0 then []
    else
      var before := Solo(p, capture, k - 1);
      match capture.next(before)
      case PutNext(b) => before + [Of(p, b)]
      case Finish(_) => before
  }

  /** So far the thread has done what it does alone, without coming to its end. */
  ghost predicate Follows(p: Prim, capture: Capture, got: seq<Digest>) {
    && got == Solo(p, capture, |got|)
    && forall k :: 0 <= k < |got| ==> capture.next(Solo(p, capture, k)).PutNext?
  }

  ghost predicate PutAt(p: Prim, capture: Capture, k: nat, b: Bytes) {
    capture.next(Solo(p, capture, k)) == PutNext(b)
  }

  /** `b` is among the bytes the threads have put. */
  ghost predicate PutBy(p: Prim, captures: seq<Capture>, got: seq<seq<Digest>>, b: Bytes) {
    exists t: nat, k: nat :: t < |captures| && t < |got| && k < |got[t]| && PutAt(p, captures[t], k, b)
  }

  ghost predicate DigestPut(p: Prim, captures: seq<Capture>, got: seq<seq<Digest>>, d: Digest) {
    exists b :: PutBy(p, captures, got, b) && Of(p, b) == d
  }

  /** `inputs` contains what the store holds and whatever the captures put. */
  ghost predicate InputsCover(p: Prim, captures: seq<Capture>, m: Cas.Blobs, inputs: set<Bytes>) {
    && m.Values <= inputs
    && forall t: nat, k: nat, b | t < |captures| && PutAt(p, captures[t], k, b) :: b in inputs
  }

  /** Each thread follows its own course, and the store holds what it held and
      what has been put, and no more. */
  ghost predicate Inv(p: Prim, captures: seq<Capture>, m: Cas.Blobs, inputs: set<Bytes>, s: State) {
    && |s.got| == |captures|
    && (forall t :: 0 <= t < |captures| ==> Follows(p, captures[t], s.got[t]))
    && Cas.Keyed(p, s.blobs) && s.blobs.Values <= inputs
    && forall d :: d in s.blobs <==> d in m || DigestPut(p, captures, s.got, d)
  }

  lemma {:induction false} FollowsNext(p: Prim, capture: Capture, got: seq<Digest>)
    requires Follows(p, capture, got) && capture.next(got).PutNext?
    ensures Follows(p, capture, got + [Of(p, capture.next(got).bytes)])
    ensures PutAt(p, capture, |got|, capture.next(got).bytes)
  {
  }

  lemma {:induction false} PutByStep(p: Prim, captures: seq<Capture>, got: seq<seq<Digest>>, t: nat, d: Digest, b: Bytes)
    requires t < |captures| == |got|
    ensures PutBy(p, captures, got[t := got[t] + [d]], b) <==> PutBy(p, captures, got, b) || PutAt(p, captures[t], |got[t]|, b)
  {
    var got' := got[t := got[t] + [d]];
    if u: nat, k: nat :| u < |captures| && u < |got| && k < |got[u]| && PutAt(p, captures[u], k, b) {
      assert k < |got'[u]|;
    }
    if PutAt(p, captures[t], |got[t]|, b) {
      assert |got[t]| < |got'[t]|;
    }
    if u: nat, k: nat :| u < |captures| && u < |got'| && k < |got'[u]| && PutAt(p, captures[u], k, b) {
      assert (u == t && k == |got[t]|) || k < |got[u]|;
    }
  }

  lemma {:induction false} StepKeeps(p: Prim, captures: seq<Capture>, m: Cas.Blobs, inputs: set<Bytes>, s: State, t: nat)
    requires Inv(p, captures, m, inputs, s) && Enabled(captures, s, t) && InputsCover(p, captures, m, inputs)
    ensures Inv(p, captures, m, inputs, Next(p, captures, s, t))
  {
    var s', b := Next(p, captures, s, t), captures[t].next(s.got[t]).bytes;
    FollowsNext(p, captures[t], s.got[t]);
    Cas.StoredGrows(p, s.blobs, b);
    forall d
      ensures d in s'.blobs <==> d in m || DigestPut(p, captures, s'.got, d)
    {
      DigestsStep(p, captures, s, t, d);
    }
  }

  lemma {:induction false} DigestsStep(p: Prim, captures: seq<Capture>, s: State, t: nat, d: Digest)
    requires Enabled(captures, s, t) && Follows(p, captures[t], s.got[t])
    ensures
      var b := captures[t].next(s.got[t]).bytes;
      DigestPut(p, captures, Next(p, captures, s, t).got, d) <==> DigestPut(p, captures, s.got, d) || d == Of(p, b)
  {
    var b := captures[t].next(s.got[t]).bytes;
    forall c
      ensures PutBy(p, captures, Next(p, captures, s, t).got, c) <==> PutBy(p, captures, s.got, c) || c == b
    {
      PutByStep(p, captures, s.got, t, Of(p, b), c);
    }
  }

  lemma {:induction false} RunKeeps(p: Prim, captures: seq<Capture>, m: Cas.Blobs, inputs: set<Bytes>,
                                    states: seq<State>, schedule: seq<nat>, n: nat)
    requires Run(p, captures, m, states, schedule) && n < |states|
    requires Cas.Keyed(p, m) && InputsCover(p, captures, m, inputs)
    ensures Inv(p, captures, m, inputs, states[n])
  {
    if n > 0 {
      RunKeeps(p, captures, m, inputs, states, schedule, n - 1);
      StepKeeps(p, captures, m, inputs, states[n - 1], schedule[n - 1]);
    }
  }

  /** A thread that has ended has received what it receives when it runs alone. */
  lemma {:induction false} EndsAlike(p: Prim, capture: Capture, got: seq<Digest>, other: seq<Digest>)
    requires Follows(p, capture, got) && Follows(p, capture, other)
    requires capture.next(got).Finish? && capture.next(other).Finish?
    ensures got == other
  {
  }

  /** The outcome of a run does not depend on the schedule: under any two
      interleavings that run to the end, every capture makes the same puts and
      returns the same layer, and the store ends the same. */
  lemma {:induction false} InterleavingsAgree(p: Prim, captures: seq<Capture>, m: Cas.Blobs, inputs: set<Bytes>,
                                              states: seq<State>, schedule: seq<nat>, others: seq<State>, order: seq<nat>)
    requires Run(p, captures, m, states, schedule) && Joined(captures, states[|schedule|])
    requires Run(p, captures, m, others, order) && Joined(captures, others[|order|])
    requires Cas.Keyed(p, m) && CollisionFree(p, inputs) && InputsCover(p, captures, m, inputs)
    ensures states[|schedule|] == others[|order|]
    ensures Results(captures, states[|schedule|]) == Results(captures, others[|order|])
  {
    var s, o := states[|schedule|], others[|order|];
    RunKeeps(p, captures, m, inputs, states, schedule, |schedule|);
    RunKeeps(p, captures, m, inputs, others, order, |order|);
    forall t | 0 <= t < |captures|
      ensures s.got[t] == o.got[t]
    {
      EndsAlike(p, captures[t], s.got[t], o.got[t]);
    }
    assert s.got == o.got;
    Cas.KeysDetermine(p, s.blobs, o.blobs, inputs);
  }

  /** What each thread receives and returns is what it does alone, whatever the
      others put meanwhile. */
  lemma {:induction false} CapturesAreIndependent(p: Prim, captures: seq<Capture>, m: Cas.Blobs, inputs: set<Bytes>,
                                                  states: seq<State>, schedule: seq<nat>, n: nat, t: nat)
    requires Run(p, captures, m, states, schedule) && n < |states| && t < |captures|
    requires Cas.Keyed(p, m) && InputsCover(p, captures, m, inputs)
    ensures |states[n].got| == |captures| && Follows(p, captures[t], states[n].got[t])
  {
    RunKeeps(p, captures, m, inputs, states, schedule, n);
  }

  // ---------- joining and stitching ----------

  /** The first failed capture in spawn order fails the snapshot. */
  function Joins(results: seq<Option<Layer>>): Option<seq<Layer>> {
    if results == [] then Some([])
    else
      match Joins(results[..|results| - 1])
      case None => None
      case Some(ls) => if results[|results| - 1].Some? then Some(ls + [results[|results| - 1].value]) else None
  }

  /** The layers seen so far; a later one of a kind replaces an earlier one. */
  datatype Stitched = Stitched(
    model: Option<Layer>,
    cache: Option<Layer>,
    world: Option<Layer>,
    effects: Option<Layer>,
    trace: Option<Layer>)

  function Stitch(layers: seq<Layer>): Stitched {
    if layers == [] then Stitched(None, None, None, None, None)
    else
      var s, x := Stitch(layers[..|layers| - 1]), layers[|layers| - 1];
      match x
      case ModelLayer(_, _) => s.(model := Some(x))
      case CacheLayer(_, _) => s.(cache := Some(x))
      case WorldLayer(_, _, _) => s.(world := Some(x))
      case EffectsLayer(_) => s.(effects := Some(x))
      case TraceLayer(_) => s.(trace := Some(x))
  }

  predicate AllKinds(s: Stitched) {
    s.model.Some? && s.cache.Some? && s.world.Some? && s.effects.Some? && s.trace.Some?
  }

  predicate RightKinds(s: Stitched) {
    && (s.model.Some? ==> s.model.value.ModelLayer?) && (s.cache.Some? ==> s.cache.value.CacheLayer?)
    && (s.world.Some? ==> s.world.value.WorldLayer?) && (s.effects.Some? ==> s.effects.value.EffectsLayer?)
    && (s.trace.Some? ==> s.trace.value.TraceLayer?)
  }

  lemma {:induction false} StitchKinds(layers: seq<Layer>)
    ensures RightKinds(Stitch(layers))
  {
    if layers != [] {
      StitchKinds(layers[..|layers| - 1]);
    }
  }

  function Assembled(agent: Agent, s: Stitched, now: int, parents: seq<Digest>): Manifest
    requires AllKinds(s) && RightKinds(s)
  {
    Manifest(1, MEDIATYPE_V1, agent, s.model.value.base, s.model.value.diff, s.cache.value.layout, s.cache.value.manifest,
             s.world.value.fs, s.world.value.env, s.world.value.procs, s.effects.value.ledger, s.trace.value.messages,
             now, parents)
  }

  /** The manifest of a snapshot; `None` if a capture failed or no capture
      produced one of the kinds, on which the program panics. */
  function SnapshotManifest(agent: Agent, results: seq<Option<Layer>>, now: int, parents: seq<Digest>): Option<Manifest> {
    match Joins(results)
    case None => None
    case Some(layers) =>
      StitchKinds(layers);
      if AllKinds(Stitch(layers)) then Some(Assembled(agent, Stitch(layers), now, parents)) else None
  }

  /** What happens once the threads have been joined. */
  method Finish(p: Prim, c: ManifestCodec, store: PfStore, agent: Agent, results: seq<Option<Layer>>, now: int, parents: seq<Digest>)
    returns (cid: Option<Digest>)
    requires Lawful(p)
    modifies store
    ensures cid.Some? <==> SnapshotManifest(agent, results, now, parents).Some?
    ensures cid.None? ==> store.files == old(store.files) && store.markers == old(store.markers)
    ensures cid.Some? ==>
      var m := SnapshotManifest(agent, results, now, parents).value;
      && cid.value == Of(p, c.encode(m)) && store.files == FilesAfterPut(p, old(store.files), c.encode(m))
      && store.markers == MarkersAfterPut(p, c, old(store.markers), m)
  {
    var layers: seq<Layer> := [];
    for i := 0 to |results|
      invariant Joins(results[..i]) == Some(layers)
    {
      assert results[..i + 1][..i] == results[..i];
      if results[i].None? {
        JoinFails(results, i + 1);
        return None;
      }
      layers := layers + [results[i].value];
    }
    assert results[..|results|] == results;
    var s := StitchAll(layers);
    StitchKinds(layers);
    if !AllKinds(s) {
      return None;
    }
    var digest := store.PutManifest(p, c, Assembled(agent, s, now, parents));
    cid := Some(digest);
  }

  method StitchAll(layers: seq<Layer>) returns (s: Stitched)
    ensures s == Stitch(layers)
  {
    s := Stitched(None, None, None, None, None);
    for i := 0 to |layers|
      invariant s == Stitch(layers[..i])
    {
      assert layers[..i + 1][..i] == layers[..i];
      match layers[i] {
        case ModelLayer(_, _) => s := s.(model := Some(layers[i]));
        case CacheLayer(_, _) => s := s.(cache := Some(layers[i]));
        case WorldLayer(_, _, _) => s := s.(world := Some(layers[i]));
        case EffectsLayer(_) => s := s.(effects := Some(layers[i]));
        case TraceLayer(_) => s := s.(trace := Some(layers[i]));
      }
    }
    assert layers[..|layers|] == layers;
  }

  lemma {:induction false} JoinFails(results: seq<Option<Layer>>, i: nat)
    requires i <= |results| && Joins(results[..i]).None?
    ensures Joins(results).None?
    decreases |results| - i
  {
    if i == |results| {
      assert results[..i] == results;
    } else {
      assert results[..i + 1][..i] == results[..i];
      JoinFails(results, i + 1);
    }
  }

  /** Five layers of the five kinds, in spawn order. */
  predicate Five(results: seq<Option<Layer>>) {
    && |results| == 5
    && (forall i :: 0 <= i < 5 ==> results[i].Some?)
    && results[0].value.ModelLayer? && results[1].value.CacheLayer? && results[2].value.WorldLayer?
    && results[3].value.EffectsLayer? && results[4].value.TraceLayer?
  }

  /** A snapshot of five captures refers to exactly what they returned. */
  lemma {:induction false} SnapshotOfFive(agent: Agent, results: seq<Option<Layer>>, now: int, parents: seq<Digest>)
    requires Five(results)
    ensures
      var m := SnapshotManifest(agent, results, now, parents);
      && m.Some? && m.value.parents == parents && m.value.createdAt == now && m.value.agent == agent
      && m.value.schemaVersion == 1 && m.value.mediaType == "application/vnd.processfork.image.v1+json"
      && ModelLayer(m.value.modelBase, m.value.modelDiff) == results[0].value
      && CacheLayer(m.value.cacheLayout, m.value.cacheManifest) == results[1].value
      && WorldLayer(m.value.worldFs, m.value.worldEnv, m.value.worldProcs) == results[2].value
      && EffectsLayer(m.value.ledger) == results[3].value
      && TraceLayer(m.value.messages) == results[4].value
  {
    var ls := [results[0].value, results[1].value, results[2].value, results[3].value, results[4].value];
    JoinsOf(results, ls, 5);
    assert results[..5] == results && ls[..5] == ls;
    StitchPrefixes(ls);
  }

  lemma {:induction false} JoinsOf(results: seq<Option<Layer>>, ls: seq<Layer>, n: nat)
    requires |ls| == |results| && n <= |results|
    requires forall i :: 0 <= i < |results| ==> results[i] == Some(ls[i])
    ensures Joins(results[..n]) == Some(ls[..n])
  {
    if n > 0 {
      JoinsOf(results, ls, n - 1);
      assert results[..n][..n - 1] == results[..n - 1];
      assert ls[..n] == ls[..n - 1] + [ls[n - 1]];
    }
  }

  lemma {:induction false} StitchPrefixes(ls: seq<Layer>)
    requires |ls| == 5 && ls[0].ModelLayer? && ls[1].CacheLayer? && ls[2].WorldLayer? && ls[3].EffectsLayer? && ls[4].TraceLayer?
    ensures Stitch(ls) == Stitched(Some(ls[0]), Some(ls[1]), Some(ls[2]), Some(ls[3]), Some(ls[4]))
  {
    var l4, l3, l2, l1 := ls[..4], ls[..3], ls[..2], ls[..1];
    assert l4[..3] == l3 && l3[..2] == l2 && l2[..1] == l1 && l1[..0] == [];
    assert Stitch(l1) == Stitched(Some(ls[0]), None, None, None, None);
    assert Stitch(l2) == Stitched(Some(ls[0]), Some(ls[1]), None, None, None);
    assert Stitch(l3) == Stitched(Some(ls[0]), Some(ls[1]), Some(ls[2]), None, None);
    assert Stitch(l4) == Stitched(Some(ls[0]), Some(ls[1]), Some(ls[2]), Some(ls[3]), None);
  }

  // ---------- any list of captures ----------

  /** The last layer of its kind. */
  predicate LastOfKind(layers: seq<Layer>, i: nat) {
    i < |layers| && forall j :: i < j < |layers| ==> !SameKind(layers[j], layers[i])
  }

  predicate SameKind(x: Layer, y: Layer) {
    || (x.ModelLayer? && y.ModelLayer?) || (x.CacheLayer? && y.CacheLayer?) || (x.WorldLayer? && y.WorldLayer?)
    || (x.EffectsLayer? && y.EffectsLayer?) || (x.TraceLayer? && y.TraceLayer?)
  }

  /** The manifest refers to what the layer holds. */
  predicate Refers(m: Manifest, x: Layer) {
    match x
    case ModelLayer(base, diff) => m.modelBase == base && m.modelDiff == diff
    case CacheLayer(layout, manifest) => m.cacheLayout == layout && m.cacheManifest == manifest
    case WorldLayer(fs, env, procs) => m.worldFs == fs && m.worldEnv == env && m.worldProcs == procs
    case EffectsLayer(ledger) => m.ledger == ledger
    case TraceLayer(messages) => m.messages == messages
  }

  /** The layer stands in the slot of its kind. */
  predicate Placed(s: Stitched, x: Layer) {
    match x
    case ModelLayer(_, _) => s.model == Some(x)
    case CacheLayer(_, _) => s.cache == Some(x)
    case WorldLayer(_, _, _) => s.world == Some(x)
    case EffectsLayer(_) => s.effects == Some(x)
    case TraceLayer(_) => s.trace == Some(x)
  }

  lemma {:induction false} StitchPlaces(layers: seq<Layer>, i: nat)
    requires LastOfKind(layers, i)
    ensures Placed(Stitch(layers), layers[i])
  {
    var n := |layers| - 1;
    if i < n {
      assert layers[..n][i] == layers[i];
      assert forall j :: i < j < n ==> layers[..n][j] == layers[j];
      StitchPlaces(layers[..n], i);
      assert !SameKind(layers[n], layers[i]);
    }
  }

  ghost predicate AllOccur(layers: seq<Layer>) {
    && (exists x :: x in layers && x.ModelLayer?) && (exists x :: x in layers && x.CacheLayer?)
    && (exists x :: x in layers && x.WorldLayer?) && (exists x :: x in layers && x.EffectsLayer?)
    && (exists x :: x in layers && x.TraceLayer?)
  }

  lemma {:induction false} StitchOccurs(layers: seq<Layer>)
    ensures Stitch(layers).model.Some? <==> exists x :: x in layers && x.ModelLayer?
    ensures Stitch(layers).cache.Some? <==> exists x :: x in layers && x.CacheLayer?
    ensures Stitch(layers).world.Some? <==> exists x :: x in layers && x.WorldLayer?
    ensures Stitch(layers).effects.Some? <==> exists x :: x in layers && x.EffectsLayer?
    ensures Stitch(layers).trace.Some? <==> exists x :: x in layers && x.TraceLayer?
  {
    if layers != [] {
      var n := |layers| - 1;
      StitchOccurs(layers[..n]);
      assert layers == layers[..n] + [layers[n]];
    }
  }

  predicate AllReturned(results: seq<Option<Layer>>) { forall i :: 0 <= i < |results| ==> results[i].Some? }

  function Layers(results: seq<Option<Layer>>): seq<Layer>
    requires AllReturned(results)
  {
    seq(|results|, i requires 0 <= i < |results| => results[i].value)
  }

  lemma {:induction false} JoinsIff(results: seq<Option<Layer>>)
    ensures Joins(results).Some? <==> AllReturned(results)
    ensures AllReturned(results) ==> Joins(results) == Some(Layers(results))
  {
    if results != [] {
      var n := |results| - 1;
      JoinsIff(results[..n]);
      assert results == results[..n] + [results[n]];
      if AllReturned(results) {
        assert Layers(results) == Layers(results[..n]) + [results[n].value];
      }
    }
  }

  /** A snapshot succeeds exactly if every capture returned a layer and each kind
      is among them; the manifest refers to the last layer of each kind. */
  lemma {:induction false} SnapshotIff(agent: Agent, results: seq<Option<Layer>>, now: int, parents: seq<Digest>)
    ensures
      var m := SnapshotManifest(agent, results, now, parents);
      && (m.Some? <==> AllReturned(results) && AllOccur(Layers(results)))
      && (m.Some? ==> forall i: nat :: LastOfKind(Layers(results), i) ==> Refers(m.value, Layers(results)[i]))
  {
    JoinsIff(results);
    if AllReturned(results) {
      var layers := Layers(results);
      StitchOccurs(layers);
      forall i: nat | LastOfKind(layers, i) && AllKinds(Stitch(layers))
        ensures Refers(SnapshotManifest(agent, results, now, parents).value, layers[i])
      {
        StitchPlaces(layers, i);
      }
    }
  }
}
