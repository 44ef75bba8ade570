/** Weight diffs of the four kinds: what makes one valid, its canonical form,
    and the envelope in which it is stored and loaded. */
module Diff {
  import opened Bits
  import opened Base
  import opened Sorting
  import opened Ties
  import Cas

  datatype Adapter = Adapter(layerId: u32, matrix: string, rank: u32, inDim: u32, outDim: u32, a: Vec, b: Vec)

  datatype TttStep = TttStep(stepId: u32, deltas: map<string, Vec>)

  datatype ModelDiff =
    | Lora(adapters: seq<Adapter>)
    | Ia3(scaling: map<string, map<string, Vec>>)
    | Full(params: map<string, Vec>)
    | InPlaceTtt(steps: seq<TttStep>)

  /** The declared dimensions fit the vectors. */
  predicate ValidAdapter(d: Adapter) {
    |d.a| == d.rank * d.inDim && |d.b| == d.outDim * d.rank
  }

  predicate ValidDiff(d: ModelDiff) {
    d.Lora? ==> forall i :: 0 <= i < |d.adapters| ==> ValidAdapter(d.adapters[i])
  }

  datatype AdapterKey = AdapterKey(layerId: u32, matrix: string)

  function KeyOf(d: Adapter): AdapterKey { AdapterKey(d.layerId, d.matrix) }

  predicate KeyLe(k: AdapterKey, l: AdapterKey) {
    k.layerId < l.layerId || (k.layerId == l.layerId && StrLe(k.matrix, l.matrix))
  }

  predicate AdapterLe(d: Adapter, e: Adapter) { KeyLe(KeyOf(d), KeyOf(e)) }

  predicate StepLe(s: TttStep, t: TttStep) { s.stepId <= t.stepId }

  lemma {:induction false} KeyOrder()
    ensures TotalPreorder(KeyLe) && TotalPreorder(AdapterLe) && TotalPreorder(StepLe)
    ensures forall k, l :: KeyLe(k, l) && KeyLe(l, k) ==> k == l
  {
    forall k, l
      ensures KeyLe(k, l) || KeyLe(l, k)
      ensures KeyLe(k, l) && KeyLe(l, k) ==> k == l
    {
      StrTotal(k.matrix, l.matrix);
    }
    forall k, l, m | KeyLe(k, l) && KeyLe(l, m)
      ensures KeyLe(k, m)
    {
      if k.layerId == l.layerId == m.layerId {
        StrTransitive(k.matrix, l.matrix, m.matrix);
      }
    }
  }

  /** The canonical order of a diff. */
  function Canonical(d: ModelDiff): ModelDiff {
    match d
    case Lora(adapters) => Lora(Sort(adapters, AdapterLe))
    case InPlaceTtt(steps) => InPlaceTtt(Sort(steps, StepLe))
    case _ => d
  }

  /** `validate_and_canonicalize`; `None` is its error. */
  function Sealed(d: ModelDiff): Option<ModelDiff> {
    if ValidDiff(Canonical(d)) then Some(Canonical(d)) else None
  }

  lemma {:induction false} SealedIffValid(d: ModelDiff)
    ensures Sealed(d).Some? <==> ValidDiff(d)
    ensures Sealed(d).Some? <==> (d.Lora? ==> forall e :: e in d.adapters ==> |e.a| == e.rank * e.inDim && |e.b| == e.outDim * e.rank)
    ensures Sealed(d).Some? ==> Sealed(Sealed(d).value) == Sealed(d)
  {
    KeyOrder();
    match d {
      case Lora(adapters) =>
        SortSorts(adapters, AdapterLe);
        var sorted := Sort(adapters, AdapterLe);
        SortFixed(sorted, AdapterLe);
        forall i | 0 <= i < |adapters|
          ensures adapters[i] in sorted
        {
          assert adapters[i] in adapters;
        }
        forall i | 0 <= i < |sorted|
          ensures sorted[i] in adapters
        {
          assert sorted[i] in sorted;
        }
      case InPlaceTtt(steps) =>
        SortSorts(steps, StepLe);
        SortFixed(Sort(steps, StepLe), StepLe);
      case _ =>
    }
  }

  /** Adapters are ordered by layer and then by the matrix's name, steps by number;
      nothing is lost, and other diffs stay as they are. */
  lemma {:induction false} SealedOrder(d: ModelDiff)
    requires Sealed(d).Some?
    ensures
      match d
      case Lora(adapters) =>
        && Sealed(d).value.Lora? && multiset(Sealed(d).value.adapters) == multiset(adapters)
        && forall i, j :: 0 <= i < j < |Sealed(d).value.adapters| ==>
             var e, f := Sealed(d).value.adapters[i], Sealed(d).value.adapters[j];
             e.layerId < f.layerId || (e.layerId == f.layerId && StrLe(e.matrix, f.matrix))
      case InPlaceTtt(steps) =>
        && Sealed(d).value.InPlaceTtt? && multiset(Sealed(d).value.steps) == multiset(steps)
        && forall i, j :: 0 <= i < j < |Sealed(d).value.steps| ==> Sealed(d).value.steps[i].stepId <= Sealed(d).value.steps[j].stepId
      case _ => Sealed(d).value == d
  {
    KeyOrder();
    match d {
      case Lora(adapters) =>
        SortSorts(adapters, AdapterLe);
        var sorted := Sort(adapters, AdapterLe);
        forall i, j | 0 <= i < j < |sorted|
          ensures KeyLe(KeyOf(sorted[i]), KeyOf(sorted[j]))
        {
          assert AdapterLe(sorted[i], sorted[j]);
        }
      case InPlaceTtt(steps) =>
        SortSorts(steps, StepLe);
        var sorted := Sort(steps, StepLe);
        forall i, j | 0 <= i < j < |sorted|
          ensures sorted[i].stepId <= sorted[j].stepId
        {
          assert StepLe(sorted[i], sorted[j]);
        }
      case _ =>
    }
  }

  const LAYOUT: string := "model.diff.v1"

  /** JSON of the envelope, a layout name beside the tagged diff. The weights that
      printing and parsing carry over, 32-bit floating-point numbers, are `exact`. */
  datatype Codec = Codec(
    encode: (string, ModelDiff) -> Bytes,
    decode: Bytes -> Option<(string, ModelDiff)>,
    exact: real -> bool)

  predicate ExactVec(c: Codec, v: Vec) { forall i :: 0 <= i < |v| ==> c.exact(v[i]) }

  predicate ExactAdapter(c: Codec, d: Adapter) { ExactVec(c, d.a) && ExactVec(c, d.b) }

  predicate ExactVecs(c: Codec, vs: map<string, Vec>) { forall k :: k in vs ==> ExactVec(c, vs[k]) }

  /** Every weight of the diff is one that printing and parsing carry over. */
  predicate Exact(c: Codec, d: ModelDiff) {
    match d
    case Lora(adapters) => forall i :: 0 <= i < |adapters| ==> ExactAdapter(c, adapters[i])
    case Ia3(scaling) => forall k :: k in scaling ==> ExactVecs(c, scaling[k])
    case Full(params) => ExactVecs(c, params)
    case InPlaceTtt(steps) => forall i :: 0 <= i < |steps| ==> ExactVecs(c, steps[i].deltas)
  }

  ghost predicate LawfulCodec(c: Codec) {
    forall layout, d :: Exact(c, d) ==> c.decode(c.encode(layout, d)) == Some((layout, d))
  }

  /** Sorting moves the weights and changes none. */
  lemma {:induction false} CanonicalExact(c: Codec, d: ModelDiff)
    requires Exact(c, d)
    ensures Exact(c, Canonical(d))
  {
    KeyOrder();
    match d {
      case Lora(adapters) =>
        SortSorts(adapters, AdapterLe);
        var sorted := Sort(adapters, AdapterLe);
        forall i | 0 <= i < |sorted|
          ensures ExactAdapter(c, sorted[i])
        {
          assert sorted[i] in sorted;
          assert sorted[i] in adapters;
        }
      case InPlaceTtt(steps) =>
        SortSorts(steps, StepLe);
        var sorted := Sort(steps, StepLe);
        forall i | 0 <= i < |sorted|
          ensures ExactVecs(c, sorted[i].deltas)
        {
          assert sorted[i] in sorted;
          assert sorted[i] in steps;
        }
      case _ =>
    }
  }

  function EnvelopeBytes(c: Codec, d: ModelDiff): Bytes { c.encode(LAYOUT, d) }

  method StoreDiff(p: Prim, c: Codec, store: Cas.MemBlobStore, d: ModelDiff) returns (r: Option<Digest>)
    requires store.Valid(p)
    modifies store
    ensures store.Valid(p)
    ensures
      match Sealed(d)
      case Some(canonical) =>
        && r == Some(Of(p, EnvelopeBytes(c, canonical)))
        && store.inner == Cas.Stored(p, old(store.inner), EnvelopeBytes(c, canonical))
      case None => r.None? && store.inner == old(store.inner)
  {
    var canonical := Canonical(d);
    if canonical.Lora? {
      for i := 0 to |canonical.adapters|
        invariant forall j :: 0 <= j < i ==> ValidAdapter(canonical.adapters[j])
      {
        if !ValidAdapter(canonical.adapters[i]) {
          return None;
        }
      }
    }
    var digest := store.Put(p, EnvelopeBytes(c, canonical));
    return Some(digest);
  }

  function Loaded(c: Codec, m: Cas.Blobs, d: Digest): Option<ModelDiff> {
    match Cas.Lookup(m, d)
    case None => None
    case Some(bytes) =>
      match c.decode(bytes)
      case None => None
      case Some((layout, diff)) => if layout == LAYOUT then Some(diff) else None
  }

  method LoadDiff(c: Codec, store: Cas.MemBlobStore, d: Digest) returns (r: Option<ModelDiff>)
    ensures r == Loaded(c, store.inner, d)
    ensures r.Some? <==>
      d in store.inner && c.decode(store.inner[d]).Some? && c.decode(store.inner[d]).value.0 == "model.diff.v1"
    ensures r.Some? ==> r.value == c.decode(store.inner[d]).value.1
  {
    var bytes := store.Get(d);
    if bytes.None? {
      return None;
    }
    var envelope := c.decode(bytes.value);
    if envelope.None? || envelope.value.0 != LAYOUT {
      return None;
    }
    return Some(envelope.value.1);
  }

  /** What is stored is read back: the diff in its canonical order. */
  lemma {:induction false} StoredDiffRoundTrip(p: Prim, c: Codec, m: Cas.Blobs, d: ModelDiff)
    requires LawfulCodec(c) && Exact(c, d) && Cas.Keyed(p, m) && ValidDiff(d)
    requires CollisionFree(p, m.Values + {EnvelopeBytes(c, Canonical(d))})
    ensures Loaded(c, Cas.Stored(p, m, EnvelopeBytes(c, Canonical(d))), Of(p, EnvelopeBytes(c, Canonical(d)))) == Sealed(d)
    ensures Sealed(d).Some?
  {
    SealedIffValid(d);
    CanonicalExact(c, d);
    Cas.PutThenGet(p, m, EnvelopeBytes(c, Canonical(d)));
    assert c.decode(c.encode(LAYOUT, Canonical(d))) == Some((LAYOUT, Canonical(d)));
  }
}
