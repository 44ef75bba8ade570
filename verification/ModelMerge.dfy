/** Merging two vectors of weights by DARE and TIES, and merging LoRA adapters
    key by key: shared keys are merged, exclusive ones are kept. */
module ModelMerge {
  import opened Bits
  import opened Base
  import opened Sorting
  import opened Ties
  import opened SignElection
  import opened Diff

  const KEEP_TOP: real := 0.2

  datatype MergeError = ShapeMismatch | LengthsDiffer | InVectors(problem: Problem) | NotStored | NotValid

  datatype Params = Params(alpha: real, rate: real, seed: u64)

  // ---------- two vectors of one key ----------

  /** DARE on both sides, then TIES. */
  function VecMerge(p: Prim, va: Vec, vb: Vec, seedA: u64, seedB: u64, q: Params): Result<Vec, MergeError> {
    if !(0.0 < q.rate < 1.0) then Failure(InVectors(BadDropRate))
    else
      match Merged([Dared(p, va, q.rate, seedA), Dared(p, vb, q.rate, seedB)], KEEP_TOP, q.alpha)
      case Success(v) => Success(v)
      case Failure(problem) => Failure(InVectors(problem))
  }

  method MergeVec(p: Prim, va: Vec, vb: Vec, seedA: u64, seedB: u64, q: Params) returns (r: Result<Vec, MergeError>)
    ensures r == VecMerge(p, va, vb, seedA, seedB, q)
  {
    var a := Dare(p, va, q.rate, seedA);
    var b := Dare(p, vb, q.rate, seedB);
    if a.Failure? {
      return Failure(InVectors(a.error));
    }
    var v := TiesMerge([a.value, b.value], KEEP_TOP, q.alpha);
    match v
    case Success(merged) => return Success(merged);
    case Failure(problem) => return Failure(InVectors(problem));
  }

  /** When two vectors merge at all. Two empty ones make `trim_bottom` panic. */
  predicate VecsMerge(va: Vec, vb: Vec, q: Params) {
    0.0 < q.rate < 1.0 && |va| == |vb| && va != []
  }

  lemma {:induction false} VecMergeIff(p: Prim, va: Vec, vb: Vec, seedA: u64, seedB: u64, q: Params)
    ensures VecMerge(p, va, vb, seedA, seedB, q).Success? <==> VecsMerge(va, vb, q)
    ensures VecMerge(p, va, vb, seedA, seedB, q).Success? ==> |VecMerge(p, va, vb, seedA, seedB, q).value| == |va|
  {
    if 0.0 < q.rate < 1.0 {
      PairRefused(Dared(p, va, q.rate, seedA), Dared(p, vb, q.rate, seedB));
    }
  }

  lemma {:induction false} PairRefused(v: Vec, w: Vec)
    ensures Refused([v, w], KEEP_TOP).None? <==> |v| == |w| && v != []
  {
    var ds := [v, w];
    assert SameLength(ds) <==> |ds[1]| == |ds[0]|;
  }

  // ---------- LoRA ----------

  /** Indexing by key: a later adapter of the same key wins. */
  function AdapterMap(ds: seq<Adapter>): map<AdapterKey, Adapter> {
    if ds == [] then map[] else AdapterMap(ds[..|ds| - 1])[KeyOf(ds[|ds| - 1]) := ds[|ds| - 1]]
  }

  function AdapterMerge(p: Prim, d: Adapter, e: Adapter, q: Params): Result<Adapter, MergeError> {
    if d.rank != e.rank || d.inDim != e.inDim || d.outDim != e.outDim then Failure(ShapeMismatch)
    else
      match VecMerge(p, d.a, e.a, q.seed, Wrap(q.seed + 1), q)
      case Failure(f) => Failure(f)
      case Success(a) =>
        match VecMerge(p, d.b, e.b, Wrap(q.seed + 2), Wrap(q.seed + 3), q)
        case Failure(f) => Failure(f)
        case Success(b) => Success(d.(a := a, b := b))
  }

  function AdapterAt(p: Prim, am: map<AdapterKey, Adapter>, bm: map<AdapterKey, Adapter>, k: AdapterKey, q: Params)
    : Result<Adapter, MergeError>
    requires k in am || k in bm
  {
    if k !in bm then Success(am[k]) else if k !in am then Success(bm[k]) else AdapterMerge(p, am[k], bm[k], q)
  }

  function AdaptersMerge(p: Prim, am: map<AdapterKey, Adapter>, bm: map<AdapterKey, Adapter>, keys: seq<AdapterKey>, q: Params)
    : Result<seq<Adapter>, MergeError>
    requires forall k :: k in keys ==> k in am || k in bm
  {
    if keys == [] then Success([])
    else
      var n := |keys| - 1;
      match AdaptersMerge(p, am, bm, keys[..n], q)
      case Failure(f) => Failure(f)
      case Success(done) =>
        match AdapterAt(p, am, bm, keys[n], q)
        case Failure(f) => Failure(f)
        case Success(d) => Success(done + [d])
  }

  /** The keys of either side, in ascending order. */
  ghost function AllKeys(a: seq<Adapter>, b: seq<Adapter>): seq<AdapterKey> {
    Sort(ListOf(AdapterMap(a).Keys + AdapterMap(b).Keys), KeyLe)
  }

  lemma {:induction false} AllKeysList(a: seq<Adapter>, b: seq<Adapter>)
    ensures Lists(AllKeys(a, b), AdapterMap(a).Keys + AdapterMap(b).Keys, KeyLe)
  {
    KeyOrder();
    ListsSorted(AdapterMap(a).Keys + AdapterMap(b).Keys, KeyLe);
  }

  ghost function LoraMerge(p: Prim, a: seq<Adapter>, b: seq<Adapter>, q: Params): Result<seq<Adapter>, MergeError> {
    AllKeysList(a, b);
    AdaptersMerge(p, AdapterMap(a), AdapterMap(b), AllKeys(a, b), q)
  }

  method MergeLora(p: Prim, a: seq<Adapter>, b: seq<Adapter>, q: Params)
    returns (r: Result<seq<Adapter>, MergeError>)
    ensures r == LoraMerge(p, a, b, q)
  {
    var am, bm := AdapterMap(a), AdapterMap(b);
    KeyOrder();
    AllKeysList(a, b);
    var keys := SortSet(am.Keys + bm.Keys, KeyLe);
    ListsUnique(keys, AllKeys(a, b), am.Keys + bm.Keys, KeyLe);
    r := MergeKeys(p, am, bm, keys, q);
  }

  /** The loop over all keys in ascending order. */
  method MergeKeys(p: Prim, am: map<AdapterKey, Adapter>, bm: map<AdapterKey, Adapter>, keys: seq<AdapterKey>, q: Params)
    returns (r: Result<seq<Adapter>, MergeError>)
    requires forall k :: k in keys ==> k in am || k in bm
    ensures r == AdaptersMerge(p, am, bm, keys, q)
  {
    var adapters: seq<Adapter> := [];
    for i := 0 to |keys|
      invariant AdaptersMerge(p, am, bm, keys[..i], q) == Success(adapters)
    {
      AdaptersStep(p, am, bm, keys, i, q);
      var d := MergeKey(p, am, bm, keys[i], q);
      if d.Failure? {
        AdaptersFail(p, am, bm, keys, i + 1, q);
        return Failure(d.error);
      }
      adapters := adapters + [d.value];
    }
    assert keys[..|keys|] == keys;
    return Success(adapters);
  }

  method MergeKey(p: Prim, am: map<AdapterKey, Adapter>, bm: map<AdapterKey, Adapter>, k: AdapterKey, q: Params)
    returns (r: Result<Adapter, MergeError>)
    requires k in am || k in bm
    ensures r == AdapterAt(p, am, bm, k, q)
  {
    if k !in bm {
      return Success(am[k]);
    }
    if k !in am {
      return Success(bm[k]);
    }
    r := MergeAdapter(p, am[k], bm[k], q);
  }

  method MergeAdapter(p: Prim, d: Adapter, e: Adapter, q: Params) returns (r: Result<Adapter, MergeError>)
    ensures r == AdapterMerge(p, d, e, q)
  {
    hide VecMerge;
    if d.rank != e.rank || d.inDim != e.inDim || d.outDim != e.outDim {
      return Failure(ShapeMismatch);
    }
    var a := MergeVec(p, d.a, e.a, q.seed, Wrap(q.seed + 1), q);
    if a.Failure? {
      return Failure(a.error);
    }
    var b := MergeVec(p, d.b, e.b, Wrap(q.seed + 2), Wrap(q.seed + 3), q);
    if b.Failure? {
      return Failure(b.error);
    }
    return Success(Adapter(d.layerId, d.matrix, d.rank, d.inDim, d.outDim, a.value, b.value));
  }

  lemma {:induction false} AdaptersStep(p: Prim, am: map<AdapterKey, Adapter>, bm: map<AdapterKey, Adapter>,
                                        keys: seq<AdapterKey>, i: nat, q: Params)
    requires forall k :: k in keys ==> k in am || k in bm
    requires i < |keys|
    ensures AdaptersMerge(p, am, bm, keys[..i + 1], q) ==
      match AdaptersMerge(p, am, bm, keys[..i], q)
      case Failure(f) => Failure(f)
      case Success(done) =>
        match AdapterAt(p, am, bm, keys[i], q)
        case Failure(f) => Failure(f)
        case Success(d) => Success(done + [d])
  {
    assert keys[..i + 1][..i] == keys[..i];
  }

  /** The first failure is the outcome. */
  lemma {:induction false} AdaptersFail(p: Prim, am: map<AdapterKey, Adapter>, bm: map<AdapterKey, Adapter>,
                                        keys: seq<AdapterKey>, i: nat, q: Params)
    requires forall k :: k in keys ==> k in am || k in bm
    requires i <= |keys| && AdaptersMerge(p, am, bm, keys[..i], q).Failure?
    ensures AdaptersMerge(p, am, bm, keys, q) == AdaptersMerge(p, am, bm, keys[..i], q)
    decreases |keys| - i
  {
    if i == |keys| {
      assert keys[..i] == keys;
    } else {
      AdaptersStep(p, am, bm, keys, i, q);
      AdaptersFail(p, am, bm, keys, i + 1, q);
    }
  }

  predicate AdaptersFit(d: Adapter, e: Adapter, q: Params) {
    && d.rank == e.rank && d.inDim == e.inDim && d.outDim == e.outDim
    && VecsMerge(d.a, e.a, q) && VecsMerge(d.b, e.b, q)
  }

  /** Every key both sides have, has one shape and non-empty factors. */
  predicate LoraFits(a: seq<Adapter>, b: seq<Adapter>, q: Params) {
    forall k :: k in AdapterMap(a) && k in AdapterMap(b) ==> AdaptersFit(AdapterMap(a)[k], AdapterMap(b)[k], q)
  }

  predicate KeyMerges(am: map<AdapterKey, Adapter>, bm: map<AdapterKey, Adapter>, k: AdapterKey, q: Params) {
    k in am && k in bm ==> AdaptersFit(am[k], bm[k], q)
  }

  ghost predicate ValidMap(m: map<AdapterKey, Adapter>) {
    forall k :: k in m ==> KeyOf(m[k]) == k && ValidAdapter(m[k])
  }

  lemma {:induction false} AdapterAtIff(p: Prim, am: map<AdapterKey, Adapter>, bm: map<AdapterKey, Adapter>, k: AdapterKey, q: Params)
    requires ValidMap(am) && ValidMap(bm) && (k in am || k in bm)
    ensures AdapterAt(p, am, bm, k, q).Success? <==> KeyMerges(am, bm, k, q)
    ensures AdapterAt(p, am, bm, k, q).Success? ==> GoodAdapter(am, bm, k, AdapterAt(p, am, bm, k, q).value)
  {
    hide VecMerge;
    if k in am && k in bm {
      var d, e := am[k], bm[k];
      VecMergeIff(p, d.a, e.a, q.seed, Wrap(q.seed + 1), q);
      VecMergeIff(p, d.b, e.b, Wrap(q.seed + 2), Wrap(q.seed + 3), q);
    }
  }

  /** A merged adapter carries its key and its shape, and one that only one side
      has is that side's unchanged. */
  ghost predicate GoodAdapter(am: map<AdapterKey, Adapter>, bm: map<AdapterKey, Adapter>, k: AdapterKey, d: Adapter) {
    && KeyOf(d) == k && ValidAdapter(d)
    && (k in am && k !in bm ==> d == am[k])
    && (k in bm && k !in am ==> d == bm[k])
    && (k in am && k in bm ==> d.rank == am[k].rank && d.inDim == am[k].inDim && d.outDim == am[k].outDim)
  }

  lemma {:induction false} AdaptersMergeIff(p: Prim, am: map<AdapterKey, Adapter>, bm: map<AdapterKey, Adapter>,
                                            keys: seq<AdapterKey>, q: Params)
    requires ValidMap(am) && ValidMap(bm) && forall k :: k in keys ==> k in am || k in bm
    ensures AdaptersMerge(p, am, bm, keys, q).Success? <==> forall k :: k in keys ==> KeyMerges(am, bm, k, q)
    ensures
      var r := AdaptersMerge(p, am, bm, keys, q);
      r.Success? ==> |r.value| == |keys| && forall i :: 0 <= i < |keys| ==> GoodAdapter(am, bm, keys[i], r.value[i])
  {
    if keys != [] {
      var n := |keys| - 1;
      assert keys == keys[..n] + [keys[n]];
      AdaptersMergeIff(p, am, bm, keys[..n], q);
      AdapterAtIff(p, am, bm, keys[n], q);
    }
  }

  lemma {:induction false} AdapterMapValid(ds: seq<Adapter>)
    requires forall i :: 0 <= i < |ds| ==> ValidAdapter(ds[i])
    ensures ValidMap(AdapterMap(ds))
    ensures forall k :: k in AdapterMap(ds) <==> exists i :: 0 <= i < |ds| && KeyOf(ds[i]) == k
  {
    if ds != [] {
      AdapterMapValid(ds[..|ds| - 1]);
      assert ds == ds[..|ds| - 1] + [ds[|ds| - 1]];
    }
  }

  /** The LoRA merge of two valid diffs succeeds exactly if every shared key has
      one shape with non-empty factors and the drop rate is in range; its keys
      are the union of both sides', in strictly ascending order; what one side
      alone has is unchanged; and the result is valid and already canonical. */
  lemma {:induction false} LoraMergeSound(p: Prim, a: seq<Adapter>, b: seq<Adapter>, q: Params)
    requires ValidDiff(Lora(a)) && ValidDiff(Lora(b))
    ensures
      var am, bm := AdapterMap(a), AdapterMap(b);
      var keys := AllKeys(a, b);
      var r := LoraMerge(p, a, b, q);
      && Lists(keys, am.Keys + bm.Keys, KeyLe)
      && (r.Success? <==> LoraFits(a, b, q))
      && (r.Success? ==>
            && |r.value| == |keys|
            && (forall i :: 0 <= i < |keys| ==> GoodAdapter(am, bm, keys[i], r.value[i]))
            && Sealed(Lora(r.value)) == Some(Lora(r.value)))
  {
    AdapterMapValid(a);
    AdapterMapValid(b);
    AllKeysList(a, b);
    var am, bm, keys := AdapterMap(a), AdapterMap(b), AllKeys(a, b);
    AdaptersMergeIff(p, am, bm, keys, q);
    var r := LoraMerge(p, a, b, q);
    if forall k :: k in keys ==> KeyMerges(am, bm, k, q) {
      forall k | k in am && k in bm
        ensures AdaptersFit(am[k], bm[k], q)
      {
        assert k in keys;
      }
    }
    if r.Success? {
      GoodListSealed(am, bm, keys, r.value);
    }
  }

  lemma {:induction false} GoodListSealed(am: map<AdapterKey, Adapter>, bm: map<AdapterKey, Adapter>,
                                          keys: seq<AdapterKey>, ds: seq<Adapter>)
    requires Sorted(keys, KeyLe) && |ds| == |keys|
    requires forall i :: 0 <= i < |keys| ==> GoodAdapter(am, bm, keys[i], ds[i])
    ensures Sealed(Lora(ds)) == Some(Lora(ds))
  {
    forall i, j | 0 <= i < j < |ds|
      ensures AdapterLe(ds[i], ds[j])
    {
      assert GoodAdapter(am, bm, keys[i], ds[i]) && GoodAdapter(am, bm, keys[j], ds[j]);
      assert KeyLe(keys[i], keys[j]);
    }
    SortFixed(ds, AdapterLe);
  }
}
