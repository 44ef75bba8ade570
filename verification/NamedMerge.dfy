/** Merging weights that are indexed by name: the parameters of a full-finetune
    delta, and the scaling vectors of IA3, layer by layer and matrix by matrix. */
module NamedMerge {
  import opened Bits
  import opened Base
  import opened Sorting
  import opened Ties
  import opened ModelMerge

  // ---------- dense vectors by name ----------

  /** `i ^ 0xFF` on an index. */
  function Xor255(i: nat): nat { i - i % 256 + (255 - i % 256) }

  /** Seeds of the `i`-th key of a full-finetune merge. */
  function FullSeeds(q: Params, i: nat): (u64, u64) { (Wrap(q.seed + i), Wrap(q.seed + Wrap(Xor255(i)))) }

  /** Seeds of the next shared vector of an IA3 merge. */
  function CounterSeeds(q: Params, counter: u64): (u64, u64) { (Wrap(q.seed + counter), Wrap(q.seed + Wrap(counter + 1))) }

  function VecAt(p: Prim, am: map<string, Vec>, bm: map<string, Vec>, k: string, seeds: (u64, u64), q: Params): Result<Vec, MergeError>
    requires k in am || k in bm
  {
    if k !in bm then Success(am[k])
    else if k !in am then Success(bm[k])
    else if |am[k]| != |bm[k]| then Failure(LengthsDiffer)
    else VecMerge(p, am[k], bm[k], seeds.0, seeds.1, q)
  }

  method MergeNamed(p: Prim, am: map<string, Vec>, bm: map<string, Vec>, k: string, seeds: (u64, u64), q: Params)
    returns (r: Result<Vec, MergeError>)
    requires k in am || k in bm
    ensures r == VecAt(p, am, bm, k, seeds, q)
  {
    if k !in bm {
      return Success(am[k]);
    }
    if k !in am {
      return Success(bm[k]);
    }
    if |am[k]| != |bm[k]| {
      return Failure(LengthsDiffer);
    }
    r := MergeVec(p, am[k], bm[k], seeds.0, seeds.1, q);
  }

  ghost predicate NamedKeys(am: map<string, Vec>, bm: map<string, Vec>, keys: seq<string>) {
    forall k :: k in keys <==> k in am || k in bm
  }

  function KeySet(keys: seq<string>): set<string> { set k | k in keys }

  function ParamsMerge(p: Prim, am: map<string, Vec>, bm: map<string, Vec>, keys: seq<string>, q: Params)
    : Result<map<string, Vec>, MergeError>
    requires forall k :: k in keys ==> k in am || k in bm
  {
    if keys == [] then Success(map[])
    else
      var n := |keys| - 1;
      match ParamsMerge(p, am, bm, keys[..n], q)
      case Failure(f) => Failure(f)
      case Success(done) =>
        match VecAt(p, am, bm, keys[n], FullSeeds(q, n), q)
        case Failure(f) => Failure(f)
        case Success(v) => Success(done[keys[n] := v])
  }

  method MergeFull(p: Prim, am: map<string, Vec>, bm: map<string, Vec>, q: Params)
    returns (r: Result<map<string, Vec>, MergeError>)
    ensures NamedKeys(am, bm, Ordered(am.Keys + bm.Keys))
    ensures r == ParamsMerge(p, am, bm, Ordered(am.Keys + bm.Keys), q)
  {
    var all := SortedKeys(am.Keys + bm.Keys);
    r := MergeParams(p, am, bm, all, q);
  }

  /** The loop over all names in ascending order. */
  method MergeParams(p: Prim, am: map<string, Vec>, bm: map<string, Vec>, keys: seq<string>, q: Params)
    returns (r: Result<map<string, Vec>, MergeError>)
    requires forall k :: k in keys ==> k in am || k in bm
    ensures r == ParamsMerge(p, am, bm, keys, q)
  {
    var params: map<string, Vec> := map[];
    for i := 0 to |keys|
      invariant ParamsMerge(p, am, bm, keys[..i], q) == Success(params)
    {
      ParamsStep(p, am, bm, keys, i, q);
      var v := MergeNamed(p, am, bm, keys[i], FullSeeds(q, i), q);
      if v.Failure? {
        ParamsFail(p, am, bm, keys, i + 1, q);
        return Failure(v.error);
      }
      params := params[keys[i] := v.value];
    }
    assert keys[..|keys|] == keys;
    return Success(params);
  }

  lemma {:induction false} ParamsStep(p: Prim, am: map<string, Vec>, bm: map<string, Vec>, keys: seq<string>, i: nat, q: Params)
    requires forall k :: k in keys ==> k in am || k in bm
    requires i < |keys|
    ensures ParamsMerge(p, am, bm, keys[..i + 1], q) ==
      match ParamsMerge(p, am, bm, keys[..i], q)
      case Failure(f) => Failure(f)
      case Success(done) =>
        match VecAt(p, am, bm, keys[i], FullSeeds(q, i), q)
        case Failure(f) => Failure(f)
        case Success(v) => Success(done[keys[i] := v])
  {
    assert keys[..i + 1][..i] == keys[..i];
  }

  lemma {:induction false} ParamsFail(p: Prim, am: map<string, Vec>, bm: map<string, Vec>, keys: seq<string>, i: nat, q: Params)
    requires forall k :: k in keys ==> k in am || k in bm
    requires i <= |keys| && ParamsMerge(p, am, bm, keys[..i], q).Failure?
    ensures ParamsMerge(p, am, bm, keys, q) == ParamsMerge(p, am, bm, keys[..i], q)
    decreases |keys| - i
  {
    if i == |keys| {
      assert keys[..i] == keys;
    } else {
      ParamsStep(p, am, bm, keys, i, q);
      ParamsFail(p, am, bm, keys, i + 1, q);
    }
  }

  /** A merged map: the union of the keys, what one side alone has unchanged,
      and shared vectors of their common length. */
  ghost predicate GoodMap(am: map<string, Vec>, bm: map<string, Vec>, keys: set<string>, r: map<string, Vec>) {
    && r.Keys == keys
    && forall k :: k in r ==> GoodVec(am, bm, k, r[k])
  }

  ghost predicate GoodVec(am: map<string, Vec>, bm: map<string, Vec>, k: string, v: Vec) {
    && (k in am && k !in bm ==> v == am[k])
    && (k in bm && k !in am ==> v == bm[k])
    && (k in am && k in bm ==> |v| == |am[k]| == |bm[k]|)
  }

  predicate NamedMerges(am: map<string, Vec>, bm: map<string, Vec>, k: string, q: Params) {
    k in am && k in bm ==> VecsMerge(am[k], bm[k], q)
  }

  lemma {:induction false} VecAtIff(p: Prim, am: map<string, Vec>, bm: map<string, Vec>, k: string, seeds: (u64, u64), q: Params)
    requires k in am || k in bm
    ensures VecAt(p, am, bm, k, seeds, q).Success? <==> NamedMerges(am, bm, k, q)
    ensures VecAt(p, am, bm, k, seeds, q).Success? ==> GoodVec(am, bm, k, VecAt(p, am, bm, k, seeds, q).value)
  {
    if k in am && k in bm {
      VecMergeIff(p, am[k], bm[k], seeds.0, seeds.1, q);
    }
  }

  lemma {:induction false} ParamsMergeIff(p: Prim, am: map<string, Vec>, bm: map<string, Vec>, keys: seq<string>, q: Params)
    requires forall k :: k in keys ==> k in am || k in bm
    ensures ParamsMerge(p, am, bm, keys, q).Success? <==> forall k :: k in keys ==> NamedMerges(am, bm, k, q)
    ensures ParamsMerge(p, am, bm, keys, q).Success? ==>
      GoodMap(am, bm, KeySet(keys), ParamsMerge(p, am, bm, keys, q).value)
  {
    if keys != [] {
      var n := |keys| - 1;
      assert keys == keys[..n] + [keys[n]];
      ParamsMergeIff(p, am, bm, keys[..n], q);
      VecAtIff(p, am, bm, keys[n], FullSeeds(q, n), q);
    }
  }

  /** The full-finetune merge succeeds exactly if every shared parameter has one
      non-zero length and the drop rate is in range. */
  lemma {:induction false} FullMergeSound(p: Prim, am: map<string, Vec>, bm: map<string, Vec>, q: Params)
    ensures NamedKeys(am, bm, Ordered(am.Keys + bm.Keys))
    ensures
      var r := ParamsMerge(p, am, bm, Ordered(am.Keys + bm.Keys), q);
      && (r.Success? <==> forall k :: k in am && k in bm ==> VecsMerge(am[k], bm[k], q))
      && (r.Success? ==> GoodMap(am, bm, am.Keys + bm.Keys, r.value))
  {
    var keys := Ordered(am.Keys + bm.Keys);
    ParamsMergeIff(p, am, bm, keys, q);
    assert KeySet(keys) == am.Keys + bm.Keys;
    assert forall k :: k in am && k in bm ==> (NamedMerges(am, bm, k, q) <==> VecsMerge(am[k], bm[k], q));
  }

  // ---------- IA3 ----------

  type Scaling = map<string, map<string, Vec>>

  datatype Inner = Inner(vectors: map<string, Vec>, counter: u64)
  datatype Outer = Outer(layers: Scaling, counter: u64)

  /** A layer that is missing has no vectors. */
  function LayerOf(s: Scaling, layer: string): map<string, Vec> { if layer in s then s[layer] else map[] }

  /** The counter moves by two for each pair of vectors merged. */
  function NextCounter(am: map<string, Vec>, bm: map<string, Vec>, k: string, counter: u64): u64 {
    if k in am && k in bm then Wrap(Wrap(counter + 1) + 1) else counter
  }

  function InnerNext(p: Prim, am: map<string, Vec>, bm: map<string, Vec>, k: string,
                     done: Result<Inner, MergeError>, q: Params): Result<Inner, MergeError>
    requires k in am || k in bm
  {
    if done.Failure? then done
    else
      match VecAt(p, am, bm, k, CounterSeeds(q, done.value.counter), q)
      case Failure(f) => Failure(f)
      case Success(v) => Success(Inner(done.value.vectors[k := v], NextCounter(am, bm, k, done.value.counter)))
  }

  function InnerMerge(p: Prim, am: map<string, Vec>, bm: map<string, Vec>, keys: seq<string>, counter: u64, q: Params)
    : Result<Inner, MergeError>
    requires forall k :: k in keys ==> k in am || k in bm
  {
    if keys == [] then Success(Inner(map[], counter))
    else
      var n := |keys| - 1;
      InnerNext(p, am, bm, keys[n], InnerMerge(p, am, bm, keys[..n], counter, q), q)
  }

  method MergeLayer(p: Prim, am: map<string, Vec>, bm: map<string, Vec>, counter: u64, q: Params)
    returns (r: Result<Inner, MergeError>)
    ensures NamedKeys(am, bm, Ordered(am.Keys + bm.Keys))
    ensures r == InnerMerge(p, am, bm, Ordered(am.Keys + bm.Keys), counter, q)
  {
    var keys := SortedKeys(am.Keys + bm.Keys);
    r := MergeVectors(p, am, bm, keys, counter, q);
  }

  /** The loop over one layer's matrices. */
  method MergeVectors(p: Prim, am: map<string, Vec>, bm: map<string, Vec>, keys: seq<string>, counter: u64, q: Params)
    returns (r: Result<Inner, MergeError>)
    requires forall k :: k in keys ==> k in am || k in bm
    ensures r == InnerMerge(p, am, bm, keys, counter, q)
  {
    var done := Inner(map[], counter);
    for i := 0 to |keys|
      invariant InnerMerge(p, am, bm, keys[..i], counter, q) == Success(done)
    {
      InnerStep(p, am, bm, keys, i, counter, q);
      var v := MergeNamed(p, am, bm, keys[i], CounterSeeds(q, done.counter), q);
      if v.Failure? {
        InnerFail(p, am, bm, keys, i + 1, counter, q);
        return Failure(v.error);
      }
      done := Inner(done.vectors[keys[i] := v.value], NextCounter(am, bm, keys[i], done.counter));
    }
    assert keys[..|keys|] == keys;
    return Success(done);
  }

  lemma {:induction false} InnerStep(p: Prim, am: map<string, Vec>, bm: map<string, Vec>,
                                     keys: seq<string>, i: nat, counter: u64, q: Params)
    requires forall k :: k in keys ==> k in am || k in bm
    requires i < |keys|
    ensures InnerMerge(p, am, bm, keys[..i + 1], counter, q)
         == InnerNext(p, am, bm, keys[i], InnerMerge(p, am, bm, keys[..i], counter, q), q)
  {
    assert keys[..i + 1][..i] == keys[..i];
  }

  lemma {:induction false} InnerFail(p: Prim, am: map<string, Vec>, bm: map<string, Vec>, keys: seq<string>, i: nat,
                                     counter: u64, q: Params)
    requires forall k :: k in keys ==> k in am || k in bm
    requires i <= |keys| && InnerMerge(p, am, bm, keys[..i], counter, q).Failure?
    ensures InnerMerge(p, am, bm, keys, counter, q) == InnerMerge(p, am, bm, keys[..i], counter, q)
    decreases |keys| - i
  {
    if i == |keys| {
      assert keys[..i] == keys;
    } else {
      InnerStep(p, am, bm, keys, i, counter, q);
      InnerFail(p, am, bm, keys, i + 1, counter, q);
    }
  }

  lemma {:induction false} InnerMergeIff(p: Prim, am: map<string, Vec>, bm: map<string, Vec>, keys: seq<string>,
                                         counter: u64, q: Params)
    requires forall k :: k in keys ==> k in am || k in bm
    ensures InnerMerge(p, am, bm, keys, counter, q).Success? <==> forall k :: k in keys ==> NamedMerges(am, bm, k, q)
    ensures InnerMerge(p, am, bm, keys, counter, q).Success? ==>
      GoodMap(am, bm, KeySet(keys), InnerMerge(p, am, bm, keys, counter, q).value.vectors)
  {
    if keys != [] {
      var n := |keys| - 1;
      assert keys == keys[..n] + [keys[n]];
      InnerMergeIff(p, am, bm, keys[..n], counter, q);
      var rest := InnerMerge(p, am, bm, keys[..n], counter, q);
      if rest.Success? {
        VecAtIff(p, am, bm, keys[n], CounterSeeds(q, rest.value.counter), q);
      }
    }
  }

  ghost function LayerMerge(p: Prim, a: Scaling, b: Scaling, layer: string, counter: u64, q: Params): Result<Inner, MergeError> {
    var am, bm := LayerOf(a, layer), LayerOf(b, layer);
    InnerMerge(p, am, bm, Ordered(am.Keys + bm.Keys), counter, q)
  }

  ghost function LayersNext(p: Prim, a: Scaling, b: Scaling, layer: string,
                            done: Result<Outer, MergeError>, q: Params): Result<Outer, MergeError>
  {
    if done.Failure? then done
    else
      match LayerMerge(p, a, b, layer, done.value.counter, q)
      case Failure(f) => Failure(f)
      case Success(inner) => Success(Outer(done.value.layers[layer := inner.vectors], inner.counter))
  }

  ghost function LayersMerge(p: Prim, a: Scaling, b: Scaling, layers: seq<string>, q: Params): Result<Outer, MergeError> {
    if layers == [] then Success(Outer(map[], 0))
    else
      var n := |layers| - 1;
      LayersNext(p, a, b, layers[n], LayersMerge(p, a, b, layers[..n], q), q)
  }

  ghost function Ia3Merge(p: Prim, a: Scaling, b: Scaling, q: Params): Result<Scaling, MergeError> {
    match LayersMerge(p, a, b, Ordered(a.Keys + b.Keys), q)
    case Failure(f) => Failure(f)
    case Success(outer) => Success(outer.layers)
  }

  method MergeIa3(p: Prim, a: Scaling, b: Scaling, q: Params) returns (r: Result<Scaling, MergeError>)
    ensures r == Ia3Merge(p, a, b, q)
  {
    var layers := SortedKeys(a.Keys + b.Keys);
    var done := Outer(map[], 0);
    for i := 0 to |layers|
      invariant LayersMerge(p, a, b, layers[..i], q) == Success(done)
    {
      LayersStep(p, a, b, layers, i, q);
      var inner := MergeLayer(p, LayerOf(a, layers[i]), LayerOf(b, layers[i]), done.counter, q);
      if inner.Failure? {
        LayersFail(p, a, b, layers, i + 1, q);
        return Failure(inner.error);
      }
      done := Outer(done.layers[layers[i] := inner.value.vectors], inner.value.counter);
    }
    assert layers[..|layers|] == layers;
    return Success(done.layers);
  }

  lemma {:induction false} LayersStep(p: Prim, a: Scaling, b: Scaling, layers: seq<string>, i: nat, q: Params)
    requires i < |layers|
    ensures LayersMerge(p, a, b, layers[..i + 1], q)
         == LayersNext(p, a, b, layers[i], LayersMerge(p, a, b, layers[..i], q), q)
  {
    assert layers[..i + 1][..i] == layers[..i];
  }

  lemma {:induction false} LayersFail(p: Prim, a: Scaling, b: Scaling, layers: seq<string>, i: nat, q: Params)
    requires i <= |layers| && LayersMerge(p, a, b, layers[..i], q).Failure?
    ensures LayersMerge(p, a, b, layers, q) == LayersMerge(p, a, b, layers[..i], q)
    decreases |layers| - i
  {
    if i == |layers| {
      assert layers[..i] == layers;
    } else {
      LayersStep(p, a, b, layers, i, q);
      LayersFail(p, a, b, layers, i + 1, q);
    }
  }

  predicate LayerMerges(a: Scaling, b: Scaling, layer: string, q: Params) {
    var am, bm := LayerOf(a, layer), LayerOf(b, layer);
    forall k :: k in am && k in bm ==> VecsMerge(am[k], bm[k], q)
  }

  ghost predicate GoodLayers(a: Scaling, b: Scaling, keys: set<string>, r: Scaling) {
    && r.Keys == keys
    && forall layer :: layer in r ==> GoodLayer(a, b, layer, r[layer])
  }

  ghost predicate GoodLayer(a: Scaling, b: Scaling, layer: string, r: map<string, Vec>) {
    GoodMap(LayerOf(a, layer), LayerOf(b, layer), LayerOf(a, layer).Keys + LayerOf(b, layer).Keys, r)
  }

  lemma {:induction false} LayerMergeIff(p: Prim, a: Scaling, b: Scaling, layer: string, counter: u64, q: Params)
    ensures LayerMerge(p, a, b, layer, counter, q).Success? <==> LayerMerges(a, b, layer, q)
    ensures LayerMerge(p, a, b, layer, counter, q).Success? ==>
      GoodLayer(a, b, layer, LayerMerge(p, a, b, layer, counter, q).value.vectors)
  {
    var am, bm := LayerOf(a, layer), LayerOf(b, layer);
    var keys := Ordered(am.Keys + bm.Keys);
    InnerMergeIff(p, am, bm, keys, counter, q);
    assert KeySet(keys) == am.Keys + bm.Keys;
    assert forall k :: k in am && k in bm ==> (NamedMerges(am, bm, k, q) <==> VecsMerge(am[k], bm[k], q));
  }

  lemma {:induction false} LayersMergeIff(p: Prim, a: Scaling, b: Scaling, layers: seq<string>, q: Params)
    ensures LayersMerge(p, a, b, layers, q).Success? <==> forall layer :: layer in layers ==> LayerMerges(a, b, layer, q)
    ensures LayersMerge(p, a, b, layers, q).Success? ==>
      GoodLayers(a, b, KeySet(layers), LayersMerge(p, a, b, layers, q).value.layers)
  {
    if layers != [] {
      var n := |layers| - 1;
      assert layers == layers[..n] + [layers[n]];
      LayersMergeIff(p, a, b, layers[..n], q);
      var rest := LayersMerge(p, a, b, layers[..n], q);
      if rest.Success? {
        LayerMergeIff(p, a, b, layers[n], rest.value.counter, q);
      }
    }
  }

  /** The IA3 merge succeeds exactly if every vector both sides have has one
      non-zero length and the drop rate is in range; layers and matrices are the
      unions, and what one side alone has is unchanged. */
  lemma {:induction false} Ia3MergeSound(p: Prim, a: Scaling, b: Scaling, q: Params)
    ensures
      var r := Ia3Merge(p, a, b, q);
      && (r.Success? <==> forall layer :: layer in a && layer in b ==> LayerMerges(a, b, layer, q))
      && (r.Success? ==> GoodLayers(a, b, a.Keys + b.Keys, r.value))
  {
    var layers := Ordered(a.Keys + b.Keys);
    LayersMergeIff(p, a, b, layers, q);
    assert KeySet(layers) == a.Keys + b.Keys;
    assert forall layer :: !(layer in a && layer in b) ==> LayerMerges(a, b, layer, q);
  }
}
