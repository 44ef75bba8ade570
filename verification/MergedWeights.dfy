/** What `merge_model` stores for each weight. */
module MergedWeights {
  // Every shared vector of the merged diff, by DARE, trim and election on the two
  // sides' vectors, and the seeds that each one draws with.

  import opened Bits
  import opened Base
  import opened Sorting
  import opened Ties
  import opened TiesValues
  import opened Diff
  import opened ModelMerge
  import opened NamedMerge
  import opened MergeModel
  import Cas

  // ---------- seeds wrap around ----------

  lemma {:induction false} WrapRight(x: int, y: int)
    ensures Wrap(x + Wrap(y)) == Wrap(x + y)
  {
    WrapSum(y, x);
    assert x + Wrap(y) == Wrap(y) + x && x + y == y + x;
  }

  lemma {:induction false} DrawWraps(p: Prim, seed: int, i: nat)
    ensures Draw(p, Wrap(seed), i) == Draw(p, seed, i)
  {
    WrapSum(seed, (i + 2) * 0x9E37_79B9_7F4A_7C15);
  }

  lemma {:induction false} ThinnedWraps(p: Prim, v: Vec, rate: real, seed: int)
    requires rate < 1.0
    ensures Thinned(p, v, rate, Wrap(seed)) == Thinned(p, v, rate, seed)
  {
    forall i | 0 <= i < |v|
      ensures Kept(p, v[i], rate, Wrap(seed), i) == Kept(p, v[i], rate, seed, i)
    {
      DrawWraps(p, seed, i);
    }
  }

  lemma {:induction false} WeightWraps(p: Prim, v: Vec, rate: real, seed: int, i: nat)
    requires rate < 1.0 && i < |v|
    ensures Weight(p, v, rate, Wrap(seed), i) == Weight(p, v, rate, seed, i)
  {
    ThinnedWraps(p, v, rate, seed);
    DrawWraps(p, seed, i);
  }

  lemma {:induction false} PairWraps(p: Prim, va: Vec, vb: Vec, seedA: int, seedB: int, q: Params, r: Vec)
    requires q.rate < 1.0 && MergedPair(p, va, vb, Wrap(seedA), Wrap(seedB), q, r)
    ensures MergedPair(p, va, vb, seedA, seedB, q, r)
  {
    forall i | 0 <= i < |r|
      ensures r[i] == PairWeight(p, va, vb, seedA, seedB, q, i)
    {
      PairWeightWraps(p, va, vb, seedA, seedB, q, i);
    }
  }

  lemma {:induction false} PairWeightWraps(p: Prim, va: Vec, vb: Vec, seedA: int, seedB: int, q: Params, i: nat)
    requires q.rate < 1.0 && i < |va| && i < |vb|
    ensures PairWeight(p, va, vb, Wrap(seedA), Wrap(seedB), q, i) == PairWeight(p, va, vb, seedA, seedB, q, i)
  {
    hide Weight, PairMean;
    WeightWraps(p, va, q.rate, seedA, i);
    WeightWraps(p, vb, q.rate, seedB, i);
  }

  /** `r` is what two vectors merge to that draw with these seeds. */
  ghost predicate MergedWith(p: Prim, va: Vec, vb: Vec, seedA: int, seedB: int, q: Params, r: Vec) {
    q.rate < 1.0 && MergedPair(p, va, vb, seedA, seedB, q, r)
  }

  lemma {:induction false} VecMergedWith(p: Prim, va: Vec, vb: Vec, seedA: int, seedB: int, q: Params)
    requires VecMerge(p, va, vb, Wrap(seedA), Wrap(seedB), q).Success?
    ensures MergedWith(p, va, vb, seedA, seedB, q, VecMerge(p, va, vb, Wrap(seedA), Wrap(seedB), q).value)
  {
    VecMergeValue(p, va, vb, Wrap(seedA), Wrap(seedB), q);
    PairWraps(p, va, vb, seedA, seedB, q, VecMerge(p, va, vb, Wrap(seedA), Wrap(seedB), q).value);
  }

  // ---------- LoRA ----------

  /** The adapter that counts for its key: the last one. */
  predicate LastOfKey(ds: seq<Adapter>, j: nat) {
    j < |ds| && forall i :: j < i < |ds| ==> KeyOf(ds[i]) != KeyOf(ds[j])
  }

  predicate HasKey(ds: seq<Adapter>, k: AdapterKey) { exists i :: 0 <= i < |ds| && KeyOf(ds[i]) == k }

  lemma {:induction false} MapHoldsLast(ds: seq<Adapter>, j: nat)
    requires LastOfKey(ds, j)
    ensures KeyOf(ds[j]) in AdapterMap(ds) && AdapterMap(ds)[KeyOf(ds[j])] == ds[j]
  {
    var n := |ds| - 1;
    if j < n {
      MapHoldsLast(ds[..n], j);
    }
  }

  lemma {:induction false} MapHasKey(ds: seq<Adapter>, k: AdapterKey)
    ensures k in AdapterMap(ds) <==> HasKey(ds, k)
  {
    if ds != [] {
      var n := |ds| - 1;
      MapHasKey(ds[..n], k);
      assert HasKey(ds, k) <==> HasKey(ds[..n], k) || KeyOf(ds[n]) == k by {
        if HasKey(ds[..n], k) {
          var i :| 0 <= i < n && KeyOf(ds[..n][i]) == k;
          assert KeyOf(ds[i]) == k;
        }
        if HasKey(ds, k) {
          var i :| 0 <= i < |ds| && KeyOf(ds[i]) == k;
          assert i < n ==> KeyOf(ds[..n][i]) == k;
        }
      }
    }
  }

  lemma {:induction false} AdapterInResult(p: Prim, am: map<AdapterKey, Adapter>, bm: map<AdapterKey, Adapter>,
                                           keys: seq<AdapterKey>, q: Params, i: nat)
    requires forall k :: k in keys ==> k in am || k in bm
    requires AdaptersMerge(p, am, bm, keys, q).Success? && i < |keys|
    ensures |AdaptersMerge(p, am, bm, keys, q).value| == |keys|
    ensures keys[i] in keys && AdapterAt(p, am, bm, keys[i], q) == Success(AdaptersMerge(p, am, bm, keys, q).value[i])
  {
    var n := |keys| - 1;
    hide AdapterAt;
    if i < n {
      AdapterInResult(p, am, bm, keys[..n], q, i);
    } else if n > 0 {
      AdapterInResult(p, am, bm, keys[..n], q, 0);
    }
  }

  /** The adapter of a key in the merged list. */
  lemma {:induction false} LoraAt(p: Prim, a: seq<Adapter>, b: seq<Adapter>, q: Params, k: AdapterKey) returns (i: nat)
    requires LoraMerge(p, a, b, q).Success? && (k in AdapterMap(a) || k in AdapterMap(b))
    ensures i < |LoraMerge(p, a, b, q).value|
    ensures AdapterAt(p, AdapterMap(a), AdapterMap(b), k, q) == Success(LoraMerge(p, a, b, q).value[i])
  {
    AllKeysList(a, b);
    var keys := AllKeys(a, b);
    assert k in keys;
    i :| 0 <= i < |keys| && keys[i] == k;
    AdapterInResult(p, AdapterMap(a), AdapterMap(b), keys, q, i);
  }

  /** The merged adapter of two: the same place and shape, both factors merged,
      each with its own two seeds. */
  ghost predicate MergedAdapter(p: Prim, d: Adapter, e: Adapter, q: Params, r: Adapter) {
    && r.layerId == d.layerId && r.matrix == d.matrix
    && r.rank == d.rank == e.rank && r.inDim == d.inDim == e.inDim && r.outDim == d.outDim == e.outDim
    && MergedWith(p, d.a, e.a, q.seed, q.seed + 1, q, r.a)
    && MergedWith(p, d.b, e.b, q.seed + 2, q.seed + 3, q, r.b)
  }

  lemma {:induction false} AdapterMergedWith(p: Prim, d: Adapter, e: Adapter, q: Params)
    requires AdapterMerge(p, d, e, q).Success?
    ensures MergedAdapter(p, d, e, q, AdapterMerge(p, d, e, q).value)
  {
    hide VecMerge;
    assert Wrap(q.seed) == q.seed;
    VecMergedWith(p, d.a, e.a, q.seed, q.seed + 1, q);
    VecMergedWith(p, d.b, e.b, q.seed + 2, q.seed + 3, q);
  }

  /** Every shared adapter of a LoRA merge, and every adapter of one side. */
  ghost predicate LoraValues(p: Prim, a: seq<Adapter>, b: seq<Adapter>, q: Params, rs: seq<Adapter>) {
    && (forall j: nat, l: nat :: LastOfKey(a, j) && LastOfKey(b, l) && KeyOf(a[j]) == KeyOf(b[l]) ==>
          exists r :: r in rs && MergedAdapter(p, a[j], b[l], q, r))
    && (forall j: nat :: LastOfKey(a, j) && !HasKey(b, KeyOf(a[j])) ==> a[j] in rs)
    && (forall l: nat :: LastOfKey(b, l) && !HasKey(a, KeyOf(b[l])) ==> b[l] in rs)
  }

  lemma {:induction false} LoraMergeValues(p: Prim, a: seq<Adapter>, b: seq<Adapter>, q: Params)
    requires LoraMerge(p, a, b, q).Success?
    ensures LoraValues(p, a, b, q, LoraMerge(p, a, b, q).value)
  {
    var rs := LoraMerge(p, a, b, q).value;
    forall j: nat, l: nat | LastOfKey(a, j) && LastOfKey(b, l) && KeyOf(a[j]) == KeyOf(b[l])
      ensures exists r :: r in rs && MergedAdapter(p, a[j], b[l], q, r)
    {
      MapHoldsLast(a, j);
      MapHoldsLast(b, l);
      var i := LoraAt(p, a, b, q, KeyOf(a[j]));
      AdapterMergedWith(p, a[j], b[l], q);
      assert rs[i] in rs;
    }
    forall j: nat | LastOfKey(a, j) && !HasKey(b, KeyOf(a[j]))
      ensures a[j] in rs
    {
      MapHoldsLast(a, j);
      MapHasKey(b, KeyOf(a[j]));
      var i := LoraAt(p, a, b, q, KeyOf(a[j]));
    }
    forall l: nat | LastOfKey(b, l) && !HasKey(a, KeyOf(b[l]))
      ensures b[l] in rs
    {
      MapHoldsLast(b, l);
      MapHasKey(a, KeyOf(b[l]));
      var i := LoraAt(p, a, b, q, KeyOf(b[l]));
    }
  }

  // ---------- full-finetune deltas ----------

  /** The place of a name among all of them in ascending order. */
  ghost function Rank(names: set<string>, k: string): nat { |set n | n in names && n != k && StrLe(n, k)| }

  lemma {:induction false} RankIs(keys: seq<string>, i: nat)
    requires Ascending(keys) && i < |keys|
    ensures Rank(KeySet(keys), keys[i]) == i
    decreases |keys|
  {
    var names := KeySet(keys);
    var smaller := set n | n in names && n != keys[i] && StrLe(n, keys[i]);
    var first := KeySet(keys[..i]);
    forall n
      ensures n in smaller <==> n in first
    {
      if n in smaller {
        var j :| 0 <= j < |keys| && keys[j] == n;
        if i < j {
          StrTotal(keys[i], keys[j]);
        }
        assert keys[..i][j] == n;
      }
      if n in first {
        var j :| 0 <= j < i && keys[..i][j] == n;
        assert keys[j] == n && n in keys;
      }
    }
    assert smaller == first;
    DistinctCount(keys[..i]);
  }

  lemma {:induction false} DistinctCount(keys: seq<string>)
    requires forall i, j :: 0 <= i < j < |keys| ==> keys[i] != keys[j]
    ensures |KeySet(keys)| == |keys|
  {
    if keys != [] {
      var n := |keys| - 1;
      DistinctCount(keys[..n]);
      LastOfKeySet(keys);
    }
  }

  lemma {:induction false} LastOfKeySet(keys: seq<string>)
    requires keys != [] && forall i, j :: 0 <= i < j < |keys| ==> keys[i] != keys[j]
    ensures keys[|keys| - 1] !in KeySet(keys[..|keys| - 1])
    ensures KeySet(keys) == KeySet(keys[..|keys| - 1]) + {keys[|keys| - 1]}
  {
    assert keys == keys[..|keys| - 1] + [keys[|keys| - 1]];
  }

  /** The low byte of an index turned over, as `i ^ 0xFF` does. */
  function LowByteFlipped(i: nat): nat { i / 256 * 256 + (255 - i % 256) }

  lemma {:induction false} NamedInResult(p: Prim, am: map<string, Vec>, bm: map<string, Vec>, keys: seq<string>, q: Params, i: nat)
    requires (forall k :: k in keys ==> k in am || k in bm) && Ascending(keys)
    requires ParamsMerge(p, am, bm, keys, q).Success? && i < |keys|
    ensures keys[i] in keys && keys[i] in ParamsMerge(p, am, bm, keys, q).value
    ensures VecAt(p, am, bm, keys[i], FullSeeds(q, i), q) == Success(ParamsMerge(p, am, bm, keys, q).value[keys[i]])
  {
    hide VecAt, FullSeeds;
    var n := |keys| - 1;
    if i < n {
      NamedInResult(p, am, bm, keys[..n], q, i);
      assert keys[i] != keys[n];
    }
  }

  /** A shared vector of a full-finetune merge: the seeds go by its place among all
      names. */
  ghost predicate FullValueAt(p: Prim, am: map<string, Vec>, bm: map<string, Vec>, q: Params, r: map<string, Vec>, k: string)
    requires k in am && k in bm
  {
    var i := Rank(am.Keys + bm.Keys, k);
    k in r && MergedWith(p, am[k], bm[k], q.seed + i, q.seed + LowByteFlipped(i), q, r[k])
  }

  ghost predicate FullValues(p: Prim, am: map<string, Vec>, bm: map<string, Vec>, q: Params, r: map<string, Vec>) {
    forall k :: k in am && k in bm ==> FullValueAt(p, am, bm, q, r, k)
  }

  lemma {:induction false} FullMergeValues(p: Prim, am: map<string, Vec>, bm: map<string, Vec>, q: Params)
    requires NamedKeys(am, bm, Ordered(am.Keys + bm.Keys))
    requires ParamsMerge(p, am, bm, Ordered(am.Keys + bm.Keys), q).Success?
    ensures FullValues(p, am, bm, q, ParamsMerge(p, am, bm, Ordered(am.Keys + bm.Keys), q).value)
  {
    hide FullValueAt;
    var keys := Ordered(am.Keys + bm.Keys);
    forall k | k in am && k in bm
      ensures FullValueAt(p, am, bm, q, ParamsMerge(p, am, bm, keys, q).value, k)
    {
      assert k in keys;
      var i :| 0 <= i < |keys| && keys[i] == k;
      FullMergedAt(p, am, bm, keys, q, i);
    }
  }

  lemma {:induction false} FullMergedAt(p: Prim, am: map<string, Vec>, bm: map<string, Vec>, keys: seq<string>, q: Params, i: nat)
    requires NamedKeys(am, bm, keys) && Ascending(keys) && i < |keys| && keys[i] in am && keys[i] in bm
    requires ParamsMerge(p, am, bm, keys, q).Success?
    ensures FullValueAt(p, am, bm, q, ParamsMerge(p, am, bm, keys, q).value, keys[i])
  {
    hide MergedWith, ParamsMerge, VecAt, Rank;
    assert KeySet(keys) == am.Keys + bm.Keys;
    RankIs(keys, i);
    NamedInResult(p, am, bm, keys, q, i);
    NamedMergedWith(p, am, bm, keys[i], i, q);
  }

  lemma {:induction false} FlippedIs(i: nat)
    ensures Xor255(i) == LowByteFlipped(i)
  {
  }

  lemma {:induction false} NamedMergedWith(p: Prim, am: map<string, Vec>, bm: map<string, Vec>, k: string, i: nat, q: Params)
    requires k in am && k in bm && VecAt(p, am, bm, k, FullSeeds(q, i), q).Success?
    ensures MergedWith(p, am[k], bm[k], q.seed + i, q.seed + LowByteFlipped(i), q, VecAt(p, am, bm, k, FullSeeds(q, i), q).value)
  {
    hide VecMerge, Wrap, MergedWith;
    FlippedIs(i);
    WrapRight(q.seed, LowByteFlipped(i));
    VecMergedWith(p, am[k], bm[k], q.seed + i, q.seed + LowByteFlipped(i), q);
  }

  // ---------- IA3 scalings ----------

  /** How many of the names both sides have. */
  function SharedIn(am: map<string, Vec>, bm: map<string, Vec>, keys: seq<string>): nat {
    if keys == [] then 0
    else SharedIn(am, bm, keys[..|keys| - 1]) + (if keys[|keys| - 1] in am && keys[|keys| - 1] in bm then 1 else 0)
  }

  /** How many vectors of these layers both sides have. */
  ghost function SharedBefore(a: Scaling, b: Scaling, layers: seq<string>): nat {
    if layers == [] then 0
    else
      var layer := layers[|layers| - 1];
      SharedBefore(a, b, layers[..|layers| - 1])
      + SharedIn(LayerOf(a, layer), LayerOf(b, layer), Ordered(LayerOf(a, layer).Keys + LayerOf(b, layer).Keys))
  }

  lemma {:induction false} CounterIs(p: Prim, am: map<string, Vec>, bm: map<string, Vec>, keys: seq<string>,
                                     start: int, q: Params)
    requires forall k :: k in keys ==> k in am || k in bm
    requires InnerMerge(p, am, bm, keys, Wrap(start), q).Success?
    ensures InnerMerge(p, am, bm, keys, Wrap(start), q).value.counter == Wrap(start + 2 * SharedIn(am, bm, keys))
  {
    hide VecAt, CounterSeeds;
    if keys != [] {
      var n := |keys| - 1;
      CounterIs(p, am, bm, keys[..n], start, q);
      var c := start + 2 * SharedIn(am, bm, keys[..n]);
      WrapSum(c, 1);
      WrapSum(c + 1, 1);
    }
  }

  lemma {:induction false} VectorInResult(p: Prim, am: map<string, Vec>, bm: map<string, Vec>, keys: seq<string>,
                                          start: int, q: Params, j: nat)
    requires (forall k :: k in keys ==> k in am || k in bm) && Ascending(keys)
    requires InnerMerge(p, am, bm, keys, Wrap(start), q).Success? && j < |keys|
    ensures keys[j] in keys && keys[j] in InnerMerge(p, am, bm, keys, Wrap(start), q).value.vectors
    ensures
      var counter := Wrap(start + 2 * SharedIn(am, bm, keys[..j]));
      VecAt(p, am, bm, keys[j], CounterSeeds(q, counter), q)
      == Success(InnerMerge(p, am, bm, keys, Wrap(start), q).value.vectors[keys[j]])
  {
    hide VecAt, CounterSeeds, Wrap, NextCounter, StrLe;
    var n := |keys| - 1;
    if j < n {
      VectorInResult(p, am, bm, keys[..n], start, q, j);
      assert keys[..n][..j] == keys[..j] && keys[j] != keys[n];
    } else {
      CounterIs(p, am, bm, keys[..n], start, q);
    }
  }

  lemma {:induction false} VectorMergedWith(p: Prim, am: map<string, Vec>, bm: map<string, Vec>, k: string, count: int, q: Params)
    requires k in am && k in bm && VecAt(p, am, bm, k, CounterSeeds(q, Wrap(count)), q).Success?
    ensures MergedWith(p, am[k], bm[k], q.seed + count, q.seed + count + 1, q,
                       VecAt(p, am, bm, k, CounterSeeds(q, Wrap(count)), q).value)
  {
    hide VecMerge, Wrap, MergedWith;
    WrapRight(q.seed, count);
    WrapSum(count, 1);
    WrapRight(q.seed, count + 1);
    assert q.seed + count + 1 == q.seed + (count + 1);
    VecMergedWith(p, am[k], bm[k], q.seed + count, q.seed + count + 1, q);
  }

  /** In one layer, after `before` shared vectors of earlier layers: the `n`-th
      shared vector draws with the seeds 2 n and 2 n + 1. */
  ghost predicate LayerValueAt(p: Prim, am: map<string, Vec>, bm: map<string, Vec>, keys: seq<string>, before: nat, q: Params,
                               r: map<string, Vec>, j: nat)
    requires j < |keys|
  {
    keys[j] in am && keys[j] in bm ==>
      var n := before + SharedIn(am, bm, keys[..j]);
      keys[j] in r && MergedWith(p, am[keys[j]], bm[keys[j]], q.seed + 2 * n, q.seed + 2 * n + 1, q, r[keys[j]])
  }

  ghost predicate LayerValues(p: Prim, am: map<string, Vec>, bm: map<string, Vec>, before: nat, q: Params, r: map<string, Vec>) {
    var keys := Ordered(am.Keys + bm.Keys);
    forall j :: 0 <= j < |keys| ==> LayerValueAt(p, am, bm, keys, before, q, r, j)
  }

  lemma {:induction false} LayerMergeValues(p: Prim, a: Scaling, b: Scaling, layer: string, before: nat, q: Params)
    requires LayerMerge(p, a, b, layer, Wrap(2 * before), q).Success?
    ensures LayerValues(p, LayerOf(a, layer), LayerOf(b, layer), before, q,
                        LayerMerge(p, a, b, layer, Wrap(2 * before), q).value.vectors)
  {
    hide LayerValueAt;
    var am, bm := LayerOf(a, layer), LayerOf(b, layer);
    var keys := Ordered(am.Keys + bm.Keys);
    forall j | 0 <= j < |keys|
      ensures LayerValueAt(p, am, bm, keys, before, q, InnerMerge(p, am, bm, keys, Wrap(2 * before), q).value.vectors, j)
    {
      VectorMergedAt(p, am, bm, keys, before, q, j);
    }
  }

  lemma {:induction false} VectorMergedAt(p: Prim, am: map<string, Vec>, bm: map<string, Vec>, keys: seq<string>, before: nat,
                                          q: Params, j: nat)
    requires (forall k :: k in keys ==> k in am || k in bm) && Ascending(keys) && j < |keys|
    requires InnerMerge(p, am, bm, keys, Wrap(2 * before), q).Success?
    ensures LayerValueAt(p, am, bm, keys, before, q, InnerMerge(p, am, bm, keys, Wrap(2 * before), q).value.vectors, j)
  {
    hide MergedWith, InnerMerge, VecAt;
    var n := before + SharedIn(am, bm, keys[..j]);
    VectorInResult(p, am, bm, keys, 2 * before, q, j);
    assert 2 * before + 2 * SharedIn(am, bm, keys[..j]) == 2 * n;
    if keys[j] in am && keys[j] in bm {
      VectorMergedWith(p, am, bm, keys[j], 2 * n, q);
    }
  }

  lemma {:induction false} LayerInResult(p: Prim, a: Scaling, b: Scaling, layers: seq<string>, q: Params, i: nat)
    requires Ascending(layers) && LayersMerge(p, a, b, layers, q).Success? && i < |layers|
    ensures layers[i] in LayersMerge(p, a, b, layers, q).value.layers
    ensures
      var r := LayerMerge(p, a, b, layers[i], Wrap(2 * SharedBefore(a, b, layers[..i])), q);
      r.Success? && r.value.vectors == LayersMerge(p, a, b, layers, q).value.layers[layers[i]]
  {
    hide LayerMerge;
    var n := |layers| - 1;
    if i < n {
      LayerInResult(p, a, b, layers[..n], q, i);
      assert layers[..n][..i] == layers[..i] && layers[i] != layers[n];
    } else {
      CounterAfter(p, a, b, layers[..n], q);
    }
  }

  lemma {:induction false} CounterAfter(p: Prim, a: Scaling, b: Scaling, layers: seq<string>, q: Params)
    requires LayersMerge(p, a, b, layers, q).Success?
    ensures LayersMerge(p, a, b, layers, q).value.counter == Wrap(2 * SharedBefore(a, b, layers))
  {
    if layers == [] {
      assert Wrap(0) == 0;
    } else {
      CounterAfter(p, a, b, layers[..|layers| - 1], q);
      CounterStep(p, a, b, layers, q);
    }
  }

  lemma {:induction false} CounterStep(p: Prim, a: Scaling, b: Scaling, layers: seq<string>, q: Params)
    requires layers != [] && LayersMerge(p, a, b, layers, q).Success?
    requires
      var done := layers[..|layers| - 1];
      LayersMerge(p, a, b, done, q).Success? && LayersMerge(p, a, b, done, q).value.counter == Wrap(2 * SharedBefore(a, b, done))
    ensures LayersMerge(p, a, b, layers, q).value.counter == Wrap(2 * SharedBefore(a, b, layers))
  {
    hide LayerMerge, SharedIn, Wrap;
    var n := |layers| - 1;
    LayerCounter(p, a, b, layers[n], SharedBefore(a, b, layers[..n]), q);
  }

  lemma {:induction false} LayerCounter(p: Prim, a: Scaling, b: Scaling, layer: string, before: nat, q: Params)
    requires LayerMerge(p, a, b, layer, Wrap(2 * before), q).Success?
    ensures
      var am, bm := LayerOf(a, layer), LayerOf(b, layer);
      LayerMerge(p, a, b, layer, Wrap(2 * before), q).value.counter
      == Wrap(2 * (before + SharedIn(am, bm, Ordered(am.Keys + bm.Keys))))
  {
    hide InnerMerge, SharedIn;
    var am, bm := LayerOf(a, layer), LayerOf(b, layer);
    var keys := Ordered(am.Keys + bm.Keys);
    CounterIs(p, am, bm, keys, 2 * before, q);
    assert 2 * (before + SharedIn(am, bm, keys)) == 2 * before + 2 * SharedIn(am, bm, keys);
  }

  /** Every shared vector of an IA3 merge, layer by layer in ascending order. */
  ghost predicate Ia3Values(p: Prim, a: Scaling, b: Scaling, q: Params, r: Scaling) {
    var layers := Ordered(a.Keys + b.Keys);
    forall i :: 0 <= i < |layers| ==>
      layers[i] in r
      && LayerValues(p, LayerOf(a, layers[i]), LayerOf(b, layers[i]), SharedBefore(a, b, layers[..i]), q, r[layers[i]])
  }

  lemma {:induction false} Ia3MergeValues(p: Prim, a: Scaling, b: Scaling, q: Params)
    requires Ia3Merge(p, a, b, q).Success?
    ensures Ia3Values(p, a, b, q, Ia3Merge(p, a, b, q).value)
  {
    var layers := Ordered(a.Keys + b.Keys);
    forall i | 0 <= i < |layers|
      ensures layers[i] in Ia3Merge(p, a, b, q).value
      ensures LayerValues(p, LayerOf(a, layers[i]), LayerOf(b, layers[i]), SharedBefore(a, b, layers[..i]), q,
                          Ia3Merge(p, a, b, q).value[layers[i]])
    {
      LayerInResult(p, a, b, layers, q, i);
      LayerMergeValues(p, a, b, layers[i], SharedBefore(a, b, layers[..i]), q);
    }
  }

  // ---------- what is stored ----------

  /** The stored diff of two of one kind, weight by weight. Steps: `MergedSteps`. */
  ghost predicate KindValues(p: Prim, a: ModelDiff, b: ModelDiff, q: Params, d: ModelDiff) {
    match a
    case Lora(ds) => b.Lora? && d.Lora? && LoraValues(p, ds, b.adapters, q, d.adapters)
    case Full(am) => b.Full? && d.Full? && FullValues(p, am, b.params, q, d.params)
    case Ia3(am) => b.Ia3? && d.Ia3? && Ia3Values(p, am, b.scaling, q, d.scaling)
    case InPlaceTtt(_) => b.InPlaceTtt? && d.InPlaceTtt?
  }

  lemma {:induction false} LoraValuesSorted(p: Prim, a: seq<Adapter>, b: seq<Adapter>, q: Params, rs: seq<Adapter>)
    requires LoraValues(p, a, b, q, rs)
    ensures LoraValues(p, a, b, q, Sort(rs, AdapterLe))
  {
    KeyOrder();
    SortSorts(rs, AdapterLe);
    assert forall r :: r in rs ==> r in Sort(rs, AdapterLe) by {
      forall r | r in rs
        ensures r in Sort(rs, AdapterLe)
      {
        assert r in multiset(rs);
      }
    }
  }

  /** What `merge_model` stores for two diffs of one kind. */
  lemma {:induction false} MergedValues(p: Prim, c: Codec, m: Cas.Blobs, da: Digest, db: Digest, q: Params)
    requires MergeOf(p, c, m, da, db, q).Success? && Loaded(c, m, da).Some? && Loaded(c, m, db).Some?
    requires !Trivial(Loaded(c, m, da).value) && !Trivial(Loaded(c, m, db).value)
    requires SameKind(Loaded(c, m, da).value, Loaded(c, m, db).value)
    ensures KindValues(p, Loaded(c, m, da).value, Loaded(c, m, db).value, q, MergeOf(p, c, m, da, db, q).value)
  {
    match (Loaded(c, m, da).value, Loaded(c, m, db).value) {
      case (Lora(ds), Lora(es)) =>
        LoraMergeValues(p, ds, es, q);
        LoraValuesSorted(p, ds, es, q, LoraMerge(p, ds, es, q).value);
      case (Full(am), Full(bm)) => FullMergeValues(p, am, bm, q);
      case (Ia3(am), Ia3(bm)) => Ia3MergeValues(p, am, bm, q);
      case (InPlaceTtt(_), InPlaceTtt(_)) =>
    }
  }

  /** Training steps: all of both sides, by id, and for one id first A's and then B's. */
  lemma {:induction false} MergedSteps(p: Prim, c: Codec, m: Cas.Blobs, da: Digest, db: Digest, q: Params,
                                       ss: seq<TttStep>, ts: seq<TttStep>, id: u32)
    requires Loaded(c, m, da) == Some(InPlaceTtt(ss)) && Loaded(c, m, db) == Some(InPlaceTtt(ts)) && ss != [] && ts != []
    ensures MergeOf(p, c, m, da, db, q).Success? && MergeOf(p, c, m, da, db, q).value.InPlaceTtt?
    ensures
      var r := MergeOf(p, c, m, da, db, q).value.steps;
      var here := (s: TttStep) => s.stepId == id;
      && (forall i, j :: 0 <= i < j < |r| ==> r[i].stepId <= r[j].stepId)
      && multiset(r) == multiset(ss) + multiset(ts)
      && Filter(r, here) == Filter(ss, here) + Filter(ts, here)
  {
    StepsMergeStably(ss, ts, id);
    SortFixed(TttMerge(ss, ts), StepLe);
    var r := TttMerge(ss, ts);
    forall i, j | 0 <= i < j < |r|
      ensures r[i].stepId <= r[j].stepId
    {
      assert StepLe(r[i], r[j]);
    }
  }

  /** Two diffs of different kinds: A's stays, whole. */
  lemma {:induction false} DifferentKinds(p: Prim, c: Codec, m: Cas.Blobs, da: Digest, db: Digest, q: Params)
    requires Loaded(c, m, da).Some? && Loaded(c, m, db).Some? && ValidDiff(Loaded(c, m, da).value)
    requires !Trivial(Loaded(c, m, da).value) && !Trivial(Loaded(c, m, db).value)
    requires !SameKind(Loaded(c, m, da).value, Loaded(c, m, db).value)
    ensures MergeOf(p, c, m, da, db, q) == Success(Canonical(Loaded(c, m, da).value))
  {
  }
}
