/** `merge_model` as a whole: which diff is stored, when it fails, and what the result
    keeps of its sides. */
module MergeModel {

  import opened Bits
  import opened Base
  import opened Sorting
  import opened Ties
  import opened Diff
  import opened ModelMerge
  import opened NamedMerge
  import Cas

  datatype Outcome = Outcome(merged: Digest, trivial: bool, applied: bool, mismatch: bool)

  predicate Trivial(d: ModelDiff) {
    match d
    case Lora(adapters) => adapters == []
    case Ia3(scaling) => scaling == map[]
    case Full(params) => params == map[]
    case InPlaceTtt(steps) => steps == []
  }

  predicate SameKind(a: ModelDiff, b: ModelDiff) {
    (a.Lora? && b.Lora?) || (a.Ia3? && b.Ia3?) || (a.Full? && b.Full?) || (a.InPlaceTtt? && b.InPlaceTtt?)
  }

  function TttMerge(a: seq<TttStep>, b: seq<TttStep>): seq<TttStep> { Sort(a + b, StepLe) }

  /** The diff that a merge of `a` and `b` stores. */
  ghost function MergedDiff(p: Prim, a: ModelDiff, b: ModelDiff, q: Params): Result<ModelDiff, MergeError> {
    if Trivial(b) then Success(a)
    else if Trivial(a) then Success(b)
    else
      match (a, b)
      case (Lora(ds), Lora(es)) => LoraDiff(LoraMerge(p, ds, es, q))
      case (Full(am), Full(bm)) => FullDiff(ParamsMerge(p, am, bm, Ordered(am.Keys + bm.Keys), q))
      case (Ia3(am), Ia3(bm)) => Ia3Diff(Ia3Merge(p, am, bm, q))
      case (InPlaceTtt(ss), InPlaceTtt(ts)) => Success(InPlaceTtt(TttMerge(ss, ts)))
      case _ => Success(a)
  }

  function LoraDiff(r: Result<seq<Adapter>, MergeError>): Result<ModelDiff, MergeError> {
    match r case Success(ds) => Success(Lora(ds)) case Failure(f) => Failure(f)
  }

  function FullDiff(r: Result<map<string, Vec>, MergeError>): Result<ModelDiff, MergeError> {
    match r case Success(m) => Success(Full(m)) case Failure(f) => Failure(f)
  }

  function Ia3Diff(r: Result<Scaling, MergeError>): Result<ModelDiff, MergeError> {
    match r case Success(m) => Success(Ia3(m)) case Failure(f) => Failure(f)
  }

  /** What the merge of two digests stores, given the blobs it starts from. */
  ghost function MergeOf(p: Prim, c: Codec, m: Cas.Blobs, da: Digest, db: Digest, q: Params): Result<ModelDiff, MergeError> {
    match (Loaded(c, m, da), Loaded(c, m, db))
    case (Some(a), Some(b)) =>
      (match MergedDiff(p, a, b, q)
       case Failure(f) => Failure(f)
       case Success(d) => if ValidDiff(d) then Success(Canonical(d)) else Failure(NotValid))
    case _ => Failure(NotStored)
  }

  method MergeKinds(p: Prim, a: ModelDiff, b: ModelDiff, q: Params) returns (r: Result<ModelDiff, MergeError>)
    requires SameKind(a, b) && !Trivial(a) && !Trivial(b)
    ensures r == MergedDiff(p, a, b, q)
  {
    match (a, b)
    case (Lora(ds), Lora(es)) =>
      var merged := MergeLora(p, ds, es, q);
      return LoraDiff(merged);
    case (Full(am), Full(bm)) =>
      var merged := MergeFull(p, am, bm, q);
      return FullDiff(merged);
    case (Ia3(am), Ia3(bm)) =>
      var merged := MergeIa3(p, am, bm, q);
      return Ia3Diff(merged);
    case (InPlaceTtt(ss), InPlaceTtt(ts)) =>
      return Success(InPlaceTtt(Sort(ss + ts, StepLe)));
  }

  method MergeDiffs(p: Prim, c: Codec, store: Cas.MemBlobStore, da: Digest, db: Digest, q: Params)
    returns (r: Result<Outcome, MergeError>)
    requires store.Valid(p)
    modifies store
    ensures store.Valid(p)
    ensures r.Failure? <==> MergeOf(p, c, old(store.inner), da, db, q).Failure?
    ensures r.Failure? ==> r.error == MergeOf(p, c, old(store.inner), da, db, q).error && store.inner == old(store.inner)
    ensures r.Success? ==>
      var bytes := EnvelopeBytes(c, MergeOf(p, c, old(store.inner), da, db, q).value);
      store.inner == Cas.Stored(p, old(store.inner), bytes) && r.value.merged == Of(p, bytes)
    ensures r.Success? ==>
      var a, b := Loaded(c, old(store.inner), da).value, Loaded(c, old(store.inner), db).value;
      var neither := !Trivial(a) && !Trivial(b);
      && r.value.trivial == !neither
      && r.value.mismatch == (neither && !SameKind(a, b))
      && r.value.applied == (neither && SameKind(a, b) && !a.InPlaceTtt?)
  {
    var la := LoadDiff(c, store, da);
    if la.None? {
      return Failure(NotStored);
    }
    var lb := LoadDiff(c, store, db);
    if lb.None? {
      return Failure(NotStored);
    }
    var a, b := la.value, lb.value;
    var chosen, trivial, applied, mismatch := a, false, false, false;
    if Trivial(b) {
      trivial := true;
    } else if Trivial(a) {
      chosen, trivial := b, true;
    } else if !SameKind(a, b) {
      mismatch := true;
    } else {
      var merged := MergeKinds(p, a, b, q);
      if merged.Failure? {
        return Failure(merged.error);
      }
      chosen, applied := merged.value, !a.InPlaceTtt?;
    }
    SealedIffValid(chosen);
    var stored := StoreDiff(p, c, store, chosen);
    if stored.None? {
      return Failure(NotValid);
    }
    return Success(Outcome(stored.value, trivial, applied, mismatch));
  }

  // ---------- what a merge promises ----------

  predicate FullFits(am: map<string, Vec>, bm: map<string, Vec>, q: Params) {
    forall k :: k in am && k in bm ==> VecsMerge(am[k], bm[k], q)
  }

  predicate Ia3Fits(a: Scaling, b: Scaling, q: Params) {
    forall layer :: layer in a && layer in b ==> LayerMerges(a, b, layer, q)
  }

  /** The shapes of what both sides share agree and hold at least one weight. */
  predicate Fits(a: ModelDiff, b: ModelDiff, q: Params) {
    match (a, b)
    case (Lora(ds), Lora(es)) => LoraFits(ds, es, q)
    case (Full(am), Full(bm)) => FullFits(am, bm, q)
    case (Ia3(am), Ia3(bm)) => Ia3Fits(am, bm, q)
    case _ => true
  }

  /** Merging two valid diffs fails exactly on unfit shared shapes, and the
      result is always valid. */
  lemma {:induction false} MergeSucceedsIff(p: Prim, a: ModelDiff, b: ModelDiff, q: Params)
    requires ValidDiff(a) && ValidDiff(b)
    ensures MergedDiff(p, a, b, q).Success? <==> Trivial(a) || Trivial(b) || Fits(a, b, q)
    ensures MergedDiff(p, a, b, q).Success? ==> ValidDiff(MergedDiff(p, a, b, q).value)
  {
    match (a, b) {
      case (Lora(ds), Lora(es)) =>
        LoraMergeSound(p, ds, es, q);
        var r := LoraMerge(p, ds, es, q);
        if r.Success? {
          SealedIffValid(Lora(r.value));
        }
      case (Full(am), Full(bm)) => FullMergeSound(p, am, bm, q);
      case (Ia3(am), Ia3(bm)) => Ia3MergeSound(p, am, bm, q);
      case _ =>
    }
  }

  /** The keys of a diff: adapters, parameters, layers, or step ids. */
  datatype DiffKey = AdapterOf(key: AdapterKey) | Named(name: string) | StepOf(id: u32)

  ghost predicate HasKey(d: ModelDiff, k: DiffKey) {
    match (d, k)
    case (Lora(ds), AdapterOf(key)) => exists i :: 0 <= i < |ds| && KeyOf(ds[i]) == key
    case (Full(params), Named(name)) => name in params
    case (Ia3(scaling), Named(name)) => name in scaling
    case (InPlaceTtt(steps), StepOf(id)) => HasStep(steps, id)
    case _ => false
  }

  /** The keys of a merge of one kind are exactly the keys of either side. */
  lemma {:induction false} MergeKeepsKeys(p: Prim, a: ModelDiff, b: ModelDiff, q: Params, k: DiffKey)
    requires ValidDiff(a) && ValidDiff(b) && SameKind(a, b)
    requires MergedDiff(p, a, b, q).Success?
    ensures HasKey(MergedDiff(p, a, b, q).value, k) <==> HasKey(a, k) || HasKey(b, k)
  {
    if !Trivial(a) && !Trivial(b) {
      match (a, b) {
        case (Lora(ds), Lora(es)) =>
          if k.AdapterOf? {
            AdapterKeysKept(p, ds, es, q, k.key);
          }
        case (Full(am), Full(bm)) => FullMergeSound(p, am, bm, q);
        case (Ia3(am), Ia3(bm)) => Ia3MergeSound(p, am, bm, q);
        case (InPlaceTtt(ss), InPlaceTtt(ts)) =>
          if k.StepOf? {
            StepIdsKept(ss, ts, k.id);
          }
      }
    }
  }

  lemma {:induction false} AdapterKeysKept(p: Prim, ds: seq<Adapter>, es: seq<Adapter>, q: Params, key: AdapterKey)
    requires ValidDiff(Lora(ds)) && ValidDiff(Lora(es)) && LoraMerge(p, ds, es, q).Success?
    ensures HasKey(Lora(LoraMerge(p, ds, es, q).value), AdapterOf(key))
       <==> HasKey(Lora(ds), AdapterOf(key)) || HasKey(Lora(es), AdapterOf(key))
  {
    LoraMergeSound(p, ds, es, q);
    AdapterMapValid(ds);
    AdapterMapValid(es);
    var keys, r := AllKeys(ds, es), LoraMerge(p, ds, es, q).value;
    assert key in keys <==> key in AdapterMap(ds) || key in AdapterMap(es);
    if key in keys {
      var i :| 0 <= i < |keys| && keys[i] == key;
      assert GoodAdapter(AdapterMap(ds), AdapterMap(es), keys[i], r[i]);
    }
    if i :| 0 <= i < |r| && KeyOf(r[i]) == key {
      assert GoodAdapter(AdapterMap(ds), AdapterMap(es), keys[i], r[i]);
      assert key in keys;
    }
  }

  /** A step of this id is among the steps. */
  ghost predicate HasStep(steps: seq<TttStep>, id: u32) { exists i :: 0 <= i < |steps| && steps[i].stepId == id }

  lemma {:induction false} StepIn(steps: seq<TttStep>, id: u32)
    ensures HasStep(steps, id) <==> exists s :: s in steps && s.stepId == id
  {
    if i :| 0 <= i < |steps| && steps[i].stepId == id {
      assert steps[i] in steps;
    }
  }

  lemma {:induction false} StepIdsKept(ss: seq<TttStep>, ts: seq<TttStep>, id: u32)
    ensures HasStep(TttMerge(ss, ts), id) <==> HasStep(ss, id) || HasStep(ts, id)
  {
    KeyOrder();
    SortSorts(ss + ts, StepLe);
    StepIn(TttMerge(ss, ts), id);
    StepIn(ss, id);
    StepIn(ts, id);
    assert forall s :: s in ss + ts <==> s in ss || s in ts;
  }

  /** Training steps are merged as a sorted, stable permutation: all of both
      traces, by step id, and for one id first A's steps and then B's, each in
      the order they had. */
  lemma {:induction false} StepsMergeStably(ss: seq<TttStep>, ts: seq<TttStep>, id: u32)
    ensures
      var r := TttMerge(ss, ts);
      var here := (s: TttStep) => s.stepId == id;
      && Sorted(r, StepLe)
      && multiset(r) == multiset(ss) + multiset(ts)
      && Filter(r, here) == Filter(ss, here) + Filter(ts, here)
  {
    KeyOrder();
    var here := (s: TttStep) => s.stepId == id;
    SortSorts(ss + ts, StepLe);
    assert TieClass(here, StepLe);
    SortStable(ss + ts, StepLe, here);
    FilterAppend(ss, ts, here);
  }

  /** A merge that succeeds is read back under the digest it reports: the merged
      diff in canonical order. */
  lemma {:induction false} MergedDiffIsReadBack(p: Prim, c: Codec, m: Cas.Blobs, da: Digest, db: Digest, q: Params)
    requires LawfulCodec(c) && Cas.Keyed(p, m)
    requires MergeOf(p, c, m, da, db, q).Success? && Exact(c, MergeOf(p, c, m, da, db, q).value)
    requires CollisionFree(p, m.Values + {EnvelopeBytes(c, MergeOf(p, c, m, da, db, q).value)})
    ensures
      var d := MergeOf(p, c, m, da, db, q).value;
      && Loaded(c, Cas.Stored(p, m, EnvelopeBytes(c, d)), Of(p, EnvelopeBytes(c, d))) == Some(d)
      && Sealed(d) == Some(d)
  {
    var a, b := Loaded(c, m, da).value, Loaded(c, m, db).value;
    var d := MergedDiff(p, a, b, q).value;
    SealedIffValid(d);
    StoredDiffRoundTrip(p, c, m, Canonical(d));
  }

  /** On the right an empty diff is an identity, up to canonical order. On the
      left it is one exactly if the other side is not empty too, or is of the same
      kind: between two empty diffs A's kind stays. */
  lemma {:induction false} EmptyIsIdentityIff(p: Prim, c: Codec, m: Cas.Blobs, da: Digest, db: Digest, q: Params)
    requires Loaded(c, m, da).Some? && Loaded(c, m, db).Some?
    requires ValidDiff(Loaded(c, m, da).value) && ValidDiff(Loaded(c, m, db).value)
    ensures
      var a, b, r := Loaded(c, m, da).value, Loaded(c, m, db).value, MergeOf(p, c, m, da, db, q);
      && (Trivial(b) ==> r == Success(Canonical(a)))
      && (Trivial(a) ==> (r == Success(Canonical(b)) <==> !Trivial(b) || SameKind(a, b)))
  {
  }
}
