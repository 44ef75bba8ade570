/** DARE and TIES over vectors of reals: the generator, dropping and rescaling, and the
    cut by magnitude. */
module Ties {
  import opened Bits
  import opened Base
  import opened Sorting

  type Vec = seq<real>

  function Abs(x: real): real { if x < 0.0 then -x else x }

  // ---------- SplitMix64 ----------

  const GAMMA: u64 := 0x9E37_79B9_7F4A_7C15

  /** 64-bit wrap-around. */
  function Wrap(x: int): u64 { x % 0x1_0000_0000_0000_0000 }

  /** The generator: a counter in steps of `GAMMA` and an output function. */
  class SplitMix64 {
    var state: u64

    constructor (seed: u64)
      ensures state == Wrap(seed + GAMMA)
    {
      state := Wrap(seed + GAMMA);
    }

    method Next(p: Prim) returns (u: real)
      modifies this
      ensures state == Wrap(old(state) + GAMMA) && u == p.fraction(state)
    {
      state := Wrap(state + GAMMA);
      u := p.fraction(state);
    }
  }

  /** State of a generator seeded with `seed` after `n` draws. */
  function StateAfter(seed: u64, n: nat): u64 {
    if n == 0 then Wrap(seed + GAMMA) else Wrap(StateAfter(seed, n - 1) + GAMMA)
  }

  /** Whether DARE drops position `i`: a matter of the seed and the position alone. */
  predicate Dropped(p: Prim, seed: u64, i: nat, rate: real) {
    p.fraction(StateAfter(seed, i + 1)) < rate
  }

  // ---------- DARE ----------

  datatype Problem = BadDropRate | NoDeltas | LengthMismatch | BadKeepTop | EmptyVectorPanic

  /** One entry of DARE's output: zero if dropped, rescaled otherwise. */
  function DaredAt(p: Prim, x: real, rate: real, scale: real, seed: u64, i: nat): real {
    if Dropped(p, seed, i, rate) then 0.0 else x * scale
  }

  function DaredBy(p: Prim, delta: Vec, rate: real, scale: real, seed: u64): (r: Vec)
    ensures |r| == |delta|
  {
    if delta == [] then []
    else
      var n := |delta| - 1;
      DaredBy(p, delta[..n], rate, scale, seed) + [DaredAt(p, delta[n], rate, scale, seed, n)]
  }

  function Scale(rate: real): real
    requires rate < 1.0
  {
    1.0 / (1.0 - rate)
  }

  function Dared(p: Prim, delta: Vec, rate: real, seed: u64): (r: Vec)
    requires rate < 1.0
    ensures |r| == |delta|
  {
    DaredBy(p, delta, rate, Scale(rate), seed)
  }

  method Dare(p: Prim, delta: Vec, rate: real, seed: u64) returns (r: Result<Vec, Problem>)
    ensures r == if 0.0 < rate < 1.0 then Success(Dared(p, delta, rate, seed)) else Failure(BadDropRate)
  {
    if !(0.0 < rate < 1.0) {
      return Failure(BadDropRate);
    }
    var scale := Scale(rate);
    var out: Vec := [];
    var rng := new SplitMix64(seed);
    for i := 0 to |delta|
      invariant rng.state == StateAfter(seed, i)
      invariant out == DaredBy(p, delta[..i], rate, scale, seed)
    {
      var u := rng.Next(p);
      assert rng.state == StateAfter(seed, i + 1);
      var y := if u < rate then 0.0 else delta[i] * scale;
      assert y == DaredAt(p, delta[i], rate, scale, seed, i);
      DaredStep(p, delta, rate, scale, seed, i);
      out := out + [y];
    }
    assert delta[..|delta|] == delta;
    return Success(out);
  }

  lemma {:induction false} DaredStep(p: Prim, delta: Vec, rate: real, scale: real, seed: u64, i: nat)
    requires i < |delta|
    ensures DaredBy(p, delta[..i + 1], rate, scale, seed)
         == DaredBy(p, delta[..i], rate, scale, seed) + [DaredAt(p, delta[i], rate, scale, seed, i)]
  {
    assert delta[..i + 1][..i] == delta[..i];
  }

  /** Which positions are dropped does not depend on the vector: an entry is
      zeroed or rescaled according to the seed and its position. */
  lemma {:induction false} DaredEntry(p: Prim, delta: Vec, rate: real, scale: real, seed: u64, i: nat)
    requires i < |delta|
    ensures DaredBy(p, delta, rate, scale, seed)[i] == DaredAt(p, delta[i], rate, scale, seed, i)
  {
    var n := |delta| - 1;
    if i < n {
      DaredEntry(p, delta[..n], rate, scale, seed, i);
    }
  }

  // ---------- trimming ----------

  predicate RealLe(x: real, y: real) { x <= y }

  function Mags(v: Vec): Vec {
    if v == [] then [] else [Abs(v[0])] + Mags(v[1..])
  }

  function CutIndex(n: nat, q: real): nat
    requires n > 0 && 0.0 < q
  {
    var ix := (q * n as real).Floor;
    if ix < n - 1 then ix else n - 1
  }

  lemma {:induction false} MagsLength(v: Vec)
    ensures |Mags(v)| == |v| && |Sort(Mags(v), RealLe)| == |v|
    ensures forall i :: 0 <= i < |v| ==> Mags(v)[i] == Abs(v[i])
    ensures Sorted(Sort(Mags(v), RealLe), RealLe)
    ensures forall x :: x in Sort(Mags(v), RealLe) ==> x >= 0.0
  {
    SortSorts(Mags(v), RealLe);
    if v != [] {
      MagsLength(v[1..]);
    }
    forall x | x in Mags(v)
      ensures x >= 0.0
    {
      var i :| 0 <= i < |Mags(v)| && Mags(v)[i] == x;
    }
  }

  /** The magnitude at the cut index once all magnitudes are sorted. */
  function Threshold(v: Vec, q: real): real
    requires v != [] && 0.0 < q
  {
    MagsLength(v);
    Sort(Mags(v), RealLe)[CutIndex(|v|, q)]
  }

  function Cut(v: Vec, threshold: real): (r: Vec)
    ensures |r| == |v|
    ensures forall i :: 0 <= i < |v| ==> r[i] == if Abs(v[i]) < threshold then 0.0 else v[i]
  {
    if v == [] then [] else [if Abs(v[0]) < threshold then 0.0 else v[0]] + Cut(v[1..], threshold)
  }

  /** `None` stands for the panic of indexing an empty vector. */
  function Trim(v: Vec, q: real): (r: Option<Vec>)
    ensures r.Some? ==> |r.value| == |v|
    ensures r.None? <==> v == [] && 0.0 < q < 1.0
  {
    if q <= 0.0 then Some(v)
    else if q >= 1.0 then Some(seq(|v|, _ => 0.0))
    else if v == [] then None
    else Some(Cut(v, Threshold(v, q)))
  }

  method TrimBottom(v: Vec, q: real) returns (r: Option<Vec>)
    ensures r == Trim(v, q)
  {
    if q <= 0.0 {
      return Some(v);
    }
    if q >= 1.0 {
      return Some(seq(|v|, _ => 0.0));
    }
    var mags := Sort(Mags(v), RealLe);
    MagsLength(v);
    if v == [] {
      return None;
    }
    return Some(Cut(v, mags[CutIndex(|v|, q)]));
  }

  /** How many entries are smaller in magnitude than `t`. */
  function Below(v: Vec, t: real): nat {
    if v == [] then 0 else (if Abs(v[0]) < t then 1 else 0) + Below(v[1..], t)
  }

  /** How many entries are at most `t` in magnitude. */
  function AtMost(v: Vec, t: real): nat {
    if v == [] then 0 else (if Abs(v[0]) <= t then 1 else 0) + AtMost(v[1..], t)
  }

  lemma {:induction false} InsertCounts(x: real, v: Vec, t: real)
    ensures Below(Insert(x, v, RealLe), t) == Below([x] + v, t)
    ensures AtMost(Insert(x, v, RealLe), t) == AtMost([x] + v, t)
  {
    assert ([x] + v)[1..] == v;
    if !(v == [] || x <= v[0]) {
      InsertCounts(x, v[1..], t);
      assert ([x] + v[1..])[1..] == v[1..];
      assert Insert(x, v, RealLe)[1..] == Insert(x, v[1..], RealLe);
    }
  }

  lemma {:induction false} SortCounts(v: Vec, t: real)
    ensures Below(Sort(Mags(v), RealLe), t) == Below(v, t)
    ensures AtMost(Sort(Mags(v), RealLe), t) == AtMost(v, t)
  {
    if v != [] {
      SortCounts(v[1..], t);
      assert Mags(v)[1..] == Mags(v[1..]);
      var rest := Sort(Mags(v[1..]), RealLe);
      InsertCounts(Abs(v[0]), rest, t);
      assert ([Abs(v[0])] + rest)[1..] == rest;
    }
  }

  lemma {:induction false} CountsSplit(v: Vec, w: Vec, t: real)
    ensures Below(v + w, t) == Below(v, t) + Below(w, t)
    ensures AtMost(v + w, t) == AtMost(v, t) + AtMost(w, t)
  {
    if v == [] {
      assert v + w == w;
    } else {
      assert (v + w)[1..] == v[1..] + w;
      CountsSplit(v[1..], w, t);
    }
  }

  lemma {:induction false} CountsBounds(v: Vec, t: real)
    ensures Below(v, t) <= |v| && Below(v, t) <= AtMost(v, t) <= |v|
    ensures (forall x :: x in v ==> Abs(x) >= t) ==> Below(v, t) == 0
    ensures (forall x :: x in v ==> Abs(x) <= t) ==> AtMost(v, t) == |v|
  {
    if v != [] {
      CountsBounds(v[1..], t);
      assert v[0] in v && forall x :: x in v[1..] ==> x in v;
    }
  }

  ghost predicate NonNegative(s: Vec) { forall i :: 0 <= i < |s| ==> s[i] >= 0.0 }

  lemma {:induction false} SortedBelow(s: Vec, c: nat)
    requires Sorted(s, RealLe) && NonNegative(s) && c < |s|
    ensures Below(s, s[c]) <= c
  {
    var low, high := s[..c], s[c..];
    assert s == low + high;
    CountsSplit(low, high, s[c]);
    CountsBounds(low, s[c]);
    forall x | x in high
      ensures Abs(x) >= s[c]
    {
      var i :| 0 <= i < |high| && high[i] == x;
      assert i > 0 ==> RealLe(s[c], s[c + i]);
    }
    CountsBounds(high, s[c]);
  }

  lemma {:induction false} SortedAtMost(s: Vec, c: nat)
    requires Sorted(s, RealLe) && NonNegative(s) && c < |s|
    ensures AtMost(s, s[c]) > c
  {
    var low, high := s[..c + 1], s[c + 1..];
    assert s == low + high;
    CountsSplit(low, high, s[c]);
    forall x | x in low
      ensures Abs(x) <= s[c]
    {
      var i :| 0 <= i < |low| && low[i] == x;
      assert i < c ==> RealLe(s[i], s[c]);
    }
    CountsBounds(low, s[c]);
  }

  /** The threshold is the order statistic of the cut index: no more entries lie
      strictly below it, and more than that many lie at or below it. */
  lemma {:induction false} ThresholdIsOrderStatistic(v: Vec, q: real)
    requires v != [] && 0.0 < q
    ensures Below(v, Threshold(v, q)) <= CutIndex(|v|, q) < AtMost(v, Threshold(v, q))
  {
    MagsLength(v);
    var s, c := Sort(Mags(v), RealLe), CutIndex(|v|, q);
    forall i | 0 <= i < |s|
      ensures s[i] >= 0.0
    {
      assert s[i] in s;
    }
    SortCounts(v, s[c]);
    SortedBelow(s, c);
    SortedAtMost(s, c);
  }

  lemma {:induction false} BelowIsZeroed(v: Vec, t: real)
    ensures Below(v, t) == |set i | 0 <= i < |v| && Abs(v[i]) < t|
  {
    var all := set i | 0 <= i < |v| && Abs(v[i]) < t;
    if v != [] {
      var n := |v| - 1;
      assert v == v[..n] + [v[n]];
      CountsSplit(v[..n], [v[n]], t);
      assert [v[n]][1..] == [];
      BelowIsZeroed(v[..n], t);
      var fewer := set i | 0 <= i < n && Abs(v[..n][i]) < t;
      assert all == if Abs(v[n]) < t then fewer + {n} else fewer;
    }
  }

  /** `trim_bottom` is a correct cut: it changes at most floor(q * n) entries,
      to zero, and each of those is strictly smaller than every entry it keeps. */
  lemma {:induction false} TrimIsCut(v: Vec, q: real)
    requires v != [] && 0.0 < q < 1.0
    ensures
      var r := Trim(v, q).value;
      && |set i | 0 <= i < |v| && r[i] != v[i]| <= (q * |v| as real).Floor
      && (forall i :: 0 <= i < |v| && r[i] != v[i] ==> r[i] == 0.0)
      && (forall i, j :: 0 <= i < |v| && 0 <= j < |v| && r[i] != v[i] && r[j] == v[j] && v[j] != 0.0 ==> Abs(v[i]) < Abs(v[j]))
  {
    var t := Threshold(v, q);
    var r := Trim(v, q).value;
    ThresholdIsOrderStatistic(v, q);
    BelowIsZeroed(v, t);
    var changed := set i | 0 <= i < |v| && r[i] != v[i];
    var below := set i | 0 <= i < |v| && Abs(v[i]) < t;
    assert changed <= below;
    SubsetCard(changed, below);
  }

  lemma {:induction false} SubsetCard(a: set<int>, b: set<int>)
    requires a <= b
    ensures |a| <= |b|
  {
    assert b == a + (b - a);
  }

  function Zeros(v: Vec): nat {
    if v == [] then 0 else (if v[0] == 0.0 then 1 else 0) + Zeros(v[1..])
  }

  lemma {:induction false} ZerosBelow(v: Vec, t: real)
    requires t > 0.0
    ensures Zeros(v) <= Below(v, t)
  {
    if v != [] {
      ZerosBelow(v[1..], t);
    }
  }

  /** A vector with more zeros than the cut would take is left as it is. */
  lemma {:induction false} TrimIdentity(v: Vec, q: real)
    requires v != [] && 0.0 < q < 1.0
    requires Zeros(v) > (q * |v| as real).Floor
    ensures Trim(v, q) == Some(v)
  {
    var t := Threshold(v, q);
    ThresholdIsOrderStatistic(v, q);
    if t > 0.0 {
      ZerosBelow(v, t);
    }
    assert Cut(v, t) == v;
  }
}
