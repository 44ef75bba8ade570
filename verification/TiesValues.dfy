/** What DARE and TIES compute, position by position. */
module TiesValues {
  // Each value is given by the draws, by counting, and by plain sums, without the
  // functions that the loops are proved against.

  import opened Bits
  import opened Base
  import opened Ties
  import opened SignElection
  import opened TiesLaws
  import opened ModelMerge

  // ---------- DARE ----------

  /** The draw of position `i`: the generator's state after `i + 2` steps from the seed. */
  function Draw(p: Prim, seed: int, i: nat): real {
    p.fraction((seed + (i + 2) * 0x9E37_79B9_7F4A_7C15) % 0x1_0000_0000_0000_0000)
  }

  lemma {:induction false} StateIs(seed: u64, n: nat)
    ensures StateAfter(seed, n) == (seed + (n + 1) * 0x9E37_79B9_7F4A_7C15) % 0x1_0000_0000_0000_0000
  {
    if n == 0 {
      assert seed + GAMMA == seed + 1 * 0x9E37_79B9_7F4A_7C15;
    } else {
      StateIs(seed, n - 1);
      WrapSum(seed + n * 0x9E37_79B9_7F4A_7C15, GAMMA);
      assert seed + n * 0x9E37_79B9_7F4A_7C15 + GAMMA == seed + (n + 1) * 0x9E37_79B9_7F4A_7C15;
    }
  }

  lemma {:induction false} WrapSum(x: int, y: int)
    ensures Wrap(Wrap(x) + y) == Wrap(x + y)
  {
    var m := 0x1_0000_0000_0000_0000;
    assert x == x / m * m + x % m;
    Modulo(x % m + y, x / m);
  }

  lemma {:induction false} Modulo(x: int, k: int)
    ensures (x + k * 0x1_0000_0000_0000_0000) % 0x1_0000_0000_0000_0000 == x % 0x1_0000_0000_0000_0000
  {
  }

  /** A weight below the rate's draw is dropped; the others grow by 1 / (1 - rate). */
  function Kept(p: Prim, x: real, rate: real, seed: int, i: nat): real
    requires rate < 1.0
  {
    if Draw(p, seed, i) < rate then 0.0 else x / (1.0 - rate)
  }

  lemma {:induction false} Quotient(x: real, d: real)
    requires d != 0.0
    ensures x * (1.0 / d) == x / d
  {
  }

  lemma {:induction false} DareValue(p: Prim, v: Vec, rate: real, seed: u64, i: nat)
    requires 0.0 < rate < 1.0 && i < |v|
    ensures Dared(p, v, rate, seed)[i] == Kept(p, v[i], rate, seed, i)
  {
    DaredEntry(p, v, rate, Scale(rate), seed, i);
    StateIs(seed, i + 1);
    Quotient(v[i], 1.0 - rate);
  }

  // ---------- trimming ----------

  /** How many entries are no larger in magnitude than the `i`-th, itself included. */
  ghost function NoLarger(v: Vec, i: nat): nat
    requires i < |v|
  {
    |set j | 0 <= j < |v| && Abs(v[j]) <= Abs(v[i])|
  }

  lemma {:induction false} AtMostIs(v: Vec, t: real)
    ensures AtMost(v, t) == |set i | 0 <= i < |v| && Abs(v[i]) <= t|
  {
    var all := set i | 0 <= i < |v| && Abs(v[i]) <= t;
    if v != [] {
      var n := |v| - 1;
      assert v == v[..n] + [v[n]];
      CountsSplit(v[..n], [v[n]], t);
      assert [v[n]][1..] == [];
      AtMostIs(v[..n], t);
      var fewer := set i | 0 <= i < n && Abs(v[..n][i]) <= t;
      assert all == if Abs(v[n]) <= t then fewer + {n} else fewer;
    }
  }

  lemma {:induction false} AtMostGrows(v: Vec, s: real, t: real)
    ensures s <= t ==> AtMost(v, s) <= AtMost(v, t)
    ensures s < t ==> AtMost(v, s) <= Below(v, t)
  {
    if v != [] {
      AtMostGrows(v[1..], s, t);
    }
  }

  lemma {:induction false} CutIndexIs(n: nat, q: real)
    requires n > 0 && 0.0 < q < 1.0
    ensures CutIndex(n, q) == (q * n as real).Floor
  {
    assert q * n as real < n as real;
  }

  /** An entry is zeroed exactly if the entries no larger than it are at most
      floor(q n) in number. */
  lemma {:induction false} TrimValue(v: Vec, q: real, i: nat)
    requires i < |v|
    ensures Trim(v, q).Some?
    ensures Trim(v, q).value[i] ==
      if q <= 0.0 then v[i]
      else if q >= 1.0 || NoLarger(v, i) <= (q * |v| as real).Floor then 0.0
      else v[i]
  {
    if 0.0 < q < 1.0 {
      CutIndexIs(|v|, q);
      CutValue(v, q, i);
    }
  }

  lemma {:induction false} CutValue(v: Vec, q: real, i: nat)
    requires 0.0 < q < 1.0 && i < |v|
    ensures Trim(v, q).value[i] == if NoLarger(v, i) <= CutIndex(|v|, q) then 0.0 else v[i]
  {
    hide CutIndex;
    ThresholdIsOrderStatistic(v, q);
    CutEntry(v, Threshold(v, q), i, CutIndex(|v|, q));
  }

  lemma {:induction false} CutEntry(v: Vec, t: real, i: nat, cut: nat)
    requires i < |v| && Below(v, t) <= cut < AtMost(v, t)
    ensures Abs(v[i]) < t <==> NoLarger(v, i) <= cut
  {
    AtMostIs(v, Abs(v[i]));
    AtMostGrows(v, Abs(v[i]), t);
    AtMostGrows(v, t, Abs(v[i]));
  }

  // ---------- sign election and mean ----------

  ghost predicate TrimmedAll(ds: seq<Vec>, q: real, ts: seq<Vec>) {
    |ts| == |ds| && forall i :: 0 <= i < |ds| ==> Trim(ds[i], q) == Some(ts[i])
  }

  predicate Tall(ts: seq<Vec>, ix: nat) { forall i :: 0 <= i < |ts| ==> ix < |ts[i]| }

  function Total(ts: seq<Vec>, ix: nat): real
    requires Tall(ts, ix)
  {
    if ts == [] then 0.0 else Total(ts[..|ts| - 1], ix) + ts[|ts| - 1][ix]
  }

  /** The sum of the values of one sign. */
  function SignTotal(ts: seq<Vec>, ix: nat, plus: bool): real
    requires Tall(ts, ix)
  {
    if ts == [] then 0.0
    else
      var x := ts[|ts| - 1][ix];
      SignTotal(ts[..|ts| - 1], ix, plus) + (if (plus && x > 0.0) || (!plus && x < 0.0) then x else 0.0)
  }

  /** How many of them there are. */
  ghost function SignCount(ts: seq<Vec>, ix: nat, plus: bool): nat
    requires Tall(ts, ix)
  {
    |set i | 0 <= i < |ts| && ((plus && ts[i][ix] > 0.0) || (!plus && ts[i][ix] < 0.0))|
  }

  lemma {:induction false} ColumnSums(ts: seq<Vec>, ix: nat)
    requires Tall(ts, ix)
    ensures
      var c := Column(ts, ix);
      && Total(ts, ix) == PosMag(c) - NegMag(c)
      && SignTotal(ts, ix, true) == PosMag(c) && SignTotal(ts, ix, false) == -NegMag(c)
  {
    if ts != [] {
      var n := |ts| - 1;
      ColumnSums(ts[..n], ix);
      ColumnStep(ts, ix, n);
      assert ts[..n + 1] == ts;
    }
  }

  lemma {:induction false} ColumnCounts(ts: seq<Vec>, ix: nat)
    requires Tall(ts, ix)
    ensures SignCount(ts, ix, true) == PosCount(Column(ts, ix)) && SignCount(ts, ix, false) == NegCount(Column(ts, ix))
  {
    if ts != [] {
      var n := |ts| - 1;
      ColumnCounts(ts[..n], ix);
      ColumnStep(ts, ix, n);
      assert ts[..n + 1] == ts;
      CountStep(ts, ix, true);
      CountStep(ts, ix, false);
    }
  }

  lemma {:induction false} CountStep(ts: seq<Vec>, ix: nat, plus: bool)
    requires Tall(ts, ix) && ts != []
    ensures
      var n, x := |ts| - 1, ts[|ts| - 1][ix];
      SignCount(ts, ix, plus) == SignCount(ts[..n], ix, plus) + if (plus && x > 0.0) || (!plus && x < 0.0) then 1 else 0
  {
    var n, x := |ts| - 1, ts[|ts| - 1][ix];
    var all := set i | 0 <= i < |ts| && ((plus && ts[i][ix] > 0.0) || (!plus && ts[i][ix] < 0.0));
    var fewer := set i | 0 <= i < n && ((plus && ts[..n][i][ix] > 0.0) || (!plus && ts[..n][i][ix] < 0.0));
    assert all == if (plus && x > 0.0) || (!plus && x < 0.0) then fewer + {n} else fewer;
  }

  /** The sign of the plain sum wins, plus if it is zero: the value times the number
      of entries of that sign is alpha times their sum, and zero if there are none. */
  ghost predicate SignedMean(ts: seq<Vec>, ix: nat, alpha: real, x: real)
    requires Tall(ts, ix)
  {
    var plus := Total(ts, ix) >= 0.0;
    MeanOf(plus, SignTotal(ts, ix, plus), SignCount(ts, ix, plus), alpha, x)
  }

  predicate MeanOf(plus: bool, sum: real, n: nat, alpha: real, x: real) {
    && x * n as real == alpha * sum
    && (n == 0 ==> plus && x == 0.0)
    && (alpha > 0.0 ==> (x >= 0.0 <==> plus))
  }

  lemma {:induction false} MeanTimes(sum: real, n: nat, alpha: real)
    requires n > 0
    ensures (Mean(sum, n) * alpha) * n as real == alpha * sum
    ensures alpha > 0.0 ==> (Mean(sum, n) * alpha >= 0.0 <==> sum >= 0.0)
  {
    var mean, k := Mean(sum, n), n as real;
    assert mean * k == sum;
    assert (mean * alpha) * k == alpha * (mean * k);
    assert k > 0.0;
    assert mean >= 0.0 <==> sum >= 0.0;
    if alpha > 0.0 {
      assert mean >= 0.0 ==> mean * alpha >= 0.0;
      assert mean < 0.0 ==> mean * alpha < 0.0;
    }
  }

  lemma {:induction false} SumsNeedEntries(c: Vec)
    ensures PosCount(c) == 0 ==> PosMag(c) == 0.0
    ensures NegCount(c) == 0 ==> NegMag(c) == 0.0
  {
    if c != [] {
      SumsNeedEntries(c[..|c| - 1]);
    }
  }

  lemma {:induction false} MeanIsSigned(plus: bool, sum: real, n: nat, alpha: real)
    requires n == 0 ==> sum == 0.0
    requires plus <==> sum >= 0.0
    ensures MeanOf(plus, sum, n, alpha, Mean(sum, n) * alpha)
  {
    if n > 0 {
      MeanTimes(sum, n, alpha);
    }
  }

  /** The sign elected is that of the plain sum. */
  lemma {:induction false} ElectedIs(ts: seq<Vec>, ix: nat)
    requires Tall(ts, ix)
    ensures
      var plus, e := Total(ts, ix) >= 0.0, Elect(Column(ts, ix));
      && e.sum == SignTotal(ts, ix, plus) && e.count == SignCount(ts, ix, plus)
      && (plus <==> e.sum >= 0.0) && (e.count == 0 ==> e.sum == 0.0)
  {
    var c := Column(ts, ix);
    ColumnSums(ts, ix);
    ColumnCounts(ts, ix);
    SumsNeedEntries(c);
  }

  lemma {:induction false} CoordinateSigned(ts: seq<Vec>, ix: nat, alpha: real)
    requires Tall(ts, ix)
    ensures SignedMean(ts, ix, alpha, Coordinate(Elect(Column(ts, ix)), alpha))
  {
    var e := Elect(Column(ts, ix));
    ElectedIs(ts, ix);
    MeanIsSigned(Total(ts, ix) >= 0.0, e.sum, e.count, alpha);
    assert Coordinate(e, alpha) == Mean(e.sum, e.count) * alpha;
  }

  /** What `ties_merge` returns, at every position. */
  lemma {:induction false} TiesValue(ds: seq<Vec>, q: real, alpha: real, ts: seq<Vec>, ix: nat)
    requires Merged(ds, q, alpha).Success? && TrimmedAll(ds, q, ts) && ix < |ds[0]|
    ensures |Merged(ds, q, alpha).value| == |ds[0]| && Tall(ts, ix)
    ensures SignedMean(ts, ix, alpha, Merged(ds, q, alpha).value[ix])
  {
    assert SameLength(ds);
    assert ts == TrimAll(ds, q) by {
      forall i | 0 <= i < |ds|
        ensures ts[i] == TrimAll(ds, q)[i]
      {
        assert Trim(ds[i], q) == Some(ts[i]);
      }
    }
    AverageAt(ts, |ds[0]|, alpha, ix);
    CoordinateSigned(ts, ix, alpha);
  }

  // ---------- two vectors ----------

  /** Equal signs give the mean, a zero leaves the other, opposite signs give the
      larger magnitude, and a tie gives plus. */
  function PairMean(x: real, y: real): real {
    if x == 0.0 then y
    else if y == 0.0 then x
    else if (x > 0.0) == (y > 0.0) then (x + y) / 2.0
    else if Abs(x) > Abs(y) then x
    else if Abs(y) > Abs(x) then y
    else Abs(x)
  }

  lemma {:induction false} PairSums(x: real, y: real)
    ensures PosMag([x, y]) == Plus(x) + Plus(y) && NegMag([x, y]) == Minus(x) + Minus(y)
    ensures PosCount([x, y]) == (if x > 0.0 then 1 else 0) + (if y > 0.0 then 1 else 0)
    ensures NegCount([x, y]) == (if x < 0.0 then 1 else 0) + (if y < 0.0 then 1 else 0)
  {
    var one, two := [x], [x, y];
    assert two[..1] == one && one[..0] == [] && two[1] == y && one[0] == x;
    assert PosMag(one) == PosMag([]) + Plus(x) && NegMag(one) == NegMag([]) + Minus(x);
    assert PosCount(one) == PosCount([]) + (if x > 0.0 then 1 else 0);
    assert NegCount(one) == NegCount([]) + (if x < 0.0 then 1 else 0);
  }

  lemma {:induction false} PairElected(x: real, y: real, alpha: real)
    ensures Coordinate(Elect([x, y]), alpha) == alpha * PairMean(x, y)
  {
    PairSums(x, y);
    assert Mean(ElectedSum([x, y]), ElectedCount([x, y])) == PairMean(x, y);
  }

  /** A vector after DARE. */
  function Thinned(p: Prim, v: Vec, rate: real, seed: int): Vec
    requires rate < 1.0
  {
    seq(|v|, i requires 0 <= i < |v| => Kept(p, v[i], rate, seed, i))
  }

  /** A weight after DARE and after a fifth has been trimmed. */
  ghost function Weight(p: Prim, v: Vec, rate: real, seed: int, i: nat): real
    requires rate < 1.0 && i < |v|
  {
    if NoLarger(Thinned(p, v, rate, seed), i) <= |v| / 5 then 0.0 else Kept(p, v[i], rate, seed, i)
  }

  lemma {:induction false} FifthIs(n: nat)
    ensures (0.2 * n as real).Floor == n / 5
  {
    assert 0.2 * n as real == n as real / 5.0;
    assert (n / 5) as real <= n as real / 5.0 < (n / 5 + 1) as real;
  }

  lemma {:induction false} WeightIs(p: Prim, v: Vec, rate: real, seed: u64, i: nat)
    requires 0.0 < rate < 1.0 && i < |v|
    ensures TrimmedOr(Dared(p, v, rate, seed), KEEP_TOP)[i] == Weight(p, v, rate, seed, i)
  {
    var dared := Dared(p, v, rate, seed);
    forall j | 0 <= j < |v|
      ensures dared[j] == Kept(p, v[j], rate, seed, j)
    {
      DareValue(p, v, rate, seed, j);
    }
    assert dared == Thinned(p, v, rate, seed);
    TrimValue(dared, KEEP_TOP, i);
    FifthIs(|v|);
  }

  ghost function PairWeight(p: Prim, va: Vec, vb: Vec, seedA: int, seedB: int, q: Params, i: nat): real
    requires q.rate < 1.0 && i < |va| && i < |vb|
  {
    q.alpha * PairMean(Weight(p, va, q.rate, seedA, i), Weight(p, vb, q.rate, seedB, i))
  }

  /** What a merge of two vectors is at every position. */
  ghost predicate MergedPair(p: Prim, va: Vec, vb: Vec, seedA: int, seedB: int, q: Params, r: Vec)
    requires q.rate < 1.0
  {
    |r| == |va| == |vb| && forall i :: 0 <= i < |r| ==> r[i] == PairWeight(p, va, vb, seedA, seedB, q, i)
  }

  lemma {:induction false} VecMergeValue(p: Prim, va: Vec, vb: Vec, seedA: u64, seedB: u64, q: Params)
    requires VecMerge(p, va, vb, seedA, seedB, q).Success?
    ensures q.rate < 1.0 && MergedPair(p, va, vb, seedA, seedB, q, VecMerge(p, va, vb, seedA, seedB, q).value)
  {
    VecMergeIff(p, va, vb, seedA, seedB, q);
    var r := VecMerge(p, va, vb, seedA, seedB, q).value;
    forall i | 0 <= i < |r|
      ensures r[i] == PairWeight(p, va, vb, seedA, seedB, q, i)
    {
      PairAt(p, va, vb, seedA, seedB, q, i);
    }
  }

  lemma {:induction false} PairAt(p: Prim, va: Vec, vb: Vec, seedA: u64, seedB: u64, q: Params, i: nat)
    requires 0.0 < q.rate < 1.0 && |va| == |vb| && i < |va| && VecMerge(p, va, vb, seedA, seedB, q).Success?
    ensures |VecMerge(p, va, vb, seedA, seedB, q).value| == |va|
    ensures VecMerge(p, va, vb, seedA, seedB, q).value[i] == PairWeight(p, va, vb, seedA, seedB, q, i)
  {
    hide PairMean, Weight, TrimmedOr, Dared;
    var v, w := Dared(p, va, q.rate, seedA), Dared(p, vb, q.rate, seedB);
    TrimmedPair(v, w, KEEP_TOP, q.alpha, i);
    MergedOfPair(p, va, vb, seedA, seedB, q);
    WeightIs(p, va, q.rate, seedA, i);
    WeightIs(p, vb, q.rate, seedB, i);
  }

  lemma {:induction false} MergedOfPair(p: Prim, va: Vec, vb: Vec, seedA: u64, seedB: u64, q: Params)
    requires 0.0 < q.rate < 1.0 && VecMerge(p, va, vb, seedA, seedB, q).Success?
    ensures Merged([Dared(p, va, q.rate, seedA), Dared(p, vb, q.rate, seedB)], KEEP_TOP, q.alpha)
         == Success(VecMerge(p, va, vb, seedA, seedB, q).value)
  {
    hide Merged, Dared;
  }

  lemma {:induction false} TrimmedPair(v: Vec, w: Vec, q: real, alpha: real, i: nat)
    requires |v| == |w| && i < |v| && 0.0 <= q <= 1.0
    ensures Merged([v, w], q, alpha).Success? && |Merged([v, w], q, alpha).value| == |v|
    ensures Merged([v, w], q, alpha).value[i] == alpha * PairMean(TrimmedOr(v, q)[i], TrimmedOr(w, q)[i])
  {
    hide PairMean, Coordinate;
    PairMerged(v, w, q, alpha);
    PairColumn(v, w, q, i);
    AverageAt(TrimAll([v, w], q), |v|, alpha, i);
    PairElected(TrimmedOr(v, q)[i], TrimmedOr(w, q)[i], alpha);
  }

  lemma {:induction false} WeightKept(p: Prim, v: Vec, rate: real, seed: int, i: nat)
    requires rate < 1.0 && i < |v| && Weight(p, v, rate, seed, i) != 0.0
    ensures Weight(p, v, rate, seed, i) == v[i] / (1.0 - rate)
  {
  }

  /** Where one side's weight is zero, dropped or trimmed, the other side's is taken:
      scaled by alpha / (1 - rate) if DARE and the trim keep it. */
  lemma {:induction false} OneSided(p: Prim, va: Vec, vb: Vec, seedA: int, seedB: int, q: Params, r: Vec, i: nat)
    requires 0.0 < q.rate < 1.0 && MergedPair(p, va, vb, seedA, seedB, q, r) && i < |r|
    ensures Weight(p, va, q.rate, seedA, i) == 0.0 && Weight(p, vb, q.rate, seedB, i) != 0.0 ==>
      r[i] == q.alpha / (1.0 - q.rate) * vb[i]
    ensures Weight(p, vb, q.rate, seedB, i) == 0.0 && Weight(p, va, q.rate, seedA, i) != 0.0 ==>
      r[i] == q.alpha / (1.0 - q.rate) * va[i]
  {
    hide Weight, PairMean;
    var x, y := Weight(p, va, q.rate, seedA, i), Weight(p, vb, q.rate, seedB, i);
    if x == 0.0 && y != 0.0 {
      WeightKept(p, vb, q.rate, seedB, i);
      OneKept(y, q.alpha, 1.0 - q.rate, vb[i]);
    }
    if y == 0.0 && x != 0.0 {
      WeightKept(p, va, q.rate, seedA, i);
      OneKept(x, q.alpha, 1.0 - q.rate, va[i]);
    }
  }

  lemma {:induction false} OneKept(x: real, alpha: real, d: real, v: real)
    requires d != 0.0 && x == v / d
    ensures alpha * PairMean(x, 0.0) == alpha / d * v && alpha * PairMean(0.0, x) == alpha / d * v
  {
    Products(alpha, d, v);
  }

  lemma {:induction false} Products(a: real, d: real, x: real)
    requires d != 0.0
    ensures a * (x / d) == a / d * x
  {
    assert x / d * d == x && a / d * d == a;
    assert (a * (x / d)) * d == a * x && (a / d * x) * d == a * x;
  }
}
