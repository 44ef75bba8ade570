/** What a TIES merge promises. */
module TiesLaws {
  // It ignores the order of its inputs, commutes with scaling, and stays within
  // bounds after DARE.

  import opened Bits
  import opened Base
  import opened Sorting
  import opened Ties
  import opened SignElection

  // ---------- the order of the inputs does not matter ----------

  lemma {:induction false} SumsSplit(c: Vec, d: Vec)
    ensures PosMag(c + d) == PosMag(c) + PosMag(d) && NegMag(c + d) == NegMag(c) + NegMag(d)
    ensures PosCount(c + d) == PosCount(c) + PosCount(d) && NegCount(c + d) == NegCount(c) + NegCount(d)
  {
    if d == [] {
      assert c + d == c;
    } else {
      var n := |d| - 1;
      assert (c + d)[..|c + d| - 1] == c + d[..n];
      SumsSplit(c, d[..n]);
    }
  }

  /** A column of the trimmed vectors. */
  function TrimmedColumn(ds: seq<Vec>, q: real, ix: nat): Vec
    requires forall i :: 0 <= i < |ds| ==> ix < |ds[i]|
  {
    if ds == [] then [] else TrimmedColumn(ds[..|ds| - 1], q, ix) + [TrimmedOr(ds[|ds| - 1], q)[ix]]
  }

  lemma {:induction false} TrimmedColumnIs(ds: seq<Vec>, q: real, ix: nat)
    requires forall i :: 0 <= i < |ds| ==> ix < |ds[i]|
    ensures Column(TrimAll(ds, q), ix) == TrimmedColumn(ds, q, ix)
  {
    if ds != [] {
      TrimmedColumnIs(ds[..|ds| - 1], q, ix);
      assert TrimAll(ds, q)[..|ds| - 1] == TrimAll(ds[..|ds| - 1], q);
    }
  }

  lemma {:induction false} TrimmedColumnSplit(ds: seq<Vec>, es: seq<Vec>, q: real, ix: nat)
    requires forall i :: 0 <= i < |ds| ==> ix < |ds[i]|
    requires forall i :: 0 <= i < |es| ==> ix < |es[i]|
    ensures TrimmedColumn(ds + es, q, ix) == TrimmedColumn(ds, q, ix) + TrimmedColumn(es, q, ix)
  {
    if es == [] {
      assert ds + es == ds;
    } else {
      var n := |es| - 1;
      assert (ds + es)[..|ds + es| - 1] == ds + es[..n];
      TrimmedColumnSplit(ds, es[..n], q, ix);
    }
  }

  ghost predicate SameSums(c: Vec, d: Vec) {
    PosMag(c) == PosMag(d) && NegMag(c) == NegMag(d) && PosCount(c) == PosCount(d) && NegCount(c) == NegCount(d)
  }

  lemma {:induction false} PermutedColumn(ds: seq<Vec>, es: seq<Vec>, q: real, ix: nat)
    requires multiset(ds) == multiset(es)
    requires forall i :: 0 <= i < |ds| ==> ix < |ds[i]|
    requires forall i :: 0 <= i < |es| ==> ix < |es[i]|
    ensures SameSums(TrimmedColumn(ds, q, ix), TrimmedColumn(es, q, ix))
  {
    SameElements(ds, es);
    if ds != [] {
      var n := |ds| - 1;
      assert ds[n] in es;
      var j :| 0 <= j < |es| && es[j] == ds[n];
      Removed(ds, es, j);
      PermutedColumn(ds[..n], es[..j] + es[j + 1..], q, ix);
      PulledOut(es, j, q, ix);
      LastSums(TrimmedColumn(ds[..n], q, ix), TrimmedOr(ds[n], q)[ix]);
    }
  }

  /** Taking vector `j` out of the column and adding it at the end keeps the sums. */
  lemma {:induction false} PulledOut(es: seq<Vec>, j: nat, q: real, ix: nat)
    requires j < |es| && forall i :: 0 <= i < |es| ==> ix < |es[i]|
    ensures SameSums(TrimmedColumn(es, q, ix), TrimmedColumn(es[..j] + es[j + 1..], q, ix) + [TrimmedOr(es[j], q)[ix]])
  {
    var before, after, v := es[..j], es[j + 1..], TrimmedOr(es[j], q)[ix];
    var c, d := TrimmedColumn(before, q, ix), TrimmedColumn(after, q, ix);
    SplitAt(es, j, q, ix);
    TrimmedColumnSplit(before, after, q, ix);
    MiddleSums(c, v, d);
    LastSums(c + d, v);
  }

  lemma {:induction false} SplitAt(es: seq<Vec>, j: nat, q: real, ix: nat)
    requires j < |es| && forall i :: 0 <= i < |es| ==> ix < |es[i]|
    ensures TrimmedColumn(es, q, ix)
         == (TrimmedColumn(es[..j], q, ix) + [TrimmedOr(es[j], q)[ix]]) + TrimmedColumn(es[j + 1..], q, ix)
  {
    var upTo := es[..j + 1];
    assert es == upTo + es[j + 1..];
    TrimmedColumnSplit(upTo, es[j + 1..], q, ix);
    assert upTo[..j] == es[..j] && upTo[j] == es[j];
  }

  lemma {:induction false} Removed(vs: seq<Vec>, ws: seq<Vec>, j: nat)
    requires multiset(vs) == multiset(ws) && vs != [] && j < |ws| && ws[j] == vs[|vs| - 1]
    ensures multiset(vs[..|vs| - 1]) == multiset(ws[..j] + ws[j + 1..])
  {
    var before, after, n := ws[..j], ws[j + 1..], |vs| - 1;
    assert vs == vs[..n] + [vs[n]];
    assert multiset(vs[..n]) == multiset(vs) - multiset{vs[n]};
    assert ws == (before + [ws[j]]) + after;
    assert multiset(ws) == multiset(before + [ws[j]]) + multiset(after);
    assert multiset(before + after) == multiset(ws) - multiset{ws[j]};
  }

  lemma {:induction false} LastSums(c: Vec, v: real)
    ensures PosMag(c + [v]) == PosMag(c) + Plus(v) && NegMag(c + [v]) == NegMag(c) + Minus(v)
    ensures PosCount(c + [v]) == PosCount(c) + (if v > 0.0 then 1 else 0)
    ensures NegCount(c + [v]) == NegCount(c) + (if v < 0.0 then 1 else 0)
  {
    assert (c + [v])[..|c|] == c;
  }

  lemma {:induction false} MiddleSums(c: Vec, v: real, d: Vec)
    ensures PosMag((c + [v]) + d) == PosMag(c + d) + Plus(v) && NegMag((c + [v]) + d) == NegMag(c + d) + Minus(v)
    ensures PosCount((c + [v]) + d) == PosCount(c + d) + (if v > 0.0 then 1 else 0)
    ensures NegCount((c + [v]) + d) == NegCount(c + d) + (if v < 0.0 then 1 else 0)
  {
    SumsSplit(c + [v], d);
    SumsSplit(c, d);
    LastSums(c, v);
  }

  /** Permuting the input vectors changes neither the merged vector nor the error. */
  lemma {:induction false} TiesPermutationInvariant(ds: seq<Vec>, es: seq<Vec>, q: real, alpha: real)
    requires multiset(ds) == multiset(es)
    ensures Merged(ds, q, alpha) == Merged(es, q, alpha)
  {
    SameElements(ds, es);
    LengthsAgree(ds, es);
    LengthsAgree(es, ds);
    if ds != [] && SameLength(ds) {
      PermutedElections(ds, es, q, |ds[0]|);
    }
  }

  lemma {:induction false} PermutedElections(ds: seq<Vec>, es: seq<Vec>, q: real, n: nat)
    requires multiset(ds) == multiset(es)
    requires forall i :: 0 <= i < |ds| ==> n <= |ds[i]|
    requires forall i :: 0 <= i < |es| ==> n <= |es[i]|
    ensures Elections(TrimAll(ds, q), n) == Elections(TrimAll(es, q), n)
  {
    if n > 0 {
      PermutedElections(ds, es, q, n - 1);
      PermutedElect(ds, es, q, n - 1);
    }
  }

  lemma {:induction false} PermutedElect(ds: seq<Vec>, es: seq<Vec>, q: real, ix: nat)
    requires multiset(ds) == multiset(es)
    requires forall i :: 0 <= i < |ds| ==> ix < |ds[i]|
    requires forall i :: 0 <= i < |es| ==> ix < |es[i]|
    ensures Elect(Column(TrimAll(ds, q), ix)) == Elect(Column(TrimAll(es, q), ix))
  {
    PermutedColumn(ds, es, q, ix);
    TrimmedColumnIs(ds, q, ix);
    TrimmedColumnIs(es, q, ix);
  }

  lemma {:induction false} LengthsAgree(ds: seq<Vec>, es: seq<Vec>)
    requires |ds| == |es| && forall v :: v in ds <==> v in es
    ensures SameLength(ds) && ds != [] ==> SameLength(es) && |es[0]| == |ds[0]|
  {
    if SameLength(ds) && ds != [] {
      forall i | 0 <= i < |es|
        ensures |es[i]| == |ds[0]|
      {
        assert es[i] in ds;
      }
    }
  }

  // ---------- scaling ----------

  predicate AdditiveAt(f: real -> real, x: real, y: real) { f(x + y) == f(x) + f(y) }

  predicate KeepsSign(f: real -> real, x: real) { f(x) > 0.0 <==> x > 0.0 }

  /** What is used of multiplication by a positive constant. */
  ghost predicate Linear(f: real -> real) {
    && (forall x, y :: AdditiveAt(f, x, y))
    && (forall x :: KeepsSign(f, x))
  }

  function Mapped(f: real -> real, v: Vec): (r: Vec)
    ensures |r| == |v| && forall i :: 0 <= i < |v| ==> r[i] == f(v[i])
  {
    if v == [] then [] else [f(v[0])] + Mapped(f, v[1..])
  }

  function MappedAll(f: real -> real, ds: seq<Vec>): (r: seq<Vec>)
    ensures |r| == |ds| && forall i :: 0 <= i < |ds| ==> r[i] == Mapped(f, ds[i])
  {
    if ds == [] then [] else [Mapped(f, ds[0])] + MappedAll(f, ds[1..])
  }

  lemma {:induction false} LinearFacts(f: real -> real, x: real, y: real)
    requires Linear(f)
    ensures f(0.0) == 0.0 && f(-x) == -f(x)
    ensures f(x) <= f(y) <==> x <= y
    ensures Abs(f(x)) == f(Abs(x))
    ensures f(x) < 0.0 <==> x < 0.0
  {
    assert AdditiveAt(f, 0.0, 0.0) && AdditiveAt(f, x, -x) && AdditiveAt(f, y, x - y);
    assert y + (x - y) == x && x + -x == 0.0;
    assert KeepsSign(f, x) && KeepsSign(f, -x) && KeepsSign(f, x - y);
  }

  lemma {:induction false} MappedInsert(f: real -> real, x: real, v: Vec)
    requires Linear(f)
    ensures Insert(f(x), Mapped(f, v), RealLe) == Mapped(f, Insert(x, v, RealLe))
  {
    if v == [] {
      assert Mapped(f, [x]) == [f(x)];
    } else {
      LinearFacts(f, x, v[0]);
      assert Mapped(f, v)[1..] == Mapped(f, v[1..]);
      if !(x <= v[0]) {
        MappedInsert(f, x, v[1..]);
      }
    }
  }

  lemma {:induction false} MappedSort(f: real -> real, v: Vec)
    requires Linear(f)
    ensures Sort(Mags(Mapped(f, v)), RealLe) == Mapped(f, Sort(Mags(v), RealLe))
  {
    if v != [] {
      MappedSort(f, v[1..]);
      LinearFacts(f, v[0], 0.0);
      var w := Mapped(f, v);
      assert w[1..] == Mapped(f, v[1..]);
      assert Mags(w) == [Abs(w[0])] + Mags(w[1..]) && Mags(w)[1..] == Mags(w[1..]);
      assert Mags(v)[1..] == Mags(v[1..]);
      MappedInsert(f, Abs(v[0]), Sort(Mags(v[1..]), RealLe));
    }
  }

  lemma {:induction false} MappedCut(f: real -> real, v: Vec, t: real)
    requires Linear(f)
    ensures Cut(Mapped(f, v), f(t)) == Mapped(f, Cut(v, t))
  {
    if v != [] {
      MappedCut(f, v[1..], t);
      LinearFacts(f, v[0], 0.0);
      LinearFacts(f, t, Abs(v[0]));
      var kept := if Abs(v[0]) < t then 0.0 else v[0];
      assert Cut(v, t) == [kept] + Cut(v[1..], t);
      assert Mapped(f, v)[1..] == Mapped(f, v[1..]);
    }
  }

  lemma {:induction false} MappedTrim(f: real -> real, v: Vec, q: real)
    requires Linear(f)
    ensures TrimmedOr(Mapped(f, v), q) == Mapped(f, TrimmedOr(v, q))
  {
    LinearFacts(f, 0.0, 0.0);
    if q >= 1.0 {
      assert TrimmedOr(Mapped(f, v), q) == Mapped(f, TrimmedOr(v, q));
    } else if q > 0.0 && v != [] {
      MappedSort(f, v);
      MagsLength(v);
      MappedCut(f, v, Threshold(v, q));
    }
  }

  lemma {:induction false} MappedColumn(f: real -> real, ds: seq<Vec>, q: real, ix: nat)
    requires Linear(f) && forall i :: 0 <= i < |ds| ==> ix < |ds[i]|
    ensures TrimmedColumn(MappedAll(f, ds), q, ix) == Mapped(f, TrimmedColumn(ds, q, ix))
  {
    if ds != [] {
      var n := |ds| - 1;
      var es := MappedAll(f, ds);
      MappedColumn(f, ds[..n], q, ix);
      assert es[..n] == MappedAll(f, ds[..n]);
      MappedTrim(f, ds[n], q);
      MappedLast(f, TrimmedColumn(ds[..n], q, ix), TrimmedOr(ds[n], q)[ix]);
    }
  }

  lemma {:induction false} MappedLast(f: real -> real, c: Vec, v: real)
    ensures Mapped(f, c + [v]) == Mapped(f, c) + [f(v)]
  {
  }

  ghost predicate SumsMapped(f: real -> real, c: Vec) {
    && PosMag(Mapped(f, c)) == f(PosMag(c)) && NegMag(Mapped(f, c)) == f(NegMag(c))
    && PosCount(Mapped(f, c)) == PosCount(c) && NegCount(Mapped(f, c)) == NegCount(c)
  }

  lemma {:induction false} MappedSums(f: real -> real, c: Vec)
    requires Linear(f)
    ensures SumsMapped(f, c)
  {
    if c == [] {
      LinearFacts(f, 0.0, 0.0);
    } else {
      var n := |c| - 1;
      assert c == c[..n] + [c[n]];
      MappedSums(f, c[..n]);
      MappedSumsStep(f, c[..n], c[n]);
    }
  }

  lemma {:induction false} MappedSumsStep(f: real -> real, c: Vec, v: real)
    requires Linear(f) && SumsMapped(f, c)
    ensures SumsMapped(f, c + [v])
  {
    MappedLast(f, c, v);
    LastSums(Mapped(f, c), f(v));
    LastSums(c, v);
    MappedSign(f, v);
    assert AdditiveAt(f, PosMag(c), Plus(v)) && AdditiveAt(f, NegMag(c), Minus(v));
  }

  lemma {:induction false} MappedSign(f: real -> real, v: real)
    requires Linear(f)
    ensures Plus(f(v)) == f(Plus(v)) && Minus(f(v)) == f(Minus(v))
    ensures (f(v) > 0.0 <==> v > 0.0) && (f(v) < 0.0 <==> v < 0.0)
  {
    LinearFacts(f, v, 0.0);
    assert KeepsSign(f, v);
  }

  function MappedOne(f: real -> real, e: Election): Election { e.(sum := f(e.sum)) }

  function MappedElections(f: real -> real, es: seq<Election>): (r: seq<Election>)
    ensures |r| == |es|
  {
    if es == [] then [] else MappedElections(f, es[..|es| - 1]) + [MappedOne(f, es[|es| - 1])]
  }

  lemma {:induction false} MappedElection(f: real -> real, c: Vec)
    requires Linear(f)
    ensures Elect(Mapped(f, c)) == MappedOne(f, Elect(c))
  {
    MappedSums(f, c);
    LinearFacts(f, NegMag(c), PosMag(c));
  }

  function Times(c: real): real -> real { x => c * x }

  /** The election at one position, after trimming. */
  function ElectionAt(ds: seq<Vec>, q: real, ix: nat): Election
    requires forall i :: 0 <= i < |ds| ==> ix < |ds[i]|
  {
    Elect(Column(TrimAll(ds, q), ix))
  }

  lemma {:induction false} ElectOfMapped(f: real -> real, ds: seq<Vec>, q: real, ix: nat)
    requires Linear(f) && forall i :: 0 <= i < |ds| ==> ix < |ds[i]|
    ensures ElectionAt(MappedAll(f, ds), q, ix) == MappedOne(f, ElectionAt(ds, q, ix))
  {
    TrimmedColumnIs(ds, q, ix);
    TrimmedColumnIs(MappedAll(f, ds), q, ix);
    MappedColumn(f, ds, q, ix);
    MappedElection(f, TrimmedColumn(ds, q, ix));
  }

  lemma {:induction false} ElectionsOfMapped(f: real -> real, ds: seq<Vec>, q: real, n: nat)
    requires Linear(f) && forall i :: 0 <= i < |ds| ==> n <= |ds[i]|
    ensures Elections(TrimAll(MappedAll(f, ds), q), n) == MappedElections(f, Elections(TrimAll(ds, q), n))
  {
    if n > 0 {
      ElectionsOfMapped(f, ds, q, n - 1);
      ElectOfMapped(f, ds, q, n - 1);
      assert Elections(TrimAll(ds, q), n)[..n - 1] == Elections(TrimAll(ds, q), n - 1);
    }
  }

  lemma {:induction false} AveragesOfScaled(c: real, es: seq<Election>, alpha: real)
    ensures Averages(MappedElections(Times(c), es), alpha) == Mapped(Times(c), Averages(es, alpha))
  {
    if es != [] {
      var n := |es| - 1;
      AveragesOfScaled(c, es[..n], alpha);
      var ms, x := MappedElections(Times(c), es), Coordinate(es[n], alpha);
      assert ms[..n] == MappedElections(Times(c), es[..n]) && ms[n] == MappedOne(Times(c), es[n]);
      var y := Coordinate(ms[n], alpha);
      assert y == Times(c)(x);
      MappedLast(Times(c), Averages(es[..n], alpha), x);
      assert Averages(es, alpha) == Averages(es[..n], alpha) + [x];
      assert Averages(ms, alpha) == Averages(ms[..n], alpha) + [y];
    }
  }

  /** Scaling every input by c > 0 scales the merged vector by c. */
  lemma {:induction false} TiesScales(c: real, ds: seq<Vec>, q: real, alpha: real)
    requires c > 0.0
    ensures
      match Merged(ds, q, alpha)
      case Success(v) => Merged(MappedAll(Times(c), ds), q, alpha) == Success(Mapped(Times(c), v))
      case Failure(problem) => Merged(MappedAll(Times(c), ds), q, alpha) == Failure(problem)
  {
    MappedRefused(Times(c), ds, q);
    if Refused(ds, q).None? {
      ScaledSuccess(c, ds, q, alpha, |ds[0]|);
    }
  }

  lemma {:induction false} MappedRefused(f: real -> real, ds: seq<Vec>, q: real)
    ensures Refused(MappedAll(f, ds), q) == Refused(ds, q)
    ensures ds != [] ==> |MappedAll(f, ds)[0]| == |ds[0]|
  {
    var es := MappedAll(f, ds);
    assert |es| == |ds| && forall i :: 0 <= i < |ds| ==> |es[i]| == |ds[i]|;
  }

  lemma {:induction false} ScaledSuccess(c: real, ds: seq<Vec>, q: real, alpha: real, n: nat)
    requires c > 0.0 && forall i :: 0 <= i < |ds| ==> n <= |ds[i]|
    ensures Averages(Elections(TrimAll(MappedAll(Times(c), ds), q), n), alpha)
         == Mapped(Times(c), Averages(Elections(TrimAll(ds, q), n), alpha))
  {
    ElectionsOfMapped(Times(c), ds, q, n);
    AveragesOfScaled(c, Elections(TrimAll(ds, q), n), alpha);
  }

  // ---------- bounds ----------

  ghost predicate Within(c: Vec, bound: real) { forall i :: 0 <= i < |c| ==> Abs(c[i]) <= bound }

  /** `n` times `bound`. */
  function Repeated(bound: real, n: nat): real { if n == 0 then 0.0 else Repeated(bound, n - 1) + bound }

  lemma {:induction false} RepeatedIs(bound: real, n: nat)
    ensures Repeated(bound, n) == n as real * bound
  {
    if n > 0 {
      RepeatedIs(bound, n - 1);
    }
  }

  lemma {:induction false} SumsWithin(c: Vec, bound: real)
    requires bound >= 0.0 && Within(c, bound)
    ensures PosMag(c) <= Repeated(bound, PosCount(c)) && NegMag(c) <= Repeated(bound, NegCount(c))
  {
    if c != [] {
      var n := |c| - 1;
      SumsWithin(c[..n], bound);
      assert Abs(c[n]) <= bound;
    }
  }

  lemma {:induction false} MeanWithin(sum: real, n: nat, bound: real)
    requires 0.0 <= sum <= Repeated(bound, n) && 0.0 <= bound
    ensures 0.0 <= Mean(sum, n) <= bound && Mean(-sum, n) == -Mean(sum, n)
  {
    RepeatedIs(bound, n);
    if n > 0 {
      var d, m := n as real, sum / n as real;
      assert sum == m * d;
      assert m >= 0.0 && m <= bound;
      assert (-sum) / d == -(sum / d);
    }
  }

  lemma {:induction false} ElectedWithin(c: Vec, bound: real)
    requires bound >= 0.0 && Within(c, bound)
    ensures Abs(Mean(ElectedSum(c), ElectedCount(c))) <= bound
  {
    SumsWithin(c, bound);
    MeanWithin(PosMag(c), PosCount(c), bound);
    MeanWithin(NegMag(c), NegCount(c), bound);
  }

  function Max(x: real, y: real): real { if x < y then y else x }

  lemma {:induction false} DaredWithin(p: Prim, x: real, rate: real, k: real, seed: u64, i: nat, m: real)
    requires 0.0 <= k && Abs(x) <= m
    ensures Abs(DaredAt(p, x, rate, k, seed, i)) <= m * k
  {
  }

  lemma {:induction false} TrimWithin(v: Vec, q: real, i: nat)
    requires i < |v|
    ensures Abs(TrimmedOr(v, q)[i]) <= Abs(v[i])
  {
  }

  /** 1 / (1 - rate) times the larger magnitude. */
  function Gain(x: real, y: real, rate: real): real
    requires rate < 1.0
  {
    Max(Abs(x), Abs(y)) * Scale(rate)
  }

  /** A merge succeeded, and coordinate `ix` is within a gain times |alpha|. */
  predicate GainAt(r: Result<Vec, Problem>, n: nat, ix: nat, gain: real, alpha: real) {
    r.Success? && |r.value| == n && ix < n && Abs(r.value[ix]) <= gain * Abs(alpha)
  }

  /** Every coordinate of DARE-then-TIES on two vectors is at most
      |alpha| / (1 - rate) times the larger input magnitude at that position. */
  lemma {:induction false} DareTiesBounded(p: Prim, a: Vec, b: Vec, rate: real, seedA: u64, seedB: u64, q: real, alpha: real, ix: nat)
    requires 0.0 < rate < 1.0 && |a| == |b| && ix < |a| && 0.0 <= q <= 1.0
    ensures
      var r := Merged([Dared(p, a, rate, seedA), Dared(p, b, rate, seedB)], q, alpha);
      GainAt(r, |a|, ix, Gain(a[ix], b[ix], rate), alpha)
  {
    ScalePositive(rate);
    PairOfTrimmed(p, a, b, rate, Scale(rate), seedA, seedB, q, alpha, ix, Gain(a[ix], b[ix], rate));
  }

  lemma {:induction false} ScalePositive(rate: real)
    requires 0.0 < rate < 1.0
    ensures Scale(rate) >= 0.0
  {
  }

  lemma {:induction false} PairOfTrimmed(p: Prim, a: Vec, b: Vec, rate: real, k: real, seedA: u64, seedB: u64, q: real, alpha: real,
                                         ix: nat, bound: real)
    requires 0.0 <= k && |a| == |b| && ix < |a| && 0.0 <= q <= 1.0
    requires bound == Max(Abs(a[ix]), Abs(b[ix])) * k
    ensures
      var r := Merged([DaredBy(p, a, rate, k, seedA), DaredBy(p, b, rate, k, seedB)], q, alpha);
      GainAt(r, |a|, ix, bound, alpha)
  {
    var m := Max(Abs(a[ix]), Abs(b[ix]));
    TrimmedWithin(p, a, rate, k, seedA, q, ix, m, bound);
    TrimmedWithin(p, b, rate, k, seedB, q, ix, m, bound);
    PairBounded(DaredBy(p, a, rate, k, seedA), DaredBy(p, b, rate, k, seedB), q, alpha, ix, bound);
  }

  lemma {:induction false} TrimmedWithin(p: Prim, a: Vec, rate: real, k: real, seed: u64, q: real, ix: nat, m: real, bound: real)
    requires 0.0 <= k && ix < |a| && Abs(a[ix]) <= m && bound == m * k
    ensures Abs(TrimmedOr(DaredBy(p, a, rate, k, seed), q)[ix]) <= bound
  {
    DaredWithin(p, a[ix], rate, k, seed, ix, m);
    DaredEntry(p, a, rate, k, seed, ix);
    TrimWithin(DaredBy(p, a, rate, k, seed), q, ix);
  }

  lemma {:induction false} AverageAt(ts: seq<Vec>, n: nat, alpha: real, ix: nat)
    requires ix < n && forall i :: 0 <= i < |ts| ==> n <= |ts[i]|
    ensures Averages(Elections(ts, n), alpha)[ix] == Coordinate(Elect(Column(ts, ix)), alpha)
  {
    assert Elections(ts, n)[..n - 1] == Elections(ts, n - 1);
    if ix < n - 1 {
      AverageAt(ts, n - 1, alpha, ix);
    }
  }

  lemma {:induction false} CoordinateWithin(c: Vec, bound: real, alpha: real)
    requires bound >= 0.0 && Within(c, bound)
    ensures Abs(Coordinate(Elect(c), alpha)) <= bound * Abs(alpha)
  {
    ElectedWithin(c, bound);
    ProductWithin(Mean(ElectedSum(c), ElectedCount(c)), bound, alpha);
  }

  lemma {:induction false} ProductWithin(x: real, bound: real, k: real)
    requires Abs(x) <= bound
    ensures Abs(x * k) <= bound * Abs(k)
  {
  }

  lemma {:induction false} AverageBounded(ts: seq<Vec>, n: nat, alpha: real, ix: nat, bound: real)
    requires ix < n && forall i :: 0 <= i < |ts| ==> n <= |ts[i]|
    requires bound >= 0.0 && Within(Column(ts, ix), bound)
    ensures Abs(Averages(Elections(ts, n), alpha)[ix]) <= bound * Abs(alpha)
  {
    AverageAt(ts, n, alpha, ix);
    CoordinateWithin(Column(ts, ix), bound, alpha);
  }

  lemma {:induction false} PairBounded(v: Vec, w: Vec, q: real, alpha: real, ix: nat, bound: real)
    requires |v| == |w| && ix < |v| && 0.0 <= q <= 1.0 && 0.0 <= bound
    requires Abs(TrimmedOr(v, q)[ix]) <= bound && Abs(TrimmedOr(w, q)[ix]) <= bound
    ensures
      var r := Merged([v, w], q, alpha);
      GainAt(r, |v|, ix, bound, alpha)
  {
    var t := TrimAll([v, w], q);
    PairColumn(v, w, q, ix);
    AverageBounded(t, |v|, alpha, ix, bound);
    PairMerged(v, w, q, alpha);
  }

  lemma {:induction false} PairMerged(v: Vec, w: Vec, q: real, alpha: real)
    requires |v| == |w| && v != [] && 0.0 <= q <= 1.0
    ensures Merged([v, w], q, alpha) == Success(Averages(Elections(TrimAll([v, w], q), |v|), alpha))
  {
  }

  lemma {:induction false} PairColumn(v: Vec, w: Vec, q: real, ix: nat)
    requires |v| == |w| && ix < |v|
    ensures Column(TrimAll([v, w], q), ix) == [TrimmedOr(v, q)[ix], TrimmedOr(w, q)[ix]]
  {
    var t := TrimAll([v, w], q);
    assert t == [t[0], t[1]];
    TwoColumn(t[0], t[1], ix);
  }

  lemma {:induction false} TwoColumn(v: Vec, w: Vec, ix: nat)
    requires ix < |v| && ix < |w|
    ensures Column([v, w], ix) == [v[ix], w[ix]]
  {
    assert [v, w][..1] == [v];
    assert Column([v], ix) == [] + [v[ix]];
  }
}
