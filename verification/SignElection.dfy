/** TIES: trim every vector, elect a sign for each position by the larger summed
    magnitude, and average the values that agree with it. */
module SignElection {
  import opened Base
  import opened Ties

  predicate SameLength(ds: seq<Vec>) { forall i :: 0 <= i < |ds| ==> |ds[i]| == |ds[0]| }

  function Column(vs: seq<Vec>, ix: nat): Vec
    requires forall i :: 0 <= i < |vs| ==> ix < |vs[i]|
  {
    if vs == [] then [] else Column(vs[..|vs| - 1], ix) + [vs[|vs| - 1][ix]]
  }

  function Plus(v: real): real { if v > 0.0 then v else 0.0 }
  function Minus(v: real): real { if v < 0.0 then -v else 0.0 }

  /** Sum of the positive values. */
  function PosMag(c: Vec): (r: real)
    ensures r >= 0.0
  {
    if c == [] then 0.0 else PosMag(c[..|c| - 1]) + Plus(c[|c| - 1])
  }

  /** Sum of the magnitudes of the negative values. */
  function NegMag(c: Vec): (r: real)
    ensures r >= 0.0
  {
    if c == [] then 0.0 else NegMag(c[..|c| - 1]) + Minus(c[|c| - 1])
  }

  function PosCount(c: Vec): nat {
    if c == [] then 0 else PosCount(c[..|c| - 1]) + (if c[|c| - 1] > 0.0 then 1 else 0)
  }

  function NegCount(c: Vec): nat {
    if c == [] then 0 else NegCount(c[..|c| - 1]) + (if c[|c| - 1] < 0.0 then 1 else 0)
  }

  function Mean(sum: real, n: nat): real { if n == 0 then 0.0 else sum / n as real }

  /** The sign with the larger summed magnitude wins, and ties go to plus:
      the sum of the values of that sign, and how many there are. */
  function ElectedSum(c: Vec): real { if PosMag(c) >= NegMag(c) then PosMag(c) else -NegMag(c) }

  function ElectedCount(c: Vec): nat { if PosMag(c) >= NegMag(c) then PosCount(c) else NegCount(c) }

  datatype Election = Election(sum: real, count: nat)

  function Elect(c: Vec): Election { Election(ElectedSum(c), ElectedCount(c)) }

  /** The merged value at one position: the mean of the elected values, scaled. */
  function Coordinate(e: Election, alpha: real): real { Mean(e.sum, e.count) * alpha }

  function TrimmedOr(v: Vec, q: real): (r: Vec)
    ensures |r| == |v|
  {
    match Trim(v, q)
    case Some(r) => r
    case None => v
  }

  function TrimAll(ds: seq<Vec>, q: real): (r: seq<Vec>)
    ensures |r| == |ds| && forall i :: 0 <= i < |ds| ==> r[i] == TrimmedOr(ds[i], q)
  {
    if ds == [] then [] else TrimAll(ds[..|ds| - 1], q) + [TrimmedOr(ds[|ds| - 1], q)]
  }

  /** The elections at the first `n` positions. */
  function Elections(ts: seq<Vec>, n: nat): (r: seq<Election>)
    requires forall i :: 0 <= i < |ts| ==> n <= |ts[i]|
    ensures |r| == n
  {
    if n == 0 then [] else Elections(ts, n - 1) + [Elect(Column(ts, n - 1))]
  }

  function Averages(es: seq<Election>, alpha: real): (r: Vec)
    ensures |r| == |es|
  {
    if es == [] then [] else Averages(es[..|es| - 1], alpha) + [Coordinate(es[|es| - 1], alpha)]
  }

  /** What is refused before any arithmetic happens. */
  function Refused(ds: seq<Vec>, q: real): Option<Problem> {
    if ds == [] then Some(NoDeltas)
    else if !SameLength(ds) then Some(LengthMismatch)
    else if !(0.0 <= q <= 1.0) then Some(BadKeepTop)
    else if ds[0] == [] && 0.0 < q < 1.0 then Some(EmptyVectorPanic)
    else None
  }

  function Merged(ds: seq<Vec>, q: real, alpha: real): Result<Vec, Problem> {
    match Refused(ds, q)
    case Some(problem) => Failure(problem)
    case None => Success(Averages(Elections(TrimAll(ds, q), |ds[0]|), alpha))
  }

  method TiesMerge(ds: seq<Vec>, q: real, alpha: real) returns (r: Result<Vec, Problem>)
    ensures r == Merged(ds, q, alpha)
    ensures r == Failure(NoDeltas) <==> ds == []
    ensures r == Failure(LengthMismatch) <==> ds != [] && exists i :: 0 <= i < |ds| && |ds[i]| != |ds[0]|
    ensures r == Failure(BadKeepTop) <==>
      ds != [] && (forall i :: 0 <= i < |ds| ==> |ds[i]| == |ds[0]|) && !(0.0 <= q <= 1.0)
    ensures r == Failure(EmptyVectorPanic) <==> ds != [] && (forall i :: 0 <= i < |ds| ==> ds[i] == []) && 0.0 < q < 1.0
    ensures r.Success? ==> ds != [] && |r.value| == |ds[0]|
  {
    if ds == [] {
      return Failure(NoDeltas);
    }
    var len := |ds[0]|;
    for i := 0 to |ds|
      invariant forall j :: 0 <= j < i ==> |ds[j]| == len
    {
      if |ds[i]| != len {
        return Failure(LengthMismatch);
      }
    }
    if !(0.0 <= q <= 1.0) {
      return Failure(BadKeepTop);
    }
    var trimmed := TrimVectors(ds, q);
    if trimmed.None? {
      return Failure(EmptyVectorPanic);
    }
    var out := MergePositions(trimmed.value, len, alpha);
    return Success(out);
  }

  /** Step 1: trim every vector; `None` if one of them panics. */
  method TrimVectors(ds: seq<Vec>, q: real) returns (r: Option<seq<Vec>>)
    requires ds != [] && SameLength(ds)
    ensures r == if ds[0] == [] && 0.0 < q < 1.0 then None else Some(TrimAll(ds, q))
  {
    var trimmed: seq<Vec> := [];
    for i := 0 to |ds|
      invariant trimmed == TrimAll(ds[..i], q)
      invariant ds[0] == [] && 0.0 < q < 1.0 ==> i == 0
    {
      var t := TrimBottom(ds[i], q);
      if t.None? {
        return None;
      }
      assert ds[..i + 1][..i] == ds[..i];
      trimmed := trimmed + [t.value];
    }
    assert ds[..|ds|] == ds;
    return Some(trimmed);
  }

  /** Steps 2 to 4 at every position. */
  method MergePositions(trimmed: seq<Vec>, len: nat, alpha: real) returns (out: Vec)
    requires forall i :: 0 <= i < |trimmed| ==> len <= |trimmed[i]|
    ensures out == Averages(Elections(trimmed, len), alpha)
  {
    out := [];
    for ix := 0 to len
      invariant out == Averages(Elections(trimmed, ix), alpha)
    {
      var merged := MergeColumn(trimmed, ix, alpha);
      out := out + [merged];
    }
  }

  /** Sign election and disjoint mean at one position. */
  method MergeColumn(trimmed: seq<Vec>, ix: nat, alpha: real) returns (merged: real)
    requires forall i :: 0 <= i < |trimmed| ==> ix < |trimmed[i]|
    ensures merged == Coordinate(Elect(Column(trimmed, ix)), alpha)
  {
    var plus := ElectSign(trimmed, ix);
    var sum, n := AddElected(trimmed, ix, plus);
    var mean := Mean(sum, n);
    merged := mean * alpha;
  }

  method ElectSign(trimmed: seq<Vec>, ix: nat) returns (plus: bool)
    requires forall i :: 0 <= i < |trimmed| ==> ix < |trimmed[i]|
    ensures plus <==> PosMag(Column(trimmed, ix)) >= NegMag(Column(trimmed, ix))
  {
    var posMag, negMag := 0.0, 0.0;
    for i := 0 to |trimmed|
      invariant posMag == PosMag(Column(trimmed[..i], ix)) && negMag == NegMag(Column(trimmed[..i], ix))
    {
      ColumnStep(trimmed, ix, i);
      var v := trimmed[i][ix];
      if v > 0.0 {
        posMag := posMag + v;
      } else if v < 0.0 {
        negMag := negMag - v;
      }
    }
    assert trimmed[..|trimmed|] == trimmed;
    plus := posMag >= negMag;
  }

  method AddElected(trimmed: seq<Vec>, ix: nat, plus: bool) returns (sum: real, n: nat)
    requires forall i :: 0 <= i < |trimmed| ==> ix < |trimmed[i]|
    ensures plus ==> sum == PosMag(Column(trimmed, ix)) && n == PosCount(Column(trimmed, ix))
    ensures !plus ==> sum == -NegMag(Column(trimmed, ix)) && n == NegCount(Column(trimmed, ix))
  {
    sum, n := 0.0, 0;
    for i := 0 to |trimmed|
      invariant plus ==> sum == PosMag(Column(trimmed[..i], ix)) && n == PosCount(Column(trimmed[..i], ix))
      invariant !plus ==> sum == -NegMag(Column(trimmed[..i], ix)) && n == NegCount(Column(trimmed[..i], ix))
    {
      ColumnStep(trimmed, ix, i);
      var v := trimmed[i][ix];
      if (v > 0.0 && plus) || (v < 0.0 && !plus) {
        sum := sum + v;
        n := n + 1;
      }
    }
    assert trimmed[..|trimmed|] == trimmed;
  }

  lemma {:induction false} ColumnStep(vs: seq<Vec>, ix: nat, i: nat)
    requires i < |vs| && forall j :: 0 <= j < |vs| ==> ix < |vs[j]|
    ensures
      var c, v := Column(vs[..i], ix), vs[i][ix];
      && Column(vs[..i + 1], ix) == c + [v]
      && PosMag(c + [v]) == PosMag(c) + Plus(v) && NegMag(c + [v]) == NegMag(c) + Minus(v)
      && PosCount(c + [v]) == PosCount(c) + (if v > 0.0 then 1 else 0)
      && NegCount(c + [v]) == NegCount(c) + (if v < 0.0 then 1 else 0)
  {
    assert vs[..i + 1][..i] == vs[..i];
    var c, v := Column(vs[..i], ix), vs[i][ix];
    assert (c + [v])[..|c|] == c;
  }
}
