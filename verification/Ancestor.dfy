/** `find_lca` on the parents of manifests. */
module Ancestor {
  // Two breadth-first walks take turns until one runs into what the other has seen.

  import opened Base

  /** The parents of every manifest the store holds. */
  type History = map<Digest, seq<Digest>>

  datatype Found =
    | Common(d: Digest)
    | NoCommonAncestor
    | OctopusUnsupported(at: Digest)
    | Missing(at: Digest)

  /** One walk: the queue of nodes to expand and everything seen so far. */
  datatype Side = Side(frontier: seq<Digest>, visited: set<Digest>)

  datatype Half = Go(side: Side) | Stop(found: Found)

  function Visit(parents: seq<Digest>, s: Side, other: set<Digest>): Half {
    if parents == [] then Go(s)
    else if parents[0] in other then Stop(Common(parents[0]))
    else if parents[0] in s.visited then Visit(parents[1..], s, other)
    else Visit(parents[1..], Side(s.frontier + [parents[0]], s.visited + {parents[0]}), other)
  }

  /** One turn: expand the first node of the queue, if there is one. */
  function Expand(h: History, s: Side, other: set<Digest>): Half {
    if s.frontier == [] then Go(s)
    else
      var node := s.frontier[0];
      if node !in h then Stop(Missing(node))
      else if |h[node]| > 2 then Stop(OctopusUnsupported(node))
      else Visit(h[node], Side(s.frontier[1..], s.visited), other)
  }

  function Known(h: History): set<Digest> { set n, q | n in h && q in h[n] :: q }

  /** Nodes still to be queued plus nodes queued. */
  function Work(h: History, s: Side): nat { |Known(h) - s.visited| + |s.frontier| }

  lemma {:induction false} VisitWork(h: History, parents: seq<Digest>, s: Side, other: set<Digest>)
    requires forall q :: q in parents ==> q in Known(h)
    ensures Visit(parents, s, other).Go? ==> Work(h, Visit(parents, s, other).side) == Work(h, s)
  {
    if parents != [] && parents[0] !in other {
      var q := parents[0];
      if q in s.visited {
        VisitWork(h, parents[1..], s, other);
      } else {
        assert Known(h) - s.visited == (Known(h) - (s.visited + {q})) + {q};
        VisitWork(h, parents[1..], Side(s.frontier + [q], s.visited + {q}), other);
      }
    }
  }

  lemma {:induction false} ExpandWork(h: History, s: Side, other: set<Digest>)
    ensures Expand(h, s, other).Go? ==>
      Work(h, Expand(h, s, other).side) == if s.frontier == [] then Work(h, s) else Work(h, s) - 1
  {
    if s.frontier != [] && s.frontier[0] in h {
      VisitWork(h, h[s.frontier[0]], Side(s.frontier[1..], s.visited), other);
    }
  }

  /** Rounds of one turn each until a verdict. */
  function Search(h: History, a: Side, b: Side): Found
    decreases Work(h, a) + Work(h, b)
  {
    match Expand(h, a, b.visited)
    case Stop(found) => found
    case Go(a') =>
      match Expand(h, b, a'.visited)
      case Stop(found) => found
      case Go(b') =>
        ExpandWork(h, a, b.visited);
        ExpandWork(h, b, a'.visited);
        if a'.frontier == [] && b'.frontier == [] then NoCommonAncestor
        else if a.frontier == [] && b.frontier == [] then NoCommonAncestor
        else Search(h, a', b')
  }

  function Start(d: Digest): Side { Side([d], {d}) }

  function Lca(h: History, a: Digest, b: Digest): Found {
    if a == b then Common(a) else Search(h, Start(a), Start(b))
  }

  /** One side's turn in the program, which spells it out twice. */
  method TakeTurn(h: History, frontier: seq<Digest>, visited: set<Digest>, other: set<Digest>)
    returns (frontier': seq<Digest>, visited': set<Digest>, stop: Option<Found>)
    ensures Expand(h, Side(frontier, visited), other) ==
      if stop.Some? then Stop(stop.value) else Go(Side(frontier', visited'))
  {
    frontier', visited' := frontier, visited;
    if frontier == [] {
      return frontier', visited', None;
    }
    var node := frontier[0];
    frontier' := frontier[1..];
    if node !in h {
      return frontier', visited', Some(Missing(node));
    }
    if |h[node]| > 2 {
      return frontier', visited', Some(OctopusUnsupported(node));
    }
    for i := 0 to |h[node]|
      invariant Expand(h, Side(frontier, visited), other) == Visit(h[node][i..], Side(frontier', visited'), other)
    {
      var q := h[node][i];
      assert h[node][i..][1..] == h[node][i + 1..];
      if q in other {
        return frontier', visited', Some(Common(q));
      }
      if q !in visited' {
        visited' := visited' + {q};
        frontier' := frontier' + [q];
      }
    }
    return frontier', visited', None;
  }

  /** The loop of the program. */
  method FindLca(h: History, a: Digest, b: Digest) returns (r: Found)
    ensures r == Lca(h, a, b)
  {
    if a == b {
      return Common(a);
    }
    var frontierA, frontierB := [a], [b];
    var visitedA, visitedB := {a}, {b};
    while true
      invariant frontierA != [] || frontierB != []
      invariant Lca(h, a, b) == Search(h, Side(frontierA, visitedA), Side(frontierB, visitedB))
      decreases Work(h, Side(frontierA, visitedA)) + Work(h, Side(frontierB, visitedB))
    {
      ExpandWork(h, Side(frontierA, visitedA), visitedB);
      var stop;
      frontierA, visitedA, stop := TakeTurn(h, frontierA, visitedA, visitedB);
      if stop.Some? {
        return stop.value;
      }
      ExpandWork(h, Side(frontierB, visitedB), visitedA);
      frontierB, visitedB, stop := TakeTurn(h, frontierB, visitedB, visitedA);
      if stop.Some? {
        return stop.value;
      }
      if frontierA == [] && frontierB == [] {
        return NoCommonAncestor;
      }
    }
  }

  // ---------- reachability ----------

  ghost predicate IsPath(h: History, path: seq<Digest>, a: Digest, d: Digest) {
    && path != [] && path[0] == a && path[|path| - 1] == d
    && forall i :: 0 <= i < |path| - 1 ==> path[i] in h && path[i + 1] in h[path[i]]
  }

  /** `d` is `a` or one of its ancestors. */
  ghost predicate Reaches(h: History, a: Digest, d: Digest) {
    exists path :: IsPath(h, path, a, d)
  }

  lemma {:induction false} ReachesSelf(h: History, a: Digest)
    ensures Reaches(h, a, a)
  {
    assert IsPath(h, [a], a, a);
  }

  lemma {:induction false} ReachesStep(h: History, a: Digest, n: Digest, q: Digest)
    requires Reaches(h, a, n) && n in h && q in h[n]
    ensures Reaches(h, a, q)
  {
    var path :| IsPath(h, path, a, n);
    assert IsPath(h, path + [q], a, q);
  }

  ghost predicate Closed(h: History, s: set<Digest>) {
    forall n, q :: n in s && n in h && q in h[n] ==> q in s
  }

  lemma {:induction false} PathStaysIn(h: History, s: set<Digest>, path: seq<Digest>, a: Digest, d: Digest)
    requires a in s && Closed(h, s) && IsPath(h, path, a, d)
    ensures d in s
    decreases |path|
  {
    if |path| > 1 {
      assert path[1] in h[path[0]];
      assert IsPath(h, path[1..], path[1], d);
      PathStaysIn(h, s, path[1..], path[1], d);
    }
  }

  /** An ancestor other than `n` itself is reached through a parent of `n`. */
  lemma {:induction false} ReachesThroughParent(h: History, n: Digest, c: Digest) returns (q: Digest)
    requires Reaches(h, n, c) && n != c
    ensures n in h && q in h[n] && Reaches(h, q, c)
  {
    var path :| IsPath(h, path, n, c);
    q := path[1];
    assert path[0] in h && path[1] in h[path[0]];
    assert IsPath(h, path[1..], q, c);
  }

  /** What one walk knows: everything seen is an ancestor, and everything seen
      and already expanded has had its parents seen. */
  ghost predicate SideInv(h: History, a: Digest, s: Side) {
    && a in s.visited
    && (forall v :: v in s.visited ==> Reaches(h, a, v))
    && (forall f :: f in s.frontier ==> f in s.visited)
    && (forall n :: n in s.visited && n !in s.frontier ==> Expanded(h, n, s.visited))
  }

  ghost predicate Expanded(h: History, n: Digest, visited: set<Digest>) {
    n in h && forall q :: q in h[n] ==> q in visited
  }

  /** What a verdict of the walk that starts at `a` means. */
  ghost predicate HalfSound(h: History, a: Digest, other: set<Digest>, found: Found) {
    match found
    case Common(d) => d in other && Reaches(h, a, d)
    case NoCommonAncestor => false
    case OctopusUnsupported(at) => Reaches(h, a, at) && at in h && |h[at]| > 2
    case Missing(at) => Reaches(h, a, at) && at !in h
  }

  /** A turn ends in a sound verdict, or keeps what is known about the side. */
  ghost predicate HalfInv(h: History, a: Digest, s: Side, other: set<Digest>, half: Half) {
    match half
    case Stop(found) => HalfSound(h, a, other, found)
    case Go(s') => SideInv(h, a, s') && s'.visited !! other && s.visited <= s'.visited
  }

  lemma {:induction false} VisitInv(h: History, a: Digest, n: Digest, done: seq<Digest>, todo: seq<Digest>,
                                    s: Side, other: set<Digest>)
    requires n in h && h[n] == done + todo && Reaches(h, a, n)
    requires a in s.visited && n in s.visited && s.visited !! other
    requires forall v :: v in s.visited ==> Reaches(h, a, v)
    requires forall f :: f in s.frontier ==> f in s.visited
    requires forall m :: m in s.visited && m !in s.frontier && m != n ==> Expanded(h, m, s.visited)
    requires forall q :: q in done ==> q in s.visited
    ensures HalfInv(h, a, s, other, Visit(todo, s, other))
    decreases |todo|
  {
    if todo == [] {
      assert h[n] == done;
      assert Expanded(h, n, s.visited);
    } else {
      var q := todo[0];
      assert q in h[n];
      ReachesStep(h, a, n, q);
      assert done + todo == (done + [q]) + todo[1..];
      if q !in other {
        if q in s.visited {
          VisitInv(h, a, n, done + [q], todo[1..], s, other);
        } else {
          var s' := Side(s.frontier + [q], s.visited + {q});
          forall m | m in s'.visited && m !in s'.frontier && m != n
            ensures Expanded(h, m, s'.visited)
          {
            assert q in s'.frontier;
            assert m in s.visited && m !in s.frontier;
          }
          VisitInv(h, a, n, done + [q], todo[1..], s', other);
        }
      }
    }
  }

  lemma {:induction false} ExpandInv(h: History, a: Digest, s: Side, other: set<Digest>)
    requires SideInv(h, a, s) && s.visited !! other
    ensures HalfInv(h, a, s, other, Expand(h, s, other))
  {
    if s.frontier != [] {
      var n := s.frontier[0];
      if n in h && |h[n]| <= 2 {
        assert h[n] == [] + h[n];
        var s' := Side(s.frontier[1..], s.visited);
        forall m | m in s'.visited && m !in s'.frontier && m != n
          ensures Expanded(h, m, s'.visited)
        {
          assert m !in s.frontier;
        }
        VisitInv(h, a, n, [], h[n], s', other);
      }
    }
  }

  ghost predicate CommonAncestor(h: History, a: Digest, b: Digest, d: Digest) { Reaches(h, a, d) && Reaches(h, b, d) }

  /** What each outcome of the search means. */
  ghost predicate Sound(h: History, a: Digest, b: Digest, found: Found) {
    match found
    case Common(d) => CommonAncestor(h, a, b, d)
    case NoCommonAncestor => forall d :: !CommonAncestor(h, a, b, d)
    case OctopusUnsupported(at) => (Reaches(h, a, at) || Reaches(h, b, at)) && at in h && |h[at]| > 2
    case Missing(at) => (Reaches(h, a, at) || Reaches(h, b, at)) && at !in h
  }

  lemma {:induction false} SearchSound(h: History, a: Digest, b: Digest, sa: Side, sb: Side)
    requires SideInv(h, a, sa) && SideInv(h, b, sb) && sa.visited !! sb.visited
    requires sa.frontier != [] || sb.frontier != []
    ensures Sound(h, a, b, Search(h, sa, sb))
    decreases Work(h, sa) + Work(h, sb)
  {
    ExpandInv(h, a, sa, sb.visited);
    ExpandWork(h, sa, sb.visited);
    var ha := Expand(h, sa, sb.visited);
    if ha.Go? {
      ExpandInv(h, b, sb, ha.side.visited);
      ExpandWork(h, sb, ha.side.visited);
      var hb := Expand(h, sb, ha.side.visited);
      if hb.Go? {
        if ha.side.frontier == [] && hb.side.frontier == [] {
          ExhaustedMeansDisjoint(h, a, b, ha.side, hb.side);
        } else {
          SearchSound(h, a, b, ha.side, hb.side);
        }
      }
    }
  }

  lemma {:induction false} ExhaustedMeansDisjoint(h: History, a: Digest, b: Digest, sa: Side, sb: Side)
    requires SideInv(h, a, sa) && SideInv(h, b, sb) && sa.visited !! sb.visited
    requires sa.frontier == [] && sb.frontier == []
    ensures forall d :: !CommonAncestor(h, a, b, d)
  {
    forall d | CommonAncestor(h, a, b, d)
      ensures false
    {
      ExhaustedHoldsAll(h, a, sa, d);
      ExhaustedHoldsAll(h, b, sb, d);
    }
  }

  lemma {:induction false} ExhaustedHoldsAll(h: History, a: Digest, s: Side, d: Digest)
    requires SideInv(h, a, s) && s.frontier == [] && Reaches(h, a, d)
    ensures d in s.visited
  {
    forall n, q | n in s.visited && n in h && q in h[n]
      ensures q in s.visited
    {
      assert Expanded(h, n, s.visited);
    }
    var path :| IsPath(h, path, a, d);
    PathStaysIn(h, s.visited, path, a, d);
  }

  /** On every parent graph, with cycles or merges or missing manifests or not:
      a node returned is an ancestor of both, "no common ancestor" means there
      is none, and an error names a reachable node that justifies it. */
  lemma {:induction false} LcaSound(h: History, a: Digest, b: Digest)
    ensures Sound(h, a, b, Lca(h, a, b))
  {
    ReachesSelf(h, a);
    ReachesSelf(h, b);
    if a != b {
      SearchSound(h, a, b, Start(a), Start(b));
    }
  }

  /** Every reachable manifest is stored and has at most two parents. */
  ghost predicate Supported(h: History, a: Digest, b: Digest) {
    forall n :: Reaches(h, a, n) || Reaches(h, b, n) ==> n in h && |h[n]| <= 2
  }

  lemma {:induction false} NoCommonAncestorIffDisjoint(h: History, a: Digest, b: Digest)
    requires Supported(h, a, b)
    ensures Lca(h, a, b) == NoCommonAncestor <==> forall d :: !CommonAncestor(h, a, b, d)
    ensures Lca(h, a, b).Common? <==> exists d :: CommonAncestor(h, a, b, d)
  {
    LcaSound(h, a, b);
  }

  // ---------- histories without merges ----------

  /** No merge node among the ancestors of `a`. */
  ghost predicate SingleParent(h: History, a: Digest) {
    forall n :: Reaches(h, a, n) && n in h ==> |h[n]| <= 1
  }

  /** Whatever `a` reaches outside the visited part is reached from every visited node. */
  ghost predicate Chain(h: History, a: Digest, visited: set<Digest>) {
    forall v, c :: v in visited && Reaches(h, a, c) ==> c in visited || Reaches(h, v, c)
  }

  /** On a chain a turn stops at the end of what it has seen, or stays on the chain. */
  ghost predicate HalfChain(h: History, a: Digest, s: Side, half: Half) {
    match half
    case Stop(found) => found.Common? ==> forall c :: Reaches(h, a, c) ==> c in s.visited || Reaches(h, found.d, c)
    case Go(s') => Chain(h, a, s'.visited)
  }

  lemma {:induction false} ChainStep(h: History, a: Digest, s: Side, q: Digest, c: Digest)
    requires Chain(h, a, s.visited)
    requires s.frontier != [] && s.frontier[0] in h && h[s.frontier[0]] == [q] && s.frontier[0] in s.visited
    requires Reaches(h, a, c) && c !in s.visited
    ensures Reaches(h, q, c)
  {
    var n := s.frontier[0];
    assert Reaches(h, n, c);
    var q' := ReachesThroughParent(h, n, c);
  }

  lemma {:induction false} ExpandChain(h: History, a: Digest, s: Side, other: set<Digest>)
    requires SingleParent(h, a) && Chain(h, a, s.visited) && SideInv(h, a, s)
    ensures HalfChain(h, a, s, Expand(h, s, other))
  {
    if s.frontier != [] && s.frontier[0] in h && h[s.frontier[0]] != [] {
      var q := h[s.frontier[0]][0];
      assert Reaches(h, a, s.frontier[0]);
      assert h[s.frontier[0]] == [q] && [q][1..] == [];
      forall c | Reaches(h, a, c) && c !in s.visited
        ensures Reaches(h, q, c)
      {
        ChainStep(h, a, s, q, c);
      }
      var rest := Side(s.frontier[1..], s.visited);
      var next := Side(rest.frontier + [q], s.visited + {q});
      assert Visit([q], rest, other) ==
        if q in other then Stop(Common(q)) else if q in s.visited then Go(rest) else Go(next);
      forall v, c | v in next.visited && Reaches(h, a, c) && c !in next.visited
        ensures Reaches(h, v, c)
      {
      }
    }
  }

  ghost predicate Lowest(h: History, a: Digest, b: Digest, d: Digest) {
    forall c :: CommonAncestor(h, a, b, c) ==> Reaches(h, d, c)
  }

  /** The walk that stops runs into `other`, which is a stretch of the other
      chain: everything common lies further along from there. */
  lemma {:induction false} StopIsLowest(h: History, a: Digest, b: Digest, s: Side, other: set<Digest>)
    requires SingleParent(h, a) && SideInv(h, a, s) && s.visited !! other
    requires Chain(h, a, s.visited) && Chain(h, b, other)
    ensures
      var half := Expand(h, s, other);
      half.Stop? && half.found.Common? ==> Lowest(h, a, b, half.found.d)
  {
    ExpandInv(h, a, s, other);
    ExpandChain(h, a, s, other);
  }

  lemma {:induction false} SearchLowest(h: History, a: Digest, b: Digest, sa: Side, sb: Side)
    requires SingleParent(h, a) && SingleParent(h, b)
    requires SideInv(h, a, sa) && SideInv(h, b, sb) && sa.visited !! sb.visited
    requires Chain(h, a, sa.visited) && Chain(h, b, sb.visited)
    ensures Search(h, sa, sb).Common? ==> Lowest(h, a, b, Search(h, sa, sb).d)
    decreases Work(h, sa) + Work(h, sb)
  {
    ExpandInv(h, a, sa, sb.visited);
    ExpandWork(h, sa, sb.visited);
    StopIsLowest(h, a, b, sa, sb.visited);
    var ha := Expand(h, sa, sb.visited);
    if ha.Go? {
      ExpandChain(h, a, sa, sb.visited);
      ExpandInv(h, b, sb, ha.side.visited);
      ExpandWork(h, sb, ha.side.visited);
      StopIsLowest(h, b, a, sb, ha.side.visited);
      var hb := Expand(h, sb, ha.side.visited);
      if hb.Go? {
        ExpandChain(h, b, sb, ha.side.visited);
        if (ha.side.frontier != [] || hb.side.frontier != []) && (sa.frontier != [] || sb.frontier != []) {
          SearchLowest(h, a, b, ha.side, hb.side);
        }
      }
    }
  }

  /** Without merge nodes the node returned is the lowest common ancestor. */
  lemma {:induction false} LcaIsLowest(h: History, a: Digest, b: Digest)
    requires SingleParent(h, a) && SingleParent(h, b) && Lca(h, a, b).Common?
    ensures CommonAncestor(h, a, b, Lca(h, a, b).d) && Lowest(h, a, b, Lca(h, a, b).d)
  {
    LcaSound(h, a, b);
    if a != b {
      ReachesSelf(h, a);
      ReachesSelf(h, b);
      SearchLowest(h, a, b, Start(a), Start(b));
    }
  }

  ghost predicate Acyclic(h: History) {
    forall x, y :: Reaches(h, x, y) && Reaches(h, y, x) ==> x == y
  }

  /** The documented trivial case: an image that is an ancestor of the other is
      returned itself. It holds on acyclic histories without merge nodes. */
  lemma {:induction false} AncestorOfTheOtherIsReturned(h: History, a: Digest, b: Digest)
    requires SingleParent(h, a) && SingleParent(h, b) && Acyclic(h) && Supported(h, a, b)
    ensures Reaches(h, b, a) ==> Lca(h, a, b) == Common(a)
    ensures Reaches(h, a, b) ==> Lca(h, a, b) == Common(b)
  {
    ReachesSelf(h, a);
    ReachesSelf(h, b);
    if Reaches(h, b, a) || Reaches(h, a, b) {
      assert CommonAncestor(h, a, b, a) || CommonAncestor(h, a, b, b);
      NoCommonAncestorIffDisjoint(h, a, b);
      LcaIsLowest(h, a, b);
    }
  }

  // ---------- with merges neither property holds ----------

  lemma {:induction false} VisitTwo(q: Digest, r: Digest, s: Side, other: set<Digest>)
    requires q != r && q !in other + s.visited && r !in other + s.visited
    ensures Visit([q, r], s, other) == Go(Side(s.frontier + [q, r], s.visited + {q, r}))
  {
    var s' := Side(s.frontier + [q], s.visited + {q});
    assert [q, r][1..] == [r] && [r][1..] == [];
    assert Visit([r], s', other) == Go(Side(s'.frontier + [r], s'.visited + {r}));
    assert s'.frontier + [r] == s.frontier + [q, r] && s'.visited + {r} == s.visited + {q, r};
  }

  /** `a` merges `x` and `c`; `c` and `b` come from `y`, and `y` from `x`. */
  const MERGED: History := map["a" := ["x", "c"], "b" := ["y"], "c" := ["y"], "y" := ["x"], "x" := []]

  /** With a merge node the result need not be lowest: `x` is returned although
      `y`, a descendant of `x`, is also common. */
  lemma {:induction false} MergeHistoryNotLowest()
    ensures Supported(MERGED, "a", "b") && Lca(MERGED, "a", "b") == Common("x")
    ensures CommonAncestor(MERGED, "a", "b", "y") && !Reaches(MERGED, "x", "y")
  {
    var h := MERGED;
    MergeHistorySearch();
    assert IsPath(h, ["a", "c", "y"], "a", "y") && IsPath(h, ["b", "y"], "b", "y");
    StaysAmong(h, {"x"}, "x");
    StaysAmong(h, h.Keys, "a");
    StaysAmong(h, h.Keys, "b");
  }

  lemma {:induction false} MergeHistorySearch()
    ensures Lca(MERGED, "a", "b") == Common("x")
  {
    var h := MERGED;
    var a1 := Side(["x", "c"], {"a", "x", "c"});
    VisitTwo("x", "c", Side([], {"a"}), {"b"});
    assert Start("a").frontier[1..] == [] && [] + ["x", "c"] == a1.frontier && {"a"} + {"x", "c"} == a1.visited;
    assert Expand(h, Start("a"), {"b"}) == Go(a1);
    var b1 := Side(["y"], {"b", "y"});
    assert Expand(h, Start("b"), a1.visited) == Go(b1);
    var a2 := Side(["c"], {"a", "x", "c"});
    assert Expand(h, a1, b1.visited) == Go(a2);
    assert Expand(h, b1, a2.visited) == Stop(Common("x"));
    assert Lca(h, "a", "b") == Search(h, a1, b1);
  }

  lemma {:induction false} StaysAmong(h: History, s: set<Digest>, a: Digest)
    requires a in s && Closed(h, s)
    ensures forall d :: Reaches(h, a, d) ==> d in s
  {
    forall d | Reaches(h, a, d)
      ensures d in s
    {
      var path :| IsPath(h, path, a, d);
      PathStaysIn(h, s, path, a, d);
    }
  }

  /** `b` merges `x` and `c`, `c` comes from `a`, `a` from `y`, `y` from `x`. */
  const MERGED_INTO: History := map["b" := ["x", "c"], "c" := ["a"], "a" := ["y"], "y" := ["x"], "x" := []]

  /** The documented trivial case fails too: `a` is an ancestor of `b`, and yet
      its own ancestor `x` is returned. */
  lemma {:induction false} MergeHistoryMissesAncestor()
    ensures Reaches(MERGED_INTO, "b", "a") && Lca(MERGED_INTO, "a", "b") == Common("x")
  {
    var h := MERGED_INTO;
    var a1 := Side(["y"], {"a", "y"});
    assert Expand(h, Start("a"), {"b"}) == Go(a1);
    var b1 := Side(["x", "c"], {"b", "x", "c"});
    VisitTwo("x", "c", Side([], {"b"}), a1.visited);
    assert Start("b").frontier[1..] == [] && [] + ["x", "c"] == b1.frontier && {"b"} + {"x", "c"} == b1.visited;
    assert Expand(h, Start("b"), a1.visited) == Go(b1);
    assert Expand(h, a1, b1.visited) == Stop(Common("x"));
    assert Lca(h, "a", "b") == Search(h, a1, b1);
    assert IsPath(h, ["b", "c", "a"], "b", "a");
  }
}
