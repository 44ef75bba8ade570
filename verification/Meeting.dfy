/** Which ancestor `find_lca` returns. */
module Meeting {
  // The two walks do not influence each other until they meet. So the result is
  // decided by two independent breadth-first walks: it is the first node on which
  // they meet, turn by turn. That gives a condition on the graph that suffices.

  import opened Base
  import opened Ancestor

  // ---------- one walk on its own ----------

  /** One turn with nobody in the way. */
  function Turn(h: History, s: Side): Side {
    match Expand(h, s, {})
    case Go(s') => s'
    case Stop(_) => s
  }

  /** The walk from `a` after `t` turns. */
  function Walk(h: History, a: Digest, t: nat): Side {
    if t == 0 then Start(a) else Turn(h, Walk(h, a, t - 1))
  }

  /** The parents that the next turn looks at. */
  function NextParents(h: History, s: Side): seq<Digest> {
    if s.frontier == [] || s.frontier[0] !in h then [] else h[s.frontier[0]]
  }

  function FirstIn(ds: seq<Digest>, seen: set<Digest>): Option<Digest> {
    if ds == [] then None else if ds[0] in seen then Some(ds[0]) else FirstIn(ds[1..], seen)
  }

  /** In round `t` A goes first, then B: the node on which they meet, if any. */
  function MeetA(h: History, a: Digest, b: Digest, t: nat): Option<Digest> {
    FirstIn(NextParents(h, Walk(h, a, t)), Walk(h, b, t).visited)
  }

  function MeetB(h: History, a: Digest, b: Digest, t: nat): Option<Digest> {
    FirstIn(NextParents(h, Walk(h, b, t)), Walk(h, a, t + 1).visited)
  }

  function Meet(h: History, a: Digest, b: Digest, t: nat): Option<Digest> {
    if MeetA(h, a, b, t).Some? then MeetA(h, a, b, t) else MeetB(h, a, b, t)
  }

  ghost predicate ApartBetween(h: History, a: Digest, b: Digest, from: nat, to: nat) {
    forall k :: from <= k < to ==> Meet(h, a, b, k).None?
  }

  ghost predicate MeetFirstAt(h: History, a: Digest, b: Digest, from: nat, t: nat, d: Digest) {
    from <= t && Meet(h, a, b, t) == Some(d) && ApartBetween(h, a, b, from, t)
  }

  ghost predicate MetFrom(h: History, a: Digest, b: Digest, from: nat, d: Digest) {
    exists t: nat :: MeetFirstAt(h, a, b, from, t, d)
  }

  /** The independent walks from `a` and `b` meet on `d` before any other node. */
  ghost predicate MetFirst(h: History, a: Digest, b: Digest, d: Digest) { MetFrom(h, a, b, 0, d) }

  // ---------- the search is two independent walks ----------

  lemma {:induction false} VisitAlone(parents: seq<Digest>, s: Side, other: set<Digest>)
    ensures Visit(parents, s, {}).Go?
    ensures Visit(parents, s, other) ==
      if FirstIn(parents, other).Some? then Stop(Common(FirstIn(parents, other).value)) else Visit(parents, s, {})
  {
    if parents != [] {
      VisitAlone(parents[1..], s, other);
      VisitAlone(parents[1..], Side(s.frontier + [parents[0]], s.visited + {parents[0]}), other);
    }
  }

  /** Every ancestor of `a` is stored and has at most two parents. */
  ghost predicate SideSupported(h: History, a: Digest) {
    forall n :: Reaches(h, a, n) ==> n in h && |h[n]| <= 2
  }

  lemma {:induction false} ExpandAlone(h: History, a: Digest, s: Side, other: set<Digest>)
    requires SideInv(h, a, s) && SideSupported(h, a)
    ensures Expand(h, s, other) ==
      if FirstIn(NextParents(h, s), other).Some? then Stop(Common(FirstIn(NextParents(h, s), other).value))
      else Go(Turn(h, s))
  {
    if s.frontier != [] {
      assert s.frontier[0] in s.visited;
      VisitAlone(h[s.frontier[0]], Side(s.frontier[1..], s.visited), other);
    }
  }

  lemma {:induction false} WalkInv(h: History, a: Digest, t: nat)
    requires SideSupported(h, a)
    ensures SideInv(h, a, Walk(h, a, t))
  {
    if t == 0 {
      ReachesSelf(h, a);
    } else {
      var s := Walk(h, a, t - 1);
      WalkInv(h, a, t - 1);
      ExpandInv(h, a, s, {});
      ExpandAlone(h, a, s, {});
      NothingIn(NextParents(h, s));
    }
  }

  lemma {:induction false} NothingIn(ds: seq<Digest>)
    ensures FirstIn(ds, {}).None?
  {
    if ds != [] {
      NothingIn(ds[1..]);
    }
  }

  /** A walk with nothing left to expand stays where it is. */
  lemma {:induction false} WalkDone(h: History, a: Digest, t: nat, k: nat)
    requires Walk(h, a, t).frontier == [] && t <= k
    ensures Walk(h, a, k) == Walk(h, a, t)
    decreases k - t
  {
    if t < k {
      WalkDone(h, a, t, k - 1);
    }
  }

  lemma {:induction false} DoneNeverMeet(h: History, a: Digest, b: Digest, t: nat, d: Digest)
    requires Walk(h, a, t).frontier == [] && Walk(h, b, t).frontier == []
    ensures !MetFrom(h, a, b, t, d)
  {
    forall k: nat | t <= k
      ensures Meet(h, a, b, k).None?
    {
      WalkDone(h, a, t, k);
      WalkDone(h, b, t, k);
    }
  }

  lemma {:induction false} MeetNow(h: History, a: Digest, b: Digest, t: nat, d: Digest)
    requires Meet(h, a, b, t).Some?
    ensures MetFrom(h, a, b, t, d) <==> Meet(h, a, b, t) == Some(d)
  {
    if Meet(h, a, b, t) == Some(d) {
      assert MeetFirstAt(h, a, b, t, t, d);
    }
  }

  lemma {:induction false} MeetLater(h: History, a: Digest, b: Digest, t: nat, d: Digest)
    requires Meet(h, a, b, t).None?
    ensures MetFrom(h, a, b, t, d) <==> MetFrom(h, a, b, t + 1, d)
  {
    var next := t + 1;
    if k: nat :| MeetFirstAt(h, a, b, t, k, d) {
      assert MeetFirstAt(h, a, b, next, k, d);
    }
    if k: nat :| MeetFirstAt(h, a, b, next, k, d) {
      assert MeetFirstAt(h, a, b, t, k, d);
    }
  }

  function HalfOf(meet: Option<Digest>, side: Side): Half {
    if meet.Some? then Stop(Common(meet.value)) else Go(side)
  }

  lemma {:induction false} RoundOf(h: History, sa: Side, sb: Side, na: Side, nb: Side, ma: Option<Digest>, mb: Option<Digest>)
    requires sa.frontier != [] || sb.frontier != []
    requires Expand(h, sa, sb.visited) == HalfOf(ma, na) && Expand(h, sb, na.visited) == HalfOf(mb, nb)
    ensures Search(h, sa, sb) ==
      if ma.Some? then Common(ma.value)
      else if mb.Some? then Common(mb.value)
      else if na.frontier == [] && nb.frontier == [] then NoCommonAncestor
      else Search(h, na, nb)
  {
  }

  /** One round of the search: both sides take a turn of their own walks. */
  lemma {:induction false} SearchRound(h: History, a: Digest, b: Digest, t: nat)
    requires SideSupported(h, a) && SideSupported(h, b)
    requires Walk(h, a, t).frontier != [] || Walk(h, b, t).frontier != []
    ensures
      var na, nb := Walk(h, a, t + 1), Walk(h, b, t + 1);
      Search(h, Walk(h, a, t), Walk(h, b, t)) ==
        if Meet(h, a, b, t).Some? then Common(Meet(h, a, b, t).value)
        else if na.frontier == [] && nb.frontier == [] then NoCommonAncestor
        else Search(h, na, nb)
  {
    var sa, sb := Walk(h, a, t), Walk(h, b, t);
    var na, nb := Walk(h, a, t + 1), Walk(h, b, t + 1);
    WalkInv(h, a, t);
    WalkInv(h, b, t);
    ExpandAlone(h, a, sa, sb.visited);
    ExpandAlone(h, b, sb, na.visited);
    RoundOf(h, sa, sb, na, nb, MeetA(h, a, b, t), MeetB(h, a, b, t));
  }

  function WorkAt(h: History, a: Digest, t: nat): nat { Work(h, Walk(h, a, t)) }

  lemma {:induction false} RoundWork(h: History, a: Digest, t: nat)
    requires SideSupported(h, a)
    ensures WorkAt(h, a, t + 1) == WorkAt(h, a, t) - (if Walk(h, a, t).frontier == [] then 0 else 1)
  {
    WalkInv(h, a, t);
    TurnWork(h, a, Walk(h, a, t));
  }

  lemma {:induction false} TurnWork(h: History, a: Digest, s: Side)
    requires SideInv(h, a, s) && SideSupported(h, a)
    ensures Work(h, Turn(h, s)) == Work(h, s) - (if s.frontier == [] then 0 else 1)
  {
    ExpandAlone(h, a, s, {});
    NothingIn(NextParents(h, s));
    ExpandWork(h, s, {});
  }

  lemma {:induction false} SearchMeets(h: History, a: Digest, b: Digest, t: nat, d: Digest)
    requires SideSupported(h, a) && SideSupported(h, b)
    requires Walk(h, a, t).frontier != [] || Walk(h, b, t).frontier != []
    ensures Search(h, Walk(h, a, t), Walk(h, b, t)) == Common(d) <==> MetFrom(h, a, b, t, d)
    decreases WorkAt(h, a, t) + WorkAt(h, b, t)
  {
    SearchRound(h, a, b, t);
    RoundWork(h, a, t);
    RoundWork(h, b, t);
    if Meet(h, a, b, t).Some? {
      MeetNow(h, a, b, t, d);
    } else {
      MeetLater(h, a, b, t, d);
      if Walk(h, a, t + 1).frontier == [] && Walk(h, b, t + 1).frontier == [] {
        DoneNeverMeet(h, a, b, t + 1, d);
      } else {
        SearchMeets(h, a, b, t + 1, d);
      }
    }
  }

  lemma {:induction false} SidesSupported(h: History, a: Digest, b: Digest)
    requires Supported(h, a, b)
    ensures SideSupported(h, a) && SideSupported(h, b)
  {
  }

  /** The node returned is exactly the first on which the two independent walks
      meet, merges or not. */
  lemma {:induction false} LcaIsFirstMeeting(h: History, a: Digest, b: Digest, d: Digest)
    requires Supported(h, a, b) && a != b
    ensures Lca(h, a, b) == Common(d) <==> MetFirst(h, a, b, d)
  {
    SidesSupported(h, a, b);
    assert Walk(h, a, 0) == Start(a) && Walk(h, b, 0) == Start(b);
    SearchMeets(h, a, b, 0, d);
  }

  // ---------- a condition on the graph ----------

  /** Every way from `a` into what is common leads through `m`. */
  ghost predicate Funnels(h: History, a: Digest, b: Digest, from: Digest, m: Digest) {
    forall path, c :: IsPath(h, path, from, c) && CommonAncestor(h, a, b, c) ==> m in path
  }

  /** Both sides enter their common past through the same image. */
  ghost predicate Gate(h: History, a: Digest, b: Digest, m: Digest) {
    CommonAncestor(h, a, b, m) && Funnels(h, a, b, a, m) && Funnels(h, a, b, b, m)
  }

  ghost predicate PathInside(h: History, path: seq<Digest>, a: Digest, d: Digest, s: set<Digest>) {
    IsPath(h, path, a, d) && forall i :: 0 <= i < |path| ==> path[i] in s
  }

  /** What a walk has seen it has reached through what it has seen. */
  lemma {:induction false} WalkPath(h: History, a: Digest, t: nat, d: Digest) returns (path: seq<Digest>)
    requires SideSupported(h, a) && d in Walk(h, a, t).visited
    ensures PathInside(h, path, a, d, Walk(h, a, t).visited)
  {
    if t == 0 {
      path := [a];
    } else {
      var s, s' := Walk(h, a, t - 1), Walk(h, a, t);
      TurnAdds(h, a, t - 1);
      if d in s.visited {
        path := WalkPath(h, a, t - 1, d);
      } else {
        var n := s.frontier[0];
        var up := WalkPath(h, a, t - 1, n);
        path := up + [d];
      }
    }
  }

  /** A turn keeps what was seen and adds the parents of the node it expands. */
  lemma {:induction false} TurnAdds(h: History, a: Digest, t: nat)
    requires SideSupported(h, a)
    ensures
      var s, s' := Walk(h, a, t), Walk(h, a, t + 1);
      && s'.visited == s.visited + (set q | q in NextParents(h, s))
      && (NextParents(h, s) != [] ==> s.frontier != [] && s.frontier[0] in h && s.frontier[0] in s.visited)
  {
    var s := Walk(h, a, t);
    WalkInv(h, a, t);
    if s.frontier != [] {
      assert s.frontier[0] in s.visited;
      VisitAdds(h[s.frontier[0]], Side(s.frontier[1..], s.visited));
    }
  }

  lemma {:induction false} VisitAdds(parents: seq<Digest>, s: Side)
    ensures Visit(parents, s, {}).Go? && Visit(parents, s, {}).side.visited == s.visited + (set q | q in parents)
  {
    if parents != [] {
      VisitAdds(parents[1..], s);
      VisitAdds(parents[1..], Side(s.frontier + [parents[0]], s.visited + {parents[0]}));
      assert parents == [parents[0]] + parents[1..];
    }
  }

  lemma {:induction false} FirstInIs(ds: seq<Digest>, seen: set<Digest>)
    ensures FirstIn(ds, seen).None? <==> forall d :: d in ds ==> d !in seen
    ensures FirstIn(ds, seen).Some? ==> FirstIn(ds, seen).value in ds && FirstIn(ds, seen).value in seen
  {
    if ds != [] {
      FirstInIs(ds[1..], seen);
      assert ds == [ds[0]] + ds[1..];
    }
  }

  /** As long as they have not met, the walks have seen nothing in common. */
  lemma {:induction false} ApartMeansDisjoint(h: History, a: Digest, b: Digest, t: nat)
    requires SideSupported(h, a) && SideSupported(h, b) && a != b && ApartBetween(h, a, b, 0, t)
    ensures Walk(h, a, t).visited !! Walk(h, b, t).visited
    ensures MeetA(h, a, b, t).None? ==> Walk(h, a, t + 1).visited !! Walk(h, b, t).visited
  {
    if t > 0 {
      ApartMeansDisjoint(h, a, b, t - 1);
      assert Meet(h, a, b, t - 1).None?;
      TurnAdds(h, b, t - 1);
      FirstInIs(NextParents(h, Walk(h, b, t - 1)), Walk(h, a, t).visited);
    }
    TurnAdds(h, a, t);
    FirstInIs(NextParents(h, Walk(h, a, t)), Walk(h, b, t).visited);
  }

  /** The side that runs into `other` on `d` has come through the gate, and so has
      the other side: they would have met there. */
  lemma {:induction false} MeetsAtGate(h: History, a: Digest, b: Digest, from: Digest, to: Digest, t: nat, u: nat, m: Digest, d: Digest)
    requires SideSupported(h, from) && SideSupported(h, to)
    requires Funnels(h, a, b, from, m) && Funnels(h, a, b, to, m) && CommonAncestor(h, a, b, d)
    requires Walk(h, from, t).visited !! Walk(h, to, u).visited
    requires d in NextParents(h, Walk(h, from, t)) && d in Walk(h, to, u).visited
    ensures d == m
  {
    TurnAdds(h, from, t);
    var n := Walk(h, from, t).frontier[0];
    var up := WalkPath(h, from, t, n);
    var down := WalkPath(h, to, u, d);
    assert IsPath(h, up + [d], from, d);
    assert m in up + [d] && m in down;
    assert m in Walk(h, to, u).visited;
    assert m in up ==> m in Walk(h, from, t).visited;
  }

  /** If both sides enter their common past through one image, that image is
      returned, and it is the lowest common ancestor. Merge nodes elsewhere do no
      harm: before the gate, after it, or off the way. */
  lemma {:induction false} GateIsReturned(h: History, a: Digest, b: Digest, m: Digest)
    requires Supported(h, a, b) && Gate(h, a, b, m)
    ensures Lca(h, a, b) == Common(m) && Lowest(h, a, b, m)
  {
    GateIsLowest(h, a, b, m);
    if a == b {
      ReachesSelf(h, a);
      assert IsPath(h, [a], a, a);
      assert m in [a];
    } else {
      SidesSupported(h, a, b);
      NoCommonAncestorIffDisjoint(h, a, b);
      LcaSound(h, a, b);
      var d := Lca(h, a, b).d;
      LcaIsFirstMeeting(h, a, b, d);
      var t: nat :| MeetFirstAt(h, a, b, 0, t, d);
      ApartMeansDisjoint(h, a, b, t);
      FirstInIs(NextParents(h, Walk(h, a, t)), Walk(h, b, t).visited);
      FirstInIs(NextParents(h, Walk(h, b, t)), Walk(h, a, t + 1).visited);
      if MeetA(h, a, b, t).Some? {
        MeetsAtGate(h, a, b, a, b, t, t, m, d);
      } else {
        MeetsAtGate(h, a, b, b, a, t, t + 1, m, d);
      }
    }
  }

  lemma {:induction false} GateIsLowest(h: History, a: Digest, b: Digest, m: Digest)
    requires Gate(h, a, b, m)
    ensures Lowest(h, a, b, m)
  {
    forall c | CommonAncestor(h, a, b, c)
      ensures Reaches(h, m, c)
    {
      var path :| IsPath(h, path, a, c);
      assert m in path;
      var i :| 0 <= i < |path| && path[i] == m;
      assert IsPath(h, path[i..], m, c);
    }
  }

  /** So an image that is an ancestor of the other is returned if the other
      reaches what lies behind it only through it. */
  lemma {:induction false} FunnelledAncestorIsReturned(h: History, a: Digest, b: Digest)
    requires Supported(h, a, b) && Reaches(h, b, a) && Funnels(h, a, b, b, a)
    ensures Lca(h, a, b) == Common(a)
  {
    ReachesSelf(h, a);
    forall path, c | IsPath(h, path, a, c) && CommonAncestor(h, a, b, c)
      ensures a in path
    {
      assert path[0] == a;
    }
    GateIsReturned(h, a, b, a);
  }

  /** A diamond below the ancestor: a merge node on the way, and no harm done. */
  lemma {:induction false} DiamondIsHarmless()
    ensures
      var h: History := map["a" := ["x", "y"], "x" := ["r"], "y" := ["r"], "r" := []];
      Supported(h, "a", "r") && Gate(h, "a", "r", "r") && Lca(h, "a", "r") == Common("r")
  {
    var h: History := map["a" := ["x", "y"], "x" := ["r"], "y" := ["r"], "r" := []];
    StaysAmong(h, h.Keys, "a");
    StaysAmong(h, {"r"}, "r");
    assert IsPath(h, ["a", "x", "r"], "a", "r") && IsPath(h, ["r"], "r", "r");
    assert CommonAncestor(h, "a", "r", "r");
    forall from, path, c | IsPath(h, path, from, c) && CommonAncestor(h, "a", "r", c)
      ensures "r" in path
    {
      assert c == "r" && path[|path| - 1] == c;
    }
    GateIsReturned(h, "a", "r", "r");
  }
}
