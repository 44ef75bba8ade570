/** When `find_lca` keeps its promises. */
module Rounds {
  // A round is counted from one start alone: it says when a single breadth-first
  // walk first sees an image. Two such counts order the common ancestors, and the
  // one that comes first is returned.

  import opened Base
  import opened Ancestor
  import opened Meeting

  // ---------- rounds of one walk ----------

  /** The walk from `a` sees `d` for the first time after `t` turns. */
  ghost predicate SeenFirst(h: History, a: Digest, d: Digest, t: nat) {
    d in Walk(h, a, t).visited && (t == 0 || d !in Walk(h, a, t - 1).visited)
  }

  /** The round in which the walk from `a` first sees its ancestor `d`. */
  ghost function Round(h: History, a: Digest, d: Digest): nat
    requires SideSupported(h, a) && Reaches(h, a, d)
  {
    var t := EverSeen(h, a, d);
    FirstTime(h, a, d, t);
    var r: nat :| SeenFirst(h, a, d, r);
    r
  }

  lemma {:induction false} VisitedGrows(h: History, a: Digest, t: nat, u: nat)
    requires SideSupported(h, a) && t <= u
    ensures Walk(h, a, t).visited <= Walk(h, a, u).visited
    decreases u - t
  {
    if t < u {
      VisitedGrows(h, a, t, u - 1);
      TurnAdds(h, a, u - 1);
    }
  }

  lemma {:induction false} FirstTime(h: History, a: Digest, d: Digest, t: nat)
    requires d in Walk(h, a, t).visited
    ensures exists r: nat :: r <= t && SeenFirst(h, a, d, r)
  {
    if t > 0 && d in Walk(h, a, t - 1).visited {
      FirstTime(h, a, d, t - 1);
    } else {
      assert SeenFirst(h, a, d, t);
    }
  }

  /** A turn with something to expand takes one off the work. */
  lemma {:induction false} WalkEnds(h: History, a: Digest, t: nat) returns (u: nat)
    requires SideSupported(h, a)
    ensures Walk(h, a, u).frontier == []
    decreases WorkAt(h, a, t)
  {
    if Walk(h, a, t).frontier == [] {
      u := t;
    } else {
      RoundWork(h, a, t);
      u := WalkEnds(h, a, t + 1);
    }
  }

  /** A walk sees all ancestors. */
  ghost function EverSeen(h: History, a: Digest, d: Digest): (t: nat)
    requires SideSupported(h, a) && Reaches(h, a, d)
    ensures d in Walk(h, a, t).visited
  {
    SeesAll(h, a, d);
    var t: nat :| d in Walk(h, a, t).visited;
    t
  }

  lemma {:induction false} SeesAll(h: History, a: Digest, d: Digest)
    requires SideSupported(h, a) && Reaches(h, a, d)
    ensures exists t: nat :: d in Walk(h, a, t).visited
  {
    var u := WalkEnds(h, a, 0);
    var s := Walk(h, a, u);
    WalkInv(h, a, u);
    forall n, q | n in s.visited && n in h && q in h[n]
      ensures q in s.visited
    {
      assert Expanded(h, n, s.visited);
    }
    var path :| IsPath(h, path, a, d);
    PathStaysIn(h, s.visited, path, a, d);
  }

  /** What has been seen by a certain turn is what has a round up to it. */
  lemma {:induction false} SeenIffRound(h: History, a: Digest, d: Digest, t: nat)
    requires SideSupported(h, a)
    ensures d in Walk(h, a, t).visited <==> Reaches(h, a, d) && Round(h, a, d) <= t
  {
    WalkInv(h, a, t);
    if Reaches(h, a, d) {
      var u := EverSeen(h, a, d);
      FirstTime(h, a, d, u);
      var r := Round(h, a, d);
      if r <= t {
        VisitedGrows(h, a, r, t);
      } else {
        VisitedGrows(h, a, t, r - 1);
      }
    }
  }

  /** What is first seen in a round is a parent of the image expanded in it. */
  lemma {:induction false} SeenAmongParents(h: History, a: Digest, d: Digest)
    requires SideSupported(h, a) && Reaches(h, a, d)
    ensures Round(h, a, d) == 0 <==> d == a
    ensures d != a ==> d in NextParents(h, Walk(h, a, Round(h, a, d) - 1))
  {
    var r := Round(h, a, d);
    SeenIffRound(h, a, d, 0);
    SeenIffRound(h, a, d, r);
    if r > 0 {
      SeenIffRound(h, a, d, r - 1);
      TurnAdds(h, a, r - 1);
    }
  }

  // ---------- the order in which the walks meet ----------

  /** The turns of both sides in one count: A has the odd ones, B the even ones. */
  function TurnA(round: nat): nat { if round == 0 then 0 else 2 * round - 1 }

  function TurnB(round: nat): nat { 2 * round }

  /** The turn after which both walks have seen `d`. */
  ghost function BothAt(h: History, a: Digest, b: Digest, d: Digest): nat
    requires SideSupported(h, a) && SideSupported(h, b) && CommonAncestor(h, a, b, d)
  {
    var ta, tb := TurnA(Round(h, a, d)), TurnB(Round(h, b, d));
    if ta < tb then tb else ta
  }

  /** The parents looked at in a turn. */
  function LookedAt(h: History, a: Digest, b: Digest, turn: nat): seq<Digest> {
    if turn == 0 then []
    else if turn % 2 == 1 then NextParents(h, Walk(h, a, turn / 2))
    else NextParents(h, Walk(h, b, turn / 2 - 1))
  }

  /** Of the two, `d` is listed first. */
  predicate ListedFirst(ps: seq<Digest>, d: Digest, e: Digest) { FirstIn(ps, {d, e}) == Some(d) }

  /** Both walks have seen `d` in an earlier turn than `e`, or in the same turn
      and `d` is listed first among the parents looked at in it. */
  ghost predicate Sooner(h: History, a: Digest, b: Digest, d: Digest, e: Digest)
    requires SideSupported(h, a) && SideSupported(h, b) && CommonAncestor(h, a, b, d) && CommonAncestor(h, a, b, e)
  {
    || BothAt(h, a, b, d) < BothAt(h, a, b, e)
    || (BothAt(h, a, b, d) == BothAt(h, a, b, e) && ListedFirst(LookedAt(h, a, b, BothAt(h, a, b, d)), d, e))
  }

  /** Every other common ancestor comes later. */
  ghost predicate Soonest(h: History, a: Digest, b: Digest, d: Digest)
    requires SideSupported(h, a) && SideSupported(h, b)
  {
    CommonAncestor(h, a, b, d) && forall e :: CommonAncestor(h, a, b, e) && e != d ==> Sooner(h, a, b, d, e)
  }

  lemma {:induction false} SoonerOneWay(h: History, a: Digest, b: Digest, d: Digest, e: Digest)
    requires SideSupported(h, a) && SideSupported(h, b) && CommonAncestor(h, a, b, d) && CommonAncestor(h, a, b, e)
    requires Sooner(h, a, b, d, e) && Sooner(h, a, b, e, d)
    ensures d == e
  {
    assert {d, e} == {e, d};
  }

  lemma {:induction false} FirstInSmaller(ps: seq<Digest>, seen: set<Digest>, d: Digest, e: Digest)
    requires FirstIn(ps, seen) == Some(d) && e in seen
    ensures ListedFirst(ps, d, e)
  {
    if ps[0] !in seen {
      FirstInSmaller(ps[1..], seen, d, e);
    }
  }

  /** Walks that are apart have seen no common ancestor both. */
  lemma {:induction false} LaterThanA(h: History, a: Digest, b: Digest, t: nat, e: Digest)
    requires SideSupported(h, a) && SideSupported(h, b) && CommonAncestor(h, a, b, e)
    requires Walk(h, a, t).visited !! Walk(h, b, t).visited
    ensures BothAt(h, a, b, e) >= 2 * t + 1
    ensures BothAt(h, a, b, e) == 2 * t + 1 ==> e in Walk(h, b, t).visited
  {
    SeenIffRound(h, a, e, t);
    SeenIffRound(h, b, e, t);
  }

  lemma {:induction false} LaterThanB(h: History, a: Digest, b: Digest, t: nat, e: Digest)
    requires SideSupported(h, a) && SideSupported(h, b) && CommonAncestor(h, a, b, e)
    requires Walk(h, a, t + 1).visited !! Walk(h, b, t).visited
    ensures BothAt(h, a, b, e) >= 2 * t + 2
    ensures BothAt(h, a, b, e) == 2 * t + 2 ==> e in Walk(h, a, t + 1).visited
  {
    SeenIffRound(h, a, e, t + 1);
    SeenIffRound(h, b, e, t);
  }

  lemma {:induction false} MeetingTurnA(h: History, a: Digest, b: Digest, t: nat, d: Digest)
    requires SideSupported(h, a) && SideSupported(h, b)
    requires Walk(h, a, t).visited !! Walk(h, b, t).visited && MeetA(h, a, b, t) == Some(d)
    ensures CommonAncestor(h, a, b, d) && BothAt(h, a, b, d) == 2 * t + 1
  {
    FirstInIs(NextParents(h, Walk(h, a, t)), Walk(h, b, t).visited);
    TurnAdds(h, a, t);
    SeenIffRound(h, a, d, t);
    SeenIffRound(h, a, d, t + 1);
    SeenIffRound(h, b, d, t);
  }

  lemma {:induction false} MeetingTurnB(h: History, a: Digest, b: Digest, t: nat, d: Digest)
    requires SideSupported(h, a) && SideSupported(h, b)
    requires Walk(h, a, t + 1).visited !! Walk(h, b, t).visited && MeetB(h, a, b, t) == Some(d)
    ensures CommonAncestor(h, a, b, d) && BothAt(h, a, b, d) == 2 * t + 2
  {
    FirstInIs(NextParents(h, Walk(h, b, t)), Walk(h, a, t + 1).visited);
    TurnAdds(h, b, t);
    SeenIffRound(h, b, d, t);
    SeenIffRound(h, b, d, t + 1);
    SeenIffRound(h, a, d, t + 1);
  }

  /** The node on which the walks meet in A's turn comes before all others. */
  lemma {:induction false} MetInTurnOfA(h: History, a: Digest, b: Digest, t: nat, d: Digest)
    requires SideSupported(h, a) && SideSupported(h, b)
    requires Walk(h, a, t).visited !! Walk(h, b, t).visited && MeetA(h, a, b, t) == Some(d)
    ensures Soonest(h, a, b, d)
  {
    MeetingTurnA(h, a, b, t, d);
    var ps := NextParents(h, Walk(h, a, t));
    assert LookedAt(h, a, b, 2 * t + 1) == ps;
    forall e | CommonAncestor(h, a, b, e) && e != d
      ensures Sooner(h, a, b, d, e)
    {
      LaterThanA(h, a, b, t, e);
      if BothAt(h, a, b, e) == 2 * t + 1 {
        FirstInSmaller(ps, Walk(h, b, t).visited, d, e);
      }
    }
  }

  lemma {:induction false} MetInTurnOfB(h: History, a: Digest, b: Digest, t: nat, d: Digest)
    requires SideSupported(h, a) && SideSupported(h, b)
    requires Walk(h, a, t + 1).visited !! Walk(h, b, t).visited && MeetB(h, a, b, t) == Some(d)
    ensures Soonest(h, a, b, d)
  {
    MeetingTurnB(h, a, b, t, d);
    var ps := NextParents(h, Walk(h, b, t));
    assert LookedAt(h, a, b, 2 * t + 2) == ps;
    forall e | CommonAncestor(h, a, b, e) && e != d
      ensures Sooner(h, a, b, d, e)
    {
      LaterThanB(h, a, b, t, e);
      if BothAt(h, a, b, e) == 2 * t + 2 {
        FirstInSmaller(ps, Walk(h, a, t + 1).visited, d, e);
      }
    }
  }

  /** The result is exactly the common ancestor that both walks, each counted on
      its own, have seen soonest: merges or not. */
  lemma {:induction false} LcaIsSoonest(h: History, a: Digest, b: Digest, d: Digest)
    requires Supported(h, a, b) && a != b
    ensures SideSupported(h, a) && SideSupported(h, b)
    ensures Lca(h, a, b) == Common(d) <==> Soonest(h, a, b, d)
  {
    SidesSupported(h, a, b);
    if Lca(h, a, b) == Common(d) {
      ResultIsSoonest(h, a, b, d);
    }
    if Soonest(h, a, b, d) {
      NoCommonAncestorIffDisjoint(h, a, b);
      LcaSound(h, a, b);
      var r := Lca(h, a, b).d;
      ResultIsSoonest(h, a, b, r);
      if r != d {
        SoonerOneWay(h, a, b, d, r);
      }
    }
  }

  lemma {:induction false} ResultIsSoonest(h: History, a: Digest, b: Digest, d: Digest)
    requires Supported(h, a, b) && a != b && Lca(h, a, b) == Common(d)
    ensures SideSupported(h, a) && SideSupported(h, b) && Soonest(h, a, b, d)
  {
    SidesSupported(h, a, b);
    LcaIsFirstMeeting(h, a, b, d);
    var t: nat :| MeetFirstAt(h, a, b, 0, t, d);
    ApartMeansDisjoint(h, a, b, t);
    if MeetA(h, a, b, t).Some? {
      MetInTurnOfA(h, a, b, t, d);
    } else {
      MetInTurnOfB(h, a, b, t, d);
    }
  }

  // ---------- the two promises ----------

  /** The walk from `b` gets to its ancestor `a` before both walks have seen `e`. */
  ghost predicate ReachedBefore(h: History, a: Digest, b: Digest, e: Digest)
    requires SideSupported(h, a) && SideSupported(h, b) && Reaches(h, b, a) && CommonAncestor(h, a, b, e)
  {
    var r := Round(h, b, a);
    || r < Round(h, a, e) || r < Round(h, b, e)
    || (r == Round(h, b, e) && r > 0 && ListedFirst(NextParents(h, Walk(h, b, r - 1)), a, e))
  }

  lemma {:induction false} SoonerThanProper(h: History, a: Digest, b: Digest, e: Digest)
    requires SideSupported(h, a) && SideSupported(h, b) && a != b && Reaches(h, b, a)
    requires CommonAncestor(h, a, b, e) && e != a
    ensures Reaches(h, a, a) && (Sooner(h, a, b, a, e) <==> ReachedBefore(h, a, b, e))
  {
    ReachesSelf(h, a);
    SeenAmongParents(h, a, a);
    SeenAmongParents(h, b, a);
    SeenAmongParents(h, a, e);
    var r := Round(h, b, a);
    assert BothAt(h, a, b, a) == 2 * r;
    assert LookedAt(h, a, b, 2 * r) == NextParents(h, Walk(h, b, r - 1));
  }

  /** If `a` is an ancestor of `b`, it is returned if and only if the walk from `b`
      gets to it before both walks have seen some proper ancestor of `a`. */
  lemma {:induction false} AncestorReturnedIff(h: History, a: Digest, b: Digest)
    requires Supported(h, a, b) && a != b && Reaches(h, b, a)
    ensures SideSupported(h, a) && SideSupported(h, b)
    ensures forall e :: Reaches(h, a, e) ==> CommonAncestor(h, a, b, e)
    ensures Lca(h, a, b) == Common(a) <==> forall e :: Reaches(h, a, e) && e != a ==> ReachedBefore(h, a, b, e)
  {
    LcaIsSoonest(h, a, b, a);
    ReachesSelf(h, a);
    forall e | Reaches(h, a, e)
      ensures CommonAncestor(h, a, b, e)
    {
      ReachesOver(h, b, a, e);
    }
    forall e | CommonAncestor(h, a, b, e) && e != a
      ensures Sooner(h, a, b, a, e) <==> ReachedBefore(h, a, b, e)
    {
      SoonerThanProper(h, a, b, e);
    }
  }

  /** The walk from `a` gets to its ancestor `b` before both walks have seen `e`;
      B has the later turn in a round. */
  ghost predicate OtherReachedBefore(h: History, a: Digest, b: Digest, e: Digest)
    requires SideSupported(h, a) && SideSupported(h, b) && Reaches(h, a, b) && CommonAncestor(h, a, b, e)
  {
    var r := Round(h, a, b);
    || r < Round(h, a, e) || r <= Round(h, b, e)
    || (r == Round(h, a, e) && r > 0 && ListedFirst(NextParents(h, Walk(h, a, r - 1)), b, e))
  }

  lemma {:induction false} OtherSoonerThanProper(h: History, a: Digest, b: Digest, e: Digest)
    requires SideSupported(h, a) && SideSupported(h, b) && a != b && Reaches(h, a, b)
    requires CommonAncestor(h, a, b, e) && e != b
    ensures Reaches(h, b, b) && (Sooner(h, a, b, b, e) <==> OtherReachedBefore(h, a, b, e))
  {
    ReachesSelf(h, b);
    SeenAmongParents(h, b, b);
    SeenAmongParents(h, a, b);
    SeenAmongParents(h, b, e);
    var r := Round(h, a, b);
    assert BothAt(h, a, b, b) == 2 * r - 1;
    assert LookedAt(h, a, b, 2 * r - 1) == NextParents(h, Walk(h, a, r - 1));
  }

  /** The same for `b`, an ancestor of `a`. */
  lemma {:induction false} OtherAncestorReturnedIff(h: History, a: Digest, b: Digest)
    requires Supported(h, a, b) && a != b && Reaches(h, a, b)
    ensures SideSupported(h, a) && SideSupported(h, b)
    ensures forall e :: Reaches(h, b, e) ==> CommonAncestor(h, a, b, e)
    ensures Lca(h, a, b) == Common(b) <==> forall e :: Reaches(h, b, e) && e != b ==> OtherReachedBefore(h, a, b, e)
  {
    LcaIsSoonest(h, a, b, b);
    ReachesSelf(h, b);
    forall e | Reaches(h, b, e)
      ensures CommonAncestor(h, a, b, e)
    {
      ReachesOver(h, a, b, e);
    }
    forall e | CommonAncestor(h, a, b, e) && e != b
      ensures Sooner(h, a, b, b, e) <==> OtherReachedBefore(h, a, b, e)
    {
      OtherSoonerThanProper(h, a, b, e);
    }
  }

  lemma {:induction false} ReachesOver(h: History, a: Digest, n: Digest, d: Digest)
    requires Reaches(h, a, n) && Reaches(h, n, d)
    ensures Reaches(h, a, d)
  {
    var up :| IsPath(h, up, a, n);
    var on :| IsPath(h, on, n, d);
    var path := up + on[1..];
    assert IsPath(h, path, a, d);
  }

  /** The result is lowest if and only if some lowest common ancestor comes sooner
      than every common ancestor that is not lowest. */
  lemma {:induction false} LowestIffSooner(h: History, a: Digest, b: Digest)
    requires Supported(h, a, b) && a != b && Lca(h, a, b).Common?
    ensures SideSupported(h, a) && SideSupported(h, b)
    ensures Lowest(h, a, b, Lca(h, a, b).d) <==> exists d :: LowestComesFirst(h, a, b, d)
  {
    var r := Lca(h, a, b).d;
    LcaIsSoonest(h, a, b, r);
    if Lowest(h, a, b, r) {
      assert LowestComesFirst(h, a, b, r);
    }
    if d :| LowestComesFirst(h, a, b, d) && !Lowest(h, a, b, r) {
      SoonerOneWay(h, a, b, d, r);
    }
  }

  ghost predicate LowestComesFirst(h: History, a: Digest, b: Digest, d: Digest)
    requires SideSupported(h, a) && SideSupported(h, b)
  {
    && CommonAncestor(h, a, b, d) && Lowest(h, a, b, d)
    && forall e :: CommonAncestor(h, a, b, e) && !Lowest(h, a, b, e) ==> Sooner(h, a, b, d, e)
  }
}
