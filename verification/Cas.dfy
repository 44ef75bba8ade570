/** The content-addressed store as callers see it: a map from digests to bytes. */
module Cas {
  import opened Bits
  import opened Base

  type Blobs = map<Digest, Bytes>

  /** What `put` leaves behind: an entry that is already there is kept. */
  function Stored(p: Prim, m: Blobs, b: Bytes): Blobs {
    if Of(p, b) in m then m else m[Of(p, b) := b]
  }

  function Lookup(m: Blobs, d: Digest): Option<Bytes> {
    if d in m then Some(m[d]) else None
  }

  /** Every key is the digest of its value. */
  ghost predicate Keyed(p: Prim, m: Blobs) {
    forall d :: d in m ==> Of(p, m[d]) == d
  }

  /** The store after putting a whole list of byte strings. */
  function StoredAll(p: Prim, m: Blobs, bs: seq<Bytes>): Blobs
    decreases |bs|
  {
    if bs == [] then m else StoredAll(p, Stored(p, m, bs[0]), bs[1..])
  }

  lemma {:induction false} StoredAllAppend(p: Prim, m: Blobs, bs: seq<Bytes>, b: Bytes)
    ensures StoredAll(p, m, bs + [b]) == Stored(p, StoredAll(p, m, bs), b)
    decreases |bs|
  {
    if bs == [] {
      assert (bs + [b])[1..] == [];
      assert StoredAll(p, m, bs + [b]) == StoredAll(p, Stored(p, m, b), []);
    } else {
      assert (bs + [b])[1..] == bs[1..] + [b];
      StoredAllAppend(p, Stored(p, m, bs[0]), bs[1..], b);
    }
  }

  lemma {:induction false} StoredAllConcat(p: Prim, m: Blobs, bs: seq<Bytes>, more: seq<Bytes>)
    ensures StoredAll(p, m, bs + more) == StoredAll(p, StoredAll(p, m, bs), more)
    decreases |bs|
  {
    if bs == [] {
      assert bs + more == more;
    } else {
      assert (bs + more)[1..] == bs[1..] + more;
      StoredAllConcat(p, Stored(p, m, bs[0]), bs[1..], more);
    }
  }

  ghost predicate Extends(m: Blobs, m': Blobs) {
    forall d :: d in m ==> d in m' && m'[d] == m[d]
  }

  lemma {:induction false} StoredGrows(p: Prim, m: Blobs, b: Bytes)
    requires Keyed(p, m)
    ensures Keyed(p, Stored(p, m, b)) && Extends(m, Stored(p, m, b))
    ensures Of(p, b) in Stored(p, m, b)
    ensures Stored(p, m, b).Keys == m.Keys + {Of(p, b)}
  {
  }

  /** A put is read back, unless the digest already belonged to other bytes:
      that would be a collision. */
  lemma {:induction false} PutThenGet(p: Prim, m: Blobs, b: Bytes)
    requires Keyed(p, m)
    requires CollisionFree(p, m.Values + {b})
    ensures Lookup(Stored(p, m, b), Of(p, b)) == Some(b)
  {
    if Of(p, b) in m {
      OfInjective(p, m.Values + {b}, m[Of(p, b)], b);
    }
  }

  lemma {:induction false} StoredKeys(p: Prim, m: Blobs, bs: seq<Bytes>, d: Digest)
    ensures d in StoredAll(p, m, bs) <==> d in m || exists b :: b in bs && d == Of(p, b)
    decreases |bs|
  {
    if bs != [] {
      assert bs == [bs[0]] + bs[1..];
      StoredKeys(p, Stored(p, m, bs[0]), bs[1..], d);
    }
  }

  /** Without collisions a store is determined by its digests. */
  lemma {:induction false} KeysDetermine(p: Prim, m: Blobs, m': Blobs, inputs: set<Bytes>)
    requires Keyed(p, m) && Keyed(p, m') && CollisionFree(p, inputs)
    requires m.Values <= inputs && m'.Values <= inputs && m.Keys == m'.Keys
    ensures m == m'
  {
    forall d | d in m
      ensures m[d] == m'[d]
    {
      OfInjective(p, inputs, m[d], m'[d]);
    }
  }

  /** Puts commute: the order of a list of puts does not matter, nor how often
      a member occurs. */
  lemma {:induction false} PutsCommute(p: Prim, m: Blobs, bs: seq<Bytes>, cs: seq<Bytes>, inputs: set<Bytes>)
    requires Keyed(p, m) && CollisionFree(p, inputs) && m.Values <= inputs
    requires forall b :: b in bs ==> b in inputs
    requires forall b :: b in bs <==> b in cs
    ensures StoredAll(p, m, bs) == StoredAll(p, m, cs)
  {
    StoredAllHolds(p, m, bs, inputs);
    StoredAllHolds(p, m, cs, inputs);
    forall d
      ensures d in StoredAll(p, m, bs) <==> d in StoredAll(p, m, cs)
    {
      StoredKeys(p, m, bs, d);
      StoredKeys(p, m, cs, d);
    }
    KeysDetermine(p, StoredAll(p, m, bs), StoredAll(p, m, cs), inputs);
  }

  /** A list of puts loses nothing and is read back, without collisions. */
  lemma {:induction false} StoredAllHolds(p: Prim, m: Blobs, bs: seq<Bytes>, inputs: set<Bytes>)
    requires Keyed(p, m) && CollisionFree(p, inputs)
    requires m.Values <= inputs && forall b :: b in bs ==> b in inputs
    ensures
      var r := StoredAll(p, m, bs);
      Keyed(p, r) && Extends(m, r) && r.Values <= inputs && forall b :: b in bs ==> Lookup(r, Of(p, b)) == Some(b)
    decreases |bs|
  {
    if bs != [] {
      assert bs == [bs[0]] + bs[1..];
      StoredHolds(p, m, bs[0], inputs);
      StoredAllHolds(p, Stored(p, m, bs[0]), bs[1..], inputs);
    }
  }

  lemma {:induction false} StoredHolds(p: Prim, m: Blobs, b: Bytes, inputs: set<Bytes>)
    requires Keyed(p, m) && CollisionFree(p, inputs) && m.Values <= inputs && b in inputs
    ensures
      var r := Stored(p, m, b);
      Keyed(p, r) && Extends(m, r) && r.Values <= inputs && Lookup(r, Of(p, b)) == Some(b)
  {
    if Of(p, b) in m {
      OfInjective(p, inputs, m[Of(p, b)], b);
    }
  }

  /** `MemBlobStore`: one shared map, filled in place. */
  class MemBlobStore {
    var inner: Blobs

    ghost predicate Valid(p: Prim)
      reads this
    {
      Keyed(p, inner)
    }

    constructor ()
      ensures inner == map[]
    {
      inner := map[];
    }

    method Put(p: Prim, bytes: Bytes) returns (d: Digest)
      requires Valid(p)
      modifies this
      ensures Valid(p) && d == Of(p, bytes)
      ensures inner == Stored(p, old(inner), bytes)
    {
      d := Of(p, bytes);
      if d !in inner {
        inner := inner[d := bytes];
      }
    }

    method Get(d: Digest) returns (r: Option<Bytes>)
      ensures r == Lookup(inner, d)
    {
      if d in inner {
        r := Some(inner[d]);
      } else {
        r := None;
      }
    }

    method Contains(d: Digest) returns (r: bool)
      ensures r == Lookup(inner, d).Some?
    {
      r := d in inner;
    }
  }
}
