/** Orders on text, and the stable sorts of the standard
    library: what a sorted list is, that a sort returns one with the same
    elements, and that elements which tie keep their order. */
module Sorting {
  /** Total and transitive, so also reflexive; elements may tie. */
  ghost predicate TotalPreorder<T(!new)>(le: (T, T) -> bool) {
    && (forall x, y :: le(x, y) || le(y, x))
    && (forall x, y, z :: le(x, y) && le(y, z) ==> le(x, z))
  }

  ghost predicate Sorted<T>(s: seq<T>, le: (T, T) -> bool) {
    forall i, j :: 0 <= i < j < |s| ==> le(s[i], s[j])
  }

  function Insert<T>(x: T, s: seq<T>, le: (T, T) -> bool): seq<T> {
    if s == [] || le(x, s[0]) then [x] + s else [s[0]] + Insert(x, s[1..], le)
  }

  /** The result of the library's stable sorts. */
  function Sort<T>(s: seq<T>, le: (T, T) -> bool): seq<T> {
    if s == [] then [] else Insert(s[0], Sort(s[1..], le), le)
  }

  lemma {:induction false} InsertElements<T>(x: T, s: seq<T>, le: (T, T) -> bool)
    ensures multiset(Insert(x, s, le)) == multiset(s) + multiset{x}
  {
    if !(s == [] || le(x, s[0])) {
      InsertElements(x, s[1..], le);
      assert s == [s[0]] + s[1..];
    }
  }

  lemma {:induction false} InsertSorted<T(!new)>(x: T, s: seq<T>, le: (T, T) -> bool)
    requires TotalPreorder(le) && Sorted(s, le)
    ensures Sorted(Insert(x, s, le), le)
  {
    if s == [] {
    } else if le(x, s[0]) {
      forall y | y in s
        ensures le(x, y)
      {
        var j :| 0 <= j < |s| && s[j] == y;
        assert le(s[0], s[j]);
      }
    } else {
      InsertSorted(x, s[1..], le);
      InsertElements(x, s[1..], le);
      var r := Insert(x, s[1..], le);
      forall y | y in r
        ensures le(s[0], y)
      {
        assert y in multiset(r);
        assert y == x || y in s[1..];
      }
    }
  }

  lemma {:induction false} SortSorts<T(!new)>(s: seq<T>, le: (T, T) -> bool)
    requires TotalPreorder(le)
    ensures Sorted(Sort(s, le), le) && multiset(Sort(s, le)) == multiset(s)
    ensures |Sort(s, le)| == |s|
    ensures forall x :: x in Sort(s, le) <==> x in s
  {
    if s != [] {
      SortSorts(s[1..], le);
      InsertSorted(s[0], Sort(s[1..], le), le);
      InsertElements(s[0], Sort(s[1..], le), le);
      assert s == [s[0]] + s[1..];
    }
    SameElements(s, Sort(s, le));
  }

  lemma {:induction false} SameElements<T>(s: seq<T>, t: seq<T>)
    requires multiset(s) == multiset(t)
    ensures |s| == |t| && forall x :: x in s <==> x in t
  {
    assert |multiset(s)| == |s| && |multiset(t)| == |t|;
    forall x
      ensures x in s <==> x in t
    {
      assert x in s <==> x in multiset(s);
      assert x in t <==> x in multiset(t);
    }
  }

  function Filter<T>(s: seq<T>, keep: T -> bool): seq<T> {
    if s == [] then [] else (if keep(s[0]) then [s[0]] else []) + Filter(s[1..], keep)
  }

  /** Elements that tie with one another: a class the sort may not reorder. */
  ghost predicate TieClass<T(!new)>(keep: T -> bool, le: (T, T) -> bool) {
    forall x, y :: keep(x) && keep(y) ==> le(x, y)
  }

  lemma {:induction false} InsertStable<T(!new)>(x: T, s: seq<T>, le: (T, T) -> bool, keep: T -> bool)
    requires TieClass(keep, le)
    ensures Filter(Insert(x, s, le), keep) == (if keep(x) then [x] else []) + Filter(s, keep)
  {
    if s == [] || le(x, s[0]) {
      FilterCons(x, s, keep);
    } else {
      InsertStable(x, s[1..], le, keep);
      FilterCons(s[0], Insert(x, s[1..], le), keep);
      if keep(x) {
        assert !keep(s[0]);
      }
    }
  }

  lemma {:induction false} FilterAppend<T>(s: seq<T>, t: seq<T>, keep: T -> bool)
    ensures Filter(s + t, keep) == Filter(s, keep) + Filter(t, keep)
  {
    if s == [] {
      assert s + t == t;
    } else {
      FilterAppend(s[1..], t, keep);
      assert s + t == [s[0]] + (s[1..] + t);
      FilterCons(s[0], s[1..] + t, keep);
    }
  }

  lemma {:induction false} FilterCons<T>(x: T, s: seq<T>, keep: T -> bool)
    ensures Filter([x] + s, keep) == (if keep(x) then [x] else []) + Filter(s, keep)
  {
    assert ([x] + s)[1..] == s;
  }

  lemma {:induction false} SortStable<T(!new)>(s: seq<T>, le: (T, T) -> bool, keep: T -> bool)
    requires TieClass(keep, le)
    ensures Filter(Sort(s, le), keep) == Filter(s, keep)
  {
    if s != [] {
      SortStable(s[1..], le, keep);
      InsertStable(s[0], Sort(s[1..], le), le, keep);
    }
  }

  /** No two different elements of `s` tie. */
  ghost predicate NoTies<T>(s: seq<T>, le: (T, T) -> bool) {
    forall i, j :: 0 <= i < |s| && 0 <= j < |s| && le(s[i], s[j]) && le(s[j], s[i]) ==> s[i] == s[j]
  }

  /** Without ties there is one sorted arrangement, so the order in which the
      elements arrive does not matter. */
  lemma {:induction false} SortedUnique<T>(s: seq<T>, t: seq<T>, le: (T, T) -> bool)
    requires Sorted(s, le) && Sorted(t, le) && multiset(s) == multiset(t)
    requires NoTies(s, le)
    ensures s == t
  {
    SameElements(s, t);
    if s != [] {
      HeadsAgree(s, t, le);
      TailElements(s);
      TailElements(t);
      NoTiesTail(s, le);
      SortedUnique(s[1..], t[1..], le);
      assert s == [s[0]] + s[1..] && t == [t[0]] + t[1..];
    }
  }

  lemma {:induction false} TailElements<T>(s: seq<T>)
    requires s != []
    ensures multiset(s[1..]) == multiset(s) - multiset{s[0]}
  {
    assert s == [s[0]] + s[1..];
  }

  lemma {:induction false} NoTiesTail<T>(s: seq<T>, le: (T, T) -> bool)
    requires s != [] && NoTies(s, le)
    ensures NoTies(s[1..], le)
  {
  }

  lemma {:induction false} HeadsAgree<T>(s: seq<T>, t: seq<T>, le: (T, T) -> bool)
    requires Sorted(s, le) && Sorted(t, le) && NoTies(s, le)
    requires s != [] && t != [] && forall x :: x in s <==> x in t
    ensures s[0] == t[0]
  {
    assert t[0] in s && s[0] in t;
    var i :| 0 <= i < |s| && s[i] == t[0];
    var j :| 0 <= j < |t| && t[j] == s[0];
    if i > 0 && j > 0 {
      assert le(s[0], s[i]) && le(t[0], t[j]);
    }
  }

  lemma {:induction false} SortUnique<T(!new)>(s: seq<T>, t: seq<T>, le: (T, T) -> bool)
    requires TotalPreorder(le) && NoTies(s, le) && multiset(s) == multiset(t)
    ensures Sort(s, le) == Sort(t, le)
  {
    SortSorts(s, le);
    SortSorts(t, le);
    NoTiesPermuted(s, Sort(s, le), le);
    SortedUnique(Sort(s, le), Sort(t, le), le);
  }

  lemma {:induction false} NoTiesPermuted<T>(s: seq<T>, t: seq<T>, le: (T, T) -> bool)
    requires NoTies(s, le) && multiset(s) == multiset(t)
    ensures NoTies(t, le)
  {
    SameElements(s, t);
    forall i, j | 0 <= i < |t| && 0 <= j < |t| && le(t[i], t[j]) && le(t[j], t[i])
      ensures t[i] == t[j]
    {
      assert t[i] in s && t[j] in s;
    }
  }

  lemma {:induction false} SortFixed<T>(s: seq<T>, le: (T, T) -> bool)
    requires Sorted(s, le)
    ensures Sort(s, le) == s
  {
    if s != [] {
      SortFixed(s[1..], le);
      assert |s| > 1 ==> le(s[0], s[1]);
    }
  }

  /** The elements of a set in strictly ascending order. */
  ghost predicate Lists<T(!new)>(s: seq<T>, elements: set<T>, le: (T, T) -> bool) {
    && Sorted(s, le)
    && (forall i, j :: 0 <= i < j < |s| ==> s[i] != s[j])
    && (forall x :: x in s <==> x in elements)
  }

  method SortSet<T(==, !new)>(elements: set<T>, le: (T, T) -> bool) returns (r: seq<T>)
    requires TotalPreorder(le)
    ensures Lists(r, elements, le)
  {
    var found: seq<T> := [];
    var rest := elements;
    while rest != {}
      invariant rest <= elements
      invariant forall x :: x in found <==> x in elements && x !in rest
      invariant forall i, j :: 0 <= i < j < |found| ==> found[i] != found[j]
    {
      var x :| x in rest;
      found := found + [x];
      rest := rest - {x};
    }
    r := Sort(found, le);
    SortSorts(found, le);
    DistinctPermuted(found, r);
  }

  lemma {:induction false} ListsUnique<T(!new)>(s: seq<T>, t: seq<T>, elements: set<T>, le: (T, T) -> bool)
    requires Lists(s, elements, le) && Lists(t, elements, le)
    requires forall x, y :: le(x, y) && le(y, x) ==> x == y
    ensures s == t
  {
    forall x
      ensures multiset(s)[x] == multiset(t)[x]
    {
      OnceInDistinct(s, x);
      OnceInDistinct(t, x);
      assert x in multiset(s) <==> x in s;
      assert x in multiset(t) <==> x in t;
      assert x in s <==> x in t;
    }
    assert multiset(s) == multiset(t);
    SortedUnique(s, t, le);
  }

  lemma {:induction false} ListsSorted<T(!new)>(elements: set<T>, le: (T, T) -> bool)
    requires TotalPreorder(le)
    ensures Lists(Sort(ListOf(elements), le), elements, le)
  {
    ListOfIs(elements);
    SortSorts(ListOf(elements), le);
    DistinctPermuted(ListOf(elements), Sort(ListOf(elements), le));
  }

  lemma {:induction false} DistinctPermuted<T>(s: seq<T>, t: seq<T>)
    requires multiset(s) == multiset(t)
    requires forall i, j :: 0 <= i < j < |s| ==> s[i] != s[j]
    ensures forall i, j :: 0 <= i < j < |t| ==> t[i] != t[j]
  {
    forall i, j | 0 <= i < j < |t|
      ensures t[i] != t[j]
    {
      if t[i] == t[j] {
        assert t == t[..j] + [t[j]] + t[j + 1..];
        assert multiset(t[..j])[t[i]] >= 1 by {
          assert t[..j][i] == t[i];
          assert t[i] in multiset(t[..j]);
        }
        assert multiset(t)[t[i]] >= 2;
        OnceInDistinct(s, t[i]);
      }
    }
  }

  lemma {:induction false} OnceInDistinct<T>(s: seq<T>, x: T)
    requires forall i, j :: 0 <= i < j < |s| ==> s[i] != s[j]
    ensures multiset(s)[x] <= 1
  {
    if s != [] {
      assert s == [s[0]] + s[1..];
      OnceInDistinct(s[1..], x);
      assert s[0] !in s[1..];
    }
  }

  // ---------- text ----------

  /** Order of `&str`: UTF-8 bytes compare as code points do. */
  predicate StrLe(a: string, b: string) {
    a == "" || (b != "" && (a[0] < b[0] || (a[0] == b[0] && StrLe(a[1..], b[1..]))))
  }

  lemma {:induction false} StrTotal(a: string, b: string)
    ensures StrLe(a, b) || StrLe(b, a)
    ensures StrLe(a, b) && StrLe(b, a) ==> a == b
  {
    if a != "" && b != "" {
      StrTotal(a[1..], b[1..]);
      if a[0] == b[0] && a[1..] == b[1..] {
        assert a == [a[0]] + a[1..] && b == [b[0]] + b[1..];
      }
    }
  }

  lemma {:induction false} StrTransitive(a: string, b: string, c: string)
    requires StrLe(a, b) && StrLe(b, c)
    ensures StrLe(a, c)
  {
    if a != "" && a[0] == b[0] == c[0] {
      StrTransitive(a[1..], b[1..], c[1..]);
    }
  }

  predicate Ascending(keys: seq<string>) {
    forall i, j :: 0 <= i < j < |keys| ==> StrLe(keys[i], keys[j]) && keys[i] != keys[j]
  }

  /** The keys of an ordered map or set, as iteration delivers them. */
  method SortedKeys(keys: set<string>) returns (r: seq<string>)
    ensures r == Ordered(keys)
    ensures Ascending(r) && forall k :: k in r <==> k in keys
  {
    r := [];
    var rest := keys;
    while rest != {}
      invariant rest <= keys && Ascending(r)
      invariant forall k :: k in r <==> k in keys && k !in rest
    {
      var k :| k in rest;
      r := InsertKey(k, r);
      rest := rest - {k};
    }
    AscendingUnique(r, Ordered(keys));
  }

  ghost function ListOf<T(!new)>(s: set<T>): seq<T> {
    if s == {} then [] else var x :| x in s; ListOf(s - {x}) + [x]
  }

  /** The one strictly ascending list of a set's elements. */
  ghost function Ordered(s: set<string>): (r: seq<string>)
    ensures Ascending(r) && forall k :: k in r <==> k in s
  {
    SortedListIs(s);
    Sort(ListOf(s), StrLe)
  }

  lemma {:induction false} ListOfIs<T(!new)>(s: set<T>)
    ensures forall k :: k in ListOf(s) <==> k in s
    ensures forall i, j :: 0 <= i < j < |ListOf(s)| ==> ListOf(s)[i] != ListOf(s)[j]
  {
    if s != {} {
      var n := |ListOf(s)| - 1;
      var x := ListOf(s)[n];
      assert ListOf(s) == ListOf(s - {x}) + [x];
      ListOfIs(s - {x});
    }
  }

  lemma {:induction false} SortedListIs(s: set<string>)
    ensures Ascending(Sort(ListOf(s), StrLe)) && forall k :: k in Sort(ListOf(s), StrLe) <==> k in s
  {
    forall x, y
      ensures StrLe(x, y) || StrLe(y, x)
    {
      StrTotal(x, y);
    }
    forall x, y, z | StrLe(x, y) && StrLe(y, z)
      ensures StrLe(x, z)
    {
      StrTransitive(x, y, z);
    }
    ListsSorted(s, StrLe);
  }

  method InsertKey(k: string, s: seq<string>) returns (r: seq<string>)
    requires Ascending(s) && k !in s
    ensures Ascending(r) && forall x :: x in r <==> x == k || x in s
  {
    var i := 0;
    while i < |s| && StrLe(s[i], k)
      invariant i <= |s|
      invariant forall j :: 0 <= j < i ==> StrLe(s[j], k)
    {
      i := i + 1;
    }
    forall j | i <= j < |s|
      ensures StrLe(k, s[j])
    {
      StrTotal(s[i], k);
      if i < j {
        StrTransitive(k, s[i], s[j]);
      }
    }
    r := s[..i] + [k] + s[i..];
    forall x
      ensures x in r <==> x == k || x in s
    {
      assert s == s[..i] + s[i..];
    }
  }

  lemma {:induction false} AscendingUnique(s: seq<string>, t: seq<string>)
    requires Ascending(s) && Ascending(t) && forall k :: k in s <==> k in t
    ensures s == t
  {
    if s == [] {
      if t != [] {
        HasElement(t);
      }
    } else {
      assert s[0] in t;
      AscendingHeads(s, t);
      assert s == [s[0]] + s[1..] && t == [t[0]] + t[1..];
      forall k
        ensures k in s[1..] <==> k in t[1..]
      {
        assert k in s <==> k in t;
      }
      AscendingUnique(s[1..], t[1..]);
    }
  }

  lemma {:induction false} HasElement(t: seq<string>)
    requires t != []
    ensures exists k :: k in t
  {
    assert t[0] in t;
  }

  lemma {:induction false} AscendingHeads(s: seq<string>, t: seq<string>)
    requires Ascending(s) && Ascending(t) && forall k :: k in s <==> k in t
    requires s != [] && t != []
    ensures s[0] == t[0]
  {
    assert t[0] in s && s[0] in t;
    var i :| 0 <= i < |s| && s[i] == t[0];
    var j :| 0 <= j < |t| && t[j] == s[0];
    if i > 0 && j > 0 {
      assert StrLe(s[0], s[i]) && StrLe(t[0], t[j]);
      StrTotal(s[0], t[0]);
    }
  }
}
