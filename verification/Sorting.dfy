/** Sequences sorted by a strict order: what the two sort routines of the standard library promise, and
    what follows from that alone. */
module Sorting {

  predicate SortedBy<T>(lt: (T, T) -> bool, s: seq<T>) {
    forall i, j :: 0 <= i < j < |s| ==> lt(s[i], s[j])
  }

  ghost predicate Asymmetric<T(!new)>(lt: (T, T) -> bool) {
    forall x, y :: lt(x, y) ==> !lt(y, x)
  }

  ghost predicate SameElements<T(!new)>(s: seq<T>, t: seq<T>) {
    forall x :: x in s <==> x in t
  }

  /** A strictly sorted sequence is determined by its elements. */
  lemma {:induction false} SortedUnique<T(!new)>(lt: (T, T) -> bool, s: seq<T>, t: seq<T>)
    requires Asymmetric(lt) && SortedBy(lt, s) && SortedBy(lt, t) && SameElements(s, t)
    ensures s == t
  {
    assert s != [] ==> s[0] in t;
    assert t != [] ==> t[0] in s;
    if s != [] {
      assert s[0] == t[0];
      forall x
        ensures x in s[1..] <==> x in t[1..]
      {
        TailMembers(lt, s, x);
        TailMembers(lt, t, x);
      }
      SortedUnique(lt, s[1..], t[1..]);
      assert s == [s[0]] + s[1..] && t == [t[0]] + t[1..];
    }
  }

  lemma {:induction false} TailMembers<T(!new)>(lt: (T, T) -> bool, s: seq<T>, x: T)
    requires Asymmetric(lt) && SortedBy(lt, s) && s != []
    ensures x in s[1..] <==> x in s && x != s[0]
  {
    if x in s[1..] {
      var i :| 0 <= i < |s| - 1 && s[1..][i] == x;
      assert lt(s[0], s[i + 1]);
    }
  }

  function Filter<T>(p: T -> bool, s: seq<T>): seq<T> {
    if s == [] then [] else (if p(s[0]) then [s[0]] else []) + Filter(p, s[1..])
  }

  lemma {:induction false} FilterMembers<T>(p: T -> bool, s: seq<T>, x: T)
    ensures x in Filter(p, s) <==> x in s && p(x)
  {
    if s != [] {
      FilterMembers(p, s[1..], x);
    }
  }

  lemma {:induction false} FilterSorted<T>(lt: (T, T) -> bool, p: T -> bool, s: seq<T>)
    requires SortedBy(lt, s)
    ensures SortedBy(lt, Filter(p, s))
  {
    if s != [] {
      FilterSorted(lt, p, s[1..]);
      var rest := Filter(p, s[1..]);
      forall j | 0 <= j < |rest|
        ensures lt(s[0], rest[j])
      {
        FilterMembers(p, s[1..], rest[j]);
      }
    }
  }

  function Elements<T>(s: seq<T>): set<T> {
    set x | x in s
  }

  /** The members of `s` that come before `x`. */
  function Ahead<T>(lt: (T, T) -> bool, s: seq<T>, x: T): set<T> {
    set y | y in s && lt(y, x)
  }

  /** In a strictly sorted sequence an element's position is the number of elements before it. */
  lemma {:induction false} PositionCounts<T(!new)>(lt: (T, T) -> bool, s: seq<T>, i: nat)
    requires Asymmetric(lt) && SortedBy(lt, s) && i < |s|
    ensures |Ahead(lt, s, s[i])| == i
  {
    PrefixCounts(lt, s, i);
    forall y
      ensures y in Ahead(lt, s, s[i]) <==> y in s[..i]
    {
      if y in s {
        var j :| 0 <= j < |s| && s[j] == y;
        assert j < i ==> lt(s[j], s[i]);
        assert j > i ==> lt(s[i], s[j]);
      }
    }
    assert Ahead(lt, s, s[i]) == Elements(s[..i]);
  }

  lemma {:induction false} PrefixCounts<T(!new)>(lt: (T, T) -> bool, s: seq<T>, i: nat)
    requires Asymmetric(lt) && SortedBy(lt, s) && i <= |s|
    ensures |Elements(s[..i])| == i
  {
    if i > 0 {
      PrefixCounts(lt, s, i - 1);
      var x := s[i - 1];
      forall j | 0 <= j < i - 1
        ensures s[j] != x
      {
        assert lt(s[j], x);
      }
      assert s[..i] == s[..i - 1] + [x];
      assert x !in Elements(s[..i - 1]);
      assert Elements(s[..i]) == Elements(s[..i - 1]) + {x};
    }
  }

  /** If fewer elements are ahead of `s[i]` in the new order, it has not moved back. */
  lemma {:induction false} FewerAhead<T(!new)>(lt: (T, T) -> bool, s: seq<T>, i: nat, lt': (T, T) -> bool, t: seq<T>, j: nat)
    requires Asymmetric(lt) && SortedBy(lt, s) && i < |s|
    requires Asymmetric(lt') && SortedBy(lt', t) && j < |t| && t[j] == s[i]
    requires forall y :: y in t && lt'(y, t[j]) ==> y in s && lt(y, s[i])
    ensures j <= i
  {
    PositionCounts(lt, s, i);
    PositionCounts(lt', t, j);
    SubsetSize(Ahead(lt', t, t[j]), Ahead(lt, s, s[i]));
  }

  lemma {:induction false} SubsetSize<T>(a: set<T>, b: set<T>)
    requires a <= b
    ensures |a| <= |b|
  {
    if a != {} {
      var x :| x in a;
      SubsetSize(a - {x}, b - {x});
    }
  }

  predicate Distinct<T(==)>(s: seq<T>) {
    forall i, j :: 0 <= i < j < |s| ==> s[i] != s[j]
  }

  lemma {:induction false} DistinctCountsOnce<T>(s: seq<T>, x: T)
    requires Distinct(s)
    ensures multiset(s)[x] <= 1
  {
    if s != [] {
      DistinctCountsOnce(s[1..], x);
      assert s == [s[0]] + s[1..];
      if x == s[0] {
        assert x !in s[1..];
      }
    }
  }

  /** A permutation of distinct elements has distinct elements, and the same ones. */
  lemma {:induction false} PermutationKeeps<T(!new)>(s: seq<T>, t: seq<T>)
    requires Distinct(s) && multiset(s) == multiset(t)
    ensures Distinct(t) && SameElements(s, t)
  {
    forall i, j | 0 <= i < j < |t|
      ensures t[i] != t[j]
    {
      DistinctCountsOnce(s, t[j]);
      assert t == t[..j] + t[j..];
      assert multiset(t)[t[j]] == multiset(t[..j])[t[j]] + multiset(t[j..])[t[j]];
      assert t[i] in t[..j] && t[j] in t[j..];
    }
    forall x
      ensures x in s <==> x in t
    {
      assert x in s <==> x in multiset(s);
      assert x in t <==> x in multiset(t);
    }
  }

  lemma {:induction false} RemoveOne<T>(s: seq<T>, i: nat)
    requires i < |s|
    ensures multiset(s) == multiset(s[..i] + s[i + 1..]) + multiset{s[i]}
  {
    assert s == s[..i] + [s[i]] + s[i + 1..];
  }

  lemma {:induction false} CancelOne<T>(a: multiset<T>, b: multiset<T>, x: T)
    requires a + multiset{x} == b + multiset{x}
    ensures a == b
  {
    assert a == a + multiset{x} - multiset{x};
    assert b == b + multiset{x} - multiset{x};
  }

  function Map<T, U>(f: T -> U, s: seq<T>): seq<U> {
    seq(|s|, i requires 0 <= i < |s| => f(s[i]))
  }

  lemma {:induction false} MapRemoves<T, U>(f: T -> U, s: seq<T>, i: nat)
    requires i < |s|
    ensures multiset(Map(f, s)) == multiset(Map(f, s[..i] + s[i + 1..])) + multiset{f(s[i])}
  {
    RemoveOne(Map(f, s), i);
    assert Map(f, s)[..i] + Map(f, s)[i + 1..] == Map(f, s[..i] + s[i + 1..]);
  }

  /** Where the head of one permutation is in another. */
  lemma {:induction false} FindHead<T>(s: seq<T>, t: seq<T>) returns (i: nat, u: seq<T>)
    requires multiset(s) == multiset(t) && s != []
    ensures i < |t| && t[i] == s[0] && u == t[..i] + t[i + 1..] && multiset(s[1..]) == multiset(u)
  {
    assert s[0] in multiset(t);
    i :| 0 <= i < |t| && t[i] == s[0];
    u := t[..i] + t[i + 1..];
    RemoveOne(t, i);
    assert s == [s[0]] + s[1..];
    CancelOne(multiset(s[1..]), multiset(u), s[0]);
  }

  /** Mapping keeps permutations. */
  lemma {:induction false} MapPermutes<T, U>(f: T -> U, s: seq<T>, t: seq<T>)
    requires multiset(s) == multiset(t)
    ensures multiset(Map(f, s)) == multiset(Map(f, t))
  {
    if s == [] {
      assert |multiset(t)| == 0;
    } else {
      hide Map;
      var i, u := FindHead(s, t);
      MapPermutes(f, s[1..], u);
      assert s[1..] == s[..0] + s[1..];
      MapRemoves(f, s, 0);
      MapRemoves(f, t, i);
    }
  }

  /** The places, in order, at which `p` holds: what picking out of a list means. */
  ghost predicate PlacesOf<T>(places: seq<nat>, p: T -> bool, s: seq<T>) {
    && (forall i, j :: 0 <= i < j < |places| ==> places[i] < places[j])
    && (forall i :: i in places <==> 0 <= i < |s| && p(s[i]))
  }

  lemma {:induction false} OneMorePlace<T>(places: seq<nat>, p: T -> bool, s: seq<T>, n: nat)
    requires n < |s| && PlacesOf(places, p, s[..n])
    ensures PlacesOf(if p(s[n]) then places + [n] else places, p, s[..n + 1])
  {
    var more := if p(s[n]) then places + [n] else places;
    forall i, j | 0 <= i < j < |more|
      ensures more[i] < more[j]
    {
      assert j == |places| ==> places[i] in places;
    }
  }

  /** The images of the elements at which `p` holds, in order. */
  function Pick<T, U>(p: T -> bool, f: T -> U, s: seq<T>): seq<U> {
    if s == [] then [] else
    Pick(p, f, s[..|s| - 1]) + if p(s[|s| - 1]) then [f(s[|s| - 1])] else []
  }

  lemma {:induction false} PickAre<T, U>(p: T -> bool, f: T -> U, s: seq<T>) returns (places: seq<nat>)
    ensures PlacesOf(places, p, s) && |Pick(p, f, s)| == |places|
    ensures forall k :: 0 <= k < |places| ==> places[k] < |s| && Pick(p, f, s)[k] == f(s[places[k]])
  {
    places := [];
    if s != [] {
      var n := |s| - 1;
      var init := PickAre(p, f, s[..n]);
      assert s[..n + 1] == s;
      OneMorePlace(init, p, s, n);
      places := if p(s[n]) then init + [n] else init;
    }
  }
}
