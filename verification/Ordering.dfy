/** Python's `sorted`: code-point order on strings, a stable sort, and the sorted listing of a set. */
module Ordering {

  // --- strings -------------------------------------------------------------

  predicate StringLe(a: string, b: string) {
    a == [] || (b != [] && (a[0] < b[0] || (a[0] == b[0] && StringLe(a[1..], b[1..]))))
  }

  lemma StringLeTotal(a: string, b: string)
    ensures StringLe(a, b) || StringLe(b, a)
  {}

  lemma {:induction false} StringLeAntisymmetric(a: string, b: string)
    requires StringLe(a, b) && StringLe(b, a)
    ensures a == b
  {
    if a != [] {
      StringLeAntisymmetric(a[1..], b[1..]);
      assert a == [a[0]] + a[1..] && b == [b[0]] + b[1..];
    }
  }

  lemma {:induction false} StringLeTransitive(a: string, b: string, c: string)
    requires StringLe(a, b) && StringLe(b, c)
    ensures StringLe(a, c)
  {
    if a != [] && a[0] == b[0] == c[0] {
      StringLeTransitive(a[1..], b[1..], c[1..]);
    }
  }

  // --- sorting -------------------------------------------------------------

  ghost predicate Total<T(!new)>(le: (T, T) -> bool) {
    forall x, y :: le(x, y) || le(y, x)
  }

  ghost predicate Transitive<T(!new)>(le: (T, T) -> bool) {
    forall x, y, z :: le(x, y) && le(y, z) ==> le(x, z)
  }

  ghost predicate Antisymmetric<T(!new)>(le: (T, T) -> bool) {
    forall x, y :: le(x, y) && le(y, x) ==> x == y
  }

  ghost predicate AntisymmetricOn<T(!new)>(le: (T, T) -> bool, all: set<T>) {
    forall x, y :: x in all && y in all && le(x, y) && le(y, x) ==> x == y
  }

  ghost predicate TotalOrder<T(!new)>(le: (T, T) -> bool) {
    Total(le) && Transitive(le) && Antisymmetric(le)
  }

  ghost predicate Sorted<T>(le: (T, T) -> bool, s: seq<T>) {
    forall i, j :: 0 <= i < j < |s| ==> le(s[i], s[j])
  }

  ghost predicate Distinct<T>(s: seq<T>) {
    forall i, j :: 0 <= i < j < |s| ==> s[i] != s[j]
  }

  /** Inserts after every element that is not larger, so equal keys keep their order. */
  function InsertBy<T>(le: (T, T) -> bool, s: seq<T>, x: T): seq<T> {
    if s == [] || le(s[|s| - 1], x) then s + [x]
    else InsertBy(le, s[..|s| - 1], x) + [s[|s| - 1]]
  }

  function SortBy<T>(le: (T, T) -> bool, s: seq<T>): seq<T> {
    if s == [] then [] else InsertBy(le, SortBy(le, s[..|s| - 1]), s[|s| - 1])
  }

  lemma {:induction false} InsertByPermutes<T(!new)>(le: (T, T) -> bool, s: seq<T>, x: T)
    ensures multiset(InsertBy(le, s, x)) == multiset(s) + multiset{x}
  {
    if s != [] && !le(s[|s| - 1], x) {
      InsertByPermutes(le, s[..|s| - 1], x);
      assert s == s[..|s| - 1] + [s[|s| - 1]];
    }
  }

  /** Sorting neither adds, drops nor repeats an element. */
  lemma {:induction false} SortByPermutes<T(!new)>(le: (T, T) -> bool, s: seq<T>)
    ensures multiset(SortBy(le, s)) == multiset(s)
  {
    if s != [] {
      SortByPermutes(le, s[..|s| - 1]);
      InsertByPermutes(le, SortBy(le, s[..|s| - 1]), s[|s| - 1]);
      assert s == s[..|s| - 1] + [s[|s| - 1]];
    }
  }

  lemma MultisetMembers<T(!new)>(a: seq<T>, b: seq<T>)
    requires multiset(a) == multiset(b)
    ensures |a| == |b|
    ensures forall x :: x in a <==> x in b
  {
    assert |multiset(a)| == |a| && |multiset(b)| == |b|;
    forall x ensures x in a <==> x in b {
      assert x in a <==> x in multiset(a);
      assert x in b <==> x in multiset(b);
    }
  }

  lemma {:induction false} InsertBySorted<T(!new)>(le: (T, T) -> bool, s: seq<T>, x: T)
    requires Total(le) && Transitive(le) && Sorted(le, s)
    ensures Sorted(le, InsertBy(le, s, x))
  {
    if s != [] && !le(s[|s| - 1], x) {
      var front := s[..|s| - 1];
      InsertBySorted(le, front, x);
      var r := InsertBy(le, front, x);
      InsertByPermutes(le, front, x);
      assert multiset(r) == multiset(front + [x]);
      MultisetMembers(r, front + [x]);
      forall i | 0 <= i < |r|
        ensures le(r[i], s[|s| - 1])
      {
        assert r[i] in front + [x];
      }
    }
  }

  lemma {:induction false} SortBySorted<T(!new)>(le: (T, T) -> bool, s: seq<T>)
    requires Total(le) && Transitive(le)
    ensures Sorted(le, SortBy(le, s))
  {
    if s != [] {
      SortBySorted(le, s[..|s| - 1]);
      InsertBySorted(le, SortBy(le, s[..|s| - 1]), s[|s| - 1]);
    }
  }

  ghost predicate AllBefore<T>(le: (T, T) -> bool, a: seq<T>, b: seq<T>) {
    forall i, j :: 0 <= i < |a| && 0 <= j < |b| ==> le(a[i], b[j])
  }

  lemma {:induction false} InsertByAfter<T(!new)>(le: (T, T) -> bool, a: seq<T>, b: seq<T>, x: T)
    requires forall i :: 0 <= i < |a| ==> le(a[i], x)
    ensures InsertBy(le, a + b, x) == a + InsertBy(le, b, x)
  {
    if b == [] {
      assert a + b == a;
    } else if le(b[|b| - 1], x) {
      assert a + b + [x] == a + (b + [x]);
    } else {
      InsertByAfter(le, a, b[..|b| - 1], x);
      assert (a + b)[..|a + b| - 1] == a + b[..|b| - 1];
    }
  }

  lemma AllBeforeSorted<T(!new)>(le: (T, T) -> bool, a: seq<T>, x: T)
    requires forall i :: 0 <= i < |a| ==> le(a[i], x)
    ensures forall i :: 0 <= i < |SortBy(le, a)| ==> le(SortBy(le, a)[i], x)
  {
    var r := SortBy(le, a);
    SortByPermutes(le, a);
    MultisetMembers(r, a);
    forall i | 0 <= i < |r|
      ensures le(r[i], x)
    {
      assert r[i] in r;
      var j :| 0 <= j < |a| && a[j] == r[i];
    }
  }

  lemma SortBySnoc<T(!new)>(le: (T, T) -> bool, s: seq<T>, x: T)
    ensures SortBy(le, s + [x]) == InsertBy(le, SortBy(le, s), x)
  {
    assert (s + [x])[..|s + [x]| - 1] == s;
  }

  /** Sorting a batch of later elements with earlier ones sorts each batch on its own. */
  lemma {:induction false} SortByAppend<T(!new)>(le: (T, T) -> bool, a: seq<T>, b: seq<T>)
    requires AllBefore(le, a, b)
    ensures SortBy(le, a + b) == SortBy(le, a) + SortBy(le, b)
  {
    if b == [] {
      assert a + b == a;
    } else {
      var front, last := b[..|b| - 1], b[|b| - 1];
      assert b == front + [last];
      SortByAppend(le, a, front);
      AllBeforeSorted(le, a, last);
      calc {
        SortBy(le, a + b);
        { assert a + b == (a + front) + [last]; SortBySnoc(le, a + front, last); }
        InsertBy(le, SortBy(le, a) + SortBy(le, front), last);
        { InsertByAfter(le, SortBy(le, a), SortBy(le, front), last); }
        SortBy(le, a) + InsertBy(le, SortBy(le, front), last);
        { SortBySnoc(le, front, last); }
        SortBy(le, a) + SortBy(le, b);
      }
    }
  }

  // --- sets in sorted order --------------------------------------------------

  ghost predicate Lists<T(!new)>(s: seq<T>, all: set<T>) {
    Distinct(s) && forall x :: x in s <==> x in all
  }

  ghost function Pick<T>(all: set<T>): (x: T)
    requires all != {}
    ensures x in all
  {
    var x :| x in all;
    x
  }

  ghost function ListOf<T>(all: set<T>): seq<T> {
    if all == {} then [] else
      var x :| x in all;
      [x] + ListOf(all - {x})
  }

  lemma {:induction false} ListOfLists<T(!new)>(all: set<T>)
    ensures Lists(ListOf(all), all)
  {
    if all != {} {
      var s := ListOf(all);
      var x := s[0];
      assert s == [x] + ListOf(all - {x});
      ListOfLists(all - {x});
    }
  }

  ghost function SortedSet<T(!new)>(le: (T, T) -> bool, all: set<T>): (s: seq<T>) {
    SortBy(le, ListOf(all))
  }

  lemma SortByKeepsListing<T(!new)>(le: (T, T) -> bool, s: seq<T>, all: set<T>)
    requires Lists(s, all)
    ensures Lists(SortBy(le, s), all)
  {
    var r := SortBy(le, s);
    SortByPermutes(le, s);
    MultisetMembers(r, s);
    forall i, j | 0 <= i < j < |r|
      ensures r[i] != r[j]
    {
      if r[i] == r[j] {
        DistinctOnce(s, r[i]);
        RepeatedTwice(r, i, j);
        assert false;
      }
    }
  }

  lemma {:induction false} DistinctOnce<T(!new)>(s: seq<T>, x: T)
    requires Distinct(s)
    ensures multiset(s)[x] <= 1
  {
    if s != [] {
      var front := s[..|s| - 1];
      DistinctOnce(front, x);
      assert s == front + [s[|s| - 1]];
      if x == s[|s| - 1] {
        assert x !in front;
      }
    }
  }

  lemma RepeatedTwice<T(!new)>(s: seq<T>, i: int, j: int)
    requires 0 <= i < j < |s| && s[i] == s[j]
    ensures multiset(s)[s[i]] >= 2
  {
    assert s == s[..j] + [s[j]] + s[j + 1..];
    assert s[i] in s[..j];
  }

  lemma SortedSetListing<T(!new)>(le: (T, T) -> bool, all: set<T>)
    requires TotalOrder(le)
    ensures Sorted(le, SortedSet(le, all)) && Lists(SortedSet(le, all), all)
  {
    ListOfLists(all);
    SortBySorted(le, ListOf(all));
    SortByKeepsListing(le, ListOf(all), all);
  }

  lemma {:induction false} ListingLength<T(!new)>(s: seq<T>, all: set<T>)
    requires Lists(s, all)
    ensures |s| == |all|
    decreases |s|
  {
    if s == [] {
      assert all == {};
    } else {
      DropFirst(s, all);
      ListingLength(s[1..], all - {s[0]});
      assert s[0] in s;
    }
  }

  /** A set has one sorted listing. */
  lemma {:induction false} SortedListingUnique<T(!new)>(le: (T, T) -> bool, a: seq<T>, b: seq<T>, all: set<T>)
    requires AntisymmetricOn(le, all)
    requires Sorted(le, a) && Lists(a, all)
    requires Sorted(le, b) && Lists(b, all)
    ensures a == b
    decreases |a|
  {
    if a == [] {
      ListingLength(a, all);
      ListingLength(b, all);
    } else {
      var x := a[0];
      assert x in all && x in b;
      var j :| 0 <= j < |b| && b[j] == x;
      assert b[0] in a;
      var i :| 0 <= i < |a| && a[i] == b[0];
      assert le(a[0], a[i]) || i == 0;
      assert le(b[0], b[j]) || j == 0;
      assert b[0] == x;
      DropFirst(a, all);
      DropFirst(b, all);
      SortedListingUnique(le, a[1..], b[1..], all - {x});
      assert a == [x] + a[1..] && b == [x] + b[1..];
    }
  }

  lemma DropFirst<T(!new)>(a: seq<T>, all: set<T>)
    requires a != [] && Lists(a, all)
    ensures Lists(a[1..], all - {a[0]})
  {
    forall x ensures x in a[1..] <==> x in all - {a[0]} {
      if x in a[1..] {
        var i :| 0 <= i < |a[1..]| && a[1..][i] == x;
        assert a[i + 1] == x;
      }
      if x in all && x != a[0] {
        var i :| 0 <= i < |a| && a[i] == x;
        assert a[1..][i - 1] == x;
      }
    }
  }

  method ListSet<T(!new, ==)>(all: set<T>) returns (s: seq<T>)
    ensures Lists(s, all)
  {
    s := [];
    var rest := all;
    while rest != {}
      invariant rest <= all
      invariant Lists(s, all - rest)
      decreases rest
    {
      var x :| x in rest;
      s := s + [x];
      rest := rest - {x};
    }
    assert all - rest == all;
  }

  method SortSet<T(!new, ==)>(le: (T, T) -> bool, all: set<T>) returns (s: seq<T>)
    requires TotalOrder(le)
    ensures s == SortedSet(le, all)
    ensures Sorted(le, s) && Lists(s, all)
  {
    s := ListSet(all);
    SortByKeepsListing(le, s, all);
    SortBySorted(le, s);
    s := SortBy(le, s);
    SortedSetListing(le, all);
    SortedListingUnique(le, s, SortedSet(le, all), all);
  }
}
