/** Stable insertion sort by a given order, and what determines a listing in order. */
module Sorting {
  ghost predicate Total<T(!new)>(atMost: (T, T) -> bool) {
    forall a, b :: atMost(a, b) || atMost(b, a)
  }

  ghost predicate Transitive<T(!new)>(atMost: (T, T) -> bool) {
    forall a, b, c :: atMost(a, b) && atMost(b, c) ==> atMost(a, c)
  }

  ghost predicate Antisymmetric<T(!new)>(atMost: (T, T) -> bool) {
    forall a, b :: atMost(a, b) && atMost(b, a) ==> a == b
  }

  predicate InOrder<T>(s: seq<T>, atMost: (T, T) -> bool) {
    forall i, j | 0 <= i < j < |s| :: atMost(s[i], s[j])
  }

  /** The element goes after those that are at most it. */
  function Insert<T>(s: seq<T>, e: T, atMost: (T, T) -> bool): (r: seq<T>)
    ensures |r| == |s| + 1
  {
    if |s| == 0 || !atMost(s[0], e) then [e] + s else [s[0]] + Insert(s[1..], e, atMost)
  }

  function Sorted<T>(s: seq<T>, atMost: (T, T) -> bool): (r: seq<T>)
    ensures |r| == |s|
  {
    if |s| == 0 then [] else Insert(Sorted(s[..|s| - 1], atMost), s[|s| - 1], atMost)
  }

  lemma {:induction false} InsertContents<T>(s: seq<T>, e: T, atMost: (T, T) -> bool)
    ensures multiset(Insert(s, e, atMost)) == multiset(s) + multiset{e}
  {
    if |s| > 0 && atMost(s[0], e) {
      InsertContents(s[1..], e, atMost);
      assert s == [s[0]] + s[1..];
    }
  }

  lemma {:induction false} InsertOrders<T(!new)>(s: seq<T>, e: T, atMost: (T, T) -> bool)
    requires Total(atMost) && Transitive(atMost) && InOrder(s, atMost)
    ensures InOrder(Insert(s, e, atMost), atMost)
  {
    if |s| > 0 && atMost(s[0], e) {
      var rest := Insert(s[1..], e, atMost);
      InsertOrders(s[1..], e, atMost);
      InsertContents(s[1..], e, atMost);
      forall j | 0 <= j < |rest| ensures atMost(s[0], rest[j]) {
        assert rest[j] in multiset(rest);
      }
    }
  }

  /** Sorting gives a listing in order of the same contents. */
  lemma {:induction false} SortedSorts<T(!new)>(s: seq<T>, atMost: (T, T) -> bool)
    requires Total(atMost) && Transitive(atMost)
    ensures InOrder(Sorted(s, atMost), atMost)
    ensures multiset(Sorted(s, atMost)) == multiset(s)
  {
    if |s| > 0 {
      SortedSorts(s[..|s| - 1], atMost);
      InsertContents(Sorted(s[..|s| - 1], atMost), s[|s| - 1], atMost);
      InsertOrders(Sorted(s[..|s| - 1], atMost), s[|s| - 1], atMost);
      assert s == s[..|s| - 1] + [s[|s| - 1]];
    }
  }

  lemma SameHead<T(!new)>(a: seq<T>, b: seq<T>, atMost: (T, T) -> bool)
    requires Antisymmetric(atMost) && InOrder(a, atMost) && InOrder(b, atMost)
    requires multiset(a) == multiset(b) && |a| > 0 && |b| > 0
    ensures a[0] == b[0]
  {
    assert a[0] in multiset(b) && b[0] in multiset(a);
    var i :| 0 <= i < |b| && b[i] == a[0];
    var j :| 0 <= j < |a| && a[j] == b[0];
    if i > 0 && j > 0 {
      assert atMost(b[0], b[i]) && atMost(a[0], a[j]);
    }
  }

  lemma WithoutHead<T>(s: seq<T>, atMost: (T, T) -> bool)
    requires |s| > 0 && InOrder(s, atMost)
    ensures multiset(s[1..]) == multiset(s) - multiset{s[0]} && InOrder(s[1..], atMost)
  {
    assert s == [s[0]] + s[1..];
  }

  /** A listing in order is determined by what it lists. */
  lemma {:induction false} ListingIsUnique<T(!new)>(a: seq<T>, b: seq<T>, atMost: (T, T) -> bool)
    requires Antisymmetric(atMost) && InOrder(a, atMost) && InOrder(b, atMost)
    requires multiset(a) == multiset(b)
    ensures a == b
  {
    SameLength(a, b);
    if |a| > 0 {
      SameHead(a, b, atMost);
      WithoutHead(a, atMost);
      WithoutHead(b, atMost);
      ListingIsUnique(a[1..], b[1..], atMost);
      SameWhole(a, b);
    }
  }

  lemma SameLength<T>(a: seq<T>, b: seq<T>)
    requires multiset(a) == multiset(b)
    ensures |a| == |b|
  {
    assert |a| == |multiset(a)| == |multiset(b)| == |b|;
  }

  lemma SameWhole<T>(a: seq<T>, b: seq<T>)
    requires |a| > 0 && |b| > 0 && a[0] == b[0] && a[1..] == b[1..]
    ensures a == b
  {
    assert a == [a[0]] + a[1..] && b == [b[0]] + b[1..];
  }
}
