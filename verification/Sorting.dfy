/** Stable insertion sort by any total order, as a function. */
module Sorting {

  /** Any two elements compare, and comparisons chain. */
  ghost predicate Orders<T(!new)>(leq: (T, T) -> bool) {
    && (forall x, y :: leq(x, y) || leq(y, x))
    && (forall x, y, z :: leq(x, y) && leq(y, z) ==> leq(x, z))
  }

  function Insert<T>(leq: (T, T) -> bool, x: T, s: seq<T>): seq<T> {
    if s == [] || leq(x, s[0]) then [x] + s else [s[0]] + Insert(leq, x, s[1..])
  }

  function Sort<T>(leq: (T, T) -> bool, s: seq<T>): seq<T> {
    if s == [] then [] else Insert(leq, s[0], Sort(leq, s[1..]))
  }

  predicate Sorted<T>(leq: (T, T) -> bool, s: seq<T>) {
    forall i, j :: 0 <= i < j < |s| ==> leq(s[i], s[j])
  }

  lemma SortedCons<T(!new)>(leq: (T, T) -> bool, x: T, s: seq<T>)
    requires Sorted(leq, s) && forall e <- s :: leq(x, e)
    ensures Sorted(leq, [x] + s)
  {
    var r := [x] + s;
    forall i, j | 0 <= i < j < |r| ensures leq(r[i], r[j]) {
      assert r[j] == s[j - 1];
    }
  }

  lemma SortedHead<T(!new)>(leq: (T, T) -> bool, s: seq<T>)
    requires Sorted(leq, s) && s != [] && Orders(leq)
    ensures Sorted(leq, s[1..]) && forall e <- s :: leq(s[0], e)
  {
    var rest := s[1..];
    assert forall i, j :: 0 <= i < j < |rest| ==> rest[i] == s[i + 1] && rest[j] == s[j + 1];
    forall e <- s ensures leq(s[0], e) {
      var k :| 0 <= k < |s| && s[k] == e;
      assert k == 0 || leq(s[0], s[k]);
    }
  }

  lemma {:induction false} InsertElements<T>(leq: (T, T) -> bool, x: T, s: seq<T>)
    ensures multiset(Insert(leq, x, s)) == multiset(s) + multiset{x}
    ensures forall e <- Insert(leq, x, s) :: e == x || e in s
  {
    if s == [] || leq(x, s[0]) {
    } else {
      InsertElements(leq, x, s[1..]);
      assert s == [s[0]] + s[1..];
    }
  }

  lemma {:induction false} InsertSorts<T(!new)>(leq: (T, T) -> bool, x: T, s: seq<T>)
    requires Sorted(leq, s) && Orders(leq)
    ensures Sorted(leq, Insert(leq, x, s))
  {
    hide Sorted, Orders;
    if s == [] {
      SingleSorted(leq, x);
      assert [x] + s == [x];
    } else {
      SortedHead(leq, s);
      if leq(x, s[0]) {
        Chain(leq, x, s);
        SortedCons(leq, x, s);
      } else {
        Compare(leq, x, s[0]);
        InsertSorts(leq, x, s[1..]);
        InsertElements(leq, x, s[1..]);
        SortedCons(leq, s[0], Insert(leq, x, s[1..]));
      }
    }
  }

  lemma Chain<T(!new)>(leq: (T, T) -> bool, x: T, s: seq<T>)
    requires Orders(leq) && s != [] && leq(x, s[0]) && forall e <- s :: leq(s[0], e)
    ensures forall e <- s :: leq(x, e)
  {
  }

  lemma Compare<T(!new)>(leq: (T, T) -> bool, x: T, y: T)
    requires Orders(leq)
    ensures leq(x, y) || leq(y, x)
  {
  }

  lemma SingleSorted<T(!new)>(leq: (T, T) -> bool, x: T)
    ensures Sorted(leq, [x])
  {
  }

  /** Sorting orders the list and keeps its elements. */
  lemma {:induction false} SortSorts<T(!new)>(leq: (T, T) -> bool, s: seq<T>)
    requires Orders(leq)
    ensures Sorted(leq, Sort(leq, s)) && multiset(Sort(leq, s)) == multiset(s) && |Sort(leq, s)| == |s|
  {
    hide Sorted, Orders;
    if s == [] {
      NothingSorted(leq);
    } else {
      SortSorts(leq, s[1..]);
      InsertSorts(leq, s[0], Sort(leq, s[1..]));
      InsertElements(leq, s[0], Sort(leq, s[1..]));
      assert s == [s[0]] + s[1..];
      assert |multiset(Sort(leq, s))| == |multiset(s)|;
    }
  }

  lemma NothingSorted<T(!new)>(leq: (T, T) -> bool)
    ensures Sorted(leq, [])
  {
  }

  /** The elements of the same rank as `x`, in order. */
  function SameRank<T>(leq: (T, T) -> bool, x: T, s: seq<T>): seq<T> {
    if s == [] then [] else (if leq(s[0], x) && leq(x, s[0]) then [s[0]] else []) + SameRank(leq, x, s[1..])
  }

  lemma OtherRank<T(!new)>(leq: (T, T) -> bool, x: T, y: T, z: T)
    requires Orders(leq) && leq(y, x) && !leq(y, z)
    ensures !leq(x, z)
  {
    assert leq(x, z) ==> leq(y, z);
  }

  lemma {:induction false} InsertStable<T(!new)>(leq: (T, T) -> bool, x: T, y: T, s: seq<T>)
    requires Orders(leq)
    ensures SameRank(leq, x, Insert(leq, y, s))
            == (if leq(y, x) && leq(x, y) then [y] else []) + SameRank(leq, x, s)
  {
    hide Orders;
    if s == [] || leq(y, s[0]) {
      assert ([y] + s)[1..] == s;
    } else {
      InsertStable(leq, x, y, s[1..]);
      var rest, same := Insert(leq, y, s[1..]), SameRank(leq, x, s[1..]);
      assert ([s[0]] + rest)[1..] == rest;
      if leq(y, x) && leq(x, y) {
        OtherRank(leq, x, y, s[0]);
        assert SameRank(leq, x, s) == [] + same == same;
      } else {
        assert [] + same == same;
      }
    }
  }

  /** Elements of one rank keep their order. */
  lemma {:induction false} SortStable<T(!new)>(leq: (T, T) -> bool, x: T, s: seq<T>)
    requires Orders(leq)
    ensures SameRank(leq, x, Sort(leq, s)) == SameRank(leq, x, s)
  {
    hide Orders;
    if s != [] {
      SortStable(leq, x, s[1..]);
      InsertStable(leq, x, s[0], Sort(leq, s[1..]));
    }
  }

  /** Where equal rank means equal, there is only one way to sort: neither the algorithm nor the first order matters. */
  lemma {:induction false} SortedUnique<T(!new)>(leq: (T, T) -> bool, a: seq<T>, b: seq<T>)
    requires Orders(leq) && forall x, y :: leq(x, y) && leq(y, x) ==> x == y
    requires Sorted(leq, a) && Sorted(leq, b) && multiset(a) == multiset(b)
    ensures a == b
    decreases |a|
  {
    hide Sorted, Orders;
    assert |multiset(a)| == |a| && |multiset(b)| == |b|;
    if a != [] {
      SortedHead(leq, a);
      SortedHead(leq, b);
      assert a[0] in multiset(b) && b[0] in multiset(a);
      assert a[0] in b && b[0] in a;
      assert leq(a[0], b[0]) && leq(b[0], a[0]);
      WithoutFirst(a);
      WithoutFirst(b);
      SortedUnique(leq, a[1..], b[1..]);
      assert a == [a[0]] + a[1..] && b == [b[0]] + b[1..];
    }
  }

  lemma WithoutFirst<T>(s: seq<T>)
    requires s != []
    ensures multiset(s[1..]) == multiset(s) - multiset{s[0]}
  {
    assert s == [s[0]] + s[1..];
  }
}
