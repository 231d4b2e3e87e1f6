/** The stable sort of the standard library, as a function of a strict order. */
module Sorting {

  function Insert<T>(less: (T, T) -> bool, x: T, s: seq<T>): seq<T> {
    if s != [] && less(s[0], x) then [s[0]] + Insert(less, x, s[1..]) else [x] + s
  }

  function SortBy<T>(less: (T, T) -> bool, s: seq<T>): seq<T> {
    if s == [] then [] else Insert(less, s[0], SortBy(less, s[1..]))
  }

  ghost predicate StrictlySorted<T>(less: (T, T) -> bool, s: seq<T>) {
    forall i, j :: 0 <= i < j < |s| ==> less(s[i], s[j])
  }

  /** A strict order that decides between any two different elements of `s`. */
  ghost predicate Orders<T(!new)>(less: (T, T) -> bool, s: seq<T>) {
    && (forall x, y, z :: less(x, y) && less(y, z) ==> less(x, z))
    && (forall x :: !less(x, x))
    && (forall i, j :: 0 <= i < j < |s| ==> less(s[i], s[j]) || less(s[j], s[i]))
  }

  lemma {:induction false} InsertElements<T>(less: (T, T) -> bool, x: T, s: seq<T>)
    ensures multiset(Insert(less, x, s)) == multiset{x} + multiset(s)
  {
    if s != [] && less(s[0], x) {
      InsertElements(less, x, s[1..]);
      assert s == [s[0]] + s[1..];
    }
  }

  lemma {:induction false} SortElements<T>(less: (T, T) -> bool, s: seq<T>)
    ensures multiset(SortBy(less, s)) == multiset(s)
  {
    if s != [] {
      SortElements(less, s[1..]);
      InsertElements(less, s[0], SortBy(less, s[1..]));
      assert s == [s[0]] + s[1..];
    }
  }

  lemma {:induction false} InsertSorted<T(!new)>(less: (T, T) -> bool, x: T, s: seq<T>)
    requires Orders(less, s) && StrictlySorted(less, s)
    requires forall i :: 0 <= i < |s| ==> less(x, s[i]) || less(s[i], x)
    ensures StrictlySorted(less, Insert(less, x, s))
  {
    if s != [] && less(s[0], x) {
      var tail := Insert(less, x, s[1..]);
      InsertSorted(less, x, s[1..]);
      InsertElements(less, x, s[1..]);
      forall j | 0 <= j < |tail| ensures less(s[0], tail[j]) {
        assert tail[j] in multiset(tail);
        assert tail[j] == x || tail[j] in s[1..];
      }
    } else if s != [] {
      assert less(x, s[0]);
      assert forall j :: 0 < j < |s| ==> less(s[0], s[j]);
    }
  }

  lemma {:induction false} SortSorted<T(!new)>(less: (T, T) -> bool, s: seq<T>)
    requires Orders(less, s)
    ensures StrictlySorted(less, SortBy(less, s))
  {
    if s != [] {
      var tail := SortBy(less, s[1..]);
      SortSorted(less, s[1..]);
      SortElements(less, s[1..]);
      forall i | 0 <= i < |tail| ensures less(s[0], tail[i]) || less(tail[i], s[0]) {
        assert tail[i] in multiset(tail);
        assert tail[i] in s[1..];
      }
      StrictlySortedOrders(less, tail);
      InsertSorted(less, s[0], tail);
    }
  }

  lemma StrictlySortedOrders<T(!new)>(less: (T, T) -> bool, s: seq<T>)
    requires StrictlySorted(less, s)
    requires forall x, y, z :: less(x, y) && less(y, z) ==> less(x, z)
    requires forall x :: !less(x, x)
    ensures Orders(less, s)
  {
  }

  /** A strictly sorted sequence is determined by its elements. */
  lemma {:induction false} SortedUnique<T(!new)>(less: (T, T) -> bool, s: seq<T>, t: seq<T>)
    requires Orders(less, s) && StrictlySorted(less, s) && StrictlySorted(less, t)
    requires forall x :: x in s <==> x in t
    ensures s == t
  {
    assert s != [] ==> s[0] in s;
    assert t != [] ==> t[0] in t;
    if s != [] && t != [] {
      assert s[0] in t && t[0] in s;
      assert s[0] == t[0];
      forall x ensures x in s[1..] <==> x in t[1..] {
        assert x in s <==> x == s[0] || x in s[1..];
        assert x in t <==> x == t[0] || x in t[1..];
        assert s[0] !in s[1..] && t[0] !in t[1..];
      }
      SortedUnique(less, s[1..], t[1..]);
      assert s == [s[0]] + s[1..] && t == [t[0]] + t[1..];
    }
  }
}
