// The sorts the app calls (qSort and std::sort over a comparison): an
// insertion sort stands for them. The library sorts are not stable, so the
// order they give to elements neither of which sorts before the other is not
// determined; the model fixes one.
module Sorting {

  /** A comparison that never holds both ways, as the library sorts demand of it. */
  ghost predicate Asymmetric<T(!new)>(less: (T, T) -> bool)
  {
    forall a, b :: less(a, b) ==> !less(b, a)
  }

  /** No element sorts before its predecessor. */
  predicate SortedBy<T>(less: (T, T) -> bool, s: seq<T>)
  {
    forall i :: 0 < i < |s| ==> !less(s[i], s[i - 1])
  }

  /** x placed in front of the first element that does not sort before it. */
  function Insert<T>(less: (T, T) -> bool, x: T, s: seq<T>): seq<T>
  {
    if s == [] then [x]
    else if less(s[0], x) then [s[0]] + Insert(less, x, s[1..])
    else [x] + s
  }

  /** The elements sorted by less. */
  function Sort<T>(less: (T, T) -> bool, s: seq<T>): seq<T>
  {
    if s == [] then [] else Insert(less, s[0], Sort(less, s[1..]))
  }

  /** Inserting adds exactly the one element. */
  lemma {:induction false} InsertCount<T>(less: (T, T) -> bool, x: T, s: seq<T>)
    ensures multiset(Insert(less, x, s)) == multiset(s) + multiset{x}
  {
    if s != [] && less(s[0], x) {
      InsertCount(less, x, s[1..]);
      assert s == [s[0]] + s[1..];
    }
  }

  /** The tail of a sorted sequence is sorted. */
  lemma SortedTail<T>(less: (T, T) -> bool, s: seq<T>)
    requires SortedBy(less, s) && s != []
    ensures SortedBy(less, s[1..])
  {
    var t := s[1..];
    forall i | 0 < i < |t|
      ensures !less(t[i], t[i - 1])
    {
      assert t[i] == s[i + 1] && t[i - 1] == s[i];
    }
  }

  /** An element no later than the head of a sorted sequence can be put in front of it. */
  lemma ConsSorted<T>(less: (T, T) -> bool, a: T, r: seq<T>)
    requires SortedBy(less, r) && (r != [] ==> !less(r[0], a))
    ensures SortedBy(less, [a] + r)
  {
    var s := [a] + r;
    forall i | 0 < i < |s|
      ensures !less(s[i], s[i - 1])
    {
      assert s[i] == r[i - 1];
      if i > 1 {
        assert s[i - 1] == r[i - 2];
      }
    }
  }

  /** Inserting into a sorted sequence keeps it sorted and adds exactly x. */
  lemma {:induction false} InsertSorted<T(!new)>(less: (T, T) -> bool, x: T, s: seq<T>)
    requires Asymmetric(less) && SortedBy(less, s)
    ensures SortedBy(less, Insert(less, x, s))
    ensures multiset(Insert(less, x, s)) == multiset(s) + multiset{x}
    ensures Insert(less, x, s)[0] == x || (s != [] && Insert(less, x, s)[0] == s[0])
  {
    InsertCount(less, x, s);
    if s != [] && less(s[0], x) {
      var t := s[1..];
      SortedTail(less, s);
      InsertSorted(less, x, t);
      var r := Insert(less, x, t);
      assert !less(x, s[0]);
      assert t != [] ==> !less(t[0], s[0]) by {
        if t != [] {
          assert t[0] == s[1];
        }
      }
      ConsSorted(less, s[0], r);
      assert Insert(less, x, s) == [s[0]] + r;
    } else if s != [] {
      ConsSorted(less, x, s);
    }
  }

  /** Sort gives a sorted permutation of its input. */
  lemma {:induction false} SortSorted<T(!new)>(less: (T, T) -> bool, s: seq<T>)
    requires Asymmetric(less)
    ensures SortedBy(less, Sort(less, s))
    ensures multiset(Sort(less, s)) == multiset(s)
  {
    if s != [] {
      SortSorted(less, s[1..]);
      InsertSorted(less, s[0], Sort(less, s[1..]));
      assert s == [s[0]] + s[1..];
    }
  }
}
