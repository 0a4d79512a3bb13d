/**
 * A stable insertion sort parameterised by a "goes no later than" relation.
 * It stands for the library sorts the system relies on: Python's `sorted`
 * (stable, also with `reverse=True`), SQL `ORDER BY` and JavaScript's
 * `Array.prototype.sort` (stable since ES2019).
 */
module Sorting {

  ghost predicate Transitive<T(!new)>(le: (T, T) -> bool) {
    forall a, b, c :: le(a, b) && le(b, c) ==> le(a, c)
  }

  ghost predicate Total<T(!new)>(le: (T, T) -> bool) {
    forall a, b :: le(a, b) || le(b, a)
  }

  predicate SortedBy<T>(s: seq<T>, le: (T, T) -> bool) {
    forall i, j :: 0 <= i < j < |s| ==> le(s[i], s[j])
  }

  /** The elements of `s` that tie with `p`, in their order in `s`. */
  function Ties<T>(s: seq<T>, p: T, le: (T, T) -> bool): seq<T> {
    if s == [] then []
    else (if le(s[0], p) && le(p, s[0]) then [s[0]] else []) + Ties(s[1..], p, le)
  }

  /** Puts `x` in front of the first element it may precede. */
  function Insert<T>(x: T, s: seq<T>, le: (T, T) -> bool): seq<T> {
    if s == [] || le(x, s[0]) then [x] + s else [s[0]] + Insert(x, s[1..], le)
  }

  function SortBy<T>(s: seq<T>, le: (T, T) -> bool): seq<T> {
    if s == [] then [] else Insert(s[0], SortBy(s[1..], le), le)
  }

  lemma {:induction false} InsertPermutes<T>(x: T, s: seq<T>, le: (T, T) -> bool)
    ensures multiset(Insert(x, s, le)) == multiset([x] + s)
  {
    if s != [] && !le(x, s[0]) {
      InsertPermutes(x, s[1..], le);
      assert s == [s[0]] + s[1..];
    }
  }

  /** Sorting only rearranges: the result is a permutation of the input. */
  lemma {:induction false} SortPermutes<T>(s: seq<T>, le: (T, T) -> bool)
    ensures multiset(SortBy(s, le)) == multiset(s)
  {
    if s != [] {
      SortPermutes(s[1..], le);
      InsertPermutes(s[0], SortBy(s[1..], le), le);
      assert s == [s[0]] + s[1..];
    }
  }

  /** Sorting keeps exactly the same elements. */
  lemma SortSameElements<T>(s: seq<T>, le: (T, T) -> bool)
    ensures |SortBy(s, le)| == |s|
    ensures forall x :: x in SortBy(s, le) <==> x in s
  {
    SortPermutes(s, le);
    assert forall x :: x in SortBy(s, le) <==> x in multiset(SortBy(s, le));
    assert forall x :: x in s <==> x in multiset(s);
  }

  lemma {:induction false} InsertSorted<T(!new)>(x: T, s: seq<T>, le: (T, T) -> bool)
    requires Total(le) && Transitive(le)
    requires SortedBy(s, le)
    ensures SortedBy(Insert(x, s, le), le)
  {
    if s != [] && !le(x, s[0]) {
      InsertSorted(x, s[1..], le);
      InsertPermutes(x, s[1..], le);
      var r := Insert(x, s[1..], le);
      forall k | 0 <= k < |r| ensures le(s[0], r[k]) {
        assert r[k] in multiset([x] + s[1..]);
      }
    }
  }

  /** With a total preorder the result is ordered. */
  lemma {:induction false} SortSorted<T(!new)>(s: seq<T>, le: (T, T) -> bool)
    requires Total(le) && Transitive(le)
    ensures SortedBy(SortBy(s, le), le)
  {
    if s != [] {
      SortSorted(s[1..], le);
      InsertSorted(s[0], SortBy(s[1..], le), le);
    }
  }

  lemma {:induction false} TiesOfInsert<T(!new)>(x: T, s: seq<T>, p: T, le: (T, T) -> bool)
    requires Transitive(le)
    ensures Ties(Insert(x, s, le), p, le) == Ties([x], p, le) + Ties(s, p, le)
  {
    if s == [] || le(x, s[0]) {
      assert ([x] + s)[1..] == s;
    } else {
      TiesOfInsert(x, s[1..], p, le);
      var r := [s[0]] + Insert(x, s[1..], le);
      assert r[1..] == Insert(x, s[1..], le);
      assert s == [s[0]] + s[1..];
    }
  }

  /**
   * Stability: the elements that tie with any given `p` appear in the
   * result in the order they had in the input.
   */
  lemma {:induction false} SortStable<T(!new)>(s: seq<T>, p: T, le: (T, T) -> bool)
    requires Transitive(le)
    ensures Ties(SortBy(s, le), p, le) == Ties(s, p, le)
  {
    if s != [] {
      SortStable(s[1..], p, le);
      TiesOfInsert(s[0], SortBy(s[1..], le), p, le);
    }
  }

  /** A prefix of a sorted sequence is sorted and comes before every element left out of it. */
  lemma PrefixFirst<T>(s: seq<T>, n: nat, le: (T, T) -> bool)
    requires SortedBy(s, le) && n <= |s|
    ensures SortedBy(s[..n], le)
    ensures forall t, x :: t in s[..n] && x in s && x !in s[..n] ==> le(t, x)
  {
    forall t, x | t in s[..n] && x in s && x !in s[..n]
      ensures le(t, x)
    {
      var i :| 0 <= i < n && s[i] == t;
      var j :| 0 <= j < |s| && s[j] == x;
      assert j >= n;
    }
  }
}
