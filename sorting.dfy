/**
  SQL `ORDER BY` over a scan: a stable sort of the rows by a total preorder `le` ("a may come before
  b"). Rows the order does not separate keep their scan order, which is the order SQLite's sorter
  leaves them in for a single-table query.
*/
module Sorting {

  /** `le` compares every pair and is transitive. */
  ghost predicate TotalPreorder<T(!new)>(le: (T, T) -> bool) {
    && (forall a, b :: le(a, b) || le(b, a))
    && (forall a, b, c :: le(a, b) && le(b, c) ==> le(a, c))
  }

  predicate SortedBy<T>(s: seq<T>, le: (T, T) -> bool) {
    forall i, j :: 0 <= i < j < |s| ==> le(s[i], s[j])
  }

  /** `x` placed before the first element it may precede. */
  function Insert<T>(x: T, s: seq<T>, le: (T, T) -> bool): (r: seq<T>)
    ensures |r| == |s| + 1
  {
    if |s| == 0 then [x]
    else if le(x, s[0]) then [x] + s
    else [s[0]] + Insert(x, s[1..], le)
  }

  /** Insertion sort: the head inserted into the sorted tail. */
  function SortBy<T>(s: seq<T>, le: (T, T) -> bool): (r: seq<T>)
    ensures |r| == |s|
  {
    if |s| == 0 then [] else Insert(s[0], SortBy(s[1..], le), le)
  }

  lemma {:induction false} InsertMultiset<T>(x: T, s: seq<T>, le: (T, T) -> bool)
    ensures multiset(Insert(x, s, le)) == multiset(s) + multiset{x}
  {
    if |s| > 0 && !le(x, s[0]) {
      InsertMultiset(x, s[1..], le);
      assert s == [s[0]] + s[1..];
    }
  }

  lemma {:induction false} InsertSorted<T(!new)>(x: T, s: seq<T>, le: (T, T) -> bool)
    requires TotalPreorder(le) && SortedBy(s, le)
    ensures SortedBy(Insert(x, s, le), le)
  {
    if |s| > 0 && !le(x, s[0]) {
      var tail := Insert(x, s[1..], le);
      InsertSorted(x, s[1..], le);
      InsertMultiset(x, s[1..], le);
      forall j | 0 <= j < |tail| ensures le(s[0], tail[j]) {
        assert tail[j] in multiset(s[1..]) + multiset{x};
        if tail[j] != x || tail[j] in multiset(s[1..]) {
          if tail[j] in multiset(s[1..]) {
            var m :| 0 <= m < |s[1..]| && s[1..][m] == tail[j];
            assert s[m + 1] == tail[j];
          }
        }
      }
      assert Insert(x, s, le) == [s[0]] + tail;
    }
  }

  /** `SortBy` orders the rows and returns exactly the rows it was given. */
  lemma {:induction false} SortByCorrect<T(!new)>(s: seq<T>, le: (T, T) -> bool)
    requires TotalPreorder(le)
    ensures SortedBy(SortBy(s, le), le)
    ensures multiset(SortBy(s, le)) == multiset(s)
  {
    if |s| > 0 {
      SortByCorrect(s[1..], le);
      InsertSorted(s[0], SortBy(s[1..], le), le);
      InsertMultiset(s[0], SortBy(s[1..], le), le);
      assert s == [s[0]] + s[1..];
    }
  }

  /** An element that may precede none of a sequence's elements goes to its end. */
  lemma {:induction false} InsertLast<T>(x: T, s: seq<T>, le: (T, T) -> bool)
    requires forall k :: 0 <= k < |s| ==> !le(x, s[k])
    ensures Insert(x, s, le) == s + [x]
  {
    if |s| > 0 {
      InsertLast(x, s[1..], le);
      assert s == [s[0]] + s[1..];
    }
  }
}
