/**
  Generic operations on sequences that the relational queries and the UI code are built from:
  the first row a `SELECT ... WHERE` scan meets, a `WHERE` filter, `ORDER BY id DESC` over a table kept
  in id order, `LIMIT n`, `SELECT DISTINCT` and a left-to-right `reduce`.
*/
module Seqs {
  import opened Wrappers

  /** Index of the first element satisfying `p`, scanning from the front. */
  function FirstIndex<T>(s: seq<T>, p: T -> bool): (r: Option<nat>)
    ensures r.Some? ==> r.value < |s| && p(s[r.value])
    ensures r.Some? ==> forall k :: 0 <= k < r.value ==> !p(s[k])
    ensures r.None? <==> forall k :: 0 <= k < |s| ==> !p(s[k])
  {
    if |s| == 0 then None
    else if p(s[0]) then Some(0)
    else match FirstIndex(s[1..], p)
      case None => None
      case Some(i) => Some(i + 1)
  }

  /**
    Where `Array.prototype.splice(start, ...)` starts on an array of length `len`: a negative start
    counts from the end, and the result is clamped to the array.
  */
  function SpliceStart(start: int, len: nat): (k: nat)
    ensures k <= len
    ensures 0 <= start <= len ==> k == start
    ensures start < 0 <= start + len ==> k == start + len
    ensures start + len < 0 ==> k == 0
    ensures start > len ==> k == len
  {
    if start < 0 then (if start + len < 0 then 0 else start + len)
    else if start > len then len
    else start
  }

  /** The first index whose element satisfies `p`, recognised. */
  lemma FirstIndexAt<T>(s: seq<T>, p: T -> bool, j: nat)
    requires j < |s| && p(s[j]) && forall k :: 0 <= k < j ==> !p(s[k])
    ensures FirstIndex(s, p) == Some(j)
  {
  }

  /** A property of the head and of every element of the tail holds of every element. */
  lemma AllWithHead<T>(s: seq<T>, P: T -> bool)
    requires |s| > 0 && P(s[0]) && forall k :: 0 <= k < |s[1..]| ==> P(s[1..][k])
    ensures forall k :: 0 <= k < |s| ==> P(s[k])
  {
    forall k | 0 < k < |s|
      ensures P(s[k])
    {
      assert s[k] == s[1..][k - 1];
    }
  }

  /** Some element satisfies `P` exactly when the head or some element of the tail does. */
  lemma ExistsWithHead<T>(s: seq<T>, P: T -> bool)
    requires |s| > 0
    ensures (P(s[0]) || exists k :: 0 <= k < |s[1..]| && P(s[1..][k])) <==> exists k :: 0 <= k < |s| && P(s[k])
  {
    if exists k :: 0 <= k < |s| && P(s[k]) {
      var k :| 0 <= k < |s| && P(s[k]);
      if k > 0 {
        assert s[1..][k - 1] == s[k];
      }
    }
    if exists k :: 0 <= k < |s[1..]| && P(s[1..][k]) {
      var k :| 0 <= k < |s[1..]| && P(s[1..][k]);
      assert s[1..][k] == s[k + 1];
    }
  }

  /** The elements satisfying `p`, in their original order. */
  function Filter<T>(s: seq<T>, p: T -> bool): (r: seq<T>)
    ensures |r| <= |s|
    ensures forall k :: 0 <= k < |r| ==> r[k] in s
    ensures forall k :: 0 <= k < |s| && p(s[k]) ==> s[k] in r
    ensures forall k :: 0 <= k < |r| ==> p(r[k])
  {
    if |s| == 0 then []
    else if p(s[0]) then [s[0]] + Filter(s[1..], p)
    else Filter(s[1..], p)
  }

  lemma {:induction false} FilterAppend<T>(s: seq<T>, x: T, p: T -> bool)
    ensures Filter(s + [x], p) == Filter(s, p) + (if p(x) then [x] else [])
  {
    if |s| == 0 {
      assert s + [x] == [x];
    } else {
      assert (s + [x])[1..] == s[1..] + [x];
      FilterAppend(s[1..], x, p);
    }
  }

  lemma {:induction false} FilterConcat<T>(a: seq<T>, b: seq<T>, p: T -> bool)
    ensures Filter(a + b, p) == Filter(a, p) + Filter(b, p)
  {
    if |a| == 0 {
      assert a + b == b;
    } else {
      assert (a + b)[0] == a[0] && (a + b)[1..] == a[1..] + b;
      FilterConcat(a[1..], b, p);
    }
  }

  /** Filtering with `p` keeps exactly the elements `p` accepts, with their multiplicities. */
  lemma {:induction false} FilterMultiset<T>(s: seq<T>, p: T -> bool, x: T)
    ensures multiset(Filter(s, p))[x] == if p(x) then multiset(s)[x] else 0
  {
    if |s| > 0 {
      assert s == [s[0]] + s[1..];
      FilterMultiset(s[1..], p, x);
    }
  }

  /** A filter every element passes changes nothing. */
  lemma {:induction false} FilterKeepsAll<T>(s: seq<T>, p: T -> bool)
    requires forall k :: 0 <= k < |s| ==> p(s[k])
    ensures Filter(s, p) == s
  {
    if |s| > 0 {
      FilterKeepsAll(s[1..], p);
      assert s == [s[0]] + s[1..];
    }
  }

  /** A relation that holds between every element and each later one still does after filtering. */
  lemma {:induction false} FilterPairwise<T>(s: seq<T>, p: T -> bool, R: (T, T) -> bool)
    requires forall i, j :: 0 <= i < j < |s| ==> R(s[i], s[j])
    ensures forall i, j :: 0 <= i < j < |Filter(s, p)| ==> R(Filter(s, p)[i], Filter(s, p)[j])
  {
    if |s| > 0 {
      var f := Filter(s[1..], p);
      FilterPairwise(s[1..], p, R);
      if p(s[0]) {
        forall j | 0 <= j < |f| ensures R(s[0], f[j]) {
          var m :| 0 <= m < |s[1..]| && s[1..][m] == f[j];
          assert s[m + 1] == f[j];
        }
      }
    }
  }

  /** The sequence back to front. */
  function Reverse<T>(s: seq<T>): (r: seq<T>)
    ensures |r| == |s|
    ensures forall k :: 0 <= k < |s| ==> r[k] == s[|s| - 1 - k]
  {
    if |s| == 0 then [] else Reverse(s[1..]) + [s[0]]
  }

  /** The first `n` elements, or all of them when there are fewer (SQL `LIMIT n`). */
  function Take<T>(s: seq<T>, n: nat): (r: seq<T>)
    ensures |r| == if |s| < n then |s| else n
    ensures r <= s
  {
    if |s| <= n then s else s[..n]
  }

  predicate NoDuplicates<T(==)>(s: seq<T>) {
    forall i, j :: 0 <= i < j < |s| ==> s[i] != s[j]
  }

  /** The elements in order of first occurrence, each once (SQL `SELECT DISTINCT`). */
  function Distinct<T(==)>(s: seq<T>): (r: seq<T>)
    ensures NoDuplicates(r)
    ensures forall k :: 0 <= k < |r| ==> r[k] in s
    ensures forall k :: 0 <= k < |s| ==> s[k] in r
    ensures |r| <= |s|
  {
    if |s| == 0 then []
    else
      var rest := Distinct(s[..|s| - 1]);
      if s[|s| - 1] in rest then rest else rest + [s[|s| - 1]]
  }

  /** `SELECT DISTINCT` keeps an order the rows it is given were in. */
  lemma {:induction false} DistinctPairwise<T>(s: seq<T>, R: (T, T) -> bool)
    requires forall i, j :: 0 <= i < j < |s| ==> R(s[i], s[j])
    ensures forall i, j :: 0 <= i < j < |Distinct(s)| ==> R(Distinct(s)[i], Distinct(s)[j])
  {
    if |s| > 0 {
      var front := s[..|s| - 1];
      var rest := Distinct(front);
      DistinctPairwise(front, R);
      if s[|s| - 1] !in rest {
        forall i | 0 <= i < |rest| ensures R(rest[i], s[|s| - 1]) {
          var m :| 0 <= m < |front| && front[m] == rest[i];
        }
      }
    }
  }
}
