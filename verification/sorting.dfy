/** Descending sorts, as `list.sort(key=..., reverse=True)` and
    `DataFrame.sort_values(..., ascending=False)` perform them. The order is
    given as a relation `geq(a, b)` ("a ranks at least as high as b") that
    must be a total preorder; equal-ranking elements keep their input order. */
module Sorting {

  /** `geq` is total and transitive: a ranking in which ties are allowed. */
  ghost predicate TotalPreorder<T(!new)>(geq: (T, T) -> bool) {
    && (forall a, b :: geq(a, b) || geq(b, a))
    && (forall a, b, c :: geq(a, b) && geq(b, c) ==> geq(a, c))
  }

  /** Every element ranks at least as high as every later one. */
  ghost predicate SortedBy<T>(s: seq<T>, geq: (T, T) -> bool) {
    forall i, j :: 0 <= i < j < |s| ==> geq(s[i], s[j])
  }

  /** Puts `x` into the sorted `s` after every element that ranks at least
      as high as `x`, so a later element never overtakes an equal one. */
  function Insert<T(!new)>(s: seq<T>, x: T, geq: (T, T) -> bool): (r: seq<T>)
    requires TotalPreorder(geq) && SortedBy(s, geq)
    ensures |r| == |s| + 1
    ensures multiset(r) == multiset(s) + multiset{x}
    ensures SortedBy(r, geq)
  {
    if s == [] then [x]
    else if geq(s[0], x) then
      var tail := Insert(s[1..], x, geq);
      InsertBehindHead(s, x, tail, geq);
      [s[0]] + tail
    else
      InsertInFront(s, x, geq);
      [x] + s
  }

  /** When the head ranks at least as high as `x`, the head followed by the
      insertion into the rest is the insertion into the whole. */
  lemma InsertBehindHead<T>(s: seq<T>, x: T, tail: seq<T>, geq: (T, T) -> bool)
    requires SortedBy(s, geq) && s != [] && geq(s[0], x)
    requires |tail| == |s| && multiset(tail) == multiset(s[1..]) + multiset{x} && SortedBy(tail, geq)
    ensures multiset([s[0]] + tail) == multiset(s) + multiset{x}
    ensures SortedBy([s[0]] + tail, geq)
  {
    HeadLeadsInsertion(s, x, tail, geq);
    ConsSorted(s[0], tail, geq);
    assert s == [s[0]] + s[1..];
  }

  /** When the head does not rank above `x`, `x` goes in front. */
  lemma InsertInFront<T(!new)>(s: seq<T>, x: T, geq: (T, T) -> bool)
    requires TotalPreorder(geq) && SortedBy(s, geq) && s != [] && !geq(s[0], x)
    ensures SortedBy([x] + s, geq)
  {
    NewHeadLeads(s, x, geq);
    ConsSorted(x, s, geq);
  }

  /** Putting in front of a sorted sequence an element that ranks at least
      as high as all of it keeps it sorted. */
  lemma ConsSorted<T>(a: T, t: seq<T>, geq: (T, T) -> bool)
    requires SortedBy(t, geq)
    requires forall j :: 0 <= j < |t| ==> geq(a, t[j])
    ensures SortedBy([a] + t, geq)
  {
    var r := [a] + t;
    forall i, j | 0 <= i < j < |r|
      ensures geq(r[i], r[j])
    {
      assert r[j] == t[j - 1];
      if i > 0 {
        assert r[i] == t[i - 1];
      }
    }
  }

  /** The head of a sorted sequence ranks at least as high as whatever is
      put after it: the rest of the sequence and an `x` it ranks above. */
  lemma HeadLeadsInsertion<T>(s: seq<T>, x: T, tail: seq<T>, geq: (T, T) -> bool)
    requires SortedBy(s, geq) && s != [] && geq(s[0], x)
    requires multiset(tail) == multiset(s[1..]) + multiset{x}
    ensures forall j :: 0 <= j < |tail| ==> geq(s[0], tail[j])
  {
    forall j | 0 <= j < |tail|
      ensures geq(s[0], tail[j])
    {
      assert tail[j] in multiset(tail);
      if tail[j] != x {
        assert tail[j] in multiset(s[1..]);
        var m :| 0 <= m < |s[1..]| && s[1..][m] == tail[j];
        assert s[m + 1] == tail[j];
      }
    }
  }

  /** An `x` that the head of a sorted sequence does not rank above ranks
      above every element of it. */
  lemma NewHeadLeads<T(!new)>(s: seq<T>, x: T, geq: (T, T) -> bool)
    requires TotalPreorder(geq) && SortedBy(s, geq) && s != [] && !geq(s[0], x)
    ensures forall j :: 0 <= j < |s| ==> geq(x, s[j])
  {
    assert geq(x, s[0]);
    forall j | 0 <= j < |s|
      ensures geq(x, s[j])
    {
      if j > 0 {
        assert geq(s[0], s[j]);
      }
    }
  }

  /** The whole sequence in non-increasing rank order: a permutation of the
      input in which every element ranks at least as high as each later one. */
  function SortDesc<T(!new)>(s: seq<T>, geq: (T, T) -> bool): (r: seq<T>)
    requires TotalPreorder(geq)
    ensures |r| == |s|
    ensures multiset(r) == multiset(s)
    ensures SortedBy(r, geq)
  {
    if s == [] then []
    else
      var init := s[..|s| - 1];
      assert s == init + [s[|s| - 1]];
      Insert(SortDesc(init, geq), s[|s| - 1], geq)
  }

  /** In a sorted sequence, everything before a cut ranks at least as high
      as everything after it. */
  lemma SortedCut<T>(s: seq<T>, k: nat, geq: (T, T) -> bool)
    requires SortedBy(s, geq) && k <= |s|
    ensures forall x, y :: x in s[..k] && y in s[k..] ==> geq(x, y)
  {
    forall x, y | x in s[..k] && y in s[k..]
      ensures geq(x, y)
    {
      var i :| 0 <= i < k && s[..k][i] == x;
      var j :| 0 <= j < |s| - k && s[k..][j] == y;
      assert s[i] == x && s[k + j] == y;
    }
  }

  /** The head of a sorted sequence ranks at least as high as every element. */
  lemma SortedHeadLeads<T(!new)>(s: seq<T>, geq: (T, T) -> bool)
    requires TotalPreorder(geq) && SortedBy(s, geq) && s != []
    ensures forall x :: x in s ==> geq(s[0], x)
  {
    var top := s[0];
    assert geq(top, top) || geq(top, top);
  }

  /** A prefix of a sorted sequence is sorted and drawn from it. */
  lemma SortedPrefix<T>(s: seq<T>, k: nat, geq: (T, T) -> bool)
    requires SortedBy(s, geq) && k <= |s|
    ensures SortedBy(s[..k], geq)
    ensures multiset(s[..k]) <= multiset(s)
  {
    assert s == s[..k] + s[k..];
    assert multiset(s) == multiset(s[..k]) + multiset(s[k..]);
  }

  /** Keeping the first `k` elements of a sorted sequence keeps elements
      that rank at least as high as every element left out. */
  lemma SortedPrefixDominates<T>(s: seq<T>, k: nat, geq: (T, T) -> bool)
    requires SortedBy(s, geq) && k <= |s|
    ensures forall x, y :: x in s[..k] && y in multiset(s) - multiset(s[..k]) ==> geq(x, y)
  {
    assert s == s[..k] + s[k..];
    assert multiset(s) - multiset(s[..k]) == multiset(s[k..]);
    SortedCut(s, k, geq);
  }
}
