/** Column arithmetic: the sums, means, maxima and minima that pandas and
    Python's built-ins compute over a column of numbers, with exact
    rationals (`real`) in place of floating point. */
module Numeric {

  /** Python's `sum(values)`. */
  function Sum(s: seq<real>): real {
    if s == [] then 0.0 else s[0] + Sum(s[1..])
  }

  /** The arithmetic mean, `sum(values) / len(values)` (pandas `mean()`). */
  function Mean(s: seq<real>): real
    requires s != []
  {
    Sum(s) / |s| as real
  }

  /** Python's `max(values)`. */
  function Max(s: seq<real>): (m: real)
    requires s != []
    ensures m in s
    ensures forall i :: 0 <= i < |s| ==> s[i] <= m
  {
    if |s| == 1 then s[0]
    else
      var rest := Max(s[1..]);
      assert forall i :: 1 <= i < |s| ==> s[i] == s[1..][i - 1];
      if s[0] >= rest then s[0] else rest
  }

  /** Python's `min(values)`. */
  function Min(s: seq<real>): (m: real)
    requires s != []
    ensures m in s
    ensures forall i :: 0 <= i < |s| ==> m <= s[i]
  {
    if |s| == 1 then s[0]
    else
      var rest := Min(s[1..]);
      assert forall i :: 1 <= i < |s| ==> s[i] == s[1..][i - 1];
      if s[0] <= rest then s[0] else rest
  }

  /** The column `frame[name]` of a table whose rows are records: one value per row. */
  function Column<T>(rows: seq<T>, field: T -> real): (c: seq<real>)
    ensures |c| == |rows|
    ensures forall i :: 0 <= i < |rows| ==> c[i] == field(rows[i])
  {
    seq(|rows|, i requires 0 <= i < |rows| => field(rows[i]))
  }

  lemma {:induction false} SumAppend(a: seq<real>, b: seq<real>)
    ensures Sum(a + b) == Sum(a) + Sum(b)
  {
    if a == [] {
      assert a + b == b;
    } else {
      assert (a + b)[1..] == a[1..] + b;
      SumAppend(a[1..], b);
    }
  }

  /** A sum does not depend on the order of its terms. */
  lemma {:induction false} SumPermutation(a: seq<real>, b: seq<real>)
    requires multiset(a) == multiset(b)
    ensures Sum(a) == Sum(b)
    decreases |a|
  {
    if a != [] {
      var k := RemainingRowsAgree(a, b);
      SumPermutation(a[..0] + a[1..], b[..k] + b[k + 1..]);
      SumRemove(a, 0);
      SumRemove(b, k);
    }
  }

  /** Taking one term out of a sum. */
  lemma SumRemove(b: seq<real>, k: nat)
    requires k < |b|
    ensures Sum(b) == b[k] + Sum(b[..k] + b[k + 1..])
  {
    assert b == b[..k] + b[k..];
    SumAppend(b[..k], b[k..]);
    SumAppend(b[..k], b[k + 1..]);
    assert b[k..][1..] == b[k + 1..];
  }

  lemma ColumnAppend<T>(a: seq<T>, b: seq<T>, field: T -> real)
    ensures Column(a + b, field) == Column(a, field) + Column(b, field)
  {
  }

  /** Taking one row out of a table takes its value out of the column total. */
  lemma ColumnSumRemove<T>(b: seq<T>, k: nat, field: T -> real)
    requires k < |b|
    ensures Sum(Column(b, field)) == field(b[k]) + Sum(Column(b[..k] + b[k + 1..], field))
  {
    assert b == b[..k] + b[k..];
    ColumnAppend(b[..k], b[k..], field);
    ColumnAppend(b[..k], b[k + 1..], field);
    var c := Column(b[k..], field);
    assert c[1..] == Column(b[k + 1..], field);
    SumAppend(Column(b[..k], field), c);
    SumAppend(Column(b[..k], field), Column(b[k + 1..], field));
  }

  /** The total of a column does not depend on the order of the rows. */
  lemma {:induction false} ColumnSumPermutation<T>(a: seq<T>, b: seq<T>, field: T -> real)
    requires multiset(a) == multiset(b)
    ensures Sum(Column(a, field)) == Sum(Column(b, field))
    decreases |a|
  {
    if a != [] {
      var k := RemainingRowsAgree(a, b);
      ColumnSumPermutation(a[..0] + a[1..], b[..k] + b[k + 1..], field);
      ColumnSumRemove(a, 0, field);
      ColumnSumRemove(b, k, field);
    }
  }

  /** For permuted sequences, some `k` holds the head of `a` in `b`, and the
      rest of `a` is a permutation of `b` without its `k`-th element. */
  lemma RemainingRowsAgree<T>(a: seq<T>, b: seq<T>) returns (k: nat)
    requires a != [] && multiset(a) == multiset(b)
    ensures k < |b| && b[k] == a[0]
    ensures multiset(a[..0] + a[1..]) == multiset(b[..k] + b[k + 1..])
  {
    assert a[0] in a;
    assert a[0] in multiset(b);
    k :| 0 <= k < |b| && b[k] == a[0];
    MultisetRemove(a, 0);
    MultisetRemove(b, k);
  }

  /** Taking the element at `k` out of a sequence takes one copy of it out
      of its multiset. */
  lemma MultisetRemove<T>(b: seq<T>, k: nat)
    requires k < |b|
    ensures multiset(b[..k] + b[k + 1..]) == multiset(b) - multiset{b[k]}
  {
    assert b == b[..k] + ([b[k]] + b[k + 1..]);
  }

  /** The mean of a column lies between its minimum and its maximum. */
  lemma {:induction false} MeanBetweenMinAndMax(s: seq<real>)
    requires s != []
    ensures Min(s) <= Mean(s) <= Max(s)
  {
    MeanBounds(s, Min(s), Max(s));
  }

  /** The mean times the count gives back the total. */
  lemma MeanTimesCount(s: seq<real>)
    requires s != []
    ensures Mean(s) * |s| as real == Sum(s)
  {
    QuotientTimesDivisor(Sum(s), |s| as real);
  }

  lemma QuotientTimesDivisor(x: real, n: real)
    requires n > 0.0
    ensures x / n * n == x
  {
  }

  /** A mean lies within any bounds that hold for every value. */
  lemma MeanBounds(s: seq<real>, lo: real, hi: real)
    requires s != []
    requires forall i :: 0 <= i < |s| ==> lo <= s[i] <= hi
    ensures lo <= Mean(s) <= hi
  {
    var n, t := |s| as real, Sum(s);
    SumBounds(s, lo, hi);
    DivideBounds(t, n, lo, hi);
  }

  lemma DivideBounds(x: real, n: real, lo: real, hi: real)
    requires n > 0.0 && n * lo <= x <= n * hi
    ensures lo <= x / n <= hi
  {
    assert x / n - lo == (x - n * lo) / n;
    assert hi - x / n == (n * hi - x) / n;
  }

  lemma {:induction false} SumBounds(s: seq<real>, lo: real, hi: real)
    requires forall i :: 0 <= i < |s| ==> lo <= s[i] <= hi
    ensures |s| as real * lo <= Sum(s) <= |s| as real * hi
  {
    if s != [] {
      SumBounds(s[1..], lo, hi);
    }
  }

  /** A constant column has that constant as its mean. */
  lemma MeanOfConstant(s: seq<real>, c: real)
    requires s != []
    requires forall i :: 0 <= i < |s| ==> s[i] == c
    ensures Mean(s) == c
  {
    SumBounds(s, c, c);
    DivideBounds(Sum(s), |s| as real, c, c);
  }

  /** Each term less `c`: the deviations of a column from a reference value. */
  function Deviations(s: seq<real>, c: real): (d: seq<real>)
    ensures |d| == |s|
    ensures forall i :: 0 <= i < |s| ==> d[i] == s[i] - c
  {
    seq(|s|, i requires 0 <= i < |s| => s[i] - c)
  }

  lemma {:induction false} SumOfDeviations(s: seq<real>, c: real)
    ensures Sum(Deviations(s, c)) == Sum(s) - |s| as real * c
  {
    if s != [] {
      assert Deviations(s, c)[1..] == Deviations(s[1..], c);
      SumOfDeviations(s[1..], c);
    }
  }

  /** The deviations from the mean cancel out. */
  lemma DeviationsFromMeanCancel(s: seq<real>)
    requires s != []
    ensures Sum(Deviations(s, Mean(s))) == 0.0
  {
    SumOfDeviations(s, Mean(s));
  }
}
