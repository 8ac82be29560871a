/** The two medians of the core: the one of computeBaselines
    (packages/ingest/src/signals.ts), which sorts ascending and takes the
    element at half the length rounded down, and SQL `percentile_cont(0.5)`
    of the score cohorts (apps/web/src/lib/scoring.ts), which interpolates
    between the two middle values. */
module Medians {
  import opened Js
  import opened Seqs
  import opened Sorting

  /** `xs.slice().sort((a, b) => a - b)[Math.floor(xs.length / 2)]`, or
      null for no values: the middle value, the upper one of the two middle
      values when there is an even number of them. */
  function UpperMedian(xs: seq<real>): (r: Option<real>)
    ensures r.None? <==> xs == []
    ensures r.Some? ==> r.value in xs
  {
    if xs == [] then None
    else
      var sorted := SortBy(xs, Ascending);
      assert sorted[|xs| / 2] in multiset(xs);
      Some(sorted[|xs| / 2])
  }

  const Ascending: (real, real) -> real := (a: real, b: real) => a - b

  function Below(m: real): real -> bool {
    x => x < m
  }

  function Above(m: real): real -> bool {
    x => x > m
  }

  /** No value is greater than a later one. */
  ghost predicate SortedReals(r: seq<real>) {
    forall i, j :: 0 <= i < j < |r| ==> r[i] <= r[j]
  }

  const Identity: real -> real := (x: real) => x

  lemma SortByAscendingSorted(xs: seq<real>)
    ensures SortedReals(SortBy(xs, Ascending))
  {
    assert KeyedBy(xs, Ascending, Identity);
    SortByKeySorted(xs, Ascending, Identity);
    var r := SortBy(xs, Ascending);
    forall i, j | 0 <= i < j < |r| ensures r[i] <= r[j] {
      assert Identity(r[i]) <= Identity(r[j]);
    }
  }

  lemma CountBelowSorted(r: seq<real>, k: nat)
    requires SortedReals(r) && k < |r|
    ensures CountWhere(r, Below(r[k])) <= k
  {
    var m := r[k];
    var head, tail := r[..k], r[k..];
    assert r == head + tail;
    CountAppend(head, tail, Below(m));
    forall i | 0 <= i < |tail| ensures !Below(m)(tail[i]) {
      assert tail[i] == r[k + i];
    }
    CountNone(tail, Below(m));
  }

  lemma CountAboveSorted(r: seq<real>, k: nat)
    requires SortedReals(r) && k < |r|
    ensures CountWhere(r, Above(r[k])) <= |r| - 1 - k
  {
    var m := r[k];
    var head, tail := r[..k + 1], r[k + 1..];
    assert r == head + tail;
    CountAppend(head, tail, Above(m));
    forall i | 0 <= i < |head| ensures !Above(m)(head[i]) {
      assert head[i] == r[i];
    }
    CountNone(head, Above(m));
  }

  /** What the median means: at most half of the values (rounded down) lie
      strictly below it and fewer than half strictly above it. */
  lemma MedianRank(xs: seq<real>)
    requires xs != []
    ensures CountWhere(xs, Below(UpperMedian(xs).value)) <= |xs| / 2
    ensures CountWhere(xs, Above(UpperMedian(xs).value)) <= |xs| - 1 - |xs| / 2
  {
    var r := SortBy(xs, Ascending);
    var m := r[|xs| / 2];
    SortByAscendingSorted(xs);
    CountPermutation(xs, r, Below(m));
    CountPermutation(xs, r, Above(m));
    CountBelowSorted(r, |xs| / 2);
    CountAboveSorted(r, |xs| / 2);
  }

  /** With four values the third smallest is taken, not the mean of the
      middle two. */
  lemma MedianOfFour(a: real, b: real, c: real, d: real)
    requires a <= b <= c <= d
    ensures UpperMedian([a, b, c, d]) == Some(c)
  {
    SortedFour(a, b, c, d);
  }

  lemma SortedFour(a: real, b: real, c: real, d: real)
    requires a <= b <= c <= d
    ensures SortBy([a, b, c, d], Ascending) == [a, b, c, d]
  {
    assert Ordered([a, b, c, d], Ascending);
    SortOrdered([a, b, c, d], Ascending);
  }

  /** `percentile_cont(0.5) WITHIN GROUP (ORDER BY x)` over non-null values:
      the middle value, or the mean of the two middle values; null for none. */
  function InterpolatedMedian(xs: seq<real>): (r: Option<real>)
    ensures r.None? <==> xs == []
  {
    if xs == [] then None
    else
      var sorted := SortBy(xs, Ascending);
      var n := |xs|;
      if n % 2 == 1 then Some(sorted[n / 2])
      else Some((sorted[n / 2 - 1] + sorted[n / 2]) / 2.0)
  }

  /** The interpolated median of values within a range is within it. */
  lemma InterpolatedMedianWithin(xs: seq<real>, lo: real, hi: real)
    requires forall i :: 0 <= i < |xs| ==> lo <= xs[i] <= hi
    ensures InterpolatedMedian(xs).Some? ==> lo <= InterpolatedMedian(xs).value <= hi
  {
    if xs != [] {
      var sorted := SortBy(xs, Ascending);
      var n := |xs|;
      assert sorted[n / 2] in multiset(xs);
      if n % 2 == 0 {
        assert sorted[n / 2 - 1] in multiset(xs);
      }
    }
  }

  /** The interpolated median of two values is their mean, where the median
      of computeBaselines takes the larger one. */
  lemma MedianOfTwo()
    ensures InterpolatedMedian([300000.0, 100000.0]) == Some(200000.0)
    ensures UpperMedian([300000.0, 100000.0]) == Some(300000.0)
  {
    var xs := [300000.0, 100000.0];
    assert xs[1..] == [100000.0];
    assert SortBy([100000.0], Ascending) == [100000.0];
    assert SortBy(xs, Ascending) == [100000.0, 300000.0];
  }
}
