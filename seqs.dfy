/** Array methods the core uses on in-memory rows (`filter`, `map`,
    counting, `slice(0, n)` for SQL `LIMIT n`), with the facts about them
    that the other modules rely on. */
module Seqs {

  /** `s.filter(p)` */
  function Filter<T>(s: seq<T>, p: T -> bool): (r: seq<T>)
    ensures |r| <= |s|
    ensures forall i :: 0 <= i < |r| ==> r[i] in s && p(r[i])
    ensures forall i :: 0 <= i < |s| && p(s[i]) ==> s[i] in r
  {
    if s == [] then []
    else if p(s[0]) then [s[0]] + Filter(s[1..], p)
    else Filter(s[1..], p)
  }

  /** `s.map(f)` */
  function MapSeq<T, U>(s: seq<T>, f: T -> U): (r: seq<U>)
    ensures |r| == |s|
    ensures forall i :: 0 <= i < |s| ==> r[i] == f(s[i])
  {
    if s == [] then [] else [f(s[0])] + MapSeq(s[1..], f)
  }

  /** Mapping a slice one element longer appends the image of that element. */
  lemma MapSeqSnoc<T, U>(s: seq<T>, i: nat, j: nat, f: T -> U)
    requires i <= j < |s|
    ensures MapSeq(s[i..j + 1], f) == MapSeq(s[i..j], f) + [f(s[j])]
  {
    var longer, shorter := MapSeq(s[i..j + 1], f), MapSeq(s[i..j], f);
    forall k | 0 <= k < j - i ensures longer[k] == shorter[k] {
      assert s[i..j + 1][k] == s[i..j][k];
    }
    assert s[i..j + 1][j - i] == s[j];
  }

  /** Number of elements satisfying `p`. */
  function CountWhere<T>(s: seq<T>, p: T -> bool): (n: nat)
    ensures n <= |s|
  {
    if s == [] then 0 else (if p(s[0]) then 1 else 0) + CountWhere(s[1..], p)
  }

  /** SQL `LIMIT n` on rows in table order. */
  function Take<T>(s: seq<T>, n: nat): (r: seq<T>)
    ensures |r| <= n && |r| <= |s|
    ensures r == s[..|r|]
    ensures |s| <= n ==> r == s
  {
    if |s| <= n then s else s[..n]
  }

  /** `[x]` prepended to both the input of `filter` and, when it passes, the output. */
  lemma FilterCons<T>(x: T, s: seq<T>, p: T -> bool)
    ensures Filter([x] + s, p) == (if p(x) then [x] + Filter(s, p) else Filter(s, p))
  {
    assert ([x] + s)[1..] == s;
  }

  /** Appending `x` and `y`, with `y == f(|xs|, x)`, keeps `ys` pointwise
      `f` of `xs` and the position. */
  lemma SnocPointwise<A, B>(xs: seq<A>, ys: seq<B>, x: A, y: B, f: (nat, A) -> B)
    requires |xs| == |ys| && y == f(|xs|, x)
    requires forall i :: 0 <= i < |ys| ==> ys[i] == f(i, xs[i])
    ensures forall i :: 0 <= i < |ys| + 1 ==> (ys + [y])[i] == f(i, (xs + [x])[i])
  {
    forall i | 0 <= i < |ys| + 1 ensures (ys + [y])[i] == f(i, (xs + [x])[i]) {
      if i < |ys| {
        assert (ys + [y])[i] == ys[i] && (xs + [x])[i] == xs[i];
      }
    }
  }

  lemma {:induction false} FilterAppend<T>(a: seq<T>, b: seq<T>, p: T -> bool)
    ensures Filter(a + b, p) == Filter(a, p) + Filter(b, p)
  {
    if a == [] {
      assert a + b == b;
    } else {
      FilterAppend(a[1..], b, p);
      FilterAppendStep(a, b, p);
    }
  }

  lemma FilterAppendStep<T>(a: seq<T>, b: seq<T>, p: T -> bool)
    requires a != [] && Filter(a[1..] + b, p) == Filter(a[1..], p) + Filter(b, p)
    ensures Filter(a + b, p) == Filter(a, p) + Filter(b, p)
  {
    ConsAppend(a, b);
  }

  lemma ConsAppend<T>(a: seq<T>, b: seq<T>)
    requires a != []
    ensures (a + b)[0] == a[0] && (a + b)[1..] == a[1..] + b
  {
    assert (a + b)[1..] == a[1..] + b;
  }

  /** The length of a filter is its count. */
  lemma {:induction false} FilterLength<T>(s: seq<T>, p: T -> bool)
    ensures |Filter(s, p)| == CountWhere(s, p)
  {
    if s != [] {
      FilterLength(s[1..], p);
    }
  }

  /** A filter keeps each element at most as often as it occurs. */
  lemma {:induction false} FilterSubMultiset<T>(s: seq<T>, p: T -> bool)
    ensures multiset(Filter(s, p)) <= multiset(s)
  {
    if s != [] {
      FilterSubMultiset(s[1..], p);
      assert s == [s[0]] + s[1..];
    }
  }

  /** A prefix keeps each element at most as often as it occurs. */
  lemma PrefixSubMultiset<T>(s: seq<T>, n: nat)
    requires n <= |s|
    ensures multiset(s[..n]) <= multiset(s)
  {
    assert s == s[..n] + s[n..];
  }

  lemma {:induction false} CountAppend<T>(a: seq<T>, b: seq<T>, p: T -> bool)
    ensures CountWhere(a + b, p) == CountWhere(a, p) + CountWhere(b, p)
  {
    if a != [] {
      assert (a + b)[1..] == a[1..] + b;
      CountAppend(a[1..], b, p);
    } else {
      assert a + b == b;
    }
  }

  lemma {:induction false} CountNone<T>(s: seq<T>, p: T -> bool)
    requires forall i :: 0 <= i < |s| ==> !p(s[i])
    ensures CountWhere(s, p) == 0
  {
    if s != [] {
      CountNone(s[1..], p);
    }
  }

  /** Removing the element at `k` removes one copy of it from the multiset. */
  lemma {:induction false} RemoveAtMultiset<T>(b: seq<T>, k: nat)
    requires k < |b|
    ensures multiset(b[..k] + b[k + 1..]) == multiset(b) - multiset{b[k]}
  {
    var front, back := b[..k], b[k + 1..];
    assert b == front + [b[k]] + back;
    assert multiset(b) == multiset(front) + multiset{b[k]} + multiset(back);
    assert multiset(front + back) == multiset(front) + multiset(back);
  }

  /** Removing the element at `k` removes it from the count when it satisfies `p`. */
  lemma {:induction false} RemoveAtCount<T>(b: seq<T>, k: nat, p: T -> bool)
    requires k < |b|
    ensures CountWhere(b, p) == CountWhere(b[..k] + b[k + 1..], p) + (if p(b[k]) then 1 else 0)
  {
    var front, back := b[..k], b[k + 1..];
    assert b == (front + [b[k]]) + back;
    CountAppend(front + [b[k]], back, p);
    CountAppend(front, [b[k]], p);
    CountAppend(front, back, p);
  }

  /** Reordering a sequence does not change how many of its elements satisfy `p`. */
  lemma {:induction false} CountPermutation<T>(a: seq<T>, b: seq<T>, p: T -> bool)
    requires multiset(a) == multiset(b)
    ensures CountWhere(a, p) == CountWhere(b, p)
    decreases |a|
  {
    if a == [] {
      assert |b| == |multiset(b)| == 0;
    } else {
      assert a[0] in multiset(b);
      var k :| 0 <= k < |b| && b[k] == a[0];
      RemoveAtMultiset(b, k);
      RemoveAtCount(b, k, p);
      assert a == [a[0]] + a[1..];
      assert multiset(a[1..]) == multiset(a) - multiset{a[0]};
      CountPermutation(a[1..], b[..k] + b[k + 1..], p);
    }
  }

  /** Two sequences whose elements agree on `p` position by position have the
      same count. */
  lemma {:induction false} CountPointwise<T>(a: seq<T>, b: seq<T>, p: T -> bool)
    requires |a| == |b| && forall i :: 0 <= i < |a| ==> p(a[i]) == p(b[i])
    ensures CountWhere(a, p) == CountWhere(b, p)
  {
    if a != [] {
      CountPointwise(a[1..], b[1..], p);
    }
  }

  /** Two positions satisfying `p` make a count of at least two. */
  lemma {:induction false} CountTwo<T>(s: seq<T>, p: T -> bool, i: nat, j: nat)
    requires i < j < |s| && p(s[i]) && p(s[j])
    ensures CountWhere(s, p) >= 2
  {
    if i > 0 {
      CountTwo(s[1..], p, i - 1, j - 1);
    } else {
      CountAtLeastOne(s[1..], p, j - 1);
    }
  }

  lemma {:induction false} CountAtLeastOne<T>(s: seq<T>, p: T -> bool, j: nat)
    requires j < |s| && p(s[j])
    ensures CountWhere(s, p) >= 1
  {
    if j > 0 {
      CountAtLeastOne(s[1..], p, j - 1);
    }
  }

  /** No element occurs twice. */
  ghost predicate NoDuplicates<T>(s: seq<T>) {
    forall i, j :: 0 <= i < j < |s| ==> s[i] != s[j]
  }

  /** Two sequences without duplicates and without a common element
      concatenate to one without duplicates. */
  lemma AppendNoDuplicates<T>(a: seq<T>, b: seq<T>)
    requires NoDuplicates(a) && NoDuplicates(b)
    requires forall x :: x in a ==> x !in b
    ensures NoDuplicates(a + b)
  {
    forall i, j | 0 <= i < j < |a + b| ensures (a + b)[i] != (a + b)[j] {
      if j < |a| {
        assert (a + b)[i] == a[i] && (a + b)[j] == a[j];
      } else if i >= |a| {
        assert (a + b)[i] == b[i - |a|] && (a + b)[j] == b[j - |a|];
      } else {
        assert (a + b)[i] == a[i] && (a + b)[j] == b[j - |a|];
        assert a[i] in a;
      }
    }
  }
}
