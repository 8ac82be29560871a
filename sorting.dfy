/** `Array.prototype.sort` with a comparator, which ECMAScript requires to be
    stable: an element goes before another when the comparator is negative,
    and elements the comparator calls equal keep their original order.
    Modelled as a stable insertion sort; the same function stands for SQL
    `ORDER BY` on a single key. */
module Sorting {

  /** Inserts `x`, which came before every element of `t` in the input, in
      front of the first element it is not after. */
  function Insert<T>(x: T, t: seq<T>, cmp: (T, T) -> real): (r: seq<T>)
    ensures |r| == |t| + 1
    ensures multiset(r) == multiset(t) + multiset{x}
  {
    if t == [] || cmp(x, t[0]) <= 0.0 then [x] + t
    else
      assert t == [t[0]] + t[1..];
      [t[0]] + Insert(x, t[1..], cmp)
  }

  /** `s.slice().sort(cmp)` */
  function SortBy<T>(s: seq<T>, cmp: (T, T) -> real): (r: seq<T>)
    ensures |r| == |s|
    ensures multiset(r) == multiset(s)
  {
    if s == [] then []
    else
      assert s == [s[0]] + s[1..];
      Insert(s[0], SortBy(s[1..], cmp), cmp)
  }

  /** `cmp(a, b) == -cmp(b, a)` on the elements of `s`. */
  ghost predicate Antisymmetric<T>(s: seq<T>, cmp: (T, T) -> real) {
    forall a, b :: a in s && b in s ==> cmp(a, b) == -cmp(b, a)
  }

  /** On the elements of `s` the comparator subtracts one numeric key from
      another: `(a, b) => key(a) - key(b)`. */
  ghost predicate KeyedBy<T>(s: seq<T>, cmp: (T, T) -> real, key: T -> real) {
    forall a, b :: a in s && b in s ==> cmp(a, b) == key(a) - key(b)
  }

  /** The first element of the sorted sequence is the head of the insertion or
      of the sorted tail, whichever is not after the other. */
  lemma HeadOfInsert<T>(x: T, t: seq<T>, cmp: (T, T) -> real)
    ensures Insert(x, t, cmp)[0] == (if t == [] || cmp(x, t[0]) <= 0.0 then x else t[0])
  {
  }

  /** Whatever the comparator, the first element of the result is an input
      element `s[i]` that every earlier input element is strictly after: on
      a tie the earliest element wins. */
  lemma {:induction false} HeadIsEarliestWinner<T>(s: seq<T>, cmp: (T, T) -> real) returns (i: nat)
    requires |s| > 0
    ensures i < |s| && s[i] == SortBy(s, cmp)[0]
    ensures forall j :: 0 <= j < i ==> cmp(s[j], s[i]) > 0.0
  {
    if |s| == 1 {
      assert SortBy(s, cmp) == Insert(s[0], [], cmp);
      i := 0;
    } else {
      var k := HeadIsEarliestWinner(s[1..], cmp);
      i := EarliestStep(s, cmp, k);
    }
  }

  /** The inductive step of `HeadIsEarliestWinner`: from the winner `s[k + 1]`
      of the tail to the winner of the whole sequence. */
  lemma EarliestStep<T>(s: seq<T>, cmp: (T, T) -> real, k: nat) returns (i: nat)
    requires |s| > 1 && k < |s| - 1 && s[k + 1] == SortBy(s[1..], cmp)[0]
    requires forall j :: 1 <= j < k + 1 ==> cmp(s[j], s[k + 1]) > 0.0
    ensures i < |s| && s[i] == SortBy(s, cmp)[0]
    ensures forall j :: 0 <= j < i ==> cmp(s[j], s[i]) > 0.0
  {
    var t := SortBy(s[1..], cmp);
    assert SortBy(s, cmp) == Insert(s[0], t, cmp);
    HeadOfInsert(s[0], t, cmp);
    i := if cmp(s[0], t[0]) <= 0.0 then 0 else k + 1;
  }

  /** Each element is not after the next one. */
  ghost predicate Ordered<T>(r: seq<T>, cmp: (T, T) -> real) {
    forall i :: 0 <= i < |r| - 1 ==> cmp(r[i], r[i + 1]) <= 0.0
  }
  /** Sorting a sequence that is already in order changes nothing. */
  lemma {:induction false} SortOrdered<T>(s: seq<T>, cmp: (T, T) -> real)
    requires Ordered(s, cmp)
    ensures SortBy(s, cmp) == s
  {
    if s != [] {
      assert Ordered(s[1..], cmp) by {
        forall i | 0 <= i < |s[1..]| - 1 ensures cmp(s[1..][i], s[1..][i + 1]) <= 0.0 {
          assert s[1..][i] == s[i + 1] && s[1..][i + 1] == s[i + 2];
        }
      }
      SortOrdered(s[1..], cmp);
      assert s == [s[0]] + s[1..];
    }
  }


  lemma {:induction false} InsertOrdered<T>(x: T, t: seq<T>, cmp: (T, T) -> real, all: seq<T>)
    requires Ordered(t, cmp)
    requires x in all && (forall y :: y in t ==> y in all) && Antisymmetric(all, cmp)
    ensures Ordered(Insert(x, t, cmp), cmp)
  {
    if t != [] && cmp(x, t[0]) > 0.0 {
      assert t[0] in t;
      InsertOrdered(x, t[1..], cmp, all);
      var r' := Insert(x, t[1..], cmp);
      HeadOfInsert(x, t[1..], cmp);
      assert cmp(t[0], x) == -cmp(x, t[0]);
      var r := Insert(x, t, cmp);
      assert r == [t[0]] + r';
      forall i | 0 <= i < |r| - 1 ensures cmp(r[i], r[i + 1]) <= 0.0 {
        if i > 0 {
          assert r[i] == r'[i - 1] && r[i + 1] == r'[i];
        }
      }
    }
  }

  /** With an antisymmetric comparator each element of the result is not
      after the next. */
  lemma {:induction false} SortByOrdered<T>(s: seq<T>, cmp: (T, T) -> real)
    requires Antisymmetric(s, cmp)
    ensures Ordered(SortBy(s, cmp), cmp)
  {
    if s != [] {
      var t := SortBy(s[1..], cmp);
      forall y | y in s[1..] ensures y in s { }
      SortByOrdered(s[1..], cmp);
      forall y | y in t ensures y in s {
        assert y in multiset(t);
        assert y in multiset(s[1..]);
      }
      InsertOrdered(s[0], t, cmp, s);
    }
  }

  /** Key non-decreasing along the sequence. */
  ghost predicate SortedByKey<T>(r: seq<T>, key: T -> real) {
    forall i, j :: 0 <= i < j < |r| ==> key(r[i]) <= key(r[j])
  }

  lemma {:induction false} SortedStep<T>(r: seq<T>, key: T -> real, i: nat, j: nat)
    requires forall k :: 0 <= k < |r| - 1 ==> key(r[k]) <= key(r[k + 1])
    requires i < j < |r|
    ensures key(r[i]) <= key(r[j])
    decreases j - i
  {
    if j > i + 1 {
      SortedStep(r, key, i + 1, j);
    }
  }

  lemma KeyedAntisymmetric<T>(s: seq<T>, cmp: (T, T) -> real, key: T -> real)
    requires KeyedBy(s, cmp, key)
    ensures Antisymmetric(s, cmp)
  {
  }

  lemma OrderedIsKeyStep<T>(r: seq<T>, s: seq<T>, cmp: (T, T) -> real, key: T -> real)
    requires KeyedBy(s, cmp, key) && multiset(r) == multiset(s) && Ordered(r, cmp)
    ensures forall k :: 0 <= k < |r| - 1 ==> key(r[k]) <= key(r[k + 1])
  {
    forall k | 0 <= k < |r| - 1 ensures key(r[k]) <= key(r[k + 1]) {
      assert r[k] in multiset(s) && r[k + 1] in multiset(s);
    }
  }

  lemma StepsSorted<T>(r: seq<T>, key: T -> real)
    requires forall k :: 0 <= k < |r| - 1 ==> key(r[k]) <= key(r[k + 1])
    ensures SortedByKey(r, key)
  {
    forall i, j | 0 <= i < j < |r| ensures key(r[i]) <= key(r[j]) {
      SortedStep(r, key, i, j);
    }
  }

  lemma SortedHeadLeast<T>(r: seq<T>, key: T -> real)
    requires SortedByKey(r, key) && |r| > 0
    ensures forall y :: y in r ==> key(r[0]) <= key(y)
  {
    forall y | y in r ensures key(r[0]) <= key(y) {
      var k :| 0 <= k < |r| && r[k] == y;
      if k > 0 {
        assert key(r[0]) <= key(r[k]);
      }
    }
  }

  /** With a key comparator the result is sorted by the key and its first
      element has the least key of the input. */
  lemma SortByKeySorted<T>(s: seq<T>, cmp: (T, T) -> real, key: T -> real)
    requires KeyedBy(s, cmp, key)
    ensures SortedByKey(SortBy(s, cmp), key)
    ensures |s| > 0 ==> forall y :: y in s ==> key(SortBy(s, cmp)[0]) <= key(y)
  {
    var r := SortBy(s, cmp);
    KeyedAntisymmetric(s, cmp, key);
    SortByOrdered(s, cmp);
    OrderedIsKeyStep(r, s, cmp, key);
    StepsSorted(r, key);
    if |s| > 0 {
      SortedHeadLeast(r, key);
      forall y | y in s ensures y in r {
        assert y in multiset(s);
      }
    }
  }

  /** With a key comparator the first element of the result is `s[i]`, the
      earliest input element of least key. */
  lemma SortByKeyHead<T>(s: seq<T>, cmp: (T, T) -> real, key: T -> real) returns (i: nat)
    requires KeyedBy(s, cmp, key) && |s| > 0
    ensures i < |s| && s[i] == SortBy(s, cmp)[0]
    ensures forall j :: 0 <= j < |s| ==> key(s[i]) <= key(s[j])
    ensures forall j :: 0 <= j < i ==> key(s[i]) < key(s[j])
  {
    SortByKeySorted(s, cmp, key);
    i := HeadIsEarliestWinner(s, cmp);
    forall j | 0 <= j < |s| ensures key(s[i]) <= key(s[j]) {
      assert s[j] in s;
    }
    forall j | 0 <= j < i ensures key(s[i]) < key(s[j]) {
      assert s[j] in s && s[i] in s;
    }
  }
}
