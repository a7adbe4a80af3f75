/**
 * Stable sorting and filtering of sequences, the model of `Array.prototype.sort` (stable since
 * ES2019) and `Array.prototype.filter` as the planners use them.
 *
 * A comparator is given as `before(a, b)`: "a must be placed strictly before b". A JavaScript
 * comparator `cmp` corresponds to `before(a, b) == (cmp(a, b) < 0)`.
 */
module Sequences {

  /** `before` is a strict weak order: irreflexive, transitive, and incomparability is transitive. */
  ghost predicate StrictWeakOrder<T(!new)>(before: (T, T) -> bool) {
    && (forall a :: !before(a, a))
    && (forall a, b, c :: before(a, b) && before(b, c) ==> before(a, c))
    && (forall a, b, c :: before(a, b) ==> before(a, c) || before(c, b))
  }

  /** No later element must come strictly before an earlier one. */
  ghost predicate SortedBy<T>(s: seq<T>, before: (T, T) -> bool) {
    forall i, j :: 0 <= i < j < |s| ==> !before(s[j], s[i])
  }

  /** Neither element must come before the other. */
  predicate Tied<T>(a: T, b: T, before: (T, T) -> bool) {
    !before(a, b) && !before(b, a)
  }

  /** The elements of `s` tied with `e`, in their order in `s`. */
  function TiedWith<T>(s: seq<T>, e: T, before: (T, T) -> bool): seq<T> {
    if s == [] then []
    else (if Tied(s[0], e, before) then [s[0]] else []) + TiedWith(s[1..], e, before)
  }

  /** Insert `x`, which precedes every element of `r` in the input, at its stable position. */
  function Insert<T>(x: T, r: seq<T>, before: (T, T) -> bool): (s: seq<T>)
    ensures |s| == |r| + 1
  {
    if r == [] || !before(r[0], x) then [x] + r
    else [r[0]] + Insert(x, r[1..], before)
  }

  /** Stable insertion sort: the model of an in-place stable library sort. */
  function StableSort<T>(s: seq<T>, before: (T, T) -> bool): (r: seq<T>)
    ensures |r| == |s|
  {
    if s == [] then [] else Insert(s[0], StableSort(s[1..], before), before)
  }

  /** `s.filter(keep)`. */
  function Filter<T>(s: seq<T>, keep: T -> bool): seq<T> {
    if s == [] then []
    else (if keep(s[0]) then [s[0]] else []) + Filter(s[1..], keep)
  }

  lemma {:induction false} InsertPermutes<T>(x: T, r: seq<T>, before: (T, T) -> bool)
    ensures multiset(Insert(x, r, before)) == multiset([x] + r)
  {
    if r != [] && before(r[0], x) {
      InsertPermutes(x, r[1..], before);
      assert [r[0]] + r[1..] == r;
    }
  }

  /** Sorting only rearranges the elements. */
  lemma {:induction false} StableSortPermutes<T>(s: seq<T>, before: (T, T) -> bool)
    ensures multiset(StableSort(s, before)) == multiset(s)
    ensures |StableSort(s, before)| == |s|
  {
    if s != [] {
      StableSortPermutes(s[1..], before);
      InsertPermutes(s[0], StableSort(s[1..], before), before);
      assert [s[0]] + s[1..] == s;
    }
    assert |multiset(StableSort(s, before))| == |StableSort(s, before)|;
  }

  lemma {:induction false} InsertSorted<T(!new)>(x: T, r: seq<T>, before: (T, T) -> bool)
    requires StrictWeakOrder(before)
    requires SortedBy(r, before)
    ensures SortedBy(Insert(x, r, before), before)
    ensures multiset(Insert(x, r, before)) == multiset([x] + r)
  {
    InsertPermutes(x, r, before);
    if r == [] || !before(r[0], x) {
      var s := [x] + r;
      forall i, j | 0 <= i < j < |s| ensures !before(s[j], s[i]) {
        if i == 0 && j > 1 {
          // s[j] == r[j-1] does not precede r[0], and r[0] does not precede x
          assert !before(s[j], r[0]);
        }
      }
    } else {
      InsertSorted(x, r[1..], before);
      var t := Insert(x, r[1..], before);
      var s := [r[0]] + t;
      forall j | 0 < j < |s| ensures !before(s[j], r[0]) {
        assert s[j] in multiset(t);
        assert s[j] in multiset([x] + r[1..]);
        if s[j] == x {
        } else {
          assert s[j] in r[1..];
          var m :| 0 <= m < |r[1..]| && r[1..][m] == s[j];
          assert r[m + 1] == s[j];
        }
      }
    }
  }

  /** The result of sorting is ordered by `before`. */
  lemma {:induction false} StableSortSorted<T(!new)>(s: seq<T>, before: (T, T) -> bool)
    requires StrictWeakOrder(before)
    ensures SortedBy(StableSort(s, before), before)
  {
    if s != [] {
      StableSortSorted(s[1..], before);
      InsertSorted(s[0], StableSort(s[1..], before), before);
    }
  }

  lemma {:induction false} TiedWithConcat<T>(a: seq<T>, b: seq<T>, e: T, before: (T, T) -> bool)
    ensures TiedWith(a + b, e, before) == TiedWith(a, e, before) + TiedWith(b, e, before)
  {
    if a == [] {
      assert a + b == b;
    } else {
      TiedWithConcat(a[1..], b, e, before);
      assert (a + b)[1..] == a[1..] + b;
    }
  }

  lemma {:induction false} InsertKeepsTies<T(!new)>(x: T, r: seq<T>, e: T, before: (T, T) -> bool)
    requires StrictWeakOrder(before)
    ensures TiedWith(Insert(x, r, before), e, before) == TiedWith([x] + r, e, before)
  {
    if r != [] && before(r[0], x) {
      InsertKeepsTies(x, r[1..], e, before);
      TiedWithConcat([r[0]], Insert(x, r[1..], before), e, before);
      TiedWithConcat([x], r[1..], e, before);
      TiedWithConcat([r[0]], r[1..], e, before);
      TiedWithConcat([x], r, e, before);
      assert [r[0]] + r[1..] == r;
      if Tied(x, e, before) {
        // r[0] comes strictly before x, so it is not tied with anything tied with x
        assert before(r[0], e) || before(e, x);
      }
    }
  }

  /** Stability: the elements tied with any `e` keep their input order. */
  lemma {:induction false} StableSortStable<T(!new)>(s: seq<T>, e: T, before: (T, T) -> bool)
    requires StrictWeakOrder(before)
    ensures TiedWith(StableSort(s, before), e, before) == TiedWith(s, e, before)
  {
    if s != [] {
      StableSortStable(s[1..], e, before);
      InsertKeepsTies(s[0], StableSort(s[1..], before), e, before);
      TiedWithConcat([s[0]], StableSort(s[1..], before), e, before);
      TiedWithConcat([s[0]], s[1..], e, before);
      assert [s[0]] + s[1..] == s;
    }
  }

  lemma {:induction false} FilterConcat<T>(a: seq<T>, b: seq<T>, keep: T -> bool)
    ensures Filter(a + b, keep) == Filter(a, keep) + Filter(b, keep)
  {
    if a == [] {
      assert a + b == b;
    } else {
      var ab := a + b;
      assert ab[0] == a[0] && ab[1..] == a[1..] + b;
      FilterConcat(a[1..], b, keep);
      calc {
        Filter(ab, keep);
        (if keep(a[0]) then [a[0]] else []) + Filter(a[1..] + b, keep);
        (if keep(a[0]) then [a[0]] else []) + (Filter(a[1..], keep) + Filter(b, keep));
        ((if keep(a[0]) then [a[0]] else []) + Filter(a[1..], keep)) + Filter(b, keep);
      }
    }
  }

  /** Filtering keeps exactly the elements satisfying `keep`, in order. */
  lemma {:induction false} FilterKeeps<T>(s: seq<T>, keep: T -> bool)
    ensures forall x :: x in Filter(s, keep) <==> x in s && keep(x)
    ensures |Filter(s, keep)| <= |s|
    ensures multiset(Filter(s, keep)) <= multiset(s)
  {
    if s != [] {
      FilterKeeps(s[1..], keep);
      var head := if keep(s[0]) then [s[0]] else [];
      assert Filter(s, keep) == head + Filter(s[1..], keep);
      assert multiset(s) == multiset{s[0]} + multiset(s[1..]) by {
        assert s == [s[0]] + s[1..];
      }
    }
  }

  lemma AppendAssoc<T>(a: seq<T>, b: seq<T>, c: seq<T>)
    ensures a + (b + c) == (a + b) + c
  {
  }

  /** The sum of `f` over `s`. */
  function SumOf<T>(s: seq<T>, f: T -> int): int {
    if s == [] then 0 else f(s[0]) + SumOf(s[1..], f)
  }

  lemma SumOfSingle<T>(x: T, f: T -> int)
    ensures SumOf([x], f) == f(x)
  {
    assert [x][1..] == [];
  }

  lemma {:induction false} SumOfConcat<T>(a: seq<T>, b: seq<T>, f: T -> int)
    ensures SumOf(a + b, f) == SumOf(a, f) + SumOf(b, f)
  {
    if a == [] {
      assert a + b == b;
    } else {
      var ab := a + b;
      assert ab[0] == a[0] && ab[1..] == a[1..] + b;
      SumOfConcat(a[1..], b, f);
    }
  }

  /** Replacing one element changes the sum by the difference of the two values. */
  lemma {:induction false} SumOfUpdate<T>(s: seq<T>, i: nat, x: T, f: T -> int)
    requires i < |s|
    ensures SumOf(s[i := x], f) == SumOf(s, f) - f(s[i]) + f(x)
  {
    var t := s[i := x];
    if i == 0 {
      assert t[1..] == s[1..];
    } else {
      assert t[0] == s[0] && t[1..] == s[1..][i - 1 := x];
      SumOfUpdate(s[1..], i - 1, x, f);
    }
  }

  /** A sum of values that are all zero is zero; of values that are never negative, not negative. */
  lemma {:induction false} SumOfSigns<T>(s: seq<T>, f: T -> int)
    ensures (forall x :: x in s ==> f(x) >= 0) ==> SumOf(s, f) >= 0
    ensures (forall x :: x in s ==> f(x) == 0) ==> SumOf(s, f) == 0
  {
    if s != [] {
      SumOfSigns(s[1..], f);
      assert forall x :: x in s[1..] ==> x in s;
    }
  }

  lemma {:induction false} InsertSum<T>(x: T, r: seq<T>, before: (T, T) -> bool, f: T -> int)
    ensures SumOf(Insert(x, r, before), f) == f(x) + SumOf(r, f)
  {
    if r != [] && before(r[0], x) {
      InsertSum(x, r[1..], before, f);
      var t := Insert(x, r, before);
      assert t[0] == r[0] && t[1..] == Insert(x, r[1..], before);
    } else {
      var t := [x] + r;
      assert t[0] == x && t[1..] == r;
    }
  }

  /** Sorting does not change a sum. */
  lemma {:induction false} StableSortSum<T>(s: seq<T>, before: (T, T) -> bool, f: T -> int)
    ensures SumOf(StableSort(s, before), f) == SumOf(s, f)
  {
    if s != [] {
      StableSortSum(s[1..], before, f);
      InsertSum(s[0], StableSort(s[1..], before), before, f);
    }
  }
  /** No two elements of `s` share a key. */
  ghost predicate DistinctBy<T, K>(s: seq<T>, key: T -> K) {
    forall i, j :: 0 <= i < j < |s| ==> key(s[i]) != key(s[j])
  }

  lemma {:induction false} InsertDistinct<T, K>(x: T, r: seq<T>, before: (T, T) -> bool, key: T -> K)
    requires DistinctBy(r, key)
    requires forall y :: y in r ==> key(y) != key(x)
    ensures DistinctBy(Insert(x, r, before), key)
  {
    if r == [] || !before(r[0], x) {
      var s := [x] + r;
      forall i, j | 0 <= i < j < |s| ensures key(s[i]) != key(s[j]) {
        assert s[j] == r[j - 1];
        if i == 0 {
          assert r[j - 1] in r;
        } else {
          assert s[i] == r[i - 1];
        }
      }
    } else {
      assert DistinctBy(r[1..], key);
      InsertDistinct(x, r[1..], before, key);
      InsertPermutes(x, r[1..], before);
      var t := Insert(x, r[1..], before);
      var s := [r[0]] + t;
      forall j | 0 < j < |s| ensures key(s[0]) != key(s[j]) {
        assert s[j] in multiset([x] + r[1..]);
        if s[j] != x {
          assert s[j] in r[1..];
          var m :| 0 <= m < |r[1..]| && r[1..][m] == s[j];
          assert r[m + 1] == s[j];
        }
      }
      assert forall i, j :: 0 < i < j < |s| ==> s[i] == t[i - 1] && s[j] == t[j - 1];
    }
  }

  /** Sorting keeps keys distinct. */
  lemma {:induction false} StableSortDistinct<T, K>(s: seq<T>, before: (T, T) -> bool, key: T -> K)
    requires DistinctBy(s, key)
    ensures DistinctBy(StableSort(s, before), key)
  {
    if s != [] {
      assert DistinctBy(s[1..], key);
      StableSortDistinct(s[1..], before, key);
      StableSortPermutes(s[1..], before);
      forall y | y in StableSort(s[1..], before) ensures key(y) != key(s[0]) {
        assert y in multiset(s[1..]);
        var m :| 0 <= m < |s[1..]| && s[1..][m] == y;
        assert s[m + 1] == y;
      }
      InsertDistinct(s[0], StableSort(s[1..], before), before, key);
    }
  }

  /** Filtering out every element leaves nothing. */
  lemma {:induction false} FilterNone<T>(s: seq<T>, keep: T -> bool)
    requires forall x :: x in s ==> !keep(x)
    ensures Filter(s, keep) == []
  {
    if s != [] {
      FilterNone(s[1..], keep);
    }
  }

  /** Sums over two sequences that agree position by position are equal. */
  lemma {:induction false} SumOfPointwise<A, B>(a: seq<A>, f: A -> int, b: seq<B>, g: B -> int)
    requires |a| == |b|
    requires forall i :: 0 <= i < |a| ==> f(a[i]) == g(b[i])
    ensures SumOf(a, f) == SumOf(b, g)
  {
    if a != [] {
      SumOfPointwise(a[1..], f, b[1..], g);
    }
  }
}
