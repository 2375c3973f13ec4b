/**
  * Stand-ins for the pieces of the Kotlin standard library that the
  * positioning code leans on: nullable results, `sum`/`average`,
  * `coerceIn`, `indexOf`, the stable `sortedBy`/`sortBy` family, and
  * the square root of `kotlin.math`.
  */
module Support {

  datatype Option<+T> = None | Some(value: T)

  /**
    * The square root is not definable in Dafny, so every operation that
    * needs one takes it as a parameter. On non-negative arguments it is
    * the non-negative root.
    */
  ghost predicate IsSquareRoot(sqrt: real -> real) {
    forall x: real {:trigger sqrt(x)} :: 0.0 <= x ==> 0.0 <= sqrt(x) && sqrt(x) * sqrt(x) == x
  }

  function Square(x: real): real { x * x }

  lemma MulPositive(a: real, b: real)
    requires 0.0 < a && 0.0 < b
    ensures 0.0 < a * b
  {
  }

  /** `sum()` of a list of doubles, accumulated from the front. */
  function Sum(xs: seq<real>): real {
    if xs == [] then 0.0 else Sum(xs[..|xs| - 1]) + xs[|xs| - 1]
  }

  /** `average()`; the empty list gives 0.0 here where Kotlin gives NaN. */
  function Mean(xs: seq<real>): real {
    if |xs| == 0 then 0.0 else Sum(xs) / |xs| as real
  }

  /** Sum of the products `vs[i] * ws[i]`, accumulated from the front. */
  function Dot(vs: seq<real>, ws: seq<real>): real
    requires |vs| == |ws|
  {
    if vs == [] then 0.0 else Dot(vs[..|vs| - 1], ws[..|ws| - 1]) + vs[|vs| - 1] * ws[|ws| - 1]
  }

  /** `coerceIn(lo, hi)`. */
  function Clamp(x: real, lo: real, hi: real): (r: real)
    requires lo <= hi
    ensures lo <= r <= hi
    ensures lo <= x <= hi ==> r == x
    ensures x < lo ==> r == lo
    ensures hi < x ==> r == hi
  {
    if x < lo then lo else if x > hi then hi else x
  }

  function Min(xs: seq<real>): (m: real)
    requires |xs| > 0
    ensures m in xs
    ensures forall x :: x in xs ==> m <= x
  {
    if |xs| == 1 then xs[0]
    else
      var m' := Min(xs[1..]);
      assert forall x :: x in xs ==> x == xs[0] || x in xs[1..];
      if xs[0] <= m' then xs[0] else m'
  }

  function Max(xs: seq<real>): (m: real)
    requires |xs| > 0
    ensures m in xs
    ensures forall x :: x in xs ==> x <= m
  {
    if |xs| == 1 then xs[0]
    else
      var m' := Max(xs[1..]);
      assert forall x :: x in xs ==> x == xs[0] || x in xs[1..];
      if xs[0] >= m' then xs[0] else m'
  }

  /** `indexOf`: the first position of `x`, or -1. */
  function IndexOf<T(==)>(s: seq<T>, x: T): (r: int)
    ensures -1 <= r < |s|
    ensures r == -1 <==> x !in s
    ensures 0 <= r ==> r < |s| && s[r] == x && x !in s[..r]
  {
    if |s| == 0 then -1
    else if s[0] == x then 0
    else
      var r := IndexOf(s[1..], x);
      assert s[1..][..if r < 0 then 0 else r] == s[1..1 + (if r < 0 then 0 else r)];
      if r < 0 then -1 else 1 + r
  }

  /** The first position of `x` is the one with no earlier `x`. */
  lemma IndexOfUnique<T>(s: seq<T>, x: T, p: int)
    requires 0 <= p < |s| && s[p] == x && x !in s[..p]
    ensures IndexOf(s, x) == p
  {
  }

  /** In a duplicate-free list every element is first found at its own position. */
  lemma DistinctIndexOf<T>(s: seq<T>)
    requires Distinct(s)
    ensures forall i :: 0 <= i < |s| ==> IndexOf(s, s[i]) == i
  {
    forall i | 0 <= i < |s| ensures IndexOf(s, s[i]) == i {
      assert s[i] !in s[..i];
      IndexOfUnique(s, s[i], i);
    }
  }

  /** An element of a prefix is first found where the prefix first has it. */
  lemma IndexOfPrefix<T>(s: seq<T>, n: int, x: T)
    requires 0 <= n <= |s| && x in s[..n]
    ensures IndexOf(s, x) == IndexOf(s[..n], x) < n
  {
    var p := IndexOf(s[..n], x);
    assert s[..p] == s[..n][..p];
    IndexOfUnique(s, x, p);
  }

  /** A running total over a prefix grows by the next element. */
  lemma SumPrefixStep(acc: real, x: real, xs: seq<real>, i: int)
    requires 0 <= i < |xs|
    requires acc == Sum(xs[..i]) && x == xs[i]
    ensures acc + x == Sum(xs[..i + 1])
  {
    assert xs[..i + 1][..i] == xs[..i];
  }

  /** A running weighted total over a prefix grows by the next product. */
  lemma DotPrefixStep(acc: real, v: real, w: real, vs: seq<real>, ws: seq<real>, i: int)
    requires |vs| == |ws| && 0 <= i < |vs|
    requires acc == Dot(vs[..i], ws[..i]) && v == vs[i] && w == ws[i]
    ensures acc + v * w == Dot(vs[..i + 1], ws[..i + 1])
  {
    assert vs[..i + 1][..i] == vs[..i];
    assert ws[..i + 1][..i] == ws[..i];
  }

  lemma {:induction false} SumNonNegative(xs: seq<real>)
    requires forall i :: 0 <= i < |xs| ==> 0.0 <= xs[i]
    ensures 0.0 <= Sum(xs)
  {
    if xs != [] {
      SumNonNegative(xs[..|xs| - 1]);
    }
  }

  /** Every element within [lo, hi] bounds the sum by |xs| times either end. */
  lemma {:induction false} SumWithin(xs: seq<real>, lo: real, hi: real)
    requires forall i :: 0 <= i < |xs| ==> lo <= xs[i] <= hi
    ensures |xs| as real * lo <= Sum(xs) <= |xs| as real * hi
  {
    if xs != [] {
      var n := |xs| - 1;
      SumWithin(xs[..n], lo, hi);
      assert (n + 1) as real * lo == n as real * lo + lo;
      assert (n + 1) as real * hi == n as real * hi + hi;
    }
  }

  /** The average of values within [lo, hi] stays within [lo, hi]. */
  lemma {:induction false} MeanWithin(xs: seq<real>, lo: real, hi: real)
    requires |xs| > 0
    requires forall i :: 0 <= i < |xs| ==> lo <= xs[i] <= hi
    ensures lo <= Mean(xs) <= hi
  {
    var n := |xs| as real;
    SumWithin(xs, lo, hi);
    DivideWithin(Sum(xs), n, lo, hi);
  }

  lemma DivideWithin(a: real, w: real, lo: real, hi: real)
    requires 0.0 < w
    requires lo * w <= a <= hi * w
    ensures lo <= a / w <= hi
  {
    assert a / w - lo == (a - w * lo) / w;
    assert hi - a / w == (w * hi - a) / w;
  }

  /** Sums respect a pointwise order. */
  lemma {:induction false} SumMonotone(xs: seq<real>, ys: seq<real>)
    requires |xs| == |ys|
    requires forall i :: 0 <= i < |xs| ==> xs[i] <= ys[i]
    ensures Sum(xs) <= Sum(ys)
  {
    if xs != [] {
      var n := |xs| - 1;
      SumMonotone(xs[..n], ys[..n]);
    }
  }

  /** The terms `vs[i] * ws[i]` that `Dot` adds up. */
  function Products(vs: seq<real>, ws: seq<real>): seq<real>
    requires |vs| == |ws|
  {
    seq(|vs|, i requires 0 <= i < |vs| => vs[i] * ws[i])
  }

  lemma {:induction false} DotIsSumOfProducts(vs: seq<real>, ws: seq<real>)
    requires |vs| == |ws|
    ensures Dot(vs, ws) == Sum(Products(vs, ws))
  {
    if vs != [] {
      var n := |vs| - 1;
      DotIsSumOfProducts(vs[..n], ws[..n]);
      var ps, qs := Products(vs, ws)[..n], Products(vs[..n], ws[..n]);
      assert |ps| == |qs|;
      forall i | 0 <= i < n ensures ps[i] == qs[i] {
        assert vs[..n][i] == vs[i] && ws[..n][i] == ws[i];
      }
      assert ps == qs;
    }
  }

  /** The terms `c * ws[i]`. */
  function Scaled(c: real, ws: seq<real>): seq<real> {
    seq(|ws|, i requires 0 <= i < |ws| => c * ws[i])
  }

  lemma Distribute(c: real, a: real, b: real)
    ensures c * (a + b) == c * a + c * b
  {
  }

  lemma {:induction false} SumScaled(c: real, ws: seq<real>)
    ensures Sum(Scaled(c, ws)) == c * Sum(ws)
  {
    if ws != [] {
      var n := |ws| - 1;
      SumScaled(c, ws[..n]);
      var ps, qs := Scaled(c, ws)[..n], Scaled(c, ws[..n]);
      assert |ps| == |qs|;
      forall i | 0 <= i < n ensures ps[i] == qs[i] {
        assert ws[..n][i] == ws[i];
      }
      assert ps == qs;
      Distribute(c, Sum(ws[..n]), ws[n]);
    }
  }

  lemma MulLeft(a: real, b: real, w: real)
    requires a <= b && 0.0 <= w
    ensures a * w <= b * w
  {
    assert b * w - a * w == (b - a) * w;
  }

  /**
    * With non-negative weights, the weighted sum of values in [lo, hi] lies
    * between lo and hi times the total weight.
    */
  lemma {:induction false} DotWithin(vs: seq<real>, ws: seq<real>, lo: real, hi: real)
    requires |vs| == |ws|
    requires forall i :: 0 <= i < |ws| ==> 0.0 <= ws[i]
    requires forall i :: 0 <= i < |vs| ==> lo <= vs[i] <= hi
    ensures lo * Sum(ws) <= Dot(vs, ws) <= hi * Sum(ws)
  {
    var low, ps, high := Scaled(lo, ws), Products(vs, ws), Scaled(hi, ws);
    forall i | 0 <= i < |vs| ensures low[i] <= ps[i] <= high[i] {
      MulLeft(lo, vs[i], ws[i]);
      MulLeft(vs[i], hi, ws[i]);
    }
    SumMonotone(low, ps);
    SumMonotone(ps, high);
    DotIsSumOfProducts(vs, ws);
    SumScaled(lo, ws);
    SumScaled(hi, ws);
  }

  /**
    * A weighted average with non-negative weights and a positive total lies
    * between any bounds of the values.
    */
  lemma {:induction false} WeightedMeanBetween(vs: seq<real>, ws: seq<real>, lo: real, hi: real)
    requires |vs| == |ws|
    requires forall i :: 0 <= i < |ws| ==> 0.0 <= ws[i]
    requires forall i :: 0 <= i < |vs| ==> lo <= vs[i] <= hi
    requires Sum(ws) > 0.0
    ensures lo <= Dot(vs, ws) / Sum(ws) <= hi
  {
    var d, t := Dot(vs, ws), Sum(ws);
    DotWithin(vs, ws, lo, hi);
    DivideWithin(d, t, lo, hi);
  }

  /** ... in particular between the smallest and the largest value. */
  lemma {:induction false} WeightedMeanWithin(vs: seq<real>, ws: seq<real>)
    requires |vs| == |ws| && |vs| > 0
    requires forall i :: 0 <= i < |ws| ==> 0.0 <= ws[i]
    requires Sum(ws) > 0.0
    ensures Min(vs) <= Dot(vs, ws) / Sum(ws) <= Max(vs)
  {
    var lo, hi := Min(vs), Max(vs);
    forall i | 0 <= i < |vs| ensures lo <= vs[i] <= hi {
      assert vs[i] in vs;
    }
    WeightedMeanBetween(vs, ws, lo, hi);
  }

  // ---------------------------------------------------------------------
  // Stable sorting by a key, as Kotlin's `sortedBy` / `sortBy` (TimSort)
  // do: ascending in the key, equal keys keep their input order.
  // ---------------------------------------------------------------------

  ghost predicate SortedBy<T>(s: seq<T>, key: T -> real) {
    forall i, j :: 0 <= i < j < |s| ==> key(s[i]) <= key(s[j])
  }

  /** Places `x` after every element of `s` whose key is not larger. */
  function Insert<T>(x: T, s: seq<T>, key: T -> real): (r: seq<T>)
    ensures |r| == |s| + 1
    ensures multiset(r) == multiset(s) + multiset{x}
  {
    if s == [] then [x]
    else if key(x) < key(s[0]) then
      [x] + s
    else
      assert s == [s[0]] + s[1..];
      [s[0]] + Insert(x, s[1..], key)
  }

  lemma {:induction false} InsertSorted<T>(x: T, s: seq<T>, key: T -> real)
    requires SortedBy(s, key)
    ensures SortedBy(Insert(x, s, key), key)
  {
    if s != [] && key(s[0]) <= key(x) {
      var tail := s[1..];
      var rest := Insert(x, tail, key);
      InsertSorted(x, tail, key);
      forall k | 0 <= k < |rest| ensures key(s[0]) <= key(rest[k]) {
        assert rest[k] in multiset(rest);
        if rest[k] != x {
          assert rest[k] in tail;
          var j :| 0 <= j < |tail| && tail[j] == rest[k];
          assert s[j + 1] == rest[k];
        }
      }
      var r := [s[0]] + rest;
      forall i, j | 0 <= i < j < |r| ensures key(r[i]) <= key(r[j]) {
        if i == 0 {
          assert r[j] == rest[j - 1];
        } else {
          assert r[i] == rest[i - 1] && r[j] == rest[j - 1];
        }
      }
    }
  }

  /** Insertion sort: the last element is inserted into the sorted prefix. */
  function SortBy<T>(s: seq<T>, key: T -> real): (r: seq<T>)
    ensures |r| == |s|
    ensures multiset(r) == multiset(s)
    ensures SortedBy(r, key)
  {
    if s == [] then []
    else
      assert s == s[..|s| - 1] + [s[|s| - 1]];
      var sorted := SortBy(s[..|s| - 1], key);
      InsertSorted(s[|s| - 1], sorted, key);
      Insert(s[|s| - 1], sorted, key)
  }

  /** Sorting keeps the elements: membership is unchanged. */
  lemma SortByMembers<T>(s: seq<T>, key: T -> real)
    ensures forall x :: x in SortBy(s, key) <==> x in s
  {
    var r := SortBy(s, key);
    forall x ensures x in r <==> x in s {
      assert x in r <==> x in multiset(r);
      assert x in s <==> x in multiset(s);
    }
  }
  // ---------------------------------------------------------------------
  // Distinctness and sums that do not depend on order
  // ---------------------------------------------------------------------

  predicate StrictlyIncreasing(xs: seq<int>) {
    forall p, q :: 0 <= p < q < |xs| ==> xs[p] < xs[q]
  }

  ghost predicate Distinct<T>(s: seq<T>) {
    forall i, j :: 0 <= i < j < |s| ==> s[i] != s[j]
  }

  /** No two elements share the same `f`-image (distinct keys of an ordered map). */
  ghost predicate DistinctBy<T, U>(s: seq<T>, f: T -> U) {
    forall i, j :: 0 <= i < j < |s| ==> f(s[i]) != f(s[j])
  }

  lemma {:induction false} InsertDistinctBy<T, U>(x: T, s: seq<T>, key: T -> real, f: T -> U)
    requires DistinctBy(s, f)
    requires forall k :: 0 <= k < |s| ==> f(s[k]) != f(x)
    ensures DistinctBy(Insert(x, s, key), f)
  {
    if s != [] && key(s[0]) <= key(x) {
      var tail := s[1..];
      var rest := Insert(x, tail, key);
      InsertDistinctBy(x, tail, key, f);
      forall k | 0 <= k < |rest| ensures f(s[0]) != f(rest[k]) {
        assert rest[k] in multiset(rest);
        if rest[k] != x {
          assert rest[k] in tail;
          var j :| 0 <= j < |tail| && tail[j] == rest[k];
          assert s[j + 1] == rest[k];
        }
      }
      var r := [s[0]] + rest;
      forall i, j | 0 <= i < j < |r| ensures f(r[i]) != f(r[j]) {
        if i == 0 {
          assert r[j] == rest[j - 1];
        } else {
          assert r[i] == rest[i - 1] && r[j] == rest[j - 1];
        }
      }
    } else if s != [] {
      var r := [x] + s;
      forall i, j | 0 <= i < j < |r| ensures f(r[i]) != f(r[j]) {
        assert r[j] == s[j - 1];
        if i > 0 {
          assert r[i] == s[i - 1];
        }
      }
    }
  }

  /** A key absent from a sequence is absent from any permutation of it. */
  lemma PermutationKeepsKeysApart<T, U>(s: seq<T>, t: seq<T>, x: T, f: T -> U)
    requires multiset(s) == multiset(t)
    requires forall m :: 0 <= m < |s| ==> f(s[m]) != f(x)
    ensures forall k :: 0 <= k < |t| ==> f(t[k]) != f(x)
  {
    forall k | 0 <= k < |t| ensures f(t[k]) != f(x) {
      assert t[k] in multiset(t);
      assert t[k] in s;
    }
  }

  /** Sorting keeps distinct keys distinct. */
  lemma {:induction false} SortByDistinctBy<T, U>(s: seq<T>, key: T -> real, f: T -> U)
    requires DistinctBy(s, f)
    ensures DistinctBy(SortBy(s, key), f)
  {
    if s != [] {
      var n := |s| - 1;
      var prefix := s[..n];
      var sorted := SortBy(prefix, key);
      SortByDistinctBy(prefix, key, f);
      assert forall m :: 0 <= m < |prefix| ==> prefix[m] == s[m];
      PermutationKeepsKeysApart(prefix, sorted, s[n], f);
      InsertDistinctBy(s[n], sorted, key, f);
      assert s == prefix + [s[n]];
    }
  }

  /** A distinct sequence holds each element once. */
  lemma {:induction false} DistinctCount<T>(s: seq<T>, x: T)
    requires Distinct(s)
    ensures multiset(s)[x] == if x in s then 1 else 0
  {
    if s != [] {
      var n := |s| - 1;
      DistinctCount(s[..n], x);
      assert s == s[..n] + [s[n]];
      if x == s[n] {
        assert x !in s[..n];
      }
    }
  }

  /** Two distinct sequences with the same elements are permutations of each other. */
  lemma DistinctSameElements<T>(s: seq<T>, t: seq<T>)
    requires Distinct(s) && Distinct(t)
    requires forall x :: x in s <==> x in t
    ensures multiset(s) == multiset(t)
  {
    forall x ensures multiset(s)[x] == multiset(t)[x] {
      DistinctCount(s, x);
      DistinctCount(t, x);
    }
  }

  /** `sumOf` over a key sequence: the sum of `f(ids[i])`. */
  function SumOf<T>(ids: seq<T>, f: T -> real): real {
    if ids == [] then 0.0 else SumOf(ids[..|ids| - 1], f) + f(ids[|ids| - 1])
  }

  lemma {:induction false} SumOfConcat<T>(a: seq<T>, b: seq<T>, f: T -> real)
    ensures SumOf(a + b, f) == SumOf(a, f) + SumOf(b, f)
  {
    if b != [] {
      var n := |b| - 1;
      SumOfConcat(a, b[..n], f);
      assert (a + b)[..|a + b| - 1] == a + b[..n];
    } else {
      assert a + b == a;
    }
  }

  /** The sum does not depend on the order of the keys. */
  lemma {:induction false} SumOfPermutation<T>(xs: seq<T>, ys: seq<T>, f: T -> real)
    requires multiset(xs) == multiset(ys)
    ensures SumOf(xs, f) == SumOf(ys, f)
    decreases |xs|
  {
    if xs == [] {
      assert |ys| == |multiset(ys)| == 0;
    } else {
      var n := |xs| - 1;
      var x := xs[n];
      assert xs == xs[..n] + [x];
      assert x in multiset(ys);
      var p :| 0 <= p < |ys| && ys[p] == x;
      var rest := ys[..p] + ys[p + 1..];
      assert ys == ys[..p] + [x] + ys[p + 1..];
      assert multiset(rest) == multiset(ys) - multiset{x};
      SumOfPermutation(xs[..n], rest, f);
      SumOfConcat(ys[..p] + [x], ys[p + 1..], f);
      SumOfConcat(ys[..p], [x], f);
      SumOfConcat(ys[..p], ys[p + 1..], f);
      assert SumOf([x], f) == f(x) by {
        assert [x][..0] == [];
      }
    }
  }

  lemma {:induction false} SumOfNonNegative<T>(ids: seq<T>, f: T -> real)
    requires forall k :: 0 <= k < |ids| ==> 0.0 <= f(ids[k])
    ensures 0.0 <= SumOf(ids, f)
    ensures SumOf(ids, f) == 0.0 <==> forall k :: 0 <= k < |ids| ==> f(ids[k]) == 0.0
  {
    if ids != [] {
      var n := |ids| - 1;
      SumOfNonNegative(ids[..n], f);
      if SumOf(ids, f) == 0.0 {
        forall k | 0 <= k < |ids| ensures f(ids[k]) == 0.0 {
          if k < n {
            assert ids[..n][k] == ids[k];
          }
        }
      }
      if forall k :: 0 <= k < |ids| ==> f(ids[k]) == 0.0 {
        assert forall k :: 0 <= k < n ==> f(ids[..n][k]) == 0.0;
      }
    }
  }
  /** `SumOf` only looks at the values of `f` on the keys. */
  lemma {:induction false} SumOfPointwise<T>(ids: seq<T>, f: T -> real, g: T -> real)
    requires forall k :: 0 <= k < |ids| ==> f(ids[k]) == g(ids[k])
    ensures SumOf(ids, f) == SumOf(ids, g)
  {
    if ids != [] {
      var n := |ids| - 1;
      assert forall k :: 0 <= k < n ==> ids[..n][k] == ids[k];
      SumOfPointwise(ids[..n], f, g);
    }
  }

  /** The elements of a sequence, as a set. */
  function Elements<T>(s: seq<T>): set<T> {
    set x | x in s
  }

  lemma {:induction false} ElementsSize<T>(s: seq<T>)
    ensures |Elements(s)| <= |s|
  {
    if s != [] {
      var n := |s| - 1;
      ElementsSize(s[..n]);
      assert Elements(s) == Elements(s[..n]) + {s[n]} by {
        assert s == s[..n] + [s[n]];
      }
    }
  }

  /** A distinct sequence has as many elements as entries. */
  lemma {:induction false} DistinctElementsSize<T>(s: seq<T>)
    requires Distinct(s)
    ensures |Elements(s)| == |s|
  {
    if s != [] {
      var n := |s| - 1;
      DistinctElementsSize(s[..n]);
      assert Elements(s) == Elements(s[..n]) + {s[n]} by {
        assert s == s[..n] + [s[n]];
      }
      assert s[n] !in Elements(s[..n]);
    }
  }
}
