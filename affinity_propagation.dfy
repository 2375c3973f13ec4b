/**
  * Affinity-propagation clustering of the stored fingerprint positions
  * (`performAffinityPropagation` and its helpers in
  * `IndoorPositioningCalculator`): an n×n similarity matrix, message
  * passing over dense responsibility and availability matrices with
  * damping and a 100-iteration cap, then exemplars and labels.
  */
module AffinityPropagation {
  import opened Support
  import opened WeightedCentroid
  import opened Fingerprints

  const DAMPING_FACTOR: real := 0.6
  const MAX_ITERATIONS: nat := 100
  const MIN_SIMILARITY: real := -1000.0
  const EPSILON: real := 0.000001

  // ---------------------------------------------------------------------
  // `median`
  // ---------------------------------------------------------------------

  function Value(x: real): real { x }

  /** `List<Double>.median()`: -1000 for an empty list, else the middle of the sorted list. */
  function Median(xs: seq<real>): real {
    if xs == [] then MIN_SIMILARITY
    else
      var sorted := SortBy(xs, Value);
      var n := |xs|;
      if n % 2 == 0 then (sorted[n / 2 - 1] + sorted[n / 2]) / 2.0 else sorted[n / 2]
  }

  /** The median of a non-empty list lies between its smallest and largest element. */
  lemma MedianWithin(xs: seq<real>)
    requires xs != []
    ensures Min(xs) <= Median(xs) <= Max(xs)
  {
    var sorted := SortBy(xs, Value);
    var n := |xs|;
    forall k | 0 <= k < n ensures Min(xs) <= sorted[k] <= Max(xs) {
      assert sorted[k] in multiset(sorted);
      assert sorted[k] in xs;
    }
  }

  /** A list of negative values has a negative median, and so does the empty list. */
  lemma MedianNegative(xs: seq<real>)
    requires forall k :: 0 <= k < |xs| ==> xs[k] < 0.0
    ensures Median(xs) < 0.0
  {
    if xs != [] {
      MedianWithin(xs);
      var i :| 0 <= i < |xs| && xs[i] == Max(xs);
    }
  }

  // ---------------------------------------------------------------------
  // The similarity matrix
  // ---------------------------------------------------------------------

  /** `row.filter { it != 0.0 }`, kept in order. */
  function NonZero(xs: seq<real>): seq<real> {
    if xs == [] then []
    else NonZero(xs[..|xs| - 1]) + (if xs[|xs| - 1] != 0.0 then [xs[|xs| - 1]] else [])
  }

  lemma {:induction false} NonZeroConcat(xs: seq<real>, ys: seq<real>)
    ensures NonZero(xs + ys) == NonZero(xs) + NonZero(ys)
  {
    if ys == [] {
      assert xs + ys == xs;
    } else {
      var n := |ys| - 1;
      NonZeroConcat(xs, ys[..n]);
      assert (xs + ys)[..|xs + ys| - 1] == xs + ys[..n];
    }
  }

  function Zeros(k: nat): seq<real> {
    seq(k, _ => 0.0)
  }

  lemma {:induction false} NonZeroZeros(k: nat)
    ensures NonZero(Zeros(k)) == []
  {
    if k > 0 {
      assert Zeros(k)[..k - 1] == Zeros(k - 1);
      NonZeroZeros(k - 1);
    }
  }

  /** Filtering out zeros from non-positive values leaves only negative ones. */
  lemma {:induction false} NonZeroNegative(xs: seq<real>)
    requires forall k :: 0 <= k < |xs| ==> xs[k] <= 0.0
    ensures forall k :: 0 <= k < |NonZero(xs)| ==> NonZero(xs)[k] < 0.0
  {
    if xs != [] {
      NonZeroNegative(xs[..|xs| - 1]);
    }
  }

  /** `-calculateDistance(p_i, p_j).pow(2)`. */
  function OffDiagonal(ps: seq<Position>, sqrt: real -> real, i: int, j: int): real
    requires 0 <= i < |ps| && 0 <= j < |ps|
  {
    -Square(Distance(ps[i], ps[j], sqrt))
  }

  /** The off-diagonal entries before the diagonal of row `i`. */
  function RowBefore(ps: seq<Position>, sqrt: real -> real, i: int): seq<real>
    requires 0 <= i < |ps|
  {
    seq(i, j requires 0 <= j < i => OffDiagonal(ps, sqrt, i, j))
  }

  /** The entries of rows `0 .. m-1`, row after row. */
  function FlatBefore(ps: seq<Position>, sqrt: real -> real, m: int): seq<real>
    requires 0 <= m <= |ps|
    decreases m, 0
  {
    if m == 0 then [] else FlatBefore(ps, sqrt, m - 1) + SimilarityRow(ps, sqrt, m - 1)
  }

  /**
    * The preference `sim[i][i]`: the median of the non-zero entries written
    * so far — the complete rows above it and the part of row `i` to its left.
    */
  function Diagonal(ps: seq<Position>, sqrt: real -> real, i: int): real
    requires 0 <= i < |ps|
    decreases i, 1
  {
    Median(NonZero(FlatBefore(ps, sqrt, i) + RowBefore(ps, sqrt, i)))
  }

  function SimilarityAt(ps: seq<Position>, sqrt: real -> real, i: int, j: int): real
    requires 0 <= i < |ps| && 0 <= j < |ps|
    decreases i, 2
  {
    if i != j then OffDiagonal(ps, sqrt, i, j) else Diagonal(ps, sqrt, i)
  }

  function SimilarityRow(ps: seq<Position>, sqrt: real -> real, i: int): seq<real>
    requires 0 <= i < |ps|
    decreases i, 3
  {
    seq(|ps|, j requires 0 <= j < |ps| => SimilarityAt(ps, sqrt, i, j))
  }

  /** Off the diagonal the similarity is minus the squared distance: non-positive, symmetric, 0 only for equal coordinates. */
  lemma OffDiagonalProperties(ps: seq<Position>, sqrt: real -> real, i: int, j: int)
    requires IsSquareRoot(sqrt) && 0 <= i < |ps| && 0 <= j < |ps| && i != j
    ensures var p, q := ps[i], ps[j];
      && SimilarityAt(ps, sqrt, i, j) == -(Square(p.latitude - q.latitude) + Square(p.longitude - q.longitude))
      && SimilarityAt(ps, sqrt, i, j) <= 0.0
      && SimilarityAt(ps, sqrt, i, j) == SimilarityAt(ps, sqrt, j, i)
      && (SimilarityAt(ps, sqrt, i, j) == 0.0 <==> p.latitude == q.latitude && p.longitude == q.longitude)
  {
    var p, q := ps[i], ps[j];
    DistanceProperties(p, q, sqrt);
    SquareNonNegative(p.latitude - q.latitude);
    SquareNonNegative(p.longitude - q.longitude);
  }

  /** The first preference is the median of nothing: -1000. */
  lemma FirstDiagonal(ps: seq<Position>, sqrt: real -> real)
    requires |ps| > 0
    ensures SimilarityAt(ps, sqrt, 0, 0) == MIN_SIMILARITY
  {
    assert FlatBefore(ps, sqrt, 0) + RowBefore(ps, sqrt, 0) == [];
  }

  /** Every preference is negative, so every similarity is at most 0. */
  lemma {:induction false} DiagonalNegative(ps: seq<Position>, sqrt: real -> real, i: int)
    requires IsSquareRoot(sqrt) && 0 <= i < |ps|
    ensures Diagonal(ps, sqrt, i) < 0.0
    decreases i, 1
  {
    var xs := FlatBefore(ps, sqrt, i) + RowBefore(ps, sqrt, i);
    FlatBeforeNonPositive(ps, sqrt, i);
    forall k | 0 <= k < |xs| ensures xs[k] <= 0.0 {
      if k >= |FlatBefore(ps, sqrt, i)| {
        var j := k - |FlatBefore(ps, sqrt, i)|;
        OffDiagonalProperties(ps, sqrt, i, j);
      }
    }
    NonZeroNegative(xs);
    MedianNegative(NonZero(xs));
  }

  lemma {:induction false} FlatBeforeNonPositive(ps: seq<Position>, sqrt: real -> real, m: int)
    requires IsSquareRoot(sqrt) && 0 <= m <= |ps|
    ensures forall k :: 0 <= k < |FlatBefore(ps, sqrt, m)| ==> FlatBefore(ps, sqrt, m)[k] <= 0.0
    decreases m, 0
  {
    if m > 0 {
      var prior := FlatBefore(ps, sqrt, m - 1);
      var row := SimilarityRow(ps, sqrt, m - 1);
      FlatBeforeNonPositive(ps, sqrt, m - 1);
      DiagonalNegative(ps, sqrt, m - 1);
      forall j | 0 <= j < |row| ensures row[j] <= 0.0 {
        assert row[j] == SimilarityAt(ps, sqrt, m - 1, j);
        if j != m - 1 {
          OffDiagonalProperties(ps, sqrt, m - 1, j);
        }
      }
      assert FlatBefore(ps, sqrt, m) == prior + row;
    }
  }

  /** Similarities are never positive, and the diagonal is strictly negative. */
  lemma SimilarityNonPositive(ps: seq<Position>, sqrt: real -> real, i: int, j: int)
    requires IsSquareRoot(sqrt) && 0 <= i < |ps| && 0 <= j < |ps|
    ensures SimilarityAt(ps, sqrt, i, j) <= 0.0
    ensures i == j ==> SimilarityAt(ps, sqrt, i, j) < 0.0
  {
    if i == j {
      DiagonalNegative(ps, sqrt, i);
    } else {
      OffDiagonalProperties(ps, sqrt, i, j);
    }
  }

  // ---------------------------------------------------------------------
  // Dense matrices
  // ---------------------------------------------------------------------

  /** Row `i` of a matrix. */
  function RowOf(m: array2<real>, i: int): seq<real>
    reads m
    requires 0 <= i < m.Length0
  {
    seq(m.Length1, j requires 0 <= j < m.Length1 reads m => m[i, j])
  }

  /** `similarities.flatMap { row -> row }` over the first `k` rows. */
  function FlatEntries(m: array2<real>, k: int): seq<real>
    reads m
    requires 0 <= k <= m.Length0
  {
    if k == 0 then [] else FlatEntries(m, k - 1) + RowOf(m, k - 1)
  }

  lemma {:induction false} FlatEntriesMatch(s: array2<real>, ps: seq<Position>, sqrt: real -> real, m: int)
    requires s.Length0 == s.Length1 == |ps| && 0 <= m <= |ps|
    requires forall r, c :: 0 <= r < m && 0 <= c < |ps| ==> s[r, c] == SimilarityAt(ps, sqrt, r, c)
    ensures FlatEntries(s, m) == FlatBefore(ps, sqrt, m)
  {
    if m > 0 {
      FlatEntriesMatch(s, ps, sqrt, m - 1);
      assert RowOf(s, m - 1) == SimilarityRow(ps, sqrt, m - 1);
    }
  }

  lemma {:induction false} FlatEntriesZeroRows(s: array2<real>, from: int, m: int)
    requires 0 <= from <= m <= s.Length0
    requires forall r, c :: from <= r < s.Length0 && 0 <= c < s.Length1 ==> s[r, c] == 0.0
    ensures NonZero(FlatEntries(s, m)) == NonZero(FlatEntries(s, from))
  {
    if m > from {
      FlatEntriesZeroRows(s, from, m - 1);
      assert RowOf(s, m - 1) == Zeros(s.Length1);
      NonZeroConcat(FlatEntries(s, m - 1), RowOf(s, m - 1));
      NonZeroZeros(s.Length1);
    }
  }

  /**
    * While row `i` is being filled, the non-zero entries of the whole
    * matrix are the non-zero entries of the finished rows and of row `i`
    * left of the diagonal: the cells not yet written are still 0.
    */
  lemma DiagonalInput(s: array2<real>, ps: seq<Position>, sqrt: real -> real, i: int)
    requires s.Length0 == s.Length1 == |ps| && 0 <= i < |ps|
    requires forall r, c :: 0 <= r < i && 0 <= c < |ps| ==> s[r, c] == SimilarityAt(ps, sqrt, r, c)
    requires forall c :: 0 <= c < i ==> s[i, c] == SimilarityAt(ps, sqrt, i, c)
    requires forall c :: i <= c < |ps| ==> s[i, c] == 0.0
    requires forall r, c :: i < r < |ps| && 0 <= c < |ps| ==> s[r, c] == 0.0
    ensures NonZero(FlatEntries(s, |ps|)) == NonZero(FlatBefore(ps, sqrt, i) + RowBefore(ps, sqrt, i))
  {
    var n := |ps|;
    FlatEntriesZeroRows(s, i + 1, n);
    FlatEntriesMatch(s, ps, sqrt, i);
    assert RowOf(s, i) == RowBefore(ps, sqrt, i) + Zeros(n - i);
    var before := FlatBefore(ps, sqrt, i);
    assert FlatEntries(s, i + 1) == (before + RowBefore(ps, sqrt, i)) + Zeros(n - i);
    NonZeroConcat(before + RowBefore(ps, sqrt, i), Zeros(n - i));
    NonZeroZeros(n - i);
  }

  /** The similarity matrix, filled row by row as the source does. */
  method BuildSimilarities(ps: seq<Position>, sqrt: real -> real) returns (s: array2<real>)
    ensures fresh(s) && s.Length0 == s.Length1 == |ps|
    ensures forall i, j :: 0 <= i < |ps| && 0 <= j < |ps| ==> s[i, j] == SimilarityAt(ps, sqrt, i, j)
  {
    var n := |ps|;
    s := new real[n, n]((i, j) => 0.0);
    for i := 0 to n
      invariant forall r, c :: 0 <= r < i && 0 <= c < n ==> s[r, c] == SimilarityAt(ps, sqrt, r, c)
      invariant forall r, c :: i <= r < n && 0 <= c < n ==> s[r, c] == 0.0
    {
      FillRow(s, ps, sqrt, i);
    }
  }

  /** The inner loop: fills row `i` left to right, leaving the other rows as they were. */
  method FillRow(s: array2<real>, ps: seq<Position>, sqrt: real -> real, i: int)
    requires s.Length0 == s.Length1 == |ps| && 0 <= i < |ps|
    requires forall r, c :: 0 <= r < i && 0 <= c < |ps| ==> s[r, c] == SimilarityAt(ps, sqrt, r, c)
    requires forall r, c :: i <= r < |ps| && 0 <= c < |ps| ==> s[r, c] == 0.0
    modifies s
    ensures forall r, c :: 0 <= r <= i && 0 <= c < |ps| ==> s[r, c] == SimilarityAt(ps, sqrt, r, c)
    ensures forall r, c :: i < r < |ps| && 0 <= c < |ps| ==> s[r, c] == 0.0
  {
    var n := |ps|;
    for j := 0 to n
      invariant forall r, c :: 0 <= r < i && 0 <= c < n ==> s[r, c] == SimilarityAt(ps, sqrt, r, c)
      invariant forall c :: 0 <= c < j ==> s[i, c] == SimilarityAt(ps, sqrt, i, c)
      invariant forall c :: j <= c < n ==> s[i, c] == 0.0
      invariant forall r, c :: i < r < n && 0 <= c < n ==> s[r, c] == 0.0
    {
      if i != j {
        s[i, j] := -Square(Distance(ps[i], ps[j], sqrt));
      } else {
        DiagonalInput(s, ps, sqrt, i);
        s[i, j] := Median(NonZero(FlatEntries(s, n)));
      }
    }
  }

  // ---------------------------------------------------------------------
  // Matrices as values
  // ---------------------------------------------------------------------

  /** A matrix as a value: the list of its rows. */
  type Matrix = seq<seq<real>>

  /** An `n`×`n` matrix. */
  predicate IsSquare(m: Matrix, n: int) {
    |m| == n && forall i :: 0 <= i < n ==> |m[i]| == n
  }

  /** `Array(n) { DoubleArray(n) }`: the `n`×`n` matrix of zeros. */
  function ZeroMatrix(n: nat): Matrix {
    seq(n, _ => Zeros(n))
  }

  /** The matrix an array holds. */
  function Grid(m: array2<real>): Matrix
    reads m
  {
    seq(m.Length0, i requires 0 <= i < m.Length0 reads m => RowOf(m, i))
  }

  /** An array holds a matrix when their sizes and entries agree. */
  lemma GridHolds(m: array2<real>, v: Matrix)
    requires m.Length0 == m.Length1 && IsSquare(v, m.Length0)
    requires forall i, j :: 0 <= i < m.Length0 && 0 <= j < m.Length0 ==> m[i, j] == v[i][j]
    ensures Grid(m) == v
  {
    forall i | 0 <= i < m.Length0 ensures Grid(m)[i] == v[i] {
      assert forall j :: 0 <= j < m.Length0 ==> Grid(m)[i][j] == v[i][j];
    }
  }

  /** The similarity matrix of the points `ps`, row by row. */
  function Similarities(ps: seq<Position>, sqrt: real -> real): Matrix {
    seq(|ps|, i requires 0 <= i < |ps| => SimilarityRow(ps, sqrt, i))
  }

  // ---------------------------------------------------------------------
  // One round of messages
  // ---------------------------------------------------------------------

  /** `maxOf(a, b)`, with `None` standing for the initial `Double.NEGATIVE_INFINITY`. */
  function MaxOf(acc: Option<real>, x: real): real {
    if acc.None? || x > acc.value then x else acc.value
  }

  /**
    * The running maximum of `s[i][k'] + a[i][k']` over the columns `k' < m`
    * other than `k`: `None` when there is no such column, otherwise the
    * largest of those sums.
    */
  function MaxBelow(s: Matrix, a: Matrix, i: int, k: int, m: int): (r: Option<real>)
    requires 0 <= i < |s| && i < |a| && 0 <= m <= |s[i]| && m <= |a[i]|
    ensures r.Some? <==> m >= 2 || (m == 1 && k != 0)
  {
    if m == 0 then None
    else
      var prior := MaxBelow(s, a, i, k, m - 1);
      if m - 1 == k then prior else Some(MaxOf(prior, s[i][m - 1] + a[i][m - 1]))
  }

  /** The running maximum bounds every sum it has seen and equals one of them. */
  lemma {:induction false} MaxBelowIsMaximum(s: Matrix, a: Matrix, i: int, k: int, m: int)
    requires 0 <= i < |s| && i < |a| && 0 <= m <= |s[i]| && m <= |a[i]|
    ensures var r := MaxBelow(s, a, i, k, m);
      && (r.Some? ==> forall c :: 0 <= c < m && c != k ==> s[i][c] + a[i][c] <= r.value)
      && (r.Some? ==> exists c :: 0 <= c < m && c != k && r.value == s[i][c] + a[i][c])
  {
    if m > 0 {
      MaxBelowIsMaximum(s, a, i, k, m - 1);
    }
  }

  /** Similarities and availabilities of `n ≥ 2` points. */
  predicate Pair(s: Matrix, a: Matrix) {
    |s| >= 2 && IsSquare(s, |s|) && IsSquare(a, |s|)
  }

  /** `r(i, k) = s(i, k) - max_{k' != k} (a(i, k') + s(i, k'))`. */
  function Responsibility(s: Matrix, a: Matrix, i: int, k: int): real
    requires Pair(s, a) && 0 <= i < |s| && 0 <= k < |s|
  {
    s[i][k] - MaxBelow(s, a, i, k, |s|).value
  }

  /**
    * A responsibility is the margin of `k` over the best competing column:
    * never above the margin over any other column, equal to one of them.
    */
  lemma ResponsibilityIsMargin(s: Matrix, a: Matrix, i: int, k: int)
    requires Pair(s, a) && 0 <= i < |s| && 0 <= k < |s|
    ensures forall c :: 0 <= c < |s| && c != k ==>
      Responsibility(s, a, i, k) <= s[i][k] - (s[i][c] + a[i][c])
    ensures exists c :: (0 <= c < |s| && c != k &&
      Responsibility(s, a, i, k) == s[i][k] - (s[i][c] + a[i][c]))
  {
    var best := MaxBelow(s, a, i, k, |s|);
    MaxBelowIsMaximum(s, a, i, k, |s|);
    var c :| 0 <= c < |s| && c != k && best.value == s[i][c] + a[i][c];
    assert Responsibility(s, a, i, k) == s[i][k] - (s[i][c] + a[i][c]);
  }

  /** Row `i` of the responsibility matrix for `s` and `a`. */
  function ResponsibilityRow(s: Matrix, a: Matrix, i: int): (row: seq<real>)
    requires Pair(s, a) && 0 <= i < |s|
    ensures |row| == |s|
  {
    seq(|s|, k requires 0 <= k < |s| => Responsibility(s, a, i, k))
  }

  /** The whole responsibility matrix for `s` and `a`. */
  function Responsibilities(s: Matrix, a: Matrix): (r: Matrix)
    requires Pair(s, a)
    ensures IsSquare(r, |s|)
  {
    seq(|s|, i requires 0 <= i < |s| => ResponsibilityRow(s, a, i))
  }

  function Positive(x: real): real { if 0.0 >= x then 0.0 else x }

  /** `sum of maxOf(0.0, r[i'][k])` over the rows `i' < m` other than `i` and `k`. */
  function PositiveSum(r: Matrix, i: int, k: int, m: int): (t: real)
    requires IsSquare(r, |r|) && 0 <= m <= |r| && 0 <= k < |r|
    ensures 0.0 <= t
  {
    if m == 0 then 0.0
    else PositiveSum(r, i, k, m - 1) + (if m - 1 != i && m - 1 != k then Positive(r[m - 1][k]) else 0.0)
  }

  /**
    * `a(i, k)`: off the diagonal `min(0, r(k, k) + the positive support of
    * the other rows)`, never positive; on the diagonal the positive
    * support of every other row, never negative.
    */
  function Availability(r: Matrix, i: int, k: int): (v: real)
    requires IsSquare(r, |r|) && 0 <= i < |r| && 0 <= k < |r|
    ensures i != k ==> v <= 0.0
    ensures i == k ==> v >= 0.0
  {
    var sum := PositiveSum(r, i, k, |r|);
    if i != k then (if 0.0 <= r[k][k] + sum then 0.0 else r[k][k] + sum) else sum
  }

  lemma {:induction false} PositiveSumWithout(r: Matrix, i: int, k: int, m: int)
    requires IsSquare(r, |r|) && 0 <= m <= |r| && 0 <= k < |r| && 0 <= i < |r| && i != k
    ensures PositiveSum(r, i, k, m) == PositiveSum(r, k, k, m) - (if i < m then Positive(r[i][k]) else 0.0)
  {
    if m > 0 {
      PositiveSumWithout(r, i, k, m - 1);
    }
  }

  /** An off-diagonal availability is the self-availability of `k` with row `i`'s own support taken out. */
  lemma AvailabilityFromSelf(r: Matrix, i: int, k: int)
    requires IsSquare(r, |r|) && 0 <= i < |r| && 0 <= k < |r| && i != k
    ensures var t := r[k][k] + Availability(r, k, k) - Positive(r[i][k]);
      Availability(r, i, k) == if 0.0 <= t then 0.0 else t
  {
    PositiveSumWithout(r, i, k, |r|);
  }

  /** Row `i` of the availability matrix for `r`. */
  function AvailabilityRow(r: Matrix, i: int): (row: seq<real>)
    requires IsSquare(r, |r|) && 0 <= i < |r|
    ensures |row| == |r|
  {
    seq(|r|, k requires 0 <= k < |r| => Availability(r, i, k))
  }

  /** The whole availability matrix for `r`. */
  function Availabilities(r: Matrix): (a: Matrix)
    requires IsSquare(r, |r|)
    ensures IsSquare(a, |r|)
  {
    seq(|r|, i requires 0 <= i < |r| => AvailabilityRow(r, i))
  }

  /** `current * (1 - DAMPING_FACTOR) + old * DAMPING_FACTOR`. */
  function Damped(current: real, previous: real): (v: real)
    ensures previous <= current ==> previous <= v <= current
    ensures current <= previous ==> current <= v <= previous
    ensures v - previous == (1.0 - DAMPING_FACTOR) * (current - previous)
  {
    current * (1.0 - DAMPING_FACTOR) + previous * DAMPING_FACTOR
  }

  /** Every entry of `current` damped towards the same entry of `previous`. */
  function DampedAll(current: Matrix, previous: Matrix): (d: Matrix)
    requires IsSquare(current, |current|) && IsSquare(previous, |current|)
    ensures IsSquare(d, |current|)
  {
    seq(|current|, i requires 0 <= i < |current| => DampedRow(current[i], previous[i]))
  }

  function DampedRow(current: seq<real>, previous: seq<real>): (d: seq<real>)
    requires |previous| == |current|
    ensures |d| == |current|
  {
    seq(|current|, j requires 0 <= j < |current| => Damped(current[j], previous[j]))
  }

  function Abs(x: real): real { if x < 0.0 then -x else x }

  /** The entries `j < m` of a row moved by less than 1e-6. */
  predicate RowSettled(previous: seq<real>, current: seq<real>, m: int)
    requires 0 <= m <= |previous| && m <= |current|
  {
    m == 0 || (RowSettled(previous, current, m - 1) && Abs(previous[m - 1] - current[m - 1]) < EPSILON)
  }

  /** The rows `i < m` moved by less than 1e-6. */
  predicate RowsSettled(previous: Matrix, current: Matrix, m: int)
    requires IsSquare(previous, |previous|) && IsSquare(current, |previous|) && 0 <= m <= |previous|
  {
    m == 0 || (RowsSettled(previous, current, m - 1) && RowSettled(previous[m - 1], current[m - 1], |previous|))
  }

  /** `hasConverged`: the `all { all { … } }` over the rows and their entries. */
  predicate HasConverged(previous: Matrix, current: Matrix)
    requires IsSquare(previous, |previous|) && IsSquare(current, |previous|)
  {
    RowsSettled(previous, current, |previous|)
  }

  lemma {:induction false} RowSettledMeans(previous: seq<real>, current: seq<real>, m: int)
    requires 0 <= m <= |previous| && m <= |current|
    ensures RowSettled(previous, current, m) <==> forall j :: 0 <= j < m ==> Abs(previous[j] - current[j]) < EPSILON
  {
    if m > 0 {
      RowSettledMeans(previous, current, m - 1);
    }
  }

  lemma {:induction false} RowsSettledMeans(previous: Matrix, current: Matrix, m: int)
    requires IsSquare(previous, |previous|) && IsSquare(current, |previous|) && 0 <= m <= |previous|
    ensures RowsSettled(previous, current, m) <==>
      forall i, j :: 0 <= i < m && 0 <= j < |previous| ==> Abs(previous[i][j] - current[i][j]) < EPSILON
  {
    if m > 0 {
      RowsSettledMeans(previous, current, m - 1);
      RowSettledMeans(previous[m - 1], current[m - 1], |previous|);
    }
  }

  /** Two matrices have converged exactly when every entry moved by less than 1e-6. */
  lemma HasConvergedMeans(previous: Matrix, current: Matrix)
    requires IsSquare(previous, |previous|) && IsSquare(current, |previous|)
    ensures HasConverged(previous, current) <==>
      forall i, j :: 0 <= i < |previous| && 0 <= j < |previous| ==> Abs(previous[i][j] - current[i][j]) < EPSILON
  {
    RowsSettledMeans(previous, current, |previous|);
  }

  /**
    * After damping, an entry has settled exactly when the undamped update
    * moved it by less than 1e-6 / 0.4 = 2.5e-6.
    */
  lemma DampedSettles(current: real, previous: real)
    ensures Abs(previous - Damped(current, previous)) < EPSILON <==> Abs(current - previous) < EPSILON / (1.0 - DAMPING_FACTOR)
  {
  }

  /** The responsibility and availability matrices exchanged between the points. */
  datatype Messages = Messages(responsibilities: Matrix, availabilities: Matrix)

  /** Messages between the `n ≥ 2` points of the similarity matrix `s`. */
  predicate Sized(s: Matrix, m: Messages) {
    Pair(s, m.availabilities) && IsSquare(m.responsibilities, |s|)
  }

  /**
    * One round of the loop: responsibilities from the similarities and the
    * previous availabilities, availabilities from the new (undamped)
    * responsibilities, then both damped towards the previous round.
    */
  function Round(s: Matrix, m: Messages): (next: Messages)
    requires Sized(s, m)
    ensures Sized(s, next)
  {
    var r := Responsibilities(s, m.availabilities);
    var a := Availabilities(r);
    Messages(DampedAll(r, m.responsibilities), DampedAll(a, m.availabilities))
  }

  /** Both matrices moved by less than 1e-6 from `m` to `next`. */
  predicate Settled(s: Matrix, m: Messages, next: Messages)
    requires Sized(s, m) && Sized(s, next)
  {
    HasConverged(m.responsibilities, next.responsibilities) && HasConverged(m.availabilities, next.availabilities)
  }

  /**
    * The messages the loop ends with when it holds `m` after `done` rounds,
    * `converged` telling whether the last round settled: the loop stops
    * then or at the hundredth round, and otherwise runs one more round.
    */
  function PassMessages(s: Matrix, m: Messages, done: nat, converged: bool): (final: Messages)
    requires Sized(s, m) && done <= MAX_ITERATIONS
    ensures Sized(s, final)
    decreases MAX_ITERATIONS - done
  {
    if converged || done == MAX_ITERATIONS then m
    else
      var next := Round(s, m);
      PassMessages(s, next, done + 1, Settled(s, m, next))
  }

  /** A loop that has not stopped runs one more round. */
  lemma PassMessagesStep(s: Matrix, m: Messages, done: nat)
    requires Sized(s, m) && done < MAX_ITERATIONS
    ensures PassMessages(s, m, done, false) == PassMessages(s, Round(s, m), done + 1, Settled(s, m, Round(s, m)))
  {
  }

  /** The final messages of the loop started from zero matrices. */
  function FinalMessages(s: Matrix): (final: Messages)
    requires |s| >= 2 && IsSquare(s, |s|)
    ensures Sized(s, final)
  {
    PassMessages(s, Messages(ZeroMatrix(|s|), ZeroMatrix(|s|)), 0, false)
  }

  /** Off-diagonal availabilities are never positive and self-availabilities never negative. */
  predicate AvailabilitySigns(a: Matrix) {
    forall i, k :: 0 <= i < |a| && 0 <= k < |a[i]| ==> (if i == k then 0.0 <= a[i][k] else a[i][k] <= 0.0)
  }

  /** A round keeps the signs of the availabilities: damping stays between two values of one sign. */
  lemma RoundSigns(s: Matrix, m: Messages)
    requires Sized(s, m) && AvailabilitySigns(m.availabilities)
    ensures AvailabilitySigns(Round(s, m).availabilities)
  {
    var a := Availabilities(Responsibilities(s, m.availabilities));
    var d := Round(s, m).availabilities;
    forall i, k | 0 <= i < |d| && 0 <= k < |d[i]|
      ensures if i == k then 0.0 <= d[i][k] else d[i][k] <= 0.0
    {
      assert d[i][k] == Damped(a[i][k], m.availabilities[i][k]);
    }
  }

  /** Whatever every round preserves holds of the messages the loop ends with. */
  lemma {:induction false} PassMessagesKeeps(s: Matrix, m: Messages, done: nat, converged: bool,
                                            keeps: Messages -> bool)
    requires Sized(s, m) && done <= MAX_ITERATIONS && keeps(m)
    requires forall x {:trigger Round(s, x)} :: Sized(s, x) && keeps(x) ==> keeps(Round(s, x))
    ensures keeps(PassMessages(s, m, done, converged))
    decreases MAX_ITERATIONS - done
  {
    if !(converged || done == MAX_ITERATIONS) {
      var next := Round(s, m);
      PassMessagesKeeps(s, next, done + 1, Settled(s, m, next), keeps);
    }
  }

  /** The final availabilities keep their signs. */
  lemma FinalSigns(s: Matrix)
    requires |s| >= 2 && IsSquare(s, |s|)
    ensures AvailabilitySigns(FinalMessages(s).availabilities)
  {
    var keeps := (x: Messages) => AvailabilitySigns(x.availabilities);
    forall x | Sized(s, x) && keeps(x) ensures keeps(Round(s, x)) {
      RoundSigns(s, x);
    }
    PassMessagesKeeps(s, Messages(ZeroMatrix(|s|), ZeroMatrix(|s|)), 0, false, keeps);
  }

  // ---------------------------------------------------------------------
  // The message-passing methods
  // ---------------------------------------------------------------------

  /** Square arrays of one size `n`. */
  predicate SameSquare(x: array2<real>, y: array2<real>, n: int) {
    x.Length0 == x.Length1 == y.Length0 == y.Length1 == n
  }

  /** The inner `kPrime` loop of `updateResponsibilities`. */
  method BestCompetitor(s: array2<real>, a: array2<real>, i: int, k: int) returns (maxVal: Option<real>)
    requires SameSquare(s, a, s.Length0) && 0 <= i < s.Length0
    ensures maxVal == MaxBelow(Grid(s), Grid(a), i, k, s.Length0)
  {
    ghost var S, A := Grid(s), Grid(a);
    maxVal := None;
    for kPrime := 0 to s.Length0
      invariant maxVal == MaxBelow(S, A, i, k, kPrime)
    {
      if kPrime != k {
        assert S[i][kPrime] == s[i, kPrime] && A[i][kPrime] == a[i, kPrime];
        maxVal := Some(MaxOf(maxVal, s[i, kPrime] + a[i, kPrime]));
      }
    }
  }

  /** `updateResponsibilities`: `r` is rewritten from `s` and `a`. */
  method UpdateResponsibilities(s: array2<real>, a: array2<real>, r: array2<real>)
    requires SameSquare(s, a, s.Length0) && SameSquare(s, r, s.Length0) && s.Length0 >= 2
    requires r != s && r != a
    modifies r
    ensures Grid(r) == Responsibilities(Grid(s), Grid(a))
  {
    var n := s.Length0;
    ghost var S, A := Grid(s), Grid(a);
    for i := 0 to n
      invariant forall i', k :: 0 <= i' < i && 0 <= k < n ==> r[i', k] == Responsibility(S, A, i', k)
    {
      for k := 0 to n
        invariant forall i', k' :: 0 <= i' < i && 0 <= k' < n ==> r[i', k'] == Responsibility(S, A, i', k')
        invariant forall k' :: 0 <= k' < k ==> r[i, k'] == Responsibility(S, A, i, k')
      {
        var maxVal := BestCompetitor(s, a, i, k);
        r[i, k] := s[i, k] - maxVal.value;
      }
    }
    GridHolds(r, Responsibilities(S, A));
  }

  /** `updateAvailabilities`: `a` is rewritten from `r`. */
  method UpdateAvailabilities(r: array2<real>, a: array2<real>)
    requires SameSquare(r, a, r.Length0) && r != a
    modifies a
    ensures Grid(a) == Availabilities(Grid(r))
  {
    var n := r.Length0;
    ghost var R := Grid(r);
    for i := 0 to n
      invariant forall i', k :: 0 <= i' < i && 0 <= k < n ==> a[i', k] == Availability(R, i', k)
    {
      for k := 0 to n
        invariant forall i', k' :: 0 <= i' < i && 0 <= k' < n ==> a[i', k'] == Availability(R, i', k')
        invariant forall k' :: 0 <= k' < k ==> a[i, k'] == Availability(R, i, k')
      {
        if i != k {
          var sum := 0.0;
          for iPrime := 0 to n
            invariant sum == PositiveSum(R, i, k, iPrime)
          {
            if iPrime != i && iPrime != k {
              sum := sum + Positive(r[iPrime, k]);
            }
          }
          a[i, k] := if 0.0 <= r[k, k] + sum then 0.0 else r[k, k] + sum;
        } else {
          var sum := 0.0;
          for iPrime := 0 to n
            invariant sum == PositiveSum(R, i, k, iPrime)
          {
            if iPrime != k {
              sum := sum + Positive(r[iPrime, k]);
            }
          }
          a[i, k] := sum;
        }
      }
    }
    GridHolds(a, Availabilities(R));
  }

  /** `applyDamping`: each entry moves 40% of the way from its previous value to its new one. */
  method ApplyDamping(current: array2<real>, previous: array2<real>)
    requires SameSquare(current, previous, current.Length0) && current != previous
    modifies current
    ensures Grid(current) == DampedAll(old(Grid(current)), Grid(previous))
  {
    var n := current.Length0;
    ghost var C, P := Grid(current), Grid(previous);
    for i := 0 to n
      invariant forall i', j :: 0 <= i' < i && 0 <= j < n ==> current[i', j] == Damped(C[i'][j], P[i'][j])
      invariant forall i', j :: i <= i' < n && 0 <= j < n ==> current[i', j] == C[i'][j]
    {
      for j := 0 to n
        invariant forall i', j' :: 0 <= i' < i && 0 <= j' < n ==> current[i', j'] == Damped(C[i'][j'], P[i'][j'])
        invariant forall j' :: 0 <= j' < j ==> current[i, j'] == Damped(C[i][j'], P[i][j'])
        invariant forall i', j' :: i <= i' < n && 0 <= j' < n && (i' != i || j' >= j) ==> current[i', j'] == C[i'][j']
      {
        current[i, j] := current[i, j] * (1.0 - DAMPING_FACTOR) + previous[i, j] * DAMPING_FACTOR;
      }
    }
    GridHolds(current, DampedAll(C, P));
  }

  /** `map { it.clone() }`: a fresh copy. */
  method CloneMatrix(m: array2<real>) returns (c: array2<real>)
    ensures fresh(c) && c.Length0 == m.Length0 && c.Length1 == m.Length1
    ensures Grid(c) == Grid(m)
  {
    c := new real[m.Length0, m.Length1]((i, j) reads m => if 0 <= i < m.Length0 && 0 <= j < m.Length1 then m[i, j] else 0.0);
    forall i | 0 <= i < m.Length0 ensures Grid(c)[i] == Grid(m)[i] {
      assert forall j :: 0 <= j < m.Length1 ==> Grid(c)[i][j] == Grid(m)[i][j];
    }
  }

  /**
    * One pass of the loop body: clone, update, damp, and report whether
    * both matrices settled. `r` and `a` end holding the next round.
    */
  method MessageRound(s: array2<real>, r: array2<real>, a: array2<real>) returns (converged: bool)
    requires SameSquare(s, r, s.Length0) && SameSquare(s, a, s.Length0) && s.Length0 >= 2
    requires r != s && a != s && r != a
    modifies r, a
    ensures Messages(Grid(r), Grid(a)) == Round(Grid(s), old(Messages(Grid(r), Grid(a))))
    ensures converged == Settled(Grid(s), old(Messages(Grid(r), Grid(a))), Messages(Grid(r), Grid(a)))
  {
    ghost var before := Messages(Grid(r), Grid(a));
    var oldResponsibilities := CloneMatrix(r);
    UpdateResponsibilities(s, a, r);
    ghost var r1 := Grid(r);
    var oldAvailabilities := CloneMatrix(a);
    UpdateAvailabilities(r, a);
    ApplyDamping(r, oldResponsibilities);
    ApplyDamping(a, oldAvailabilities);
    assert Grid(r) == DampedAll(r1, before.responsibilities);
    converged := HasConverged(Grid(oldResponsibilities), Grid(r)) && HasConverged(Grid(oldAvailabilities), Grid(a));
  }

  /**
    * The message-passing loop: rounds run until both matrices have settled
    * or 100 rounds are done, and `r` and `a` end holding the messages
    * `PassMessages` gives for their initial values.
    */
  method RunMessagePassing(s: array2<real>, r: array2<real>, a: array2<real>) returns (iteration: nat, converged: bool)
    requires SameSquare(s, r, s.Length0) && SameSquare(s, a, s.Length0) && s.Length0 >= 2
    requires r != s && a != s && r != a
    modifies r, a
    ensures Messages(Grid(r), Grid(a)) == PassMessages(Grid(s), old(Messages(Grid(r), Grid(a))), 0, false)
    ensures 1 <= iteration <= MAX_ITERATIONS
    ensures converged || iteration == MAX_ITERATIONS
  {
    ghost var S := Grid(s);
    ghost var m := Messages(Grid(r), Grid(a));
    ghost var final := PassMessages(S, m, 0, false);
    iteration := 0;
    converged := false;
    while !converged && iteration < MAX_ITERATIONS
      invariant iteration <= MAX_ITERATIONS
      invariant converged ==> 1 <= iteration
      invariant Grid(s) == S && m == Messages(Grid(r), Grid(a)) && Sized(S, m)
      invariant PassMessages(S, m, iteration, converged) == final
      decreases MAX_ITERATIONS - iteration
    {
      PassMessagesStep(S, m, iteration);
      converged := MessageRound(s, r, a);
      m := Messages(Grid(r), Grid(a));
      iteration := iteration + 1;
    }
  }

  // ---------------------------------------------------------------------
  // Exemplars and labels
  // ---------------------------------------------------------------------

  datatype ClusterResult = ClusterResult(labels: seq<int>, centerIndices: seq<int>)

  /** The points `i < m` with `r(i, i) + a(i, i) > 0`, in ascending order. */
  function Exemplars(r: Matrix, a: Matrix, m: int): (centers: seq<int>)
    requires IsSquare(r, |r|) && IsSquare(a, |r|) && 0 <= m <= |r|
    ensures StrictlyIncreasing(centers)
    ensures forall p :: 0 <= p < |centers| ==> 0 <= centers[p] < m
    ensures forall i :: 0 <= i < m ==> (i in centers <==> r[i][i] + a[i][i] > 0.0)
  {
    if m == 0 then []
    else
      var prior := Exemplars(r, a, m - 1);
      if r[m - 1][m - 1] + a[m - 1][m - 1] > 0.0 then prior + [m - 1] else prior
  }

  /** The loop over the diagonal that collects the exemplars. */
  method FindExemplars(r: array2<real>, a: array2<real>) returns (centers: seq<int>)
    requires SameSquare(r, a, r.Length0)
    ensures centers == Exemplars(Grid(r), Grid(a), r.Length0)
  {
    ghost var R, A := Grid(r), Grid(a);
    centers := [];
    for i := 0 to r.Length0
      invariant centers == Exemplars(R, A, i)
    {
      assert R[i][i] == r[i, i] && A[i][i] == a[i, i];
      if r[i, i] + a[i, i] > 0.0 {
        centers := centers + [i];
      }
    }
  }

  /**
    * `choice` is the label of a point whose similarities are `row`: -1
    * without exemplars, otherwise the position in `centers` of the first
    * exemplar of largest similarity.
    */
  predicate FirstBest(row: seq<real>, centers: seq<int>, choice: int)
    requires forall p :: 0 <= p < |centers| ==> 0 <= centers[p] < |row|
  {
    if centers == [] then choice == -1
    else
      && 0 <= choice < |centers|
      && (forall q :: 0 <= q < |centers| ==> row[centers[q]] <= row[centers[choice]])
      && (forall q :: 0 <= q < choice ==> row[centers[q]] < row[centers[choice]])
  }

  /**
    * The label the scan over the first `p` exemplars picks: a later
    * exemplar replaces the current best only when strictly more similar.
    */
  function BestUpTo(row: seq<real>, centers: seq<int>, p: int): (b: int)
    requires forall q :: 0 <= q < |centers| ==> 0 <= centers[q] < |row|
    requires 0 <= p <= |centers|
    ensures -1 <= b < p && (b == -1 <==> p == 0)
  {
    if p == 0 then -1
    else
      var b := BestUpTo(row, centers, p - 1);
      if b == -1 || row[centers[p - 1]] > row[centers[b]] then p - 1 else b
  }

  lemma {:induction false} BestUpToIsFirst(row: seq<real>, centers: seq<int>, p: int)
    requires forall q :: 0 <= q < |centers| ==> 0 <= centers[q] < |row|
    requires 0 < p <= |centers|
    ensures var b := BestUpTo(row, centers, p);
      && (forall q :: 0 <= q < p ==> row[centers[q]] <= row[centers[b]])
      && (forall q :: 0 <= q < b ==> row[centers[q]] < row[centers[b]])
  {
    if p > 1 {
      BestUpToIsFirst(row, centers, p - 1);
    }
  }

  /** The scan over all exemplars yields the first exemplar of largest similarity. */
  lemma LabelIsFirstBest(row: seq<real>, centers: seq<int>)
    requires forall q :: 0 <= q < |centers| ==> 0 <= centers[q] < |row|
    ensures FirstBest(row, centers, BestUpTo(row, centers, |centers|))
  {
    if centers != [] {
      BestUpToIsFirst(row, centers, |centers|);
    }
  }

  /** The position of an element in a strictly increasing list is the one `indexOf` finds. */
  lemma IndexOfIncreasing(xs: seq<int>, p: int)
    requires StrictlyIncreasing(xs) && 0 <= p < |xs|
    ensures IndexOf(xs, xs[p]) == p
  {
  }

  /** The inner loop over the exemplars for one point. */
  method AssignLabel(s: array2<real>, centers: seq<int>, i: int) returns (bestCenter: int)
    requires s.Length0 == s.Length1 && 0 <= i < s.Length0
    requires StrictlyIncreasing(centers)
    requires forall p :: 0 <= p < |centers| ==> 0 <= centers[p] < s.Length0
    ensures bestCenter == BestUpTo(RowOf(s, i), centers, |centers|)
  {
    ghost var row := RowOf(s, i);
    var maxVal: Option<real> := None;
    bestCenter := -1;
    for p := 0 to |centers|
      invariant bestCenter == BestUpTo(row, centers, p)
      invariant maxVal == if p == 0 then None else Some(row[centers[bestCenter]])
    {
      var center := centers[p];
      var value := s[i, center];
      if maxVal.None? || value > maxVal.value {
        maxVal := Some(value);
        IndexOfIncreasing(centers, p);
        bestCenter := IndexOf(centers, center);
      }
    }
  }

  /** Every point's label for the exemplars `centers`. */
  function Labels(s: Matrix, centers: seq<int>): (labels: seq<int>)
    requires IsSquare(s, |s|)
    requires forall p :: 0 <= p < |centers| ==> 0 <= centers[p] < |s|
    ensures |labels| == |s|
  {
    seq(|s|, i requires 0 <= i < |s| => BestUpTo(s[i], centers, |centers|))
  }

  /** Exemplars from the final messages, then every point's label. */
  method IdentifyClusters(s: array2<real>, r: array2<real>, a: array2<real>) returns (result: ClusterResult)
    requires SameSquare(s, r, s.Length0) && SameSquare(s, a, s.Length0)
    ensures var centers := Exemplars(Grid(r), Grid(a), s.Length0);
      result == ClusterResult(Labels(Grid(s), centers), centers)
  {
    var n := s.Length0;
    ghost var S := Grid(s);
    var centers := FindExemplars(r, a);
    ghost var expected := Labels(S, centers);
    var labels := new int[n];
    for i := 0 to n
      invariant labels[..i] == expected[..i]
    {
      var choice := AssignLabel(s, centers, i);
      assert expected[i] == choice;
      labels[i] := choice;
      assert labels[..i + 1] == labels[..i] + [choice];
    }
    assert labels[..] == labels[..n];
    result := ClusterResult(labels[..], centers);
  }

  /**
    * What `performAffinityPropagation` computes for the points `ps`: no
    * points give an empty result; otherwise the exemplars of the final
    * messages of the loop started from zero matrices, and every point's
    * label among them.
    */
  function AffinityClusters(ps: seq<Position>, sqrt: real -> real): (c: ClusterResult)
    requires |ps| != 1
    ensures |c.labels| == |ps|
    ensures StrictlyIncreasing(c.centerIndices)
    ensures forall p :: 0 <= p < |c.centerIndices| ==> 0 <= c.centerIndices[p] < |ps|
  {
    if ps == [] then ClusterResult([], [])
    else
      var s := Similarities(ps, sqrt);
      var m := FinalMessages(s);
      var centers := Exemplars(m.responsibilities, m.availabilities, |ps|);
      ClusterResult(Labels(s, centers), centers)
  }

  /**
    * The exemplars are exactly the points with `r(i, i) + a(i, i) > 0` in
    * the final messages, and each label is the first exemplar of largest
    * similarity to its point.
    */
  lemma AffinityClustersProperties(ps: seq<Position>, sqrt: real -> real)
    requires |ps| >= 2
    ensures var c := AffinityClusters(ps, sqrt);
      var m := FinalMessages(Similarities(ps, sqrt));
      && (forall i :: 0 <= i < |ps| ==>
            (i in c.centerIndices <==> m.responsibilities[i][i] + m.availabilities[i][i] > 0.0))
      && (forall i :: 0 <= i < |ps| ==> FirstBest(SimilarityRow(ps, sqrt, i), c.centerIndices, c.labels[i]))
  {
    var c := AffinityClusters(ps, sqrt);
    forall i | 0 <= i < |ps|
      ensures FirstBest(SimilarityRow(ps, sqrt, i), c.centerIndices, c.labels[i])
    {
      LabelIsFirstBest(SimilarityRow(ps, sqrt, i), c.centerIndices);
    }
  }

  /** `performAffinityPropagation`, proved to compute `AffinityClusters`. */
  method PerformAffinityPropagation(ps: seq<Position>, sqrt: real -> real) returns (result: ClusterResult)
    requires |ps| != 1
    ensures result == AffinityClusters(ps, sqrt)
  {
    var n := |ps|;
    if n == 0 {
      return ClusterResult([], []);
    }
    var similarities := BuildSimilarities(ps, sqrt);
    GridHolds(similarities, Similarities(ps, sqrt));
    var responsibilities := new real[n, n]((i, j) => 0.0);
    var availabilities := new real[n, n]((i, j) => 0.0);
    GridHolds(responsibilities, ZeroMatrix(n));
    GridHolds(availabilities, ZeroMatrix(n));
    var iteration, converged := RunMessagePassing(similarities, responsibilities, availabilities);
    result := IdentifyClusters(similarities, responsibilities, availabilities);
  }
}
