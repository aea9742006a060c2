/** Window statistics of the anomaly detector, over the reals. A standard deviation is any
    non-negative number whose square is the population variance. */
module Statistics {
  import opened RealAlgebra

  function Sum(xs: seq<real>): real {
    if xs == [] then 0.0 else Sum(xs[..|xs| - 1]) + xs[|xs| - 1]
  }

  function SumSquares(xs: seq<real>): real {
    if xs == [] then 0.0 else SumSquares(xs[..|xs| - 1]) + xs[|xs| - 1] * xs[|xs| - 1]
  }

  /** The sum of (x - c) squared. */
  function SumSquaresFrom(xs: seq<real>, c: real): (r: real)
    ensures r >= 0.0
  {
    if xs == [] then 0.0
    else
      var d := xs[|xs| - 1] - c;
      Square(d);
      SumSquaresFrom(xs[..|xs| - 1], c) + d * d
  }

  function Mean(xs: seq<real>): real
    requires xs != []
  {
    Sum(xs) / |xs| as real
  }

  function Variance(xs: seq<real>): real
    requires xs != []
  {
    SumSquaresFrom(xs, Mean(xs)) / |xs| as real
  }

  predicate IsDeviation(s: real, xs: seq<real>)
    requires xs != []
  {
    s >= 0.0 && s * s == Variance(xs)
  }

  function Abs(x: real): (r: real)
    ensures r >= 0.0 && (r == x || r == -x)
  {
    if x < 0.0 then -x else x
  }

  const EPSILON := 0.0001
  const MIN_SAMPLES := 5

  /** The Z-score of the newest sample of a window whose deviation is `s`. */
  function ZScore(xs: seq<real>, s: real): (z: real)
    requires xs != [] && s >= 0.0
    ensures z >= 0.0
  {
    if |xs| >= MIN_SAMPLES then
      Quotient(Abs(xs[|xs| - 1] - Mean(xs)), s + EPSILON);
      Abs(xs[|xs| - 1] - Mean(xs)) / (s + EPSILON)
    else 0.0
  }

  // ---------------------------------------------------------------- Cauchy-Schwarz

  lemma {:induction false} ExpandSquares(xs: seq<real>, c: real)
    ensures SumSquaresFrom(xs, c) == SumSquares(xs) - 2.0 * (c * Sum(xs)) + |xs| as real * (c * c)
  {
    if xs != [] {
      var init, x := xs[..|xs| - 1], xs[|xs| - 1];
      ExpandSquares(init, c);
      var q, t, n := SumSquares(init), Sum(init), |init| as real;
      ExpandStep(q, t, n, c, x);
      assert |xs| as real == n + 1.0;
    }
  }

  lemma ExpandStep(q: real, s: real, n: real, c: real, x: real)
    ensures q - 2.0 * (c * s) + n * (c * c) + (x - c) * (x - c)
         == (q + x * x) - 2.0 * (c * (s + x)) + (n + 1.0) * (c * c)
  {
    assert (x - c) * (x - c) == x * x - 2.0 * (c * x) + c * c;
    assert c * (s + x) == c * s + c * x;
    assert (n + 1.0) * (c * c) == n * (c * c) + c * c;
  }

  /** (sum x)^2 <= n * sum x^2 */
  lemma {:induction false} CauchySchwarz(xs: seq<real>)
    ensures Sum(xs) * Sum(xs) <= |xs| as real * SumSquares(xs)
  {
    if xs != [] {
      var init, x := xs[..|xs| - 1], xs[|xs| - 1];
      CauchySchwarz(init);
      SpreadNonNegative(init, x, Sum(init), SumSquares(init), |init| as real);
      CauchyStep(Sum(init), SumSquares(init), |init| as real, x, Sum(xs), SumSquares(xs), |xs| as real);
    }
  }

  lemma SpreadNonNegative(xs: seq<real>, c: real, s: real, q: real, n: real)
    requires s == Sum(xs) && q == SumSquares(xs) && n == |xs| as real
    ensures q - 2.0 * (c * s) + n * (c * c) >= 0.0
  {
    ExpandSquares(xs, c);
  }

  lemma CauchyStep(s: real, q: real, n: real, x: real, s': real, q': real, n': real)
    requires s' == s + x && q' == q + x * x && n' == n + 1.0
    requires s * s <= n * q
    requires q - 2.0 * (x * s) + n * (x * x) >= 0.0
    ensures s' * s' <= n' * q'
  {
    assert (s + x) * (s + x) == s * s + 2.0 * (x * s) + x * x;
    assert (n + 1.0) * (q + x * x) == n * q + n * (x * x) + q + x * x;
  }

  lemma {:induction false} ShiftedSum(xs: seq<real>, c: real, ys: seq<real>)
    requires |ys| == |xs| && forall i :: 0 <= i < |xs| ==> ys[i] == xs[i] - c
    ensures Sum(ys) == Sum(xs) - |xs| as real * c
    ensures SumSquares(ys) == SumSquaresFrom(xs, c)
  {
    if xs != [] {
      var n := |xs| - 1;
      ShiftedSum(xs[..n], c, ys[..n]);
      assert |xs| as real * c == n as real * c + c;
    }
  }

  // ---------------------------------------------------------------- the bound on the Z-score

  /** d^2 <= (n - 1) * variance, where d is the distance of the newest sample from the mean. */
  lemma SamuelsonLast(xs: seq<real>)
    requires xs != []
    ensures
      var d := xs[|xs| - 1] - Mean(xs);
      d * d <= (|xs| - 1) as real * Variance(xs)
  {
    var k, m := |xs| - 1, Mean(xs);
    var ys := seq(|xs|, i requires 0 <= i < |xs| => xs[i] - m);
    CentredSums(xs, m, ys);
    var n, d, q, v := |xs| as real, ys[k], SumSquares(ys[..k]), Variance(xs);
    assert k as real == n - 1.0;
    LastOfCentred(ys[..k], d, n - 1.0);
    SamuelsonStep(n, d, q, v);
  }

  /** A value that balances the others. */
  lemma LastOfCentred(ys: seq<real>, y: real, n: real)
    requires Sum(ys) + y == 0.0 && n == |ys| as real
    ensures y * y <= n * SumSquares(ys)
  {
    CauchySchwarz(ys);
    Square(y);
    assert Sum(ys) == -y;
  }

  /** The deviations from the mean: their sum is zero, and their squares make up the variance. */
  lemma CentredSums(xs: seq<real>, m: real, ys: seq<real>)
    requires xs != [] && m == Mean(xs)
    requires |ys| == |xs| && forall i :: 0 <= i < |xs| ==> ys[i] == xs[i] - m
    ensures
      var k := |xs| - 1;
      Sum(ys[..k]) + ys[k] == 0.0 && Variance(xs) * |xs| as real == SumSquares(ys[..k]) + ys[k] * ys[k]
  {
    ShiftedSum(xs, m, ys);
    Quotient(Sum(xs), |xs| as real);
    Quotient(SumSquaresFrom(xs, m), |xs| as real);
  }

  lemma SamuelsonStep(n: real, d: real, q: real, v: real)
    requires n >= 1.0
    requires d * d <= (n - 1.0) * q
    requires v * n == q + d * d
    ensures d * d <= (n - 1.0) * v
  {
    var w := (n - 1.0) * v;
    assert w * n == (n - 1.0) * (v * n);
    assert (n - 1.0) * (q + d * d) == (n - 1.0) * q + (n - 1.0) * (d * d);
    assert (d * d) * n == d * d + (n - 1.0) * (d * d);
    Cancel(d * d, w, n);
  }

  /** Samuelson's bound: the Z-score of a window of n samples squares to less than n - 1. */
  lemma ZScoreBound(xs: seq<real>, s: real)
    requires |xs| >= 2 && IsDeviation(s, xs)
    ensures ZScore(xs, s) * ZScore(xs, s) < (|xs| - 1) as real
  {
    if |xs| >= MIN_SAMPLES {
      var d := xs[|xs| - 1] - Mean(xs);
      SamuelsonLast(xs);
      Square(d);
      Quotient(Abs(d), s + EPSILON);
      BoundStep((|xs| - 1) as real, Abs(d), ZScore(xs, s), s);
    }
  }

  lemma BoundStep(k: real, d: real, z: real, s: real)
    requires k > 0.0 && s >= 0.0 && z >= 0.0
    requires d * d <= k * (s * s) && z * (s + EPSILON) == d
    ensures z * z < k
  {
    var e := s + EPSILON;
    SquareOfProduct(z, e);
    SquareMonotone(s, e);
    Square(s);
    var ee, ss := e * e, s * s;
    assert (z * z) * ee <= k * ss;
    Minus(ee, ss, k);
    Sign(ee - ss, k);
    if z * z >= k { Monotone(k, z * z, ee); }
  }

  /** The Z-score cannot reach 2.5, 3, 4 or 5 with fewer than 8, 11, 18 or 27 samples. */
  lemma ZScoreNeedsSamples(xs: seq<real>, s: real)
    requires xs != [] && IsDeviation(s, xs)
    ensures ZScore(xs, s) >= 2.5 ==> |xs| >= 8
    ensures ZScore(xs, s) >= 3.0 ==> |xs| >= 11
    ensures ZScore(xs, s) >= 4.0 ==> |xs| >= 18
    ensures ZScore(xs, s) >= 5.0 ==> |xs| >= 27
  {
    var z := ZScore(xs, s);
    if |xs| >= 2 {
      ZScoreBound(xs, s);
      if z >= 2.5 { SquareAtLeast(2.5, z); }
      if z >= 3.0 { SquareAtLeast(3.0, z); }
      if z >= 4.0 { SquareAtLeast(4.0, z); }
      if z >= 5.0 { SquareAtLeast(5.0, z); }
    }
  }

  // ---------------------------------------------------------------- the bound is sharp

  function Zeros(n: nat): (xs: seq<real>)
    ensures |xs| == n
  {
    if n == 0 then [] else Zeros(n - 1) + [0.0]
  }

  lemma SumsSnoc(xs: seq<real>, x: real, c: real)
    ensures Sum(xs + [x]) == Sum(xs) + x
    ensures SumSquaresFrom(xs + [x], c) == SumSquaresFrom(xs, c) + (x - c) * (x - c)
  {
    assert (xs + [x])[..|xs|] == xs;
  }

  /** The samples add up to zero, and `q` is the sum of their squares, as seen from `c`. */
  ghost predicate Balanced(xs: seq<real>, c: real, q: real) {
    Sum(xs) == 0.0 && SumSquaresFrom(xs, c) == |xs| as real * (c * c) + q
  }

  /** A zero keeps the balance. */
  lemma ZeroBalanced(xs: seq<real>, c: real, q: real)
    requires Balanced(xs, c, q)
    ensures Balanced(xs + [0.0], c, q)
  {
    SumsSnoc(xs, 0.0, c);
    ZeroStep(|xs| as real, c, q, SumSquaresFrom(xs, c));
    assert |xs + [0.0]| as real == |xs| as real + 1.0;
  }

  lemma ZeroStep(n: real, c: real, q: real, t: real)
    requires t == n * (c * c) + q
    ensures t + (0.0 - c) * (0.0 - c) == (n + 1.0) * (c * c) + q
  {
    Square(c);
  }

  lemma {:induction false} ZerosBalanced(n: nat, c: real)
    ensures Balanced(Zeros(n), c, 0.0)
  {
    if n == 0 {
      assert 0.0 * (c * c) == 0.0;
    } else {
      ZerosBalanced(n - 1, c);
      ZeroBalanced(Zeros(n - 1), c, 0.0);
    }
  }

  /** A sample with both signs keeps the balance. */
  lemma PairBalanced(xs: seq<real>, a: real, c: real, q: real, r: real)
    requires Balanced(xs, c, q) && r == q + 2.0 * (a * a)
    ensures Balanced(xs + [a] + [-a], c, r)
  {
    SumsSnoc(xs, a, c);
    SumsSnoc(xs + [a], -a, c);
    PairStep(|xs| as real, a, c, q, SumSquaresFrom(xs, c));
    assert |xs + [a] + [-a]| as real == |xs| as real + 2.0;
  }

  lemma PairStep(n: real, a: real, c: real, q: real, t: real)
    requires t == n * (c * c) + q
    ensures t + (a - c) * (a - c) + (-a - c) * (-a - c) == (n + 2.0) * (c * c) + (q + 2.0 * (a * a))
  {
    assert (a - c) * (a - c) == a * a - 2.0 * (a * c) + c * c;
    assert (-a - c) * (-a - c) == a * a + 2.0 * (a * c) + c * c;
    assert (n + 2.0) * (c * c) == n * (c * c) + 2.0 * (c * c);
  }

  /** Some window of `n` samples has a Z-score of at least `t`. */
  ghost predicate Reachable(n: nat, t: real) {
    exists xs: seq<real>, s: real :: n > 0 && |xs| == n && IsDeviation(s, xs) && ZScore(xs, s) >= t
  }

  /** Balanced samples and then the sample `k * m`, where k is the length of the window: the mean is `m`, and
      the deviation is `s` if the squares fit. */
  lemma SpikeReaches(xs: seq<real>, k: real, m: real, q: real, s: real, t: real)
    requires Balanced(xs, m, q) && |xs| + 1 >= MIN_SAMPLES && k == (|xs| + 1) as real
    requires q + k * ((k - 1.0) * (m * m)) == k * (s * s)
    requires m > 0.0 && s >= 0.0 && t * (s + EPSILON) <= (k - 1.0) * m
    ensures Reachable(|xs| + 1, t)
  {
    var v := k * m;
    var w := xs + [v];
    SumsSnoc(xs, v, m);
    assert |xs| as real == k - 1.0;
    SpikeStep(k, m, v, q, SumSquaresFrom(w, m), s * s);
    DeviationIs(w, k, m, s);
    SpikeScore(w, (k - 1.0) * m, s, t);
  }

  lemma SpikeStep(k: real, m: real, v: real, q: real, total: real, ss: real)
    requires v == k * m
    requires total == (k - 1.0) * (m * m) + q + (v - m) * (v - m)
    requires q + k * ((k - 1.0) * (m * m)) == k * ss
    ensures ss * k == total && m * k == v && v - m == (k - 1.0) * m
  {
    var j, mm := k - 1.0, m * m;
    assert v - m == j * m;
    SquareOfProduct(j, m);
    assert k * (j * mm) == j * mm + (j * j) * mm;
  }

  lemma DeviationIs(xs: seq<real>, k: real, m: real, s: real)
    requires xs != [] && k == |xs| as real && m * k == Sum(xs) && (s * s) * k == SumSquaresFrom(xs, m) && s >= 0.0
    ensures Mean(xs) == m && IsDeviation(s, xs)
  {
    QuotientUnique(Sum(xs), k, m);
    QuotientUnique(SumSquaresFrom(xs, m), k, s * s);
  }

  lemma SpikeScore(xs: seq<real>, d: real, s: real, t: real)
    requires |xs| >= MIN_SAMPLES && IsDeviation(s, xs) && d == xs[|xs| - 1] - Mean(xs)
    requires t * (s + EPSILON) <= d && d >= 0.0
    ensures Reachable(|xs|, t)
  {
    Quotient(d, s + EPSILON);
    assert ZScore(xs, s) == d / (s + EPSILON);
    Cancel(t, d / (s + EPSILON), s + EPSILON);
  }

  /** The sample counts 8, 11, 18 and 27 are the exact ones: they are the smallest for which some window
      reaches the threshold. */
  lemma ZScoreBoundSharp()
    ensures Reachable(8, 2.5) && forall n :: Reachable(n, 2.5) ==> n >= 8
    ensures Reachable(11, 3.0) && forall n :: Reachable(n, 3.0) ==> n >= 11
    ensures Reachable(18, 4.0) && forall n :: Reachable(n, 4.0) ==> n >= 18
    ensures Reachable(27, 5.0) && forall n :: Reachable(n, 5.0) ==> n >= 27
  {
    SpikesReach();
    forall n: nat, t: real | Reachable(n, t)
      ensures (t == 2.5 ==> n >= 8) && (t == 3.0 ==> n >= 11) && (t == 4.0 ==> n >= 18) && (t == 5.0 ==> n >= 27)
    {
      var xs: seq<real>, s: real :| n > 0 && |xs| == n && IsDeviation(s, xs) && ZScore(xs, s) >= t;
      ZScoreNeedsSamples(xs, s);
    }
  }

  /** One window for each threshold, with a deviation that is a whole number. */
  lemma SpikesReach()
    ensures Reachable(8, 2.5) && Reachable(11, 3.0) && Reachable(18, 4.0) && Reachable(27, 5.0)
  {
    ReachOnePair(5, 2.0, 8.0, 3.0, 8.0, 8.0, 2.5);
    ReachThreePairs(4, 3.0, 3.0, 2.0, 11.0, 12.0, 44.0, 38.0, 3.0);
    ReachOnePair(15, 3.0, 18.0, 8.0, 18.0, 33.0, 4.0);
    ReachThreePairs(20, 7.0, 2.0, 1.0, 27.0, 20.0, 108.0, 102.0, 5.0);
  }

  /** The numbers fit: `q` is the sum of squares, `k` the length, `m` the mean and `s` the deviation. */
  predicate Fits(k: real, m: real, q: real, s: real, t: real) {
    q + k * ((k - 1.0) * (m * m)) == k * (s * s) && m > 0.0 && s >= 0.0 && t * (s + EPSILON) <= (k - 1.0) * m
  }

  lemma ReachOnePair(n: nat, a: real, k: real, m: real, q: real, s: real, t: real)
    requires k == (n + 3) as real && n >= 2 && q == 2.0 * (a * a) && Fits(k, m, q, s, t)
    ensures Reachable(n + 3, t)
  {
    OnePair(n, a, m);
    SpikeReaches(Zeros(n) + [a] + [-a], k, m, q, s, t);
  }

  lemma ReachThreePairs(n: nat, a: real, b: real, c: real, k: real, m: real, q: real, s: real, t: real)
    requires k == (n + 7) as real && q == 2.0 * (a * a) + 2.0 * (b * b) + 2.0 * (c * c) && Fits(k, m, q, s, t)
    ensures Reachable(n + 7, t)
  {
    var xs := ThreePairs(n, a, b, c, m);
    SpikeReaches(xs, k, m, q, s, t);
  }

  lemma OnePair(n: nat, a: real, m: real)
    ensures Balanced(Zeros(n) + [a] + [-a], m, 2.0 * (a * a))
  {
    ZerosBalanced(n, m);
    PairBalanced(Zeros(n), a, m, 0.0, 2.0 * (a * a));
  }

  lemma ThreePairs(n: nat, a: real, b: real, c: real, m: real) returns (xs: seq<real>)
    ensures |xs| == n + 6 && Balanced(xs, m, 2.0 * (a * a) + 2.0 * (b * b) + 2.0 * (c * c))
  {
    OnePair(n, a, m);
    xs := Zeros(n) + [a] + [-a];
    PairBalanced(xs, b, m, 2.0 * (a * a), 2.0 * (a * a) + 2.0 * (b * b));
    xs := xs + [b] + [-b];
    PairBalanced(xs, c, m, 2.0 * (a * a) + 2.0 * (b * b), 2.0 * (a * a) + 2.0 * (b * b) + 2.0 * (c * c));
    xs := xs + [c] + [-c];
  }
}
