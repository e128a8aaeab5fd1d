/**
 * The Allan deviation tool (tools/calibration/allan.py) over the reals, stated on the variance, the
 * square of what it prints: the prefix-sum form, and the two scans that pick a stretch of data.
 */
module Allans {
  import opened Basics

  function Sum(s: seq<real>): real {
    if s == [] then 0.0 else Sum(s[..|s| - 1]) + s[|s| - 1]
  }

  function Squares(s: seq<real>): real {
    if s == [] then 0.0 else Squares(s[..|s| - 1]) + s[|s| - 1] * s[|s| - 1]
  }

  /** The average over block `b` to `b + m`. */
  function Mean(x: seq<real>, b: nat, m: nat): real
    requires m > 0 && b + m <= |x|
  {
    Sum(x[b..b + m]) / m as real
  }

  /** All differences between the averages of adjacent blocks of `m` samples, overlapping. */
  function BlockDifferences(x: seq<real>, m: nat): (d: seq<real>)
    requires 0 < m && 2 * m <= |x|
    ensures |d| == |x| + 1 - 2 * m
  {
    seq(|x| + 1 - 2 * m, i requires 0 <= i < |x| + 1 - 2 * m => Mean(x, i + m, m) - Mean(x, i, m))
  }

  function HalfMeanSquare(d: seq<real>): real
    requires d != []
  {
    Squares(d) / (2.0 * |d| as real)
  }

  /** The overlapping Allan variance by its definition: half the mean square of those differences. */
  function AllanVariance(x: seq<real>, m: nat): real
    requires 0 < m && 2 * m <= |x|
  {
    HalfMeanSquare(BlockDifferences(x, m))
  }

  // ---- the fast form

  /** The sum of the first `k` samples, scaled by the sample time. */
  function Angle(x: seq<real>, dt: real, k: nat): real
    requires k <= |x|
  {
    Sum(x[..k]) * dt
  }

  /** Cumulative sums starting at zero. */
  function Theta(x: seq<real>, dt: real): (theta: seq<real>)
    ensures |theta| == |x| + 1
  {
    seq(|x| + 1, k requires 0 <= k <= |x| => Angle(x, dt, k))
  }

  function SecondDifferences(theta: seq<real>, m: nat): (d: seq<real>)
    requires 2 * m < |theta|
    ensures |d| == |theta| - 2 * m
  {
    seq(|theta| - 2 * m, i requires 0 <= i < |theta| - 2 * m => theta[i + 2 * m] - 2.0 * theta[i + m] + theta[i])
  }

  /** One entry of the result, squared. */
  function Variance(d: seq<real>, tau: real): real
    requires tau > 0.0 && d != []
  {
    Squares(d) / (2.0 * tau * tau * |d| as real)
  }

  method CumulativeSums(x: seq<real>, dt: real) returns (theta: seq<real>)
    ensures theta == Theta(x, dt)
  {
    var total := 0.0;
    theta := [total * dt];
    for k := 0 to |x|
      invariant total == Sum(x[..k])
      invariant |theta| == k + 1 && forall j :: 0 <= j <= k ==> theta[j] == Angle(x, dt, j)
    {
      assert x[..k + 1][..k] == x[..k];
      total := total + x[k];
      theta := theta + [total * dt];
    }
  }

  /** `s` is the square root of `v`. */
  predicate IsRoot(v: real, s: real) {
    s >= 0.0 && s * s == v
  }

  lemma {:induction false} SquaresAreNotNegative(s: seq<real>)
    ensures Squares(s) >= 0.0
  {
    if s == [] {
    } else {
      SquaresAreNotNegative(s[..|s| - 1]);
      assert s[|s| - 1] * s[|s| - 1] >= 0.0;
    }
  }

  lemma HalvedIsNotNegative(s: real, n: real)
    requires s >= 0.0 && n > 0.0
    ensures s / n >= 0.0
  {
  }

  lemma VarianceIsNotNegative(x: seq<real>, m: nat)
    requires 0 < m && 2 * m <= |x|
    ensures AllanVariance(x, m) >= 0.0
  {
    hide Squares, BlockDifferences;
    var d := BlockDifferences(x, m);
    SquaresAreNotNegative(d);
    HalvedIsNotNegative(Squares(d), 2.0 * |d| as real);
  }

  predicate Rising(s: seq<nat>) {
    forall i, j :: 0 <= i < j < |s| ==> s[i] < s[j]
  }

  /** The block lengths kept: up to a tenth of the series. */
  function Kept(candidates: seq<nat>, limit: nat): (r: seq<nat>)
    ensures forall m :: m in r <==> m in candidates && m <= limit
  {
    if candidates == [] then []
    else
      var rest := Kept(candidates[..|candidates| - 1], limit);
      var last := candidates[|candidates| - 1];
      if last <= limit then rest + [last] else rest
  }

  lemma {:induction false} KeptRise(candidates: seq<nat>, limit: nat)
    requires Rising(candidates)
    ensures Rising(Kept(candidates, limit))
  {
    if candidates == [] {
    } else {
      var n := |candidates| - 1;
      KeptRise(candidates[..n], limit);
      var rest := Kept(candidates[..n], limit);
      forall i | 0 <= i < |rest|
        ensures rest[i] < candidates[n]
      {
        assert rest[i] in rest;
      }
    }
  }

  /** Block lengths for a series of `n` samples: positive, with at least two differences each. */
  predicate Usable(lengths: seq<nat>, n: nat) {
    forall i :: 0 <= i < |lengths| ==> 0 < lengths[i] && 2 * lengths[i] < n
  }

  lemma KeptLengths(n: nat, candidates: seq<nat>, r: seq<nat>)
    requires 0 !in candidates && r == Kept(candidates, n / 10)
    ensures (Rising(candidates) ==> Rising(r)) && Usable(r, n)
    ensures forall m :: m in r <==> m in candidates && m <= n / 10
  {
    if Rising(candidates) {
      KeptRise(candidates, n / 10);
    }
    assert forall i :: 0 <= i < |r| ==> r[i] in r;
  }

  /**
   * `adev`, for the block lengths it considers. Keeping only those up to a tenth of the series means
   * that its check for fewer than two differences never skips one.
   */
  method Adev(x: seq<real>, dt: real, candidates: seq<nat>, root: real -> real)
    returns (lengths: seq<nat>, taus: seq<real>, sigmas: seq<real>)
    requires dt > 0.0 && 0 !in candidates
    requires forall v: real :: v >= 0.0 ==> IsRoot(v, root(v))
    ensures forall m :: m in lengths <==> m in candidates && m <= |x| / 10
    ensures (Rising(candidates) ==> Rising(lengths)) && |taus| == |sigmas| == |lengths|
    ensures forall i :: 0 <= i < |lengths| ==> taus[i] == lengths[i] as real * dt
    ensures forall i :: 0 <= i < |lengths| ==> 0 < lengths[i] && 2 * lengths[i] <= |x|
                                               && IsRoot(AllanVariance(x, lengths[i]), sigmas[i])
  {
    hide Theta, Variance, AllanVariance, SecondDifferences, IsRoot, Rising, Kept;
    lengths := Kept(candidates, |x| / 10);
    KeptLengths(|x|, candidates, lengths);
    var theta := CumulativeSums(x, dt);
    taus, sigmas := [], [];
    for i := 0 to |lengths|
      invariant |taus| == |sigmas| == i
      invariant forall j :: 0 <= j < i ==> taus[j] == lengths[j] as real * dt
      invariant forall j :: 0 <= j < i ==> IsRoot(AllanVariance(x, lengths[j]), sigmas[j])
    {
      var m := lengths[i];
      var d := SecondDifferences(theta, m);
      if |d| < 2 {
        assert false;
      }
      var tau := m as real * dt;
      FastFormIsDefinition(x, dt, m);
      taus := taus + [tau];
      VarianceIsNotNegative(x, m);
      sigmas := sigmas + [root(Variance(d, tau))];
    }
  }

  lemma {:induction false} SumOfSlice(x: seq<real>, b: nat, e: nat)
    requires b <= e <= |x|
    ensures Sum(x[b..e]) == Sum(x[..e]) - Sum(x[..b])
    decreases e
  {
    if b == e {
    } else {
      SumOfSlice(x, b, e - 1);
      assert x[b..e][..e - b - 1] == x[b..e - 1];
      assert x[..e][..e - 1] == x[..e - 1];
    }
  }

  lemma BlockNumbers(p: real, q: real, r: real, dt: real, m: real, tau: real, one: real, other: real, u: real, v: real)
    requires m > 0.0 && tau == m * dt && one == r - q && other == q - p && u == one / m && v == other / m
    ensures r * dt - 2.0 * (q * dt) + p * dt == tau * (u - v)
  {
    assert u * m == one && v * m == other;
    assert tau * (u - v) == dt * (u * m) - dt * (v * m);
  }

  lemma MeanOfPrefixes(x: seq<real>, b: nat, m: nat, s: real)
    requires m > 0 && b + m <= |x| && s == Sum(x[..b + m]) - Sum(x[..b])
    ensures Mean(x, b, m) == s / m as real
  {
    hide Sum;
    SumOfSlice(x, b, b + m);
  }

  /** Each second difference is the block length in time times one block difference. */
  lemma SecondDifferenceIsBlockDifference(x: seq<real>, dt: real, m: nat, i: nat, tau: real)
    requires 0 < m && i + 2 * m <= |x| && tau == m as real * dt
    ensures SecondDifferences(Theta(x, dt), m)[i] == tau * BlockDifferences(x, m)[i]
  {
    hide Sum, Mean;
    var p, q, r := Sum(x[..i]), Sum(x[..i + m]), Sum(x[..i + 2 * m]);
    MeanOfPrefixes(x, i + m, m, r - q);
    MeanOfPrefixes(x, i, m, q - p);
    BlockNumbers(p, q, r, dt, m as real, tau, r - q, q - p, Mean(x, i + m, m), Mean(x, i, m));
  }

  lemma {:induction false} SquaresOfMultiple(a: seq<real>, b: seq<real>, k: real)
    requires |a| == |b| && forall i :: 0 <= i < |a| ==> a[i] == k * b[i]
    ensures Squares(a) == k * k * Squares(b)
  {
    if a == [] {
    } else {
      var n := |a| - 1;
      SquaresOfMultiple(a[..n], b[..n], k);
      MultipleSquared(a[n], b[n], k, Squares(b[..n]));
    }
  }

  lemma MultipleSquared(a: real, b: real, k: real, rest: real)
    requires a == k * b
    ensures k * k * rest + a * a == k * k * (rest + b * b)
  {
  }

  lemma CancelSquare(s: real, tau: real, n: real, t: real, wide: real, narrow: real)
    requires tau > 0.0 && n > 0.0 && t == tau * tau * s && wide == 2.0 * tau * tau * n && narrow == 2.0 * n
    ensures wide > 0.0 && t / wide == s / narrow
  {
    var r := s / narrow;
    Positive(tau, tau, tau * tau);
    Positive(tau * tau, narrow, wide);
    assert r * narrow == s;
    Regroup(tau * tau, r, narrow, s, t, wide);
    Ratio(t, wide, r);
  }

  lemma Regroup(k: real, r: real, n: real, s: real, t: real, w: real)
    requires s == r * n && t == k * s && w == k * n
    ensures t == r * w
  {
  }

  lemma Ratio(a: real, b: real, r: real)
    requires b != 0.0 && a == r * b
    ensures a / b == r
  {
  }

  /** The prefix-sum form computes the overlapping Allan variance, for every series and block length. */
  lemma FastFormIsDefinition(x: seq<real>, dt: real, m: nat)
    requires dt > 0.0 && 0 < m && 2 * m <= |x|
    ensures m as real * dt > 0.0
    ensures Variance(SecondDifferences(Theta(x, dt), m), m as real * dt) == AllanVariance(x, m)
  {
    hide SecondDifferences, BlockDifferences, Theta, Variance, HalfMeanSquare;
    var tau := m as real * dt;
    Positive(m as real, dt, tau);
    DifferencesAreMultiples(x, dt, m, tau);
    VariancesAgree(SecondDifferences(Theta(x, dt), m), BlockDifferences(x, m), tau);
  }

  lemma VariancesAgree(d: seq<real>, blocks: seq<real>, tau: real)
    requires tau > 0.0 && |d| == |blocks| > 0 && forall i :: 0 <= i < |d| ==> d[i] == tau * blocks[i]
    ensures Variance(d, tau) == HalfMeanSquare(blocks)
  {
    hide Squares;
    SquaresOfMultiple(d, blocks, tau);
    CancelSquare(Squares(blocks), tau, |d| as real, Squares(d), 2.0 * tau * tau * |d| as real, 2.0 * |d| as real);
  }

  lemma DifferencesAreMultiples(x: seq<real>, dt: real, m: nat, tau: real)
    requires 0 < m && 2 * m <= |x| && tau == m as real * dt
    ensures var d, blocks := SecondDifferences(Theta(x, dt), m), BlockDifferences(x, m);
            |d| == |blocks| && forall i :: 0 <= i < |d| ==> d[i] == tau * blocks[i]
  {
    hide SecondDifferences, BlockDifferences, Theta;
    forall i | 0 <= i < |SecondDifferences(Theta(x, dt), m)|
      ensures SecondDifferences(Theta(x, dt), m)[i] == tau * BlockDifferences(x, m)[i]
    {
      SecondDifferenceIsBlockDifference(x, dt, m, i, tau);
    }
  }

  // ---- what the variance does not see

  function Shifted(x: seq<real>, c: real): seq<real> {
    seq(|x|, i requires 0 <= i < |x| => x[i] + c)
  }

  function Stretched(x: seq<real>, k: real): seq<real> {
    seq(|x|, i requires 0 <= i < |x| => k * x[i])
  }

  lemma {:induction false} SumOfAffine(x: seq<real>, y: seq<real>, k: real, c: real)
    requires |x| == |y| && forall i :: 0 <= i < |x| ==> y[i] == k * x[i] + c
    ensures Sum(y) == k * Sum(x) + |x| as real * c
  {
    if x == [] {
    } else {
      var n := |x| - 1;
      SumOfAffine(x[..n], y[..n], k, c);
      AffineNumbers(Sum(x[..n]), x[n], k, n as real, c);
    }
  }

  lemma AffineNumbers(rest: real, x: real, k: real, n: real, c: real)
    ensures k * rest + n * c + (k * x + c) == k * (rest + x) + (n + 1.0) * c
  {
  }

  lemma MeanNumbers(s: real, k: real, m: real, c: real)
    requires m > 0.0
    ensures (k * s + m * c) / m == k * (s / m) + c
  {
    var r := s / m;
    assert r * m == s;
    assert (k * r + c) * m == k * (r * m) + m * c;
    Ratio(k * s + m * c, m, k * r + c);
  }

  lemma MeanOfAffine(x: seq<real>, y: seq<real>, k: real, c: real, b: nat, m: nat)
    requires |x| == |y| && forall i :: 0 <= i < |x| ==> y[i] == k * x[i] + c
    requires m > 0 && b + m <= |x|
    ensures Mean(y, b, m) == k * Mean(x, b, m) + c
  {
    SumOfAffine(x[b..b + m], y[b..b + m], k, c);
    MeanNumbers(Sum(x[b..b + m]), k, m as real, c);
  }

  lemma VarianceOfAffine(x: seq<real>, y: seq<real>, k: real, c: real, m: nat)
    requires |x| == |y| && forall i :: 0 <= i < |x| ==> y[i] == k * x[i] + c
    requires 0 < m && 2 * m <= |x|
    ensures AllanVariance(y, m) == k * k * AllanVariance(x, m)
  {
    hide BlockDifferences, HalfMeanSquare;
    DifferencesOfAffine(x, y, k, c, m);
    HalfMeanSquareOfMultiple(BlockDifferences(y, m), BlockDifferences(x, m), k);
  }

  lemma HalfMeanSquareOfMultiple(a: seq<real>, b: seq<real>, k: real)
    requires |a| == |b| > 0 && forall i :: 0 <= i < |a| ==> a[i] == k * b[i]
    ensures HalfMeanSquare(a) == k * k * HalfMeanSquare(b)
  {
    hide Squares;
    SquaresOfMultiple(a, b, k);
    MultipleOfRatio(Squares(b), k * k, 2.0 * |b| as real, Squares(a));
  }

  lemma DifferencesOfAffine(x: seq<real>, y: seq<real>, k: real, c: real, m: nat)
    requires |x| == |y| && forall i :: 0 <= i < |x| ==> y[i] == k * x[i] + c
    requires 0 < m && 2 * m <= |x|
    ensures var dx, dy := BlockDifferences(x, m), BlockDifferences(y, m);
            forall i :: 0 <= i < |dx| ==> dy[i] == k * dx[i]
  {
    hide BlockDifferences, Mean;
    forall i | 0 <= i < |BlockDifferences(x, m)|
      ensures BlockDifferences(y, m)[i] == k * BlockDifferences(x, m)[i]
    {
      DifferenceOfAffine(x, y, k, c, m, i);
    }
  }

  lemma DifferenceOfAffine(x: seq<real>, y: seq<real>, k: real, c: real, m: nat, i: nat)
    requires |x| == |y| && forall i :: 0 <= i < |x| ==> y[i] == k * x[i] + c
    requires 0 < m && i + 2 * m <= |x|
    ensures BlockDifferences(y, m)[i] == k * BlockDifferences(x, m)[i]
  {
    hide Mean;
    MeanOfAffine(x, y, k, c, i + m, m);
    MeanOfAffine(x, y, k, c, i, m);
    Distribute(k, Mean(x, i + m, m), Mean(x, i, m), c, BlockDifferences(y, m)[i]);
  }

  lemma Distribute(k: real, a: real, b: real, c: real, d: real)
    requires d == k * a + c - (k * b + c)
    ensures d == k * (a - b)
  {
  }

  lemma MultipleOfRatio(s: real, k: real, n: real, t: real)
    requires n > 0.0 && t == k * s
    ensures t / n == k * (s / n)
  {
    var r := s / n;
    assert r * n == s;
    Ratio(t, n, k * r);
  }

  /** A constant added to the series changes nothing: gravity and static bias drop out. */
  lemma OffsetDoesNotMatter(x: seq<real>, c: real, m: nat)
    requires 0 < m && 2 * m <= |x|
    ensures AllanVariance(Shifted(x, c), m) == AllanVariance(x, m)
  {
    hide AllanVariance;
    VarianceOfAffine(x, Shifted(x, c), 1.0, c, m);
  }

  /** Scaling the series scales the variance by the square, so the deviation by the magnitude. */
  lemma ScaleIsSquared(x: seq<real>, k: real, m: nat)
    requires 0 < m && 2 * m <= |x|
    ensures AllanVariance(Stretched(x, k), m) == k * k * AllanVariance(x, m)
  {
    hide AllanVariance;
    VarianceOfAffine(x, Stretched(x, k), k, 0.0, m);
  }

  /** The deviation itself scales by the magnitude of the factor. */
  lemma DeviationScales(x: seq<real>, k: real, m: nat, sigma: real, scaled: real)
    requires 0 < m && 2 * m <= |x|
    requires IsRoot(AllanVariance(x, m), sigma) && IsRoot(AllanVariance(Stretched(x, k), m), scaled)
    ensures scaled == (if k >= 0.0 then k else -k) * sigma
  {
    hide AllanVariance, IsRoot;
    ScaleIsSquared(x, k, m);
    ScaledRoot(AllanVariance(x, m), AllanVariance(Stretched(x, k), m), k, sigma, scaled);
  }

  lemma ScaledRoot(v: real, w: real, k: real, s: real, t: real)
    requires w == k * k * v && IsRoot(v, s) && IsRoot(w, t)
    ensures t == (if k >= 0.0 then k else -k) * s
  {
    var h := if k >= 0.0 then k else -k;
    RootScales(v, w, k * k, h, s, t, h * s);
  }

  lemma RootScales(v: real, w: real, kk: real, h: real, s: real, t: real, p: real)
    requires w == kk * v && kk == h * h && h >= 0.0 && s >= 0.0 && t >= 0.0
    requires s * s == v && t * t == w && p == h * s
    ensures t == p
  {
    assert p * p == h * h * (s * s);
    assert p >= 0.0;
    if p > t {
      Positive(p - t, p + t, p * p - t * t);
    } else if p < t {
      Positive(t - p, p + t, t * t - p * p);
    }
  }

  // ---- the widest window of a fit

  predicate Run(ok: seq<bool>, a: int, b: int) {
    0 <= a <= b <= |ok| && forall i :: a <= i < b ==> ok[i]
  }

  /** The first of the longest runs, (0, 0) when there is none. */
  ghost predicate FirstLongest(ok: seq<bool>, a: int, b: int) {
    && Run(ok, a, b)
    && (forall p, q :: Run(ok, p, q) ==> q - p <= b - a)
    && (forall p, q :: Run(ok, p, q) && p < q && q - p == b - a ==> a <= p)
    && (a == b ==> a == 0)
  }

  lemma RunStarts(ok: seq<bool>, p: int, q: int, start: nat)
    requires Run(ok, p, q) && start < q && (start == 0 || !ok[start - 1])
    ensures start <= p
  {
  }

  /** The scan in `fixed_slope_fit`; the series is followed by one false entry. */
  method LongestRun(ok: seq<bool>) returns (a: nat, b: nat)
    ensures FirstLongest(ok, a, b)
  {
    a, b := 0, 0;
    var start: Option<nat> := None;
    for i := 0 to |ok| + 1
      invariant a <= b <= i && (a == b ==> a == 0) && Run(ok, a, b)
      invariant i == |ok| + 1 ==> start.None?
      invariant start.Some? ==> start.value < i <= |ok| && Run(ok, start.value, i)
                                && (start.value == 0 || !ok[start.value - 1])
      invariant start.None? ==> i == 0 || i == |ok| + 1 || !ok[i - 1]
      invariant forall p, q :: Run(ok, p, q) && Closed(start, i, q) ==> q - p <= b - a
      invariant forall p, q :: Run(ok, p, q) && Closed(start, i, q) && p < q && q - p == b - a ==> a <= p
    {
      var good := i < |ok| && ok[i];
      if good && start.None? {
        start := Some(i);
      } else if !good && start.Some? {
        forall p, q | Run(ok, p, q) && start.value < q
          ensures start.value <= p || p == q
        {
          RunStarts(ok, p, q, start.value);
        }
        if i - start.value > b - a {
          a, b := start.value, i;
        }
        start := None;
      }
    }
  }

  /** Runs ending at `q` are settled: the scan is past them and not inside one. */
  predicate Closed(start: Option<nat>, i: nat, q: int) {
    q < i + 1 && (start.Some? ==> q <= start.value)
  }

  datatype Window = Window(tolerance: nat, a: nat, b: nat)

  /** Where the local slope is within a tolerance of the wanted one. */
  function Close(local: seq<real>, slope: real, tolerance: real): (ok: seq<bool>)
    ensures |ok| == |local|
  {
    seq(|local|, i requires 0 <= i < |local| => -tolerance < local[i] - slope < tolerance)
  }

  /** Some run has at least three points. */
  ghost predicate Fits(local: seq<real>, slope: real, tolerance: real) {
    exists p, q :: Run(Close(local, slope, tolerance), p, q) && q - p >= 3
  }

  /**
   * The window search of `fixed_slope_fit`: the first tolerance at which three points in a row fit, with
   * the first widest window at it; none when no tolerance will do.
   */
  method FindWindow(local: seq<real>, slope: real, tolerances: seq<real>) returns (r: Option<Window>)
    ensures r.None? <==> forall k :: 0 <= k < |tolerances| ==> !Fits(local, slope, tolerances[k])
    ensures r.Some? ==> var w := r.value;
                        && w.tolerance < |tolerances| && w.b - w.a >= 3
                        && FirstLongest(Close(local, slope, tolerances[w.tolerance]), w.a, w.b)
                        && forall k :: 0 <= k < w.tolerance ==> !Fits(local, slope, tolerances[k])
  {
    for k := 0 to |tolerances|
      invariant forall j :: 0 <= j < k ==> !Fits(local, slope, tolerances[j])
    {
      var a, b := LongestRun(Close(local, slope, tolerances[k]));
      if b - a >= 3 {
        assert Fits(local, slope, tolerances[k]);
        return Some(Window(k, a, b));
      }
    }
    return None;
  }

  // ---- the longest contiguous stretch

  /** Sample `k + 1` does not follow sample `k` within the limit. */
  function Gaps(ts: seq<Time>, limit: real): (gaps: seq<bool>)
    ensures |gaps| == if ts == [] then 0 else |ts| - 1
  {
    seq(if ts == [] then 0 else |ts| - 1,
        k requires 0 <= k < (if ts == [] then 0 else |ts| - 1) => (ts[k + 1] - ts[k]) as real > limit || ts[k + 1] <= ts[k])
  }

  /** Where each stretch starts: at zero and behind every gap. */
  function Starts(gaps: seq<bool>): (s: seq<int>)
    ensures s != [] && s[0] == 0
  {
    if gaps == [] then [0]
    else
      var rest := Starts(gaps[..|gaps| - 1]);
      if gaps[|gaps| - 1] then rest + [|gaps|] else rest
  }

  /** The start of every stretch, and one past the last sample. */
  function Edges(gaps: seq<bool>): (edges: seq<int>)
    ensures |edges| >= 2
  {
    Starts(gaps) + [|gaps| + 1]
  }

  function Width(edges: seq<int>, i: nat): int
    requires i + 1 < |edges|
  {
    edges[i + 1] - edges[i]
  }

  /** The index of the first widest of the first `n` intervals between neighbouring edges. */
  function Widest(edges: seq<int>, n: nat): (i: nat)
    requires 0 < n < |edges|
    ensures i < n
    ensures forall j: nat :: j < n ==> Width(edges, j) <= Width(edges, i)
    ensures forall j: nat :: j < i ==> Width(edges, j) < Width(edges, i)
  {
    if n == 1 then 0
    else
      var i := Widest(edges, n - 1);
      if Width(edges, n - 1) > Width(edges, i) then n - 1 else i
  }

  /** `longest_contiguous`: the stretch it returns. */
  function LongestContiguous(ts: seq<Time>, limit: real): (int, int) {
    if ts == [] then (0, 0)
    else
      var edges := Edges(Gaps(ts, limit));
      var i := Widest(edges, |edges| - 1);
      (edges[i], edges[i + 1])
  }

  /** No gap lies inside the samples from `a` to `b`. */
  predicate Unbroken(gaps: seq<bool>, a: int, b: int) {
    0 <= a < b <= |gaps| + 1 && forall k :: a <= k < b - 1 ==> !gaps[k]
  }

  predicate Ascends(s: seq<int>, limit: int) {
    && (forall i :: 0 <= i < |s| ==> 0 <= s[i] <= limit)
    && (forall i, j :: 0 <= i < j < |s| ==> s[i] < s[j])
  }

  predicate BehindGaps(s: seq<int>, gaps: seq<bool>) {
    forall i :: 0 < i < |s| ==> 0 < s[i] <= |gaps| && gaps[s[i] - 1]
  }

  lemma AscendsSnoc(s: seq<int>, limit: int, last: int)
    requires Ascends(s, limit) && limit < last && 0 <= last
    ensures Ascends(s, last) && Ascends(s + [last], last)
  {
  }

  lemma BehindGapsSnoc(s: seq<int>, gaps: seq<bool>, gap: bool)
    requires BehindGaps(s, gaps)
    ensures BehindGaps(s, gaps + [gap])
    ensures gap && s != [] ==> BehindGaps(s + [|gaps| + 1], gaps + [gap])
  {
  }

  lemma {:induction false} StartsIncrease(gaps: seq<bool>)
    ensures Ascends(Starts(gaps), |gaps|) && BehindGaps(Starts(gaps), gaps)
  {
    if gaps == [] {
    } else {
      var n := |gaps| - 1;
      var rest := Starts(gaps[..n]);
      StartsIncrease(gaps[..n]);
      assert gaps == gaps[..n] + [gaps[n]];
      assert Starts(gaps) == if gaps[n] then rest + [n + 1] else rest;
      hide Starts, Ascends, BehindGaps;
      AscendsSnoc(rest, n, n + 1);
      BehindGapsSnoc(rest, gaps[..n], gaps[n]);
    }
  }

  lemma EdgesIncrease(gaps: seq<bool>)
    ensures var edges := Edges(gaps);
            && edges[0] == 0 && edges[|edges| - 1] == |gaps| + 1 && Ascends(edges, |gaps| + 1)
            && BehindGaps(edges[..|edges| - 1], gaps)
  {
    hide Ascends, BehindGaps;
    StartsIncrease(gaps);
    AscendsSnoc(Starts(gaps), |gaps|, |gaps| + 1);
    assert Edges(gaps)[..|Edges(gaps)| - 1] == Starts(gaps);
  }

  lemma LastStretch(edges: seq<int>, i: nat, n: int)
    requires i + 1 < |edges| && n <= edges[i + 1] && edges[|edges| - 1] == n && Ascends(edges, n)
    ensures i + 2 == |edges|
  {
  }

  /** Between neighbouring edges nothing is broken, and every unbroken stretch lies between two of them. */
  lemma {:induction false} StretchesLieBetweenEdges(gaps: seq<bool>, a: nat, b: nat) returns (i: nat)
    requires Unbroken(gaps, a, b)
    ensures i + 1 < |Edges(gaps)| && Edges(gaps)[i] <= a && b <= Edges(gaps)[i + 1]
    decreases |gaps|
  {
    EdgesIncrease(gaps);
    var n := |gaps|;
    if gaps == [] {
      i := 0;
    } else {
      var rest := gaps[..n - 1];
      var prior := Starts(rest);
      if gaps[n - 1] && a == n {
        i := |prior|;
      } else {
        EdgesIncrease(rest);
        if a == n {
          i := |prior| - 1;
          assert Edges(rest)[|prior| - 1] < n;
        } else {
          i := StretchesLieBetweenEdges(rest, a, if b == n + 1 then n else b);
          assert i < |prior|;
          if b == n + 1 {
            LastStretch(Edges(rest), i, n);
          }
        }
      }
    }
  }

  lemma {:induction false} NothingBreaksBetweenEdges(gaps: seq<bool>, i: nat)
    requires i + 1 < |Edges(gaps)|
    ensures Unbroken(gaps, Edges(gaps)[i], Edges(gaps)[i + 1])
    decreases |gaps|
  {
    EdgesIncrease(gaps);
    if gaps == [] {
    } else {
      var n := |gaps|;
      var rest := gaps[..n - 1];
      var prior := Starts(rest);
      EdgesIncrease(rest);
      if i < |prior| {
        NothingBreaksBetweenEdges(rest, i);
      }
    }
  }

  lemma FirstWidest(edges: seq<int>, best: nat, i: nat, a: int, b: int)
    requires best + 1 < |edges| && i + 1 < |edges| && edges[i] <= a && b <= edges[i + 1]
    requires Ascends(edges, edges[|edges| - 1])
    requires Width(edges, i) <= Width(edges, best) && (Width(edges, i) == Width(edges, best) ==> best <= i)
    ensures b - a <= Width(edges, best) && (b - a == Width(edges, best) ==> edges[best] <= a)
  {
  }

  lemma WidestIsFirstLongest(gaps: seq<bool>, a: nat, b: nat)
    requires Unbroken(gaps, a, b)
    ensures var edges := Edges(gaps); var best := Widest(edges, |edges| - 1);
            && Unbroken(gaps, edges[best], edges[best + 1])
            && b - a <= Width(edges, best) && (b - a == Width(edges, best) ==> edges[best] <= a)
  {
    hide Unbroken, Width, Edges;
    var edges := Edges(gaps);
    var best := Widest(edges, |edges| - 1);
    hide Widest;
    EdgesIncrease(gaps);
    NothingBreaksBetweenEdges(gaps, best);
    var i := StretchesLieBetweenEdges(gaps, a, b);
    assert Width(edges, i) <= Width(edges, best) && (Width(edges, i) == Width(edges, best) ==> best <= i);
    FirstWidest(edges, best, i, a, b);
  }

  /** Each sample from `a` to `b` is later than the one before it, by no more than the limit. */
  predicate Contiguous(ts: seq<Time>, limit: real, a: int, b: int) {
    && 0 <= a < b <= |ts|
    && forall k :: a <= k < b - 1 ==> ts[k] < ts[k + 1] && (ts[k + 1] - ts[k]) as real <= limit
  }

  lemma ContiguousIsUnbroken(ts: seq<Time>, limit: real, a: int, b: int)
    requires ts != []
    ensures Contiguous(ts, limit, a, b) <==> Unbroken(Gaps(ts, limit), a, b)
  {
    if Unbroken(Gaps(ts, limit), a, b) {
      forall k | a <= k < b - 1
        ensures ts[k] < ts[k + 1] && (ts[k + 1] - ts[k]) as real <= limit
      {
        assert !Gaps(ts, limit)[k];
      }
    }
  }

  /**
   * The stretch returned is contiguous, no contiguous stretch is longer, and none as long begins earlier.
   */
  lemma LongestContiguousIsFirstLongest(ts: seq<Time>, limit: real, a: nat, b: nat)
    requires ts != [] && Contiguous(ts, limit, a, b)
    ensures var (p, q) := LongestContiguous(ts, limit);
            && Contiguous(ts, limit, p, q) && b - a <= q - p && (b - a == q - p ==> p <= a)
  {
    hide Gaps, Edges, Widest, Unbroken, Contiguous;
    ContiguousIsUnbroken(ts, limit, a, b);
    WidestIsFirstLongest(Gaps(ts, limit), a, b);
    var (p, q) := LongestContiguous(ts, limit);
    ContiguousIsUnbroken(ts, limit, p, q);
  }
}
