/**
 * The IMU low-pass filter (src/openvins_runner/sensor_runner.cpp), over the reals: its design, the
 * transposed form the sensor thread runs, and what that form computes.
 */
module ImuLowPasses {
  import opened Basics
  import opened Estimates

  function Plus(a: Vec3, b: Vec3): Vec3 {
    Vec3(a.x + b.x, a.y + b.y, a.z + b.z)
  }

  function Minus(a: Vec3, b: Vec3): Vec3 {
    Vec3(a.x - b.x, a.y - b.y, a.z - b.z)
  }

  function Times(k: real, a: Vec3): Vec3 {
    Vec3(k * a.x, k * a.y, k * a.z)
  }

  datatype LowPass = LowPass(on: bool, b0: real, b1: real, b2: real, a1: real, a2: real, delay: Time) {
    /** Unit gain at zero frequency, and poles strictly inside the unit circle. */
    predicate Stable() {
      && b0 + b1 + b2 == 1.0 + a1 + a2
      && 0.0 < a2 < 1.0 && -(1.0 + a2) < a1 < 1.0 + a2
    }
  }

  /** The group delay at zero frequency, in samples. */
  function DelaySamples(b0: real, b1: real, b2: real, a1: real, a2: real): real
    requires b0 + b1 + b2 != 0.0 && 1.0 + a1 + a2 != 0.0
  {
    (b1 + 2.0 * b2) / (b0 + b1 + b2) - (a1 + 2.0 * a2) / (1.0 + a1 + a2)
  }

  /** The coefficients from the normalising factor n, p = root2 k and q = k k. */
  function Scaled(n: real, p: real, q: real): LowPass {
    LowPass(true, q * n, 2.0 * (q * n), q * n, 2.0 * (q - 1.0) * n, (1.0 - p + q) * n, 0)
  }

  /** The filter before its delay is known; `k` is the prewarped cutoff and `root2` the root of two. */
  function Coefficients(k: real, root2: real): LowPass
    requires k > 0.0 && root2 > 0.0
  {
    Scaled(1.0 / (1.0 + root2 * k + k * k), root2 * k, k * k)
  }

  /** `design`: coefficients and delay for a sample rate in hertz. */
  function Design(k: real, root2: real, rate: real): LowPass
    requires k > 0.0 && root2 > 0.0 && root2 * root2 == 2.0 && rate > 0.0
  {
    var f := Coefficients(k, root2);
    CoefficientsAreStable(k, root2);
    f.(delay := (DelaySamples(f.b0, f.b1, f.b2, f.a1, f.a2) / rate * 1000000000.0).Floor)
  }

  lemma Normalised(k: real, root2: real, n: real, p: real, q: real)
    requires k > 0.0 && root2 > 0.0 && root2 * root2 == 2.0
    requires p == root2 * k && q == k * k && 1.0 + p + q != 0.0 && n == 1.0 / (1.0 + p + q)
    ensures n > 0.0 && n * (1.0 + p + q) == 1.0 && p > 0.0 && q > 0.0 && 1.0 - p + q > 0.0
  {
    Positive(root2, k, p);
    Positive(k, k, q);
    Reciprocal(1.0 + p + q, n);
    HalfSquare(root2, k, p, q);
    NoRoot(p, q);
  }

  lemma Reciprocal(d: real, n: real)
    requires d > 0.0 && n == 1.0 / d
    ensures n > 0.0 && n * d == 1.0
  {
  }

  lemma HalfSquare(root2: real, k: real, p: real, q: real)
    requires root2 * root2 == 2.0 && p == root2 * k && q == k * k
    ensures p * p == 2.0 * q
  {
    assert p * p == (root2 * root2) * (k * k);
  }

  /** The denominator's quadratic has no real root. */
  lemma NoRoot(p: real, q: real)
    requires q > 0.0 && p * p == 2.0 * q
    ensures 1.0 - p + q > 0.0
  {
    var h := 1.0 - p / 2.0;
    assert h * h == 1.0 - p + q / 2.0;
    assert h * h >= 0.0;
  }

  /** The numerator is 1, 2, 1 times a positive factor. */
  predicate Smooths(f: LowPass) {
    f.b0 + f.b1 + f.b2 > 0.0 && f.b1 == 2.0 * f.b0 && f.b2 == f.b0
  }

  lemma ScaledIsStable(n: real, p: real, q: real)
    requires n > 0.0 && p > 0.0 && q > 0.0 && n * (1.0 + p + q) == 1.0 && 1.0 - p + q > 0.0
    ensures Scaled(n, p, q).Stable() && Smooths(Scaled(n, p, q))
  {
    Positive(1.0 - p + q, n, (1.0 - p + q) * n);
    Positive(p, n, p * n);
    Positive(q, n, q * n);
    Distribute(n, p, q);
  }

  lemma Distribute(n: real, p: real, q: real)
    ensures n * (1.0 + p + q) == n + p * n + q * n
    ensures 2.0 * (q - 1.0) * n == 2.0 * (q * n) - 2.0 * n
    ensures (1.0 - p + q) * n == n - p * n + q * n
  {
  }

  /** Every cutoff gives unit gain at rest and a stable filter. */
  lemma CoefficientsAreStable(k: real, root2: real)
    requires k > 0.0 && root2 > 0.0 && root2 * root2 == 2.0
    ensures Coefficients(k, root2).Stable() && Smooths(Coefficients(k, root2))
  {
    hide Scaled, LowPass.Stable, Smooths;
    var p, q := root2 * k, k * k;
    Positive(root2, k, p);
    Positive(k, k, q);
    var n := 1.0 / (1.0 + p + q);
    Normalised(k, root2, n, p, q);
    ScaledIsStable(n, p, q);
  }

  /** The group delay at zero frequency is root2 / (2 k) samples. */
  lemma DelayIsClosedForm(k: real, root2: real)
    requires k > 0.0 && root2 > 0.0 && root2 * root2 == 2.0
    ensures var f := Coefficients(k, root2);
            && f.b0 + f.b1 + f.b2 != 0.0 && 1.0 + f.a1 + f.a2 != 0.0
            && DelaySamples(f.b0, f.b1, f.b2, f.a1, f.a2) == root2 / (2.0 * k)
  {
    CoefficientsAreStable(k, root2);
    var p, q := root2 * k, k * k;
    Positive(root2, k, p);
    Positive(k, k, q);
    var n := 1.0 / (1.0 + p + q);
    var f := Scaled(n, p, q);
    assert Coefficients(k, root2) == f;
    Normalised(k, root2, n, p, q);
    DelayOfScaled(k, root2, n, p, q, root2 / (2.0 * k));
  }

  /** The designed filter is stable, and its timestamps are moved back by that delay in nanoseconds. */
  lemma DesignedFilter(k: real, root2: real, rate: real)
    requires k > 0.0 && root2 > 0.0 && root2 * root2 == 2.0 && rate > 0.0
    ensures var f := Design(k, root2, rate);
            f.on && f.Stable() && f.delay == (root2 / (2.0 * k) / rate * 1000000000.0).Floor
  {
    hide DelaySamples;
    CoefficientsAreStable(k, root2);
    DelayIsClosedForm(k, root2);
  }

  lemma DelayOfScaled(k: real, root2: real, n: real, p: real, q: real, delay: real)
    requires k > 0.0 && p == root2 * k && q == k * k && n > 0.0 && q > 0.0 && delay == root2 / (2.0 * k)
    requires var f := Scaled(n, p, q); f.Stable() && Smooths(f)
    ensures var f := Scaled(n, p, q);
            && f.b0 + f.b1 + f.b2 != 0.0 && 1.0 + f.a1 + f.a2 != 0.0
            && DelaySamples(f.b0, f.b1, f.b2, f.a1, f.a2) == delay
  {
    var f := Scaled(n, p, q);
    var gain := f.b0 + f.b1 + f.b2;
    Distribute(n, p, q);
    TwiceDelay(k, root2, p, q, delay);
    DelayTimesGain(n, p, q, delay, gain);
    assert f.a1 + 2.0 * f.a2 == gain - delay * gain;
    Quotient(f.b1 + 2.0 * f.b2, gain, 1.0);
    Quotient(f.a1 + 2.0 * f.a2, gain, 1.0 - delay);
  }

  lemma TwiceDelay(k: real, root2: real, p: real, q: real, delay: real)
    requires k > 0.0 && p == root2 * k && q == k * k && delay == root2 / (2.0 * k)
    ensures 2.0 * (delay * q) == p
  {
    assert delay * (2.0 * k) == root2;
    assert 2.0 * (delay * q) == (delay * (2.0 * k)) * k;
  }

  lemma DelayTimesGain(n: real, p: real, q: real, delay: real, gain: real)
    requires 2.0 * (delay * q) == p && gain == 4.0 * (q * n)
    ensures delay * gain == 2.0 * (p * n)
  {
    assert delay * gain == 2.0 * (2.0 * (delay * q)) * n;
  }

  lemma Quotient(a: real, b: real, c: real)
    requires b != 0.0 && a == c * b
    ensures a / b == c
  {
  }

  /** The power of x0 + x1/z + x2/z^2 on the unit circle, where z has cosine `c`. */
  function Power(x0: real, x1: real, x2: real, c: real): real {
    x0 * x0 + x1 * x1 + x2 * x2 + 2.0 * c * (x0 * x1 + x1 * x2) + 2.0 * (2.0 * c * c - 1.0) * (x0 * x2)
  }

  lemma PowerScales(n: real, x0: real, x1: real, x2: real, c: real, y0: real, y1: real, y2: real, power: real)
    requires y0 == x0 * n && y1 == x1 * n && y2 == x2 * n && power == Power(x0, x1, x2, c)
    ensures Power(y0, y1, y2, c) == (n * n) * power
  {
    var a, b, d := x0 * x0 + x1 * x1 + x2 * x2, x0 * x1 + x1 * x2, x0 * x2;
    var k := n * n;
    Squares(n, x0, x0, y0, y0, k);
    Squares(n, x1, x1, y1, y1, k);
    Squares(n, x2, x2, y2, y2, k);
    Squares(n, x0, x1, y0, y1, k);
    Squares(n, x1, x2, y1, y2, k);
    Squares(n, x0, x2, y0, y2, k);
    Distributed(k, a, b, d, 2.0 * c, 2.0 * (2.0 * c * c - 1.0));
  }

  lemma Squares(n: real, a: real, b: real, x: real, y: real, k: real)
    requires x == a * n && y == b * n && k == n * n
    ensures x * y == k * (a * b)
  {
  }

  lemma Distributed(k: real, a: real, b: real, d: real, u: real, v: real)
    ensures k * a + u * (k * b) + v * (k * d) == k * (a + u * b + v * d)
  {
  }

  lemma ZerosAtTheTop(q: real, m: real, c: real)
    requires m == 2.0 * q
    ensures Power(q, m, q, c) == 4.0 * ((q * q) * ((1.0 + c) * (1.0 + c)))
  {
    var qq := q * q;
    assert q * m + m * q == 4.0 * qq && m * m == 4.0 * qq;
  }

  lemma PolesOfTheDesign(p: real, q: real, c: real, x0: real, x1: real, x2: real)
    requires p * p == 2.0 * q && x0 == 1.0 + p + q && x1 == 2.0 * (q - 1.0) && x2 == 1.0 - p + q
    ensures Power(x0, x1, x2, c) == 4.0 * ((1.0 - c) * (1.0 - c) + (q * q) * ((1.0 + c) * (1.0 + c)))
  {
    var qq := q * q;
    assert x0 * x0 + x2 * x2 == 2.0 + 8.0 * q + 2.0 * qq;
    assert x1 * x1 == 4.0 * qq - 8.0 * q + 4.0;
    assert x0 * x2 == 1.0 + qq;
    assert x0 * x1 + x1 * x2 == x1 * (x0 + x2) == 4.0 * (qq - 1.0);
  }

  /**
   * The response is Butterworth's: at every frequency, with cosine `c` on the unit circle, the power gain is
   * q^2 (1 + c)^2 / ((1 - c)^2 + q^2 (1 + c)^2) with q the square of the prewarped cutoff: one at rest, one half
   * at the cutoff, nothing at the highest frequency.
   */
  lemma ResponseIsButterworth(k: real, root2: real, c: real)
    requires k > 0.0 && root2 > 0.0 && root2 * root2 == 2.0
    ensures var f, q := Coefficients(k, root2), k * k;
            var low, high := (q * q) * ((1.0 + c) * (1.0 + c)), (1.0 - c) * (1.0 - c);
            Power(f.b0, f.b1, f.b2, c) * (high + low) == Power(1.0, f.a1, f.a2, c) * low
  {
    var f, p, q := Coefficients(k, root2), root2 * k, k * k;
    var n, low, high := 1.0 / (1.0 + p + q), (q * q) * ((1.0 + c) * (1.0 + c)), (1.0 - c) * (1.0 - c);
    var m, x0, x1, x2 := 2.0 * q, 1.0 + p + q, 2.0 * (q - 1.0), 1.0 - p + q;
    hide Power, Coefficients;
    PositiveDenominator(k, root2, p, q);
    SquareOfRoot(root2, k, p, q);
    ScaledCoefficients(k, root2, n, p, q, m, x0, x1, x2);
    PowerOfZeros(n, q, m, c, f.b0, f.b1, f.b2, low);
    PowerOfPoles(n, p, q, c, x0, x1, x2, f.a1, f.a2, low, high);
    CrossMultiply(n * n, low, high, Power(f.b0, f.b1, f.b2, c), Power(1.0, f.a1, f.a2, c));
  }

  lemma PositiveDenominator(k: real, root2: real, p: real, q: real)
    requires k > 0.0 && root2 > 0.0 && p == root2 * k && q == k * k
    ensures 1.0 + p + q > 0.0
  {
    Positive(root2, k, p);
    Positive(k, k, q);
  }

  lemma PowerOfZeros(n: real, q: real, m: real, c: real, b0: real, b1: real, b2: real, low: real)
    requires m == 2.0 * q && b0 == q * n && b1 == m * n && b2 == q * n
    requires low == (q * q) * ((1.0 + c) * (1.0 + c))
    ensures Power(b0, b1, b2, c) == (n * n) * (4.0 * low)
  {
    hide Power;
    ZerosAtTheTop(q, m, c);
    PowerScales(n, q, m, q, c, b0, b1, b2, 4.0 * low);
  }

  lemma PowerOfPoles(n: real, p: real, q: real, c: real, x0: real, x1: real, x2: real, a1: real, a2: real,
                     low: real, high: real)
    requires p * p == 2.0 * q && x0 == 1.0 + p + q && x1 == 2.0 * (q - 1.0) && x2 == 1.0 - p + q
    requires 1.0 == x0 * n && a1 == x1 * n && a2 == x2 * n
    requires low == (q * q) * ((1.0 + c) * (1.0 + c)) && high == (1.0 - c) * (1.0 - c)
    ensures Power(1.0, a1, a2, c) == (n * n) * (4.0 * (high + low))
  {
    hide Power;
    PolesOfTheDesign(p, q, c, x0, x1, x2);
    PowerScales(n, x0, x1, x2, c, 1.0, a1, a2, 4.0 * (high + low));
  }

  lemma SquareOfRoot(root2: real, k: real, p: real, q: real)
    requires root2 * root2 == 2.0 && p == root2 * k && q == k * k
    ensures p * p == 2.0 * q
  {
    assert p * p == (root2 * root2) * (k * k);
  }

  lemma ScaledCoefficients(k: real, root2: real, n: real, p: real, q: real, m: real, x0: real, x1: real, x2: real)
    requires k > 0.0 && root2 > 0.0 && p == root2 * k && q == k * k && 1.0 + p + q > 0.0 && n == 1.0 / (1.0 + p + q)
    requires m == 2.0 * q && x0 == 1.0 + p + q && x1 == 2.0 * (q - 1.0) && x2 == 1.0 - p + q
    ensures var f := Coefficients(k, root2);
            && f.b0 == q * n && f.b1 == m * n && f.b2 == q * n
            && 1.0 == x0 * n && f.a1 == x1 * n && f.a2 == x2 * n
  {
    Reciprocal(x0, n);
  }

  lemma CrossMultiply(nn: real, low: real, high: real, up: real, down: real)
    requires up == nn * (4.0 * low) && down == nn * (4.0 * (high + low))
    ensures up * (high + low) == down * low
  {
    assert up * (high + low) == (nn * (4.0 * low)) * (high + low);
    assert down * low == (nn * (4.0 * (high + low))) * low;
  }

  // ---- the filter in motion

  datatype FilterState = FilterState(s1: Vec3, s2: Vec3, lastT: Time)

  const AT_REST := FilterState(Vec3(0.0, 0.0, 0.0), Vec3(0.0, 0.0, 0.0), 0)

  const MAX_GAP: Time := 50_000_000

  /** The first sample, or a gap in the stream. */
  predicate Restarts(st: FilterState, t: Time) {
    st.lastT == 0 || t < st.lastT || t - st.lastT > MAX_GAP
  }

  function Step(f: LowPass, st: FilterState, t: Time, x: Vec3): (FilterState, Vec3) {
    if !f.on then (st, x)
    else
      var (s1, s2) := if Restarts(st, t) then (Times(1.0 - f.b0, x), Times(f.b2 - f.a2, x)) else (st.s1, st.s2);
      var y := Plus(Times(f.b0, x), s1);
      (FilterState(Plus(Minus(Times(f.b1, x), Times(f.a1, y)), s2), Minus(Times(f.b2, x), Times(f.a2, y)), t), y)
  }

  class ImuLowPassState {
    var s1: Vec3
    var s2: Vec3
    var lastT: Time

    ghost function View(): FilterState
      reads this
    {
      FilterState(s1, s2, lastT)
    }

    constructor ()
      ensures View() == AT_REST
    {
      s1, s2, lastT := Vec3(0.0, 0.0, 0.0), Vec3(0.0, 0.0, 0.0), 0;
    }

    method Filter(f: LowPass, t: Time, x: Vec3) returns (y: Vec3)
      modifies this
      ensures (View(), y) == old(Step(f, View(), t, x))
    {
      if !f.on {
        return x;
      }
      if lastT == 0 || t < lastT || t - lastT > MAX_GAP {
        s1 := Times(1.0 - f.b0, x);
        s2 := Times(f.b2 - f.a2, x);
      }
      lastT := t;
      y := Plus(Times(f.b0, x), s1);
      s1 := Plus(Minus(Times(f.b1, x), Times(f.a1, y)), s2);
      s2 := Minus(Times(f.b2, x), Times(f.a2, y));
    }
  }

  datatype Sample = Sample(t: Time, v: Vec3)

  /** The state and outputs after a stream of samples. */
  function Run(f: LowPass, st: FilterState, xs: seq<Sample>): (r: (FilterState, seq<Vec3>))
    ensures |r.1| == |xs|
  {
    if xs == [] then (st, [])
    else
      var (before, ys) := Run(f, st, xs[..|xs| - 1]);
      var (after, y) := Step(f, before, xs[|xs| - 1].t, xs[|xs| - 1].v);
      (after, ys + [y])
  }

  /** A filter that is switched off hands every sample through and leaves its state alone. */
  lemma {:induction false} OffHandsThrough(f: LowPass, st: FilterState, xs: seq<Sample>)
    requires !f.on
    ensures Run(f, st, xs).0 == st
    ensures forall i :: 0 <= i < |xs| ==> Run(f, st, xs).1[i] == xs[i].v
  {
    if xs == [] {
    } else {
      OffHandsThrough(f, st, xs[..|xs| - 1]);
    }
  }

  /** One uninterrupted stretch: it restarts the filter once, at its first sample. */
  predicate Stretch(st: FilterState, xs: seq<Sample>) {
    && xs != [] && (st.lastT == 0 || xs[0].t < st.lastT || xs[0].t - st.lastT > MAX_GAP)
    && (forall i :: 0 <= i < |xs| ==> xs[i].t != 0)
    && (forall i :: 0 < i < |xs| ==> 0 <= xs[i].t - xs[i - 1].t <= MAX_GAP)
  }

  /** Input `k` of the stretch; before its start the restart sample is taken to have lasted forever. */
  function Input(xs: seq<Sample>, k: int): Vec3
    requires xs != [] && k < |xs|
  {
    if k < 0 then xs[0].v else xs[k].v
  }

  function Output(xs: seq<Sample>, ys: seq<Vec3>, k: int): Vec3
    requires xs != [] && k < |ys|
  {
    if k < 0 then xs[0].v else ys[k]
  }

  /** The difference equation the design stands for. */
  function Recurrence(f: LowPass, xs: seq<Sample>, ys: seq<Vec3>, k: nat): Vec3
    requires k < |xs| && k <= |ys|
  {
    Plus(Times(f.b0, xs[k].v),
         Plus(Minus(Times(f.b1, Input(xs, k - 1)), Times(f.a1, Output(xs, ys, k - 1))),
              Minus(Times(f.b2, Input(xs, k - 2)), Times(f.a2, Output(xs, ys, k - 2)))))
  }

  /** The two state vectors carry exactly what the difference equation still needs. */
  ghost predicate Carries(f: LowPass, xs: seq<Sample>, r: (FilterState, seq<Vec3>))
    requires xs != [] && |r.1| == |xs|
  {
    var n := |xs|;
    && r.0.lastT == xs[n - 1].t
    && r.0.s2 == Minus(Times(f.b2, Input(xs, n - 1)), Times(f.a2, Output(xs, r.1, n - 1)))
    && r.0.s1 == Plus(Minus(Times(f.b1, Input(xs, n - 1)), Times(f.a1, Output(xs, r.1, n - 1))),
                      Minus(Times(f.b2, Input(xs, n - 2)), Times(f.a2, Output(xs, r.1, n - 2))))
  }

  /** Restarting as if the sample had lasted forever needs unit gain, and only that. */
  lemma RestartIsSteady(f: LowPass, x: Vec3)
    requires f.b0 + f.b1 + f.b2 == 1.0 + f.a1 + f.a2
    ensures Plus(Times(f.b0, x), Times(1.0 - f.b0, x)) == x
    ensures Times(1.0 - f.b0, x) == Plus(Minus(Times(f.b1, x), Times(f.a1, x)), Minus(Times(f.b2, x), Times(f.a2, x)))
    ensures Times(f.b2 - f.a2, x) == Minus(Times(f.b2, x), Times(f.a2, x))
  {
    hide Plus, Minus, Times;
    FirstOutput(f.b0, x);
    FirstState(f, x);
    SecondState(f, x);
  }

  lemma FirstOutput(b: real, x: Vec3)
    ensures Plus(Times(b, x), Times(1.0 - b, x)) == x
  {
  }

  lemma FirstState(f: LowPass, x: Vec3)
    requires f.b0 + f.b1 + f.b2 == 1.0 + f.a1 + f.a2
    ensures Times(1.0 - f.b0, x) == Plus(Minus(Times(f.b1, x), Times(f.a1, x)), Minus(Times(f.b2, x), Times(f.a2, x)))
  {
    LaneIsSteady(f, x.x);
    LaneIsSteady(f, x.y);
    LaneIsSteady(f, x.z);
  }

  lemma SecondState(f: LowPass, x: Vec3)
    ensures Times(f.b2 - f.a2, x) == Minus(Times(f.b2, x), Times(f.a2, x))
  {
  }

  lemma LaneIsSteady(f: LowPass, x: real)
    requires f.b0 + f.b1 + f.b2 == 1.0 + f.a1 + f.a2
    ensures (1.0 - f.b0) * x == (f.b1 * x - f.a1 * x) + (f.b2 * x - f.a2 * x)
  {
    assert (1.0 - f.b0) * x == (f.b1 - f.a1 + f.b2 - f.a2) * x;
  }

  /**
   * The transposed form equals its difference equation over a whole stretch, with the history before
   * the stretch padded by the sample that restarted it.
   */
  lemma {:induction false} TransposedFormIsTheRecurrence(f: LowPass, st: FilterState, xs: seq<Sample>)
    requires f.on && f.Stable() && Stretch(st, xs)
    ensures var r := Run(f, st, xs);
            && Carries(f, xs, r)
            && forall k: nat :: k < |xs| ==> r.1[k] == Recurrence(f, xs, r.1, k)
  {
    var n := |xs| - 1;
    if n == 0 {
      StretchBegins(f, st, xs);
    } else {
      var rest := xs[..n];
      TransposedFormIsTheRecurrence(f, st, rest);
      hide Recurrence, Carries, Run;
      StretchGoesOn(f, st, xs);
      forall k: nat | k < n
        ensures Recurrence(f, xs, Run(f, st, xs).1, k) == Recurrence(f, rest, Run(f, st, rest).1, k)
      {
        RecurrenceOfPrefix(f, xs, Run(f, st, xs).1, n, k);
      }
    }
  }

  lemma StretchBegins(f: LowPass, st: FilterState, xs: seq<Sample>)
    requires f.on && f.Stable() && Stretch(st, xs) && |xs| == 1
    ensures Carries(f, xs, Run(f, st, xs)) && Run(f, st, xs).1[0] == Recurrence(f, xs, Run(f, st, xs).1, 0)
  {
    hide Plus, Minus, Times;
    assert Run(f, st, xs[..0]) == (st, []);
    RestartIsSteady(f, xs[0].v);
  }

  /** One more sample of the stretch: the state carries what its output needs, and then what the next one needs. */
  lemma StretchGoesOn(f: LowPass, st: FilterState, xs: seq<Sample>)
    requires f.on && f.Stable() && Stretch(st, xs) && |xs| > 1
    requires Carries(f, xs[..|xs| - 1], Run(f, st, xs[..|xs| - 1]))
    ensures var n := |xs| - 1; var before, r := Run(f, st, xs[..n]), Run(f, st, xs);
            r.1[..n] == before.1 && Carries(f, xs, r) && r.1[n] == Recurrence(f, xs, r.1, n)
  {
    hide Plus, Minus, Times;
    var n := |xs| - 1;
    var before := Run(f, st, xs[..n]);
    assert !Restarts(before.0, xs[n].t);
    assert Run(f, st, xs).1 == before.1 + [Step(f, before.0, xs[n].t, xs[n].v).1];
  }

  lemma RecurrenceOfPrefix(f: LowPass, xs: seq<Sample>, ys: seq<Vec3>, n: nat, k: nat)
    requires k < n <= |xs| == |ys|
    ensures Recurrence(f, xs, ys, k) == Recurrence(f, xs[..n], ys[..n], k)
  {
    hide Plus, Minus, Times;
  }

  /** A constant input passes unchanged from the very first sample. */
  lemma {:induction false} ConstantPassesUnchanged(f: LowPass, st: FilterState, xs: seq<Sample>, c: Vec3)
    requires f.on && f.Stable() && Stretch(st, xs)
    requires forall i :: 0 <= i < |xs| ==> xs[i].v == c
    ensures forall i :: 0 <= i < |xs| ==> Run(f, st, xs).1[i] == c
  {
    TransposedFormIsTheRecurrence(f, st, xs);
    RestartIsSteady(f, c);
    SteadyOutputs(f, xs, Run(f, st, xs).1, |xs|, c);
  }

  lemma {:induction false} SteadyOutputs(f: LowPass, xs: seq<Sample>, ys: seq<Vec3>, n: nat, c: Vec3)
    requires f.Stable() && xs != [] && n <= |xs| == |ys|
    requires forall i :: 0 <= i < |xs| ==> xs[i].v == c
    requires forall k: nat :: k < |xs| ==> ys[k] == Recurrence(f, xs, ys, k)
    ensures forall i :: 0 <= i < n ==> ys[i] == c
  {
    hide Plus, Minus, Times;
    if n == 0 {
    } else {
      SteadyOutputs(f, xs, ys, n - 1, c);
      RestartIsSteady(f, c);
      assert ys[n - 1] == Recurrence(f, xs, ys, n - 1);
    }
  }

  // ---- settling, one lane

  /**
   * The energy of a deviation `u` now and `v` one sample ago, where a1 = p (1 + a2): the quadratic form
   * u u + 2 a1 a2 / (1 + a2) u v + a2 a2 v v.
   */
  function Energy(p: real, a2: real, u: real, v: real): real {
    u * u + 2.0 * (p * a2) * (u * v) + (a2 * a2) * (v * v)
  }

  /** The undriven filter's next deviation. */
  function Undriven(p: real, a2: real, u: real, v: real): real {
    -(p * (1.0 + a2)) * u - a2 * v
  }

  lemma EnergyBalance(p: real, a2: real, u: real, v: real)
    ensures Energy(p, a2, u, v) - Energy(p, a2, Undriven(p, a2, u, v), u)
            == Loss(p, a2, u)
  {
  }

  lemma NonNegative(a: real, b: real)
    requires a >= 0.0 && b >= 0.0
    ensures a * b >= 0.0
  {
  }

  function Squared(a: real): real {
    a * a
  }

  lemma SquareIsPositive(a: real)
    ensures Squared(a) >= 0.0
    ensures a != 0.0 ==> Squared(a) > 0.0
  {
    if a < 0.0 {
      Positive(-a, -a, Squared(a));
    } else if a > 0.0 {
      Positive(a, a, Squared(a));
    }
  }

  lemma Margin(p: real)
    requires -1.0 < p < 1.0
    ensures 1.0 - Squared(p) > 0.0
  {
    Positive(1.0 - p, 1.0 + p, 1.0 - Squared(p));
  }

  lemma Product(m: real, n: real, s: real, r: real)
    requires m > 0.0 && n > 0.0 && s >= 0.0 && r == m * (n * s)
    ensures r >= 0.0
    ensures s > 0.0 ==> r > 0.0
  {
    if s > 0.0 {
      Positive(n, s, n * s);
      Positive(m, n * s, r);
    }
  }

  /** What one step of the undriven filter loses. */
  function Loss(p: real, a2: real, u: real): real {
    ((1.0 - a2) * (1.0 + a2)) * ((1.0 - Squared(p)) * Squared(u))
  }

  lemma LossIsPositive(p: real, a2: real, u: real)
    requires 0.0 < a2 < 1.0 && -1.0 < p < 1.0
    ensures Loss(p, a2, u) >= 0.0
    ensures u != 0.0 ==> Loss(p, a2, u) > 0.0
  {
    hide Squared;
    SquareIsPositive(u);
    Margin(p);
    Positive(1.0 - a2, 1.0 + a2, (1.0 - a2) * (1.0 + a2));
    Product((1.0 - a2) * (1.0 + a2), 1.0 - Squared(p), Squared(u), Loss(p, a2, u));
  }

  /** A step of the undriven filter never gains energy, and loses some unless the deviation is zero. */
  lemma EnergyNeverGrows(p: real, a2: real, u: real, v: real)
    requires 0.0 < a2 < 1.0 && -1.0 < p < 1.0
    ensures Energy(p, a2, Undriven(p, a2, u, v), u) <= Energy(p, a2, u, v)
    ensures u != 0.0 ==> Energy(p, a2, Undriven(p, a2, u, v), u) < Energy(p, a2, u, v)
  {
    hide Energy, Undriven, Loss;
    EnergyBalance(p, a2, u, v);
    LossIsPositive(p, a2, u);
    Decrease(Energy(p, a2, u, v), Energy(p, a2, Undriven(p, a2, u, v), u), Loss(p, a2, u));
  }

  lemma Decrease(now: real, next: real, loss: real)
    requires now - next == loss && loss >= 0.0
    ensures next <= now && (loss > 0.0 ==> next < now)
  {
  }

  /** The energy bounds the deviation itself. */
  lemma EnergyBoundsDeviation(p: real, a2: real, u: real, v: real)
    requires -1.0 < p < 1.0
    ensures 0.0 < 1.0 - Squared(p) && (1.0 - Squared(p)) * Squared(u) <= Energy(p, a2, u, v)
  {
    Margin(p);
    SquareIsPositive(p * u + a2 * v);
    assert Squared(p * u + a2 * v)
           == Squared(p) * Squared(u) + 2.0 * (p * a2) * (u * v) + (a2 * a2) * (v * v);
  }

  /** The p of a filter. */
  function Ratio(f: LowPass): real
    requires f.Stable()
  {
    f.a1 / (1.0 + f.a2)
  }

  lemma RatioBounds(f: LowPass)
    requires f.Stable()
    ensures -1.0 < Ratio(f) < 1.0 && f.a1 == Ratio(f) * (1.0 + f.a2)
  {
    QuotientBounds(f.a1, 1.0 + f.a2, Ratio(f));
  }

  lemma QuotientBounds(a: real, d: real, p: real)
    requires d > 0.0 && -d < a < d && p == a / d
    ensures -1.0 < p < 1.0 && a == p * d
  {
    assert a == p * d;
    if p >= 1.0 {
      NonNegative(p - 1.0, d);
    }
    if p <= -1.0 {
      NonNegative(-1.0 - p, d);
    }
  }

  /** A sequence that obeys the undriven equation never gains energy. */
  lemma {:induction false} UndrivenEnergy(p: real, a2: real, e: seq<real>, k: nat)
    requires 0.0 < a2 < 1.0 && -1.0 < p < 1.0 && 1 <= k < |e|
    requires forall i :: 2 <= i < |e| ==> e[i] == Undriven(p, a2, e[i - 1], e[i - 2])
    ensures Energy(p, a2, e[k], e[k - 1]) <= Energy(p, a2, e[1], e[0])
  {
    if k == 1 {
    } else {
      UndrivenEnergy(p, a2, e, k - 1);
      EnergyNeverGrows(p, a2, e[k - 1], e[k - 2]);
    }
  }

  datatype Axis = X | Y | Z

  function Lane(v: Vec3, axis: Axis): real {
    match axis
    case X => v.x
    case Y => v.y
    case Z => v.z
  }

  /** How far each output from `m` on is from the input `c` it should settle on. */
  function Deviations(ys: seq<Vec3>, c: Vec3, axis: Axis, m: nat): seq<real>
    requires m <= |ys|
  {
    seq(|ys| - m, i requires 0 <= i < |ys| - m => Lane(ys[m + i], axis) - Lane(c, axis))
  }

  /** One lane of the difference equation with all inputs equal to `l`. */
  lemma LaneIsUndriven(f: LowPass, p: real, l: real, y1: real, y2: real)
    requires f.b0 + f.b1 + f.b2 == 1.0 + f.a1 + f.a2 && f.a1 == p * (1.0 + f.a2)
    ensures f.b0 * l + ((f.b1 * l - f.a1 * y1) + (f.b2 * l - f.a2 * y2)) - l == Undriven(p, f.a2, y1 - l, y2 - l)
  {
    assert (f.b0 + f.b1 + f.b2) * l == (1.0 + f.a1 + f.a2) * l;
  }

  lemma LaneOfRecurrence(f: LowPass, c: Vec3, y1: Vec3, y2: Vec3, axis: Axis)
    ensures var l := Lane(c, axis);
            Lane(Plus(Times(f.b0, c), Plus(Minus(Times(f.b1, c), Times(f.a1, y1)), Minus(Times(f.b2, c), Times(f.a2, y2)))), axis)
            == f.b0 * l + ((f.b1 * l - f.a1 * Lane(y1, axis)) + (f.b2 * l - f.a2 * Lane(y2, axis)))
  {
    var one, other := Minus(Times(f.b1, c), Times(f.a1, y1)), Minus(Times(f.b2, c), Times(f.a2, y2));
    LaneOfPlus(Times(f.b0, c), Plus(one, other), axis);
    LaneOfPlus(one, other, axis);
    LaneOfMinus(Times(f.b1, c), Times(f.a1, y1), axis);
    LaneOfMinus(Times(f.b2, c), Times(f.a2, y2), axis);
    LaneOfTimes(f.b0, c, axis);
    LaneOfTimes(f.b1, c, axis);
    LaneOfTimes(f.b2, c, axis);
    LaneOfTimes(f.a1, y1, axis);
    LaneOfTimes(f.a2, y2, axis);
    hide Plus, Minus, Times, Lane;
  }

  lemma LaneOfPlus(a: Vec3, b: Vec3, axis: Axis)
    ensures Lane(Plus(a, b), axis) == Lane(a, axis) + Lane(b, axis)
  {
  }

  lemma LaneOfMinus(a: Vec3, b: Vec3, axis: Axis)
    ensures Lane(Minus(a, b), axis) == Lane(a, axis) - Lane(b, axis)
  {
  }

  lemma LaneOfTimes(k: real, a: Vec3, axis: Axis)
    ensures Lane(Times(k, a), axis) == k * Lane(a, axis)
  {
  }

  /** Under a constant input the deviation obeys the undriven difference equation. */
  lemma DeviationIsUndriven(f: LowPass, p: real, xs: seq<Sample>, ys: seq<Vec3>, c: Vec3, axis: Axis, k: nat)
    requires f.b0 + f.b1 + f.b2 == 1.0 + f.a1 + f.a2 && f.a1 == p * (1.0 + f.a2) && 2 <= k < |xs| == |ys|
    requires xs[k].v == c && xs[k - 1].v == c && xs[k - 2].v == c && ys[k] == Recurrence(f, xs, ys, k)
    ensures Lane(ys[k], axis) - Lane(c, axis)
            == Undriven(p, f.a2, Lane(ys[k - 1], axis) - Lane(c, axis), Lane(ys[k - 2], axis) - Lane(c, axis))
  {
    LaneOfRecurrence(f, c, ys[k - 1], ys[k - 2], axis);
    LaneIsUndriven(f, p, Lane(c, axis), Lane(ys[k - 1], axis), Lane(ys[k - 2], axis));
  }

  lemma DeviationsAreUndriven(f: LowPass, p: real, xs: seq<Sample>, ys: seq<Vec3>, c: Vec3, axis: Axis, m: nat)
    requires f.b0 + f.b1 + f.b2 == 1.0 + f.a1 + f.a2 && f.a1 == p * (1.0 + f.a2) && m <= |xs| == |ys|
    requires forall i :: m <= i < |xs| ==> xs[i].v == c
    requires forall k: nat :: k < |xs| ==> ys[k] == Recurrence(f, xs, ys, k)
    ensures var e := Deviations(ys, c, axis, m);
            forall i :: 2 <= i < |e| ==> e[i] == Undriven(p, f.a2, e[i - 1], e[i - 2])
  {
    var e := Deviations(ys, c, axis, m);
    forall i | 2 <= i < |e|
      ensures e[i] == Undriven(p, f.a2, e[i - 1], e[i - 2])
    {
      DeviationIsUndriven(f, p, xs, ys, c, axis, m + i);
    }
  }

  /**
   * Settling: once the input stays at `c` (from index `m` on), the output never again strays further
   * from it than the energy of the first two deviations allows, however long the stretch.
   */
  lemma OutputStaysBounded(f: LowPass, st: FilterState, xs: seq<Sample>, c: Vec3, axis: Axis, m: nat, k: nat)
    requires f.on && f.Stable() && Stretch(st, xs) && m + 1 <= k < |xs|
    requires forall i :: m <= i < |xs| ==> xs[i].v == c
    ensures var e, p := Deviations(Run(f, st, xs).1, c, axis, m), Ratio(f);
            0.0 < 1.0 - Squared(p) && (1.0 - Squared(p)) * Squared(e[k - m]) <= Energy(p, f.a2, e[1], e[0])
  {
    hide Run, Energy, Ratio, Recurrence, Deviations, Carries, Squared;
    TransposedFormIsTheRecurrence(f, st, xs);
    RatioBounds(f);
    Settles(f, Ratio(f), xs, Run(f, st, xs).1, c, axis, m, k);
  }

  lemma Settles(f: LowPass, p: real, xs: seq<Sample>, ys: seq<Vec3>, c: Vec3, axis: Axis, m: nat, k: nat)
    requires f.b0 + f.b1 + f.b2 == 1.0 + f.a1 + f.a2 && f.a1 == p * (1.0 + f.a2)
    requires 0.0 < f.a2 < 1.0 && -1.0 < p < 1.0 && m + 1 <= k < |xs| == |ys|
    requires forall i :: m <= i < |xs| ==> xs[i].v == c
    requires forall k: nat :: k < |xs| ==> ys[k] == Recurrence(f, xs, ys, k)
    ensures var e := Deviations(ys, c, axis, m);
            0.0 < 1.0 - Squared(p) && (1.0 - Squared(p)) * Squared(e[k - m]) <= Energy(p, f.a2, e[1], e[0])
  {
    hide Energy, Undriven, Recurrence, Squared;
    DeviationsAreUndriven(f, p, xs, ys, c, axis, m);
    EnergyFromTheStart(p, f.a2, Deviations(ys, c, axis, m), k - m);
  }

  lemma EnergyFromTheStart(p: real, a2: real, e: seq<real>, k: nat)
    requires 0.0 < a2 < 1.0 && -1.0 < p < 1.0 && 1 <= k < |e|
    requires forall i :: 2 <= i < |e| ==> e[i] == Undriven(p, a2, e[i - 1], e[i - 2])
    ensures 0.0 < 1.0 - Squared(p) && (1.0 - Squared(p)) * Squared(e[k]) <= Energy(p, a2, e[1], e[0])
  {
    hide Energy, Undriven, Squared;
    UndrivenEnergy(p, a2, e, k);
    EnergyBoundsDeviation(p, a2, e[k], e[k - 1]);
  }
}
