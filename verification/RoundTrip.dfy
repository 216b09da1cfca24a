/** The filter that smooths measured round trip times, over real numbers. */
module RoundTrip {

  const Q: real := 0.000001  // process noise
  const R: real := 0.1       // measurement noise

  datatype Filter = Filter(variance: real, mean: real)

  function Gain(variance: real): (k: real)
    requires variance > 0.0
    ensures 0.0 < k < 1.0
    ensures k * (variance + Q + R) == variance + Q
  {
    var s := variance + Q;
    GainIsFraction(s);
    s / (s + R)
  }

  lemma GainIsFraction(s: real)
    requires s > 0.0
    ensures var k := s / (s + R); 0.0 < k < 1.0 && k * (s + R) == s
  {
    var k := s / (s + R);
    assert k * (s + R) == s;
    assert k > 0.0;
    assert (1.0 - k) * (s + R) == R;
    assert 1.0 - k > 0.0;
  }

  function Initial(): Filter {
    Filter(1.0, 1.0)
  }

  function Measured(f: Filter, m: real): (g: Filter)
    requires f.variance > 0.0
    ensures g.variance > 0.0
  {
    var k := Gain(f.variance);
    assert R * k > 0.0;
    Filter(R * k, f.mean + (m - f.mean) * k)
  }

  /** The filter after a sequence of measurements. */
  function After(f: Filter, ms: seq<real>): (g: Filter)
    requires f.variance > 0.0
    ensures g.variance > 0.0
  {
    if ms == [] then f else Measured(After(f, ms[..|ms| - 1]), ms[|ms| - 1])
  }

  class RoundTripKF {
    var variance: real
    var mean: real

    ghost predicate Valid() reads this {
      variance > 0.0
    }

    ghost function State(): Filter reads this {
      Filter(variance, mean)
    }

    constructor ()
      ensures Valid() && State() == Initial()
    {
      variance, mean := 1.0, 1.0;
    }

    method Measure(m: real) returns (roundTripTime: real)
      requires Valid()
      modifies this
      ensures Valid() && State() == Measured(old(State()), m)
      ensures roundTripTime == mean
    {
      var k := (variance + Q) / (variance + Q + R);
      assert k == Gain(variance) && R * k > 0.0;
      QuotientOfProduct(variance + Q);
      variance := R * (variance + Q) / (R + variance + Q);
      mean := mean + (m - mean) * k;
      roundTripTime := mean;
    }
  }

  lemma QuotientOfProduct(s: real)
    requires s > 0.0
    ensures R * s / (R + s) == R * (s / (s + R))
  {
  }

  // ----- One measurement -----

  /**
   * The precisions of the prediction and of the measurement add up, and the new estimate is the mean of the old one
   * and the measurement weighted by them.
   */
  lemma {:induction false} PrecisionsAdd(f: Filter, m: real)
    requires f.variance > 0.0
    ensures var g, s := Measured(f, m), f.variance + Q;
            g.variance * (s + R) == R * s && g.mean * (s + R) == R * f.mean + s * m
  {
    var s, k := f.variance + Q, Gain(f.variance);
    assert R * k * (s + R) == R * s;
    assert (f.mean + (m - f.mean) * k) * (s + R) == f.mean * (s + R) + (m - f.mean) * (k * (s + R));
  }

  /** The variance of an estimate that gives the measurement the weight `w` and the prediction the rest. */
  function Blended(variance: real, w: real): real {
    (1.0 - w) * (1.0 - w) * (variance + Q) + w * w * R
  }

  /** No weight gives a lower variance than the filter has, and only its own weight gives as low a one. */
  lemma {:induction false} UpdateIsOptimal(f: Filter, m: real, w: real)
    requires f.variance > 0.0
    ensures Measured(f, m).variance <= Blended(f.variance, w)
    ensures Measured(f, m).variance == Blended(f.variance, w) ==>
              Measured(f, m).mean == f.mean + (m - f.mean) * w
  {
    var s, k := f.variance + Q, Gain(f.variance);
    BlendedIsSquare(s, k, w);
    ScaledSquare(s + R, w - k);
  }

  lemma {:induction false} BlendedIsSquare(s: real, k: real, w: real)
    requires k * (s + R) == s
    ensures (1.0 - w) * (1.0 - w) * s + w * w * R == R * k + (s + R) * ((w - k) * (w - k))
  {
    assert (s + R) * ((w - k) * (w - k)) == w * w * (s + R) - 2.0 * w * (k * (s + R)) + k * (k * (s + R));
    assert (1.0 - w) * (1.0 - w) * s == s - 2.0 * w * s + w * w * s;
    assert k * s + k * R == s;
  }

  lemma {:induction false} ScaledSquare(b: real, x: real)
    requires b > 0.0
    ensures b * (x * x) >= 0.0 && (x != 0.0 ==> b * (x * x) > 0.0)
  {
    if x > 0.0 {
      ProductIsPositive(b, x);
      ProductIsPositive(b * x, x);
      assert b * (x * x) == b * x * x;
    } else if x < 0.0 {
      ProductIsPositive(b, -x);
      ProductIsPositive(b * -x, -x);
      assert b * (x * x) == b * -x * -x;
    }
  }

  /** The first measurement leaves a variance of about 0.0909 and moves the estimate by about 0.909 of the error. */
  lemma {:induction false} FirstMeasurement(m: real)
    ensures var g := Measured(Initial(), m);
            g.variance * 1.100001 == 0.1000001 && g.mean * 1.100001 == 0.1 + 1.000001 * m
  {
    PrecisionsAdd(Initial(), m);
  }

  // ----- The variance -----

  /** Zero at the variance that a measurement leaves unchanged, and positive above it. */
  function Excess(variance: real): real {
    variance * variance + Q * variance - R * Q
  }

  /** A measurement scales the excess by the square of one minus the gain. */
  lemma {:induction false} ExcessShrinks(f: Filter, m: real)
    requires f.variance > 0.0
    ensures var k := Gain(f.variance);
            Excess(Measured(f, m).variance) == (1.0 - k) * (1.0 - k) * Excess(f.variance)
  {
    ExcessOfUpdate(f.variance);
  }

  lemma {:induction false} ExcessOfUpdate(p: real)
    requires p > 0.0
    ensures Excess(R * Gain(p)) == (1.0 - Gain(p)) * (1.0 - Gain(p)) * Excess(p)
  {
    var k := Gain(p);
    var c := 1.0 - k;
    var s := p + Q;
    assert c * (s + R) == R;
    assert k * R == c * s;
    var v := R * k;
    assert v == c * s;
    calc {
      Excess(v);
    ==
      (c * s) * v + Q * v - R * Q;
    ==
      (c * s) * (c * s) + Q * (c * s) - R * Q;
    ==
      { assert R == c * s + c * R; }
      (c * s) * (c * s) + Q * (c * s) - (c * s + c * R) * Q;
    ==
      { MiddleCancels(c, s); }
      (c * s) * (c * s) - c * R * Q;
    ==
      { assert R == c * (s + R); FactorOut(c, s); }
      c * c * (s * s - Q * s - R * Q);
    ==
      { ExcessOfSum(p); }
      c * c * Excess(p);
    }
  }

  lemma MiddleCancels(c: real, s: real)
    ensures (c * s) * (c * s) + Q * (c * s) - (c * s + c * R) * Q == (c * s) * (c * s) - c * R * Q
  {
  }

  lemma FactorOut(c: real, s: real)
    requires R == c * (s + R)
    ensures (c * s) * (c * s) - c * R * Q == c * c * (s * s - Q * s - R * Q)
  {
    assert c * R * Q == c * (c * (s + R)) * Q;
    assert c * (c * (s + R)) * Q == c * c * (s * Q + R * Q);
  }

  lemma ExcessOfSum(p: real)
    ensures var s := p + Q; s * s - Q * s - R * Q == Excess(p)
  {
  }

  lemma {:induction false} ExcessStays(p: real)
    requires p > 0.0 && Excess(p) > 0.0
    ensures Excess(R * Gain(p)) > 0.0
  {
    ExcessOfUpdate(p);
    ScaledIsPositive(1.0 - Gain(p), Excess(p), Excess(R * Gain(p)));
  }

  lemma {:induction false} ScaledIsPositive(c: real, e: real, x: real)
    requires c > 0.0 && e > 0.0 && x == c * c * e
    ensures x > 0.0
  {
    ProductIsPositive(c, e);
    ProductIsPositive(c, c * e);
    assert x == c * (c * e);
  }

  /** The variance strictly decreases as long as its excess is positive, which it stays. */
  lemma {:induction false} VarianceDecreases(p: real)
    requires p > 0.0 && Excess(p) > 0.0
    ensures 0.0 < R * Gain(p) < p
    ensures Excess(R * Gain(p)) > 0.0
  {
    ExcessStays(p);
    ProductIsPositive(R, Gain(p));
    ExcessIsDrop(p, Gain(p));
    PositiveFactor(p - R * Gain(p), p + Q + R, Excess(p));
  }

  lemma ExcessIsDrop(p: real, k: real)
    requires k * (p + Q + R) == p + Q
    ensures (p - R * k) * (p + Q + R) == Excess(p)
  {
    assert (R * k) * (p + Q + R) == R * (p + Q);
  }

  lemma ProductIsPositive(a: real, b: real)
    requires a > 0.0 && b > 0.0
    ensures a * b > 0.0
  {
  }

  lemma {:induction false} PositiveFactor(a: real, b: real, product: real)
    requires b > 0.0 && product > 0.0 && product == a * b
    ensures a > 0.0
  {
    if a <= 0.0 {
      ProductIsNotPositive(a, b);
    }
  }

  lemma ProductIsNotPositive(a: real, b: real)
    requires a <= 0.0 && b > 0.0
    ensures a * b <= 0.0
  {
  }

  /** In any run from the initial state every measurement lowers the variance, and the gain stays above 0.003. */
  lemma {:induction false} VarianceInRuns(ms: seq<real>, m: real)
    ensures var f := After(Initial(), ms);
            && Excess(f.variance) > 0.0
            && 0.0003 < Measured(f, m).variance < f.variance <= 1.0
            && 0.003 < Gain(f.variance) < 1.0
  {
    var f := After(Initial(), ms);
    if ms != [] {
      VarianceInRuns(ms[..|ms| - 1], ms[|ms| - 1]);
      VarianceDecreases(After(Initial(), ms[..|ms| - 1]).variance);
    }
    VarianceDecreases(f.variance);
    VarianceIsBounded(f.variance);
    VarianceIsBounded(R * Gain(f.variance));
    GainIsBounded(f.variance);
  }

  /** The excess vanishes: every measurement takes at least five parts in a thousand of it. */
  lemma {:induction false} ExcessVanishes(ms: seq<real>)
    ensures 0.0 < Excess(After(Initial(), ms).variance) <= Shrunk(Excess(1.0), 2 * |ms|)
  {
    VarianceInRuns(ms, 0.0);
    if ms != [] {
      var rest, m := ms[..|ms| - 1], ms[|ms| - 1];
      ExcessVanishes(rest);
      VarianceInRuns(rest, m);
      ExcessLess(After(Initial(), rest), m, Excess(1.0), 2 * |rest|);
    }
  }

  lemma {:induction false} ExcessLess(f: Filter, m: real, d: real, n: nat)
    requires f.variance > 0.0 && Gain(f.variance) > 0.003 && 0.0 <= Excess(f.variance) <= Shrunk(d, n)
    ensures Excess(Measured(f, m).variance) <= Shrunk(d, n + 2)
  {
    ExcessShrinks(f, m);
    TwiceShrunk(1.0 - Gain(f.variance), Excess(f.variance), d, n);
  }

  lemma {:induction false} TwiceShrunk(c: real, e: real, d: real, n: nat)
    requires 0.0 <= c <= 0.997 && 0.0 <= e <= Shrunk(d, n)
    ensures c * c * e <= Shrunk(d, n + 2)
  {
    assert Shrunk(d, n + 2) == 0.997 * Shrunk(d, n + 1) == 0.997 * (0.997 * Shrunk(d, n));
    TwoFactors(c, e, Shrunk(d, n));
  }

  lemma {:induction false} TwoFactors(c: real, e: real, bound: real)
    requires 0.0 <= c <= 0.997 && 0.0 <= e <= bound
    ensures c * c * e <= 0.997 * (0.997 * bound)
  {
    ProductIsNotNegative(0.997 - c, e);
    ProductIsNotNegative(c, 0.997 * e - c * e);
    assert c * c * e == c * (c * e);
    ProductIsNotNegative(0.997 - c, 0.997 * e);
  }

  lemma SmallVariance(p: real)
    requires 0.0 < p <= 0.0003
    ensures Excess(p) <= 0.0
  {
    assert p * p <= 0.0003 * p;
  }

  lemma VarianceIsBounded(p: real)
    requires p > 0.0 && Excess(p) > 0.0
    ensures p > 0.0003
  {
    if p <= 0.0003 {
      SmallVariance(p);
    }
  }

  lemma {:induction false} GainIsBounded(p: real)
    requires p > 0.0003
    ensures Gain(p) > 0.003
  {
    var s := p + Q;
    assert (Gain(p) - 0.003) * (s + R) == s - 0.003 * (s + R);
    PositiveFactor(Gain(p) - 0.003, s + R, s - 0.003 * (s + R));
  }

  // ----- The estimate -----

  /** The estimate never leaves the range of the initial value and the measurements. */
  lemma {:induction false} EstimateInRange(ms: seq<real>, low: real, high: real)
    requires low <= 1.0 <= high
    requires forall i :: 0 <= i < |ms| ==> low <= ms[i] <= high
    ensures low <= After(Initial(), ms).mean <= high
  {
    if ms != [] {
      EstimateInRange(ms[..|ms| - 1], low, high);
      MeanStaysBetween(After(Initial(), ms[..|ms| - 1]), ms[|ms| - 1], low, high);
    }
  }

  lemma MeanStaysBetween(f: Filter, m: real, low: real, high: real)
    requires f.variance > 0.0 && low <= f.mean <= high && low <= m <= high
    ensures low <= Measured(f, m).mean <= high
  {
    Between(f.mean, m, Gain(f.variance), low, high);
  }

  lemma Between(x: real, m: real, k: real, low: real, high: real)
    requires low <= x <= high && low <= m <= high && 0.0 < k < 1.0
    ensures low <= x + (m - x) * k <= high
  {
    assert x + (m - x) * k - low == (1.0 - k) * (x - low) + k * (m - low);
    assert high - (x + (m - x) * k) == (1.0 - k) * (high - x) + k * (high - m);
    ProductIsNotNegative(1.0 - k, x - low);
    ProductIsNotNegative(k, m - low);
    ProductIsNotNegative(1.0 - k, high - x);
    ProductIsNotNegative(k, high - m);
  }

  lemma ProductIsNotNegative(a: real, b: real)
    requires a >= 0.0 && b >= 0.0
    ensures a * b >= 0.0
  {
  }

  /** `d` times the `n`th power of 0.997 */
  function Shrunk(d: real, n: nat): real {
    if n == 0 then d else 0.997 * Shrunk(d, n - 1)
  }

  function Abs(x: real): real {
    if x < 0.0 then -x else x
  }

  /** On a constant round trip time the error shrinks by a fixed factor with every measurement. */
  lemma {:induction false} ErrorVanishes(ms: seq<real>, m: real)
    requires forall i :: 0 <= i < |ms| ==> ms[i] == m
    ensures Abs(After(Initial(), ms).mean - m) <= Shrunk(Abs(1.0 - m), |ms|)
  {
    if ms != [] {
      ErrorVanishes(ms[..|ms| - 1], m);
      VarianceInRuns(ms[..|ms| - 1], m);
      ErrorShrinks(After(Initial(), ms[..|ms| - 1]), m);
    }
  }

  lemma ErrorShrinks(f: Filter, m: real)
    requires f.variance > 0.0 && Gain(f.variance) > 0.003
    ensures Abs(Measured(f, m).mean - m) <= 0.997 * Abs(f.mean - m)
  {
    var k := Gain(f.variance);
    var e := f.mean - m;
    assert Measured(f, m).mean - m == (1.0 - k) * e;
    ProductIsNotNegative(1.0 - k, Abs(e));
    ProductIsNotNegative(k - 0.003, Abs(e));
    assert e < 0.0 ==> (1.0 - k) * Abs(e) == -((1.0 - k) * e);
  }
}
