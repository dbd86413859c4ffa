/** The sliding window of each feature and its drift test (FeatureDistributionTracker in
    shared/utils/ml_validation.py), over reals. Deviations are compared squared, so no root is taken. */
module DriftDetection {

  import opened Prelude

  const MIN_SAMPLES_FOR_DRIFT := 30

  // A value offered to the tracker.
  datatype Observation = Missing | NotFinite | NotANumber | Finite(value: real)

  // deque(maxlen=size).append
  function Slide(window: seq<real>, x: real, size: nat): seq<real> {
    var w := window + [x];
    if |w| > size then w[|w| - size..] else w
  }

  // sum(data), for its first n elements.
  function Sum(xs: seq<real>, n: nat): real
    requires n <= |xs|
  {
    if n == 0 then 0.0 else Sum(xs, n - 1) + xs[n - 1]
  }

  function Square(x: real): (y: real)
    ensures y >= 0.0
  {
    x * x
  }

  // The squared deviations from m, summed.
  function Deviations(xs: seq<real>, m: real, n: nat): (d: real)
    requires n <= |xs|
    ensures d >= 0.0
  {
    if n == 0 then 0.0 else Deviations(xs, m, n - 1) + Square(xs[n - 1] - m)
  }

  // The standard deviation is kept squared.
  datatype Distribution = Distribution(mean: real, variance: real, min: real, max: real, count: nat)

  function Mean(xs: seq<real>): real
    requires xs != []
  {
    Sum(xs, |xs|) / |xs| as real
  }

  function Variance(xs: seq<real>): (v: real)
    requires xs != []
    ensures v >= 0.0
  {
    if |xs| < 2 then 0.0 else Deviations(xs, Mean(xs), |xs|) / (|xs| - 1) as real
  }

  predicate Drifts(window: seq<real>, x: real, z: real) {
    |window| >= MIN_SAMPLES_FOR_DRIFT &&
    if Variance(window) == 0.0 then x != Mean(window)
    else z < 0.0 || Square(x - Mean(window)) > Square(z) * Variance(window)
  }

  class FeatureDistributionTracker {
    const windowSize: nat
    var data: map<string, seq<real>>

    constructor (windowSize: nat)
      ensures this.windowSize == windowSize && data == map[]
    {
      this.windowSize, data := windowSize, map[];
    }

    function Window(feature: string): seq<real>
      reads this
    {
      if feature in data then data[feature] else []
    }

    method Update(feature: string, value: Observation)
      modifies this
      ensures !value.Finite? ==> data == old(data)
      ensures value.Finite? ==>
                data == old(data)[feature := Slide(old(Window(feature)), value.value, windowSize)]
    {
      if !value.Finite? {
        return;
      }
      if feature !in data {
        data := data[feature := []];
      }
      var w := data[feature] + [value.value];
      data := data[feature := if |w| > windowSize then w[|w| - windowSize..] else w];
    }

    // get_distribution
    method GetDistribution(feature: string) returns (d: Distribution)
      ensures Window(feature) == [] ==> d == Distribution(0.0, 0.0, 0.0, 0.0, 0)
      ensures var w := Window(feature);
              w != [] ==>
                && d.mean == Mean(w) && d.variance == Variance(w) && d.count == |w|
                && d.min in w && d.max in w && forall x | x in w :: d.min <= x <= d.max
    {
      var w := Window(feature);
      if w == [] {
        return Distribution(0.0, 0.0, 0.0, 0.0, 0);
      }
      var total, low, high := 0.0, w[0], w[0];
      for i := 0 to |w|
        invariant total == Sum(w, i) && low in w && high in w
        invariant forall k | 0 <= k < i :: low <= w[k] <= high
      {
        total := total + w[i];
        if w[i] < low { low := w[i]; }
        if w[i] > high { high := w[i]; }
      }
      var mean := total / |w| as real;
      var variance := Spread(w, mean);
      d := Distribution(mean, variance, low, high, |w|);
    }

    // The squares summed and averaged over one less than their number.
    method Spread(w: seq<real>, mean: real) returns (variance: real)
      requires w != []
      ensures variance == if |w| < 2 then 0.0 else Deviations(w, mean, |w|) / (|w| - 1) as real
    {
      if |w| < 2 {
        return 0.0;
      }
      var deviations := 0.0;
      for i := 0 to |w|
        invariant deviations == Deviations(w, mean, i)
      {
        deviations := deviations + (w[i] - mean) * (w[i] - mean);
      }
      variance := deviations / (|w| - 1) as real;
    }

    method DetectDrift(feature: string, value: Observation, z: real) returns (drift: bool)
      ensures drift <==> value.Finite? && Drifts(Window(feature), value.value, z)
    {
      if feature !in data {
        return false;
      }
      if |data[feature]| < MIN_SAMPLES_FOR_DRIFT {
        return false;
      }
      if !value.Finite? {
        return false;
      }
      var dist := GetDistribution(feature);
      if dist.variance == 0.0 {
        drift := value.value != dist.mean;
      } else {
        drift := z < 0.0 || (value.value - dist.mean) * (value.value - dist.mean) > z * z * dist.variance;
      }
    }
  }

  // ---------------------------------------------------------------------------
  // The window over a run
  // ---------------------------------------------------------------------------

  function FiniteValues(obs: seq<Observation>): seq<real> {
    if obs == [] then []
    else
      FiniteValues(obs[..|obs| - 1]) +
      (if obs[|obs| - 1].Finite? then [obs[|obs| - 1].value] else [])
  }

  // What one feature's window becomes over a run of updates.
  function WindowAfter(obs: seq<Observation>, size: nat): seq<real> {
    if obs == [] then []
    else
      var w := WindowAfter(obs[..|obs| - 1], size);
      if obs[|obs| - 1].Finite? then Slide(w, obs[|obs| - 1].value, size) else w
  }

  function Last(xs: seq<real>, n: nat): seq<real> {
    if |xs| > n then xs[|xs| - n..] else xs
  }

  lemma SlideLast(xs: seq<real>, x: real, size: nat)
    ensures Slide(Last(xs, size), x, size) == Last(xs + [x], size)
  {
  }

  /** The window always holds the last finite observations, as many as it has room for. */
  lemma {:induction false} WindowIsLastFinite(obs: seq<Observation>, size: nat)
    ensures WindowAfter(obs, size) == Last(FiniteValues(obs), size)
  {
    if obs != [] {
      var before, o := obs[..|obs| - 1], obs[|obs| - 1];
      WindowIsLastFinite(before, size);
      if o.Finite? { SlideLast(FiniteValues(before), o.value, size); }
    }
  }

  // ---------------------------------------------------------------------------
  // Chebyshev's bound
  // ---------------------------------------------------------------------------

  // How many of the first n elements of a window its own test flags.
  function Flagged(window: seq<real>, z: real, n: nat): nat
    requires n <= |window|
  {
    if n == 0 then 0 else Flagged(window, z, n - 1) + (if Drifts(window, window[n - 1], z) then 1 else 0)
  }

  lemma DriftIsFar(window: seq<real>, x: real, z: real, least: real)
    requires |window| >= MIN_SAMPLES_FOR_DRIFT && z > 0.0 && Variance(window) != 0.0
    requires least == Square(z) * Variance(window)
    ensures Drifts(window, x, z) <==> Square(x - Mean(window)) > least
  {
  }

  // How many of the first n elements lie further from m than the root of t.
  function Far(xs: seq<real>, m: real, t: real, n: nat): nat
    requires n <= |xs|
  {
    if n == 0 then 0 else Far(xs, m, t, n - 1) + (if Square(xs[n - 1] - m) > t then 1 else 0)
  }

  lemma OneFurther(d: real, k: nat, square: real, t: real)
    requires t >= 0.0 && square >= 0.0
    requires d >= k as real * t && (k > 0 ==> d > k as real * t)
    ensures d + square >= k as real * t
    ensures k > 0 ==> d + square > k as real * t
    ensures square > t ==> d + square > (k + 1) as real * t
  {
  }

  lemma {:induction false} FarDeviate(xs: seq<real>, m: real, t: real, n: nat)
    requires n <= |xs| && t >= 0.0
    ensures Deviations(xs, m, n) >= Far(xs, m, t, n) as real * t
    ensures Far(xs, m, t, n) > 0 ==> Deviations(xs, m, n) > Far(xs, m, t, n) as real * t
  {
    if n > 0 {
      FarDeviate(xs, m, t, n - 1);
      SquareIsNotNegative(xs[n - 1] - m);
      OneFurther(Deviations(xs, m, n - 1), Far(xs, m, t, n - 1), Square(xs[n - 1] - m), t);
    }
  }

  lemma {:induction false} FlaggedAreFar(window: seq<real>, z: real, least: real, n: nat)
    requires n <= |window| && |window| >= MIN_SAMPLES_FOR_DRIFT && z > 0.0 && Variance(window) != 0.0
    requires least == Square(z) * Variance(window)
    ensures Flagged(window, z, n) == Far(window, Mean(window), least, n)
  {
    if n > 0 {
      FlaggedAreFar(window, z, least, n - 1);
      DriftIsFar(window, window[n - 1], z, least);
    }
  }

  lemma SquareIsNotNegative(x: real)
    ensures Square(x) >= 0.0
  {
  }

  lemma CountBound(k: nat, q: real, v: real, n: real, d: real, least: real)
    requires v > 0.0 && q > 0.0 && n > 0.0 && d == v * n && least == q * v
    requires k > 0 ==> d > k as real * least
    ensures k as real < n / q
  {
  }

  lemma ProductOfEquals(x: real, z: real, y: real)
    requires x != 0.0 && z == x && y == x * z
    ensures y > 0.0
  {
  }

  lemma SquareIsPositive(x: real)
    requires x != 0.0
    ensures Square(x) > 0.0
  {
    ProductOfEquals(x, x, Square(x));
  }

  lemma FlaggedBelow(window: seq<real>, z: real, q: real, v: real, least: real, m: real)
    requires |window| >= MIN_SAMPLES_FOR_DRIFT && z > 0.0
    requires q == Square(z) > 0.0 && v == Variance(window) != 0.0 && least == q * v && m == Mean(window)
    ensures Flagged(window, z, |window|) as real < (|window| - 1) as real / q
  {
    var k, n, d := Flagged(window, z, |window|), (|window| - 1) as real, Deviations(window, m, |window|);
    FlaggedAreFar(window, z, least, |window|);
    FarDeviate(window, m, least, |window|);
    SpreadIsDeviations(window, v, n, d);
    CountBound(k, q, v, n, d, least);
  }

  // What is left over, and what the squares come to, when m is taken for the centre.
  function Excess(xs: seq<real>, m: real, n: nat): real
    requires n <= |xs|
  {
    if n == 0 then 0.0 else Excess(xs, m, n - 1) + (xs[n - 1] - m)
  }

  function Squares(xs: seq<real>, n: nat): real
    requires n <= |xs|
  {
    if n == 0 then 0.0 else Squares(xs, n - 1) + xs[n - 1] * xs[n - 1]
  }

  lemma {:induction false} ExcessIs(xs: seq<real>, m: real, n: nat)
    requires n <= |xs|
    ensures Excess(xs, m, n) == Sum(xs, n) - n as real * m
  {
    if n > 0 { ExcessIs(xs, m, n - 1); }
  }

  function Product(a: real, b: real): real { a * b }

  // One element more: all products of this step, named.
  lemma OneTermMore(x: real, m: real, e: real, n: real)
    ensures Square(x - m) == x * x - 2.0 * Product(m, x) + Product(m, m)
    ensures Product(m, e + (x - m)) == Product(m, e) + Product(m, x) - Product(m, m)
    ensures Product(n + 1.0, Product(m, m)) == Product(n, Product(m, m)) + Product(m, m)
  {
  }

  lemma {:induction false} DeviationsAre(xs: seq<real>, m: real, n: nat)
    requires n <= |xs|
    ensures Deviations(xs, m, n) ==
            Squares(xs, n) - 2.0 * Product(m, Excess(xs, m, n)) - Product(n as real, Product(m, m))
  {
    if n > 0 {
      DeviationsAre(xs, m, n - 1);
      DeviationsStep(xs, m, n);
    }
  }

  lemma DeviationsStep(xs: seq<real>, m: real, n: nat)
    requires 0 < n <= |xs|
    requires Deviations(xs, m, n - 1) ==
             Squares(xs, n - 1) - 2.0 * Product(m, Excess(xs, m, n - 1)) - Product((n - 1) as real, Product(m, m))
    ensures Deviations(xs, m, n) ==
            Squares(xs, n) - 2.0 * Product(m, Excess(xs, m, n)) - Product(n as real, Product(m, m))
  {
    var x, e, k := xs[n - 1], Excess(xs, m, n - 1), (n - 1) as real;
    OneTermMore(x, m, e, k);
    assert Deviations(xs, m, n) == Deviations(xs, m, n - 1) + Square(x - m);
    assert Squares(xs, n) == Squares(xs, n - 1) + x * x;
    assert Excess(xs, m, n) == e + (x - m);
    assert n as real == k + 1.0;
  }

  lemma MeanTimesCount(xs: seq<real>, m: real, n: real)
    requires xs != [] && m == Mean(xs) && n == |xs| as real
    ensures n * m == Sum(xs, |xs|)
  {
  }

  lemma Balances(xs: seq<real>, m: real)
    requires xs != [] && m == Mean(xs)
    ensures Excess(xs, m, |xs|) == 0.0
  {
    ExcessIs(xs, m, |xs|);
    MeanTimesCount(xs, m, |xs| as real);
  }

  lemma VarianceFrom(m: real, n: real, e: real)
    requires e == 0.0
    ensures Product(m, e) == 0.0 && Product(n, Product(m, m)) == n * (m * m)
  {
  }

  /** The mean is the point around which the window balances, and the variance is what its squares exceed
      those of the mean by, averaged over one less than their number. */
  lemma MeanAndVarianceAre(xs: seq<real>, m: real, v: real)
    requires |xs| >= 2 && m == Mean(xs) && v == Variance(xs)
    ensures Excess(xs, m, |xs|) == 0.0
    ensures v * (|xs| - 1) as real == Squares(xs, |xs|) - |xs| as real * (m * m)
  {
    Balances(xs, m);
    DeviationsAre(xs, m, |xs|);
    SpreadIsDeviations(xs, v, (|xs| - 1) as real, Deviations(xs, m, |xs|));
    VarianceFrom(m, |xs| as real, Excess(xs, m, |xs|));
  }

  // A value counts as drifted when it is further from the mean than z deviations, squared.
  lemma DriftsIff(window: seq<real>, x: real, z: real, d: real, m: real, v: real)
    requires |window| >= MIN_SAMPLES_FOR_DRIFT && m == Mean(window) && v == Variance(window) && d == x - m
    ensures Drifts(window, x, z) <==> if v == 0.0 then x != m else z < 0.0 || d * d > z * z * v
  {
  }

  /** With enough samples, a positive threshold and some spread, fewer than (n - 1) / z^2 elements of
      the window are flagged by its own test. */
  lemma FlagsObeyChebyshev(window: seq<real>, z: real)
    requires |window| >= MIN_SAMPLES_FOR_DRIFT && z > 0.0 && Variance(window) != 0.0
    ensures z * z > 0.0
    ensures Flagged(window, z, |window|) as real < (|window| - 1) as real / (z * z)
  {
    SquareIsPositive(z);
    FlaggedBelow(window, z, Square(z), Variance(window), Square(z) * Variance(window), Mean(window));
  }

  lemma SpreadIsDeviations(window: seq<real>, v: real, n: real, d: real)
    requires |window| >= 2 && v == Variance(window) && n == (|window| - 1) as real
    requires d == Deviations(window, Mean(window), |window|)
    ensures d == v * n
  {
  }

  lemma {:induction false} NoDeviation(xs: seq<real>, m: real, n: nat)
    requires n <= |xs| && Deviations(xs, m, n) == 0.0
    ensures forall i | 0 <= i < n :: xs[i] == m
  {
    if n > 0 {
      NoDeviation(xs, m, n - 1);
      if xs[n - 1] != m { SquareIsPositive(xs[n - 1] - m); }
    }
  }

  lemma {:induction false} NoneFlagged(window: seq<real>, z: real, n: nat)
    requires n <= |window| && |window| >= MIN_SAMPLES_FOR_DRIFT && Variance(window) == 0.0
    requires forall i | 0 <= i < n :: window[i] == Mean(window)
    ensures Flagged(window, z, n) == 0
  {
    if n > 0 { NoneFlagged(window, z, n - 1); }
  }

  /** A window without spread flags none of its elements, and any other value. */
  lemma ConstantWindow(window: seq<real>, z: real, x: real)
    requires |window| >= MIN_SAMPLES_FOR_DRIFT && Variance(window) == 0.0
    ensures Flagged(window, z, |window|) == 0
    ensures Drifts(window, x, z) <==> x != window[0]
  {
    var d := Deviations(window, Mean(window), |window|);
    SpreadIsDeviations(window, 0.0, (|window| - 1) as real, d);
    NoDeviation(window, Mean(window), |window|);
    NoneFlagged(window, z, |window|);
  }
}
