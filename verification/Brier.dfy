/**
  * The Brier score of probability forecasts and its split into reliability, resolution and
  * uncertainty over equal-width buckets (backend/app/backtest/stats.py).
  */
module Brier {
  import opened Prelude
  import opened Sums

  /** A probability, and 1 or 0 for what happened. */
  datatype Forecast = Forecast(p: real, o: real)

  datatype ForecastError =
    | BadBuckets(buckets: int)
    | LengthMismatch(predictions: nat, outcomes: nat)
    | NoForecasts
    | NotAProbability(index: nat)

  predicate Probable(p: real) {
    0.0 <= p <= 1.0
  }

  ghost predicate AllSound(fs: seq<Forecast>) {
    forall i :: 0 <= i < |fs| ==> Probable(fs[i].p) && (fs[i].o == 0.0 || fs[i].o == 1.0)
  }

  function Observed(o: bool): real {
    if o then 1.0 else 0.0
  }

  ghost predicate Pairs(predictions: seq<real>, outcomes: seq<bool>, fs: seq<Forecast>) {
    |predictions| == |outcomes| == |fs| && forall i :: 0 <= i < |fs| ==> fs[i] == Forecast(predictions[i], Observed(outcomes[i]))
  }

  /** Refuses rather than repairs, naming the first value that is no probability. */
  method ValidateForecasts(predictions: seq<real>, outcomes: seq<bool>) returns (r: Result<seq<Forecast>, ForecastError>)
    ensures r.Ok? <==> |predictions| == |outcomes| > 0 && forall i :: 0 <= i < |predictions| ==> 0.0 <= predictions[i] <= 1.0
    ensures r.Ok? ==> Pairs(predictions, outcomes, r.value) && AllSound(r.value)
    ensures |predictions| != |outcomes| <==> r == Err(LengthMismatch(|predictions|, |outcomes|))
    ensures |predictions| == |outcomes| == 0 <==> r == Err(NoForecasts)
    ensures r.Err? && r.error.NotAProbability? ==>
      r.error.index < |predictions| && !Probable(predictions[r.error.index])
      && forall i :: 0 <= i < r.error.index ==> Probable(predictions[i])
  {
    if |predictions| != |outcomes| {
      return Err(LengthMismatch(|predictions|, |outcomes|));
    }
    if predictions == [] {
      return Err(NoForecasts);
    }
    var fs := [];
    for i := 0 to |predictions|
      invariant Pairs(predictions[..i], outcomes[..i], fs) && AllSound(fs)
      invariant forall k :: 0 <= k < i ==> Probable(predictions[k])
    {
      if !Probable(predictions[i]) {
        return Err(NotAProbability(i));
      }
      fs := fs + [Forecast(predictions[i], Observed(outcomes[i]))];
    }
    r := Ok(fs);
  }

  // ---- Totals over a list of forecasts, and over its buckets -------------------------------

  function Total(fs: seq<Forecast>, term: Forecast -> real): real {
    if fs == [] then 0.0 else Total(fs[..|fs| - 1], term) + term(fs[|fs| - 1])
  }

  function P(f: Forecast): real { f.p }

  function O(f: Forecast): real { f.o }

  function SquaredError(f: Forecast): real { (f.p - f.o) * (f.p - f.o) }

  function Spread(m: real): Forecast -> real {
    (f: Forecast) => (f.p - m) * (f.p - m)
  }

  function OutcomeSpread(q: real): Forecast -> real {
    (f: Forecast) => (f.o - q) * (f.o - q)
  }

  function CoSpread(m: real, q: real): Forecast -> real {
    (f: Forecast) => (f.p - m) * (f.o - q)
  }

  /** A forecast of exactly 1 belongs to the top bucket. */
  function BucketIndex(p: real, buckets: nat): (b: nat)
    requires Probable(p) && buckets > 0
    ensures b < buckets
  {
    ProductNonNegative(p, buckets as real);
    var i := (p * buckets as real).Floor;
    if i < buckets - 1 then i else buckets - 1
  }

  function Group(fs: seq<Forecast>, buckets: nat, b: nat): seq<Forecast>
    requires AllSound(fs) && buckets > 0
  {
    if fs == [] then []
    else
      var last := fs[|fs| - 1];
      Group(fs[..|fs| - 1], buckets, b) + if BucketIndex(last.p, buckets) == b then [last] else []
  }

  function MeanForecast(g: seq<Forecast>): real
    requires g != []
  {
    Total(g, P) / |g| as real
  }

  function Rate(g: seq<Forecast>): real
    requires g != []
  {
    Total(g, O) / |g| as real
  }

  function Square(x: real): real { x * x }

  function Gap(n: real, a: real, b: real): real { n * Square(a - b) }

  function Unreliability(g: seq<Forecast>): real {
    if g == [] then 0.0 else Gap(|g| as real, MeanForecast(g), Rate(g))
  }

  function Separation(g: seq<Forecast>, base: real): real {
    if g == [] then 0.0 else Gap(|g| as real, Rate(g), base)
  }

  /** What is left inside a bucket: how its forecasts vary, and vary with the outcomes. */
  function ForecastVariation(g: seq<Forecast>): real {
    if g == [] then 0.0 else Total(g, Spread(MeanForecast(g)))
  }

  function Covariation(g: seq<Forecast>): real {
    if g == [] then 0.0 else Total(g, CoSpread(MeanForecast(g), Rate(g)))
  }

  function OutcomeVariation(g: seq<Forecast>): real {
    if g == [] then 0.0 else Total(g, OutcomeSpread(Rate(g)))
  }

  function OverBuckets(fs: seq<Forecast>, buckets: nat, part: seq<Forecast> -> real): real
    requires AllSound(fs) && buckets > 0
  {
    Sum(PerBucket(fs, buckets, part))
  }

  function PerBucket(fs: seq<Forecast>, buckets: nat, part: seq<Forecast> -> real): (r: seq<real>)
    requires AllSound(fs) && buckets > 0
    ensures |r| == buckets && forall b :: 0 <= b < buckets ==> r[b] == part(Group(fs, buckets, b))
  {
    seq(buckets, b requires 0 <= b < buckets => part(Group(fs, buckets, b)))
  }

  function TotalOf(term: Forecast -> real): seq<Forecast> -> real {
    (g: seq<Forecast>) => Total(g, term)
  }

  lemma {:induction false} SumUpdate(s: seq<real>, i: nat, v: real)
    requires i < |s|
    ensures Sum(s[i := v]) == Sum(s) - s[i] + v
  {
    if i == 0 {
      assert s[i := v][1..] == s[1..];
    } else {
      assert s[i := v][1..] == s[1..][i - 1 := v];
      SumUpdate(s[1..], i - 1, v);
    }
  }

  lemma {:induction false} SumZeros(s: seq<real>)
    requires forall i :: 0 <= i < |s| ==> s[i] == 0.0
    ensures Sum(s) == 0.0
  {
    if s != [] { SumZeros(s[1..]); }
  }

  lemma {:induction false} TotalSnoc(fs: seq<Forecast>, f: Forecast, term: Forecast -> real)
    ensures Total(fs + [f], term) == Total(fs, term) + term(f)
  {
    assert (fs + [f])[..|fs|] == fs;
  }

  lemma {:induction false} GroupSnoc(fs: seq<Forecast>, f: Forecast, buckets: nat, b: nat)
    requires AllSound(fs) && AllSound([f]) && buckets > 0
    ensures AllSound(fs + [f]) && Probable(f.p)
    ensures Group(fs + [f], buckets, b) == Group(fs, buckets, b) + if BucketIndex(f.p, buckets) == b then [f] else []
  {
    assert Probable([f][0].p);
    assert (fs + [f])[..|fs|] == fs;
  }

  lemma SoundParts(fs: seq<Forecast>)
    requires AllSound(fs) && fs != []
    ensures AllSound(fs[..|fs| - 1]) && AllSound([fs[|fs| - 1]]) && fs == fs[..|fs| - 1] + [fs[|fs| - 1]]
  {
  }

  lemma {:induction false} NextInOneBucket(init: seq<Forecast>, f: Forecast, buckets: nat, term: Forecast -> real, b: nat)
    requires AllSound(init) && AllSound([f]) && b < buckets
    ensures AllSound(init + [f]) && Probable([f][0].p)
    ensures Total(Group(init + [f], buckets, b), term)
      == Total(Group(init, buckets, b), term) + if BucketIndex([f][0].p, buckets) == b then term(f) else 0.0
  {
    var g := Group(init, buckets, b);
    GroupSnoc(init, f, buckets, b);
    if BucketIndex([f][0].p, buckets) == b {
      TotalSnoc(g, f, term);
    } else {
      assert g + [] == g;
    }
  }

  /** Nothing is lost or counted twice by bucketing. */
  lemma {:induction false} BucketsPartition(fs: seq<Forecast>, buckets: nat, term: Forecast -> real)
    requires AllSound(fs) && buckets > 0
    ensures OverBuckets(fs, buckets, TotalOf(term)) == Total(fs, term)
    decreases |fs|
  {
    var all := PerBucket(fs, buckets, TotalOf(term));
    if fs == [] {
      SumZeros(all);
    } else {
      SoundParts(fs);
      var init, f := fs[..|fs| - 1], fs[|fs| - 1];
      var before := PerBucket(init, buckets, TotalOf(term));
      BucketsPartition(init, buckets, term);
      var c := BucketIndex(f.p, buckets);
      var after := before[c := before[c] + term(f)];
      forall b | 0 <= b < buckets ensures all[b] == after[b] {
        NextInOneBucket(init, f, buckets, term, b);
      }
      assert all == after;
      SumUpdate(before, c, before[c] + term(f));
    }
  }

  // ---- Totals are linear ----------------------------------------------------------------------

  lemma {:induction false} TotalsCombine(g: seq<Forecast>, whole: Forecast -> real,
    a: Forecast -> real, b: Forecast -> real, c: Forecast -> real, d: Forecast -> real)
    requires forall f :: whole(f) == a(f) - 2.0 * b(f) + c(f) + d(f)
    ensures Total(g, whole) == Total(g, a) - 2.0 * Total(g, b) + Total(g, c) + Total(g, d)
    decreases |g|
  {
    if g != [] {
      TotalsCombine(g[..|g| - 1], whole, a, b, c, d);
    }
  }

  /** alpha + beta * p + gamma * o. */
  function Affine(alpha: real, beta: real, gamma: real): Forecast -> real {
    (f: Forecast) => alpha + beta * f.p + gamma * f.o
  }

  function Plane(alpha: real, beta: real, gamma: real, n: real, tp: real, to: real): real {
    alpha * n + beta * tp + gamma * to
  }

  lemma PlaneStep(alpha: real, beta: real, gamma: real, n: real, tp: real, to: real, x: real, y: real)
    ensures Plane(alpha, beta, gamma, n + 1.0, tp + x, to + y)
      == Plane(alpha, beta, gamma, n, tp, to) + (alpha + beta * x + gamma * y)
  {
    assert alpha * (n + 1.0) == alpha * n + alpha;
    assert beta * (tp + x) == beta * tp + beta * x;
    assert gamma * (to + y) == gamma * to + gamma * y;
  }

  lemma {:induction false} AffineTotal(g: seq<Forecast>, alpha: real, beta: real, gamma: real)
    ensures Total(g, Affine(alpha, beta, gamma)) == Plane(alpha, beta, gamma, |g| as real, Total(g, P), Total(g, O))
    decreases |g|
  {
    if g != [] {
      var init, f := g[..|g| - 1], g[|g| - 1];
      AffineTotal(init, alpha, beta, gamma);
      PlaneStep(alpha, beta, gamma, |init| as real, Total(init, P), Total(init, O), f.p, f.o);
      assert |g| as real == |init| as real + 1.0;
    }
  }

  // ---- One bucket ---------------------------------------------------------------------------

  /** What the square gains when the two centres differ: constant once summed, since deviations cancel. */
  function Shift(m: real, q: real): Forecast -> real {
    Affine(ShiftBase(m, q), 2.0 * (m - q), -2.0 * (m - q))
  }

  function ShiftBase(m: real, q: real): real {
    var z := m - q;
    z * z - 2.0 * z * m + 2.0 * z * q
  }

  lemma ErrorAbout(f: Forecast, m: real, q: real)
    ensures SquaredError(f) == Spread(m)(f) - 2.0 * CoSpread(m, q)(f) + OutcomeSpread(q)(f) + Shift(m, q)(f)
  {
    var x, y, z := f.p - m, f.o - q, m - q;
    assert f.p - f.o == x - y + z;
    assert (x - y + z) * (x - y + z) == x * x - 2.0 * (x * y) + y * y + z * z + 2.0 * z * x - 2.0 * z * y;
    assert 2.0 * z * x == 2.0 * z * f.p - 2.0 * z * m;
    assert 2.0 * z * y == 2.0 * z * f.o - 2.0 * z * q;
  }

  lemma ShiftTotal(n: real, tp: real, to: real, m: real, q: real)
    requires m * n == tp && q * n == to
    ensures Plane(ShiftBase(m, q), 2.0 * (m - q), -2.0 * (m - q), n, tp, to) == Gap(n, m, q)
  {
    var z := m - q;
    var zm, zq := z * m, z * q;
    assert zm * n == z * tp && zq * n == z * to;
    assert (z * z - 2.0 * zm + 2.0 * zq) * n == z * z * n - 2.0 * (zm * n) + 2.0 * (zq * n);
  }

  lemma {:induction false} MeansTimesCount(g: seq<Forecast>)
    requires g != []
    ensures MeanForecast(g) * |g| as real == Total(g, P)
    ensures Rate(g) * |g| as real == Total(g, O)
  {
    QuotientTimes(Total(g, P), |g| as real);
    QuotientTimes(Total(g, O), |g| as real);
  }

  lemma {:induction false} ShiftTotals(g: seq<Forecast>, n: real, m: real, q: real)
    requires n == |g| as real && m * n == Total(g, P) && q * n == Total(g, O)
    ensures Total(g, Shift(m, q)) == Gap(n, m, q)
  {
    var tp, to := Total(g, P), Total(g, O);
    ShiftTotal(n, tp, to, m, q);
    AffineTotal(g, ShiftBase(m, q), 2.0 * (m - q), -2.0 * (m - q));
  }

  lemma {:induction false} ErrorsAbout(g: seq<Forecast>, n: real, m: real, q: real)
    requires n == |g| as real && m * n == Total(g, P) && q * n == Total(g, O)
    ensures Total(g, SquaredError)
      == Total(g, Spread(m)) - 2.0 * Total(g, CoSpread(m, q)) + Total(g, OutcomeSpread(q)) + Gap(n, m, q)
  {
    forall f ensures SquaredError(f) == Spread(m)(f) - 2.0 * CoSpread(m, q)(f) + OutcomeSpread(q)(f) + Shift(m, q)(f) {
      ErrorAbout(f, m, q);
    }
    TotalsCombine(g, SquaredError, Spread(m), CoSpread(m, q), OutcomeSpread(q), Shift(m, q));
    ShiftTotals(g, n, m, q);
  }

  lemma {:induction false} BucketError(g: seq<Forecast>)
    ensures Total(g, SquaredError) == Unreliability(g) + ForecastVariation(g) - 2.0 * Covariation(g) + OutcomeVariation(g)
  {
    if g != [] {
      MeansTimesCount(g);
      ErrorsAbout(g, |g| as real, MeanForecast(g), Rate(g));
    }
  }

  function Nothing(f: Forecast): real { 0.0 }

  function OutcomeShift(q: real, base: real): Forecast -> real {
    Affine(Square(q - base) - 2.0 * (q - base) * q, 0.0, 2.0 * (q - base))
  }

  lemma OutcomeAbout(f: Forecast, q: real, base: real)
    ensures OutcomeSpread(base)(f) == OutcomeSpread(q)(f) + OutcomeShift(q, base)(f)
  {
    var x, z := f.o - q, q - base;
    assert f.o - base == x + z;
    assert (x + z) * (x + z) == x * x + z * z + 2.0 * z * x;
    assert 2.0 * z * x == 2.0 * z * f.o - 2.0 * z * q;
  }

  lemma OutcomeShiftTotal(n: real, tp: real, to: real, q: real, base: real)
    requires q * n == to
    ensures Plane(Square(q - base) - 2.0 * (q - base) * q, 0.0, 2.0 * (q - base), n, tp, to) == Gap(n, q, base)
  {
    var z := q - base;
    var zq := z * q;
    assert zq * n == z * to;
    assert (z * z - 2.0 * zq) * n == z * z * n - 2.0 * (zq * n);
  }

  lemma {:induction false} OutcomeShiftTotals(g: seq<Forecast>, n: real, q: real, base: real)
    requires n == |g| as real && q * n == Total(g, O)
    ensures Total(g, OutcomeShift(q, base)) == Gap(n, q, base)
  {
    OutcomeShiftTotal(n, Total(g, P), Total(g, O), q, base);
    AffineTotal(g, Square(q - base) - 2.0 * (q - base) * q, 0.0, 2.0 * (q - base));
  }

  lemma {:induction false} OutcomesAbout(g: seq<Forecast>, n: real, q: real, base: real)
    requires n == |g| as real && q * n == Total(g, O)
    ensures Total(g, OutcomeSpread(base)) == Total(g, OutcomeSpread(q)) + Gap(n, q, base)
  {
    forall f ensures OutcomeSpread(base)(f) == OutcomeSpread(q)(f) - 2.0 * Nothing(f) + Nothing(f) + OutcomeShift(q, base)(f) {
      OutcomeAbout(f, q, base);
    }
    TotalsCombine(g, OutcomeSpread(base), OutcomeSpread(q), Nothing, Nothing, OutcomeShift(q, base));
    NothingTotals(g);
    OutcomeShiftTotals(g, n, q, base);
  }

  lemma {:induction false} BucketOutcomes(g: seq<Forecast>, base: real)
    ensures Total(g, OutcomeSpread(base)) == OutcomeVariation(g) + Separation(g, base)
  {
    if g != [] {
      MeansTimesCount(g);
      OutcomesAbout(g, |g| as real, Rate(g), base);
    }
  }

  lemma {:induction false} NothingTotals(g: seq<Forecast>)
    ensures Total(g, Nothing) == 0.0
    decreases |g|
  {
    if g != [] { NothingTotals(g[..|g| - 1]); }
  }

  function Times(n: real, x: real): real { n * x }

  /** Variance of a 0/1 outcome with this rate. */
  function Variance(q: real): real { q * (1.0 - q) }

  /** Outcomes are 0 or 1, so their spread about their own rate is n * rate * (1 - rate). */
  lemma {:induction false} BinarySpread(g: seq<Forecast>)
    requires AllSound(g) && g != []
    ensures Total(g, OutcomeSpread(Rate(g))) == Times(|g| as real, Variance(Rate(g)))
  {
    MeansTimesCount(g);
    BinarySpreadAt(g, |g| as real, Rate(g));
  }

  lemma {:induction false} BinarySpreadAt(g: seq<Forecast>, n: real, q: real)
    requires AllSound(g) && n == |g| as real && q * n == Total(g, O)
    ensures Total(g, OutcomeSpread(q)) == Times(n, Variance(q))
  {
    BinaryTotals(g, q);
    BinaryPlane(n, Total(g, P), Total(g, O), q);
  }

  lemma BinaryPlane(n: real, tp: real, to: real, q: real)
    requires q * n == to
    ensures Plane(q * q, 0.0, 1.0 - 2.0 * q, n, tp, to) == Times(n, Variance(q))
  {
    var s := q * q;
    assert s * n == q * to;
    assert (1.0 - 2.0 * q) * to == to - 2.0 * (q * to);
    assert n * (q * (1.0 - q)) == n * q - n * s;
  }

  lemma {:induction false} BinaryTotals(g: seq<Forecast>, q: real)
    requires AllSound(g)
    ensures Total(g, OutcomeSpread(q)) == Plane(q * q, 0.0, 1.0 - 2.0 * q, |g| as real, Total(g, P), Total(g, O))
    decreases |g|
  {
    if g != [] {
      SoundParts(g);
      var init, f := g[..|g| - 1], g[|g| - 1];
      BinaryTotals(init, q);
      PlaneStep(q * q, 0.0, 1.0 - 2.0 * q, |init| as real, Total(init, P), Total(init, O), f.p, f.o);
      assert |g| as real == |init| as real + 1.0;
      BinaryOutcome(f.o, q);
    }
  }

  lemma BinaryOutcome(o: real, q: real)
    requires o == 0.0 || o == 1.0
    ensures (o - q) * (o - q) == q * q + (1.0 - 2.0 * q) * o
  {
  }

  // ---- All buckets ----------------------------------------------------------------------------

  lemma {:induction false} SumCombines(s: seq<real>, a: seq<real>, b: seq<real>, c: seq<real>, d: seq<real>)
    requires |s| == |a| == |b| == |c| == |d|
    requires forall i :: 0 <= i < |s| ==> s[i] == a[i] + b[i] - 2.0 * c[i] + d[i]
    ensures Sum(s) == Sum(a) + Sum(b) - 2.0 * Sum(c) + Sum(d)
    decreases |s|
  {
    if s != [] { SumCombines(s[1..], a[1..], b[1..], c[1..], d[1..]); }
  }

  lemma {:induction false} ErrorsOverBuckets(fs: seq<Forecast>, k: nat)
    requires AllSound(fs) && k > 0
    ensures Total(fs, SquaredError) == OverBuckets(fs, k, Unreliability) + OverBuckets(fs, k, ForecastVariation)
      - 2.0 * OverBuckets(fs, k, Covariation) + OverBuckets(fs, k, OutcomeVariation)
  {
    BucketsPartition(fs, k, SquaredError);
    forall b | 0 <= b < k
      ensures PerBucket(fs, k, TotalOf(SquaredError))[b]
        == PerBucket(fs, k, Unreliability)[b] + PerBucket(fs, k, ForecastVariation)[b]
        - 2.0 * PerBucket(fs, k, Covariation)[b] + PerBucket(fs, k, OutcomeVariation)[b]
    {
      BucketError(Group(fs, k, b));
    }
    SumCombines(PerBucket(fs, k, TotalOf(SquaredError)), PerBucket(fs, k, Unreliability), PerBucket(fs, k, ForecastVariation),
      PerBucket(fs, k, Covariation), PerBucket(fs, k, OutcomeVariation));
  }

  function SeparationFrom(base: real): seq<Forecast> -> real {
    (g: seq<Forecast>) => Separation(g, base)
  }

  function NoPart(g: seq<Forecast>): real { 0.0 }

  lemma {:induction false} OutcomesOverBuckets(fs: seq<Forecast>, k: nat, base: real)
    requires AllSound(fs) && k > 0
    ensures Total(fs, OutcomeSpread(base)) == OverBuckets(fs, k, OutcomeVariation) + OverBuckets(fs, k, SeparationFrom(base))
  {
    BucketsPartition(fs, k, OutcomeSpread(base));
    forall b | 0 <= b < k
      ensures PerBucket(fs, k, TotalOf(OutcomeSpread(base)))[b]
        == PerBucket(fs, k, OutcomeVariation)[b] + PerBucket(fs, k, SeparationFrom(base))[b]
        - 2.0 * PerBucket(fs, k, NoPart)[b] + PerBucket(fs, k, NoPart)[b]
    {
      BucketOutcomes(Group(fs, k, b), base);
    }
    SumCombines(PerBucket(fs, k, TotalOf(OutcomeSpread(base))), PerBucket(fs, k, OutcomeVariation), PerBucket(fs, k, SeparationFrom(base)),
      PerBucket(fs, k, NoPart), PerBucket(fs, k, NoPart));
    SumZeros(PerBucket(fs, k, NoPart));
  }

  function Score(fs: seq<Forecast>): real
    requires fs != []
  {
    Total(fs, SquaredError) / |fs| as real
  }

  datatype Parts = Parts(reliability: real, resolution: real, uncertainty: real, n: nat)

  function Decomposition(fs: seq<Forecast>, k: nat): Parts
    requires AllSound(fs) && fs != [] && k > 0
  {
    var n := |fs| as real;
    Parts(OverBuckets(fs, k, Unreliability) / n, OverBuckets(fs, k, SeparationFrom(Rate(fs))) / n,
      Variance(Rate(fs)), |fs|)
  }

  /** Mean within-bucket forecast variance, and mean within-bucket forecast/outcome covariance. */
  function WithinVariance(fs: seq<Forecast>, k: nat): real
    requires AllSound(fs) && fs != [] && k > 0
  {
    OverBuckets(fs, k, ForecastVariation) / |fs| as real
  }

  function WithinCovariance(fs: seq<Forecast>, k: nat): real
    requires AllSound(fs) && fs != [] && k > 0
  {
    OverBuckets(fs, k, Covariation) / |fs| as real
  }

  lemma Divided(n: real, score: real, rel: real, res: real, unc: real, v: real, c: real)
    requires n > 0.0 && score + res == rel + v - 2.0 * c + Times(n, unc)
    ensures score / n == rel / n - res / n + unc + v / n - 2.0 * (c / n)
  {
    assert score == rel - res + n * unc + v - 2.0 * c;
    assert (n * unc) / n == unc;
  }

  /** The score is the three parts plus the residual of binning, exactly, at every bucket count. */
  lemma ScoreIsPartsAndResidual(fs: seq<Forecast>, k: nat)
    requires AllSound(fs) && fs != [] && k > 0
    ensures var d := Decomposition(fs, k);
      Score(fs) == d.reliability - d.resolution + d.uncertainty + WithinVariance(fs, k) - 2.0 * WithinCovariance(fs, k)
  {
    var base := Rate(fs);
    ErrorsOverBuckets(fs, k);
    OutcomesOverBuckets(fs, k, base);
    BinarySpread(fs);
    Divided(|fs| as real, Total(fs, SquaredError), OverBuckets(fs, k, Unreliability), OverBuckets(fs, k, SeparationFrom(base)),
      Variance(base), OverBuckets(fs, k, ForecastVariation), OverBuckets(fs, k, Covariation));
  }

  /**
    * The three-part identity holds exactly when the within-bucket variance is twice the
    * covariance; a forecaster who repeats one value per bucket meets that.
    */
  lemma ThreePartsExactly(fs: seq<Forecast>, k: nat)
    requires AllSound(fs) && fs != [] && k > 0
    ensures var d := Decomposition(fs, k);
      Score(fs) == d.reliability - d.resolution + d.uncertainty <==> WithinVariance(fs, k) == 2.0 * WithinCovariance(fs, k)
    ensures OneValuePerBucket(fs, k) ==> WithinVariance(fs, k) == WithinCovariance(fs, k) == 0.0
  {
    ScoreIsPartsAndResidual(fs, k);
    if OneValuePerBucket(fs, k) {
      forall b | 0 <= b < k ensures PerBucket(fs, k, ForecastVariation)[b] == 0.0 && PerBucket(fs, k, Covariation)[b] == 0.0 {
        var g := Group(fs, k, b);
        GroupMembers(fs, k, b);
        if g != [] {
          OneValueHasNoVariation(g, g[0].p);
        }
      }
      SumZeros(PerBucket(fs, k, ForecastVariation));
      SumZeros(PerBucket(fs, k, Covariation));
    }
  }

  ghost predicate OneValuePerBucket(fs: seq<Forecast>, k: nat)
    requires AllSound(fs) && k > 0
  {
    forall i, j :: 0 <= i < |fs| && 0 <= j < |fs| && BucketIndex(fs[i].p, k) == BucketIndex(fs[j].p, k) ==> fs[i].p == fs[j].p
  }

  /** A bucket holds forecasts of the list that fall in it, and only those. */
  lemma {:induction false} GroupMembers(fs: seq<Forecast>, k: nat, b: nat)
    requires AllSound(fs) && k > 0
    ensures AllSound(Group(fs, k, b))
    ensures forall f :: f in Group(fs, k, b) <==> f in fs && Probable(f.p) && BucketIndex(f.p, k) == b
    decreases |fs|
  {
    if fs != [] {
      SoundParts(fs);
      GroupMembers(fs[..|fs| - 1], k, b);
    }
  }

  lemma TimesAdd(a: real, b: real, x: real)
    ensures Times(a + b, x) == Times(a, x) + Times(b, x)
  {
    Distribute(a, b, x);
  }

  lemma TimesStep(n: real, x: real)
    ensures Times(n + 1.0, x) == Times(n, x) + x
  {
    Distribute(n, 1.0, x);
  }

  lemma {:induction false} TotalWithin(g: seq<Forecast>, term: Forecast -> real, lo: real, hi: real)
    requires forall f :: f in g ==> lo <= term(f) <= hi
    ensures Times(|g| as real, lo) <= Total(g, term) <= Times(|g| as real, hi)
    decreases |g|
  {
    if g != [] {
      var init := g[..|g| - 1];
      TotalWithin(init, term, lo, hi);
      var n := |init| as real;
      assert |g| as real == n + 1.0;
      assert g[|g| - 1] in g;
      TimesStep(n, lo);
      TimesStep(n, hi);
    }
  }

  lemma {:induction false} OneValueHasNoVariation(g: seq<Forecast>, v: real)
    requires g != [] && forall f :: f in g ==> f.p == v
    ensures ForecastVariation(g) == 0.0 && Covariation(g) == 0.0
  {
    TotalWithin(g, P, v, v);
    QuotientWithin(Total(g, P), |g| as real, v, v);
    assert MeanForecast(g) == v;
    NoTerms(g, Spread(v));
    NoTerms(g, CoSpread(v, Rate(g)));
  }

  lemma {:induction false} NoTerms(g: seq<Forecast>, term: Forecast -> real)
    requires forall f :: f in g ==> term(f) == 0.0
    ensures Total(g, term) == 0.0
    decreases |g|
  {
    if g != [] {
      NoTerms(g[..|g| - 1], term);
    }
  }

  // ---- For which predictions the three parts suffice, whatever happens --------------------------

  ghost predicate AllProbable(predictions: seq<real>) {
    forall i :: 0 <= i < |predictions| ==> Probable(predictions[i])
  }

  function Paired(predictions: seq<real>, outcomes: seq<bool>): (fs: seq<Forecast>)
    requires |predictions| == |outcomes|
    ensures |fs| == |predictions| && forall i :: 0 <= i < |fs| ==> fs[i] == Forecast(predictions[i], Observed(outcomes[i]))
  {
    seq(|predictions|, i requires 0 <= i < |predictions| => Forecast(predictions[i], Observed(outcomes[i])))
  }

  ghost predicate ThreePartsHold(fs: seq<Forecast>, k: nat)
    requires AllSound(fs) && fs != [] && k > 0
  {
    var d := Decomposition(fs, k);
    Score(fs) == d.reliability - d.resolution + d.uncertainty
  }

  /** No two different predictions share a bucket. */
  ghost predicate OnePredictionPerBucket(predictions: seq<real>, k: nat)
    requires AllProbable(predictions) && k > 0
  {
    forall i, j :: 0 <= i < |predictions| && 0 <= j < |predictions| && BucketIndex(predictions[i], k) == BucketIndex(predictions[j], k) ==>
      predictions[i] == predictions[j]
  }

  lemma SquareNotNegative(x: real)
    ensures x * x >= 0.0
  {
    if x >= 0.0 { ProductNonNegative(x, x); } else { ProductNonNegative(-x, -x); }
  }

  lemma SquareNotZero(x: real, y: real)
    requires x != 0.0 && y == x * x
    ensures y > 0.0
  {
    if x > 0.0 {
      SquarePositive(x, y);
    } else {
      assert (-x) * (-x) == y;
      SquarePositive(-x, y);
    }
  }

  lemma {:induction false} TotalPositive(g: seq<Forecast>, term: Forecast -> real, f: Forecast)
    requires (forall x :: term(x) >= 0.0) && f in g && term(f) > 0.0
    ensures Total(g, term) > 0.0
    decreases |g|
  {
    var init, last := g[..|g| - 1], g[|g| - 1];
    if f in init {
      TotalPositive(init, term, f);
    } else {
      assert f == last;
      TotalNonNegative(init, term);
    }
  }

  lemma {:induction false} TotalNonNegative(g: seq<Forecast>, term: Forecast -> real)
    requires forall x :: term(x) >= 0.0
    ensures Total(g, term) >= 0.0
    decreases |g|
  {
    if g != [] { TotalNonNegative(g[..|g| - 1], term); }
  }

  lemma SpreadNeverNegative(m: real)
    ensures forall x :: Spread(m)(x) >= 0.0
  {
    forall x ensures Spread(m)(x) >= 0.0 {
      SquareNotNegative(x.p - m);
    }
  }

  /** A bucket with two different forecasts varies. */
  lemma TwoValuesVary(g: seq<Forecast>, x: Forecast, y: Forecast)
    requires x in g && y in g && x.p != y.p
    ensures ForecastVariation(g) > 0.0
  {
    var m := MeanForecast(g);
    var off := if x.p != m then x else y;
    SpreadNeverNegative(m);
    SquareNotZero(off.p - m, Spread(m)(off));
    TotalPositive(g, Spread(m), off);
  }

  lemma {:induction false} SumPositive(s: seq<real>, b: nat)
    requires b < |s| && s[b] > 0.0 && forall i :: 0 <= i < |s| ==> s[i] >= 0.0
    ensures Sum(s) > 0.0
    decreases |s|
  {
    if b > 0 {
      SumPositive(s[1..], b - 1);
    } else {
      SumNonNegative(s[1..]);
    }
  }

  /** When nothing happened there is nothing to vary with. */
  lemma NothingHappened(g: seq<Forecast>)
    requires forall f :: f in g ==> f.o == 0.0
    ensures Covariation(g) == 0.0
  {
    if g != [] {
      NoTerms(g, O);
      assert Rate(g) == 0.0;
      NoTerms(g, CoSpread(MeanForecast(g), 0.0));
    }
  }

  lemma VariationNotNegative(g: seq<Forecast>)
    ensures ForecastVariation(g) >= 0.0
  {
    if g != [] {
      SpreadNeverNegative(MeanForecast(g));
      TotalNonNegative(g, Spread(MeanForecast(g)));
    }
  }

  lemma VariationAdds(fs: seq<Forecast>, k: nat, x: Forecast, y: Forecast)
    requires AllSound(fs) && k > 0
    requires x in fs && y in fs && Probable(x.p) && Probable(y.p) && BucketIndex(x.p, k) == BucketIndex(y.p, k) && x.p != y.p
    ensures OverBuckets(fs, k, ForecastVariation) > 0.0
  {
    var v := PerBucket(fs, k, ForecastVariation);
    forall b | 0 <= b < k ensures v[b] >= 0.0 {
      VariationNotNegative(Group(fs, k, b));
    }
    var b := BucketIndex(x.p, k);
    GroupMembers(fs, k, b);
    TwoValuesVary(Group(fs, k, b), x, y);
    SumPositive(v, b);
  }

  lemma NoCovariation(fs: seq<Forecast>, k: nat)
    requires AllSound(fs) && k > 0 && forall f :: f in fs ==> f.o == 0.0
    ensures OverBuckets(fs, k, Covariation) == 0.0
  {
    var c := PerBucket(fs, k, Covariation);
    forall b | 0 <= b < k ensures c[b] == 0.0 {
      GroupMembers(fs, k, b);
      NothingHappened(Group(fs, k, b));
    }
    SumZeros(c);
  }

  /** If nothing happened, the parts fall short by the variance of any bucket with two predictions in it. */
  lemma TwoPredictionsFallShort(fs: seq<Forecast>, k: nat, x: Forecast, y: Forecast)
    requires AllSound(fs) && fs != [] && k > 0 && forall f :: f in fs ==> f.o == 0.0
    requires x in fs && y in fs && Probable(x.p) && Probable(y.p) && BucketIndex(x.p, k) == BucketIndex(y.p, k) && x.p != y.p
    ensures !ThreePartsHold(fs, k)
  {
    VariationAdds(fs, k, x, y);
    NoCovariation(fs, k);
    FallsShort(fs, k, OverBuckets(fs, k, ForecastVariation));
  }

  lemma FallsShort(fs: seq<Forecast>, k: nat, v: real)
    requires AllSound(fs) && fs != [] && k > 0
    requires v == OverBuckets(fs, k, ForecastVariation) > 0.0 && OverBuckets(fs, k, Covariation) == 0.0
    ensures !ThreePartsHold(fs, k)
  {
    PositiveShare(v, |fs| as real);
    ThreePartsExactly(fs, k);
  }

  lemma PositiveShare(v: real, n: real)
    requires v > 0.0 && n > 0.0
    ensures v / n > 0.0
  {
    QuotientTimes(v, n);
    var x := v / n;
    if x <= 0.0 { ProductNonNegative(-x, n); }
  }

  /**
    * The three-part identity, from the predictions alone: it holds whatever the outcomes turn out
    * to be if and only if no two different predictions share a bucket.
    */
  lemma ThreePartsForAllOutcomes(predictions: seq<real>, k: nat)
    requires AllProbable(predictions) && predictions != [] && k > 0
    ensures (forall outcomes: seq<bool> :: |outcomes| == |predictions| ==>
        AllSound(Paired(predictions, outcomes)) && ThreePartsHold(Paired(predictions, outcomes), k))
      <==> OnePredictionPerBucket(predictions, k)
  {
    if OnePredictionPerBucket(predictions, k) {
      forall outcomes: seq<bool> | |outcomes| == |predictions|
        ensures AllSound(Paired(predictions, outcomes)) && ThreePartsHold(Paired(predictions, outcomes), k)
      {
        ThreePartsExactly(Paired(predictions, outcomes), k);
      }
    } else {
      var i, j :| 0 <= i < |predictions| && 0 <= j < |predictions|
        && BucketIndex(predictions[i], k) == BucketIndex(predictions[j], k) && predictions[i] != predictions[j];
      var outcomes := seq(|predictions|, _ => false);
      var fs := Paired(predictions, outcomes);
      assert AllSound(fs);
      assert fs[i] in fs && fs[j] in fs;
      TwoPredictionsFallShort(fs, k, fs[i], fs[j]);
    }
  }

  // ---- How large the residual can be ----------------------------------------------------------

  /** Every forecast of a bucket lies in an interval of width 1/k. */
  lemma BucketIsNarrow(p: real, k: nat, w: real)
    requires Probable(p) && k > 0 && w * k as real == 1.0
    ensures var lo := Times(BucketIndex(p, k) as real, w); lo <= p <= lo + w
  {
    var b, n := BucketIndex(p, k) as real, k as real;
    assert b <= p * n <= b + 1.0;
    if w <= 0.0 { ProductNonNegative(-w, n); }
    ProductMonotone(b, p * n, w);
    ProductMonotone(p * n, b + 1.0, w);
    assert p * n * w == p * (w * n);
    Distribute(b, 1.0, w);
  }

  lemma SquareIsSmall(x: real, w: real)
    requires -w <= x <= w
    ensures 0.0 <= x * x <= w * w
  {
    ProductNonNegative(w - x, w + x);
    assert (w - x) * (w + x) == w * w - x * x;
    if x >= 0.0 { ProductNonNegative(x, x); } else { ProductNonNegative(-x, -x); }
  }

  lemma ProductIsSmall(x: real, y: real, w: real)
    requires -w <= x <= w && -1.0 <= y <= 1.0
    ensures -w <= x * y <= w
  {
    var xy := x * y;
    ProductNonNegative(w - x, 1.0 + y);
    ProductNonNegative(w + x, 1.0 - y);
    ProductNonNegative(w + x, 1.0 + y);
    ProductNonNegative(w - x, 1.0 - y);
    var wy := w * y;
    assert (w - x) * (1.0 + y) == w - x + wy - xy;
    assert (w + x) * (1.0 - y) == w + x - wy - xy;
    assert (w + x) * (1.0 + y) == w + x + wy + xy;
    assert (w - x) * (1.0 - y) == w - x - wy + xy;
  }

  function Leftover(x: real, y: real): real { x * x - 2.0 * (x * y) }

  function Slack(w: real): real { w * w + 2.0 * w }

  lemma TermIsSmall(x: real, y: real, w: real)
    requires -w <= x <= w && -1.0 <= y <= 1.0
    ensures -Slack(w) <= Leftover(x, y) <= Slack(w)
  {
    SquareIsSmall(x, w);
    ProductIsSmall(x, y, w);
  }

  function Residual(m: real, q: real): Forecast -> real {
    (f: Forecast) => Leftover(f.p - m, f.o - q)
  }

  lemma {:induction false} BucketResidual(fs: seq<Forecast>, k: nat, b: nat, w: real)
    requires AllSound(fs) && k > 0 && b < k && w * k as real == 1.0
    ensures var g := Group(fs, k, b);
      Times(|g| as real, -Slack(w)) <= ForecastVariation(g) - 2.0 * Covariation(g) <= Times(|g| as real, Slack(w))
  {
    var g := Group(fs, k, b);
    if g != [] {
      var lo :| lo == Times(b as real, w);
      forall f | f in g ensures lo <= f.p <= lo + w && 0.0 <= f.o <= 1.0 {
        GroupMembers(fs, k, b);
        BucketIsNarrow(f.p, k, w);
      }
      BucketResidualAt(g, lo, w);
    }
  }

  lemma BucketResidualAt(g: seq<Forecast>, lo: real, w: real)
    requires g != [] && forall f :: f in g ==> lo <= f.p <= lo + w && 0.0 <= f.o <= 1.0
    ensures var c := Slack(w);
      Times(|g| as real, -c) <= ForecastVariation(g) - 2.0 * Covariation(g) <= Times(|g| as real, c)
  {
    TotalWithin(g, P, lo, lo + w);
    TotalWithin(g, O, 0.0, 1.0);
    QuotientWithin(Total(g, P), |g| as real, lo, lo + w);
    QuotientWithin(Total(g, O), |g| as real, 0.0, 1.0);
    ResidualAt(g, MeanForecast(g), Rate(g), lo, w);
  }

  lemma {:induction false} ResidualAt(g: seq<Forecast>, m: real, q: real, lo: real, w: real)
    requires lo <= m <= lo + w && 0.0 <= q <= 1.0
    requires forall f :: f in g ==> lo <= f.p <= lo + w && 0.0 <= f.o <= 1.0
    ensures var c := Slack(w);
      Times(|g| as real, -c) <= Total(g, Spread(m)) - 2.0 * Total(g, CoSpread(m, q)) <= Times(|g| as real, c)
  {
    var c := Slack(w);
    forall f | f in g ensures -c <= Residual(m, q)(f) <= c {
      TermIsSmall(f.p - m, f.o - q, w);
    }
    TotalWithin(g, Residual(m, q), -c, c);
    TotalsCombine(g, Residual(m, q), Spread(m), CoSpread(m, q), Nothing, Nothing);
    NothingTotals(g);
  }

  lemma {:induction false} SumsWithin(v: seq<real>, u: seq<real>, n: seq<real>, c: real)
    requires |v| == |u| == |n|
    requires forall i :: 0 <= i < |v| ==> Times(n[i], -c) <= v[i] - 2.0 * u[i] <= Times(n[i], c)
    ensures Times(Sum(n), -c) <= Sum(v) - 2.0 * Sum(u) <= Times(Sum(n), c)
    decreases |v|
  {
    if v != [] {
      SumsWithin(v[1..], u[1..], n[1..], c);
      TimesAdd(n[0], Sum(n[1..]), c);
      TimesAdd(n[0], Sum(n[1..]), -c);
    }
  }

  function One(f: Forecast): real { 1.0 }

  lemma {:induction false} OnesCount(g: seq<Forecast>)
    ensures Total(g, One) == |g| as real
    decreases |g|
  {
    if g != [] { OnesCount(g[..|g| - 1]); }
  }

  /**
    * The residual is a property of the binning: with k buckets of width w = 1/k it never exceeds
    * w * w + 2 * w in magnitude, so it vanishes as the buckets narrow.
    */
  lemma ResidualShrinks(fs: seq<Forecast>, k: nat, w: real)
    requires AllSound(fs) && fs != [] && k > 0 && w * k as real == 1.0
    ensures var d := Decomposition(fs, k);
      AbsR(Score(fs) - (d.reliability - d.resolution + d.uncertainty)) <= Slack(w)
  {
    ScoreIsPartsAndResidual(fs, k);
    var c := Slack(w);
    var v, u, n := PerBucket(fs, k, ForecastVariation), PerBucket(fs, k, Covariation), PerBucket(fs, k, TotalOf(One));
    BucketsPartition(fs, k, One);
    OnesCount(fs);
    forall b | 0 <= b < k ensures Times(n[b], -c) <= v[b] - 2.0 * u[b] <= Times(n[b], c) {
      OnesCount(Group(fs, k, b));
      BucketResidual(fs, k, b, w);
    }
    SumsWithin(v, u, n, c);
    ResidualPerForecast(|fs| as real, Sum(v), Sum(u), c);
  }

  lemma ResidualPerForecast(n: real, v: real, u: real, c: real)
    requires n > 0.0 && Times(n, -c) <= v - 2.0 * u <= Times(n, c)
    ensures -c <= v / n - 2.0 * (u / n) <= c
  {
    QuotientWithin(v - 2.0 * u, n, -c, c);
    assert (v - 2.0 * u) / n == v / n - 2.0 * (u / n);
  }

  // ---- What the parts can be --------------------------------------------------------------------

  lemma GapNonNegative(n: real, a: real, b: real)
    requires n >= 0.0
    ensures Gap(n, a, b) >= 0.0
  {
    var z := a - b;
    if z >= 0.0 { ProductNonNegative(z, z); } else { ProductNonNegative(-z, -z); }
    ProductNonNegative(n, z * z);
  }

  lemma {:induction false} SpreadNonNegative(g: seq<Forecast>, q: real)
    ensures Total(g, OutcomeSpread(q)) >= 0.0
    decreases |g|
  {
    if g != [] {
      SpreadNonNegative(g[..|g| - 1], q);
      GapNonNegative(1.0, g[|g| - 1].o, q);
    }
  }

  lemma {:induction false} SumNonNegative(s: seq<real>)
    requires forall i :: 0 <= i < |s| ==> s[i] >= 0.0
    ensures Sum(s) >= 0.0
  {
    if s != [] { SumNonNegative(s[1..]); }
  }

  /** A detector can resolve no more than the uncertainty of the markets it was given. */
  lemma ResolutionWithinUncertainty(fs: seq<Forecast>, k: nat)
    requires AllSound(fs) && fs != [] && k > 0
    ensures var d := Decomposition(fs, k); d.reliability >= 0.0 && 0.0 <= d.resolution <= d.uncertainty
  {
    var base, n := Rate(fs), |fs| as real;
    forall b | 0 <= b < k
      ensures PerBucket(fs, k, Unreliability)[b] >= 0.0 && PerBucket(fs, k, SeparationFrom(base))[b] >= 0.0
        && PerBucket(fs, k, OutcomeVariation)[b] >= 0.0
    {
      BucketPartsNonNegative(Group(fs, k, b), base);
    }
    SumNonNegative(PerBucket(fs, k, Unreliability));
    SumNonNegative(PerBucket(fs, k, SeparationFrom(base)));
    SumNonNegative(PerBucket(fs, k, OutcomeVariation));
    OutcomesOverBuckets(fs, k, base);
    BinarySpread(fs);
    ShareOf(n, OverBuckets(fs, k, Unreliability), OverBuckets(fs, k, SeparationFrom(base)), Variance(base));
  }

  lemma BucketPartsNonNegative(g: seq<Forecast>, base: real)
    ensures Unreliability(g) >= 0.0 && Separation(g, base) >= 0.0 && OutcomeVariation(g) >= 0.0
  {
    if g != [] {
      GapNonNegative(|g| as real, MeanForecast(g), Rate(g));
      GapNonNegative(|g| as real, Rate(g), base);
      SpreadNonNegative(g, Rate(g));
    }
  }

  lemma ShareOf(n: real, rel: real, res: real, unc: real)
    requires n > 0.0 && rel >= 0.0 && 0.0 <= res <= Times(n, unc)
    ensures rel / n >= 0.0 && 0.0 <= res / n <= unc
  {
    QuotientWithin(res, n, 0.0, unc);
    QuotientTimes(rel, n);
    var x := rel / n;
    if x < 0.0 { ProductPositive(-x, n); }
  }

  // ---- The two scores, as computed ----------------------------------------------------------------

  method BrierScore(predictions: seq<real>, outcomes: seq<bool>) returns (r: Result<real, ForecastError>)
    ensures r.Ok? <==> |predictions| == |outcomes| > 0 && forall i :: 0 <= i < |predictions| ==> Probable(predictions[i])
    ensures r.Ok? ==> forall fs :: Pairs(predictions, outcomes, fs) ==> fs != [] && r.value == Score(fs)
    ensures r.Ok? ==> r.value * |predictions| as real == Sum(Misses(predictions, outcomes))
  {
    var v := ValidateForecasts(predictions, outcomes);
    if v.Err? {
      return Err(v.error);
    }
    PairsAreUnique(predictions, outcomes, v.value);
    ScoreIsMisses(predictions, outcomes, v.value);
    r := Ok(Score(v.value));
  }

  /** The squared distance of each prediction from what happened: from one if it did, from zero if not. */
  function Misses(predictions: seq<real>, outcomes: seq<bool>): (r: seq<real>)
    requires |predictions| == |outcomes|
    ensures |r| == |predictions| && forall i :: 0 <= i < |r| ==> r[i] == Miss(predictions[i], outcomes[i])
  {
    seq(|predictions|, i requires 0 <= i < |predictions| => Miss(predictions[i], outcomes[i]))
  }

  function Miss(p: real, o: bool): real {
    if o then (1.0 - p) * (1.0 - p) else p * p
  }

  lemma MissOne(p: real, o: bool)
    ensures SquaredError(Forecast(p, Observed(o))) == Miss(p, o)
  {
  }

  lemma {:induction false} TotalIsMisses(predictions: seq<real>, outcomes: seq<bool>, fs: seq<Forecast>)
    requires Pairs(predictions, outcomes, fs)
    ensures Total(fs, SquaredError) == Sum(Misses(predictions, outcomes))
  {
    if fs != [] {
      var n := |fs| - 1;
      var earlier, last := Misses(predictions[..n], outcomes[..n]), Misses(predictions, outcomes)[n];
      TotalIsMisses(predictions[..n], outcomes[..n], fs[..n]);
      MissOne(predictions[n], outcomes[n]);
      assert Misses(predictions, outcomes) == earlier + [last];
      SumAppend(earlier, last);
    }
  }

  lemma ScoreIsMisses(predictions: seq<real>, outcomes: seq<bool>, fs: seq<Forecast>)
    requires Pairs(predictions, outcomes, fs) && fs != []
    ensures Score(fs) * |predictions| as real == Sum(Misses(predictions, outcomes))
  {
    TotalIsMisses(predictions, outcomes, fs);
    QuotientTimes(Total(fs, SquaredError), |fs| as real);
  }

  lemma PairsAreUnique(predictions: seq<real>, outcomes: seq<bool>, fs: seq<Forecast>)
    requires Pairs(predictions, outcomes, fs)
    ensures forall gs :: Pairs(predictions, outcomes, gs) ==> gs == fs
  {
    forall gs | Pairs(predictions, outcomes, gs) ensures gs == fs {
      assert forall i :: 0 <= i < |fs| ==> gs[i] == fs[i];
    }
  }

  ghost predicate Tallied(fs: seq<Forecast>, k: nat, sums: seq<real>, hits: seq<real>, counts: seq<int>) {
    k > 0 && AllSound(fs) && |sums| == |hits| == |counts| == k
    && forall b :: 0 <= b < k ==>
      sums[b] == Total(Group(fs, k, b), P) && hits[b] == Total(Group(fs, k, b), O) && counts[b] == |Group(fs, k, b)|
  }

  lemma TallyNext(fs: seq<Forecast>, f: Forecast, k: nat, sums: seq<real>, hits: seq<real>, counts: seq<int>)
    requires Tallied(fs, k, sums, hits, counts) && AllSound([f]) && Probable(f.p)
    ensures var i := BucketIndex(f.p, k);
      Tallied(fs + [f], k, sums[i := sums[i] + f.p], hits[i := hits[i] + f.o], counts[i := counts[i] + 1])
  {
    forall b | 0 <= b < k
      ensures Group(fs + [f], k, b) == Group(fs, k, b) + if BucketIndex(f.p, k) == b then [f] else []
      ensures Total(Group(fs + [f], k, b), P) == Total(Group(fs, k, b), P) + if BucketIndex(f.p, k) == b then f.p else 0.0
      ensures Total(Group(fs + [f], k, b), O) == Total(Group(fs, k, b), O) + if BucketIndex(f.p, k) == b then f.o else 0.0
    {
      GroupSnoc(fs, f, k, b);
      NextInOneBucket(fs, f, k, P, b);
      NextInOneBucket(fs, f, k, O, b);
    }
  }

  lemma TallyPrefixNext(fs: seq<Forecast>, i: nat, k: nat, b: nat, s: seq<real>, h: seq<real>, c: seq<int>)
    requires AllSound(fs) && i < |fs| && Tallied(fs[..i], k, s, h, c)
    requires b == BucketIndex(fs[i].p, k)
    ensures Tallied(fs[..i + 1], k, s[b := s[b] + fs[i].p], h[b := h[b] + fs[i].o], c[b := c[b] + 1])
  {
    assert fs[..i + 1] == fs[..i] + [fs[i]];
    assert AllSound([fs[i]]);
    TallyNext(fs[..i], fs[i], k, s, h, c);
  }

  method TallyOne(sums: array<real>, hits: array<real>, counts: array<int>, fs: seq<Forecast>, i: nat, k: nat)
    requires AllSound(fs) && i < |fs| && sums != hits
    requires Tallied(fs[..i], k, sums[..], hits[..], counts[..])
    modifies sums, hits, counts
    ensures Tallied(fs[..i + 1], k, sums[..], hits[..], counts[..])
  {
    var f := fs[i];
    var index := BucketIndex(f.p, k);
    ghost var s, h, c := sums[..], hits[..], counts[..];
    TallyPrefixNext(fs, i, k, index, s, h, c);
    sums[index] := sums[index] + f.p;
    hits[index] := hits[index] + f.o;
    counts[index] := counts[index] + 1;
    assert sums[..] == s[index := s[index] + f.p];
    assert hits[..] == h[index := h[index] + f.o];
    assert counts[..] == c[index := c[index] + 1];
  }

  method TallyBuckets(fs: seq<Forecast>, k: nat) returns (sums: array<real>, hits: array<real>, counts: array<int>)
    requires AllSound(fs) && k > 0
    ensures Tallied(fs, k, sums[..], hits[..], counts[..])
  {
    sums := new real[k](_ => 0.0);
    hits := new real[k](_ => 0.0);
    counts := new int[k](_ => 0);
    for i := 0 to |fs|
      invariant sums != hits && fresh(sums) && fresh(hits) && fresh(counts)
      invariant Tallied(fs[..i], k, sums[..], hits[..], counts[..])
    {
      TallyOne(sums, hits, counts, fs, i, k);
    }
    assert fs[..|fs|] == fs;
  }

  lemma SumNext(s: seq<real>, i: nat)
    requires i < |s|
    ensures Sum(s[..i + 1]) == Sum(s[..i]) + s[i]
  {
    assert s[..i + 1] == s[..i] + [s[i]];
    SumAppend(s[..i], s[i]);
  }

  method BrierDecomposition(predictions: seq<real>, outcomes: seq<bool>, buckets: int) returns (r: Result<Parts, ForecastError>)
    ensures r.Ok? <==> buckets >= 1 && |predictions| == |outcomes| > 0 && forall i :: 0 <= i < |predictions| ==> Probable(predictions[i])
    ensures buckets < 1 ==> r == Err(BadBuckets(buckets))
    ensures r.Ok? ==> forall fs :: Pairs(predictions, outcomes, fs) ==>
      AllSound(fs) && fs != [] && r.value == Decomposition(fs, buckets)
  {
    if buckets < 1 {
      return Err(BadBuckets(buckets));
    }
    var v := ValidateForecasts(predictions, outcomes);
    if v.Err? {
      return Err(v.error);
    }
    var fs := v.value;
    PairsAreUnique(predictions, outcomes, fs);
    var parts := Decompose(fs, buckets);
    r := Ok(parts);
  }

  lemma TallyGives(fs: seq<Forecast>, k: nat, sums: seq<real>, hits: seq<real>, counts: seq<int>, b: nat, base: real)
    requires Tallied(fs, k, sums, hits, counts) && b < k
    ensures counts[b] == 0 ==> PerBucket(fs, k, Unreliability)[b] == PerBucket(fs, k, SeparationFrom(base))[b] == 0.0
    ensures counts[b] != 0 ==>
      var n := counts[b] as real;
      PerBucket(fs, k, Unreliability)[b] == Gap(n, sums[b] / n, hits[b] / n)
      && PerBucket(fs, k, SeparationFrom(base))[b] == Gap(n, hits[b] / n, base)
  {
    var g := Group(fs, k, b);
    assert counts[b] == |g| && sums[b] == Total(g, P) && hits[b] == Total(g, O);
  }

  method Decompose(fs: seq<Forecast>, buckets: nat) returns (parts: Parts)
    requires AllSound(fs) && fs != [] && buckets > 0
    ensures parts == Decomposition(fs, buckets)
  {
    var n := |fs| as real;
    var sums, hits, counts := TallyBuckets(fs, buckets);
    var baseRate := Rate(fs);
    var reliability, resolution := 0.0, 0.0;
    ghost var s, h, c := sums[..], hits[..], counts[..];
    ghost var rel, res := PerBucket(fs, buckets, Unreliability), PerBucket(fs, buckets, SeparationFrom(baseRate));
    for index := 0 to buckets
      invariant sums[..] == s && hits[..] == h && counts[..] == c
      invariant reliability == Sum(rel[..index]) && resolution == Sum(res[..index])
    {
      SumNext(rel, index);
      SumNext(res, index);
      TallyGives(fs, buckets, s, h, c, index, baseRate);
      var count := counts[index];
      if count != 0 {
        var meanForecast := sums[index] / count as real;
        var observedRate := hits[index] / count as real;
        reliability := reliability + Gap(count as real, meanForecast, observedRate);
        resolution := resolution + Gap(count as real, observedRate, baseRate);
      }
    }
    assert rel[..buckets] == rel && res[..buckets] == res;
    parts := Parts(reliability / n, resolution / n, Variance(baseRate), |fs|);
  }
}
