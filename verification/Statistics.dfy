/**
  * Quantiles of a sorted sample, and rounding reported money to a centicent
  * (backend/app/core/statistics.py, backend/app/backtest/stats.py).
  */
module Statistics {
  import opened Prelude

  datatype StatError =
    | EmptySample
    | NotAFraction(q: real)
    | BadConfidence(confidence: real)
    | NoResamples
    | UnknownMethod(name: string)
    | BadFloor(minTrades: int)

  function Itself(x: real): real { x }

  ghost predicate Ascending(s: seq<real>) {
    forall i, j :: 0 <= i < j < |s| ==> s[i] <= s[j]
  }

  // ---- Interpolation between ranks -----------------------------------------------------

  function Mix(a: real, b: real, w: real): real {
    a * (1.0 - w) + b * w
  }

  lemma MixBetween(a: real, b: real, w: real)
    requires a <= b && 0.0 <= w <= 1.0
    ensures a <= Mix(a, b, w) <= b
  {
    ProductNonNegative(b - a, w);
    ProductNonNegative(b - a, 1.0 - w);
    assert Mix(a, b, w) == a + (b - a) * w;
    assert Mix(a, b, w) == b - (b - a) * (1.0 - w);
  }

  lemma MixFurther(a: real, b: real, v: real, w: real)
    requires a <= b && v <= w
    ensures Mix(a, b, v) <= Mix(a, b, w)
  {
    ProductNonNegative(b - a, w - v);
    assert Mix(a, b, w) - Mix(a, b, v) == (b - a) * (w - v);
  }

  lemma MixHigher(a: real, b: real, c: real, d: real, w: real)
    requires a <= c && b <= d && 0.0 <= w <= 1.0
    ensures Mix(a, b, w) <= Mix(c, d, w)
  {
    ProductNonNegative(c - a, 1.0 - w);
    ProductNonNegative(d - b, w);
    assert Mix(c, d, w) - Mix(a, b, w) == (c - a) * (1.0 - w) + (d - b) * w;
  }

  predicate Inside(x: real, n: nat) {
    n > 0 && 0.0 <= x <= (n - 1) as real
  }

  /** The value at a fractional rank of a sample. */
  function AtRank(s: seq<real>, x: real): real
    requires Inside(x, |s|)
  {
    if x.Floor == Ceiling(x) then s[x.Floor] else Mix(s[x.Floor], s[Ceiling(x)], x - x.Floor as real)
  }

  lemma AtRankBetween(s: seq<real>, x: real)
    requires Inside(x, |s|) && Ascending(s)
    ensures s[x.Floor] <= AtRank(s, x) <= s[Ceiling(x)]
  {
    if x.Floor != Ceiling(x) {
      MixBetween(s[x.Floor], s[Ceiling(x)], x - x.Floor as real);
    }
  }

  lemma AtRankFurther(s: seq<real>, x: real, y: real)
    requires Inside(x, |s|) && Inside(y, |s|) && x <= y && Ascending(s)
    ensures AtRank(s, x) <= AtRank(s, y)
  {
    AtRankBetween(s, x);
    AtRankBetween(s, y);
    if x.Floor != y.Floor {
      assert Ceiling(x) <= y.Floor;
      assert s[Ceiling(x)] <= s[y.Floor];
    } else if x.Floor != Ceiling(x) {
      assert Ceiling(y) == Ceiling(x);
      MixFurther(s[x.Floor], s[Ceiling(x)], x - x.Floor as real, y - x.Floor as real);
    }
  }

  lemma AtRankHigher(s: seq<real>, t: seq<real>, x: real)
    requires |s| == |t| && Inside(x, |s|) && forall i :: 0 <= i < |s| ==> s[i] <= t[i]
    ensures AtRank(s, x) <= AtRank(t, x)
  {
    if x.Floor != Ceiling(x) {
      MixHigher(s[x.Floor], s[Ceiling(x)], t[x.Floor], t[Ceiling(x)], x - x.Floor as real);
    }
  }

  function Position(q: real, n: nat): (x: real)
    requires 0.0 <= q <= 1.0 && n > 0
    ensures Inside(x, n)
  {
    ProductNonNegative(q, (n - 1) as real);
    ProductMonotone(q, 1.0, (n - 1) as real);
    q * (n - 1) as real
  }

  lemma PositionFurther(p: real, q: real, n: nat)
    requires 0.0 <= p <= q <= 1.0 && n > 0
    ensures Position(p, n) <= Position(q, n)
  {
    var m := (n - 1) as real;
    ProductNonNegative(q - p, m);
    assert Position(q, n) - Position(p, n) == (q - p) * m;
  }

  function PercentileSorted(s: seq<real>, q: real): Result<real, StatError> {
    if s == [] then Err(EmptySample)
    else if !(0.0 <= q <= 1.0) then Err(NotAFraction(q))
    else if |s| == 1 then Ok(s[0])
    else Ok(AtRank(s, Position(q, |s|)))
  }

  /**
    * A quantile stays inside the sample, never falls as `q` grows, and reads the
    * smallest and the largest value off at 0 and 1.
    */
  lemma PercentileStaysInside(s: seq<real>, p: real, q: real)
    requires s != [] && 0.0 <= p <= q <= 1.0 && Ascending(s)
    ensures PercentileSorted(s, 0.0) == Ok(s[0])
    ensures PercentileSorted(s, 1.0) == Ok(s[|s| - 1])
    ensures PercentileSorted(s, p).Ok? && PercentileSorted(s, q).Ok?
    ensures s[0] <= PercentileSorted(s, p).value <= PercentileSorted(s, q).value <= s[|s| - 1]
  {
    if |s| > 1 {
      var n := |s|;
      PositionFurther(p, q, n);
      assert Position(0.0, n) == 0.0 && Position(1.0, n) == (n - 1) as real;
      AtRankFurther(s, 0.0, Position(p, n));
      AtRankFurther(s, Position(p, n), Position(q, n));
      AtRankFurther(s, Position(q, n), (n - 1) as real);
    }
  }

  /** The quantile at `k / (n - 1)` is the k-th value itself: nothing is interpolated there. */
  lemma PercentileHitsTheRanks(s: seq<real>, k: nat)
    requires |s| > 1 && k < |s|
    ensures 0.0 <= k as real / (|s| - 1) as real <= 1.0
    ensures PercentileSorted(s, k as real / (|s| - 1) as real) == Ok(s[k])
  {
    var m := (|s| - 1) as real;
    var q := k as real / m;
    QuotientTimes(k as real, m);
    assert q * m == k as real;
    if q < 0.0 { ProductPositive(-q, m); }
    if q > 1.0 { ProductPositive(q - 1.0, m); }
    assert Position(q, |s|) == k as real;
  }

  lemma AtRankIsLinear(s: seq<real>, x: real, k: nat, w: real)
    requires k + 1 < |s| && 0.0 <= w < 1.0 && x == k as real + w
    ensures Inside(x, |s|) && AtRank(s, x) == s[k] + (s[k + 1] - s[k]) * w
  {
    assert x.Floor == k;
    MixIsLinear(s[k], s[k + 1], w);
    assert Ceiling(x) == if w == 0.0 then k else k + 1;
  }

  /** Between the k-th and the next it moves in proportion: `w` of the way there is `w` of the difference. */
  lemma PercentileIsLinear(s: seq<real>, q: real, k: nat, w: real)
    requires k + 1 < |s| && 0.0 <= q <= 1.0 && 0.0 <= w < 1.0 && q * (|s| - 1) as real == k as real + w
    ensures PercentileSorted(s, q) == Ok(s[k] + (s[k + 1] - s[k]) * w)
  {
    AtRankIsLinear(s, Position(q, |s|), k, w);
  }

  lemma MixIsLinear(a: real, b: real, w: real)
    ensures Mix(a, b, w) == a + (b - a) * w
    ensures w == 0.0 ==> a + (b - a) * w == a
  {
  }

  // ---- Quantising to a centicent --------------------------------------------------------

  /** The decimal default: to the nearest integer, a tie going to the even one. */
  function RoundHalfEven(y: real): int {
    var f := y.Floor;
    var rest := y - f as real;
    if rest < 0.5 then f
    else if rest > 0.5 then f + 1
    else if f % 2 == 0 then f
    else f + 1
  }

  /** No integer is nearer, and a tie goes to the even one. */
  lemma RoundHalfEvenIsNearest(y: real, k: int)
    ensures AbsR(RoundHalfEven(y) as real - y) <= AbsR(k as real - y)
    ensures AbsR(RoundHalfEven(y) as real - y) == 0.5 ==> RoundHalfEven(y) % 2 == 0
  {
    assert k <= y.Floor || k >= y.Floor + 1;
  }

  lemma RoundHalfEvenMonotone(y: real, z: real)
    requires y <= z
    ensures RoundHalfEven(y) <= RoundHalfEven(z)
  {
    if y.Floor != z.Floor {
      assert RoundHalfEven(y) <= y.Floor + 1 <= z.Floor <= RoundHalfEven(z);
    }
  }

  function Quantize(cents: real): real {
    RoundHalfEven(cents * 10000.0) as real / 10000.0
  }

  /** Quantising goes to a nearest whole number of ten-thousandths, and of two equally near to the even one. */
  lemma QuantizedIsNearest(cents: real, k: int) returns (n: int)
    ensures Quantize(cents) == n as real * 0.0001
    ensures AbsR(Quantize(cents) - cents) <= AbsR(k as real * 0.0001 - cents)
    ensures AbsR(Quantize(cents) - cents) == 0.00005 ==> n % 2 == 0
  {
    n := RoundHalfEven(cents * 10000.0);
    RoundHalfEvenIsNearest(cents * 10000.0, k);
  }

  lemma QuantizeMonotone(a: real, b: real)
    requires a <= b
    ensures Quantize(a) <= Quantize(b)
  {
    RoundHalfEvenMonotone(a * 10000.0, b * 10000.0);
  }

  /** A figure reads as positive only past half a centicent, and as negative only below minus that. */
  lemma QuantizedSign(cents: real)
    ensures Quantize(cents) > 0.0 <==> cents > 0.00005
    ensures Quantize(cents) < 0.0 <==> cents < -0.00005
  {
    var y := cents * 10000.0;
    RoundHalfEvenIsNearest(y, 0);
    if cents > 0.00005 {
      assert y > 0.5;
      assert RoundHalfEven(y) >= 1;
    } else {
      assert y <= 0.5;
      RoundHalfEvenMonotone(y, 0.5);
      assert (0.5 as real).Floor == 0;
    }
    if cents < -0.00005 {
      assert RoundHalfEven(y) <= -1;
    } else {
      RoundHalfEvenMonotone(-0.5, y);
      assert (-0.5 as real).Floor == -1;
      assert RoundHalfEven(-0.5) == 0;
    }
  }
}
