/**
  * The Wilson interval for a proportion, and the longshot calibration screen built on it
  * (backend/app/core/statistics.py, backend/app/detectors/longshot_calibration.py).
  * The square root is a parameter: any function whose values are non-negative roots.
  */
module Wilson {
  import opened Prelude

  ghost predicate IsSquareRoot(sqrt: real -> real) {
    forall x :: x >= 0.0 ==> sqrt(x) >= 0.0 && sqrt(x) * sqrt(x) == x
  }

  datatype Interval = Interval(low: real, high: real)

  function Radicand(p: real, n: real, z2: real): real
    requires n > 0.0
  {
    p * (1.0 - p) / n + z2 / (4.0 * (n * n))
  }

  function Denominator(m: real, z2: real): real
    requires m > 0.0
  {
    1.0 + z2 / m
  }

  function Center(p: real, m: real, z2: real): real
    requires m > 0.0 && Denominator(m, z2) != 0.0
  {
    (p + z2 / (2.0 * m)) / Denominator(m, z2)
  }

  function Half(m: real, z: real, z2: real, root: real): real
    requires m > 0.0 && Denominator(m, z2) != 0.0
  {
    z * root / Denominator(m, z2)
  }

  function WilsonInterval(successes: int, n: int, z: real, sqrt: real -> real): Option<Interval> {
    if n <= 0 || successes < 0 || successes > n then None
    else
      var m := n as real;
      var p := successes as real / m;
      var z2 := z * z;
      NonNegativeShare(z, m);
      var center := Center(p, m, z2);
      var half := Half(m, z, z2, sqrt(Radicand(p, m, z2)));
      Some(Interval(MaxR(0.0, center - half), MinR(1.0, center + half)))
  }

  lemma NonNegativeShare(z: real, m: real)
    requires m > 0.0
    ensures z * z >= 0.0 && z * z / m >= 0.0
  {
    if z >= 0.0 { ProductNonNegative(z, z); } else { ProductNonNegative(-z, -z); }
    var x := z * z;
    QuotientWithin(x, m, 0.0, x / m);
  }

  /** The two-sided score test of a rate at level z. */
  function ScoreGap(n: real, p: real, rate: real): real {
    n * ((p - rate) * (p - rate))
  }

  function ScoreBound(z: real, rate: real): real {
    z * z * (rate * (1.0 - rate))
  }

  predicate ScoreAccepts(n: real, p: real, z: real, rate: real) {
    ScoreGap(n, p, rate) <= ScoreBound(z, rate)
  }

  // ---- The quadratic behind the interval -----------------------------------------------------

  function SquareOf(x: real): real { x * x }

  /** In units of the denominator D = 1 + w, with w = z * z / n. */
  function CenterTimesD(p: real, w: real): real { p + w / 2.0 }

  function HalfSquaredTimesDD(p: real, w: real): real { w * (p * (1.0 - p)) + SquareOf(w) / 4.0 }

  function Deficit(p: real, w: real, rate: real): real {
    SquareOf(p - rate) - w * (rate * (1.0 - rate))
  }

  lemma Quadratic(p: real, w: real, rate: real)
    ensures SquareOf(rate * (1.0 + w) - CenterTimesD(p, w)) - HalfSquaredTimesDD(p, w) == (1.0 + w) * Deficit(p, w, rate)
  {
    var e, g, b := rate - p, rate - 0.5, rate * (1.0 - rate);
    assert rate * (1.0 + w) - CenterTimesD(p, w) == e + w * g;
    assert SquareOf(e + w * g) == e * e + 2.0 * w * (e * g) + (w * w) * (g * g);
    assert g * g == 0.25 - b;
    assert (w * w) * (0.25 - b) == (w * w) / 4.0 - (w * w) * b;
    assert 2.0 * (e * g) - p * (1.0 - p) == e * e - b;
    assert w * (2.0 * (e * g) - p * (1.0 - p)) == w * (e * e) - w * b;
    assert 2.0 * w * (e * g) == w * (2.0 * (e * g));
    assert w * (2.0 * (e * g)) - w * (p * (1.0 - p)) == w * (e * e) - w * b;
    assert SquareOf(p - rate) == e * e;
    assert (1.0 + w) * (e * e - w * b) == e * e - w * b + w * (e * e) - (w * w) * b;
  }

  lemma WithinSquare(x: real, h: real)
    requires h >= 0.0
    ensures -h <= x <= h <==> SquareOf(x) <= SquareOf(h)
  {
    var a, b :| a == h - x && b == h + x;
    assert SquareOf(h) - SquareOf(x) == a * b;
    if a < 0.0 {
      ProductPositive(-a, b);
      assert a * b == -((-a) * b);
    } else if b < 0.0 {
      ProductPositive(a, -b);
      assert a * b == -(a * (-b));
    } else {
      ProductNonNegative(a, b);
    }
  }

  lemma SignOfProduct(d: real, x: real)
    requires d > 0.0
    ensures d * x <= 0.0 <==> x <= 0.0
  {
    if x > 0.0 { ProductPositive(d, x); }
    if x <= 0.0 { ProductNonNegative(d, -x); assert d * x == -(d * (-x)); }
  }

  lemma ScaledBounds(d: real, center: real, half: real, rate: real)
    requires d > 0.0
    ensures center - half <= rate <= center + half <==> -(half * d) <= rate * d - center * d <= half * d
  {
    var x, y := rate - center - half, center - half - rate;
    SignOfProduct(d, x);
    SignOfProduct(d, y);
    assert d * x == rate * d - center * d - half * d;
    assert d * y == center * d - half * d - rate * d;
  }

  lemma ScaledDeficit(p: real, w: real, rate: real, x: real, h: real)
    requires w >= 0.0 && h >= 0.0
    requires x == rate * (1.0 + w) - CenterTimesD(p, w) && SquareOf(h) == HalfSquaredTimesDD(p, w)
    ensures -h <= x <= h <==> Deficit(p, w, rate) <= 0.0
  {
    Quadratic(p, w, rate);
    SignOfProduct(1.0 + w, Deficit(p, w, rate));
    WithinSquare(x, h);
  }

  /** center and half in units of D bound exactly the rates with no deficit. */
  lemma IntervalSolvesQuadratic(p: real, w: real, d: real, center: real, half: real, rate: real)
    requires w >= 0.0 && d == 1.0 + w && half >= 0.0
    requires center * d == CenterTimesD(p, w)
    requires SquareOf(half * d) == HalfSquaredTimesDD(p, w)
    ensures center - half <= rate <= center + half <==> Deficit(p, w, rate) <= 0.0
  {
    ProductNonNegative(half, d);
    ScaledBounds(d, center, half, rate);
    var x, h :| x == rate * d - center * d && h == half * d;
    ScaledDeficit(p, w, rate, x, h);
  }

  // ---- From the formula to the quadratic ------------------------------------------------------

  /** The score test, divided through by n. */
  lemma DeficitIsScore(n: real, p: real, z: real, w: real, rate: real)
    requires n > 0.0 && w * n == z * z
    ensures ScoreAccepts(n, p, z, rate) <==> Deficit(p, w, rate) <= 0.0
  {
    var s, b := SquareOf(p - rate), rate * (1.0 - rate);
    SignOfProduct(n, Deficit(p, w, rate));
    assert n * (s - w * b) == n * s - (w * n) * b;
  }

  lemma RadicandInUnits(p: real, n: real, z2: real, w: real)
    requires n > 0.0 && z2 == w * n
    ensures z2 * Radicand(p, n, z2) == HalfSquaredTimesDD(p, w)
  {
    var nn :| nn == n * n;
    SquarePositive(n, nn);
    var v := p * (1.0 - p);
    QuotientTimes(v, n);
    var a := v / n;
    assert (w * n) * a == w * (a * n);
    QuotientTimes(z2, 4.0 * nn);
    var c := z2 / (4.0 * nn);
    FourthTerm(c, n, w, z2);
    assert z2 * (a + c) == z2 * a + z2 * c;
  }

  lemma FourthTerm(c: real, n: real, w: real, z2: real)
    requires n > 0.0 && z2 == w * n && c * (4.0 * (n * n)) == z2
    ensures z2 * c == SquareOf(w) / 4.0
  {
    // n * (4 c n) = n * w, so 4 c n = w.
    var y := 4.0 * (c * n);
    assert n * (y - w) == c * (4.0 * (n * n)) - w * n;
    SignOfProduct(n, y - w);
    SignOfProduct(n, w - y);
    assert n * (w - y) == -(n * (y - w));
    assert y == w;
    assert z2 * c == w * (c * n);
  }

  lemma HalfInUnits(p: real, n: real, z: real, z2: real, w: real, root: real)
    requires n > 0.0 && z2 == z * z && z2 == w * n && root * root == Radicand(p, n, z2)
    ensures SquareOf(z * root) == HalfSquaredTimesDD(p, w)
  {
    RadicandInUnits(p, n, z2, w);
    assert SquareOf(z * root) == z2 * (root * root);
  }

  lemma CenterInUnits(p: real, n: real, z2: real, w: real)
    requires n > 0.0 && w == z2 / n
    ensures w * n == z2 && p + z2 / (2.0 * n) == CenterTimesD(p, w)
  {
    QuotientTimes(z2, n);
    QuotientTimes(z2, 2.0 * n);
    var y := z2 / (2.0 * n);
    assert n * (2.0 * y - w) == 2.0 * n * y - w * n;
    SignOfProduct(n, 2.0 * y - w);
    SignOfProduct(n, w - 2.0 * y);
    assert n * (w - 2.0 * y) == -(n * (2.0 * y - w));
  }

  /** The interval before clamping holds exactly the rates the score test accepts. */
  lemma UnclampedInvertsScoreTest(p: real, n: real, z: real, root: real, rate: real)
    requires n > 0.0 && z >= 0.0 && root >= 0.0 && root * root == Radicand(p, n, z * z)
    ensures Denominator(n, z * z) > 0.0 && Half(n, z, z * z, root) >= 0.0
    ensures var c, h := Center(p, n, z * z), Half(n, z, z * z, root);
      c - h <= rate <= c + h <==> ScoreAccepts(n, p, z, rate)
  {
    NonNegativeShare(z, n);
    var z2 :| z2 == z * z;
    var w :| w == z2 / n;
    CenterInUnits(p, n, z2, w);
    HalfInUnits(p, n, z, z2, w, root);
    var d := Denominator(n, z2);
    var zr :| zr == z * root;
    ProductNonNegative(z, root);
    Quotients(p + z2 / (2.0 * n), zr, d);
    IntervalSolvesQuadratic(p, w, d, Center(p, n, z2), Half(n, z, z2, root), rate);
    DeficitIsScore(n, p, z, w, rate);
  }

  lemma Quotients(a: real, b: real, d: real)
    requires d > 0.0 && b >= 0.0
    ensures a / d * d == a && b / d * d == b && b / d >= 0.0
  {
    QuotientTimes(a, d);
    QuotientTimes(b, d);
    var y := b / d;
    if y < 0.0 { ProductPositive(-y, d); }
  }

  /** Only rates between 0 and 1 can pass the test, when z is not 0. */
  lemma AcceptedRatesAreRates(n: real, p: real, z: real, rate: real)
    requires n > 0.0 && z > 0.0 && ScoreAccepts(n, p, z, rate)
    ensures 0.0 <= rate <= 1.0
  {
    WithinSquare(p - rate, 0.0);
    NonNegativeShare(p - rate, 1.0);
    ProductNonNegative(n, (p - rate) * (p - rate));
    var z2 :| z2 == z * z;
    SquarePositive(z, z2);
    if rate < 0.0 || rate > 1.0 {
      OutsideIsRejected(z2, rate);
    }
  }

  lemma OutsideIsRejected(z2: real, rate: real)
    requires z2 > 0.0 && (rate < 0.0 || rate > 1.0)
    ensures z2 * (rate * (1.0 - rate)) < 0.0
  {
    var b := rate * (1.0 - rate);
    if rate < 0.0 { ProductPositive(-rate, 1.0 - rate); assert b == -((-rate) * (1.0 - rate)); }
    if rate > 1.0 { ProductPositive(rate, rate - 1.0); assert b == -(rate * (rate - 1.0)); }
    ProductPositive(z2, -b);
    assert z2 * b == -(z2 * (-b));
  }

  lemma ClampsIdleAt(p: real, n: real, z: real, z2: real, root: real)
    requires n > 0.0 && z >= 0.0 && z2 == z * z && 0.0 <= p <= 1.0 && root >= 0.0 && root * root == Radicand(p, n, z2)
    ensures Denominator(n, z2) > 0.0 && Half(n, z, z2, root) >= 0.0
    ensures 0.0 <= Center(p, n, z2) - Half(n, z, z2, root)
    ensures Center(p, n, z2) + Half(n, z, z2, root) <= 1.0
  {
    UnclampedInvertsScoreTest(p, n, z, root, 0.0);
    var c, h := Center(p, n, z2), Half(n, z, z2, root);
    UnclampedInvertsScoreTest(p, n, z, root, c - h);
    UnclampedInvertsScoreTest(p, n, z, root, c + h);
    if z > 0.0 {
      AcceptedRatesAreRates(n, p, z, c - h);
      AcceptedRatesAreRates(n, p, z, c + h);
    } else {
      NoWidthAtZero(p, n, z, root);
    }
  }

  /** A negative level only turns the half-width around. */
  lemma LevelTurned(n: real, z: real, z2: real, root: real)
    requires n > 0.0 && z2 == z * z && Denominator(n, z2) > 0.0
    ensures z2 == (-z) * (-z) && Half(n, -z, z2, root) == -Half(n, z, z2, root)
  {
    var x :| x == z * root;
    assert (-z) * root == -x;
  }

  /** At any level both bounds are rates before clamping, whichever way round they stand. */
  lemma BoundsAreRates(p: real, n: real, z: real, z2: real, root: real)
    requires n > 0.0 && z2 == z * z && 0.0 <= p <= 1.0 && root >= 0.0 && root * root == Radicand(p, n, z2)
    ensures Denominator(n, z2) > 0.0
    ensures var c, h := Center(p, n, z2), Half(n, z, z2, root);
      0.0 <= c - h <= 1.0 && 0.0 <= c + h <= 1.0 && (z < 0.0 ==> h <= 0.0)
  {
    NonNegativeShare(z, n);
    if z >= 0.0 {
      ClampsIdleAt(p, n, z, z2, root);
    } else {
      LevelTurned(n, z, z2, root);
      ClampsIdleAt(p, n, -z, z2, root);
    }
  }

  /** In exact arithmetic the clamps to [0, 1] never change a bound, at any level. */
  lemma ClampsNeverBind(p: real, n: real, z: real, root: real)
    requires n > 0.0 && 0.0 <= p <= 1.0 && root >= 0.0 && root * root == Radicand(p, n, z * z)
    ensures Denominator(n, z * z) > 0.0
    ensures 0.0 <= Center(p, n, z * z) - Half(n, z, z * z, root)
    ensures Center(p, n, z * z) + Half(n, z, z * z, root) <= 1.0
  {
    BoundsAreRates(p, n, z, z * z, root);
  }

  /** Away from level 0 the interval has width. */
  lemma WidthIsReal(p: real, n: real, z: real, z2: real, root: real)
    requires n > 0.0 && 0.0 <= p <= 1.0 && z != 0.0 && z2 == z * z && root >= 0.0 && root * root == Radicand(p, n, z2)
    ensures Denominator(n, z2) > 0.0 && Half(n, z, z2, root) != 0.0
  {
    NonNegativeShare(z, n);
    RadicandPositive(p, n, z, z2);
    RootPositive(root, Radicand(p, n, z2));
    var x :| x == z * root;
    if z > 0.0 { ProductPositive(z, root); } else { ProductPositive(-z, root); assert (-z) * root == -x; }
    QuotientTimes(x, Denominator(n, z2));
  }

  lemma RootPositive(root: real, x: real)
    requires root >= 0.0 && root * root == x && x > 0.0
    ensures root > 0.0
  {
    ZeroSquared(root);
  }

  lemma ZeroSquared(x: real)
    ensures x == 0.0 ==> x * x == 0.0
  {
  }

  lemma RadicandPositive(p: real, n: real, z: real, z2: real)
    requires n > 0.0 && 0.0 <= p <= 1.0 && z != 0.0 && z2 == z * z
    ensures Radicand(p, n, z2) > 0.0
  {
    ProductNonNegative(p, 1.0 - p);
    var v, nn :| v == p * (1.0 - p) && nn == n * n;
    SquarePositive(n, nn);
    if z > 0.0 { SquarePositive(z, z2); } else { LevelSquared(z, z2); }
    Quotients(v, v, n);
    Quotients(z2, z2, 4.0 * nn);
  }

  lemma LevelSquared(z: real, z2: real)
    requires z < 0.0 && z2 == z * z
    ensures z2 > 0.0
  {
    assert (-z) * (-z) == z2;
    SquarePositive(-z, z2);
  }

  lemma NoWidthAtZero(p: real, n: real, z: real, root: real)
    requires n > 0.0 && z == 0.0
    ensures z * z == 0.0 && Denominator(n, z * z) == 1.0 && Center(p, n, z * z) == p && Half(n, z, z * z, root) == 0.0
  {
  }

  lemma RateOfCounts(k: int, n: int)
    requires n > 0 && 0 <= k <= n
    ensures 0.0 <= k as real / n as real <= 1.0
    ensures k as real / n as real == 0.0 <==> k == 0
    ensures k as real / n as real == 1.0 <==> k == n
  {
    QuotientWithin(k as real, n as real, 0.0, 1.0);
    QuotientTimes(k as real, n as real);
  }

  lemma RadicandNonNegative(p: real, n: real, z: real)
    requires n > 0.0 && 0.0 <= p <= 1.0
    ensures Radicand(p, n, z * z) >= 0.0
  {
    ProductNonNegative(p, 1.0 - p);
    NonNegativeShare(z, 1.0);
    var v, z2, nn :| v == p * (1.0 - p) && z2 == z * z && nn == n * n;
    SquarePositive(n, nn);
    Quotients(v, v, n);
    Quotients(z2, z2, 4.0 * nn);
  }

  /** None exactly for counts that cannot be interpreted. */
  lemma RefusedExactly(k: int, n: int, z: real, sqrt: real -> real)
    ensures WilsonInterval(k, n, z, sqrt).None? <==> !(n > 0 && 0 <= k <= n)
  {
  }

  predicate Holds(i: Interval, rate: real) {
    i.low <= rate <= i.high
  }

  /**
    * For interpretable counts a rate lies in the reported interval exactly when the score test
    * does not reject it; the interval is within [0, 1] and holds the observed rate. A negative
    * level, which the function takes, turns the interval around: it then holds no rate at all.
    */
  lemma WilsonInvertsScoreTest(k: int, n: int, z: real, sqrt: real -> real, rate: real)
    requires n > 0 && 0 <= k <= n && IsSquareRoot(sqrt)
    ensures WilsonInterval(k, n, z, sqrt).Some?
    ensures var i := WilsonInterval(k, n, z, sqrt).value; var p := k as real / n as real;
      if z >= 0.0 then 0.0 <= i.low <= p <= i.high <= 1.0 && (Holds(i, rate) <==> ScoreAccepts(n as real, p, z, rate))
      else i.high < i.low
  {
    var m, p := n as real, k as real / n as real;
    RateOfCounts(k, n);
    RadicandNonNegative(p, m, z);
    var root := sqrt(Radicand(p, m, z * z));
    ClampsNeverBind(p, m, z, root);
    if z >= 0.0 {
      UnclampedInvertsScoreTest(p, m, z, root, rate);
      UnclampedInvertsScoreTest(p, m, z, root, p);
      ObservedRateAccepted(m, p, z);
    } else {
      BoundsAreRates(p, m, z, z * z, root);
      WidthIsReal(p, m, z, z * z, root);
    }
  }

  /** So the interval inverts the test at exactly the levels that are not negative. */
  lemma InvertsExactly(k: int, n: int, z: real, sqrt: real -> real)
    requires n > 0 && 0 <= k <= n && IsSquareRoot(sqrt)
    ensures WilsonInterval(k, n, z, sqrt).Some?
    ensures var i := WilsonInterval(k, n, z, sqrt).value; var p := k as real / n as real;
      (forall rate :: Holds(i, rate) <==> ScoreAccepts(n as real, p, z, rate)) <==> z >= 0.0
  {
    var p := k as real / n as real;
    WilsonInvertsScoreTest(k, n, z, sqrt, p);
    var i := WilsonInterval(k, n, z, sqrt).value;
    if z >= 0.0 {
      forall rate ensures Holds(i, rate) <==> ScoreAccepts(n as real, p, z, rate) {
        WilsonInvertsScoreTest(k, n, z, sqrt, rate);
      }
    } else {
      RateOfCounts(k, n);
      ObservedRateAccepted(n as real, p, z);
      assert !Holds(i, p);
    }
  }

  lemma ObservedRateAccepted(n: real, p: real, z: real)
    requires 0.0 <= p <= 1.0
    ensures ScoreAccepts(n, p, z, p)
  {
    ProductNonNegative(p, 1.0 - p);
    NonNegativeShare(z, 1.0);
    ProductNonNegative(z * z, p * (1.0 - p));
  }

  /** With nothing observed the lower bound is exactly 0, and with everything the upper is exactly 1, at those levels and no other. */
  lemma ExtremesAreExact(n: int, z: real, sqrt: real -> real)
    requires n > 0 && IsSquareRoot(sqrt)
    ensures WilsonInterval(0, n, z, sqrt).Some? && (WilsonInterval(0, n, z, sqrt).value.low == 0.0 <==> z >= 0.0)
    ensures WilsonInterval(n, n, z, sqrt).Some? && (WilsonInterval(n, n, z, sqrt).value.high == 1.0 <==> z >= 0.0)
  {
    WilsonInvertsScoreTest(0, n, z, sqrt, 0.0);
    WilsonInvertsScoreTest(n, n, z, sqrt, 1.0);
    RateOfCounts(0, n);
    RateOfCounts(n, n);
    if z < 0.0 {
      BoundsWithin(0, n, z, sqrt);
      BoundsWithin(n, n, z, sqrt);
    }
  }

  /** The two bounds are rates, whichever way round they stand. */
  lemma BoundsWithin(k: int, n: int, z: real, sqrt: real -> real)
    requires n > 0 && 0 <= k <= n && IsSquareRoot(sqrt)
    ensures WilsonInterval(k, n, z, sqrt).Some?
    ensures var i := WilsonInterval(k, n, z, sqrt).value; 0.0 <= i.low <= 1.0 && 0.0 <= i.high <= 1.0
  {
    var m, p := n as real, k as real / n as real;
    RateOfCounts(k, n);
    RadicandNonNegative(p, m, z);
    var root := sqrt(Radicand(p, m, z * z));
    BoundsAreRates(p, m, z, z * z, root);
  }

  /** More confidence only widens the interval. */
  lemma WiderWithConfidence(k: int, n: int, z: real, y: real, sqrt: real -> real, rate: real)
    requires n > 0 && 0 <= k <= n && 0.0 <= z <= y && IsSquareRoot(sqrt)
    requires var i := WilsonInterval(k, n, z, sqrt); i.Some? && i.value.low <= rate <= i.value.high
    ensures var i := WilsonInterval(k, n, y, sqrt); i.Some? && i.value.low <= rate <= i.value.high
  {
    WilsonInvertsScoreTest(k, n, z, sqrt, rate);
    WilsonInvertsScoreTest(k, n, y, sqrt, rate);
    BoundGrows(z, y, rate);
  }

  lemma BoundGrows(z: real, y: real, rate: real)
    requires 0.0 <= z <= y && 0.0 <= rate <= 1.0
    ensures ScoreBound(z, rate) <= ScoreBound(y, rate)
  {
    var b :| b == rate * (1.0 - rate);
    ProductNonNegative(rate, 1.0 - rate);
    ProductNonNegative(y - z, y + z);
    assert (y - z) * (y + z) == y * y - z * z;
    ProductMonotone(z * z, y * y, b);
  }
}
