/**
  * Drawdown, the bootstrap interval and the fail-closed verdict of a report card
  * (backend/app/backtest/stats.py, backend/app/backtest/report.py).
  * A resample is a sequence of indices into the trades; which ones are drawn is arbitrary.
  */
module Drawdown {
  import opened Prelude
  import opened Sums

  ghost predicate NoDeclineAbove(equity: seq<real>, d: real) {
    forall i, j :: 0 <= i <= j < |equity| ==> equity[i] - equity[j] <= d
  }

  ghost predicate SomeDeclineOf(equity: seq<real>, d: real) {
    exists i, j :: 0 <= i <= j < |equity| && equity[i] - equity[j] == d
  }

  /** The largest fall from an earlier point to a later one; nothing fell on an empty curve. */
  ghost predicate IsDrawdown(equity: seq<real>, d: real) {
    d >= 0.0 && NoDeclineAbove(equity, d) && (if equity == [] then d == 0.0 else SomeDeclineOf(equity, d))
  }

  method MaxDrawdown(equity: seq<real>) returns (worst: real)
    ensures IsDrawdown(equity, worst)
  {
    if |equity| < 2 {
      assert equity != [] ==> equity[0] - equity[0] == 0.0;
      return 0.0;
    }
    var peak := equity[0];
    worst := 0.0;
    assert equity[0] - equity[0] == worst;
    ghost var top := 0;
    for n := 1 to |equity|
      invariant 0 <= top < n && equity[top] == peak
      invariant forall i :: 0 <= i < n ==> equity[i] <= peak
      invariant worst >= 0.0 && SomeDeclineOf(equity, worst)
      invariant forall i, j :: 0 <= i <= j < n ==> equity[i] - equity[j] <= worst
    {
      var value := equity[n];
      if value > peak {
        peak, top := value, n;
      }
      var decline := peak - value;
      if decline > worst {
        worst := decline;
        assert equity[top] - equity[n] == worst;
      }
    }
  }

  ghost predicate IsEquityCurve(pnls: seq<real>, equity: seq<real>) {
    |equity| == |pnls| + 1 && forall k :: 0 <= k <= |pnls| ==> equity[k] == Sum(pnls[..k])
  }

  /** Cumulative results, opening at zero before the first trade. */
  method EquityCurve(pnls: seq<real>) returns (equity: seq<real>)
    ensures IsEquityCurve(pnls, equity)
  {
    equity := [0.0];
    var running := 0.0;
    for n := 0 to |pnls|
      invariant running == Sum(pnls[..n])
      invariant |equity| == n + 1 && forall k :: 0 <= k <= n ==> equity[k] == Sum(pnls[..k])
    {
      assert pnls[..n + 1] == pnls[..n] + [pnls[n]];
      SumAppend(pnls[..n], pnls[n]);
      running := running + pnls[n];
      equity := equity + [running];
    }
  }

  lemma BlockIsDifference(pnls: seq<real>, equity: seq<real>, i: nat, j: nat)
    requires IsEquityCurve(pnls, equity) && i <= j <= |pnls|
    ensures equity[i] - equity[j] == -Sum(pnls[i..j])
  {
    assert pnls[..j] == pnls[..i] + pnls[i..j];
    SumConcat(pnls[..i], pnls[i..j]);
  }

  /** The drawdown of the curve is the largest total lost over any run of consecutive trades. */
  lemma DrawdownIsTheWorstRunOfTrades(pnls: seq<real>, equity: seq<real>, d: real)
    requires IsEquityCurve(pnls, equity) && IsDrawdown(equity, d)
    ensures forall i, j :: 0 <= i <= j <= |pnls| ==> -Sum(pnls[i..j]) <= d
    ensures exists i, j :: 0 <= i <= j <= |pnls| && -Sum(pnls[i..j]) == d
  {
    forall i, j | 0 <= i <= j <= |pnls| ensures -Sum(pnls[i..j]) <= d {
      BlockIsDifference(pnls, equity, i, j);
    }
    var i, j :| 0 <= i <= j < |equity| && equity[i] - equity[j] == d;
    BlockIsDifference(pnls, equity, i, j);
  }

  /**
    * A curve without its opening zero never reports more, and misses exactly what was lost
    * counting from the very first trade when that is the larger fall.
    */
  lemma OpeningPointMatters(pnls: seq<real>, equity: seq<real>, d: real, late: real)
    requires pnls != [] && IsEquityCurve(pnls, equity)
    requires IsDrawdown(equity, d) && IsDrawdown(equity[1..], late)
    ensures late <= d <= late + MaxR(0.0, -pnls[0])
    ensures d != late ==> exists j :: 0 < j <= |pnls| && d == -Sum(pnls[..j])
  {
    var rest := equity[1..];
    assert pnls[..1] == [pnls[0]];
    assert pnls[..0] == [];
    assert Sum(pnls[..1]) == pnls[0] + Sum(pnls[..1][1..]);
    assert equity[0] == 0.0 && equity[1] == pnls[0];
    var a, b :| 0 <= a <= b < |rest| && rest[a] - rest[b] == late;
    assert equity[a + 1] - equity[b + 1] == late;
    var i, j :| 0 <= i <= j < |equity| && equity[i] - equity[j] == d;
    if i > 0 {
      assert rest[i - 1] - rest[j - 1] == d;
    } else if j > 0 {
      assert rest[0] - rest[j - 1] <= late;
    }
  }
}

module Bootstrap {
  import opened Prelude
  import opened Sums
  import opened Sorting
  import opened Statistics

  ghost predicate IsDraw(draw: seq<nat>, n: nat) {
    |draw| == n && forall k :: 0 <= k < n ==> draw[k] < n
  }

  ghost predicate AreDraws(draws: seq<seq<nat>>, n: nat) {
    forall d :: 0 <= d < |draws| ==> IsDraw(draws[d], n)
  }

  function Picked(pnls: seq<real>, draw: seq<nat>): (r: seq<real>)
    requires IsDraw(draw, |pnls|)
    ensures |r| == |draw|
    ensures forall k :: 0 <= k < |draw| ==> r[k] == pnls[draw[k]]
  {
    seq(|draw|, k requires 0 <= k < |draw| => pnls[draw[k]])
  }

  function ResampleMean(pnls: seq<real>, draw: seq<nat>): real
    requires pnls != [] && IsDraw(draw, |pnls|)
  {
    Sum(Picked(pnls, draw)) / |pnls| as real
  }

  function ResampleMeans(pnls: seq<real>, draws: seq<seq<nat>>): (r: seq<real>)
    requires pnls != [] && AreDraws(draws, |pnls|)
    ensures |r| == |draws|
    ensures forall d :: 0 <= d < |draws| ==> r[d] == ResampleMean(pnls, draws[d])
  {
    seq(|draws|, d requires 0 <= d < |draws| => ResampleMean(pnls, draws[d]))
  }

  /** The tail quantile, before quantising. */
  function Tail(pnls: seq<real>, draws: seq<seq<nat>>, q: real): real
    requires pnls != [] && AreDraws(draws, |pnls|) && draws != [] && 0.0 <= q <= 1.0
  {
    PercentileSorted(Sort(ResampleMeans(pnls, draws), Itself), q).value
  }

  datatype Interval = Interval(low: real, high: real)

  function BootstrapInterval(pnls: seq<real>, confidence: real, draws: seq<seq<nat>>): Result<Option<Interval>, StatError>
    requires AreDraws(draws, |pnls|)
  {
    if |pnls| < 2 then Ok(None)
    else if draws == [] then Err(NoResamples)
    else if !(0.0 < confidence < 1.0) then Err(BadConfidence(confidence))
    else
      var alpha := (1.0 - confidence) / 2.0;
      Ok(Some(Interval(Quantize(Tail(pnls, draws, alpha)), Quantize(Tail(pnls, draws, 1.0 - alpha)))))
  }

  /** The interval is read off the means of the draws, in order, half of what the confidence leaves at each end. */
  lemma IntervalOfMeans(pnls: seq<real>, confidence: real, draws: seq<seq<nat>>) returns (means: seq<real>)
    requires |pnls| >= 2 && AreDraws(draws, |pnls|) && draws != [] && 0.0 < confidence < 1.0
    ensures |means| == |draws|
    ensures forall d :: 0 <= d < |draws| ==> means[d] * |pnls| as real == Sum(Picked(pnls, draws[d]))
    ensures var sorted := Sort(means, Itself);
            var low, high := PercentileSorted(sorted, (1.0 - confidence) / 2.0), PercentileSorted(sorted, (1.0 + confidence) / 2.0);
            && low.Ok? && high.Ok?
            && BootstrapInterval(pnls, confidence, draws) == Ok(Some(Interval(Quantize(low.value), Quantize(high.value))))
  {
    means := ResampleMeans(pnls, draws);
    forall d | 0 <= d < |draws| ensures means[d] * |pnls| as real == Sum(Picked(pnls, draws[d])) {
      QuotientTimes(Sum(Picked(pnls, draws[d])), |pnls| as real);
    }
    assert 1.0 - (1.0 - confidence) / 2.0 == (1.0 + confidence) / 2.0;
  }

  // ---- A mean, and a quantile of means, never leaves the support of the sample ------------

  lemma {:induction false} SumWithin(s: seq<real>, lo: real, hi: real)
    requires forall k :: 0 <= k < |s| ==> lo <= s[k] <= hi
    ensures |s| as real * lo <= Sum(s) <= |s| as real * hi
  {
    if s != [] {
      SumWithin(s[1..], lo, hi);
      var n := |s[1..]| as real;
      assert |s| as real == n + 1.0;
      assert (n + 1.0) * lo == n * lo + lo && (n + 1.0) * hi == n * hi + hi;
    }
  }

  lemma MeanWithin(pnls: seq<real>, draw: seq<nat>, lo: real, hi: real)
    requires pnls != [] && IsDraw(draw, |pnls|)
    requires forall k :: 0 <= k < |pnls| ==> lo <= pnls[k] <= hi
    ensures lo <= ResampleMean(pnls, draw) <= hi
  {
    SumWithin(Picked(pnls, draw), lo, hi);
    QuotientWithin(Sum(Picked(pnls, draw)), |pnls| as real, lo, hi);
  }

  lemma {:induction false} SortedIsAscending(s: seq<real>)
    ensures Ascending(Sort(s, Itself))
    ensures forall x :: x in Sort(s, Itself) <==> x in s
  {
    SortSorts(s, Itself);
    SortKeepsMembers(s, Itself);
    var r := Sort(s, Itself);
    forall i, j | 0 <= i < j < |r| ensures r[i] <= r[j] {
      assert Itself(r[i]) <= Itself(r[j]);
    }
  }

  /** Between the tails: a smaller `q` never reads a larger mean, and none reads outside the trades. */
  lemma TailsWithin(pnls: seq<real>, draws: seq<seq<nat>>, p: real, q: real, lo: real, hi: real)
    requires pnls != [] && AreDraws(draws, |pnls|) && draws != [] && 0.0 <= p <= q <= 1.0
    requires forall k :: 0 <= k < |pnls| ==> lo <= pnls[k] <= hi
    ensures lo <= Tail(pnls, draws, p) <= Tail(pnls, draws, q) <= hi
  {
    var means := ResampleMeans(pnls, draws);
    var sorted := Sort(means, Itself);
    SortedIsAscending(means);
    forall k | 0 <= k < |sorted| ensures lo <= sorted[k] <= hi {
      assert sorted[k] in sorted;
      assert sorted[k] in means;
      var d :| 0 <= d < |means| && means[d] == sorted[k];
      MeanWithin(pnls, draws[d], lo, hi);
    }
    PercentileStaysInside(sorted, p, q);
  }

  /** Whatever is drawn, the reported interval lies within the smallest and the largest trade. */
  lemma IntervalRespectsSupport(pnls: seq<real>, confidence: real, draws: seq<seq<nat>>, lo: real, hi: real)
    requires AreDraws(draws, |pnls|)
    requires BootstrapInterval(pnls, confidence, draws).Ok? && BootstrapInterval(pnls, confidence, draws).value.Some?
    requires forall k :: 0 <= k < |pnls| ==> lo <= pnls[k] <= hi
    ensures var i := BootstrapInterval(pnls, confidence, draws).value.value;
      Quantize(lo) <= i.low <= i.high <= Quantize(hi)
  {
    var alpha := (1.0 - confidence) / 2.0;
    TailsWithin(pnls, draws, alpha, 1.0 - alpha, lo, hi);
    QuantizeMonotone(lo, Tail(pnls, draws, alpha));
    QuantizeMonotone(Tail(pnls, draws, alpha), Tail(pnls, draws, 1.0 - alpha));
    QuantizeMonotone(Tail(pnls, draws, 1.0 - alpha), hi);
  }

  // ---- Better trades give a better interval ----------------------------------------------

  ghost predicate NoWorse(pnls: seq<real>, better: seq<real>) {
    |better| == |pnls| && forall k :: 0 <= k < |pnls| ==> pnls[k] <= better[k]
  }

  lemma MeanRises(pnls: seq<real>, better: seq<real>, draw: seq<nat>)
    requires pnls != [] && NoWorse(pnls, better) && IsDraw(draw, |pnls|)
    ensures ResampleMean(pnls, draw) <= ResampleMean(better, draw)
  {
    SumBounds(Picked(pnls, draw), Picked(better, draw));
    var n := |pnls| as real;
    var s, t := Sum(Picked(pnls, draw)), Sum(Picked(better, draw));
    ProductNonNegative(t - s, 1.0 / n);
    assert t / n - s / n == (t - s) * (1.0 / n);
  }

  lemma TailRises(pnls: seq<real>, better: seq<real>, draws: seq<seq<nat>>, q: real)
    requires pnls != [] && NoWorse(pnls, better) && AreDraws(draws, |pnls|) && draws != [] && 0.0 <= q <= 1.0
    ensures Tail(pnls, draws, q) <= Tail(better, draws, q)
  {
    var worse, improved := ResampleMeans(pnls, draws), ResampleMeans(better, draws);
    forall d | 0 <= d < |draws| ensures Itself(worse[d]) <= Itself(improved[d]) {
      MeanRises(pnls, better, draws[d]);
    }
    SortMonotone(worse, improved, Itself);
    var s, t := Sort(worse, Itself), Sort(improved, Itself);
    forall i | 0 <= i < |s| ensures s[i] <= t[i] {
      assert Itself(s[i]) <= Itself(t[i]);
    }
    if |s| > 1 {
      AtRankHigher(s, t, Position(q, |s|));
    }
  }
}

/** What a detector's trades entitle it to claim, and the report that says so. */
module Verdicts {
  import opened Prelude
  import opened Sums
  import opened Statistics
  import opened Bootstrap
  import opened Drawdown
  import Attribution

  datatype Expectancy = Expectancy(n: nat, total: real, mean: real, ci: Option<Interval>, how: string, confidence: real)

  /** Only the bootstrap interval; the method "normal" and the standard error are not modelled. */
  function Expect(pnls: seq<real>, confidence: real, draws: seq<seq<nat>>): Result<Expectancy, StatError>
    requires AreDraws(draws, |pnls|)
  {
    var n := |pnls|;
    if n == 0 then Ok(Expectancy(0, 0.0, 0.0, None, "none", confidence))
    else if n < 2 then Ok(Expectancy(n, Sum(pnls), Quantize(Sum(pnls) / n as real), None, "none", confidence))
    else match BootstrapInterval(pnls, confidence, draws)
      case Err(e) => Err(e)
      case Ok(i) => Ok(Expectancy(n, Sum(pnls), Quantize(Sum(pnls) / n as real), i, "bootstrap", confidence))
  }

  datatype Verdict = InsufficientEvidence | NoEdgeShown | EdgeShown | Losing

  function Judge(exp: Expectancy, minTrades: int): Result<Verdict, StatError> {
    if minTrades < 1 then Err(BadFloor(minTrades))
    else if exp.n < minTrades then Ok(InsufficientEvidence)
    else if exp.ci.None? then Ok(InsufficientEvidence)
    else if exp.ci.value.low > 0.0 then Ok(EdgeShown)
    else if exp.ci.value.high < 0.0 then Ok(Losing)
    else Ok(NoEdgeShown)
  }

  /** The gate applied to a trade history. */
  function Assess(pnls: seq<real>, confidence: real, draws: seq<seq<nat>>, minTrades: int): Result<Verdict, StatError>
    requires AreDraws(draws, |pnls|)
  {
    match Expect(pnls, confidence, draws)
    case Err(e) => Err(e)
    case Ok(exp) => Judge(exp, minTrades)
  }

  ghost predicate Usable(pnls: seq<real>, confidence: real, draws: seq<seq<nat>>, minTrades: int) {
    AreDraws(draws, |pnls|) && draws != [] && 0.0 < confidence < 1.0 && minTrades >= 1
  }

  ghost function LowTail(pnls: seq<real>, confidence: real, draws: seq<seq<nat>>): real
    requires pnls != [] && AreDraws(draws, |pnls|) && draws != [] && 0.0 < confidence < 1.0
  {
    Tail(pnls, draws, (1.0 - confidence) / 2.0)
  }

  ghost function HighTail(pnls: seq<real>, confidence: real, draws: seq<seq<nat>>): real
    requires pnls != [] && AreDraws(draws, |pnls|) && draws != [] && 0.0 < confidence < 1.0
  {
    Tail(pnls, draws, 1.0 - (1.0 - confidence) / 2.0)
  }

  /** Some value at or below every trade, and some value at or above. */
  lemma {:induction false} SomeBounds(s: seq<real>) returns (lo: real, hi: real)
    ensures forall k :: 0 <= k < |s| ==> lo <= s[k] <= hi
  {
    if s == [] {
      return 0.0, 0.0;
    }
    lo, hi := SomeBounds(s[1..]);
    lo, hi := MinR(lo, s[0]), MaxR(hi, s[0]);
  }

  /**
    * The gate, exactly: insufficient below the floor or with one trade, whatever the mean;
    * an edge only if the low tail clears half a centicent; losing only if the high tail falls
    * below minus half a centicent.
    */
  lemma GateIsExact(pnls: seq<real>, confidence: real, draws: seq<seq<nat>>, minTrades: int)
    requires Usable(pnls, confidence, draws, minTrades)
    ensures Assess(pnls, confidence, draws, minTrades).Ok?
    ensures var v := Assess(pnls, confidence, draws, minTrades).value;
      if |pnls| < minTrades || |pnls| < 2 then v == InsufficientEvidence
      else (
        && v != InsufficientEvidence
        && (v == EdgeShown <==> LowTail(pnls, confidence, draws) > 0.00005)
        && (v == Losing <==> HighTail(pnls, confidence, draws) < -0.00005))
  {
    if |pnls| >= 2 {
      var lo, hi := SomeBounds(pnls);
      var alpha := (1.0 - confidence) / 2.0;
      TailsWithin(pnls, draws, alpha, 1.0 - alpha, lo, hi);
      QuantizedSign(LowTail(pnls, confidence, draws));
      QuantizedSign(HighTail(pnls, confidence, draws));
    }
  }

  /**
    * No draw can invent an edge out of trades none of which won, nor a loss out of trades
    * none of which lost.
    */
  lemma NoWinnerNoEdge(pnls: seq<real>, confidence: real, draws: seq<seq<nat>>, minTrades: int)
    requires AreDraws(draws, |pnls|)
    ensures (forall k :: 0 <= k < |pnls| ==> pnls[k] <= 0.0) ==> Assess(pnls, confidence, draws, minTrades) != Ok(EdgeShown)
    ensures (forall k :: 0 <= k < |pnls| ==> pnls[k] >= 0.0) ==> Assess(pnls, confidence, draws, minTrades) != Ok(Losing)
  {
    if Usable(pnls, confidence, draws, minTrades) && |pnls| >= 2 {
      GateIsExact(pnls, confidence, draws, minTrades);
      var alpha := (1.0 - confidence) / 2.0;
      var lo, hi := SomeBounds(pnls);
      if forall k :: 0 <= k < |pnls| ==> pnls[k] <= 0.0 {
        TailsWithin(pnls, draws, alpha, 1.0 - alpha, lo, 0.0);
      }
      if forall k :: 0 <= k < |pnls| ==> pnls[k] >= 0.0 {
        TailsWithin(pnls, draws, alpha, 1.0 - alpha, 0.0, hi);
      }
    }
  }

  /** Raising trades, on the same draws, keeps a shown edge and never creates a losing verdict. */
  lemma BetterTradesNoWorseVerdict(pnls: seq<real>, better: seq<real>, confidence: real, draws: seq<seq<nat>>, minTrades: int)
    requires AreDraws(draws, |pnls|) && NoWorse(pnls, better)
    ensures Assess(pnls, confidence, draws, minTrades) == Ok(EdgeShown) ==> Assess(better, confidence, draws, minTrades) == Ok(EdgeShown)
    ensures Assess(better, confidence, draws, minTrades) == Ok(Losing) ==> Assess(pnls, confidence, draws, minTrades) == Ok(Losing)
  {
    if Usable(pnls, confidence, draws, minTrades) && |pnls| >= 2 {
      GateIsExact(pnls, confidence, draws, minTrades);
      GateIsExact(better, confidence, draws, minTrades);
      var alpha := (1.0 - confidence) / 2.0;
      TailRises(pnls, better, draws, alpha);
      TailRises(pnls, better, draws, 1.0 - alpha);
    }
  }

  /** A stricter gate, in confidence or in the floor, only ever withdraws a claim. */
  lemma StricterGateClaimsLess(pnls: seq<real>, c1: real, c2: real, draws: seq<seq<nat>>, m1: int, m2: int)
    requires Usable(pnls, c1, draws, m1) && Usable(pnls, c2, draws, m2) && c1 <= c2 && m1 <= m2
    ensures Assess(pnls, c2, draws, m2) == Ok(EdgeShown) ==> Assess(pnls, c1, draws, m1) == Ok(EdgeShown)
    ensures Assess(pnls, c2, draws, m2) == Ok(Losing) ==> Assess(pnls, c1, draws, m1) == Ok(Losing)
  {
    GateIsExact(pnls, c1, draws, m1);
    GateIsExact(pnls, c2, draws, m2);
    if |pnls| >= 2 {
      var lo, hi := SomeBounds(pnls);
      TailsWithin(pnls, draws, (1.0 - c2) / 2.0, (1.0 - c1) / 2.0, lo, hi);
      TailsWithin(pnls, draws, 1.0 - (1.0 - c1) / 2.0, 1.0 - (1.0 - c2) / 2.0, lo, hi);
    }
  }

  // ---- The report card --------------------------------------------------------------------

  const CONFIDENCE := 0.95

  function PnlsOf(events: seq<Attribution.Event>): (r: seq<real>)
    ensures |r| == |events|
  {
    seq(|events|, k requires 0 <= k < |events| => events[k].entry.pnl)
  }

  function FeesOf(events: seq<Attribution.Event>): seq<real> {
    seq(|events|, k requires 0 <= k < |events| => events[k].entry.fees)
  }

  datatype Report = Report(realised: Expectancy, verdict: Verdict, feesPaid: real, maxDrawdown: real)

  /**
    * Scores one detector's events, in time order. The drawdown is that of the curve opening at
    * zero: the most lost over any run of consecutive events.
    */
  method BuildReport(events: seq<Attribution.Event>, minTrades: int, draws: seq<seq<nat>>) returns (r: Result<Report, StatError>)
    requires AreDraws(draws, |events|)
    ensures r.Err? <==> minTrades < 1 || (|events| >= 2 && draws == [])
    ensures r.Ok? ==> r.value.realised.n == |events| && r.value.realised.total == Sum(PnlsOf(events))
    ensures r.Ok? ==> Ok(r.value.verdict) == Assess(PnlsOf(events), 0.95, draws, minTrades)
    ensures r.Ok? && events == [] ==> r.value.realised.mean == 0.0
    ensures r.Ok? && events != [] ==> r.value.realised.mean == Quantize(Sum(PnlsOf(events)) / |events| as real)
    ensures r.Ok? ==> (r.value.realised.ci.None? <==> |events| < 2)
    ensures r.Ok? && |events| >= 2 ==>
      r.value.realised.ci == Some(Interval(Quantize(Tail(PnlsOf(events), draws, 0.025)), Quantize(Tail(PnlsOf(events), draws, 0.975))))
    ensures r.Ok? ==> r.value.feesPaid == Sum(FeesOf(events))
    ensures r.Ok? ==> forall i, j :: 0 <= i <= j <= |events| ==> -Sum(PnlsOf(events)[i..j]) <= r.value.maxDrawdown
    ensures r.Ok? ==> exists i, j :: 0 <= i <= j <= |events| && -Sum(PnlsOf(events)[i..j]) == r.value.maxDrawdown
  {
    var pnls := PnlsOf(events);
    var exp := Expect(pnls, CONFIDENCE, draws);
    if exp.Err? {
      return Err(exp.error);
    }
    var verdict := Judge(exp.value, minTrades);
    if verdict.Err? {
      return Err(verdict.error);
    }
    var equity := EquityCurve(pnls);
    var fees := FeesOf(events);
    var d := MaxDrawdown(equity);
    DrawdownIsTheWorstRunOfTrades(pnls, equity, d);
    r := Ok(Report(exp.value, verdict.value, Sum(fees), d));
  }
}
