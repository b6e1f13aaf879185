/**
  * The audit that refuses a backtest on thin data (backend/app/backtest/coverage.py).
  * Instants and durations are whole microseconds; dividing a duration rounds half to even.
  */
module Coverage {
  import opened Prelude
  import opened Sorting
  import Statistics

  const MICROS_PER_DAY := 86_400_000_000
  const MAX_GAP_MULTIPLE := 20
  const MAX_GAP_FLOOR := 300_000_000
  const UNKNOWN_SERIES := "<unknown>"

  datatype Market = Market(
    ticker: string, series: Option<string>, firstTs: int, lastTs: int, observations: int,
    resolvedOutcome: Option<bool>, closeTime: Option<int>, maxGap: Option<int>)

  datatype CoverageError =
    | Backwards(ticker: string)
    | NoObservations(ticker: string)
    | NegativeGap(ticker: string)
    | EmptyWindow
    | BadInterval
    | BadMultiple

  /** What construction lets through. */
  predicate Sound(m: Market) {
    m.firstTs <= m.lastTs && m.observations >= 1 && (m.maxGap.Some? ==> m.maxGap.value >= 0)
  }

  function Checked(m: Market): (r: Result<Market, CoverageError>)
    ensures r.Ok? <==> Sound(m)
    ensures r.Ok? ==> r.value == m
    ensures r.Err? ==> match r.error
                       case Backwards(t) => t == m.ticker && m.firstTs > m.lastTs
                       case NoObservations(t) => t == m.ticker && m.observations <= 0
                       case NegativeGap(t) => t == m.ticker && m.maxGap.Some? && 0 > m.maxGap.value
                       case _ => false
  {
    if m.lastTs < m.firstTs then Err(Backwards(m.ticker))
    else if m.observations < 1 then Err(NoObservations(m.ticker))
    else if m.maxGap.Some? && m.maxGap.value < 0 then Err(NegativeGap(m.ticker))
    else Ok(m)
  }

  ghost predicate AllSound(ms: seq<Market>) {
    forall i :: 0 <= i < |ms| ==> Sound(ms[i])
  }

  function SeriesKey(m: Market): string {
    if m.series.Some? && m.series.value != "" then m.series.value else UNKNOWN_SERIES
  }

  function MaxI(a: int, b: int): int {
    if a < b then b else a
  }

  function GapTolerance(interval: int, multiple: int, floor: int): Result<int, CoverageError> {
    if interval <= 0 then Err(BadInterval)
    else if multiple < 1 then Err(BadMultiple)
    else Ok(MaxI(interval * multiple, floor))
  }

  // ---- Gaps ------------------------------------------------------------------------------------

  /** A duration divided by a count. */
  function Divided(us: int, n: int): int
    requires n > 0
  {
    Statistics.RoundHalfEven(us as real / n as real)
  }

  lemma DividedBelow(us: int, n: int, bound: int)
    requires n > 0 && us <= bound * n
    ensures Divided(us, n) <= bound
  {
    var x := us as real / n as real;
    QuotientTimes(us as real, n as real);
    assert us as real <= (bound * n) as real == n as real * bound as real;
    QuotientWithin(us as real, n as real, x, bound as real);
    Statistics.RoundHalfEvenMonotone(x, bound as real);
  }

  lemma DividedMonotone(a: int, b: int, n: int)
    requires n > 0 && a <= b
    ensures Divided(a, n) <= Divided(b, n)
  {
    var inverse := 1.0 / n as real;
    ProductMonotone(a as real, b as real, inverse);
    assert a as real / n as real == a as real * inverse && b as real / n as real == b as real * inverse;
    Statistics.RoundHalfEvenMonotone(a as real / n as real, b as real / n as real);
  }

  /** A measured gap wins; else the mean spacing; a single snapshot stands for the whole window. */
  function GapOf(m: Market, requestedSpan: int): int {
    if m.maxGap.Some? then m.maxGap.value
    else if m.observations >= 2 then Divided(m.lastTs - m.firstTs, m.observations - 1)
    else requestedSpan
  }

  function GapsOf(ms: seq<Market>, requestedSpan: int): (r: seq<int>)
    ensures |r| == |ms|
  {
    seq(|ms|, i requires 0 <= i < |ms| => GapOf(ms[i], requestedSpan))
  }

  function AsReal(x: int): real { x as real }

  function Median(gaps: seq<int>): int
    requires gaps != []
  {
    var s := Sort(gaps, AsReal);
    var n := |s|;
    if n % 2 == 1 then s[n / 2] else Divided(s[n / 2 - 1] + s[n / 2], 2)
  }

  ghost predicate NoSmaller(gaps: seq<int>, grown: seq<int>) {
    |grown| == |gaps| && forall i :: 0 <= i < |gaps| ==> gaps[i] <= grown[i]
  }

  /** The median never falls when every gap stays or grows. */
  lemma MedianMonotone(gaps: seq<int>, grown: seq<int>)
    requires gaps != [] && NoSmaller(gaps, grown)
    ensures Median(gaps) <= Median(grown)
  {
    assert forall i :: 0 <= i < |gaps| ==> AsReal(gaps[i]) <= AsReal(grown[i]);
    SortMonotone(gaps, grown, AsReal);
    var s, t := Sort(gaps, AsReal), Sort(grown, AsReal);
    var n := |s|;
    assert AsReal(s[n / 2]) <= AsReal(t[n / 2]);
    if n % 2 == 0 {
      assert AsReal(s[n / 2 - 1]) <= AsReal(t[n / 2 - 1]);
      DividedMonotone(s[n / 2 - 1] + s[n / 2], t[n / 2 - 1] + t[n / 2], 2);
    }
  }

  /** Half the markets sit at or below the median: what "the typical market" means. */
  lemma MedianBetween(gaps: seq<int>, lo: int, hi: int)
    requires gaps != [] && forall i :: 0 <= i < |gaps| ==> lo <= gaps[i] <= hi
    ensures lo <= Median(gaps) <= hi
  {
    var s := Sort(gaps, AsReal);
    SortKeepsMembers(gaps, AsReal);
    forall i | 0 <= i < |s| ensures lo <= s[i] <= hi {
      assert s[i] in s;
      assert s[i] in gaps;
    }
    var n := |s|;
    if n % 2 == 0 {
      var total := s[n / 2 - 1] + s[n / 2];
      DividedBelow(total, 2, hi);
      DividedMonotone(2 * lo, total, 2);
      assert (2 * lo) as real / 2.0 == lo as real;
    }
  }

  // ---- What a measurement of a market's timestamps gives ---------------------------------------

  ghost predicate InOrder(ts: seq<int>) {
    forall i, j :: 0 <= i < j < |ts| ==> ts[i] <= ts[j]
  }

  ghost predicate IsMaxGap(ts: seq<int>, gap: int) {
    |ts| >= 2
    && (forall i :: 0 < i < |ts| ==> StepAt(ts, i) <= gap)
    && (exists i :: 0 < i < |ts| && StepAt(ts, i) == gap)
  }

  function StepAt(ts: seq<int>, i: int): int
    requires 0 < i < |ts|
  {
    ts[i] - ts[i - 1]
  }

  lemma {:induction false} SpanWithinGaps(ts: seq<int>, gap: int)
    requires ts != [] && forall i :: 0 < i < |ts| ==> StepAt(ts, i) <= gap
    ensures ts[|ts| - 1] - ts[0] <= gap * (|ts| - 1)
  {
    if |ts| > 1 {
      var init := ts[..|ts| - 1];
      assert StepAt(ts, |ts| - 1) <= gap;
      forall i | 0 < i < |init| ensures StepAt(init, i) <= gap {
        assert StepAt(init, i) == StepAt(ts, i);
      }
      SpanWithinGaps(init, gap);
      assert gap * (|ts| - 1) == gap * (|ts| - 2) + gap;
    }
  }

  ghost predicate Describes(m: Market, ts: seq<int>) {
    ts != [] && InOrder(ts) && m.firstTs == ts[0] && m.lastTs == ts[|ts| - 1] && m.observations == |ts|
  }

  /** The implied gap is a mean: never more than the largest gap really there. */
  lemma ImpliedGapIsOptimistic(m: Market, ts: seq<int>, gap: int, requestedSpan: int)
    requires Describes(m, ts) && m.maxGap.None? && IsMaxGap(ts, gap)
    ensures GapOf(m, requestedSpan) <= GapOf(m.(maxGap := Some(gap)), requestedSpan)
    ensures Sound(m.(maxGap := Some(gap)))
  {
    var n := |ts| - 1;
    SpanWithinGaps(ts, gap);
    DividedBelow(ts[n] - ts[0], n, gap);
    var i :| 0 < i < |ts| && StepAt(ts, i) == gap;
    assert ts[i - 1] <= ts[i];
  }

  /** `measured` is `ms` with some implied gaps replaced by the largest gap of the timestamps behind them. */
  ghost predicate Measures(ms: seq<Market>, measured: seq<Market>) {
    |measured| == |ms| && forall i :: 0 <= i < |ms| ==> MeasuresOne(ms[i], measured[i])
  }

  ghost predicate MeasuresOne(m: Market, measured: Market) {
    measured == m
    || (m.maxGap.None? && exists ts: seq<int>, gap: int :: Describes(m, ts) && IsMaxGap(ts, gap) && measured == m.(maxGap := Some(gap)))
  }

  lemma MeasuringGrowsGaps(ms: seq<Market>, measured: seq<Market>, requestedSpan: int)
    requires Measures(ms, measured)
    ensures NoSmaller(GapsOf(ms, requestedSpan), GapsOf(measured, requestedSpan))
  {
    forall i | 0 <= i < |ms| ensures GapOf(ms[i], requestedSpan) <= GapOf(measured[i], requestedSpan) {
      assert MeasuresOne(ms[i], measured[i]);
      if measured[i] != ms[i] {
        var ts: seq<int>, gap: int :| Describes(ms[i], ts) && IsMaxGap(ts, gap) && measured[i] == ms[i].(maxGap := Some(gap));
        ImpliedGapIsOptimistic(ms[i], ts, gap, requestedSpan);
      }
    }
  }

  // ---- The findings ----------------------------------------------------------------------------

  datatype Code =
    | NoData
    | TooFewMarkets
    | WindowTooShort
    | TooFewSettled
    | Survivorship
    | SingleSeries
    | GapsTooLarge

  datatype Warning = SeriesConcentration | IsolatedGaps | GapEstimateImprecise | PartialWindow

  datatype Limits = Limits(
    minMarkets: int, minSettled: int, minSpan: int, gapMultiple: int, gapFloor: int,
    minSeries: int, maxConcentration: real, minFill: real)

  const DEFAULTS := Limits(200, 100, 30 * MICROS_PER_DAY, MAX_GAP_MULTIPLE, MAX_GAP_FLOOR, 2, 0.80, 0.75)

  ghost predicate IsEarliest(ms: seq<Market>, t: int) {
    (forall i :: 0 <= i < |ms| ==> t <= ms[i].firstTs) && exists i :: 0 <= i < |ms| && ms[i].firstTs == t
  }

  ghost predicate IsLatest(ms: seq<Market>, t: int) {
    (forall i :: 0 <= i < |ms| ==> ms[i].lastTs <= t) && exists i :: 0 <= i < |ms| && ms[i].lastTs == t
  }

  function Earliest(ms: seq<Market>): (t: int)
    requires ms != []
    ensures IsEarliest(ms, t)
  {
    var m := ms[|ms| - 1].firstTs;
    if |ms| == 1 then m
    else
      var rest := Earliest(ms[..|ms| - 1]);
      assert forall i :: 0 <= i < |ms| - 1 ==> ms[..|ms| - 1][i] == ms[i];
      if m < rest then m else rest
  }

  function Latest(ms: seq<Market>): (t: int)
    requires ms != []
    ensures IsLatest(ms, t)
  {
    var m := ms[|ms| - 1].lastTs;
    if |ms| == 1 then m
    else
      var rest := Latest(ms[..|ms| - 1]);
      assert forall i :: 0 <= i < |ms| - 1 ==> ms[..|ms| - 1][i] == ms[i];
      if m > rest then m else rest
  }

  function SettledCount(ms: seq<Market>): (n: nat)
    ensures n <= |ms|
    ensures n == |ms| <==> forall i :: 0 <= i < |ms| ==> ms[i].resolvedOutcome.Some?
  {
    if ms == [] then 0
    else
      var init := ms[..|ms| - 1];
      assert forall i :: 0 <= i < |init| ==> init[i] == ms[i];
      SettledCount(init) + if ms[|ms| - 1].resolvedOutcome.Some? then 1 else 0
  }

  function SeriesKeys(ms: seq<Market>): set<string> {
    set i | 0 <= i < |ms| :: SeriesKey(ms[i])
  }

  function KeyCount(ms: seq<Market>, key: string): nat {
    if ms == [] then 0
    else KeyCount(ms[..|ms| - 1], key) + if SeriesKey(ms[|ms| - 1]) == key then 1 else 0
  }

  function ObservedSpan(ms: seq<Market>): int
    requires ms != []
  {
    Latest(ms) - Earliest(ms)
  }

  /** When each refusal stands, for a window that holds some market. */
  predicate Refused(code: Code, ms: seq<Market>, requestedSpan: int, tolerated: int, limits: Limits)
    requires ms != []
  {
    match code
    case NoData => false
    case TooFewMarkets => |ms| < limits.minMarkets
    case WindowTooShort => ObservedSpan(ms) < limits.minSpan
    case TooFewSettled => SettledCount(ms) < limits.minSettled
    case Survivorship => SettledCount(ms) == |ms|
    case SingleSeries => |SeriesKeys(ms)| < limits.minSeries
    case GapsTooLarge => Median(GapsOf(ms, requestedSpan)) > tolerated
  }

  /** Some series holds more than the allowed share. */
  ghost predicate Concentrated(ms: seq<Market>, limits: Limits)
    requires ms != []
  {
    exists key :: key in SeriesKeys(ms) && Share(KeyCount(ms, key), |ms|) > limits.maxConcentration
  }

  ghost predicate SomeGapAbove(gaps: seq<int>, tolerated: int) {
    exists i :: 0 <= i < |gaps| && gaps[i] > tolerated
  }

  ghost predicate Warned(w: Warning, ms: seq<Market>, requestedSpan: int, tolerated: int, limits: Limits)
    requires ms != [] && requestedSpan > 0
  {
    match w
    case SeriesConcentration => |SeriesKeys(ms)| >= limits.minSeries && Concentrated(ms, limits)
    case IsolatedGaps => !Refused(GapsTooLarge, ms, requestedSpan, tolerated, limits) && SomeGapAbove(GapsOf(ms, requestedSpan), tolerated)
    case GapEstimateImprecise => forall i :: 0 <= i < |ms| ==> ms[i].maxGap.None?
    case PartialWindow => MinR(1.0, Share(ObservedSpan(ms), requestedSpan)) < limits.minFill
  }

  // ---- In the terms of the sample --------------------------------------------------------------

  /** Half of `sum`, rounded to a whole number with ties to even. */
  predicate IsHalf(m: int, sum: int) {
    -1 <= 2 * m - sum <= 1 && (2 * m != sum ==> m % 2 == 0)
  }

  lemma HalfDivided(sum: int)
    ensures IsHalf(Divided(sum, 2), sum)
  {
    Statistics.RoundHalfEvenIsNearest(sum as real / 2.0, (sum as real / 2.0).Floor);
    Statistics.RoundHalfEvenIsNearest(sum as real / 2.0, (sum as real / 2.0).Floor + 1);
  }

  /** The median is the middle of the sample in order, or the half-way point of the two in the middle. */
  lemma MedianIsMiddle(gaps: seq<int>) returns (s: seq<int>)
    requires gaps != []
    ensures multiset(s) == multiset(gaps) && |s| == |gaps| && forall i, j :: 0 <= i < j < |s| ==> s[i] <= s[j]
    ensures IsHalf(Median(gaps), s[(|s| - 1) / 2] + s[|s| / 2])
  {
    s := Sort(gaps, AsReal);
    SortSorts(gaps, AsReal);
    forall i, j | 0 <= i < j < |s| ensures s[i] <= s[j] {
      assert AsReal(s[i]) <= AsReal(s[j]);
    }
    if |s| % 2 == 0 {
      HalfDivided(s[|s| / 2 - 1] + s[|s| / 2]);
    }
  }

  /** The markets, by position, of which something holds. */
  ghost function Where(ms: seq<Market>, p: Market -> bool): set<int> {
    set i | 0 <= i < |ms| && p(ms[i])
  }

  lemma WhereNext(ms: seq<Market>, p: Market -> bool, n: int)
    requires ms != [] && n == |ms| - 1
    ensures |Where(ms, p)| == |Where(ms[..n], p)| + if p(ms[n]) then 1 else 0
  {
    assert n !in Where(ms[..n], p);
    assert Where(ms, p) == if p(ms[n]) then Where(ms[..n], p) + {n} else Where(ms[..n], p);
  }

  function IsSettled(m: Market): bool {
    m.resolvedOutcome.Some?
  }

  /** Snapped once and not measured: nothing to take a gap from. */
  function Alone(m: Market): bool {
    m.maxGap == None && m.observations <= 1
  }

  function OfSeries(key: string): Market -> bool {
    (m: Market) => SeriesKey(m) == key
  }

  lemma {:induction false} CountsAreWhere(ms: seq<Market>, key: string)
    ensures SettledCount(ms) == |Where(ms, IsSettled)|
    ensures SingleCount(ms) == |Where(ms, Alone)|
    ensures KeyCount(ms, key) == |Where(ms, OfSeries(key))|
  {
    if ms != [] {
      var n := |ms| - 1;
      CountsAreWhere(ms[..n], key);
      WhereNext(ms, IsSettled, n);
      WhereNext(ms, Alone, n);
      WhereNext(ms, OfSeries(key), n);
    }
  }

  lemma {:induction false} TotalsAdd(a: seq<Market>, b: seq<Market>)
    ensures TotalObservations(a + b) == TotalObservations(a) + TotalObservations(b)
    ensures |a| == 1 ==> TotalObservations(a) == a[0].observations
    decreases |b|
  {
    if b == [] {
      assert a + b == a;
    } else {
      assert (a + b)[..|a + b| - 1] == a + b[..|b| - 1];
      TotalsAdd(a, b[..|b| - 1]);
    }
  }

  predicate Unnamed(m: Market) {
    m.series == None || m.series == Some("") || m.series == Some("<unknown>")
  }

  /** Two markets count as one series exactly when they name the same one, or neither names any. */
  lemma SameSeriesExactly(a: Market, b: Market)
    ensures SeriesKey(a) == SeriesKey(b) <==> a.series == b.series || (Unnamed(a) && Unnamed(b))
  {
  }

  /** Data that no two observations of it are `span` apart in. */
  ghost predicate ShorterThan(ms: seq<Market>, span: int) {
    forall i, j :: 0 <= i < |ms| && 0 <= j < |ms| ==> ms[j].lastTs - ms[i].firstTs < span
  }

  lemma SpanIsWidest(ms: seq<Market>, span: int)
    requires ms != []
    ensures ObservedSpan(ms) < span <==> ShorterThan(ms, span)
  {
    if ObservedSpan(ms) < span {
      forall i, j | 0 <= i < |ms| && 0 <= j < |ms| ensures ms[j].lastTs - ms[i].firstTs < span {
      }
    } else {
      assert IsEarliest(ms, Earliest(ms)) && IsLatest(ms, Latest(ms));
    }
  }

  /** What each refusal says of the sample. */
  lemma RefusalsSay(ms: seq<Market>, requestedSpan: int, tolerated: int, limits: Limits)
    requires ms != []
    ensures !Refused(NoData, ms, requestedSpan, tolerated, limits)
    ensures Refused(TooFewMarkets, ms, requestedSpan, tolerated, limits) <==> |ms| < limits.minMarkets
    ensures Refused(WindowTooShort, ms, requestedSpan, tolerated, limits) <==> ShorterThan(ms, limits.minSpan)
    ensures Refused(TooFewSettled, ms, requestedSpan, tolerated, limits) <==> |Where(ms, IsSettled)| < limits.minSettled
    ensures Refused(Survivorship, ms, requestedSpan, tolerated, limits) <==> forall i :: 0 <= i < |ms| ==> ms[i].resolvedOutcome != None
  {
    SpanIsWidest(ms, limits.minSpan);
    CountsAreWhere(ms, "");
  }

  lemma OneSeries(ms: seq<Market>)
    requires ms != []
    ensures |SeriesKeys(ms)| < 2 <==> forall i :: 0 <= i < |ms| ==> SeriesKey(ms[i]) == SeriesKey(ms[0])
  {
    var keys, k := SeriesKeys(ms), SeriesKey(ms[0]);
    assert k in keys;
    if forall i :: 0 <= i < |ms| ==> SeriesKey(ms[i]) == k {
      assert keys == {k};
    } else {
      var i :| 0 <= i < |ms| && SeriesKey(ms[i]) != k;
      assert {k, SeriesKey(ms[i])} <= keys;
      SubsetSize({k, SeriesKey(ms[i])}, keys);
    }
  }

  lemma SubsetSize(a: set<string>, b: set<string>)
    requires a <= b
    ensures |a| <= |b|
  {
    assert b == a + (b - a);
  }

  /** With nothing loosened: 200 markets, 100 of them settled but not all, 30 days, two series, and a median gap within 20 intervals or five minutes. */
  lemma DefaultsRefuse(ms: seq<Market>, requestedSpan: int, interval: int, tolerated: int)
    requires ms != [] && interval > 0 && GapTolerance(interval, DEFAULTS.gapMultiple, DEFAULTS.gapFloor) == Ok(tolerated)
    ensures tolerated == if interval * 20 > 300_000_000 then interval * 20 else 300_000_000
    ensures Refused(TooFewMarkets, ms, requestedSpan, tolerated, DEFAULTS) <==> |ms| < 200
    ensures Refused(TooFewSettled, ms, requestedSpan, tolerated, DEFAULTS) <==> |Where(ms, IsSettled)| < 100
    ensures Refused(WindowTooShort, ms, requestedSpan, tolerated, DEFAULTS) <==> ShorterThan(ms, 30 * 24 * 60 * 60 * 1_000_000)
    ensures Refused(SingleSeries, ms, requestedSpan, tolerated, DEFAULTS)
            <==> forall i :: 0 <= i < |ms| ==> SeriesKey(ms[i]) == SeriesKey(ms[0])
    ensures Refused(GapsTooLarge, ms, requestedSpan, tolerated, DEFAULTS) <==> Median(GapsOf(ms, requestedSpan)) > tolerated
  {
    RefusalsSay(ms, requestedSpan, tolerated, DEFAULTS);
    OneSeries(ms);
  }

  lemma ShareAbove(count: int, n: int, limit: real)
    requires n > 0
    ensures Share(count, n) > limit <==> count as real > limit * n as real
    ensures Share(count, n) < limit <==> (count as real) < limit * n as real
  {
    var x :| x == Share(count, n);
    QuotientTimes(count as real, n as real);
    if x > limit {
      ProductPositive(x - limit, n as real);
      Distribute(x, limit, n as real);
    } else {
      ProductMonotone(x, limit, n as real);
    }
    if x < limit {
      ProductPositive(limit - x, n as real);
      Distribute(limit, x, n as real);
    } else {
      ProductMonotone(limit, x, n as real);
    }
  }

  /** And its warnings: one of several series with more than four fifths of the markets, and less than three quarters of the window. */
  lemma DefaultsWarn(ms: seq<Market>, requestedSpan: int, tolerated: int)
    requires ms != [] && requestedSpan > 0
    ensures Warned(SeriesConcentration, ms, requestedSpan, tolerated, DEFAULTS)
            <==> |SeriesKeys(ms)| >= 2 && exists key :: key in SeriesKeys(ms) && 5 * |Where(ms, OfSeries(key))| > 4 * |ms|
    ensures Warned(PartialWindow, ms, requestedSpan, tolerated, DEFAULTS) <==> 4 * ObservedSpan(ms) < 3 * requestedSpan
  {
    forall key
      ensures Share(KeyCount(ms, key), |ms|) > 0.80 <==> 5 * |Where(ms, OfSeries(key))| > 4 * |ms|
    {
      CountsAreWhere(ms, key);
      ShareAbove(KeyCount(ms, key), |ms|, 0.80);
    }
    ShareAbove(ObservedSpan(ms), requestedSpan, 0.75);
  }

  /**
    * Measuring can only add refusals: replacing implied gaps by the largest gaps of the
    * timestamps behind them, for any of the markets, keeps every refusal that stood.
    */
  lemma MeasuringNeverForgives(code: Code, ms: seq<Market>, measured: seq<Market>, requestedSpan: int, tolerated: int, limits: Limits)
    requires ms != [] && Measures(ms, measured)
    ensures Refused(code, ms, requestedSpan, tolerated, limits) ==> Refused(code, measured, requestedSpan, tolerated, limits)
    ensures code != GapsTooLarge ==> Refused(code, measured, requestedSpan, tolerated, limits) == Refused(code, ms, requestedSpan, tolerated, limits)
  {
    MeasuringGrowsGaps(ms, measured, requestedSpan);
    MedianMonotone(GapsOf(ms, requestedSpan), GapsOf(measured, requestedSpan));
    SameOtherwise(ms, measured);
  }

  lemma {:induction false} SameOtherwise(ms: seq<Market>, measured: seq<Market>)
    requires ms != [] && Measures(ms, measured)
    ensures Earliest(ms) == Earliest(measured) && Latest(ms) == Latest(measured)
    ensures SettledCount(ms) == SettledCount(measured)
    ensures SeriesKeys(ms) == SeriesKeys(measured)
  {
    forall i | 0 <= i < |ms| ensures measured[i].(maxGap := None) == ms[i].(maxGap := None) {
      assert MeasuresOne(ms[i], measured[i]);
    }
    SameSettled(ms, measured);
    assert forall i :: 0 <= i < |ms| ==> SeriesKey(ms[i]) == SeriesKey(measured[i]);
  }

  lemma {:induction false} SameSettled(ms: seq<Market>, measured: seq<Market>)
    requires |measured| == |ms| && forall i :: 0 <= i < |ms| ==> measured[i].(maxGap := None) == ms[i].(maxGap := None)
    ensures SettledCount(ms) == SettledCount(measured)
  {
    if ms != [] {
      SameSettled(ms[..|ms| - 1], measured[..|ms| - 1]);
    }
  }

  // ---- Which supplied gaps can forgive ---------------------------------------------------------

  /** One audit in which supplying `gap` for `m` lifts the refusal. */
  ghost predicate Forgives(
      m: Market, gap: int, before: seq<Market>, after: seq<Market>, requestedSpan: int, tolerated: int, limits: Limits) {
    && Refused(GapsTooLarge, before + [m] + after, requestedSpan, tolerated, limits)
    && !Refused(GapsTooLarge, before + [m.(maxGap := Some(gap))] + after, requestedSpan, tolerated, limits)
  }

  /** No sample around it, no positive tolerance and no limits make it so. */
  ghost predicate NeverForgives(m: Market, gap: int, requestedSpan: int) {
    forall before: seq<Market>, after: seq<Market>, tolerated: int, limits: Limits :: tolerated > 0 ==>
      !Forgives(m, gap, before, after, requestedSpan, tolerated, limits)
  }

  /**
    * Exactly: a supplied gap can never forgive if and only if it is at least the gap it replaces.
    * Nothing stops a caller from attaching less, to a single snapshot say; a measured gap never is.
    */
  lemma ForgivesExactlyWhenSmaller(m: Market, gap: int, requestedSpan: int)
    requires Sound(m) && Sound(m.(maxGap := Some(gap))) && requestedSpan >= 0
    ensures NeverForgives(m, gap, requestedSpan) <==> gap >= GapOf(m, requestedSpan)
  {
    if gap >= GapOf(m, requestedSpan) {
      forall before: seq<Market>, after: seq<Market>, tolerated: int, limits: Limits | tolerated > 0
        ensures !Forgives(m, gap, before, after, requestedSpan, tolerated, limits)
      {
        NoSmallerNeverForgives(m, gap, before, after, requestedSpan, tolerated, limits);
      }
    } else if gap >= 1 || GapOf(m, requestedSpan) >= 2 {
      AloneItForgives(m, gap, requestedSpan, MaxI(gap, 1));
    } else {
      BesideItForgives(m, gap, requestedSpan);
    }
  }

  lemma NoSmallerNeverForgives(
      m: Market, gap: int, before: seq<Market>, after: seq<Market>, requestedSpan: int, tolerated: int, limits: Limits)
    requires gap >= GapOf(m, requestedSpan)
    ensures !Forgives(m, gap, before, after, requestedSpan, tolerated, limits)
  {
    var ms, supplied := before + [m] + after, before + [m.(maxGap := Some(gap))] + after;
    forall i | 0 <= i < |ms| ensures GapsOf(ms, requestedSpan)[i] <= GapsOf(supplied, requestedSpan)[i] {
      if i != |before| { assert supplied[i] == ms[i]; }
    }
    MedianMonotone(GapsOf(ms, requestedSpan), GapsOf(supplied, requestedSpan));
  }

  lemma AloneItForgives(m: Market, gap: int, requestedSpan: int, tolerated: int)
    requires 0 < tolerated && gap <= tolerated < GapOf(m, requestedSpan)
    ensures !NeverForgives(m, gap, requestedSpan)
  {
    var n := m.(maxGap := Some(gap));
    MedianBetween(GapsOf([m], requestedSpan), GapOf(m, requestedSpan), GapOf(m, requestedSpan));
    MedianBetween(GapsOf([n], requestedSpan), gap, gap);
    assert [] + [m] + [] == [m] && [] + [n] + [] == [n];
    assert Forgives(m, gap, [], [], requestedSpan, tolerated, DEFAULTS);
  }

  /** The last case, a gap of one microsecond replaced by none: it shows beside a market whose gap is two. */
  lemma BesideItForgives(m: Market, gap: int, requestedSpan: int)
    requires gap == 0 && GapOf(m, requestedSpan) == 1
    ensures !NeverForgives(m, gap, requestedSpan)
  {
    var n, other := m.(maxGap := Some(gap)), m.(maxGap := Some(2));
    MedianOfTwo(2, 1);
    MedianOfTwo(2, 0);
    assert [other] + [m] + [] == [other, m] && [other] + [n] + [] == [other, n];
    assert GapsOf([other, m], requestedSpan) == [2, 1] && GapsOf([other, n], requestedSpan) == [2, 0];
    assert Forgives(m, gap, [other], [], requestedSpan, 1, DEFAULTS);
  }

  lemma MedianOfTwo(high: int, low: int)
    requires high > low
    ensures Median([high, low]) == Divided(low + high, 2)
    ensures high == 2 && low == 1 ==> Median([high, low]) == 2
    ensures high == 2 && low == 0 ==> Median([high, low]) == 1
  {
    assert [high, low][..1] == [high] && [high][..0] == [];
    assert Sort([high], AsReal) == [high];
    assert AsReal(low) < AsReal(high);
    assert Sort([high, low], AsReal) == [low, high];
    assert 3 as real / 2.0 == 1.5 && 2 as real / 2.0 == 1.0;
  }

  /** The witness in full: one market seen once in a window of ten, five tolerated, and a gap of nothing attached to it. */
  lemma SingleSnapshotGapForgives()
    ensures var m := Market("T", None, 0, 0, 1, None, None, None);
      && Sound(m) && Sound(m.(maxGap := Some(0))) && GapOf(m, 10) == 10
      && Refused(GapsTooLarge, [m], 10, 5, DEFAULTS)
      && !Refused(GapsTooLarge, [m.(maxGap := Some(0))], 10, 5, DEFAULTS)
  {
    var m := Market("T", None, 0, 0, 1, None, None, None);
    var n := m.(maxGap := Some(0));
    MedianBetween(GapsOf([m], 10), 10, 10);
    MedianBetween(GapsOf([n], 10), 0, 0);
  }

  // ---- The audit ---------------------------------------------------------------------------------

  datatype Report = Report(
    marketCount: int, seriesCount: int, settledCount: int, unsettledCount: int, totalObservations: int, toleratedGap: int,
    medianGap: Option<int>, worstGap: Option<int>, gapsMeasured: bool, singleObservationMarkets: int,
    refusals: seq<Code>, warnings: seq<Warning>)

  function Rank(c: Code): int {
    match c
    case NoData => 0
    case TooFewMarkets => 1
    case WindowTooShort => 2
    case TooFewSettled => 3
    case Survivorship => 4
    case SingleSeries => 5
    case GapsTooLarge => 6
  }

  function WarningRank(w: Warning): int {
    match w
    case SeriesConcentration => 0
    case IsolatedGaps => 1
    case GapEstimateImprecise => 2
    case PartialWindow => 3
  }

  ghost predicate Ranked(codes: seq<Code>) {
    forall i, j :: 0 <= i < j < |codes| ==> Rank(codes[i]) < Rank(codes[j])
  }

  ghost predicate WarningsRanked(ws: seq<Warning>) {
    forall i, j :: 0 <= i < j < |ws| ==> WarningRank(ws[i]) < WarningRank(ws[j])
  }

  /** A code is added after lower-ranked ones exactly when its check fails. */
  function AddCode(codes: seq<Code>, c: Code, failed: bool): (r: seq<Code>)
    requires Ranked(codes) && forall d :: d in codes ==> Rank(d) < Rank(c)
    ensures Ranked(r) && forall d :: d in r <==> d in codes || (d == c && failed)
  {
    assert forall i :: 0 <= i < |codes| ==> codes[i] in codes;
    if failed then codes + [c] else codes
  }

  function AddWarning(ws: seq<Warning>, w: Warning, failed: bool): (r: seq<Warning>)
    requires WarningsRanked(ws) && forall d :: d in ws ==> WarningRank(d) < WarningRank(w)
    ensures WarningsRanked(r) && forall d :: d in r <==> d in ws || (d == w && failed)
  {
    assert forall i :: 0 <= i < |ws| ==> ws[i] in ws;
    if failed then ws + [w] else ws
  }

  function TotalObservations(ms: seq<Market>): int {
    if ms == [] then 0 else TotalObservations(ms[..|ms| - 1]) + ms[|ms| - 1].observations
  }

  lemma {:induction false} SoundTotals(ms: seq<Market>)
    requires AllSound(ms)
    ensures TotalObservations(ms) >= |ms|
  {
    if ms != [] {
      SoundTotals(ms[..|ms| - 1]);
    }
  }

  function IsSingle(m: Market): bool {
    m.maxGap.None? && m.observations < 2
  }

  function SingleCount(ms: seq<Market>): nat {
    if ms == [] then 0 else SingleCount(ms[..|ms| - 1]) + if IsSingle(ms[|ms| - 1]) then 1 else 0
  }

  method GatherGaps(ms: seq<Market>, requestedSpan: int) returns (gaps: seq<int>, measured: bool, singles: int)
    ensures gaps == GapsOf(ms, requestedSpan)
    ensures measured <==> exists i :: 0 <= i < |ms| && ms[i].maxGap.Some?
    ensures singles == SingleCount(ms)
  {
    gaps, measured, singles := [], false, 0;
    for i := 0 to |ms|
      invariant gaps == GapsOf(ms, requestedSpan)[..i]
      invariant measured <==> exists j :: 0 <= j < i && ms[j].maxGap.Some?
      invariant singles == SingleCount(ms[..i])
    {
      assert ms[..i + 1][..i] == ms[..i];
      var m := ms[i];
      if m.maxGap.Some? {
        gaps := gaps + [m.maxGap.value];
        measured := true;
      } else if m.observations >= 2 {
        gaps := gaps + [Divided(m.lastTs - m.firstTs, m.observations - 1)];
      } else {
        singles := singles + 1;
        gaps := gaps + [requestedSpan];
      }
    }
    assert ms[..|ms|] == ms;
  }

  method CountSeries(ms: seq<Market>) returns (counts: map<string, int>)
    ensures counts.Keys == SeriesKeys(ms)
    ensures forall key :: key in counts ==> counts[key] == KeyCount(ms, key)
  {
    counts := map[];
    for i := 0 to |ms|
      invariant counts.Keys == SeriesKeys(ms[..i])
      invariant forall key :: key in counts ==> counts[key] == KeyCount(ms[..i], key)
    {
      var key := SeriesKey(ms[i]);
      SeriesNext(ms, i);
      counts := counts[key := (if key in counts then counts[key] else 0) + 1];
    }
    assert ms[..|ms|] == ms;
  }

  lemma SeriesNext(ms: seq<Market>, i: nat)
    requires i < |ms|
    ensures SeriesKeys(ms[..i + 1]) == SeriesKeys(ms[..i]) + {SeriesKey(ms[i])}
    ensures forall key :: KeyCount(ms[..i + 1], key) == KeyCount(ms[..i], key) + if SeriesKey(ms[i]) == key then 1 else 0
    ensures SeriesKey(ms[i]) !in SeriesKeys(ms[..i]) ==> KeyCount(ms[..i], SeriesKey(ms[i])) == 0
  {
    assert ms[..i + 1][..i] == ms[..i];
    var more := ms[..i + 1];
    forall key | key in SeriesKeys(more) ensures key in SeriesKeys(ms[..i]) + {SeriesKey(ms[i])} {
      var j :| 0 <= j < |more| && SeriesKey(more[j]) == key;
      if j < i { assert ms[..i][j] == more[j]; }
    }
    forall key | key in SeriesKeys(ms[..i]) ensures key in SeriesKeys(more) {
      var j :| 0 <= j < i && SeriesKey(ms[..i][j]) == key;
      assert more[j] == ms[..i][j];
    }
    assert more[i] == ms[i];
    if SeriesKey(ms[i]) !in SeriesKeys(ms[..i]) {
      UnseenCount(ms[..i], SeriesKey(ms[i]));
    }
  }

  lemma {:induction false} UnseenCount(ms: seq<Market>, key: string)
    requires key !in SeriesKeys(ms)
    ensures KeyCount(ms, key) == 0
  {
    if ms != [] {
      var init := ms[..|ms| - 1];
      forall i | 0 <= i < |init| ensures SeriesKey(init[i]) != key {
        assert SeriesKey(ms[i]) in SeriesKeys(ms);
      }
      assert SeriesKey(ms[|ms| - 1]) in SeriesKeys(ms);
      UnseenCount(init, key);
    }
  }

  /** The largest of some counts. */
  method Largest(counts: map<string, int>) returns (n: int)
    requires counts != map[]
    ensures forall key :: key in counts ==> counts[key] <= n
    ensures exists key :: key in counts && counts[key] == n
  {
    var key := AnyOf(counts.Keys);
    n := counts[key];
    var todo := counts.Keys - {key};
    while todo != {}
      invariant todo <= counts.Keys
      invariant forall k :: k in counts.Keys - todo ==> counts[k] <= n
      invariant exists k :: k in counts && counts[k] == n
      decreases |todo|
    {
      var k := AnyOf(todo);
      n := MaxI(n, counts[k]);
      todo := todo - {k};
    }
  }

  /** No gap is larger, and some gap is as large. */
  ghost predicate IsWorst(worst: int, gaps: seq<int>) {
    && (forall i :: 0 <= i < |gaps| ==> gaps[i] <= worst)
    && exists i :: 0 <= i < |gaps| && gaps[i] == worst
  }

  method Worst(gaps: seq<int>) returns (worst: int)
    requires gaps != []
    ensures IsWorst(worst, gaps)
  {
    worst := gaps[0];
    for i := 1 to |gaps|
      invariant forall j :: 0 <= j < i ==> gaps[j] <= worst
      invariant exists j :: 0 <= j < |gaps| && gaps[j] == worst
    {
      worst := MaxI(worst, gaps[i]);
    }
  }

  function Share(count: int, n: int): real
    requires n > 0
  {
    count as real / n as real
  }

  lemma ShareMonotone(a: int, b: int, n: int)
    requires n > 0 && a <= b
    ensures Share(a, n) <= Share(b, n)
  {
    QuotientTimes(a as real, n as real);
    QuotientTimes(b as real, n as real);
    var x, y := Share(a, n), Share(b, n);
    Distribute(x, y, n as real);
    if x > y { ProductPositive(x - y, n as real); }
  }

  lemma {:induction false} LargestShare(ms: seq<Market>, counts: map<string, int>, largest: int, limits: Limits)
    requires ms != [] && counts.Keys == SeriesKeys(ms)
    requires forall key :: key in counts ==> counts[key] == KeyCount(ms, key) && counts[key] <= largest
    requires exists key :: key in counts && counts[key] == largest
    ensures Share(largest, |ms|) > limits.maxConcentration <==> Concentrated(ms, limits)
  {
    forall key | key in counts ensures Share(counts[key], |ms|) <= Share(largest, |ms|) {
      ShareMonotone(counts[key], largest, |ms|);
    }
  }

  ghost predicate ListsRefusals(codes: seq<Code>, ms: seq<Market>, requestedSpan: int, tolerated: int, limits: Limits) {
    if ms == [] then codes == [NoData]
    else Ranked(codes) && forall c :: c in codes <==> Refused(c, ms, requestedSpan, tolerated, limits)
  }

  ghost predicate ListsWarnings(ws: seq<Warning>, ms: seq<Market>, requestedSpan: int, tolerated: int, limits: Limits)
    requires requestedSpan > 0
  {
    if ms == [] then ws == []
    else WarningsRanked(ws) && forall w :: w in ws <==> Warned(w, ms, requestedSpan, tolerated, limits)
  }

  function RefusalFlag(c: Code, few: bool, short: bool, unsettled: bool, survivors: bool, single: bool, sparse: bool): bool {
    match c
    case NoData => false
    case TooFewMarkets => few
    case WindowTooShort => short
    case TooFewSettled => unsettled
    case Survivorship => survivors
    case SingleSeries => single
    case GapsTooLarge => sparse
  }

  method CollectBreadth(few: bool, short: bool, unsettled: bool) returns (refusals: seq<Code>)
    ensures Ranked(refusals) && forall c :: c in refusals ==> Rank(c) < 4
    ensures forall c :: c in refusals <==> RefusalFlag(c, few, short, unsettled, false, false, false)
  {
    refusals := AddCode([], TooFewMarkets, few);
    refusals := AddCode(refusals, WindowTooShort, short);
    refusals := AddCode(refusals, TooFewSettled, unsettled);
  }

  method CollectRefusals(few: bool, short: bool, unsettled: bool, survivors: bool, single: bool, sparse: bool) returns (refusals: seq<Code>)
    ensures Ranked(refusals)
    ensures forall c :: c in refusals <==> RefusalFlag(c, few, short, unsettled, survivors, single, sparse)
  {
    refusals := CollectBreadth(few, short, unsettled);
    refusals := AddCode(refusals, Survivorship, survivors);
    refusals := AddCode(refusals, SingleSeries, single);
    refusals := AddCode(refusals, GapsTooLarge, sparse);
  }

  function WarningFlag(w: Warning, dominated: bool, isolated: bool, implied: bool, partial: bool): bool {
    match w
    case SeriesConcentration => dominated
    case IsolatedGaps => isolated
    case GapEstimateImprecise => implied
    case PartialWindow => partial
  }

  method CollectWarnings(dominated: bool, isolated: bool, implied: bool, partial: bool) returns (warnings: seq<Warning>)
    ensures WarningsRanked(warnings)
    ensures forall w :: w in warnings <==> WarningFlag(w, dominated, isolated, implied, partial)
  {
    warnings := AddWarning([], SeriesConcentration, dominated);
    warnings := AddWarning(warnings, IsolatedGaps, isolated);
    warnings := AddWarning(warnings, GapEstimateImprecise, implied);
    warnings := AddWarning(warnings, PartialWindow, partial);
  }

  method FindRefusals(ms: seq<Market>, requestedSpan: int, tolerated: int, limits: Limits, seriesCount: int, median: int)
    returns (refusals: seq<Code>)
    requires ms != [] && seriesCount == |SeriesKeys(ms)| && median == Median(GapsOf(ms, requestedSpan))
    ensures ListsRefusals(refusals, ms, requestedSpan, tolerated, limits)
  {
    var few, short := |ms| < limits.minMarkets, ObservedSpan(ms) < limits.minSpan;
    var unsettled, survivors := SettledCount(ms) < limits.minSettled, |ms| - SettledCount(ms) == 0;
    var single, sparse := seriesCount < limits.minSeries, median > tolerated;
    forall c ensures RefusalFlag(c, few, short, unsettled, survivors, single, sparse) == Refused(c, ms, requestedSpan, tolerated, limits) {
    }
    refusals := CollectRefusals(few, short, unsettled, survivors, single, sparse);
  }

  method FindWarnings(ms: seq<Market>, requestedSpan: int, tolerated: int, limits: Limits,
    seriesCount: int, concentrated: bool, median: int, worst: int, measured: bool) returns (warnings: seq<Warning>)
    requires ms != [] && requestedSpan > 0
    requires seriesCount == |SeriesKeys(ms)| && concentrated == Concentrated(ms, limits)
    requires median == Median(GapsOf(ms, requestedSpan))
    requires worst > tolerated <==> SomeGapAbove(GapsOf(ms, requestedSpan), tolerated)
    requires measured <==> exists i :: 0 <= i < |ms| && ms[i].maxGap.Some?
    ensures ListsWarnings(warnings, ms, requestedSpan, tolerated, limits)
  {
    var fill := MinR(1.0, Share(ObservedSpan(ms), requestedSpan));
    var dominated, isolated := seriesCount >= limits.minSeries && concentrated, median <= tolerated && worst > tolerated;
    var partial := fill < limits.minFill;
    forall w ensures WarningFlag(w, dominated, isolated, !measured, partial) == Warned(w, ms, requestedSpan, tolerated, limits) {
    }
    warnings := CollectWarnings(dominated, isolated, !measured, partial);
  }

  ghost predicate Measured(report: Report, ms: seq<Market>, requestedSpan: int)
    requires ms != []
  {
    && report.marketCount == |ms| && report.seriesCount == |SeriesKeys(ms)|
    && report.settledCount == SettledCount(ms) && report.unsettledCount == |ms| - SettledCount(ms)
    && report.totalObservations == TotalObservations(ms)
    && report.medianGap == Some(Median(GapsOf(ms, requestedSpan)))
    && report.singleObservationMarkets == SingleCount(ms)
    && (exists worst :: report.worstGap == Some(worst) && IsWorst(worst, GapsOf(ms, requestedSpan)))
    && (report.gapsMeasured <==> exists i :: 0 <= i < |ms| && ms[i].maxGap.Some?)
  }

  method Measure(ms: seq<Market>, requestedSpan: int, tolerated: int, limits: Limits) returns (report: Report)
    requires ms != [] && requestedSpan > 0
    ensures Measured(report, ms, requestedSpan) && report.toleratedGap == tolerated
    ensures ListsRefusals(report.refusals, ms, requestedSpan, tolerated, limits)
    ensures ListsWarnings(report.warnings, ms, requestedSpan, tolerated, limits)
  {
    var counts := CountSeries(ms);
    assert SeriesKey(ms[0]) in counts.Keys;
    var largest := Largest(counts);
    LargestShare(ms, counts, largest, limits);
    var concentrated := Share(largest, |ms|) > limits.maxConcentration;
    var gaps, measured, singles := GatherGaps(ms, requestedSpan);
    var median := Median(gaps);
    var worst := Worst(gaps);
    var refusals := FindRefusals(ms, requestedSpan, tolerated, limits, |counts.Keys|, median);
    var warnings := FindWarnings(ms, requestedSpan, tolerated, limits, |counts.Keys|, concentrated, median, worst, measured);
    var settled := SettledCount(ms);
    report := Report(|ms|, |counts.Keys|, settled, |ms| - settled, TotalObservations(ms), tolerated, Some(median), Some(worst),
      measured, singles, refusals, warnings);
  }

  /** Every finding, in a fixed order; a window with no market in it is reported alone. */
  method Audit(ms: seq<Market>, windowStart: int, windowEnd: int, expectedInterval: int, limits: Limits)
    returns (r: Result<Report, CoverageError>)
    requires AllSound(ms)
    ensures r == Err(EmptyWindow) <==> windowEnd <= windowStart
    ensures r == Err(BadInterval) <==> windowEnd > windowStart && expectedInterval <= 0
    ensures r.Err? <==> windowEnd <= windowStart || expectedInterval <= 0 || limits.gapMultiple < 1
    ensures r.Err? ==> r.error in {EmptyWindow, BadInterval, BadMultiple}
    ensures r.Ok? ==> r.value.toleratedGap == MaxI(expectedInterval * limits.gapMultiple, limits.gapFloor)
    ensures r.Ok? ==> ListsRefusals(r.value.refusals, ms, windowEnd - windowStart, r.value.toleratedGap, limits)
    ensures r.Ok? ==> ListsWarnings(r.value.warnings, ms, windowEnd - windowStart, r.value.toleratedGap, limits)
    ensures r.Ok? && ms != [] ==> Measured(r.value, ms, windowEnd - windowStart)
  {
    if windowEnd <= windowStart {
      return Err(EmptyWindow);
    }
    var tolerance := GapTolerance(expectedInterval, limits.gapMultiple, limits.gapFloor);
    if tolerance.Err? {
      return Err(tolerance.error);
    }
    var tolerated, requestedSpan := tolerance.value, windowEnd - windowStart;
    SoundTotals(ms);
    var observations := TotalObservations(ms);
    if |ms| == 0 || observations == 0 {
      return Ok(Report(|ms|, 0, 0, 0, observations, tolerated, None, None, false, 0, [NoData], []));
    }
    var report := Measure(ms, requestedSpan, tolerated, limits);
    r := Ok(report);
  }

  datatype Gate = Pass | CoverageRefused(codes: seq<Code>)

  /** Blocked exactly when some refusal stands; warnings do not block. */
  function AssertUsable(report: Report): Gate {
    if report.refusals != [] then CoverageRefused(report.refusals) else Pass
  }

  /** Better data about the same markets can stop a backtest, never start one. */
  lemma MeasuringNeverUnblocks(before: Report, after: Report, ms: seq<Market>, measured: seq<Market>, requestedSpan: int, limits: Limits)
    requires Measures(ms, measured) && before.toleratedGap == after.toleratedGap
    requires ListsRefusals(before.refusals, ms, requestedSpan, before.toleratedGap, limits)
    requires ListsRefusals(after.refusals, measured, requestedSpan, after.toleratedGap, limits)
    ensures AssertUsable(after) == Pass ==> AssertUsable(before) == Pass
    ensures forall c :: c in before.refusals ==> c in after.refusals
  {
    if ms != [] {
      forall c | c in before.refusals ensures c in after.refusals {
        MeasuringNeverForgives(c, ms, measured, requestedSpan, before.toleratedGap, limits);
      }
    }
    if before.refusals != [] {
      assert before.refusals[0] in after.refusals;
    }
  }
}
