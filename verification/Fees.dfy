/**
 Fee math (`backend/app/core/fees.py`): fees round up to a centicent, once per
 fill, on a quantity that is concave in the price. Prices are dollars, fees cents.
 */
module Fees {
  import opened Prelude
  import opened Sums

  const CENTICENT: real := 0.0001

  datatype FeeRefusal = UnknownSeries | PriceOutOfRange | NegativeContracts

  /** `series` maps a series ticker to its (maker, taker) multipliers. */
  datatype FeeSchedule = FeeSchedule(
    baseTaker: real, baseMaker: real, defaultTaker: real, defaultMaker: real, series: map<string, (real, real)>) {
    ghost predicate TakerDefaultSafe() {
      forall k :: k in series ==> series[k].1 <= defaultTaker
    }

    ghost predicate MakerDefaultSafe() {
      forall k :: k in series ==> series[k].0 <= defaultMaker
    }
  }

  datatype Need = Taker | Maker | Both

  ghost predicate DefaultUnsafe(s: FeeSchedule, need: Need) {
    match need
    case Taker => !s.TakerDefaultSafe()
    case Maker => !s.MakerDefaultSafe()
    case Both => !(s.TakerDefaultSafe() && s.MakerDefaultSafe())
  }

  /** (maker, taker) multipliers; an unlisted series is refused when its default could understate the side needed. */
  ghost function Multipliers(s: FeeSchedule, series: string, need: Need): Result<(real, real), FeeRefusal> {
    if series in s.series then Ok(s.series[series])
    else if DefaultUnsafe(s, need) then Err(UnknownSeries)
    else Ok((s.defaultMaker, s.defaultTaker))
  }

  /** A dollar fee rounded up to the next centicent, in cents. */
  function RoundUp(dollars: real): real {
    (Ceiling(dollars / CENTICENT) as real) * CENTICENT * 100.0
  }

  /** Variance-shaped part of the fee. */
  function Spread(price: real): real {
    price * (1.0 - price)
  }

  function Weighted(qty: real, price: real): real {
    qty * Spread(price)
  }

  function Gross(rate: real, qty: real, price: real): real {
    rate * Weighted(qty, price)
  }

  /** Effective rate: the base rate with a series multiplier applied. */
  function Rate(base: real, multiplier: real): real {
    base * multiplier
  }

  ghost function TakerFee(price: real, qty: real, series: string, s: FeeSchedule): Result<real, FeeRefusal> {
    if !(0.0 < price < 1.0) then Err(PriceOutOfRange)
    else if qty < 0.0 then Err(NegativeContracts)
    else if qty == 0.0 then Ok(0.0)
    else
      var m := Multipliers(s, series, Taker);
      if m.Err? then Err(m.error) else Ok(RoundUp(Gross(Rate(s.baseTaker, m.value.1), qty, price)))
  }

  ghost function MakerFee(price: real, qty: real, series: string, s: FeeSchedule): Result<real, FeeRefusal> {
    if !(0.0 < price < 1.0) then Err(PriceOutOfRange)
    else if qty < 0.0 then Err(NegativeContracts)
    else if qty == 0.0 then Ok(0.0)
    else
      var m := Multipliers(s, series, Maker);
      if m.Err? then Err(m.error)
      else if Rate(s.baseMaker, m.value.0) == 0.0 then Ok(0.0)
      else Ok(RoundUp(Gross(Rate(s.baseMaker, m.value.0), qty, price)))
  }

  // ----- rounding -----

  lemma CeilMonotone(x: real, y: real)
    requires x <= y
    ensures Ceiling(x) <= Ceiling(y)
  {
  }

  lemma CeilAdds(x: real, y: real)
    ensures Ceiling(x + y) <= Ceiling(x) + Ceiling(y) <= Ceiling(x + y) + 1
  {
  }

  /** `n` centicents cover a dollar amount. */
  ghost predicate Covers(n: int, dollars: real) {
    n as real * CENTICENT >= dollars
  }

  /** `cents` is the least whole number of centicents that covers `dollars`. */
  ghost predicate IsLeastFee(cents: real, dollars: real) {
    exists n: int :: Covers(n, dollars) && cents == n as real * 0.01 && forall m: int :: Covers(m, dollars) ==> m >= n
  }

  lemma RoundUpIsLeast(dollars: real)
    ensures IsLeastFee(RoundUp(dollars), dollars)
  {
    var n := Ceiling(dollars / CENTICENT);
    forall m: int | Covers(m, dollars) ensures m >= n {
      assert m as real >= dollars / CENTICENT;
    }
    assert Covers(n, dollars);
  }

  lemma RoundUpMonotone(x: real, y: real)
    requires x <= y
    ensures RoundUp(x) <= RoundUp(y)
  {
    CeilMonotone(x / CENTICENT, y / CENTICENT);
  }

  lemma RoundUpAdds(x: real, y: real)
    ensures RoundUp(x + y) <= RoundUp(x) + RoundUp(y) <= RoundUp(x + y) + 0.01
  {
    CeilAdds(x / CENTICENT, y / CENTICENT);
    assert (x + y) / CENTICENT == x / CENTICENT + y / CENTICENT;
  }

  function RoundedEach(xs: seq<real>): (r: seq<real>)
    ensures |r| == |xs| && forall i :: 0 <= i < |xs| ==> r[i] == RoundUp(xs[i])
  {
    seq(|xs|, i requires 0 <= i < |xs| => RoundUp(xs[i]))
  }

  /** Rounding `n` pieces separately costs between nothing and `n - 1` centicents more than rounding their sum. */
  lemma {:induction false} RoundingPieces(xs: seq<real>)
    requires xs != []
    ensures RoundUp(Sum(xs)) <= Sum(RoundedEach(xs)) <= RoundUp(Sum(xs)) + 0.01 * (|xs| - 1) as real
  {
    assert RoundedEach(xs)[1..] == RoundedEach(xs[1..]);
    if |xs| == 1 {
      assert Sum(xs) == xs[0] && Sum(RoundedEach(xs)) == RoundUp(xs[0]);
    } else {
      RoundingPieces(xs[1..]);
      RoundUpAdds(xs[0], Sum(xs[1..]));
    }
  }

  // ----- what a fee means -----

  lemma GrossSymmetric(rate: real, qty: real, price: real)
    ensures Gross(rate, qty, 1.0 - price) == Gross(rate, qty, price)
  {
    assert Spread(1.0 - price) == Spread(price);
  }

  /** Trading YES at `p` and NO at `1 - p` cost the same fee. */
  lemma FeeSymmetric(price: real, qty: real, series: string, s: FeeSchedule)
    ensures TakerFee(1.0 - price, qty, series, s) == TakerFee(price, qty, series, s)
    ensures MakerFee(1.0 - price, qty, series, s) == MakerFee(price, qty, series, s)
  {
    var t, m := Multipliers(s, series, Taker), Multipliers(s, series, Maker);
    if t.Ok? {
      GrossSymmetric(Rate(s.baseTaker, t.value.1), qty, price);
    }
    if m.Ok? {
      GrossSymmetric(Rate(s.baseMaker, m.value.0), qty, price);
    }
  }

  lemma GrossExpanded(rate: real, qty: real, price: real)
    ensures Gross(rate, qty, price) == rate * qty * price * (1.0 - price)
  {
    var w := 1.0 - price;
    assert rate * (qty * (price * w)) == rate * qty * price * w;
  }

  /** The taker fee is the least whole number of centicents that covers rate * C * P * (1 - P). */
  lemma TakerFeeIsLeast(price: real, qty: real, series: string, s: FeeSchedule, rate: real)
    requires 0.0 < price < 1.0 && qty > 0.0 && Multipliers(s, series, Taker).Ok?
    requires rate == s.baseTaker * Multipliers(s, series, Taker).value.1
    ensures TakerFee(price, qty, series, s).Ok?
    ensures IsLeastFee(TakerFee(price, qty, series, s).value, rate * qty * price * (1.0 - price))
  {
    GrossExpanded(rate, qty, price);
    RoundUpIsLeast(Gross(rate, qty, price));
    assert rate == Rate(s.baseTaker, Multipliers(s, series, Taker).value.1);
  }

  // ----- splitting one price into several fills -----

  function GrossEach(rate: real, qtys: seq<real>, price: real): (r: seq<real>)
    ensures |r| == |qtys| && forall i :: 0 <= i < |qtys| ==> r[i] == Gross(rate, qtys[i], price)
  {
    seq(|qtys|, i requires 0 <= i < |qtys| => Gross(rate, qtys[i], price))
  }

  /** The total fee of several fills. */
  function FeeOf(gross: seq<real>): real {
    Sum(RoundedEach(gross))
  }

  /** The factor one contract contributes at a fixed price. */
  function PerContract(rate: real, price: real): real {
    rate * Spread(price)
  }

  lemma GrossFactors(rate: real, qty: real, price: real)
    ensures Gross(rate, qty, price) == PerContract(rate, price) * qty
  {
    var w := Spread(price);
    assert rate * (qty * w) == (rate * w) * qty;
  }

  lemma {:induction false} GrossOfTotal(rate: real, qtys: seq<real>, price: real)
    ensures Sum(GrossEach(rate, qtys, price)) == Gross(rate, Sum(qtys), price)
  {
    forall i | 0 <= i < |qtys| ensures GrossEach(rate, qtys, price)[i] == PerContract(rate, price) * qtys[i] {
      GrossFactors(rate, qtys[i], price);
    }
    SumScales(qtys, GrossEach(rate, qtys, price), PerContract(rate, price));
    GrossFactors(rate, Sum(qtys), price);
  }

  /** An order filled in `n` pieces at one price pays the single fee, plus at most `n - 1` centicents. */
  lemma {:induction false} SplittingBounded(rate: real, qtys: seq<real>, price: real)
    requires qtys != []
    ensures RoundUp(Gross(rate, Sum(qtys), price)) <= FeeOf(GrossEach(rate, qtys, price))
    ensures FeeOf(GrossEach(rate, qtys, price)) <= RoundUp(Gross(rate, Sum(qtys), price)) + 0.01 * (|qtys| - 1) as real
  {
    GrossOfTotal(rate, qtys, price);
    RoundingPieces(GrossEach(rate, qtys, price));
  }

  // ----- walking several prices -----

  /** One fill of a walk: a price and a quantity. */
  datatype Fill = Fill(price: real, qty: real) {
    function Notional(): real {
      qty * price
    }
  }

  function Qtys(fs: seq<Fill>): (r: seq<real>)
    ensures |r| == |fs| && forall i :: 0 <= i < |fs| ==> r[i] == fs[i].qty
  {
    seq(|fs|, i requires 0 <= i < |fs| => fs[i].qty)
  }

  function Notionals(fs: seq<Fill>): (r: seq<real>)
    ensures |r| == |fs| && forall i :: 0 <= i < |fs| ==> r[i] == fs[i].Notional()
  {
    seq(|fs|, i requires 0 <= i < |fs| => fs[i].Notional())
  }

  function Spreads(fs: seq<Fill>): (r: seq<real>)
    ensures |r| == |fs| && forall i :: 0 <= i < |fs| ==> r[i] == Weighted(fs[i].qty, fs[i].price)
  {
    seq(|fs|, i requires 0 <= i < |fs| => Weighted(fs[i].qty, fs[i].price))
  }

  function WalkGross(rate: real, fs: seq<Fill>): (r: seq<real>)
    ensures |r| == |fs| && forall i :: 0 <= i < |fs| ==> r[i] == Gross(rate, fs[i].qty, fs[i].price)
  {
    seq(|fs|, i requires 0 <= i < |fs| => Gross(rate, fs[i].qty, fs[i].price))
  }

  /** The tangent to P(1 - P) at `at`, weighted by `q`. */
  function Tangent(q: real, notional: real, at: real): real {
    (1.0 - 2.0 * at) * notional + at * at * q
  }

  /** P(1 - P) lies under its tangent. */
  lemma SpreadUnderTangent(q: real, p: real, at: real)
    requires q >= 0.0
    ensures Weighted(q, p) <= Tangent(q, q * p, at)
  {
    var d := p - at;
    var square := d * d;
    assert square >= 0.0;
    ProductNonNegative(q, square);
    assert square == p * p - 2.0 * at * p + at * at;
    assert q * square == q * (p * p) - 2.0 * at * (q * p) + at * at * q;
    assert q * (p * (1.0 - p)) == q * p - q * (p * p);
  }

  function TangentOf(f: Fill, at: real): real {
    Tangent(f.qty, f.Notional(), at)
  }

  function Tangents(fs: seq<Fill>, at: real): (r: seq<real>)
    ensures |r| == |fs| && forall i :: 0 <= i < |fs| ==> r[i] == TangentOf(fs[i], at)
  {
    seq(|fs|, i requires 0 <= i < |fs| => TangentOf(fs[i], at))
  }

  lemma {:induction false} TangentsAdd(fs: seq<Fill>, at: real)
    ensures Sum(Tangents(fs, at)) == Tangent(Sum(Qtys(fs)), Sum(Notionals(fs)), at)
  {
    if fs != [] {
      TangentsAdd(fs[1..], at);
      assert Tangents(fs, at)[1..] == Tangents(fs[1..], at);
      assert Qtys(fs)[1..] == Qtys(fs[1..]);
      assert Notionals(fs)[1..] == Notionals(fs[1..]);
      TangentAdds(fs[0].qty, fs[0].Notional(), Sum(Qtys(fs[1..])), Sum(Notionals(fs[1..])), at);
    }
  }

  lemma TangentAdds(q: real, n: real, q': real, n': real, at: real)
    ensures Tangent(q + q', n + n', at) == Tangent(q, n, at) + Tangent(q', n', at)
  {
    Distribute(n, n', 1.0 - 2.0 * at);
    Distribute(q, q', at * at);
  }

  lemma TangentAtBlend(q: real, n: real, at: real)
    requires at * q == n
    ensures Tangent(q, n, at) == Weighted(q, at)
  {
    assert at * at * q == at * n;
    assert q * (at * (1.0 - at)) == n - at * n;
  }

  lemma SpreadsUnderTangents(fs: seq<Fill>, at: real)
    requires forall i :: 0 <= i < |fs| ==> fs[i].qty >= 0.0
    ensures Sum(Spreads(fs)) <= Sum(Tangents(fs, at))
  {
    forall i | 0 <= i < |fs| ensures Spreads(fs)[i] <= Tangents(fs, at)[i] {
      SpreadUnderTangent(fs[i].qty, fs[i].price, at);
    }
    SumBounds(Spreads(fs), Tangents(fs, at));
  }

  /** Jensen: the blended price carries at least the fee-bearing spread of the fills it blends. */
  lemma BlendCarriesSpread(fs: seq<Fill>, vwap: real)
    requires forall i :: 0 <= i < |fs| ==> fs[i].qty >= 0.0
    requires vwap * Sum(Qtys(fs)) == Sum(Notionals(fs))
    ensures Sum(Spreads(fs)) <= Weighted(Sum(Qtys(fs)), vwap)
  {
    TangentAtBlend(Sum(Qtys(fs)), Sum(Notionals(fs)), vwap);
    TangentsAdd(fs, vwap);
    SpreadsUnderTangents(fs, vwap);
  }

  lemma WalkGrossBounded(rate: real, fs: seq<Fill>, vwap: real)
    requires rate >= 0.0
    requires forall i :: 0 <= i < |fs| ==> fs[i].qty >= 0.0
    requires vwap * Sum(Qtys(fs)) == Sum(Notionals(fs))
    ensures Sum(WalkGross(rate, fs)) <= Gross(rate, Sum(Qtys(fs)), vwap)
  {
    var total, qty :| total == Sum(Spreads(fs)) && qty == Sum(Qtys(fs));
    BlendCarriesSpread(fs, vwap);
    WalkGrossTotal(rate, fs, total);
    GrossAtLeast(rate, qty, vwap, total);
  }

  lemma GrossAtLeast(rate: real, qty: real, at: real, total: real)
    requires rate >= 0.0 && total <= Weighted(qty, at)
    ensures rate * total <= Gross(rate, qty, at)
  {
    ProductMonotone(total, Weighted(qty, at), rate);
  }

  lemma WalkGrossTotal(rate: real, fs: seq<Fill>, total: real)
    requires total == Sum(Spreads(fs))
    ensures Sum(WalkGross(rate, fs)) == rate * total
  {
    SumScales(Spreads(fs), WalkGross(rate, fs), rate);
  }

  /** A walk over `n` prices costs at most the fee at the blended price, plus `n - 1` centicents. */
  lemma WalkFeeBounded(rate: real, fs: seq<Fill>, vwap: real)
    requires fs != [] && rate >= 0.0
    requires forall i :: 0 <= i < |fs| ==> fs[i].qty >= 0.0
    requires vwap * Sum(Qtys(fs)) == Sum(Notionals(fs))
    ensures FeeOf(WalkGross(rate, fs)) <= RoundUp(Gross(rate, Sum(Qtys(fs)), vwap)) + 0.01 * (|fs| - 1) as real
  {
    WalkGrossBounded(rate, fs, vwap);
    RoundUpMonotone(Sum(WalkGross(rate, fs)), Gross(rate, Sum(Qtys(fs)), vwap));
    RoundingPieces(WalkGross(rate, fs));
  }

  // ----- defaults -----

  /** A safe taker default is exactly one under which no listed series out-prices an unlisted one. */
  lemma SafeDefaultDominates(s: FeeSchedule, listed: string, unlisted: string, price: real, qty: real)
    requires s.baseTaker >= 0.0 && listed in s.series && unlisted !in s.series
    requires 0.0 < price < 1.0 && qty >= 0.0
    requires TakerFee(price, qty, unlisted, s).Ok?
    ensures TakerFee(price, qty, listed, s).Ok?
    ensures TakerFee(price, qty, listed, s).value <= TakerFee(price, qty, unlisted, s).value
  {
    if qty > 0.0 {
      HigherRateHigherFee(s.baseTaker, s.series[listed].1, s.defaultTaker, qty, price);
    }
  }

  lemma HigherRateHigherFee(base: real, m: real, m': real, qty: real, price: real)
    requires base >= 0.0 && m <= m' && 0.0 < price < 1.0 && qty >= 0.0
    ensures RoundUp(Gross(Rate(base, m), qty, price)) <= RoundUp(Gross(Rate(base, m'), qty, price))
  {
    ProductNonNegative(price, 1.0 - price);
    ProductNonNegative(qty, Spread(price));
    ProductMonotone(m, m', base);
    ProductMonotone(Rate(base, m), Rate(base, m'), Weighted(qty, price));
    RoundUpMonotone(Gross(Rate(base, m), qty, price), Gross(Rate(base, m'), qty, price));
  }

  /** And an unsafe one is refused rather than guessed, on the side it would understate and on no other. */
  lemma UnlistedRefusedExactlyWhenUnsafe(s: FeeSchedule, unlisted: string, price: real, qty: real)
    requires unlisted !in s.series && 0.0 < price < 1.0 && qty > 0.0
    ensures TakerFee(price, qty, unlisted, s) == Err(UnknownSeries)
            <==> exists k :: k in s.series && s.series[k].1 > s.defaultTaker
    ensures MakerFee(price, qty, unlisted, s) == Err(UnknownSeries)
            <==> exists k :: k in s.series && s.series[k].0 > s.defaultMaker
  {
  }

  // ----- the whole of a fee -----

  /** A multiplier is the series' own, or the default for what is not listed. */
  function TakerMultiplier(s: FeeSchedule, series: string): real {
    if series in s.series then s.series[series].1 else s.defaultTaker
  }

  function MakerMultiplier(s: FeeSchedule, series: string): real {
    if series in s.series then s.series[series].0 else s.defaultMaker
  }

  /** rate * C * P * (1 - P), the rate being the base with its multiplier. */
  function Exact(base: real, multiplier: real, qty: real, price: real): real {
    base * multiplier * qty * price * (1.0 - price)
  }

  lemma GrossIsExact(base: real, multiplier: real, qty: real, price: real)
    ensures Gross(Rate(base, multiplier), qty, price) == Exact(base, multiplier, qty, price)
  {
    GrossExpanded(base * multiplier, qty, price);
  }

  lemma LeastAtRate(base: real, multiplier: real, qty: real, price: real)
    ensures IsLeastFee(RoundUp(Gross(Rate(base, multiplier), qty, price)), Exact(base, multiplier, qty, price))
  {
    GrossIsExact(base, multiplier, qty, price);
    RoundUpIsLeast(Exact(base, multiplier, qty, price));
  }

  /** Every refusal: price first, then size, then a series the default could understate on the side traded. */
  lemma FeesRefusedExactly(price: real, qty: real, series: string, s: FeeSchedule)
    ensures var r, m := TakerFee(price, qty, series, s), MakerFee(price, qty, series, s);
            && (r == Err(PriceOutOfRange) <==> price <= 0.0 || price >= 1.0)
            && (m == Err(PriceOutOfRange) <==> price <= 0.0 || price >= 1.0)
            && (r == Err(NegativeContracts) <==> 0.0 < price < 1.0 && qty < 0.0)
            && (m == Err(NegativeContracts) <==> 0.0 < price < 1.0 && qty < 0.0)
            && (r == Err(UnknownSeries)
                <==> 0.0 < price < 1.0 && qty > 0.0 && series !in s.series && exists k :: k in s.series && s.series[k].1 > s.defaultTaker)
            && (m == Err(UnknownSeries)
                <==> 0.0 < price < 1.0 && qty > 0.0 && series !in s.series && exists k :: k in s.series && s.series[k].0 > s.defaultMaker)
  {
  }

  /** Every fee that is not refused: nothing for nothing, else the least that covers rate * C * P * (1 - P), at that side's rate. */
  lemma TakerFeeExactly(price: real, qty: real, series: string, s: FeeSchedule)
    requires TakerFee(price, qty, series, s).Ok?
    ensures qty == 0.0 ==> TakerFee(price, qty, series, s).value == 0.0
    ensures qty > 0.0 ==>
      IsLeastFee(TakerFee(price, qty, series, s).value, Exact(s.baseTaker, TakerMultiplier(s, series), qty, price))
  {
    if qty > 0.0 {
      LeastAtRate(s.baseTaker, TakerMultiplier(s, series), qty, price);
    }
  }

  lemma MakerFeeExactly(price: real, qty: real, series: string, s: FeeSchedule)
    requires MakerFee(price, qty, series, s).Ok?
    ensures qty == 0.0 ==> MakerFee(price, qty, series, s).value == 0.0
    ensures qty > 0.0 ==>
      IsLeastFee(MakerFee(price, qty, series, s).value, Exact(s.baseMaker, MakerMultiplier(s, series), qty, price))
  {
    if qty > 0.0 {
      LeastAtRate(s.baseMaker, MakerMultiplier(s, series), qty, price);
      NothingIsLeast(Rate(s.baseMaker, MakerMultiplier(s, series)), qty, price);
    }
  }

  lemma NothingIsLeast(rate: real, qty: real, price: real)
    ensures rate == 0.0 ==> RoundUp(Gross(rate, qty, price)) == 0.0
  {
    if rate == 0.0 {
      assert Gross(rate, qty, price) == 0.0;
      assert 0.0 / CENTICENT == 0.0;
    }
  }

  // ----- net edge -----

  /** Per-contract edge in cents after fees and slippage; 0 when there is nothing to trade. */
  ghost function NetEdge(
      fair: real, price: real, qty: real, series: string, slippage: real, taker: bool, s: FeeSchedule): Result<real, FeeRefusal> {
    if qty <= 0.0 then Ok(0.0)
    else
      var fee := if taker then TakerFee(price, qty, series, s) else MakerFee(price, qty, series, s);
      if fee.Err? then fee else Ok((fair - price) * 100.0 - fee.value / qty - slippage)
  }

  /** Over the whole size the edge is the gross edge, less the one fee of the side traded, less slippage. */
  lemma NetEdgeExactly(fair: real, price: real, qty: real, series: string, slippage: real, taker: bool, s: FeeSchedule)
    ensures var r := NetEdge(fair, price, qty, series, slippage, taker, s);
            var fee := if taker then TakerFee(price, qty, series, s) else MakerFee(price, qty, series, s);
            && (qty <= 0.0 ==> r == Ok(0.0))
            && (qty > 0.0 ==> (r.Err? <==> fee.Err?) && (r.Err? ==> r == fee))
            && (qty > 0.0 && r.Ok? ==> r.value * qty == 100.0 * (fair - price) * qty - fee.value - slippage * qty)
  {
    if qty > 0.0 {
      var fee := if taker then TakerFee(price, qty, series, s) else MakerFee(price, qty, series, s);
      if fee.Ok? {
        EdgeTimes((fair - price) * 100.0, fee.value / qty, slippage, qty, fee.value);
      }
    }
  }

  lemma EdgeTimes(gross: real, each: real, slippage: real, qty: real, fee: real)
    requires qty > 0.0 && each == fee / qty
    ensures (gross - each - slippage) * qty == gross * qty - fee - slippage * qty
  {
    QuotientTimes(fee, qty);
    Distribute(gross - each, slippage, qty);
    Distribute(gross, each, qty);
  }

  lemma {:induction false} SumConstant(xs: seq<real>, x: real)
    requires forall i :: 0 <= i < |xs| ==> xs[i] == x
    ensures Sum(xs) == |xs| as real * x
  {
    if xs != [] {
      SumConstant(xs[1..], x);
      Distribute((|xs| - 1) as real, 1.0, x);
    }
  }

  lemma EqualPieces(xs: seq<real>, x: real, r: real)
    requires r == RoundUp(x) && forall i :: 0 <= i < |xs| ==> xs[i] == x
    ensures forall i :: 0 <= i < |xs| ==> RoundedEach(xs)[i] == r
  {
  }

  lemma {:induction false} ConstantTotals(xs: seq<real>, ys: seq<real>, x: real, r: real, n: real)
    requires |xs| == |ys| && n == |xs| as real
    requires forall i :: 0 <= i < |xs| ==> xs[i] == x && ys[i] == r
    ensures Sum(xs) == n * x && Sum(ys) == n * r
  {
    SumConstant(xs, x);
    SumConstant(ys, r);
  }

  /** Rounding up once is never dearer than rounding up each of k equal parts. */
  lemma RepeatedRounding(x: real, r: real, total: real, fee: real, k: nat, n: real)
    requires k > 0 && n == k as real && r == RoundUp(x) && total == n * x && fee == RoundUp(total)
    ensures fee <= n * r
  {
    var xs := seq(k, _ => x);
    EqualPieces(xs, x, r);
    ConstantTotals(xs, RoundedEach(xs), x, r, n);
    assert Sum(xs) == total;
    RoundingPieces(xs);
  }

  lemma GrossOfMultiple(rate: real, qty: real, price: real, k: real, big: real, g: real, total: real)
    requires big == k * qty && g == Gross(rate, qty, price) && total == Gross(rate, big, price)
    ensures total == k * g
  {
    var v, w :| v == Spread(price) && w == qty * v;
    assert (k * qty) * v == k * w;
    assert rate * (k * w) == k * (rate * w);
  }

  lemma MultipleCostsLess(rate: real, qty: real, price: real, k: nat, big: real)
    requires k > 0 && qty > 0.0 && big == k as real * qty
    ensures big > 0.0
    ensures RoundUp(Gross(rate, big, price)) / big <= RoundUp(Gross(rate, qty, price)) / qty
  {
    var n :| n == k as real;
    var g, total := Gross(rate, qty, price), Gross(rate, big, price);
    GrossOfMultiple(rate, qty, price, n, big, g, total);
    RepeatedRounding(g, RoundUp(g), total, RoundUp(total), k, n);
    ShareOfFee(RoundUp(total), RoundUp(g), qty, n, big);
  }

  lemma ShareOfFee(fee: real, lot: real, qty: real, k: real, big: real)
    requires qty > 0.0 && k > 0.0 && fee <= k * lot && big == k * qty
    ensures big > 0.0 && fee / big <= lot / qty
  {
    ProductPositive(k, qty);
    var each, x := lot / qty, fee / big;
    QuotientTimes(lot, qty);
    QuotientTimes(fee, big);
    assert k * lot == big * each;
    Distribute(x, each, big);
    if x > each { ProductPositive(x - each, big); }
  }

  /** Trading a whole multiple of a size never lowers the edge per contract: rounding up only ever gets cheaper. */
  lemma MultiplesKeepTheEdge(
      fair: real, price: real, qty: real, k: nat, big: real, series: string, slippage: real, taker: bool, s: FeeSchedule)
    requires qty > 0.0 && k > 0 && big == k as real * qty
    ensures var one, many := NetEdge(fair, price, qty, series, slippage, taker, s), NetEdge(fair, price, big, series, slippage, taker, s);
            && one.Err? == many.Err?
            && (one.Ok? ==> one.value <= many.value)
  {
    ProductPositive(k as real, qty);
    if 0.0 < price < 1.0 {
      if taker {
        var m := Multipliers(s, series, Taker);
        if m.Ok? { MultipleCostsLess(Rate(s.baseTaker, m.value.1), qty, price, k, big); }
      } else {
        var m := Multipliers(s, series, Maker);
        if m.Ok? { MultipleCostsLess(Rate(s.baseMaker, m.value.0), qty, price, k, big); }
      }
    }
  }

  // ----- computed -----

  method DefaultIsSafe(s: FeeSchedule, need: Need) returns (safe: bool)
    ensures safe == !DefaultUnsafe(s, need)
  {
    safe := true;
    var todo := s.series.Keys;
    while todo != {}
      invariant todo <= s.series.Keys
      invariant safe <==> forall k :: k in s.series && k !in todo ==>
          && (need != Maker ==> s.series[k].1 <= s.defaultTaker)
          && (need != Taker ==> s.series[k].0 <= s.defaultMaker)
      decreases |todo|
    {
      var k := AnyOf(todo);
      todo := todo - {k};
      if (need != Maker && s.series[k].1 > s.defaultTaker) || (need != Taker && s.series[k].0 > s.defaultMaker) {
        safe := false;
      }
    }
  }

  method TakerFeeCents(price: real, qty: real, series: string, s: FeeSchedule) returns (r: Result<real, FeeRefusal>)
    ensures r == TakerFee(price, qty, series, s)
  {
    if !(0.0 < price < 1.0) {
      return Err(PriceOutOfRange);
    }
    if qty < 0.0 {
      return Err(NegativeContracts);
    }
    if qty == 0.0 {
      return Ok(0.0);
    }
    var multiplier := s.defaultTaker;
    if series in s.series {
      multiplier := s.series[series].1;
    } else {
      var safe := DefaultIsSafe(s, Taker);
      if !safe {
        return Err(UnknownSeries);
      }
    }
    return Ok(RoundUp(Gross(Rate(s.baseTaker, multiplier), qty, price)));
  }
}
