/**
 From leg quotes to a costed set (`price_set`, `max_executable_sets`), the
 selection in `runner.py`, the worst case in `base.py`, and what the reported
 edge guarantees at settlement.
 */
module SetPricing {
  import opened Prelude
  import opened Sums
  import opened Greedy
  import opened Fees
  import opened SetArbitrage
  import opened SetReach

  datatype LegQuote = Unfilled | Refused(why: FeeRefusal) | Quoted(fill: LegFill)

  /** Fees of a walk: one per fill, refused as soon as one is. */
  ghost function WalkFees(consumed: seq<Level>, series: string, s: FeeSchedule): Result<real, FeeRefusal> {
    if consumed == [] then Ok(0.0)
    else
      var f := TakerFee(consumed[0].price, consumed[0].size, series, s);
      if f.Err? then f
      else
        var rest := WalkFees(consumed[1..], series, s);
        if rest.Err? then rest else Ok(f.value + rest.value)
  }

  ghost function LegLadder(b: LegBook, slippageCents: real, d: Direction): seq<Level> {
    Usable(Executable(b, d), slippageCents / 100.0, d)
  }

  ghost function QuoteLeg(b: LegBook, qty: real, d: Direction, s: FeeSchedule, slippageCents: real): LegQuote {
    var w := WalkOf(LegLadder(b, slippageCents, d), qty);
    if !w.Walked? then Unfilled
    else
      var fee := WalkFees(w.consumed, b.series, s);
      if fee.Err? then Refused(fee.error) else Quoted(LegFill(b.ticker, w.avgPrice, w.filled, fee.value))
  }

  type Legs = Result<Option<seq<LegFill>>, FeeRefusal>

  function Prepend(done: seq<LegFill>, r: Legs): Legs {
    if r.Ok? && r.value.Some? then Ok(Some(done + r.value.value)) else r
  }

  /** Every leg in order; the first that cannot fill or cannot be priced decides. */
  ghost function QuoteLegs(books: seq<LegBook>, qty: real, d: Direction, s: FeeSchedule, slippageCents: real): Legs {
    if books == [] then Ok(Some([]))
    else
      match QuoteLeg(books[0], qty, d, s, slippageCents)
      case Unfilled => Ok(None)
      case Refused(why) => Err(why)
      case Quoted(fill) => Prepend([fill], QuoteLegs(books[1..], qty, d, s, slippageCents))
  }

  function Averages(legs: seq<LegFill>): (r: seq<real>)
    ensures |r| == |legs| && forall i :: 0 <= i < |r| ==> r[i] == legs[i].avgPrice
  {
    seq(|legs|, i requires 0 <= i < |legs| => legs[i].avgPrice)
  }

  function LegFees(legs: seq<LegFill>): (r: seq<real>)
    ensures |r| == |legs| && forall i :: 0 <= i < |r| ==> r[i] == legs[i].feeCents
  {
    seq(|legs|, i requires 0 <= i < |legs| => legs[i].feeCents)
  }

  /** `dollars` per contract on `qty` contracts, in cents. */
  function Cents(dollars: real, qty: real): real {
    dollars * qty * 100.0
  }

  function NetEdge(d: Direction, gross: real, qty: real, fee: real): real {
    Cents(if d == SellSet then gross - 1.0 else 1.0 - gross, qty) - fee
  }

  function Opportunity(d: Direction, qty: real, legs: seq<LegFill>): SetOpportunity {
    var gross, fee := Sum(Averages(legs)), Sum(LegFees(legs));
    SetOpportunity(d, qty, legs, gross, fee, NetEdge(d, gross, qty, fee))
  }

  type Priced = Result<Option<SetOpportunity>, FeeRefusal>

  ghost function PriceSetOf(books: seq<LegBook>, qty: real, d: Direction, s: FeeSchedule, slippageCents: real): Priced {
    if books == [] || qty <= 0.0 then Ok(None)
    else
      var legs := QuoteLegs(books, qty, d, s, slippageCents);
      if legs.Err? then Err(legs.error)
      else if legs.value.None? then Ok(None)
      else Ok(Some(Opportunity(d, qty, legs.value.value)))
  }

  ghost predicate WellFormed(books: seq<LegBook>) {
    forall i :: 0 <= i < |books| ==> Positive(books[i].yes) && Positive(books[i].no)
  }

  lemma LadderIsWalkable(b: LegBook, slippageCents: real, d: Direction)
    requires Positive(b.yes) && Positive(b.no)
    ensures Positive(Executable(b, d)) && BestFirst(Executable(b, d), d)
    ensures var u := LegLadder(b, slippageCents, d); Positive(u) && BestFirst(u, d) && Tradeable(u)
  {
    var raw := if d == SellSet then b.yes else Inverted(b.no);
    SortBestSorts(raw, d);
    SortBestPositive(raw, d);
    UsableIsALadder(Executable(b, d), slippageCents / 100.0, d);
  }

  // ----- when a set can be priced -----

  /** With a tradeable walk and a priceable series the fee is never refused. */
  lemma {:induction false} WalkFeesPriced(consumed: seq<Level>, series: string, s: FeeSchedule)
    requires Tradeable(consumed) && Positive(consumed)
    ensures WalkFees(consumed, series, s).Err? <==> consumed != [] && Multipliers(s, series, Taker).Err?
    ensures WalkFees(consumed, series, s).Err? ==> WalkFees(consumed, series, s).error == UnknownSeries
  {
    if consumed != [] {
      WalkFeesPriced(consumed[1..], series, s);
    }
  }

  /** A leg can be quoted exactly when its usable depth covers the size and its fee is known. */
  lemma LegQuoteExactly(b: LegBook, qty: real, d: Direction, s: FeeSchedule, slippageCents: real)
    requires Positive(b.yes) && Positive(b.no) && qty > 0.0
    ensures QuoteLeg(b, qty, d, s, slippageCents).Unfilled? <==> Depth(LegLadder(b, slippageCents, d)) < qty
    ensures QuoteLeg(b, qty, d, s, slippageCents).Refused?
            <==> Depth(LegLadder(b, slippageCents, d)) >= qty && Multipliers(s, b.series, Taker).Err?
    ensures QuoteLeg(b, qty, d, s, slippageCents).Quoted? ==>
              QuoteLeg(b, qty, d, s, slippageCents).fill.contracts == qty
  {
    var u := LegLadder(b, slippageCents, d);
    LadderIsWalkable(b, slippageCents, d);
    if Depth(u) >= qty {
      WalkExact(u, qty);
      WalkFeesPriced(Consumed(u, qty), b.series, s);
    }
  }

  lemma {:induction false} LegsQuotedExactly(books: seq<LegBook>, qty: real, d: Direction, s: FeeSchedule, slippageCents: real)
    requires WellFormed(books) && qty > 0.0
    requires forall i :: 0 <= i < |books| ==> Multipliers(s, books[i].series, Taker).Ok?
    ensures QuoteLegs(books, qty, d, s, slippageCents).Ok?
    ensures QuoteLegs(books, qty, d, s, slippageCents).value.Some?
            <==> EnoughDepth(books, qty, d, slippageCents)
    decreases |books|
  {
    if books != [] {
      LegQuoteExactly(books[0], qty, d, s, slippageCents);
      LegsQuotedExactly(books[1..], qty, d, s, slippageCents);
      QuotedFirst(books, qty, d, s, slippageCents);
      EnoughDepthSplits(books, qty, d, slippageCents);
    }
  }

  lemma {:induction false} QuotedFirst(books: seq<LegBook>, qty: real, d: Direction, s: FeeSchedule, slippageCents: real)
    requires books != [] && !QuoteLeg(books[0], qty, d, s, slippageCents).Refused?
    requires QuoteLegs(books[1..], qty, d, s, slippageCents).Ok?
    ensures QuoteLegs(books, qty, d, s, slippageCents).Ok?
    ensures QuoteLegs(books, qty, d, s, slippageCents).value.Some?
            <==> QuoteLeg(books[0], qty, d, s, slippageCents).Quoted? && QuoteLegs(books[1..], qty, d, s, slippageCents).value.Some?
  {
  }

  /** Every leg's usable depth covers the size. */
  ghost predicate EnoughDepth(books: seq<LegBook>, qty: real, d: Direction, slippageCents: real) {
    forall i :: 0 <= i < |books| ==> Depth(LegLadder(books[i], slippageCents, d)) >= qty
  }

  lemma EnoughDepthSplits(books: seq<LegBook>, qty: real, d: Direction, slippageCents: real)
    requires books != []
    ensures EnoughDepth(books, qty, d, slippageCents)
            <==> Depth(LegLadder(books[0], slippageCents, d)) >= qty && EnoughDepth(books[1..], qty, d, slippageCents)
  {
    forall i | 0 < i < |books| ensures books[i] == books[1..][i - 1] {
    }
  }

  /** Whatever is priced has one leg per book, each for the whole size. */
  lemma {:induction false} QuotedLegsAreWhole(books: seq<LegBook>, qty: real, d: Direction, s: FeeSchedule, slippageCents: real)
    requires WellFormed(books) && qty > 0.0
    requires QuoteLegs(books, qty, d, s, slippageCents).Ok? && QuoteLegs(books, qty, d, s, slippageCents).value.Some?
    ensures var legs := QuoteLegs(books, qty, d, s, slippageCents).value.value;
            |legs| == |books| && forall i :: 0 <= i < |legs| ==> legs[i].contracts == qty && legs[i].ticker == books[i].ticker
    decreases |books|
  {
    if books != [] {
      LegQuoteExactly(books[0], qty, d, s, slippageCents);
      QuotedLegsAreWhole(books[1..], qty, d, s, slippageCents);
    }
  }

  // ----- the same, told by the bids themselves -----

  /** The bids that net a tradeable price cover the size. */
  ghost predicate Covers(b: LegBook, qty: real, d: Direction, slippageCents: real) {
    Depth(Reach(b, d, slippageCents / 100.0)) >= qty
  }

  /** A leg's average, times its size, is the best its bids allow. */
  ghost predicate LegIsBest(leg: LegFill, b: LegBook, d: Direction, slippageCents: real) {
    BestFill(Reach(b, d, slippageCents / 100.0), leg.contracts, d, Pay(leg.avgPrice, leg.contracts))
  }

  lemma LegCovered(b: LegBook, qty: real, d: Direction, s: FeeSchedule, slippageCents: real)
    requires Positive(b.yes) && Positive(b.no) && qty > 0.0
    ensures QuoteLeg(b, qty, d, s, slippageCents).Unfilled? <==> !Covers(b, qty, d, slippageCents)
    ensures QuoteLeg(b, qty, d, s, slippageCents).Refused? <==> Covers(b, qty, d, slippageCents) && Multipliers(s, b.series, Taker).Err?
  {
    LegQuoteExactly(b, qty, d, s, slippageCents);
    LadderDepth(b, d, slippageCents / 100.0);
  }

  /** A quoted leg earns the most its YES bids pay after slippage, or costs the least its NO bids ask with it. */
  lemma LegFromBids(b: LegBook, qty: real, d: Direction, s: FeeSchedule, slippageCents: real)
    requires Positive(b.yes) && Positive(b.no) && qty > 0.0 && QuoteLeg(b, qty, d, s, slippageCents).Quoted?
    ensures var leg := QuoteLeg(b, qty, d, s, slippageCents).fill;
            leg.contracts == qty && LegIsBest(leg, b, d, slippageCents)
  {
    LadderIsWalkable(b, slippageCents, d);
    LegQuoteExactly(b, qty, d, s, slippageCents);
    WalkIsBestFill(b, d, slippageCents / 100.0, qty, LegLadder(b, slippageCents, d));
  }

  ghost predicate LegsAreBest(legs: seq<LegFill>, books: seq<LegBook>, d: Direction, slippageCents: real) {
    |legs| == |books| && forall i :: 0 <= i < |legs| ==> LegIsBest(legs[i], books[i], d, slippageCents)
  }

  lemma BestLegFirst(leg: LegFill, legs: seq<LegFill>, books: seq<LegBook>, d: Direction, slippageCents: real)
    requires books != [] && LegIsBest(leg, books[0], d, slippageCents) && LegsAreBest(legs, books[1..], d, slippageCents)
    ensures LegsAreBest([leg] + legs, books, d, slippageCents)
  {
  }

  lemma {:induction false} LegsFromBids(books: seq<LegBook>, qty: real, d: Direction, s: FeeSchedule, slippageCents: real)
    requires WellFormed(books) && qty > 0.0
    requires QuoteLegs(books, qty, d, s, slippageCents).Ok? && QuoteLegs(books, qty, d, s, slippageCents).value.Some?
    ensures LegsAreBest(QuoteLegs(books, qty, d, s, slippageCents).value.value, books, d, slippageCents)
    decreases |books|
  {
    if books != [] {
      LegFromBids(books[0], qty, d, s, slippageCents);
      LegsFromBids(books[1..], qty, d, s, slippageCents);
      BestLegFirst(QuoteLeg(books[0], qty, d, s, slippageCents).fill,
                   QuoteLegs(books[1..], qty, d, s, slippageCents).value.value, books, d, slippageCents);
    }
  }

  /** The bids of the leg cover the size, and its series has a fee. */
  ghost predicate Priceable(b: LegBook, qty: real, d: Direction, s: FeeSchedule, slippageCents: real) {
    Covers(b, qty, d, slippageCents) && Multipliers(s, b.series, Taker).Ok?
  }

  /** The first leg that cannot be priced is `i`, for want of a fee. */
  ghost predicate FirstWithoutFee(books: seq<LegBook>, i: nat, qty: real, d: Direction, s: FeeSchedule, slippageCents: real) {
    && i < |books| && Covers(books[i], qty, d, slippageCents) && Multipliers(s, books[i].series, Taker).Err?
    && forall j :: 0 <= j < i ==> Priceable(books[j], qty, d, s, slippageCents)
  }

  ghost predicate AllPriceable(books: seq<LegBook>, qty: real, d: Direction, s: FeeSchedule, slippageCents: real) {
    forall i :: 0 <= i < |books| ==> Priceable(books[i], qty, d, s, slippageCents)
  }

  ghost predicate SomeWithoutFee(books: seq<LegBook>, qty: real, d: Direction, s: FeeSchedule, slippageCents: real) {
    exists i: nat :: FirstWithoutFee(books, i, qty, d, s, slippageCents)
  }

  lemma LegsSplit(books: seq<LegBook>, qty: real, d: Direction, s: FeeSchedule, slippageCents: real)
    requires books != []
    ensures AllPriceable(books, qty, d, s, slippageCents)
            <==> Priceable(books[0], qty, d, s, slippageCents) && AllPriceable(books[1..], qty, d, s, slippageCents)
    ensures SomeWithoutFee(books, qty, d, s, slippageCents)
            <==> (Covers(books[0], qty, d, slippageCents) && Multipliers(s, books[0].series, Taker).Err?)
                 || (Priceable(books[0], qty, d, s, slippageCents) && SomeWithoutFee(books[1..], qty, d, s, slippageCents))
  {
    assert forall i :: 0 < i < |books| ==> books[i] == books[1..][i - 1];
    if i: nat :| FirstWithoutFee(books[1..], i, qty, d, s, slippageCents) {
      assert Priceable(books[0], qty, d, s, slippageCents) ==> FirstWithoutFee(books, i + 1, qty, d, s, slippageCents);
    }
    if i: nat :| FirstWithoutFee(books, i, qty, d, s, slippageCents) {
      assert i > 0 ==> FirstWithoutFee(books[1..], i - 1, qty, d, s, slippageCents);
    }
    assert Covers(books[0], qty, d, slippageCents) && Multipliers(s, books[0].series, Taker).Err? ==>
      FirstWithoutFee(books, 0, qty, d, s, slippageCents);
  }

  lemma {:induction false} LegsDecided(books: seq<LegBook>, qty: real, d: Direction, s: FeeSchedule, slippageCents: real)
    requires WellFormed(books) && qty > 0.0
    ensures var legs := QuoteLegs(books, qty, d, s, slippageCents);
            && (legs.Err? <==> SomeWithoutFee(books, qty, d, s, slippageCents))
            && (legs.Ok? && legs.value.Some? <==> AllPriceable(books, qty, d, s, slippageCents))
    decreases |books|
  {
    if books != [] {
      LegCovered(books[0], qty, d, s, slippageCents);
      LegsDecided(books[1..], qty, d, s, slippageCents);
      LegsSplit(books, qty, d, s, slippageCents);
    }
  }

  /** A set is priced exactly when there is a leg and every leg can be priced; refused exactly when the first that cannot lacks a fee. */
  lemma PricedExactly(books: seq<LegBook>, qty: real, d: Direction, s: FeeSchedule, slippageCents: real)
    requires WellFormed(books)
    ensures var r := PriceSetOf(books, qty, d, s, slippageCents);
            && (r.Err? <==> qty > 0.0 && SomeWithoutFee(books, qty, d, s, slippageCents))
            && (r.Ok? && r.value.Some? <==>
                  books != [] && qty > 0.0 && AllPriceable(books, qty, d, s, slippageCents))
  {
    if qty > 0.0 {
      LegsDecided(books, qty, d, s, slippageCents);
    }
  }

  /** The thinnest leg decides. */
  function MaxExecutableSets(books: seq<LegBook>, d: Direction): real {
    if books == [] then 0.0
    else if |books| == 1 then Depth(Executable(books[0], d))
    else MinR(Depth(Executable(books[0], d)), MaxExecutableSets(books[1..], d))
  }

  lemma {:induction false} ThinnestLeg(books: seq<LegBook>, d: Direction, qty: real)
    requires books != []
    ensures qty <= MaxExecutableSets(books, d) <==> forall i :: 0 <= i < |books| ==> qty <= Depth(Executable(books[i], d))
    decreases |books|
  {
    if |books| > 1 {
      ThinnestLeg(books[1..], d, qty);
      assert books == [books[0]] + books[1..];
    }
  }

  /** Every leg can fill a size exactly up to the cap: its YES bids when selling, its NO bids when buying. */
  lemma {:induction false} CapIsThinnestBids(books: seq<LegBook>, d: Direction, qty: real)
    requires WellFormed(books)
    ensures books != [] ==>
              (qty <= MaxExecutableSets(books, d) <==> forall i :: 0 <= i < |books| ==> qty <= Depth(if d == SellSet then books[i].yes else books[i].no))
    ensures books == [] ==> MaxExecutableSets(books, d) == 0.0
  {
    if books != [] {
      ThinnestLeg(books, d, qty);
    }
    forall i | 0 <= i < |books| ensures Depth(Executable(books[i], d)) == Depth(if d == SellSet then books[i].yes else books[i].no) {
      DepthIsOfBids(books[i], d);
    }
  }

  lemma LaddersKeepDepth(books: seq<LegBook>, d: Direction, slippageCents: real)
    requires forall i :: 0 <= i < |books| ==> AllUsable(Executable(books[i], d), slippageCents / 100.0, d)
    ensures forall i :: 0 <= i < |books| ==> Depth(LegLadder(books[i], slippageCents, d)) == Depth(Executable(books[i], d))
  {
    forall i | 0 <= i < |books| ensures Depth(LegLadder(books[i], slippageCents, d)) == Depth(Executable(books[i], d)) {
      AllUsableKeepsDepth(Executable(books[i], d), slippageCents / 100.0, d);
    }
  }

  /**
   When every level's effective price can trade and every series' fee is known,
   a set is priced exactly for the sizes from nothing (excluded) up to the
   thinnest leg (included), and never for no books at all.
   */
  lemma {:induction false} PricedExactlyUpToThinnest(books: seq<LegBook>, qty: real, d: Direction, s: FeeSchedule, slippageCents: real)
    requires WellFormed(books)
    requires forall i :: 0 <= i < |books| ==> AllUsable(Executable(books[i], d), slippageCents / 100.0, d)
    requires forall i :: 0 <= i < |books| ==> Multipliers(s, books[i].series, Taker).Ok?
    ensures PriceSetOf(books, qty, d, s, slippageCents).Ok?
    ensures PriceSetOf(books, qty, d, s, slippageCents).value.Some? <==> 0.0 < qty <= MaxExecutableSets(books, d)
  {
    if books != [] && qty > 0.0 {
      LegsQuotedExactly(books, qty, d, s, slippageCents);
      ThinnestLeg(books, d, qty);
      LaddersKeepDepth(books, d, slippageCents);
    }
  }

  // ----- what the edge guarantees -----

  function Wins(outcome: seq<bool>): nat {
    if outcome == [] then 0 else (if outcome[0] then 1 else 0) + Wins(outcome[1..])
  }

  function Payout(won: bool): real {
    if won then 1.0 else 0.0
  }

  /** Cents one leg makes by settlement: what it took in, less what it paid out, less its fee. */
  function LegPnl(d: Direction, leg: LegFill, won: bool): real {
    Cents(if d == SellSet then leg.avgPrice - Payout(won) else Payout(won) - leg.avgPrice, leg.contracts) - leg.feeCents
  }

  function SettlementPnl(d: Direction, legs: seq<LegFill>, outcome: seq<bool>): real
    requires |outcome| == |legs|
  {
    if legs == [] then 0.0 else LegPnl(d, legs[0], outcome[0]) + SettlementPnl(d, legs[1..], outcome[1..])
  }

  lemma CentsAdd(x: real, y: real, qty: real)
    ensures Cents(x + y, qty) == Cents(x, qty) + Cents(y, qty)
    ensures Cents(x - y, qty) == Cents(x, qty) - Cents(y, qty)
    ensures Cents(0.0, qty) == 0.0
  {
  }

  /** Settlement of a whole set, leg by leg, is the gross against the winners. */
  lemma {:induction false} SettlementTotals(d: Direction, legs: seq<LegFill>, qty: real, outcome: seq<bool>, gross: real, won: real)
    requires |outcome| == |legs| && forall i :: 0 <= i < |legs| ==> legs[i].contracts == qty
    requires gross == Sum(Averages(legs)) && won == Wins(outcome) as real
    ensures SettlementPnl(d, legs, outcome)
         == Cents(if d == SellSet then gross - won else won - gross, qty) - Sum(LegFees(legs))
    decreases |legs|
  {
    if legs == [] {
      CentsAdd(0.0, 0.0, qty);
    } else {
      var gross' :| gross' == Sum(Averages(legs[1..]));
      var won' :| won' == Wins(outcome[1..]) as real;
      var w := Payout(outcome[0]);
      assert Averages(legs)[1..] == Averages(legs[1..]) && LegFees(legs)[1..] == LegFees(legs[1..]);
      SettlementTotals(d, legs[1..], qty, outcome[1..], gross', won');
      CentsAdd(legs[0].avgPrice - w, gross' - won', qty);
      CentsAdd(w - legs[0].avgPrice, won' - gross', qty);
    }
  }

  /**
   The guarantee. For every outcome, a sold set makes its reported net edge
   plus a dollar a set for each winner short of one; a bought set makes its
   reported net edge plus a dollar a set for each winner beyond one.
   */
  lemma {:induction false} EdgeLaw(opp: SetOpportunity, outcome: seq<bool>)
    requires opp == Opportunity(opp.direction, opp.contracts, opp.legs) && |outcome| == |opp.legs|
    requires forall i :: 0 <= i < |opp.legs| ==> opp.legs[i].contracts == opp.contracts
    ensures SettlementPnl(opp.direction, opp.legs, outcome)
         == opp.netEdgeCents
            + Cents(if opp.direction == SellSet then 1.0 - Wins(outcome) as real else Wins(outcome) as real - 1.0, opp.contracts)
  {
    var gross, won :| gross == Sum(Averages(opp.legs)) && won == Wins(outcome) as real;
    SettlementTotals(opp.direction, opp.legs, opp.contracts, outcome, gross, won);
    CentsAdd(gross - 1.0, 1.0 - won, opp.contracts);
    CentsAdd(1.0 - gross, won - 1.0, opp.contracts);
  }

  /** What being priced means: the whole size on every leg, and totals that add up. */
  ghost predicate IsPriced(opp: SetOpportunity) {
    && opp.contracts > 0.0
    && opp == Opportunity(opp.direction, opp.contracts, opp.legs)
    && forall i :: 0 <= i < |opp.legs| ==> opp.legs[i].contracts == opp.contracts
  }

  lemma PricedSetIsPriced(
      books: seq<LegBook>, qty: real, d: Direction, s: FeeSchedule, slippageCents: real, opp: SetOpportunity)
    requires WellFormed(books) && PriceSetOf(books, qty, d, s, slippageCents) == Ok(Some(opp))
    ensures IsPriced(opp) && |opp.legs| == |books| && opp.direction == d && opp.contracts == qty
    ensures forall i :: 0 <= i < |books| ==> opp.legs[i].ticker == books[i].ticker
    ensures LegsAreBest(opp.legs, books, d, slippageCents)
  {
    QuotedLegsAreWhole(books, qty, d, s, slippageCents);
    LegsFromBids(books, qty, d, s, slippageCents);
  }

  lemma OneDollar(qty: real)
    requires qty > 0.0
    ensures Cents(1.0, qty) > 0.0 && Cents(0.0, qty) == 0.0 && Cents(-1.0, qty) == -Cents(1.0, qty)
  {
  }

  /**
   On an exclusive event (at most one winner) the reported edge of a sold set
   is a floor on what it makes, met exactly when some leg wins; a bought set
   makes its reported edge exactly when some leg wins, and otherwise loses its
   whole cost and every fee.
   */
  lemma {:induction false} EdgeIsGuaranteed(opp: SetOpportunity, outcome: seq<bool>)
    requires IsPriced(opp) && |outcome| == |opp.legs| && Wins(outcome) <= 1
    ensures var pnl := SettlementPnl(opp.direction, opp.legs, outcome);
            if opp.direction == SellSet then pnl >= opp.netEdgeCents && (pnl == opp.netEdgeCents <==> Wins(outcome) == 1)
            else (pnl == opp.netEdgeCents <==> Wins(outcome) == 1)
                 && (Wins(outcome) == 0 ==> pnl == -(Cents(opp.grossSum, opp.contracts) + opp.totalFeeCents))
  {
    EdgeLaw(opp, outcome);
    OneDollar(opp.contracts);
    if opp.direction == BuySet && Wins(outcome) == 0 {
      SettlementTotals(BuySet, opp.legs, opp.contracts, outcome, opp.grossSum, 0.0);
      CentsAdd(0.0, opp.grossSum, opp.contracts);
    }
  }

  /** The worst case `propose_finding` hands to the bankroll guard. */
  function MaxLossCents(d: Direction, gross: real, contracts: real, fees: real): real {
    Cents(MaxR(0.0, if d == SellSet then 1.0 - gross else gross), contracts) + fees
  }

  /** It covers the loss of every exclusive outcome, both ways. */
  lemma {:induction false} MaxLossCovers(opp: SetOpportunity, outcome: seq<bool>)
    requires IsPriced(opp) && |outcome| == |opp.legs| && Wins(outcome) <= 1
    ensures -SettlementPnl(opp.direction, opp.legs, outcome)
         <= MaxLossCents(opp.direction, opp.grossSum, opp.contracts, opp.totalFeeCents)
  {
    var won :| won == Wins(outcome) as real;
    var gross, qty := opp.grossSum, opp.contracts;
    SettlementTotals(opp.direction, opp.legs, qty, outcome, gross, won);
    if opp.direction == SellSet {
      LossUnder(gross - won, MaxR(0.0, 1.0 - gross), qty);
    } else {
      LossUnder(won - gross, MaxR(0.0, gross), qty);
    }
  }

  lemma LossUnder(gain: real, worst: real, qty: real)
    requires -gain <= worst && qty >= 0.0
    ensures -Cents(gain, qty) <= Cents(worst, qty)
  {
    CentsMonotone(-gain, worst, qty);
    CentsAdd(0.0, gain, qty);
  }

  lemma CentsMonotone(x: real, y: real, qty: real)
    requires x <= y && qty >= 0.0
    ensures Cents(x, qty) <= Cents(y, qty)
  {
    ProductMonotone(x, y, qty);
  }

  /** What the worst exclusive outcome still leaves over: a sold set that collects more than a dollar cannot lose it. */
  function Sure(d: Direction, gross: real): real {
    MaxR(0.0, if d == SellSet then gross - 1.0 else -gross)
  }

  /**
   And it is no larger than it must be: the worst exclusive outcome loses all of
   it less what the set is sure to make, so it loses all of it exactly when a
   sold set collects no more than a dollar.
   */
  lemma {:induction false} MaxLossAttained(d: Direction, qty: real, legs: seq<LegFill>, worst: seq<bool>)
    requires |worst| == |legs| && forall i :: 0 <= i < |legs| ==> legs[i].contracts == qty
    requires Wins(worst) == if d == SellSet then 1 else 0
    ensures var gross := Sum(Averages(legs)); var most := MaxLossCents(d, gross, qty, Sum(LegFees(legs)));
            && -SettlementPnl(d, legs, worst) == most - Cents(Sure(d, gross), qty)
            && (qty > 0.0 ==> (-SettlementPnl(d, legs, worst) == most <==> if d == SellSet then gross <= 1.0 else gross >= 0.0))
  {
    var gross :| gross == Sum(Averages(legs));
    SettlementTotals(d, legs, qty, worst, gross, Wins(worst) as real);
    var owed := if d == SellSet then 1.0 - gross else gross;
    CentsAdd(0.0, -owed, qty);
    CentsAdd(MaxR(0.0, owed), Sure(d, gross), qty);
    if qty > 0.0 {
      CentsSign(Sure(d, gross), qty);
    }
  }

  lemma CentsSign(x: real, qty: real)
    requires x >= 0.0 && qty > 0.0
    ensures Cents(x, qty) == 0.0 <==> x == 0.0
  {
    if x > 0.0 { ProductPositive(x, qty); }
  }

  // ----- the fee of a walked leg -----

  function AsFills(consumed: seq<Level>): (r: seq<Fill>)
    ensures |r| == |consumed| && forall i :: 0 <= i < |r| ==> r[i] == Fill(consumed[i].price, consumed[i].size)
  {
    seq(|consumed|, i requires 0 <= i < |consumed| => Fill(consumed[i].price, consumed[i].size))
  }

  /** Summing fee by fee, as the exchange bills, is the walk fee of the fee engine. */
  lemma {:induction false} WalkFeesAre(consumed: seq<Level>, series: string, s: FeeSchedule, rate: real)
    requires Tradeable(consumed) && Positive(consumed) && Multipliers(s, series, Taker).Ok?
    requires rate == Rate(s.baseTaker, Multipliers(s, series, Taker).value.1)
    ensures WalkFees(consumed, series, s) == Ok(FeeOf(WalkGross(rate, AsFills(consumed))))
    decreases |consumed|
  {
    if consumed != [] {
      WalkFeesAre(consumed[1..], series, s, rate);
      var gross := WalkGross(rate, AsFills(consumed));
      assert gross[1..] == WalkGross(rate, AsFills(consumed[1..]));
      assert RoundedEach(gross)[1..] == RoundedEach(gross[1..]);
    }
  }

  lemma FillTotals(consumed: seq<Level>)
    ensures Sum(Qtys(AsFills(consumed))) == Sum(Sizes(consumed))
    ensures Sum(Notionals(AsFills(consumed))) == Value(consumed)
  {
    assert Qtys(AsFills(consumed)) == Sizes(consumed);
    var n, c := Notionals(AsFills(consumed)), Costs(consumed, Sizes(consumed));
    forall i | 0 <= i < |n| ensures n[i] == c[i] {
      Commute(consumed[i].price, consumed[i].size);
    }
    assert n == c;
  }

  lemma Commute(x: real, y: real)
    ensures x * y == y * x
  {
  }

  lemma {:induction false} ConsumedFeeBounded(consumed: seq<Level>, series: string, s: FeeSchedule, rate: real, qty: real, avg: real)
    requires Tradeable(consumed) && Positive(consumed) && consumed != [] && Multipliers(s, series, Taker).Ok?
    requires rate == Rate(s.baseTaker, Multipliers(s, series, Taker).value.1) && rate >= 0.0
    requires qty == Sum(Sizes(consumed)) && avg * qty == Value(consumed)
    ensures WalkFees(consumed, series, s).Ok?
    ensures WalkFees(consumed, series, s).value <= RoundUp(Gross(rate, qty, avg)) + 0.01 * (|consumed| - 1) as real
  {
    WalkFeesAre(consumed, series, s, rate);
    FillsFeeBounded(consumed, rate, qty, avg);
  }

  lemma FillsFeeBounded(consumed: seq<Level>, rate: real, qty: real, avg: real)
    requires Positive(consumed) && consumed != [] && rate >= 0.0
    requires qty == Sum(Sizes(consumed)) && avg * qty == Value(consumed)
    ensures FeeOf(WalkGross(rate, AsFills(consumed))) <= RoundUp(Gross(rate, qty, avg)) + 0.01 * (|consumed| - 1) as real
  {
    FillTotals(consumed);
    FillsNonNegative(consumed);
    WalkFeeBounded(rate, AsFills(consumed), avg);
  }

  lemma FillsNonNegative(consumed: seq<Level>)
    requires Positive(consumed)
    ensures forall i :: 0 <= i < |consumed| ==> AsFills(consumed)[i].qty >= 0.0
  {
  }

  /** A quoted leg pays at most the fee of one fill at its average price, plus a centicent for each further level. */
  lemma {:induction false} LegFeeBounded(b: LegBook, qty: real, d: Direction, s: FeeSchedule, slippageCents: real, rate: real, n: nat)
    requires Positive(b.yes) && Positive(b.no) && qty > 0.0 && Multipliers(s, b.series, Taker).Ok?
    requires rate == Rate(s.baseTaker, Multipliers(s, b.series, Taker).value.1) && rate >= 0.0
    requires QuoteLeg(b, qty, d, s, slippageCents).Quoted?
    requires n == |Consumed(LegLadder(b, slippageCents, d), qty)|
    ensures var leg := QuoteLeg(b, qty, d, s, slippageCents).fill;
            n > 0 && leg.feeCents <= RoundUp(Gross(rate, qty, leg.avgPrice)) + 0.01 * (n - 1) as real
  {
    var u := LegLadder(b, slippageCents, d);
    LadderIsWalkable(b, slippageCents, d);
    LegQuoteExactly(b, qty, d, s, slippageCents);
    LadderFeeBounded(u, b.series, qty, s, rate);
  }

  lemma {:induction false} LadderFeeBounded(u: seq<Level>, series: string, qty: real, s: FeeSchedule, rate: real)
    requires Positive(u) && Tradeable(u) && 0.0 < qty <= Depth(u) && Multipliers(s, series, Taker).Ok?
    requires rate == Rate(s.baseTaker, Multipliers(s, series, Taker).value.1) && rate >= 0.0
    ensures Consumed(u, qty) != [] && WalkOf(u, qty).Walked? && WalkFees(Consumed(u, qty), series, s).Ok?
    ensures WalkFees(Consumed(u, qty), series, s).value
            <= RoundUp(Gross(rate, qty, WalkOf(u, qty).avgPrice)) + 0.01 * (|Consumed(u, qty)| - 1) as real
  {
    var consumed, avg := WalkedFacts(u, qty);
    ConsumedFeeBounded(consumed, series, s, rate, qty, avg);
  }

  lemma WalkedFacts(u: seq<Level>, qty: real) returns (consumed: seq<Level>, avg: real)
    requires Positive(u) && Tradeable(u) && 0.0 < qty <= Depth(u)
    ensures consumed == Consumed(u, qty) && WalkOf(u, qty).Walked? && avg == WalkOf(u, qty).avgPrice
    ensures Tradeable(consumed) && Positive(consumed) && consumed != []
    ensures qty == Sum(Sizes(consumed)) && avg * qty == Value(consumed)
  {
    consumed := Consumed(u, qty);
    WalkExact(u, qty);
    WalkAverage(u, qty);
    avg := WalkOf(u, qty).avgPrice;
  }

  // ----- computed -----

  method SumFees(consumed: seq<Level>, series: string, s: FeeSchedule) returns (r: Result<real, FeeRefusal>)
    ensures r == WalkFees(consumed, series, s)
    decreases |consumed|
  {
    if consumed == [] {
      return Ok(0.0);
    }
    var first := TakerFeeCents(consumed[0].price, consumed[0].size, series, s);
    if first.Err? {
      return first;
    }
    var rest := SumFees(consumed[1..], series, s);
    if rest.Err? {
      return rest;
    }
    return Ok(first.value + rest.value);
  }

  method PriceLeg(b: LegBook, qty: real, d: Direction, s: FeeSchedule, slippageCents: real) returns (q: LegQuote)
    requires Positive(b.yes) && Positive(b.no)
    ensures q == QuoteLeg(b, qty, d, s, slippageCents)
  {
    LadderIsWalkable(b, slippageCents, d);
    var walked := Walk(Executable(b, d), qty, slippageCents, d);
    if !walked.Walked? {
      return Unfilled;
    }
    var fee := SumFees(walked.consumed, b.series, s);
    if fee.Err? {
      return Refused(fee.error);
    }
    return Quoted(LegFill(b.ticker, walked.avgPrice, walked.filled, fee.value));
  }

  lemma PrependNone(r: Legs)
    ensures Prepend([], r) == r
  {
    if r.Ok? && r.value.Some? {
      assert [] + r.value.value == r.value.value;
    }
  }

  lemma PrependOne(done: seq<LegFill>, fill: LegFill, rest: Legs)
    ensures Prepend(done, Prepend([fill], rest)) == Prepend(done + [fill], rest)
  {
    if rest.Ok? && rest.value.Some? {
      assert done + ([fill] + rest.value.value) == done + [fill] + rest.value.value;
    }
  }

  /** Cost a whole set: one loop over the legs, adding up averages and fees. */
  method PriceSet(books: seq<LegBook>, qty: real, d: Direction, s: FeeSchedule, slippageCents: real) returns (r: Priced)
    requires WellFormed(books)
    ensures r == PriceSetOf(books, qty, d, s, slippageCents)
  {
    if books == [] || qty <= 0.0 {
      return Ok(None);
    }
    var fills: seq<LegFill> := [];
    var grossSum, totalFee := 0.0, 0.0;
    PrependNone(QuoteLegs(books, qty, d, s, slippageCents));
    assert books[0..] == books;
    for i := 0 to |books|
      invariant QuoteLegs(books, qty, d, s, slippageCents) == Prepend(fills, QuoteLegs(books[i..], qty, d, s, slippageCents))
      invariant grossSum == Sum(Averages(fills)) && totalFee == Sum(LegFees(fills))
    {
      QuoteNext(fills, books, i, qty, d, s, slippageCents);
      var quote := PriceLeg(books[i], qty, d, s, slippageCents);
      match quote {
        case Unfilled =>
          return Ok(None);
        case Refused(why) =>
          return Err(why);
        case Quoted(fill) =>
          TotalsNext(fills, fill);
          fills := fills + [fill];
          grossSum := grossSum + fill.avgPrice;
          totalFee := totalFee + fill.feeCents;
      }
    }
    assert fills + [] == fills;
    return Ok(Some(SetOpportunity(d, qty, fills, grossSum, totalFee, NetEdge(d, grossSum, qty, totalFee))));
  }

  lemma {:induction false} QuoteNext(fills: seq<LegFill>, books: seq<LegBook>, i: nat, qty: real, d: Direction, s: FeeSchedule, slippageCents: real)
    requires i < |books|
    ensures Prepend(fills, QuoteLegs(books[i..], qty, d, s, slippageCents)) ==
            match QuoteLeg(books[i], qty, d, s, slippageCents)
            case Unfilled => Ok(None)
            case Refused(why) => Err(why)
            case Quoted(fill) => Prepend(fills + [fill], QuoteLegs(books[i + 1..], qty, d, s, slippageCents))
  {
    assert books[i..][0] == books[i] && books[i..][1..] == books[i + 1..];
    var quote := QuoteLeg(books[i], qty, d, s, slippageCents);
    if quote.Quoted? {
      PrependOne(fills, quote.fill, QuoteLegs(books[i + 1..], qty, d, s, slippageCents));
    }
  }

  lemma TotalsNext(fills: seq<LegFill>, fill: LegFill)
    ensures Sum(Averages(fills + [fill])) == Sum(Averages(fills)) + fill.avgPrice
    ensures Sum(LegFees(fills + [fill])) == Sum(LegFees(fills)) + fill.feeCents
  {
    assert Averages(fills + [fill]) == Averages(fills) + [fill.avgPrice];
    assert LegFees(fills + [fill]) == LegFees(fills) + [fill.feeCents];
    SumAppend(Averages(fills), fill.avgPrice);
    SumAppend(LegFees(fills), fill.feeCents);
  }

  const CANDIDATE_SIZES: seq<real> := [200.0, 100.0, 50.0, 20.0, 5.0]

  /** `opp` is the priced set of the `j`-th candidate size, and that size fits every leg. */
  ghost predicate IsCandidate(
      opp: SetOpportunity, j: nat, books: seq<LegBook>, d: Direction, s: FeeSchedule, slippageCents: real)
  {
    && j < |CANDIDATE_SIZES| && CANDIDATE_SIZES[j] <= MaxExecutableSets(books, d)
    && PriceSetOf(books, CANDIDATE_SIZES[j], d, s, slippageCents) == Ok(Some(opp))
  }

  /** `best` is the `j`-th candidate: no candidate among the first `n` beats it, and every earlier one falls short of it. */
  ghost predicate BestAt(
      best: SetOpportunity, j: nat, n: nat, books: seq<LegBook>, d: Direction, s: FeeSchedule, slippageCents: real)
  {
    && j < n && IsCandidate(best, j, books, d, s, slippageCents)
    && forall opp, i: nat :: i < n && IsCandidate(opp, i, books, d, s, slippageCents) ==>
         if i < j then opp.netEdgeCents < best.netEdgeCents else opp.netEdgeCents <= best.netEdgeCents
  }

  /** The first of the best among the first `n` candidates by total net edge, or nothing when none is priced. */
  ghost predicate IsBest(
      best: Option<SetOpportunity>, n: nat, books: seq<LegBook>, d: Direction, s: FeeSchedule, slippageCents: real)
  {
    match best
    case None => forall opp, j: nat :: j < n ==> !IsCandidate(opp, j, books, d, s, slippageCents)
    case Some(opp) => exists j: nat :: BestAt(opp, j, n, books, d, s, slippageCents)
  }

  /** What the search reports: the best candidate, if its edge per set clears the floor. */
  ghost predicate IsReport(r: Option<SetOpportunity>, best: Option<SetOpportunity>, minEdge: real) {
    r == if best.Some? && best.value.netEdgeCents >= Cents(minEdge / 100.0, best.value.contracts) then best else None
  }

  lemma CandidatesAgree(
      a: SetOpportunity, b: SetOpportunity, i: nat, books: seq<LegBook>, d: Direction, s: FeeSchedule, slippageCents: real)
    requires IsCandidate(a, i, books, d, s, slippageCents) && IsCandidate(b, i, books, d, s, slippageCents)
    ensures a == b
  {
  }

  lemma BestStays(
      best: SetOpportunity, j: nat, i: nat, books: seq<LegBook>, d: Direction, s: FeeSchedule, slippageCents: real)
    requires BestAt(best, j, i, books, d, s, slippageCents)
    requires forall opp :: IsCandidate(opp, i, books, d, s, slippageCents) ==> opp.netEdgeCents <= best.netEdgeCents
    ensures BestAt(best, j, i + 1, books, d, s, slippageCents)
  {
  }

  lemma BetterTakesOver(
      opp: SetOpportunity, i: nat, found: Option<SetOpportunity>, books: seq<LegBook>, d: Direction, s: FeeSchedule, slippageCents: real)
    requires IsBest(found, i, books, d, s, slippageCents) && IsCandidate(opp, i, books, d, s, slippageCents)
    requires found.None? || opp.netEdgeCents > found.value.netEdgeCents
    ensures BestAt(opp, i, i + 1, books, d, s, slippageCents)
  {
    forall other, k: nat | k < i + 1 && IsCandidate(other, k, books, d, s, slippageCents)
      ensures if k < i then other.netEdgeCents < opp.netEdgeCents else other.netEdgeCents <= opp.netEdgeCents
    {
      if k == i {
        CandidatesAgree(other, opp, i, books, d, s, slippageCents);
      }
    }
  }

  lemma {:induction false} NoCandidate(i: nat, books: seq<LegBook>, d: Direction, s: FeeSchedule, slippageCents: real, found: Option<SetOpportunity>)
    requires i < |CANDIDATE_SIZES| && IsBest(found, i, books, d, s, slippageCents)
    requires CANDIDATE_SIZES[i] > MaxExecutableSets(books, d)
             || PriceSetOf(books, CANDIDATE_SIZES[i], d, s, slippageCents) == Ok(None)
    ensures IsBest(found, i + 1, books, d, s, slippageCents)
  {
    assert forall opp :: !IsCandidate(opp, i, books, d, s, slippageCents);
    if found.Some? {
      var j: nat :| BestAt(found.value, j, i, books, d, s, slippageCents);
      BestStays(found.value, j, i, books, d, s, slippageCents);
    }
  }

  /** A later candidate takes over only with a better total. */
  function Kept(found: Option<SetOpportunity>, opp: SetOpportunity): Option<SetOpportunity> {
    if found.None? || opp.netEdgeCents > found.value.netEdgeCents then Some(opp) else found
  }

  lemma Candidate(
      i: nat, books: seq<LegBook>, d: Direction, s: FeeSchedule, slippageCents: real, found: Option<SetOpportunity>, opp: SetOpportunity)
    requires IsBest(found, i, books, d, s, slippageCents) && IsCandidate(opp, i, books, d, s, slippageCents)
    ensures IsBest(Kept(found, opp), i + 1, books, d, s, slippageCents)
  {
    if found.None? || opp.netEdgeCents > found.value.netEdgeCents {
      BetterTakesOver(opp, i, found, books, d, s, slippageCents);
    } else {
      var j: nat :| BestAt(found.value, j, i, books, d, s, slippageCents);
      forall other | IsCandidate(other, i, books, d, s, slippageCents) ensures other == opp {
        CandidatesAgree(other, opp, i, books, d, s, slippageCents);
      }
      BestStays(found.value, j, i, books, d, s, slippageCents);
    }
  }

  /** The `j`-th candidate size fits every leg and pricing it is refused, with `why`. */
  ghost predicate RefusedAt(why: FeeRefusal, j: nat, books: seq<LegBook>, d: Direction, s: FeeSchedule, slippageCents: real) {
    && j < |CANDIDATE_SIZES| && CANDIDATE_SIZES[j] <= MaxExecutableSets(books, d)
    && PriceSetOf(books, CANDIDATE_SIZES[j], d, s, slippageCents) == Err(why)
  }

  /** The first refusal among the first `n` candidate sizes that fit, if there is one. */
  ghost predicate FirstRefusal(
      refusal: Option<FeeRefusal>, n: nat, books: seq<LegBook>, d: Direction, s: FeeSchedule, slippageCents: real)
  {
    match refusal
    case None => forall why, j: nat :: j < n ==> !RefusedAt(why, j, books, d, s, slippageCents)
    case Some(why) =>
      exists j: nat :: j < n && RefusedAt(why, j, books, d, s, slippageCents)
        && forall other, i: nat :: i < j ==> !RefusedAt(other, i, books, d, s, slippageCents)
  }

  function RefusalOf(r: Priced): Option<FeeRefusal> {
    match r
    case Ok(_) => None
    case Err(why) => Some(why)
  }

  lemma RefusesNow(why: FeeRefusal, i: nat, books: seq<LegBook>, d: Direction, s: FeeSchedule, slippageCents: real)
    requires FirstRefusal(None, i, books, d, s, slippageCents) && RefusedAt(why, i, books, d, s, slippageCents)
    ensures FirstRefusal(Some(why), |CANDIDATE_SIZES|, books, d, s, slippageCents)
  {
  }

  /** No size fits when there is no depth at all. */
  lemma {:induction false} NothingFits(books: seq<LegBook>, d: Direction, s: FeeSchedule, slippageCents: real)
    requires MaxExecutableSets(books, d) <= 0.0
    ensures FirstRefusal(None, |CANDIDATE_SIZES|, books, d, s, slippageCents)
  {
    forall j: nat | j < |CANDIDATE_SIZES| ensures CANDIDATE_SIZES[j] > 0.0 {
    }
  }

  /** The sizes tried. */
  predicate Offered(qty: real) {
    qty == 5.0 || qty == 20.0 || qty == 50.0 || qty == 100.0 || qty == 200.0
  }

  lemma OfferedAt(qty: real) returns (j: nat)
    requires Offered(qty)
    ensures j < |CANDIDATE_SIZES| && CANDIDATE_SIZES[j] == qty
    ensures forall i: nat :: i < |CANDIDATE_SIZES| ==> (i < j <==> CANDIDATE_SIZES[i] > qty)
  {
    j := if qty == 5.0 then 4 else if qty == 20.0 then 3 else if qty == 50.0 then 2 else if qty == 100.0 then 1 else 0;
  }

  /** The set can be priced at this size, and every leg can fill it. */
  ghost predicate Available(opp: SetOpportunity, qty: real, books: seq<LegBook>, d: Direction, s: FeeSchedule, slippageCents: real) {
    Offered(qty) && qty <= MaxExecutableSets(books, d) && PriceSetOf(books, qty, d, s, slippageCents) == Ok(Some(opp))
  }

  lemma AvailableIsCandidate(
      opp: SetOpportunity, qty: real, books: seq<LegBook>, d: Direction, s: FeeSchedule, slippageCents: real) returns (j: nat)
    requires Available(opp, qty, books, d, s, slippageCents)
    ensures IsCandidate(opp, j, books, d, s, slippageCents) && CANDIDATE_SIZES[j] == qty
    ensures forall i: nat :: i < |CANDIDATE_SIZES| ==> (i < j <==> CANDIDATE_SIZES[i] > qty)
  {
    j := OfferedAt(qty);
  }

  lemma CandidateIsAvailable(opp: SetOpportunity, j: nat, books: seq<LegBook>, d: Direction, s: FeeSchedule, slippageCents: real)
    requires IsCandidate(opp, j, books, d, s, slippageCents)
    ensures Available(opp, CANDIDATE_SIZES[j], books, d, s, slippageCents)
  {
  }

  /** What the search keeps: of the sizes 5, 20, 50, 100 and 200 that fit, the most in total, and of equals the largest. */
  lemma BestOfFive(best: SetOpportunity, books: seq<LegBook>, d: Direction, s: FeeSchedule, slippageCents: real) returns (size: real)
    requires IsBest(Some(best), |CANDIDATE_SIZES|, books, d, s, slippageCents)
    ensures Available(best, size, books, d, s, slippageCents)
    ensures forall opp, qty :: Available(opp, qty, books, d, s, slippageCents) ==>
      opp.netEdgeCents < best.netEdgeCents || (opp.netEdgeCents == best.netEdgeCents && qty <= size)
  {
    var j: nat :| BestAt(best, j, |CANDIDATE_SIZES|, books, d, s, slippageCents);
    size := CANDIDATE_SIZES[j];
    CandidateIsAvailable(best, j, books, d, s, slippageCents);
    forall opp, qty | Available(opp, qty, books, d, s, slippageCents)
      ensures opp.netEdgeCents < best.netEdgeCents || (opp.netEdgeCents == best.netEdgeCents && qty <= size)
    {
      var i := AvailableIsCandidate(opp, qty, books, d, s, slippageCents);
    }
  }

  /** And it keeps nothing only when none of them can be had. */
  lemma NoneOfFive(books: seq<LegBook>, d: Direction, s: FeeSchedule, slippageCents: real)
    requires IsBest(None, |CANDIDATE_SIZES|, books, d, s, slippageCents)
    ensures forall opp, qty :: !Available(opp, qty, books, d, s, slippageCents)
  {
    forall opp, qty ensures !Available(opp, qty, books, d, s, slippageCents) {
      if Available(opp, qty, books, d, s, slippageCents) {
        var j := AvailableIsCandidate(opp, qty, books, d, s, slippageCents);
      }
    }
  }

  lemma NoRefusalNow(i: nat, books: seq<LegBook>, d: Direction, s: FeeSchedule, slippageCents: real)
    requires FirstRefusal(None, i, books, d, s, slippageCents) && forall why :: !RefusedAt(why, i, books, d, s, slippageCents)
    ensures FirstRefusal(None, i + 1, books, d, s, slippageCents)
  {
  }

  /** One candidate size: kept if it is the first, or better in total than what was found so far. */
  method TrySize(
      found: Option<SetOpportunity>, i: nat, books: seq<LegBook>, d: Direction, s: FeeSchedule, slippageCents: real, cap: real)
    returns (r: Priced)
    requires WellFormed(books) && cap == MaxExecutableSets(books, d) && i < |CANDIDATE_SIZES|
    requires IsBest(found, i, books, d, s, slippageCents) && (found.Some? ==> found.value.contracts > 0.0)
    ensures r.Err? ==> RefusedAt(r.error, i, books, d, s, slippageCents)
    ensures r.Ok? ==> IsBest(r.value, i + 1, books, d, s, slippageCents) && (r.value.Some? ==> r.value.value.contracts > 0.0)
    ensures r.Ok? ==> forall why :: !RefusedAt(why, i, books, d, s, slippageCents)
  {
    var size := CANDIDATE_SIZES[i];
    if size > cap {
      NoCandidate(i, books, d, s, slippageCents, found);
      return Ok(found);
    }
    var opp := PriceSet(books, size, d, s, slippageCents);
    if opp.Err? {
      return opp;
    }
    if opp.value.None? {
      NoCandidate(i, books, d, s, slippageCents, found);
      return Ok(found);
    }
    Candidate(i, books, d, s, slippageCents, found, opp.value.value);
    return Ok(Kept(found, opp.value.value));
  }

  /** Try every candidate size and keep the best total. */
  method Search(books: seq<LegBook>, d: Direction, s: FeeSchedule, slippageCents: real, cap: real) returns (r: Priced)
    requires WellFormed(books) && cap == MaxExecutableSets(books, d)
    ensures r.Ok? ==> IsBest(r.value, |CANDIDATE_SIZES|, books, d, s, slippageCents)
    ensures r.Ok? && r.value.Some? ==> r.value.value.contracts > 0.0
    ensures FirstRefusal(RefusalOf(r), |CANDIDATE_SIZES|, books, d, s, slippageCents)
  {
    var found: Option<SetOpportunity> := None;
    for i := 0 to |CANDIDATE_SIZES|
      invariant IsBest(found, i, books, d, s, slippageCents)
      invariant FirstRefusal(None, i, books, d, s, slippageCents)
      invariant found.Some? ==> found.value.contracts > 0.0
    {
      var tried := TrySize(found, i, books, d, s, slippageCents, cap);
      if tried.Err? {
        RefusesNow(tried.error, i, books, d, s, slippageCents);
        return tried;
      }
      NoRefusalNow(i, books, d, s, slippageCents);
      found := tried.value;
    }
    return Ok(found);
  }

  /** Report the best candidate if its edge per set clears the floor. */
  method BestFor(books: seq<LegBook>, d: Direction, s: FeeSchedule, slippageCents: real, minEdge: real)
    returns (r: Priced, ghost best: Option<SetOpportunity>)
    requires WellFormed(books)
    ensures FirstRefusal(RefusalOf(r), |CANDIDATE_SIZES|, books, d, s, slippageCents)
    ensures MaxExecutableSets(books, d) <= 0.0 ==> r == Ok(None)
    ensures r.Ok? && MaxExecutableSets(books, d) > 0.0 ==>
              IsBest(best, |CANDIDATE_SIZES|, books, d, s, slippageCents) && IsReport(r.value, best, minEdge)
  {
    best := None;
    var cap := MaxExecutableSets(books, d);
    if cap <= 0.0 {
      NothingFits(books, d, s, slippageCents);
      return Ok(None), best;
    }
    var found := Search(books, d, s, slippageCents, cap);
    if found.Err? {
      return found, best;
    }
    best := found.value;
    if found.value.None? {
      return Ok(None), best;
    }
    var perSet := found.value.value.netEdgeCents / found.value.value.contracts;
    FloorTimes(perSet, minEdge, found.value.value.netEdgeCents, found.value.value.contracts);
    return Ok(if perSet < minEdge then None else found.value), best;
  }

  lemma FloorTimes(perSet: real, floor: real, total: real, qty: real)
    requires qty > 0.0 && perSet == total / qty
    ensures perSet < floor <==> total < Cents(floor / 100.0, qty)
  {
    QuotientTimes(total, qty);
    assert Cents(floor / 100.0, qty) == floor * qty;
    if perSet < floor {
      ProductPositive(floor - perSet, qty);
      Distribute(floor, perSet, qty);
    } else {
      ProductMonotone(floor, perSet, qty);
    }
  }

  /**
   End to end: a sold set that is reported makes at least the configured floor
   on every set it sells, whichever leg wins and whether or not one does.
   */
  lemma {:induction false} ReportedSellPaysTheFloor(
      books: seq<LegBook>, s: FeeSchedule, slippageCents: real, minEdge: real, opp: SetOpportunity, j: nat, outcome: seq<bool>)
    requires WellFormed(books) && IsCandidate(opp, j, books, SellSet, s, slippageCents)
    requires opp.netEdgeCents >= Cents(minEdge / 100.0, opp.contracts)
    requires |outcome| == |books| && Wins(outcome) <= 1
    ensures |opp.legs| == |books|
    ensures SettlementPnl(SellSet, opp.legs, outcome) >= Cents(minEdge / 100.0, opp.contracts)
  {
    PricedSetIsPriced(books, CANDIDATE_SIZES[j], SellSet, s, slippageCents, opp);
    EdgeIsGuaranteed(opp, outcome);
  }
}
