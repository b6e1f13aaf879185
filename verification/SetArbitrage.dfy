/**
 Pricing a whole mutually exclusive event at once
 (`backend/app/detectors/set_arbitrage.py`), and what the price guarantees.
 */
module SetArbitrage {
  import opened Prelude
  import opened Sums
  import opened Greedy
  import Sorting

  datatype Direction = BuySet | SellSet

  /** One leg's book, both sides quoted as bids; `series` is the ticker's series. */
  datatype LegBook = LegBook(ticker: string, series: string, yes: seq<Level>, no: seq<Level>)

  datatype LegFill = LegFill(ticker: string, avgPrice: real, contracts: real, feeCents: real)

  datatype SetOpportunity = SetOpportunity(
    direction: Direction, contracts: real, legs: seq<LegFill>, grossSum: real, totalFeeCents: real, netEdgeCents: real)

  // ----- the ladder a leg offers -----

  /** Entries as they arrive: short ones and non-positive sizes are dropped. */
  function LevelsFrom(raw: seq<seq<real>>): (r: seq<Level>)
    ensures Positive(r)
  {
    if raw == [] then []
    else (if |raw[0]| >= 2 && raw[0][1] > 0.0 then [Level(raw[0][0], raw[0][1])] else []) + LevelsFrom(raw[1..])
  }

  /** Entry by entry: one that is long enough and of a positive size gives its level, any other none. */
  lemma {:induction false} LevelsFromEntries(a: seq<seq<real>>, b: seq<seq<real>>, price: real, size: real)
    ensures LevelsFrom(a + b) == LevelsFrom(a) + LevelsFrom(b)
    ensures LevelsFrom([[price, size]]) == if size > 0.0 then [Level(price, size)] else []
    ensures |a| == 1 && |a[0]| < 2 ==> LevelsFrom(a) == []
    ensures |a| == 1 && |a[0]| >= 2 ==> LevelsFrom(a) == LevelsFrom([[a[0][0], a[0][1]]])
    decreases |a|
  {
    assert [[price, size]][1..] == [];
    if a == [] {
      assert a + b == b;
    } else {
      LevelsFromEntries(a[1..], b, price, size);
      assert (a + b)[1..] == a[1..] + b;
    }
  }

  function Inverted(levels: seq<Level>): (r: seq<Level>)
    ensures |r| == |levels| && forall i :: 0 <= i < |levels| ==> r[i] == Level(1.0 - levels[i].price, levels[i].size)
  {
    seq(|levels|, i requires 0 <= i < |levels| => Level(1.0 - levels[i].price, levels[i].size))
  }

  predicate Better(a: Level, b: Level, d: Direction) {
    if d == SellSet then a.price > b.price else a.price < b.price
  }

  ghost predicate BestFirst(levels: seq<Level>, d: Direction) {
    if d == SellSet then Descending(levels) else Ascending(levels)
  }

  function NotBehind(d: Direction): (Level, Level) -> bool {
    (a: Level, b: Level) => !Better(b, a, d)
  }

  function Place(l: Level, s: seq<Level>, d: Direction): seq<Level> {
    Sorting.Place(l, s, NotBehind(d))
  }

  /** A stable sort, best price first. */
  function SortBest(s: seq<Level>, d: Direction): seq<Level> {
    if s == [] then [] else Place(s[0], SortBest(s[1..], d), d)
  }

  lemma {:induction false} PlaceKeeps(l: Level, s: seq<Level>, d: Direction)
    ensures multiset(Place(l, s, d)) == multiset(s) + multiset{l}
    ensures Depth(Place(l, s, d)) == l.size + Depth(s)
    decreases |s|
  {
    if s != [] && Better(s[0], l, d) {
      PlaceKeeps(l, s[1..], d);
      assert s == [s[0]] + s[1..];
    }
  }

  lemma PlacedIsOld(x: Level, l: Level, s: seq<Level>, d: Direction)
    requires x in Place(l, s, d)
    ensures x == l || x in s
  {
    PlaceKeeps(l, s, d);
    assert x in multiset(Place(l, s, d));
  }

  lemma {:induction false} PlaceSorts(l: Level, s: seq<Level>, d: Direction)
    requires BestFirst(s, d)
    ensures BestFirst(Place(l, s, d), d)
    decreases |s|
  {
    if s != [] && Better(s[0], l, d) {
      PlaceSorts(l, s[1..], d);
      var r := Place(l, s[1..], d);
      forall j | 0 <= j < |r| ensures !Better(r[j], s[0], d) {
        PlacedIsOld(r[j], l, s[1..], d);
      }
    }
  }

  lemma {:induction false} SortBestSorts(s: seq<Level>, d: Direction)
    ensures BestFirst(SortBest(s, d), d)
    ensures multiset(SortBest(s, d)) == multiset(s)
    ensures Depth(SortBest(s, d)) == Depth(s)
    decreases |s|
  {
    if s != [] {
      SortBestSorts(s[1..], d);
      PlaceSorts(s[0], SortBest(s[1..], d), d);
      PlaceKeeps(s[0], SortBest(s[1..], d), d);
      assert s == [s[0]] + s[1..];
    }
  }

  lemma {:induction false} SortBestPositive(s: seq<Level>, d: Direction)
    requires Positive(s)
    ensures Positive(SortBest(s, d))
  {
    SortBestSorts(s, d);
    var r := SortBest(s, d);
    forall i | 0 <= i < |r| ensures r[i].size > 0.0 {
      assert r[i] in multiset(s);
    }
  }

  /** Levels we could hit, as YES prices, best first. */
  function Executable(b: LegBook, d: Direction): seq<Level> {
    if d == SellSet then SortBest(b.yes, d) else SortBest(Inverted(b.no), d)
  }

  /** The price after adverse slippage. */
  function Effective(price: real, slip: real, d: Direction): real {
    if d == SellSet then price - slip else price + slip
  }

  /** Levels whose effective price can trade, at that price. */
  function Usable(levels: seq<Level>, slip: real, d: Direction): seq<Level> {
    if levels == [] then []
    else
      var at := Effective(levels[0].price, slip, d);
      (if 0.0 < at < 1.0 then [Level(at, levels[0].size)] else []) + Usable(levels[1..], slip, d)
  }

  ghost predicate Tradeable(levels: seq<Level>) {
    forall i :: 0 <= i < |levels| ==> 0.0 < levels[i].price < 1.0
  }

  ghost predicate AllUsable(levels: seq<Level>, slip: real, d: Direction) {
    forall i :: 0 <= i < |levels| ==> 0.0 < Effective(levels[i].price, slip, d) < 1.0
  }

  lemma {:induction false} UsableIsALadder(levels: seq<Level>, slip: real, d: Direction)
    requires Positive(levels) && BestFirst(levels, d)
    ensures var u := Usable(levels, slip, d);
            && Positive(u) && BestFirst(u, d) && Tradeable(u)
            && (forall i :: 0 <= i < |u| && levels != [] ==>
                  !Better(u[i], Level(Effective(levels[0].price, slip, d), 0.0), d))
    decreases |levels|
  {
    if levels != [] {
      UsableIsALadder(levels[1..], slip, d);
    }
  }

  lemma {:induction false} AllUsableKeepsDepth(levels: seq<Level>, slip: real, d: Direction)
    requires AllUsable(levels, slip, d)
    ensures Depth(Usable(levels, slip, d)) == Depth(levels)
    decreases |levels|
  {
    if levels != [] {
      AllUsableKeepsDepth(levels[1..], slip, d);
    }
  }

  lemma {:induction false} UsableStep(levels: seq<Level>, i: nat, slip: real, d: Direction)
    requires i < |levels|
    ensures var at := Effective(levels[i].price, slip, d);
            Usable(levels[i..], slip, d)
            == if 0.0 < at < 1.0 then [Level(at, levels[i].size)] + Usable(levels[i + 1..], slip, d)
               else Usable(levels[i + 1..], slip, d)
  {
    assert levels[i..][1..] == levels[i + 1..];
  }

  // ----- the walk -----

  /** The fills of a walk, one per level touched. */
  function Consumed(levels: seq<Level>, want: real): seq<Level> {
    if levels == [] || want <= 0.0 then []
    else
      var t := MinR(levels[0].size, want);
      [Level(levels[0].price, t)] + Consumed(levels[1..], want - t)
  }

  function Sizes(levels: seq<Level>): (r: seq<real>)
    ensures |r| == |levels| && forall i :: 0 <= i < |r| ==> r[i] == levels[i].size
  {
    seq(|levels|, i requires 0 <= i < |levels| => levels[i].size)
  }

  /** What the fills of a walk come to, in dollars. */
  function Value(fills: seq<Level>): real {
    Cost(fills, Sizes(fills))
  }

  lemma ValueStep(fills: seq<Level>, l: Level)
    ensures Value([l] + fills) == Pay(l.price, l.size) + Value(fills)
    ensures Sum(Sizes([l] + fills)) == l.size + Sum(Sizes(fills))
  {
    assert Costs([l] + fills, Sizes([l] + fills)) == [Pay(l.price, l.size)] + Costs(fills, Sizes(fills));
    assert Sizes([l] + fills) == [l.size] + Sizes(fills);
  }

  lemma CostStep(levels: seq<Level>, a: seq<real>)
    requires levels != [] && |a| == |levels|
    ensures Cost(levels, a) == Pay(levels[0].price, a[0]) + Cost(levels[1..], a[1..])
  {
    assert Costs(levels, a) == [Pay(levels[0].price, a[0])] + Costs(levels[1..], a[1..]);
  }

  lemma TakeStep(levels: seq<Level>, want: real, t: real)
    requires levels != [] && want > 0.0 && t == MinR(levels[0].size, want)
    ensures Cost(levels, Take(levels, want)) == Pay(levels[0].price, t) + Cost(levels[1..], Take(levels[1..], want - t))
    ensures Sum(Take(levels, want)) == t + Sum(Take(levels[1..], want - t))
  {
    assert Take(levels, want)[0] == t && Take(levels, want)[1..] == Take(levels[1..], want - t);
    CostStep(levels, Take(levels, want));
  }

  lemma {:induction false} NothingCosts(levels: seq<Level>, want: real)
    requires want <= 0.0 || levels == []
    ensures Cost(levels, Take(levels, want)) == 0.0 && Sum(Take(levels, want)) == 0.0
  {
    NothingLeft(levels, want);
    SumScales(Take(levels, want), Take(levels, want), 0.0);
    SumScales(Costs(levels, Take(levels, want)), Costs(levels, Take(levels, want)), 0.0);
  }

  /** The fills recorded are the best-first allocation. */
  lemma {:induction false} ConsumedIsTake(levels: seq<Level>, want: real)
    requires Positive(levels)
    ensures Value(Consumed(levels, want)) == Cost(levels, Take(levels, want))
    ensures Sum(Sizes(Consumed(levels, want))) == Sum(Take(levels, want))
    decreases |levels|
  {
    if levels == [] || want <= 0.0 {
      NothingCosts(levels, want);
    } else {
      var t := MinR(levels[0].size, want);
      var later := Consumed(levels[1..], want - t);
      ConsumedIsTake(levels[1..], want - t);
      ConsumedStep(levels, want, t, later);
      ValueStep(later, Level(levels[0].price, t));
      TakeStep(levels, want, t);
    }
  }

  /** One fill for each level touched, of what is taken from it, and nothing from any other. */
  lemma {:induction false} ConsumedLevels(levels: seq<Level>, want: real, i: nat)
    requires Positive(levels) && i < |levels|
    ensures |Consumed(levels, want)| <= |levels|
    ensures i < |Consumed(levels, want)| ==>
      Consumed(levels, want)[i].price == levels[i].price && Consumed(levels, want)[i].size == Take(levels, want)[i] > 0.0
    ensures i >= |Consumed(levels, want)| ==> Take(levels, want)[i] == 0.0
    decreases |levels|
  {
    if want <= 0.0 {
      NothingLeft(levels, want);
    } else {
      var t := MinR(levels[0].size, want);
      if i > 0 {
        ConsumedLevels(levels[1..], want - t, i - 1);
        assert Take(levels, want)[i] == Take(levels[1..], want - t)[i - 1];
      } else if |levels| > 1 {
        ConsumedLevels(levels[1..], want - t, 0);
      }
    }
  }

  lemma ConsumedStep(levels: seq<Level>, want: real, t: real, later: seq<Level>)
    requires levels != [] && want > 0.0 && t == MinR(levels[0].size, want) && later == Consumed(levels[1..], want - t)
    ensures Consumed(levels, want) == [Level(levels[0].price, t)] + later
  {
  }

  lemma {:induction false} ConsumedIsTradeable(levels: seq<Level>, want: real)
    requires Positive(levels)
    ensures Positive(Consumed(levels, want))
    ensures Tradeable(levels) ==> Tradeable(Consumed(levels, want))
    decreases |levels|
  {
    if levels != [] && want > 0.0 {
      ConsumedIsTradeable(levels[1..], want - MinR(levels[0].size, want));
    }
  }

  datatype WalkResult = DivisionByZero | NoFill | Walked(avgPrice: real, filled: real, consumed: seq<Level>)

  /** The walk over usable levels: all of it, or nothing. */
  function WalkOf(u: seq<Level>, contracts: real): WalkResult {
    if contracts <= 0.0 then DivisionByZero
    else if Depth(u) < contracts then NoFill
    else Walked(Cost(u, Take(u, contracts)) / contracts, contracts, Consumed(u, contracts))
  }

  lemma {:induction false} WalkExact(u: seq<Level>, contracts: real)
    requires Positive(u) && Tradeable(u) && 0.0 < contracts <= Depth(u)
    ensures Sum(Take(u, contracts)) == contracts
    ensures var c := Consumed(u, contracts);
            Sum(Sizes(c)) == contracts && Positive(c) && Tradeable(c) && Value(c) == Cost(u, Take(u, contracts))
  {
    TakeFills(u, contracts);
    ConsumedIsTake(u, contracts);
    ConsumedIsTradeable(u, contracts);
  }

  lemma {:induction false} WalkAverage(u: seq<Level>, contracts: real)
    requires Positive(u) && Tradeable(u) && 0.0 < contracts <= Depth(u)
    ensures WalkOf(u, contracts).Walked?
    ensures WalkOf(u, contracts).avgPrice * contracts == Value(Consumed(u, contracts))
  {
    WalkExact(u, contracts);
    var cost :| cost == Cost(u, Take(u, contracts));
    QuotientTimes(cost, contracts);
    assert WalkOf(u, contracts) == Walked(cost / contracts, contracts, Consumed(u, contracts));
  }

  lemma {:induction false} WalkOptimal(u: seq<Level>, contracts: real, d: Direction, a: seq<real>)
    requires Positive(u) && BestFirst(u, d) && Tradeable(u) && 0.0 < contracts <= Depth(u)
    requires Feasible(u, a) && Sum(a) == contracts
    ensures if d == SellSet then Cost(u, a) <= Value(Consumed(u, contracts)) else Cost(u, a) >= Value(Consumed(u, contracts))
  {
    WalkExact(u, contracts);
    if d == SellSet {
      SellWalkOptimal(u, a, contracts);
    } else {
      BuyWalkOptimal(u, a, contracts);
    }
  }

  /**
   The walk is exact and optimal: it gives up exactly when the usable depth is
   short; otherwise its fills add up to the size asked, at prices strictly
   inside (0, 1), and no other way of filling that size from the same levels
   earns more (selling) or costs less (buying).
   */
  lemma {:induction false} WalkExactAndOptimal(u: seq<Level>, contracts: real, d: Direction)
    requires Positive(u) && BestFirst(u, d) && Tradeable(u) && contracts > 0.0
    ensures WalkOf(u, contracts) == NoFill <==> Depth(u) < contracts
    ensures Depth(u) >= contracts ==>
              var w := WalkOf(u, contracts);
              && w.Walked? && w.filled == contracts
              && Sum(Sizes(w.consumed)) == contracts && Positive(w.consumed) && Tradeable(w.consumed)
              && w.avgPrice * contracts == Value(w.consumed)
              && forall a :: Feasible(u, a) && Sum(a) == contracts ==>
                    if d == SellSet then Cost(u, a) <= Value(w.consumed) else Cost(u, a) >= Value(w.consumed)
  {
    if Depth(u) >= contracts {
      WalkExact(u, contracts);
      WalkAverage(u, contracts);
      forall a | Feasible(u, a) && Sum(a) == contracts
        ensures if d == SellSet then Cost(u, a) <= Value(Consumed(u, contracts)) else Cost(u, a) >= Value(Consumed(u, contracts))
      {
        WalkOptimal(u, contracts, d, a);
      }
    }
  }

  /** Where the walk stands: what is consumed, what it cost, and what it still wants from `rest`. */
  ghost predicate Walking(u: seq<Level>, rest: seq<Level>, contracts: real, consumed: seq<Level>, remaining: real, cost: real) {
    && Consumed(u, contracts) == consumed + Consumed(rest, remaining)
    && cost == Value(consumed) && remaining == contracts - Sum(Sizes(consumed))
    && (contracts > 0.0 ==> remaining >= 0.0)
    && (remaining > 0.0 ==> contracts > 0.0)
  }

  lemma WalkingStep(
      u: seq<Level>, l: Level, rest: seq<Level>, contracts: real, consumed: seq<Level>, remaining: real, cost: real)
    requires Walking(u, [l] + rest, contracts, consumed, remaining, cost) && remaining > 0.0 && l.size > 0.0
    ensures var t := MinR(l.size, remaining);
            Walking(u, rest, contracts, consumed + [Level(l.price, t)], remaining - t, cost + Pay(l.price, t))
  {
    var t := MinR(l.size, remaining);
    assert ([l] + rest)[1..] == rest;
    assert consumed + Consumed([l] + rest, remaining) == consumed + [Level(l.price, t)] + Consumed(rest, remaining - t);
    ValueAppend(consumed, Level(l.price, t));
  }

  lemma WalkingStart(u: seq<Level>, contracts: real)
    ensures Walking(u, u, contracts, [], contracts, 0.0)
  {
    assert [] + Consumed(u, contracts) == Consumed(u, contracts);
  }

  /** One usable level: as much of it as is still wanted. */
  method TakeLevel(ghost u: seq<Level>, l: Level, ghost rest: seq<Level>, ghost contracts: real, remaining: real, cost: real, consumed: seq<Level>)
    returns (remaining': real, cost': real, consumed': seq<Level>)
    requires Walking(u, [l] + rest, contracts, consumed, remaining, cost) && remaining > 0.0 && l.size > 0.0
    ensures Walking(u, rest, contracts, consumed', remaining', cost')
  {
    var take := MinR(l.size, remaining);
    WalkingStep(u, l, rest, contracts, consumed, remaining, cost);
    cost' := cost + Pay(l.price, take);
    consumed' := consumed + [Level(l.price, take)];
    remaining' := remaining - take;
  }

  /** The source's loop: `remaining`, `cost`, `consumed` over the ladder, skipping prices that cannot trade. */
  method WalkLoop(levels: seq<Level>, contracts: real, slip: real, d: Direction)
    returns (remaining: real, cost: real, consumed: seq<Level>, ghost rest: seq<Level>)
    requires Positive(levels) && BestFirst(levels, d)
    ensures Walking(Usable(levels, slip, d), rest, contracts, consumed, remaining, cost)
    ensures remaining <= 0.0 || rest == []
  {
    remaining, cost, consumed := contracts, 0.0, [];
    ghost var u := Usable(levels, slip, d);
    WalkingStart(u, contracts);
    assert levels[0..] == levels;
    var i := 0;
    while i < |levels| && remaining > 0.0
      invariant 0 <= i <= |levels|
      invariant Walking(u, Usable(levels[i..], slip, d), contracts, consumed, remaining, cost)
    {
      var effective := Effective(levels[i].price, slip, d);
      UsableStep(levels, i, slip, d);
      if 0.0 < effective < 1.0 {
        remaining, cost, consumed := TakeLevel(
          u, Level(effective, levels[i].size), Usable(levels[i + 1..], slip, d), contracts, remaining, cost, consumed);
      }
      i := i + 1;
    }
    rest := Usable(levels[i..], slip, d);
  }

  method Walk(levels: seq<Level>, contracts: real, slippageCents: real, d: Direction) returns (r: WalkResult)
    requires Positive(levels) && BestFirst(levels, d)
    ensures r == WalkOf(Usable(levels, slippageCents / 100.0, d), contracts)
  {
    var remaining, cost, consumed, rest := WalkLoop(levels, contracts, slippageCents / 100.0, d);
    if contracts <= 0.0 {
      return DivisionByZero;
    }
    UsableIsALadder(levels, slippageCents / 100.0, d);
    FinishedWalk(Usable(levels, slippageCents / 100.0, d), rest, contracts, consumed, remaining, cost);
    if remaining > 0.0 {
      return NoFill;
    }
    return Walked(cost / contracts, contracts, consumed);
  }

  lemma ValueAppend(fills: seq<Level>, l: Level)
    ensures Value(fills + [l]) == Value(fills) + Pay(l.price, l.size)
    ensures Sum(Sizes(fills + [l])) == Sum(Sizes(fills)) + l.size
  {
    assert Costs(fills + [l], Sizes(fills + [l])) == Costs(fills, Sizes(fills)) + [Pay(l.price, l.size)];
    SumAppend(Costs(fills, Sizes(fills)), Pay(l.price, l.size));
    assert Sizes(fills + [l]) == Sizes(fills) + [l.size];
    SumAppend(Sizes(fills), l.size);
  }

  lemma FinishedWalk(
      u: seq<Level>, rest: seq<Level>, contracts: real, consumed: seq<Level>, remaining: real, cost: real)
    requires Positive(u) && contracts > 0.0 && Walking(u, rest, contracts, consumed, remaining, cost)
    requires remaining <= 0.0 || rest == []
    ensures WalkOf(u, contracts) == if remaining > 0.0 then NoFill else Walked(cost / contracts, contracts, consumed)
  {
    assert Consumed(rest, remaining) == [];
    assert consumed + [] == consumed;
    ConsumedIsTake(u, contracts);
    TakeFills(u, contracts);
  }
}
