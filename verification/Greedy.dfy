/**
 Walking a sorted ladder of price levels best-first, and why nothing beats it.
 Shared by the order book's cost walk and the set-arbitrage walk.
 */
module Greedy {
  import opened Prelude
  import opened Sums

  datatype Level = Level(price: real, size: real)

  /** Best-first allocation of `want` contracts, level by level. */
  function Take(levels: seq<Level>, want: real): (r: seq<real>)
    ensures |r| == |levels|
  {
    if levels == [] then []
    else
      var t := if want <= 0.0 then 0.0 else MinR(levels[0].size, want);
      [t] + Take(levels[1..], want - t)
  }

  function Pay(price: real, amount: real): real {
    price * amount
  }

  function Costs(levels: seq<Level>, a: seq<real>): (r: seq<real>)
    requires |a| == |levels|
    ensures |r| == |a| && forall i :: 0 <= i < |a| ==> r[i] == Pay(levels[i].price, a[i])
  {
    seq(|a|, i requires 0 <= i < |a| => Pay(levels[i].price, a[i]))
  }

  /** What an allocation costs (buying) or earns (selling). */
  function Cost(levels: seq<Level>, a: seq<real>): real
    requires |a| == |levels|
  {
    Sum(Costs(levels, a))
  }

  function Depth(levels: seq<Level>): real {
    if levels == [] then 0.0 else levels[0].size + Depth(levels[1..])
  }

  ghost predicate Positive(levels: seq<Level>) {
    forall i :: 0 <= i < |levels| ==> levels[i].size > 0.0
  }

  ghost predicate Ascending(levels: seq<Level>) {
    forall i, j :: 0 <= i < j < |levels| ==> levels[i].price <= levels[j].price
  }

  ghost predicate Descending(levels: seq<Level>) {
    forall i, j :: 0 <= i < j < |levels| ==> levels[i].price >= levels[j].price
  }

  /** Any way at all of filling from the same levels. */
  ghost predicate Feasible(levels: seq<Level>, a: seq<real>) {
    |a| == |levels| && forall i :: 0 <= i < |a| ==> 0.0 <= a[i] <= levels[i].size
  }

  /** The walk fills what was asked, or everything there is. */
  lemma {:induction false} TakeFills(levels: seq<Level>, want: real)
    requires Positive(levels) && want >= 0.0
    ensures Feasible(levels, Take(levels, want))
    ensures Sum(Take(levels, want)) == MinR(want, Depth(levels))
    ensures Depth(levels) >= 0.0 && (levels != [] ==> Depth(levels) > 0.0)
  {
    if levels != [] {
      TakeFills(levels[1..], want - Take(levels, want)[0]);
    }
  }

  /** A price that separates what the walk emptied from what it left. */
  ghost predicate Separates(levels: seq<Level>, a: seq<real>, price: real)
    requires |a| == |levels|
  {
    forall i :: 0 <= i < |a| ==>
      && (a[i] < levels[i].size ==> levels[i].price >= price)
      && (a[i] > 0.0 ==> levels[i].price <= price)
  }

  lemma {:induction false} WalkSeparates(levels: seq<Level>, want: real) returns (price: real)
    requires Positive(levels) && Ascending(levels) && want >= 0.0
    ensures Separates(levels, Take(levels, want), price)
    ensures levels != [] && want > 0.0 ==> price >= levels[0].price
  {
    var a := Take(levels, want);
    if levels == [] {
      price := 0.0;
    } else if want < levels[0].size || |levels| == 1 {
      price := levels[0].price;
      NothingLeft(levels[1..], want - a[0]);
    } else {
      price := WalkSeparates(levels[1..], want - a[0]);
      if want == a[0] {
        NothingLeft(levels[1..], 0.0);
        price := levels[0].price;
      }
    }
  }

  lemma {:induction false} NothingLeft(levels: seq<Level>, want: real)
    ensures want <= 0.0 ==> forall i :: 0 <= i < |levels| ==> Take(levels, want)[i] == 0.0
  {
    if levels != [] {
      NothingLeft(levels[1..], want);
    }
  }

  lemma MovedContractsCostMore(p: real, size: real, a: real, g: real, price: real)
    requires 0.0 <= a <= size && 0.0 <= g <= size
    requires g < size ==> p >= price
    requires g > 0.0 ==> p <= price
    ensures Pay(p, a) - Pay(p, g) >= Pay(price, a) - Pay(price, g)
  {
    if a > g {
      ProductNonNegative(p - price, a - g);
    } else if a < g {
      ProductNonNegative(price - p, g - a);
    }
    assert (p - price) * (a - g) == p * a - p * g - price * a + price * g;
  }

  /** What an allocation would cost if every level had one price. */
  function FlatCosts(price: real, a: seq<real>): (r: seq<real>)
    ensures |r| == |a| && forall i :: 0 <= i < |a| ==> r[i] == Pay(price, a[i])
  {
    seq(|a|, i requires 0 <= i < |a| => Pay(price, a[i]))
  }

  lemma BeatsFlat(levels: seq<Level>, a: seq<real>, g: seq<real>, price: real)
    requires Feasible(levels, a) && Feasible(levels, g) && Separates(levels, g, price)
    ensures Cost(levels, a) - Cost(levels, g) >= Sum(FlatCosts(price, a)) - Sum(FlatCosts(price, g))
  {
    forall i | 0 <= i < |a|
      ensures Costs(levels, a)[i] - Costs(levels, g)[i] >= FlatCosts(price, a)[i] - FlatCosts(price, g)[i]
    {
      MovedContractsCostMore(levels[i].price, levels[i].size, a[i], g[i], price);
    }
    SumDominates(Costs(levels, a), Costs(levels, g), FlatCosts(price, a), FlatCosts(price, g));
  }

  lemma {:induction false} FlatTotal(price: real, a: seq<real>)
    ensures Sum(FlatCosts(price, a)) == Pay(price, Sum(a))
  {
    SumScales(a, FlatCosts(price, a), price);
  }

  /** Buying from the cheapest level up: no other allocation of the same size costs less. */
  lemma {:induction false} BuyWalkOptimal(levels: seq<Level>, a: seq<real>, want: real)
    requires Positive(levels) && Ascending(levels) && Feasible(levels, a)
    requires want >= 0.0 && Sum(a) == Sum(Take(levels, want))
    ensures Cost(levels, Take(levels, want)) <= Cost(levels, a)
  {
    TakeFills(levels, want);
    var price := WalkSeparates(levels, want);
    BeatsFlat(levels, a, Take(levels, want), price);
    FlatTotal(price, a);
    FlatTotal(price, Take(levels, want));
  }

  function Negated(levels: seq<Level>): (r: seq<Level>)
    ensures |r| == |levels| && forall i :: 0 <= i < |levels| ==> r[i] == Level(-levels[i].price, levels[i].size)
  {
    seq(|levels|, i requires 0 <= i < |levels| => Level(-levels[i].price, levels[i].size))
  }

  lemma {:induction false} NegatedTake(levels: seq<Level>, want: real)
    ensures Take(Negated(levels), want) == Take(levels, want)
  {
    if levels != [] {
      assert Negated(levels)[1..] == Negated(levels[1..]);
      NegatedTake(levels[1..], want - Take(levels, want)[0]);
    }
  }

  lemma NegatedCost(levels: seq<Level>, a: seq<real>)
    requires |a| == |levels|
    ensures Cost(Negated(levels), a) == -Cost(levels, a)
  {
    forall i | 0 <= i < |a| ensures Costs(Negated(levels), a)[i] == -1.0 * Costs(levels, a)[i] {
      assert -levels[i].price * a[i] == -(levels[i].price * a[i]);
    }
    SumScales(Costs(levels, a), Costs(Negated(levels), a), -1.0);
  }

  /** Selling from the highest level down: no other allocation of the same size earns more. */
  lemma {:induction false} SellWalkOptimal(levels: seq<Level>, a: seq<real>, want: real)
    requires Positive(levels) && Descending(levels) && Feasible(levels, a)
    requires want >= 0.0 && Sum(a) == Sum(Take(levels, want))
    ensures Cost(levels, Take(levels, want)) >= Cost(levels, a)
  {
    NegatedTake(levels, want);
    NegatedCost(levels, a);
    NegatedCost(levels, Take(levels, want));
    BuyWalkOptimal(Negated(levels), a, want);
  }
}
