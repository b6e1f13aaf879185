/**
 What a leg's book really offers, bid by bid as it arrived: each bid at what it
 would net. Sorting it, inverting it and dropping what cannot trade changes
 neither what can be filled nor for how much.
 */
module SetReach {
  import opened Prelude
  import opened Sums
  import opened Greedy
  import opened SetArbitrage

  /** A bid at what it nets; one whose net price cannot trade offers nothing. */
  function AtNet(net: real, size: real): Level {
    Level(net, if 0.0 < net < 1.0 then size else 0.0)
  }

  /** Selling YES hits the YES bids less slippage; buying it pays one less each NO bid, plus slippage. */
  function Reach(b: LegBook, d: Direction, slip: real): (r: seq<Level>)
    ensures d == SellSet ==> |r| == |b.yes| && forall i :: 0 <= i < |r| ==> r[i] == AtNet(b.yes[i].price - slip, b.yes[i].size)
    ensures d == BuySet ==> |r| == |b.no| && forall i :: 0 <= i < |r| ==> r[i] == AtNet(1.0 - b.no[i].price + slip, b.no[i].size)
  {
    if d == SellSet then seq(|b.yes|, i requires 0 <= i < |b.yes| => AtNet(b.yes[i].price - slip, b.yes[i].size))
    else seq(|b.no|, i requires 0 <= i < |b.no| => AtNet(1.0 - b.no[i].price + slip, b.no[i].size))
  }

  /** The bids a leg is filled from. */
  function Bids(b: LegBook, d: Direction): seq<Level> {
    if d == SellSet then b.yes else b.no
  }

  /** Levels at their net prices, in the order given. */
  function Netted(levels: seq<Level>, slip: real, d: Direction): (r: seq<Level>)
    ensures |r| == |levels|
    ensures forall i :: 0 <= i < |r| ==> r[i] == AtNet(Effective(levels[i].price, slip, d), levels[i].size)
  {
    seq(|levels|, i requires 0 <= i < |levels| => AtNet(Effective(levels[i].price, slip, d), levels[i].size))
  }

  // ----- sorting commutes with netting -----

  lemma NettedFirst(l: Level, s: seq<Level>, slip: real, d: Direction)
    ensures Netted([l] + s, slip, d) == [AtNet(Effective(l.price, slip, d), l.size)] + Netted(s, slip, d)
  {
  }

  lemma PlaceStep(l: Level, s: seq<Level>, d: Direction)
    ensures Place(l, s, d) == if s == [] || !Better(s[0], l, d) then [l] + s else [s[0]] + Place(l, s[1..], d)
  {
  }

  lemma {:induction false} NettedPlace(l: Level, s: seq<Level>, slip: real, d: Direction)
    ensures Netted(Place(l, s, d), slip, d) == Place(AtNet(Effective(l.price, slip, d), l.size), Netted(s, slip, d), d)
    decreases |s|
  {
    var n := Netted(s, slip, d);
    PlaceStep(l, s, d);
    PlaceStep(AtNet(Effective(l.price, slip, d), l.size), n, d);
    if s == [] || !Better(s[0], l, d) {
      NettedFirst(l, s, slip, d);
    } else {
      NettedPlace(l, s[1..], slip, d);
      assert n[1..] == Netted(s[1..], slip, d);
      NettedFirst(s[0], Place(l, s[1..], d), slip, d);
    }
  }

  lemma {:induction false} NettedSort(s: seq<Level>, slip: real, d: Direction)
    ensures Netted(SortBest(s, d), slip, d) == SortBest(Netted(s, slip, d), d)
    decreases |s|
  {
    if s != [] {
      NettedSort(s[1..], slip, d);
      NettedPlace(s[0], SortBest(s[1..], d), slip, d);
      assert Netted(s, slip, d)[1..] == Netted(s[1..], slip, d);
    }
  }

  // ----- what can be filled, and for how much -----

  /** `qty` contracts can be filled from `levels` for `dollars`. */
  ghost predicate Fills(levels: seq<Level>, qty: real, dollars: real) {
    exists a :: Feasible(levels, a) && Sum(a) == qty && Cost(levels, a) == dollars
  }

  lemma {:induction false} FirstTaken(levels: seq<Level>, a: seq<real>)
    requires Feasible(levels, a) && levels != []
    ensures Feasible(levels[1..], a[1..]) && 0.0 <= a[0] <= levels[0].size
    ensures Sum(a) == a[0] + Sum(a[1..])
    ensures Cost(levels, a) == Pay(levels[0].price, a[0]) + Cost(levels[1..], a[1..])
  {
    CostStep(levels, a);
  }

  lemma {:induction false} TakenFirst(l: Level, levels: seq<Level>, y: real, a: seq<real>)
    requires Feasible(levels, a) && 0.0 <= y <= l.size
    ensures Feasible([l] + levels, [y] + a)
    ensures Sum([y] + a) == y + Sum(a)
    ensures Cost([l] + levels, [y] + a) == Pay(l.price, y) + Cost(levels, a)
  {
    CostStep([l] + levels, [y] + a);
    assert ([l] + levels)[1..] == levels && ([y] + a)[1..] == a;
  }

  lemma Swapped(x: Level, y: Level, levels: seq<Level>, a: seq<real>) returns (c: seq<real>)
    requires Feasible([x] + ([y] + levels), a)
    ensures Feasible([y] + ([x] + levels), c) && Sum(c) == Sum(a)
    ensures Cost([y] + ([x] + levels), c) == Cost([x] + ([y] + levels), a)
  {
    FirstTaken([x] + ([y] + levels), a);
    assert ([x] + ([y] + levels))[1..] == [y] + levels;
    FirstTaken([y] + levels, a[1..]);
    assert ([y] + levels)[1..] == levels;
    TakenFirst(x, levels, a[0], a[1..][1..]);
    TakenFirst(y, [x] + levels, a[1], [a[0]] + a[1..][1..]);
    c := [a[1]] + ([a[0]] + a[1..][1..]);
  }

  lemma {:induction false} PlaceFills(l: Level, s: seq<Level>, d: Direction, a: seq<real>) returns (c: seq<real>)
    requires Feasible(Place(l, s, d), a)
    ensures Feasible([l] + s, c) && Sum(c) == Sum(a) && Cost([l] + s, c) == Cost(Place(l, s, d), a)
    decreases |s|
  {
    if s == [] || !Better(s[0], l, d) {
      c := a;
    } else {
      var rest := Place(l, s[1..], d);
      FirstTaken([s[0]] + rest, a);
      assert ([s[0]] + rest)[1..] == rest;
      c := PlaceFills(l, s[1..], d, a[1..]);
      TakenFirst(s[0], [l] + s[1..], a[0], c);
      c := Swapped(s[0], l, s[1..], [a[0]] + c);
      assert [s[0]] + s[1..] == s;
    }
  }

  lemma {:induction false} FillsPlace(l: Level, s: seq<Level>, d: Direction, c: seq<real>) returns (a: seq<real>)
    requires Feasible([l] + s, c)
    ensures Feasible(Place(l, s, d), a) && Sum(a) == Sum(c) && Cost(Place(l, s, d), a) == Cost([l] + s, c)
    decreases |s|
  {
    if s == [] || !Better(s[0], l, d) {
      a := c;
    } else {
      var rest := Place(l, s[1..], d);
      assert [l] + s == [l] + ([s[0]] + s[1..]);
      a := Swapped(l, s[0], s[1..], c);
      var first := a[0];
      FirstTaken([s[0]] + ([l] + s[1..]), a);
      assert ([s[0]] + ([l] + s[1..]))[1..] == [l] + s[1..];
      a := FillsPlace(l, s[1..], d, a[1..]);
      TakenFirst(s[0], rest, first, a);
      a := [first] + a;
    }
  }

  lemma {:induction false} SortFills(s: seq<Level>, d: Direction, a: seq<real>) returns (c: seq<real>)
    requires Feasible(SortBest(s, d), a)
    ensures Feasible(s, c) && Sum(c) == Sum(a) && Cost(s, c) == Cost(SortBest(s, d), a)
    decreases |s|
  {
    if s == [] {
      c := a;
    } else {
      var sorted := SortBest(s[1..], d);
      var b := PlaceFills(s[0], sorted, d, a);
      FirstTaken([s[0]] + sorted, b);
      assert ([s[0]] + sorted)[1..] == sorted;
      c := SortFills(s[1..], d, b[1..]);
      TakenFirst(s[0], s[1..], b[0], c);
      c := [b[0]] + c;
      assert [s[0]] + s[1..] == s;
    }
  }

  lemma {:induction false} FillsSort(s: seq<Level>, d: Direction, c: seq<real>) returns (a: seq<real>)
    requires Feasible(s, c)
    ensures Feasible(SortBest(s, d), a) && Sum(a) == Sum(c) && Cost(SortBest(s, d), a) == Cost(s, c)
    decreases |s|
  {
    if s == [] {
      a := c;
    } else {
      var sorted := SortBest(s[1..], d);
      FirstTaken(s, c);
      var b := FillsSort(s[1..], d, c[1..]);
      TakenFirst(s[0], sorted, c[0], b);
      a := FillsPlace(s[0], sorted, d, [c[0]] + b);
    }
  }

  lemma {:induction false} UsableFills(levels: seq<Level>, slip: real, d: Direction, a: seq<real>) returns (c: seq<real>)
    requires Positive(levels) && Feasible(Usable(levels, slip, d), a)
    ensures var n := Netted(levels, slip, d);
            Feasible(n, c) && Sum(c) == Sum(a) && Cost(n, c) == Cost(Usable(levels, slip, d), a)
    decreases |levels|
  {
    if levels == [] {
      c := a;
    } else {
      var n, u := Netted(levels, slip, d), Usable(levels[1..], slip, d);
      assert n == [n[0]] + Netted(levels[1..], slip, d);
      if 0.0 < Effective(levels[0].price, slip, d) < 1.0 {
        FirstTaken([n[0]] + u, a);
        assert ([n[0]] + u)[1..] == u;
        c := UsableFills(levels[1..], slip, d, a[1..]);
        TakenFirst(n[0], Netted(levels[1..], slip, d), a[0], c);
        c := [a[0]] + c;
      } else {
        assert Usable(levels, slip, d) == u;
        c := UsableFills(levels[1..], slip, d, a);
        TakenFirst(n[0], Netted(levels[1..], slip, d), 0.0, c);
        c := [0.0] + c;
      }
    }
  }

  /** One usable level more. */
  lemma {:induction false} UsableFirst(levels: seq<Level>, slip: real, d: Direction)
    requires levels != []
    ensures var at, u := Effective(levels[0].price, slip, d), Usable(levels[1..], slip, d);
            Usable(levels, slip, d) == if 0.0 < at < 1.0 then [Level(at, levels[0].size)] + u else u
  {
  }

  lemma {:induction false} FillsUsable(levels: seq<Level>, slip: real, d: Direction, c: seq<real>) returns (a: seq<real>)
    requires Feasible(Netted(levels, slip, d), c)
    ensures Feasible(Usable(levels, slip, d), a) && Sum(a) == Sum(c)
    ensures Cost(Usable(levels, slip, d), a) == Cost(Netted(levels, slip, d), c)
    decreases |levels|
  {
    if levels == [] {
      a := c;
    } else {
      var n, u := Netted(levels, slip, d), Usable(levels[1..], slip, d);
      UsableFirst(levels, slip, d);
      FirstTaken(n, c);
      assert n[1..] == Netted(levels[1..], slip, d);
      a := FillsUsable(levels[1..], slip, d, c[1..]);
      if 0.0 < n[0].price < 1.0 {
        TakenFirst(n[0], u, c[0], a);
        a := [c[0]] + a;
      } else {
        assert c[0] == 0.0 && Pay(n[0].price, 0.0) == 0.0;
      }
    }
  }

  lemma {:induction false} DepthFirst(l: Level, s: seq<Level>)
    ensures Depth([l] + s) == l.size + Depth(s)
  {
    assert ([l] + s)[1..] == s;
  }

  lemma {:induction false} UsableDepth(levels: seq<Level>, slip: real, d: Direction)
    ensures Depth(Usable(levels, slip, d)) == Depth(Netted(levels, slip, d))
    decreases |levels|
  {
    if levels != [] {
      var n := Netted(levels, slip, d);
      UsableDepth(levels[1..], slip, d);
      assert n[1..] == Netted(levels[1..], slip, d);
      DepthFirst(n[0], Usable(levels[1..], slip, d));
      assert [] + Usable(levels[1..], slip, d) == Usable(levels[1..], slip, d);
    }
  }

  // ----- the ladder of a leg offers what its bids do -----

  lemma ReachIsNetted(b: LegBook, d: Direction, slip: real) returns (raw: seq<Level>)
    requires Positive(b.yes) && Positive(b.no)
    ensures Executable(b, d) == SortBest(raw, d) && Reach(b, d, slip) == Netted(raw, slip, d)
    ensures Positive(raw) && Depth(raw) == Depth(Bids(b, d))
  {
    raw := if d == SellSet then b.yes else Inverted(b.no);
    InvertedDepth(b.no);
    assert Reach(b, d, slip) == Netted(raw, slip, d);
  }

  lemma {:induction false} InvertedDepth(levels: seq<Level>)
    ensures Depth(Inverted(levels)) == Depth(levels)
  {
    if levels != [] {
      InvertedDepth(levels[1..]);
      assert Inverted(levels)[1..] == Inverted(levels[1..]);
    }
  }

  /** A leg's whole depth is that of the bids on the side it is filled from. */
  lemma DepthIsOfBids(b: LegBook, d: Direction)
    requires Positive(b.yes) && Positive(b.no)
    ensures Depth(Executable(b, d)) == Depth(Bids(b, d))
  {
    var raw := ReachIsNetted(b, d, 0.0);
    SortBestSorts(raw, d);
  }

  lemma LadderFills(b: LegBook, d: Direction, slip: real, a: seq<real>) returns (c: seq<real>)
    requires Positive(b.yes) && Positive(b.no) && Feasible(Usable(Executable(b, d), slip, d), a)
    ensures Feasible(Reach(b, d, slip), c) && Sum(c) == Sum(a)
    ensures Cost(Reach(b, d, slip), c) == Cost(Usable(Executable(b, d), slip, d), a)
  {
    var raw := ReachIsNetted(b, d, slip);
    SortBestPositive(raw, d);
    NettedSort(raw, slip, d);
    c := UsableFills(Executable(b, d), slip, d, a);
    c := SortFills(Netted(raw, slip, d), d, c);
  }

  lemma FillsLadder(b: LegBook, d: Direction, slip: real, c: seq<real>) returns (a: seq<real>)
    requires Positive(b.yes) && Positive(b.no) && Feasible(Reach(b, d, slip), c)
    ensures Feasible(Usable(Executable(b, d), slip, d), a) && Sum(a) == Sum(c)
    ensures Cost(Usable(Executable(b, d), slip, d), a) == Cost(Reach(b, d, slip), c)
  {
    var raw := ReachIsNetted(b, d, slip);
    NettedSort(raw, slip, d);
    a := FillsSort(Netted(raw, slip, d), d, c);
    a := FillsUsable(Executable(b, d), slip, d, a);
  }

  lemma {:induction false} LadderDepth(b: LegBook, d: Direction, slip: real)
    requires Positive(b.yes) && Positive(b.no)
    ensures Depth(Usable(Executable(b, d), slip, d)) == Depth(Reach(b, d, slip))
  {
    var raw := ReachIsNetted(b, d, slip);
    UsableDepth(Executable(b, d), slip, d);
    NettedSort(raw, slip, d);
    SortBestSorts(Netted(raw, slip, d), d);
  }

  /** `qty` contracts come to `dollars`, and no way of filling them from the same bids does better. */
  ghost predicate BestFill(reach: seq<Level>, qty: real, d: Direction, dollars: real) {
    && Fills(reach, qty, dollars)
    && forall a :: Feasible(reach, a) && Sum(a) == qty ==>
         if d == SellSet then Cost(reach, a) <= dollars else Cost(reach, a) >= dollars
  }

  /** What is best on a leg's ladder is best among its bids. */
  lemma {:induction false} LadderIsReach(b: LegBook, d: Direction, slip: real, u: seq<Level>, taken: seq<real>, qty: real, dollars: real)
    requires Positive(b.yes) && Positive(b.no) && u == Usable(Executable(b, d), slip, d)
    requires Feasible(u, taken) && Sum(taken) == qty && Cost(u, taken) == dollars
    requires forall a :: Feasible(u, a) && Sum(a) == qty ==> if d == SellSet then Cost(u, a) <= dollars else Cost(u, a) >= dollars
    ensures BestFill(Reach(b, d, slip), qty, d, dollars)
  {
    var c := LadderFills(b, d, slip, taken);
    forall r | Feasible(Reach(b, d, slip), r) && Sum(r) == qty
      ensures if d == SellSet then Cost(Reach(b, d, slip), r) <= dollars else Cost(Reach(b, d, slip), r) >= dollars
    {
      var a := FillsLadder(b, d, slip, r);
    }
  }

  lemma {:induction false} TakenIsBestFill(b: LegBook, d: Direction, slip: real, qty: real, u: seq<Level>, dollars: real)
    requires Positive(b.yes) && Positive(b.no) && u == Usable(Executable(b, d), slip, d)
    requires Positive(u) && BestFirst(u, d) && Tradeable(u) && 0.0 < qty <= Depth(u) && dollars == Value(Consumed(u, qty))
    ensures BestFill(Reach(b, d, slip), qty, d, dollars)
  {
    TakeFills(u, qty);
    WalkExact(u, qty);
    forall a | Feasible(u, a) && Sum(a) == qty
      ensures if d == SellSet then Cost(u, a) <= dollars else Cost(u, a) >= dollars
    {
      WalkOptimal(u, qty, d, a);
    }
    LadderIsReach(b, d, slip, u, Take(u, qty), qty, dollars);
  }

  lemma {:induction false} AverageTotals(u: seq<Level>, qty: real)
    requires Positive(u) && Tradeable(u) && 0.0 < qty <= Depth(u)
    ensures WalkOf(u, qty).Walked? && Pay(WalkOf(u, qty).avgPrice, qty) == Value(Consumed(u, qty))
  {
    WalkAverage(u, qty);
  }

  /** The walk over the ladder is the best that can be done with the bids themselves. */
  lemma {:induction false} WalkIsBestFill(b: LegBook, d: Direction, slip: real, qty: real, u: seq<Level>)
    requires Positive(b.yes) && Positive(b.no)
    requires u == Usable(Executable(b, d), slip, d) && Positive(u) && BestFirst(u, d) && Tradeable(u) && 0.0 < qty <= Depth(u)
    ensures WalkOf(u, qty).Walked?
    ensures BestFill(Reach(b, d, slip), qty, d, Pay(WalkOf(u, qty).avgPrice, qty))
  {
    AverageTotals(u, qty);
    TakenIsBestFill(b, d, slip, qty, u, Value(Consumed(u, qty)));
  }
}
