/**
 What a replay owes the trader, told without YES-equivalents: contracts bought
 and sold on the side they were quoted on, dollars handed over at that side's
 own price, and a dollar for each contract on the side that won.
 */
module ReplayTrader {
  import opened Prelude
  import opened MapSums
  import opened Replay
  import opened ReplayLookAhead
  import opened ReplayCash
  import opened ReplayMirror

  type Fills = seq<(int, ExecutedFill)>

  // ----- the trader's own account -----

  /** Contracts bought on `side`, less those sold on it. */
  function Moved(f: ExecutedFill, side: Side): real {
    if f.side != side then 0.0 else if f.action == Buy then f.contracts else -f.contracts
  }

  /** Dollars received on a sale, less dollars paid on a purchase, as quoted. */
  function Flow(f: ExecutedFill): real {
    if f.action == Sell then f.price * f.contracts else -(f.price * f.contracts)
  }

  /** Contracts of `t` held on `side`: what was bought less what was sold. */
  function Held(fills: Fills, t: string, side: Side): real {
    if fills == [] then 0.0
    else
      var f := fills[|fills| - 1].1;
      Held(fills[..|fills| - 1], t, side) + if f.ticker == t then Moved(f, side) else 0.0
  }

  function TraderCash(fills: Fills): real {
    if fills == [] then 0.0 else TraderCash(fills[..|fills| - 1]) + Flow(fills[|fills| - 1].1)
  }

  /** A dollar for each contract held on the winning side. */
  function Winnings(settled: seq<Outcome>, fills: Fills): real {
    if settled == [] then 0.0
    else
      var o := settled[|settled| - 1];
      Winnings(settled[..|settled| - 1], fills) + Held(fills, o.ticker, if o.settledYes then Yes else No)
  }

  function Traded(fills: Fills): set<string> {
    set x | x in fills :: x.1.ticker
  }

  /** Contracts of each market held on both sides: such a pair pays a dollar whichever side wins. */
  ghost function Pairs(fills: Fills, markets: set<string>): map<string, real> {
    map t | t in markets :: MinR(Held(fills, t, Yes), Held(fills, t, No))
  }

  /** Cents paid for what is open, at the price of the side held. */
  ghost function Paid(p: Positions): map<string, real> {
    map t | t in p :: CostBasisCents(p[t])
  }

  /** The trader's gain in cents: cash, winnings, a dollar a pair, and what is still open at cost. */
  ghost function TraderAccount(fills: Fills, settled: seq<Outcome>, open: set<string>, costCents: real): real {
    100.0 * (TraderCash(fills) + Winnings(settled, fills) + MapSum(Pairs(fills, open))) + costCents
  }

  // ----- from the trader's terms to signed YES-equivalents -----

  lemma {:induction false} NetIsHeld(fills: Fills, t: string)
    ensures NetFrom(fills, t) == Held(fills, t, Yes) - Held(fills, t, No)
  {
    if fills != [] {
      NetIsHeld(fills[..|fills| - 1], t);
    }
  }

  lemma {:induction false} NothingHeld(fills: Fills, t: string, side: Side)
    requires t !in Traded(fills)
    ensures Held(fills, t, side) == 0.0
  {
    if fills != [] {
      var init, last := fills[..|fills| - 1], fills[|fills| - 1];
      assert last in fills;
      assert forall x :: x in init ==> x in fills;
      NothingHeld(init, t, side);
    }
  }

  ghost function NoHeld(fills: Fills, markets: set<string>): map<string, real> {
    map t | t in markets :: Held(fills, t, No)
  }

  lemma NoHeldStep(fills: Fills, markets: set<string>, f: ExecutedFill)
    requires fills != [] && f == fills[|fills| - 1].1 && f.ticker in markets
    ensures MapSum(NoHeld(fills, markets)) == MapSum(NoHeld(fills[..|fills| - 1], markets)) + Moved(f, No)
  {
    var was, is' := NoHeld(fills[..|fills| - 1], markets), NoHeld(fills, markets);
    MapSumTakes(was, f.ticker);
    MapSumTakes(is', f.ticker);
    assert was - {f.ticker} == is' - {f.ticker};
  }

  /** Trading YES-equivalents moves the trader's cash, and a dollar for each NO contract taken on. */
  lemma FillIsFlow(f: ExecutedFill, paid: real)
    requires paid == Delta(f) * FillYesPrice(f)
    ensures -paid == Flow(f) + Moved(f, No)
  {
    NoSideCash(f.price, f.contracts);
  }

  lemma NoSideCash(price: real, contracts: real)
    ensures contracts * (1.0 - price) == contracts - price * contracts
    ensures (-contracts) * (1.0 - price) == price * contracts - contracts
    ensures contracts * price == price * contracts && (-contracts) * price == -(price * contracts)
  {
  }

  lemma CashBefore(fills: Fills, f: ExecutedFill) returns (paid: real)
    requires fills != [] && f == fills[|fills| - 1].1
    ensures paid == Delta(f) * FillYesPrice(f) && CashFrom(fills) == CashFrom(fills[..|fills| - 1]) - paid
  {
    paid := Delta(f) * FillYesPrice(f);
  }

  lemma {:induction false} CashStep(fills: Fills, f: ExecutedFill)
    requires fills != [] && f == fills[|fills| - 1].1
    ensures CashFrom(fills) == CashFrom(fills[..|fills| - 1]) + Flow(f) + Moved(f, No)
  {
    var paid := CashBefore(fills, f);
    FillIsFlow(f, paid);
  }

  lemma NothingTraded(markets: set<string>)
    ensures MapSum(NoHeld([], markets)) == 0.0
  {
    MapSumPads(map[], NoHeld([], markets));
  }

  lemma {:induction false} CashIsTraderCash(fills: Fills, markets: set<string>)
    requires Traded(fills) <= markets
    ensures CashFrom(fills) == TraderCash(fills) + MapSum(NoHeld(fills, markets))
  {
    if fills == [] {
      NothingTraded(markets);
    } else {
      var f := fills[|fills| - 1].1;
      assert fills[|fills| - 1] in fills;
      CashIsTraderCash(fills[..|fills| - 1], markets);
      NoHeldStep(fills, markets, f);
      CashStep(fills, f);
    }
  }

  ghost function Tickers(settled: seq<Outcome>): set<string> {
    set o | o in settled :: o.ticker
  }

  lemma {:induction false} PayoutStep(settled: seq<Outcome>, fills: Fills, o: Outcome)
    requires settled != [] && o == settled[|settled| - 1]
    ensures PaidOut(settled, fills) == PaidOut(settled[..|settled| - 1], fills) + if o.settledYes then NetFrom(fills, o.ticker) else 0.0
  {
  }

  lemma TickersStep(settled: seq<Outcome>, o: Outcome)
    requires settled != [] && o == settled[|settled| - 1] && Distinct(settled)
    ensures Tickers(settled) == Tickers(settled[..|settled| - 1]) + {o.ticker} && o.ticker !in Tickers(settled[..|settled| - 1])
  {
    var init := settled[..|settled| - 1];
    assert settled == init + [o];
  }

  lemma {:induction false} NoHeldTakes(fills: Fills, markets: set<string>, t: string)
    requires t in markets
    ensures MapSum(NoHeld(fills, markets)) == Held(fills, t, No) + MapSum(NoHeld(fills, markets - {t}))
  {
    MapSumTakes(NoHeld(fills, markets), t);
    assert NoHeld(fills, markets) - {t} == NoHeld(fills, markets - {t});
  }

  /** A settlement pays the YES-equivalent net, and takes back the dollar of each NO contract unless NO won. */
  lemma {:induction false} PayoutsAreWinnings(settled: seq<Outcome>, fills: Fills, markets: set<string>)
    requires Distinct(settled) && Tickers(settled) <= markets
    ensures PaidOut(settled, fills) + MapSum(NoHeld(fills, markets))
         == Winnings(settled, fills) + MapSum(NoHeld(fills, markets - Tickers(settled)))
  {
    if settled == [] {
      assert markets - Tickers(settled) == markets;
    } else {
      var init, o := settled[..|settled| - 1], settled[|settled| - 1];
      TickersStep(settled, o);
      PayoutsAreWinnings(init, fills, markets);
      NetIsHeld(fills, o.ticker);
      NoHeldTakes(fills, markets - Tickers(init), o.ticker);
      assert markets - Tickers(settled) == markets - Tickers(init) - {o.ticker};
      PayoutStep(settled, fills, o);
    }
  }

  /** One market left open: its signed cost and NO contracts are its pairs and its cost at the side held. */
  lemma OpenMarket(net: real, avg: real, yes: real, no: real)
    requires net == yes - no
    ensures net != 0.0 ==> 100.0 * (net * avg) + 100.0 * no == 100.0 * MinR(yes, no) + CostBasisCents(OpenPosition("", net, avg))
    ensures net == 0.0 ==> no == MinR(yes, no)
  {
    if net > 0.0 {
      assert avg * net == net * avg;
    } else if net < 0.0 {
      assert (1.0 - avg) * -net == net * avg - net;
    }
  }

  ghost function Worths(p: Positions, markets: set<string>): map<string, real> {
    map t | t in markets :: 100.0 * PriorWorth(p, t)
  }

  ghost function Hundred(m: map<string, real>): map<string, real> {
    map t | t in m :: 100.0 * m[t]
  }

  lemma {:induction false} HundredTotals(m: map<string, real>)
    ensures MapSum(Hundred(m)) == 100.0 * MapSum(m)
    decreases |m|
  {
    if t :| t in m {
      HundredTotals(m - {t});
      MapSumTakes(m, t);
      MapSumTakes(Hundred(m), t);
      assert Hundred(m) - {t} == Hundred(m - {t});
    } else {
      assert m == map[] && Hundred(m) == map[];
    }
  }

  ghost function PaidIn(p: Positions, markets: set<string>): map<string, real> {
    map t | t in markets :: if t in p then CostBasisCents(p[t]) else 0.0
  }

  /** The open positions are those of `markets` with anything held, at the net of what is held. */
  ghost predicate OpenAre(p: Positions, fills: Fills, markets: set<string>) {
    && p.Keys <= markets
    && forall t :: t in markets ==> (if t in p then p[t].net != 0.0 && p[t].net == NetFrom(fills, t) else NetFrom(fills, t) == 0.0)
  }

  lemma OpenMarkets(p: Positions, fills: Fills, markets: set<string>)
    requires OpenAre(p, fills, markets)
    ensures 100.0 * (Basis(p) + MapSum(NoHeld(fills, markets))) == 100.0 * MapSum(Pairs(fills, markets)) + MapSum(Paid(p))
  {
    forall t | t in markets
      ensures Worths(p, markets)[t] + Hundred(NoHeld(fills, markets))[t] == Hundred(Pairs(fills, markets))[t] + PaidIn(p, markets)[t]
    {
      NetIsHeld(fills, t);
      if t in p {
        OpenMarket(p[t].net, p[t].avg, Held(fills, t, Yes), Held(fills, t, No));
      } else {
        OpenMarket(0.0, 0.0, Held(fills, t, Yes), Held(fills, t, No));
      }
    }
    MapSumBalances(Worths(p, markets), Hundred(NoHeld(fills, markets)), Hundred(Pairs(fills, markets)), PaidIn(p, markets));
    HundredTotals(NoHeld(fills, markets));
    HundredTotals(Pairs(fills, markets));
    HundredTotals(Costs(p));
    MapSumPads(Hundred(Costs(p)), Worths(p, markets));
    MapSumPads(Paid(p), PaidIn(p, markets));
  }

  // ----- every run -----

  /** Markets with a fill that have not settled. */
  ghost function StillOpen(st: State): set<string> {
    Traded(st.fills) - st.settled
  }

  lemma AccountedOpen(st: State, schedule: seq<Outcome>)
    requires Accounted(st, schedule)
    ensures OpenAre(st.ledger.positions, st.fills, StillOpen(st))
  {
    forall t | t in st.ledger.positions ensures t in StillOpen(st) {
      if t !in Traded(st.fills) {
        NothingHeld(st.fills, t, Yes);
        NothingHeld(st.fills, t, No);
        NetIsHeld(st.fills, t);
      }
    }
  }

  lemma SettledTickers(settled: set<string>, schedule: seq<Outcome>, n: nat)
    requires SettledUpTo(settled, schedule, n)
    ensures Tickers(schedule[..n]) == settled
  {
    forall t | t in settled ensures t in Tickers(schedule[..n]) {
      var i :| 0 <= i < n && schedule[i].ticker == t;
      assert schedule[..n][i] in schedule[..n];
    }
  }

  /** What the trader holds and has earned, of a state that is accounted for. */
  ghost predicate OwedToTrader(st: State, schedule: seq<Outcome>)
    requires st.next <= |schedule|
  {
    && st.ledger.realized == TraderAccount(st.fills, schedule[..st.next], StillOpen(st), MapSum(Paid(st.ledger.positions)))
    && forall t :: t in StillOpen(st) ==>
         PriorNet(st.ledger.positions, t) == Held(st.fills, t, Yes) - Held(st.fills, t, No)
  }

  lemma AccountedIsOwed(st: State, schedule: seq<Outcome>)
    requires Accounted(st, schedule) && Distinct(schedule)
    ensures OwedToTrader(st, schedule)
  {
    var settled := schedule[..st.next];
    var markets := Traded(st.fills) + st.settled;
    SettledTickers(st.settled, schedule, st.next);
    CashIsTraderCash(st.fills, markets);
    PayoutsAreWinnings(settled, st.fills, markets);
    assert markets - st.settled == StillOpen(st);
    AccountedOpen(st, schedule);
    OpenMarkets(st.ledger.positions, st.fills, StillOpen(st));
    forall t | t in StillOpen(st)
      ensures PriorNet(st.ledger.positions, t) == Held(st.fills, t, Yes) - Held(st.fills, t, No)
    {
      NetIsHeld(st.fills, t);
    }
  }

  /**
   The trader's side of every run: realised cents are the dollars handed over at
   the quoted prices, a dollar for each contract on the winning side of what has
   settled and for each pair held of what has not, and the cost of what is open;
   every open position is what was bought less what was sold, YES less NO.
   */
  lemma {:induction false} TraderIsPaid(obs: seq<Observation>, env: Env)
    requires Distinct(env.schedule) && Run(obs, env).Ok?
    ensures Run(obs, env).value.next <= |env.schedule| && OwedToTrader(Run(obs, env).value, env.schedule)
  {
    CashConserved(obs, env);
    AccountedIsOwed(Run(obs, env).value, env.schedule);
  }

  /** Once every market traded has settled: cash, and a dollar for each contract on the winning side. Nothing else. */
  lemma {:induction false} SettledRunPaysWinners(obs: seq<Observation>, env: Env)
    requires Distinct(env.schedule) && Run(obs, env).Ok? && Traded(Run(obs, env).value.fills) <= Run(obs, env).value.settled
    ensures var st := Run(obs, env).value;
            && st.next <= |env.schedule| && st.ledger.positions == map[]
            && st.ledger.realized == 100.0 * (TraderCash(st.fills) + Winnings(env.schedule[..st.next], st.fills))
  {
    var st := Run(obs, env).value;
    CashConserved(obs, env);
    AccountedOpen(st, env.schedule);
    assert StillOpen(st) == {};
    assert st.ledger.positions == map[];
    TraderIsPaid(obs, env);
    assert Pairs(st.fills, {}) == map[] && Paid(map[]) == map[];
  }
}
