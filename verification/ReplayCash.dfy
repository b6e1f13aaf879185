/**
 Where the money of a replay comes from. Realised P&L is tied, on every run, to
 an account that never mentions an average price or a closed lot: the cash of
 the fills, the payouts of the settlements, and the basis still open.
 */
module ReplayCash {
  import opened Prelude
  import opened MapSums
  import opened Replay
  import opened ReplayLookAhead

  // ----- the independent account -----

  /** YES-equivalent contracts a market's fills add up to. */
  function NetFrom(fills: seq<(int, ExecutedFill)>, t: string): real {
    if fills == [] then 0.0
    else
      var f := fills[|fills| - 1].1;
      NetFrom(fills[..|fills| - 1], t) + if f.ticker == t then Delta(f) else 0.0
  }

  /** Dollars received minus dollars paid, trading YES-equivalents. */
  function CashFrom(fills: seq<(int, ExecutedFill)>): real {
    if fills == [] then 0.0
    else
      var f := fills[|fills| - 1].1;
      CashFrom(fills[..|fills| - 1]) - Delta(f) * FillYesPrice(f)
  }

  function FeesFrom(fills: seq<(int, ExecutedFill)>): real {
    if fills == [] then 0.0
    else FeesFrom(fills[..|fills| - 1]) + fills[|fills| - 1].1.feeCents
  }

  /** Dollars the settled outcomes paid on what the fills had built. */
  function PaidOut(settled: seq<Outcome>, fills: seq<(int, ExecutedFill)>): real {
    if settled == [] then 0.0
    else
      var o := settled[|settled| - 1];
      PaidOut(settled[..|settled| - 1], fills) + o.PayoutYes() * NetFrom(fills, o.ticker)
  }

  /** Signed YES-equivalent cost of one lot. */
  function Worth(pos: OpenPosition): real {
    pos.net * pos.avg
  }

  ghost function Costs(p: Positions): map<string, real> {
    map t | t in p :: Worth(p[t])
  }

  /** The cost of everything open. */
  ghost function Basis(p: Positions): real {
    MapSum(Costs(p))
  }

  function PriorWorth(p: Positions, t: string): real {
    if t in p then Worth(p[t]) else 0.0
  }

  function PnlOf(trades: seq<ClosedTrade>): real {
    if trades == [] then 0.0
    else PnlOf(trades[..|trades| - 1]) + trades[|trades| - 1].pnl
  }

  // ----- sums under extension -----

  lemma {:induction false} FillsExtend(fills: seq<(int, ExecutedFill)>, now: int, f: ExecutedFill, t: string)
    ensures NetFrom(fills + [(now, f)], t) == NetFrom(fills, t) + (if f.ticker == t then Delta(f) else 0.0)
    ensures CashFrom(fills + [(now, f)]) == CashFrom(fills) - Delta(f) * FillYesPrice(f)
    ensures FeesFrom(fills + [(now, f)]) == FeesFrom(fills) + f.feeCents
  {
    assert (fills + [(now, f)])[..|fills|] == fills;
  }

  lemma {:induction false} TradesExtend(trades: seq<ClosedTrade>, t: ClosedTrade)
    ensures PnlOf(trades + [t]) == PnlOf(trades) + t.pnl
  {
    assert (trades + [t])[..|trades|] == trades;
  }

  /** A fill on a market that has not settled leaves the payouts alone. */
  lemma {:induction false} PaidOutUnmoved(
      settled: seq<Outcome>, fills: seq<(int, ExecutedFill)>, now: int, f: ExecutedFill)
    requires forall o :: o in settled ==> o.ticker != f.ticker
    ensures PaidOut(settled, fills + [(now, f)]) == PaidOut(settled, fills)
  {
    if settled != [] {
      var init := settled[..|settled| - 1];
      assert forall o :: o in init ==> o in settled;
      PaidOutUnmoved(init, fills, now, f);
      FillsExtend(fills, now, f, settled[|settled| - 1].ticker);
      assert settled[|settled| - 1] in settled;
    }
  }

  lemma BasisPut(p: Positions, t: string, pos: OpenPosition)
    ensures Basis(p[t := pos]) == Worth(pos) + Basis(Without(p, t))
  {
    MapSumPut(Costs(p), t, Worth(pos));
    assert Costs(p[t := pos]) == Costs(p)[t := Worth(pos)];
    assert Costs(Without(p, t)) == Costs(p) - {t};
  }

  lemma BasisSplit(p: Positions, t: string)
    ensures Basis(p) == PriorWorth(p, t) + Basis(Without(p, t))
  {
    MapSumSplit(Costs(p), t);
    assert Costs(Without(p, t)) == Costs(p) - {t};
  }

  lemma BasisBefore(p: Positions, t: string, net: real, avg: real)
    requires net == PriorNet(p, t) && avg == PriorAvg(p, t)
    ensures Basis(p) == net * avg + Basis(Without(p, t))
  {
    BasisSplit(p, t);
  }

  // ----- one fill -----

  lemma DivideBack(v: real, w: real)
    requires w > 0.0
    ensures (v / w) * w == v && (-w) * (v / w) == -v
    ensures (1.0 - v / w) * w == w - v
  {
  }

  lemma AverageCash(net: real, avg: real, delta: real, price: real)
    requires delta != 0.0 && (net == 0.0 || (net > 0.0) == (delta > 0.0))
    ensures (net + delta) * Blend(avg, AbsR(net), price, AbsR(delta))
            == net * avg + delta * price
  {
    var w := AbsR(net) + AbsR(delta);
    var v := avg * AbsR(net) + price * AbsR(delta);
    DivideBack(v, w);
    if delta > 0.0 {
      assert net + delta == w;
    } else {
      assert net + delta == -w;
      assert v == -(net * avg + delta * price);
    }
  }

  /** Closing part of a lot at `price`: the shape shared by reducing, closing and flipping. */
  lemma ReduceCash(avg: real, price: real, directed: real)
    ensures (price - avg) * directed * 100.0 == 100.0 * (directed * price - directed * avg)
  {
    assert (price - avg) * directed == directed * price - directed * avg;
  }

  lemma AddTimes(x: real, y: real, z: real)
    ensures (x + y) * z == x * z + y * z
    ensures (-y) * z == -(y * z)
  {
  }

  /** What a fill realises, in cents: its cash plus the change in the cost of what is open. */
  ghost predicate CashLaw(net: real, avg: real, delta: real, price: real, after: (real, real, real)) {
    after.0 == net + delta && after.2 == 100.0 * (after.0 * after.1 - net * avg - delta * price)
  }

  lemma AddCashLaw(net: real, avg: real, delta: real, price: real)
    requires delta != 0.0 && (net == 0.0 || (net > 0.0) == (delta > 0.0))
    ensures CashLaw(net, avg, delta, price, RealizedFromFill(net, avg, delta, price))
  {
    AverageCash(net, avg, delta, price);
  }

  lemma ReduceCashLaw(net: real, avg: real, delta: real, price: real)
    requires net != 0.0 && delta != 0.0 && (net > 0.0) != (delta > 0.0) && AbsR(delta) < AbsR(net)
    ensures CashLaw(net, avg, delta, price, RealizedFromFill(net, avg, delta, price))
  {
    ReduceCash(avg, price, -delta);
    AddTimes(net, delta, avg);
  }

  lemma CloseCashLaw(net: real, avg: real, delta: real, price: real)
    requires net != 0.0 && delta == -net
    ensures CashLaw(net, avg, delta, price, RealizedFromFill(net, avg, delta, price))
  {
    ReduceCash(avg, price, net);
  }

  lemma FlipCashLaw(net: real, avg: real, delta: real, price: real)
    requires net != 0.0 && delta != 0.0 && (net > 0.0) != (delta > 0.0) && AbsR(delta) > AbsR(net)
    ensures CashLaw(net, avg, delta, price, RealizedFromFill(net, avg, delta, price))
  {
    ReduceCash(avg, price, net);
    AddTimes(net, delta, price);
  }

  /** Averaging in, reducing, closing and flipping through flat all obey the one law. */
  lemma FillCashLaw(net: real, avg: real, delta: real, price: real)
    ensures CashLaw(net, avg, delta, price, RealizedFromFill(net, avg, delta, price))
  {
    if delta == 0.0 {
    } else if net == 0.0 || (net > 0.0) == (delta > 0.0) {
      AddCashLaw(net, avg, delta, price);
    } else if AbsR(delta) < AbsR(net) {
      ReduceCashLaw(net, avg, delta, price);
    } else if delta == -net {
      CloseCashLaw(net, avg, delta, price);
    } else {
      FlipCashLaw(net, avg, delta, price);
    }
  }

  lemma DivideInside(v: real, w: real)
    requires 0.0 < v < w
    ensures 0.0 < v / w < 1.0
  {
    DivideBack(v, w);
    PositiveFactor(1.0 - v / w, w);
    PositiveFactor(v / w, w);
  }

  lemma PositiveFactor(q: real, w: real)
    requires q * w > 0.0 && w > 0.0
    ensures q > 0.0
  {
  }

  lemma TimesBelow(x: real, y: real, product: real)
    requires 0.0 < x < 1.0 && y > 0.0 && product == x * y
    ensures 0.0 < product < y
  {
    var rest := 1.0 - x;
    var gap := rest * y;
    assert gap > 0.0;
    assert gap + product == y by {
      assert (rest + x) * y == gap + product;
    }
  }

  lemma AverageStaysInside(a: real, b: real, avg: real, price: real)
    requires a >= 0.0 && b > 0.0 && 0.0 < price < 1.0
    requires a > 0.0 ==> 0.0 < avg < 1.0
    ensures 0.0 < Blend(avg, a, price, b) < 1.0
  {
    var held, added := avg * a, price * b;
    assert 0.0 < added < b by {
      TimesBelow(price, b, added);
    }
    assert 0.0 <= held <= a by {
      if a > 0.0 {
        TimesBelow(avg, a, held);
      }
    }
    DivideInside(held + added, a + b);
  }

  lemma FillKeepsAverage(net: real, avg: real, delta: real, price: real)
    requires delta != 0.0 && 0.0 < price < 1.0
    requires net != 0.0 ==> 0.0 < avg < 1.0
    ensures var (newNet, newAvg, _) := RealizedFromFill(net, avg, delta, price);
            newNet != 0.0 ==> 0.0 < newAvg < 1.0
  {
    if net == 0.0 || (net > 0.0) == (delta > 0.0) {
      AverageStaysInside(AbsR(net), AbsR(delta), avg, price);
    }
  }

  // ----- what every reachable state keeps -----

  ghost predicate PositionsSound(st: State) {
    && (forall t :: t in st.ledger.positions ==>
          var p := st.ledger.positions[t];
          p.ticker == t && p.net != 0.0 && 0.0 < p.avg < 1.0 && t !in st.settled && p.net == NetFrom(st.fills, t))
    && (forall t :: t !in st.ledger.positions && t !in st.settled ==> NetFrom(st.fills, t) == 0.0)
  }

  /** The realised cents of a state, from cash alone. */
  ghost function CashAccount(st: State, schedule: seq<Outcome>): real
    requires st.next <= |schedule|
  {
    100.0 * (CashFrom(st.fills) + PaidOut(schedule[..st.next], st.fills) + Basis(st.ledger.positions))
  }

  ghost predicate Reconciles(st: State, schedule: seq<Outcome>)
    requires st.next <= |schedule|
  {
    && st.ledger.realized == CashAccount(st, schedule)
    && st.ledger.realized == PnlOf(st.trades)
    && st.ledger.fees == FeesFrom(st.fills)
  }

  ghost predicate Accounted(st: State, schedule: seq<Outcome>) {
    && SettledUpTo(st.settled, schedule, st.next)
    && PositionsSound(st)
    && Reconciles(st, schedule)
  }

  lemma SettleOneSound(st: State, schedule: seq<Outcome>, now: int)
    requires st.next < |schedule| && SettledUpTo(st.settled, schedule, st.next) && PositionsSound(st) && Distinct(schedule)
    ensures var st' := SettleOne(st, schedule[st.next], now);
            SettledUpTo(st'.settled, schedule, st'.next) && PositionsSound(st')
    ensures NetFrom(st.fills, schedule[st.next].ticker) == PriorNet(st.ledger.positions, schedule[st.next].ticker)
  {
    var o := schedule[st.next];
    var st' := SettleOne(st, o, now);
    assert o.ticker !in st.settled;
    OneMoreSettled(st.settled, schedule, st.next);
    assert st'.settled == st.settled + {o.ticker};
  }

  lemma SettlementCashLaw(net: real, avg: real, payout: real)
    ensures RealizedFromSettlement(net, avg, payout) == 100.0 * (payout * net - net * avg)
  {
    AddTimes(payout, -avg, net);
  }

  lemma {:induction false} PaidOutExtends(schedule: seq<Outcome>, n: nat, fills: seq<(int, ExecutedFill)>, cash: real)
    requires n < |schedule| && cash == schedule[n].PayoutYes() * NetFrom(fills, schedule[n].ticker)
    ensures PaidOut(schedule[..n + 1], fills) == PaidOut(schedule[..n], fills) + cash
  {
    assert schedule[..n + 1][..n] == schedule[..n];
  }

  /** A step that moves `cash` dollars realises that cash plus the change in open basis, and records it. */
  ghost predicate Balances(st: State, st': State, cash: real) {
    && st'.ledger.realized - st.ledger.realized == 100.0 * (cash + Basis(st'.ledger.positions) - Basis(st.ledger.positions))
    && st'.ledger.realized - st.ledger.realized == PnlOf(st'.trades) - PnlOf(st.trades)
  }

  lemma SettleLot(p: Positions, t: string, net: real, avg: real, payout: real)
    requires net == PriorNet(p, t) && avg == PriorAvg(p, t)
    ensures RealizedFromSettlement(net, avg, payout) == 100.0 * (payout * net + Basis(Without(p, t)) - Basis(p))
  {
    BasisBefore(p, t, net, avg);
    SettlementCashLaw(net, avg, payout);
  }

  lemma SettleOneBalances(st: State, o: Outcome, now: int, net: real, payout: real, cash: real)
    requires net == PriorNet(st.ledger.positions, o.ticker) && payout == o.PayoutYes() && cash == payout * net
    ensures Balances(st, SettleOne(st, o, now), cash)
  {
    var p := st.ledger.positions;
    SettleLot(p, o.ticker, net, PriorAvg(p, o.ticker), payout);
    if o.ticker in p && p[o.ticker].net != 0.0 {
      TradesExtend(st.trades, SettleOne(st, o, now).trades[|st.trades|]);
    } else {
      assert RealizedFromSettlement(net, PriorAvg(p, o.ticker), payout) == 0.0;
    }
  }

  lemma SettleOneReconciles(st: State, schedule: seq<Outcome>, now: int)
    requires st.next < |schedule| && Reconciles(st, schedule)
    requires NetFrom(st.fills, schedule[st.next].ticker) == PriorNet(st.ledger.positions, schedule[st.next].ticker)
    ensures Reconciles(SettleOne(st, schedule[st.next], now), schedule)
  {
    var o := schedule[st.next];
    var net, payout := NetFrom(st.fills, o.ticker), o.PayoutYes();
    var cash :| cash == payout * net;
    PaidOutExtends(schedule, st.next, st.fills, cash);
    SettleOneBalances(st, o, now, net, payout, cash);
    MovedByCash(st, SettleOne(st, o, now), schedule, cash);
  }

  /** A settlement that realises its cash keeps the account reconciled. */
  lemma MovedByCash(st: State, st': State, schedule: seq<Outcome>, cash: real)
    requires st.next < |schedule| && Reconciles(st, schedule) && Balances(st, st', cash)
    requires st'.next == st.next + 1 && st'.fills == st.fills && st'.ledger.fees == st.ledger.fees
    requires PaidOut(schedule[..st.next + 1], st.fills) == PaidOut(schedule[..st.next], st.fills) + cash
    ensures Reconciles(st', schedule)
  {
  }

  lemma SettleOneAccounted(st: State, schedule: seq<Outcome>, now: int)
    requires Accounted(st, schedule) && Distinct(schedule) && st.next < |schedule|
    ensures Accounted(SettleOne(st, schedule[st.next], now), schedule)
  {
    SettleOneSound(st, schedule, now);
    SettleOneReconciles(st, schedule, now);
  }

  lemma {:induction false} SettleDueAccounted(st: State, schedule: seq<Outcome>, now: int)
    requires Accounted(st, schedule) && Distinct(schedule)
    ensures Accounted(SettleDue(st, schedule, now), schedule)
    decreases |schedule| - st.next
  {
    if st.next < |schedule| && schedule[st.next].settledAt <= now {
      SettleOneAccounted(st, schedule, now);
      SettleDueAccounted(SettleOne(st, schedule[st.next], now), schedule, now);
    }
  }

  ghost predicate Tradeable(f: ExecutedFill) {
    0.0 < f.price < 1.0 && f.contracts > 0.0
  }

  lemma ApplyFillPositions(st: State, f: ExecutedFill, now: int)
    requires PositionsSound(st) && Tradeable(f) && f.ticker !in st.settled
    ensures PositionsSound(ApplyFill(st, f, now))
  {
    var p := st.ledger.positions;
    var net, avg := PriorNet(p, f.ticker), PriorAvg(p, f.ticker);
    FillCashLaw(net, avg, Delta(f), FillYesPrice(f));
    FillKeepsAverage(net, avg, Delta(f), FillYesPrice(f));
    var st' := ApplyFill(st, f, now);
    forall t ensures NetFrom(st'.fills, t) == NetFrom(st.fills, t) + (if f.ticker == t then Delta(f) else 0.0) {
      FillsExtend(st.fills, now, f, t);
    }
  }

  lemma BasisAfter(p: Positions, t: string, net: real, avg: real, p': Positions)
    requires p' == if net == 0.0 then Without(p, t) else p[t := OpenPosition(t, net, avg)]
    ensures Basis(p') == net * avg + Basis(Without(p, t))
  {
    if net == 0.0 {
      assert net * avg == 0.0;
    } else {
      BasisPut(p, t, OpenPosition(t, net, avg));
    }
  }

  /** The same law for a whole book: `p'` is what is open once the market holds `net'` at `avg'`. */
  lemma BookCashLaw(
      p: Positions, t: string, net: real, avg: real, cash: real, net': real, avg': real, realized: real, p': Positions)
    requires net == PriorNet(p, t) && avg == PriorAvg(p, t)
    requires realized == 100.0 * (net' * avg' - net * avg - cash)
    requires p' == if net' == 0.0 then Without(p, t) else p[t := OpenPosition(t, net', avg')]
    ensures realized == 100.0 * (Basis(p') - Basis(p) - cash)
  {
    BasisBefore(p, t, net, avg);
    BasisAfter(p, t, net', avg', p');
  }

  lemma TradeParts(l: Ledger, t: string, delta: real, price: real, fee: real, cash: real, l': Ledger)
    returns (net': real, avg': real, realized: real)
    requires cash == delta * price && l' == Trade(l, t, delta, price, fee)
    ensures realized == 100.0 * (net' * avg' - PriorNet(l.positions, t) * PriorAvg(l.positions, t) - cash)
    ensures l'.positions == if net' == 0.0 then Without(l.positions, t) else l.positions[t := OpenPosition(t, net', avg')]
    ensures l'.realized == l.realized + realized
  {
    var net, avg := PriorNet(l.positions, t), PriorAvg(l.positions, t);
    var after := RealizedFromFill(net, avg, delta, price);
    FillCashLaw(net, avg, delta, price);
    net', avg', realized := after.0, after.1, after.2;
  }

  lemma LedgerCashLaw(l: Ledger, t: string, delta: real, price: real, fee: real, cash: real, l': Ledger)
    requires cash == delta * price && l' == Trade(l, t, delta, price, fee)
    ensures l'.realized - l.realized == 100.0 * (Basis(l'.positions) - Basis(l.positions) - cash)
  {
    var net', avg', realized := TradeParts(l, t, delta, price, fee, cash, l');
    BookCashLaw(l.positions, t, PriorNet(l.positions, t), PriorAvg(l.positions, t), cash, net', avg', realized, l'.positions);
  }

  lemma TradeCashLaw(l: Ledger, t: string, delta: real, price: real, fee: real)
    ensures var l' := Trade(l, t, delta, price, fee);
            l'.realized - l.realized == 100.0 * (Basis(l'.positions) - Basis(l.positions) - delta * price)
  {
    LedgerCashLaw(l, t, delta, price, fee, delta * price, Trade(l, t, delta, price, fee));
  }

  lemma FillReconciles(st: State, st': State, schedule: seq<Outcome>, f: ExecutedFill, now: int)
    requires st.next <= |schedule| && Reconciles(st, schedule)
    requires st'.fills == st.fills + [(now, f)] && st'.next == st.next
    requires forall o :: o in schedule[..st.next] ==> o.ticker != f.ticker
    requires Balances(st, st', -(Delta(f) * FillYesPrice(f)))
    requires st'.ledger.fees == st.ledger.fees + f.feeCents
    ensures Reconciles(st', schedule)
  {
    FillsExtend(st.fills, now, f, f.ticker);
    PaidOutUnmoved(schedule[..st.next], st.fills, now, f);
  }

  /** A fill's realisation is exactly the P&L of the trades it records. */
  lemma RecordedTradeCarriesPnl(st: State, f: ExecutedFill, now: int)
    ensures PnlOf(ApplyFill(st, f, now).trades) == PnlOf(st.trades) + ApplyToLedger(st.ledger, f).realized - st.ledger.realized
  {
    if ClosedBy(st.ledger, f) > 0.0 {
      TradesExtend(st.trades, TradesOf(st.ledger, f, now)[0]);
    } else {
      assert ApplyFill(st, f, now).trades == st.trades;
    }
  }

  lemma ApplyFillReconciles(st: State, schedule: seq<Outcome>, f: ExecutedFill, now: int)
    requires st.next <= |schedule| && Reconciles(st, schedule)
    requires forall o :: o in schedule[..st.next] ==> o.ticker != f.ticker
    ensures Reconciles(ApplyFill(st, f, now), schedule)
  {
    TradeCashLaw(st.ledger, f.ticker, Delta(f), FillYesPrice(f), f.feeCents);
    RecordedTradeCarriesPnl(st, f, now);
    FillReconciles(st, ApplyFill(st, f, now), schedule, f, now);
  }

  lemma NoSettledFill(st: State, schedule: seq<Outcome>, t: string)
    requires SettledUpTo(st.settled, schedule, st.next) && t !in st.settled
    ensures forall o :: o in schedule[..st.next] ==> o.ticker != t
  {
    forall o | o in schedule[..st.next] ensures o.ticker != t {
      var i :| 0 <= i < st.next && schedule[i] == o;
      assert schedule[i].ticker in st.settled;
    }
  }

  lemma ApplyFillAccounted(st: State, schedule: seq<Outcome>, f: ExecutedFill, now: int)
    requires Accounted(st, schedule) && Tradeable(f) && f.ticker !in st.settled
    ensures Accounted(ApplyFill(st, f, now), schedule)
  {
    ApplyFillPositions(st, f, now);
    NoSettledFill(st, schedule, f.ticker);
    ApplyFillReconciles(st, schedule, f, now);
  }

  lemma {:induction false} ApplyFillsAccounted(st: State, schedule: seq<Outcome>, fs: seq<ExecutedFill>, now: int)
    requires Accounted(st, schedule)
    requires forall f :: f in fs ==> Tradeable(f) && f.ticker !in st.settled
    ensures Accounted(ApplyFills(st, fs, now), schedule)
    decreases |fs|
  {
    if fs != [] {
      ApplyFillAccounted(st, schedule, fs[0], now);
      ApplyFillsAccounted(ApplyFill(st, fs[0], now), schedule, fs[1..], now);
    }
  }

  /** What an accepted batch of fills is known to satisfy. */
  lemma {:induction false} AcceptedFills(fs: seq<ExecutedFill>, i: Intent)
    requires CheckFills(fs, i).None?
    ensures forall f :: f in fs ==> CheckFill(f, i).None?
  {
    if fs != [] {
      AcceptedFills(fs[1..], i);
      assert fs == [fs[0]] + fs[1..];
    }
  }

  lemma {:induction false} FillIntentsAccounted(
      st: State, schedule: seq<Outcome>, wants: seq<Intent>, obs: Observation, filler: Filler)
    requires Accounted(st, schedule) && FillIntents(st, wants, obs, filler).Ok?
    ensures Accounted(FillIntents(st, wants, obs, filler).value, schedule)
    decreases |wants|
  {
    if wants != [] {
      var fs := filler(wants[0], obs);
      AcceptedFills(fs, wants[0]);
      var st' := st.(intents := st.intents + 1, filledIntents := st.filledIntents + 1);
      ApplyFillsAccounted(st', schedule, fs, obs.ts);
      FillIntentsAccounted(FillIntent(st, wants[0], obs, filler).value, schedule, wants[1..], obs, filler);
    }
  }

  lemma StepAccounted(st: State, obs: Observation, env: Env)
    requires Accounted(st, env.schedule) && Distinct(env.schedule) && Step(st, obs, env).Ok?
    ensures Accounted(Step(st, obs, env).value, env.schedule)
  {
    var at := st.(clock := Some(obs.ts));
    SettleDueAccounted(at, env.schedule, obs.ts);
    var due := SettleDue(at, env.schedule, obs.ts);
    var asked := due.(seen := due.seen + [View(due, obs)]);
    FillIntentsAccounted(asked, env.schedule, env.strategy(asked.seen), obs, env.filler);
  }

  /**
   Conservation of cash over every run. Whatever the strategy and the filler
   do, realised cents equal a hundred times fill cash plus settlement payouts
   plus open basis, and equal the sum over recorded trades; fees are the fees
   of the fills; no open position is flat, settled, or averaged outside (0, 1).
   */
  lemma {:induction false} CashConserved(obs: seq<Observation>, env: Env)
    requires Distinct(env.schedule) && Run(obs, env).Ok?
    ensures Accounted(Run(obs, env).value, env.schedule)
  {
    if obs != [] {
      var init := obs[..|obs| - 1];
      CashConserved(init, env);
      StepAccounted(Run(init, env).value, obs[|obs| - 1], env);
    }
  }

  /**
   Every equity point, at every instant, is the opening equity plus the cash
   that had moved by then plus the basis still open, less the fees charged.
   */
  lemma {:induction false} EquityPointIsCash(obs: seq<Observation>, env: Env, k: nat)
    requires Distinct(env.schedule) && Run(obs, env).Ok? && k < |obs|
    ensures Run(obs[..k + 1], env).Ok?
    ensures var st := Run(obs[..k + 1], env).value;
            && |Run(obs, env).value.curve| == |obs|
            && st.next <= |env.schedule|
            && Run(obs, env).value.curve[k] == (obs[k].ts, env.start + CashAccount(st, env.schedule) - FeesFrom(st.fills))
  {
    PointOfRun(obs, env, k);
    EquityOfRun(obs[..k + 1], env);
  }

  lemma {:induction false} EquityOfRun(obs: seq<Observation>, env: Env)
    requires Distinct(env.schedule) && Run(obs, env).Ok?
    ensures var st := Run(obs, env).value;
            && st.next <= |env.schedule|
            && Equity(env.start, st.ledger) == env.start + CashAccount(st, env.schedule) - FeesFrom(st.fills)
  {
    CashConserved(obs, env);
    AccountedEquity(Run(obs, env).value, env);
  }

  /** The k-th point is the equity of the run so far. */
  lemma {:induction false} PointOfRun(obs: seq<Observation>, env: Env, k: nat)
    requires Run(obs, env).Ok? && k < |obs|
    ensures |Run(obs, env).value.curve| == |obs| && Run(obs[..k + 1], env).Ok?
    ensures Run(obs, env).value.curve[k] == (obs[k].ts, Equity(env.start, Run(obs[..k + 1], env).value.ledger))
  {
    RunKeepsPast(obs, env, k + 1);
    OnePointPerObservation(obs, env);
    LastPoint(obs[..k + 1], env);
    PointOfPrefix(Run(obs[..k + 1], env).value, Run(obs, env).value, k);
  }

  lemma AccountedEquity(st: State, env: Env)
    requires Accounted(st, env.schedule)
    ensures st.next <= |env.schedule|
    ensures Equity(env.start, st.ledger) == env.start + CashAccount(st, env.schedule) - FeesFrom(st.fills)
  {
  }

  lemma PointOfPrefix(a: State, b: State, k: nat)
    requires Earlier(a, b) && |a.curve| == k + 1
    ensures |b.curve| > k && b.curve[k] == a.curve[|a.curve| - 1]
  {
  }

  lemma {:induction false} LastPoint(obs: seq<Observation>, env: Env)
    requires obs != [] && Run(obs, env).Ok?
    ensures var st := Run(obs, env).value;
            |st.curve| > 0 && st.curve[|st.curve| - 1] == (obs[|obs| - 1].ts, Equity(env.start, st.ledger))
  {
  }

  /** A run that ends flat has earned exactly its net cash: no average price survives in the answer. */
  lemma {:induction false} FlatRunEarnsItsCash(obs: seq<Observation>, env: Env)
    requires Distinct(env.schedule) && Run(obs, env).Ok? && Run(obs, env).value.ledger.positions == map[]
    ensures var st := Run(obs, env).value;
            st.next <= |env.schedule|
            && Equity(env.start, st.ledger)
               == env.start + 100.0 * (CashFrom(st.fills) + PaidOut(env.schedule[..st.next], st.fills)) - FeesFrom(st.fills)
  {
    CashConserved(obs, env);
  }
}
