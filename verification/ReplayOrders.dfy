/**
 What a replay lets through: exactly which intents and fills it accepts, what it
 records of them, and what a strategy is shown before it is asked.
 */
module ReplayOrders {
  import opened Prelude
  import opened Sums
  import opened Replay
  import opened ReplayLookAhead
  import opened ReplayCash
  import opened ReplayTrader

  // ----- what may be filled -----

  /** An intent for the market in view, not settled yet, for a positive size at a limit that is a price. */
  predicate HonestIntent(w: Intent, obs: Observation, settled: set<string>) {
    && w.ticker == obs.ticker && w.ticker !in settled
    && 0.0 <= w.limitPrice <= 1.0 && w.contracts > 0.0
  }

  /** A fill of what was asked, at a price that trades and is no worse than the limit. */
  predicate HonestFill(f: ExecutedFill, w: Intent) {
    && f.ticker == w.ticker && f.side == w.side && f.action == w.action
    && 0.0 < f.price < 1.0 && f.contracts > 0.0 && f.feeCents >= 0.0
    && match w.action
       case Buy => f.price <= w.limitPrice
       case Sell => w.limitPrice <= f.price
  }

  function Quantities(fs: seq<ExecutedFill>): (r: seq<real>)
    ensures |r| == |fs| && forall i :: 0 <= i < |fs| ==> r[i] == fs[i].contracts
  {
    seq(|fs|, i requires 0 <= i < |fs| => fs[i].contracts)
  }

  /** An honest intent, filled honestly and for no more than it asked. */
  ghost predicate Honest(w: Intent, obs: Observation, settled: set<string>, filler: Filler) {
    && HonestIntent(w, obs, settled)
    && (forall i :: 0 <= i < |filler(w, obs)| ==> HonestFill(filler(w, obs)[i], w))
    && Sum(Quantities(filler(w, obs))) <= w.contracts
  }

  ghost predicate AllHonest(wants: seq<Intent>, obs: Observation, settled: set<string>, filler: Filler) {
    forall i :: 0 <= i < |wants| ==> Honest(wants[i], obs, settled, filler)
  }

  /** What a refusal says is true of the intent or of its fills. */
  ghost predicate Blames(why: Refusal, w: Intent, obs: Observation, settled: set<string>, filler: Filler) {
    match why
    case WrongMarket => w.ticker != obs.ticker
    case LookAhead => w.ticker in settled
    case LimitOutOfRange => w.limitPrice < 0.0 || w.limitPrice > 1.0
    case IntentNotPositive => w.contracts <= 0.0
    case FillWrongTicker => exists f :: f in filler(w, obs) && f.ticker != w.ticker
    case FillInverted => exists f :: f in filler(w, obs) && (f.side != w.side || f.action != w.action)
    case FillPriceUntradeable => exists f :: f in filler(w, obs) && (f.price <= 0.0 || f.price >= 1.0)
    case FillNotPositive => exists f :: f in filler(w, obs) && f.contracts <= 0.0
    case FillFeeNegative => exists f :: f in filler(w, obs) && f.feeCents < 0.0
    case FillThroughLimit =>
      exists f :: f in filler(w, obs) && if w.action == Buy then f.price > w.limitPrice else f.price < w.limitPrice
    case Overfilled => Sum(Quantities(filler(w, obs))) > w.contracts
    case _ => false
  }

  lemma {:induction false} QuantitiesTotal(fs: seq<ExecutedFill>)
    ensures TotalContracts(fs) == Sum(Quantities(fs))
  {
    if fs != [] {
      var init := fs[..|fs| - 1];
      QuantitiesTotal(init);
      SumAppend(Quantities(init), fs[|fs| - 1].contracts);
      assert Quantities(fs) == Quantities(init) + [fs[|fs| - 1].contracts];
    }
  }

  lemma {:induction false} FillsChecked(fs: seq<ExecutedFill>, w: Intent)
    ensures CheckFills(fs, w).None? <==> forall i :: 0 <= i < |fs| ==> HonestFill(fs[i], w)
    ensures CheckFills(fs, w).Some? ==> exists f :: f in fs && CheckFill(f, w) == CheckFills(fs, w)
  {
    if fs != [] {
      FillsChecked(fs[1..], w);
      assert forall i :: 0 < i < |fs| ==> fs[i] == fs[1..][i - 1];
      assert fs[0] in fs;
    }
  }

  /** The fills of `fs` as recorded at `now`. */
  function Stamped(fs: seq<ExecutedFill>, now: int): (r: Fills)
    ensures |r| == |fs| && forall i :: 0 <= i < |fs| ==> r[i] == (now, fs[i])
  {
    seq(|fs|, i requires 0 <= i < |fs| => (now, fs[i]))
  }

  lemma StampedFirst(fs: seq<ExecutedFill>, now: int, before: Fills)
    requires fs != []
    ensures before + [(now, fs[0])] + Stamped(fs[1..], now) == before + Stamped(fs, now)
  {
    assert Stamped(fs, now) == [(now, fs[0])] + Stamped(fs[1..], now);
  }

  /** What applying fills leaves alone. */
  ghost predicate SameOrders(a: State, b: State) {
    b.settled == a.settled && b.intents == a.intents && b.filledIntents == a.filledIntents && b.seen == a.seen
  }

  lemma {:induction false} AppliedAreRecorded(st: State, fs: seq<ExecutedFill>, now: int)
    ensures ApplyFills(st, fs, now).fills == st.fills + Stamped(fs, now)
    ensures SameOrders(st, ApplyFills(st, fs, now))
    decreases |fs|
  {
    if fs == [] {
      assert st.fills + Stamped(fs, now) == st.fills;
    } else {
      AppliedAreRecorded(ApplyFill(st, fs[0], now), fs[1..], now);
      StampedFirst(fs, now, st.fills);
    }
  }

  lemma IntentChecked(w: Intent, obs: Observation, settled: set<string>, filler: Filler)
    ensures CheckIntent(w, obs, settled).None? <==> HonestIntent(w, obs, settled)
    ensures CheckIntent(w, obs, settled).Some? ==> Blames(CheckIntent(w, obs, settled).value, w, obs, settled, filler)
  {
  }

  lemma FillBlamed(f: ExecutedFill, w: Intent, obs: Observation, settled: set<string>, filler: Filler)
    requires f in filler(w, obs) && CheckFill(f, w).Some?
    ensures Blames(CheckFill(f, w).value, w, obs, settled, filler)
  {
  }

  /** One intent is filled exactly when it is honest; a refusal says what was not. */
  lemma FillRefused(st: State, w: Intent, obs: Observation, filler: Filler)
    ensures var r := FillIntent(st, w, obs, filler);
            && (r.Ok? <==> Honest(w, obs, st.settled, filler))
            && (r.Err? ==> Blames(r.error, w, obs, st.settled, filler))
  {
    var fs := filler(w, obs);
    IntentChecked(w, obs, st.settled, filler);
    FillsChecked(fs, w);
    QuantitiesTotal(fs);
    if CheckIntent(w, obs, st.settled).None? && CheckFills(fs, w).Some? {
      var f :| f in fs && CheckFill(f, w) == CheckFills(fs, w);
      FillBlamed(f, w, obs, st.settled, filler);
    }
  }

  lemma FillRecorded(st: State, w: Intent, obs: Observation, filler: Filler)
    requires FillIntent(st, w, obs, filler).Ok?
    ensures var r := FillIntent(st, w, obs, filler).value;
            && r.fills == st.fills + Stamped(filler(w, obs), obs.ts)
            && r.settled == st.settled && r.seen == st.seen && r.intents == st.intents + 1
            && r.filledIntents == st.filledIntents + if filler(w, obs) == [] then 0 else 1
  {
    var fs := filler(w, obs);
    if fs == [] {
      assert st.fills + Stamped(fs, obs.ts) == st.fills;
    } else {
      AppliedAreRecorded(st.(intents := st.intents + 1, filledIntents := st.filledIntents + 1), fs, obs.ts);
    }
  }

  /** Every fill of every intent, in order. */
  function Batches(wants: seq<Intent>, obs: Observation, filler: Filler): Fills {
    if wants == [] then [] else Stamped(filler(wants[0], obs), obs.ts) + Batches(wants[1..], obs, filler)
  }

  /** How many of them were filled at all. */
  function Filled(wants: seq<Intent>, obs: Observation, filler: Filler): nat {
    if wants == [] then 0 else (if filler(wants[0], obs) == [] then 0 else 1) + Filled(wants[1..], obs, filler)
  }

  /** `r` is `st` after all of `wants` were filled. */
  ghost predicate AllFilled(st: State, r: State, wants: seq<Intent>, obs: Observation, filler: Filler) {
    && r.fills == st.fills + Batches(wants, obs, filler)
    && r.settled == st.settled && r.seen == st.seen
    && r.intents == st.intents + |wants| && r.filledIntents == st.filledIntents + Filled(wants, obs, filler)
  }

  lemma AllFilledFirst(st: State, mid: State, r: State, wants: seq<Intent>, obs: Observation, filler: Filler)
    requires wants != [] && FillIntent(st, wants[0], obs, filler) == Ok(mid) && AllFilled(mid, r, wants[1..], obs, filler)
    ensures AllFilled(st, r, wants, obs, filler)
  {
    FillRecorded(st, wants[0], obs, filler);
    var first, rest := Stamped(filler(wants[0], obs), obs.ts), Batches(wants[1..], obs, filler);
    assert st.fills + (first + rest) == st.fills + first + rest;
  }

  lemma {:induction false} IntentsRecorded(st: State, wants: seq<Intent>, obs: Observation, filler: Filler)
    requires FillIntents(st, wants, obs, filler).Ok?
    ensures AllFilled(st, FillIntents(st, wants, obs, filler).value, wants, obs, filler)
    decreases |wants|
  {
    if wants == [] {
      assert st.fills + [] == st.fills;
    } else {
      var mid := FillIntent(st, wants[0], obs, filler).value;
      IntentsRecorded(mid, wants[1..], obs, filler);
      AllFilledFirst(st, mid, FillIntents(mid, wants[1..], obs, filler).value, wants, obs, filler);
    }
  }

  lemma {:induction false} IntentsRefused(st: State, wants: seq<Intent>, obs: Observation, filler: Filler)
    ensures var r := FillIntents(st, wants, obs, filler);
            && (r.Ok? <==> AllHonest(wants, obs, st.settled, filler))
            && (r.Err? ==> exists i :: 0 <= i < |wants| && Blames(r.error, wants[i], obs, st.settled, filler))
    decreases |wants|
  {
    if wants != [] {
      FillRefused(st, wants[0], obs, filler);
      assert forall i :: 0 < i < |wants| ==> wants[i] == wants[1..][i - 1];
      var first := FillIntent(st, wants[0], obs, filler);
      if first.Ok? {
        FillRecorded(st, wants[0], obs, filler);
        IntentsRefused(first.value, wants[1..], obs, filler);
      }
    }
  }

  // ----- a whole run -----

  /** What the strategy wants at the last observation of a run that finished. */
  function Wants(st: State, env: Env): seq<Intent> {
    env.strategy(st.seen)
  }

  /** Every fill of a run, read off the strategy and the filler. */
  ghost function FillsOfRun(obs: seq<Observation>, env: Env): Fills {
    if obs == [] || Run(obs, env).Err? then []
    else FillsOfRun(obs[..|obs| - 1], env) + Batches(Wants(Run(obs, env).value, env), obs[|obs| - 1], env.filler)
  }

  ghost function IntentsOfRun(obs: seq<Observation>, env: Env): nat {
    if obs == [] || Run(obs, env).Err? then 0
    else IntentsOfRun(obs[..|obs| - 1], env) + |Wants(Run(obs, env).value, env)|
  }

  ghost function FilledOfRun(obs: seq<Observation>, env: Env): nat {
    if obs == [] || Run(obs, env).Err? then 0
    else FilledOfRun(obs[..|obs| - 1], env) + Filled(Wants(Run(obs, env).value, env), obs[|obs| - 1], env.filler)
  }

  lemma {:induction false} StepRecords(st: State, obs: Observation, env: Env)
    requires Step(st, obs, env).Ok?
    ensures var r := Step(st, obs, env).value;
            && AllHonest(Wants(r, env), obs, r.settled, env.filler)
            && r.fills == st.fills + Batches(Wants(r, env), obs, env.filler)
            && r.intents == st.intents + |Wants(r, env)| && r.filledIntents == st.filledIntents + Filled(Wants(r, env), obs, env.filler)
  {
    var at := st.(clock := Some(obs.ts));
    SettlingRecordsNothing(at, env.schedule, obs.ts);
    var due := SettleDue(at, env.schedule, obs.ts);
    var asked := due.(seen := due.seen + [View(due, obs)]);
    IntentsRefused(asked, env.strategy(asked.seen), obs, env.filler);
    IntentsRecorded(asked, env.strategy(asked.seen), obs, env.filler);
  }

  lemma {:induction false} SettlingRecordsNothing(st: State, schedule: seq<Outcome>, now: int)
    ensures var r := SettleDue(st, schedule, now);
            r.fills == st.fills && r.intents == st.intents && r.filledIntents == st.filledIntents && r.seen == st.seen
    decreases |schedule| - st.next
  {
    if st.next < |schedule| && schedule[st.next].settledAt <= now {
      SettlingRecordsNothing(SettleOne(st, schedule[st.next], now), schedule, now);
    }
  }

  /**
   A run records exactly the fills the filler gave for the intents of the
   strategy, in order and stamped with their instants, and counts them; every one
   of those intents was honest, of a market not settled by then, and honestly filled.
   */
  lemma {:induction false} RunRecordsItsOrders(obs: seq<Observation>, env: Env)
    requires Run(obs, env).Ok?
    ensures var st := Run(obs, env).value;
            && st.fills == FillsOfRun(obs, env)
            && st.intents == IntentsOfRun(obs, env) && st.filledIntents == FilledOfRun(obs, env)
            && (obs != [] ==> AllHonest(Wants(st, env), obs[|obs| - 1], st.settled, env.filler))
  {
    if obs != [] {
      var init := obs[..|obs| - 1];
      RunRecordsItsOrders(init, env);
      StepRecords(Run(init, env).value, obs[|obs| - 1], env);
    }
  }

  /** The state in which the strategy is asked. */
  function Asked(st: State, obs: Observation, env: Env): State {
    var due := SettleDue(st.(clock := Some(obs.ts)), env.schedule, obs.ts);
    due.(seen := due.seen + [View(due, obs)])
  }

  /** An observation is refused exactly for a missing ticker, an earlier time, or a dishonest intent; the refusal says which. */
  lemma StepRefusedExactly(st: State, obs: Observation, env: Env)
    ensures var r := Step(st, obs, env);
            var asked := Asked(st, obs, env);
            var wants := env.strategy(asked.seen);
            && (r.Ok? <==>
                  obs.ticker != "" && (st.clock.Some? ==> st.clock.value <= obs.ts) && AllHonest(wants, obs, asked.settled, env.filler))
            && (r == Err(MissingTicker) <==> obs.ticker == "")
            && (r == Err(UnsortedObservations) <==> obs.ticker != "" && st.clock.Some? && obs.ts < st.clock.value)
            && (r.Err? && r.error != MissingTicker && r.error != UnsortedObservations ==>
                  exists i :: 0 <= i < |wants| && Blames(r.error, wants[i], obs, asked.settled, env.filler))
  {
    var asked := Asked(st, obs, env);
    IntentsRefused(asked, env.strategy(asked.seen), obs, env.filler);
  }

  // ----- what a fill does to a position, and what is recorded of it -----

  /**
   The rule of a signed fill: nothing is realised until a lot is closed, a lot
   that shrinks keeps its average, one that flips starts again at the price of the
   fill, and in every case cash balances.
   */
  ghost predicate FollowsRule(net: real, avg: real, delta: real, price: real, after: (real, real, real)) {
    var against := (net > 0.0 && delta < 0.0) || (net < 0.0 && delta > 0.0);
    && CashLaw(net, avg, delta, price, after)
    && (!against ==> after.2 == 0.0)
    && (delta == 0.0 || (against && AbsR(delta) < AbsR(net)) ==> after.1 == avg)
    && (against && AbsR(delta) > AbsR(net) ==> after.1 == price)
  }

  /** The code follows it, and nothing else does: it settles the new net, what is realised, and the average of what is left. */
  lemma FillRuleExactly(net: real, avg: real, delta: real, price: real, after: (real, real, real))
    ensures FollowsRule(net, avg, delta, price, RealizedFromFill(net, avg, delta, price))
    ensures FollowsRule(net, avg, delta, price, after) ==>
              var r := RealizedFromFill(net, avg, delta, price);
              after.0 == r.0 && after.2 == r.2 && (after.0 != 0.0 ==> after.1 == r.1)
  {
    var r := RealizedFromFill(net, avg, delta, price);
    FillCashLaw(net, avg, delta, price);
    if FollowsRule(net, avg, delta, price, after) {
      RuleDetermines(net, avg, delta, price, r, after);
    }
  }

  lemma RuleDetermines(net: real, avg: real, delta: real, price: real, a: (real, real, real), b: (real, real, real))
    requires FollowsRule(net, avg, delta, price, a) && FollowsRule(net, avg, delta, price, b)
    ensures b.0 == a.0 && b.2 == a.2 && (b.0 != 0.0 ==> b.1 == a.1)
  {
    if b.0 != 0.0 && delta != 0.0 && !((net > 0.0 && delta < 0.0) || (net < 0.0 && delta > 0.0)) {
      var worth :| worth == net * avg + delta * price;
      Weighs(a.0, a.1, worth, net * avg, delta * price);
      Weighs(b.0, b.1, worth, net * avg, delta * price);
      SameProduct(a.0, b.0, a.1, b.1, worth);
    }
  }

  lemma Weighs(n: real, x: real, worth: real, held: real, added: real)
    requires 0.0 == 100.0 * (n * x - held - added) && worth == held + added
    ensures n * x == worth
  {
  }

  lemma SameProduct(n: real, m: real, x: real, y: real, worth: real)
    requires n == m != 0.0 && n * x == worth && m * y == worth
    ensures x == y
  {
    assert n * (x - y) == n * x - n * y;
  }

  /** The price of a fill, as the YES side sees it. */
  function SeenFromYes(f: ExecutedFill): real {
    match f.side
    case Yes => f.price
    case No => 1.0 - f.price
  }

  /** The fill closes some of the position: it sells YES or buys NO against a long, or the other way round. */
  predicate Against(net: real, f: ExecutedFill) {
    if (f.side == Yes && f.action == Buy) || (f.side == No && f.action == Sell) then net < 0.0 else net > 0.0
  }

  /** Cents made on `contracts` carried from one YES price to another, long or short. */
  function RoundTrip(net: real, contracts: real, entry: real, exit: real): real {
    if net > 0.0 then (exit - entry) * contracts * 100.0 else (entry - exit) * contracts * 100.0
  }

  lemma Turned(entry: real, exit: real, contracts: real)
    ensures (exit - entry) * -contracts * 100.0 == (entry - exit) * contracts * 100.0
  {
  }

  lemma ClosingRealises(net: real, avg: real, delta: real, price: real, closed: real)
    requires net != 0.0 && delta != 0.0 && (net > 0.0) != (delta > 0.0) && closed == MinR(AbsR(delta), AbsR(net))
    ensures RealizedFromFill(net, avg, delta, price).2 == RoundTrip(net, closed, avg, price)
  {
    Turned(avg, price, closed);
  }

  lemma RealizedByTrade(l: Ledger, t: string, delta: real, price: real, fee: real)
    ensures Trade(l, t, delta, price, fee).realized - l.realized
         == RealizedFromFill(PriorNet(l.positions, t), PriorAvg(l.positions, t), delta, price).2
  {
  }

  /** A fill records a trade exactly when it closes something: as much as it closes, from the average to its own price. */
  lemma TradeOfFill(l: Ledger, f: ExecutedFill, now: int, net: real, avg: real, closed: real)
    requires f.contracts > 0.0 && net == PriorNet(l.positions, f.ticker) && avg == PriorAvg(l.positions, f.ticker)
    requires closed == MinR(f.contracts, AbsR(net))
    ensures TradesOf(l, f, now) ==
            if Against(net, f)
            then [ClosedTrade(f.ticker, now, closed, avg, SeenFromYes(f), RoundTrip(net, closed, avg, SeenFromYes(f)), ByFill)]
            else []
  {
    assert FillYesPrice(f) == SeenFromYes(f) && AbsR(Delta(f)) == f.contracts;
    RealizedByTrade(l, f.ticker, Delta(f), FillYesPrice(f), f.feeCents);
    if Against(net, f) {
      ClosingRealises(net, avg, Delta(f), FillYesPrice(f), closed);
    }
  }

  lemma HoldingRealises(net: real, avg: real, worth: real)
    requires net != 0.0
    ensures RealizedFromSettlement(net, avg, worth) == RoundTrip(net, AbsR(net), avg, worth)
  {
    Turned(avg, worth, AbsR(net));
  }

  /** A settlement records one exactly when something is held: all of it, from the average to a dollar or to nothing. */
  lemma TradeOfSettlement(st: State, o: Outcome, now: int, net: real, avg: real, worth: real)
    requires net == PriorNet(st.ledger.positions, o.ticker) && avg == PriorAvg(st.ledger.positions, o.ticker)
    requires worth == if o.settledYes then 1.0 else 0.0
    ensures net == 0.0 ==> SettleOne(st, o, now).trades == st.trades && SettleOne(st, o, now).settlements == st.settlements
    ensures net != 0.0 ==>
      && SettleOne(st, o, now).settlements == st.settlements + 1
      && SettleOne(st, o, now).trades
         == st.trades + [ClosedTrade(o.ticker, now, AbsR(net), avg, worth, RoundTrip(net, AbsR(net), avg, worth), BySettlement)]
  {
    assert o.PayoutYes() == worth;
    if net != 0.0 {
      HoldingRealises(net, avg, worth);
    }
  }

  function SettlementTrades(trades: seq<ClosedTrade>): nat {
    if trades == [] then 0
    else SettlementTrades(trades[..|trades| - 1]) + if trades[|trades| - 1].kind == BySettlement then 1 else 0
  }

  lemma {:induction false} SettlementTradesExtend(trades: seq<ClosedTrade>, t: ClosedTrade)
    ensures SettlementTrades(trades + [t]) == SettlementTrades(trades) + if t.kind == BySettlement then 1 else 0
  {
    assert (trades + [t])[..|trades|] == trades;
  }

  ghost predicate CountsSettlements(st: State) {
    st.settlements == SettlementTrades(st.trades)
  }

  lemma {:induction false} SettleDueCounts(st: State, schedule: seq<Outcome>, now: int)
    requires CountsSettlements(st)
    ensures CountsSettlements(SettleDue(st, schedule, now))
    decreases |schedule| - st.next
  {
    if st.next < |schedule| && schedule[st.next].settledAt <= now {
      var o := schedule[st.next];
      var st' := SettleOne(st, o, now);
      if st'.trades != st.trades {
        SettlementTradesExtend(st.trades, st'.trades[|st.trades|]);
      }
      SettleDueCounts(st', schedule, now);
    }
  }

  lemma {:induction false} ApplyFillsCounts(st: State, fs: seq<ExecutedFill>, now: int)
    requires CountsSettlements(st)
    ensures CountsSettlements(ApplyFills(st, fs, now))
    decreases |fs|
  {
    if fs != [] {
      var st' := ApplyFill(st, fs[0], now);
      if TradesOf(st.ledger, fs[0], now) != [] {
        SettlementTradesExtend(st.trades, TradesOf(st.ledger, fs[0], now)[0]);
      } else {
        assert st'.trades == st.trades;
      }
      ApplyFillsCounts(st', fs[1..], now);
    }
  }

  lemma {:induction false} FillIntentsCounts(st: State, wants: seq<Intent>, obs: Observation, filler: Filler)
    requires CountsSettlements(st) && FillIntents(st, wants, obs, filler).Ok?
    ensures CountsSettlements(FillIntents(st, wants, obs, filler).value)
    decreases |wants|
  {
    if wants != [] {
      ApplyFillsCounts(st.(intents := st.intents + 1, filledIntents := st.filledIntents + 1), filler(wants[0], obs), obs.ts);
      FillIntentsCounts(FillIntent(st, wants[0], obs, filler).value, wants[1..], obs, filler);
    }
  }

  /** The count of settlements is the count of the trades they recorded. */
  lemma {:induction false} RunCountsSettlements(obs: seq<Observation>, env: Env)
    requires Run(obs, env).Ok?
    ensures CountsSettlements(Run(obs, env).value)
  {
    if obs != [] {
      var init, last := obs[..|obs| - 1], obs[|obs| - 1];
      RunCountsSettlements(init, env);
      var st := Run(init, env).value;
      SettleDueCounts(st.(clock := Some(last.ts)), env.schedule, last.ts);
      var asked := Asked(st, last, env);
      FillIntentsCounts(asked, env.strategy(asked.seen), last, env.filler);
    }
  }

  // ----- what a strategy is shown -----

  /** A strategy is shown its own holdings: every open market at the net of its own fills so far, and nothing that has settled. */
  lemma {:induction false} ViewShowsHoldings(obs: seq<Observation>, env: Env, next: Observation, t: string)
    requires Distinct(env.schedule) && Run(obs, env).Ok?
    ensures var st := Run(obs, env).value;
            var asked := Asked(st, next, env);
            var shown := asked.seen[|asked.seen| - 1].positions;
            && |asked.seen| == |st.seen| + 1
            && (t in shown ==> t !in asked.settled && 0.0 < shown[t].avg < 1.0
                               && shown[t].net == Held(st.fills, t, Yes) - Held(st.fills, t, No) != 0.0)
            && (t !in shown && t !in asked.settled ==> Held(st.fills, t, Yes) == Held(st.fills, t, No))
  {
    var st := Run(obs, env).value;
    CashConserved(obs, env);
    var at := st.(clock := Some(next.ts));
    SettleDueAccounted(at, env.schedule, next.ts);
    SettlingRecordsNothing(at, env.schedule, next.ts);
    NetIsHeld(st.fills, t);
  }
}
