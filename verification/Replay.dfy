/**
 The backtest replay machine of `backend/app/backtest/replay.py`, as a step
 function on values. `ReplayLoop.dfy` proves the source's loop over a mutable
 book against it; the other Replay files prove what the machine guarantees.
 */
module Replay {
  import opened Prelude

  datatype Side = Yes | No

  datatype Action = Buy | Sell

  /** Both sides quoted as bids; only the injected filler looks inside. */
  datatype RawBook = RawBook(yes: seq<(real, real)>, no: seq<(real, real)>)

  datatype Observation = Observation(ts: int, ticker: string, book: Option<RawBook>, lastPrice: Option<real>)

  datatype Intent = Intent(ticker: string, side: Side, action: Action, limitPrice: real, contracts: real)

  datatype ExecutedFill = ExecutedFill(
    ticker: string, side: Side, action: Action, price: real, contracts: real, feeCents: real)

  datatype Outcome = Outcome(ticker: string, settledYes: bool, settledAt: int) {
    function PayoutYes(): real {
      if settledYes then 1.0 else 0.0
    }
  }

  /** YES-equivalent and signed; `avg` is the average YES price of what is open. */
  datatype OpenPosition = OpenPosition(ticker: string, net: real, avg: real)

  type Positions = map<string, OpenPosition>

  /** Everything a strategy may know. No field leads to an `Outcome`. */
  datatype StrategyState = StrategyState(now: int, observation: Observation, positions: Positions)

  datatype TradeKind = ByFill | BySettlement

  datatype ClosedTrade = ClosedTrade(
    ticker: string, ts: int, contracts: real, entryYes: real, exitYes: real, pnl: real, kind: TradeKind)

  datatype Refusal =
    | UnsortedObservations
    | MissingTicker
    | WrongMarket
    | LookAhead
    | LimitOutOfRange
    | IntentNotPositive
    | FillWrongTicker
    | FillInverted
    | FillPriceUntradeable
    | FillNotPositive
    | FillFeeNegative
    | FillThroughLimit
    | Overfilled
    | OutcomeKeyMismatch

  /** A strategy keeps whatever history it likes of the states it was handed. */
  type Strategy = seq<StrategyState> -> seq<Intent>

  type Filler = (Intent, Observation) -> seq<ExecutedFill>

  /** What a run is configured with; `schedule` is the sorted outcome list. */
  datatype Env = Env(schedule: seq<Outcome>, strategy: Strategy, filler: Filler, start: real)

  /** The value of the source's mutable `_Book`. */
  datatype Ledger = Ledger(positions: Positions, realized: real, fees: real)

  datatype State = State(
    ledger: Ledger,
    trades: seq<ClosedTrade>,
    fills: seq<(int, ExecutedFill)>,
    curve: seq<(int, real)>,
    settled: set<string>,
    next: nat,
    clock: Option<int>,
    seen: seq<StrategyState>,
    intents: nat,
    filledIntents: nat,
    settlements: nat)

  const INITIAL_STATE: State :=
    State(Ledger(map[], 0.0, 0.0), [], [], [], {}, 0, None, [], 0, 0, 0)

  // ----- mirrored formulas -----

  function SignedContracts(side: Side, action: Action, contracts: real): real {
    var magnitude := if action == Buy then contracts else -contracts;
    if side == Yes then magnitude else -magnitude
  }

  function ToYesPrice(side: Side, price: real): real {
    if side == Yes then price else 1.0 - price
  }

  function Delta(f: ExecutedFill): real {
    SignedContracts(f.side, f.action, f.contracts)
  }

  function FillYesPrice(f: ExecutedFill): real {
    ToYesPrice(f.side, f.price)
  }

  /** Volume-weighted average of two lots. */
  function Blend(avg: real, held: real, price: real, added: real): real
    requires held + added != 0.0
  {
    (avg * held + price * added) / (held + added)
  }

  /** New net, new average, and the cents realised by one signed fill. */
  function RealizedFromFill(net: real, avg: real, delta: real, price: real): (real, real, real) {
    if delta == 0.0 then (net, avg, 0.0)
    else if net == 0.0 || (net > 0.0) == (delta > 0.0) then
      (net + delta, Blend(avg, AbsR(net), price, AbsR(delta)), 0.0)
    else
      var closed := MinR(AbsR(delta), AbsR(net));
      var directed := if net > 0.0 then closed else -closed;
      var realized := (price - avg) * directed * 100.0;
      var newNet := net + delta;
      if newNet == 0.0 then (newNet, 0.0, realized)
      else if (newNet > 0.0) == (net > 0.0) then (newNet, avg, realized)
      else (newNet, price, realized)
  }

  function RealizedFromSettlement(net: real, avg: real, payoutYes: real): real {
    (payoutYes - avg) * net * 100.0
  }

  // ----- folding one fill into the book -----

  function PriorNet(p: Positions, ticker: string): real {
    if ticker in p then p[ticker].net else 0.0
  }

  function PriorAvg(p: Positions, ticker: string): real {
    if ticker in p then p[ticker].avg else 0.0
  }

  function Without(p: Positions, ticker: string): Positions {
    p - {ticker}
  }

  /** Fold a signed YES-equivalent trade into the book. A flat market is absent, never a zero. */
  function Trade(l: Ledger, ticker: string, delta: real, price: real, feeCents: real): Ledger {
    var (newNet, newAvg, realized) :=
      RealizedFromFill(PriorNet(l.positions, ticker), PriorAvg(l.positions, ticker), delta, price);
    Ledger(
      if newNet == 0.0 then Without(l.positions, ticker)
      else l.positions[ticker := OpenPosition(ticker, newNet, newAvg)],
      l.realized + realized,
      l.fees + feeCents)
  }

  function ApplyToLedger(l: Ledger, f: ExecutedFill): Ledger {
    Trade(l, f.ticker, Delta(f), FillYesPrice(f), f.feeCents)
  }

  /** How much of the old lot a fill closes. */
  function ClosedBy(l: Ledger, f: ExecutedFill): real {
    var net := PriorNet(l.positions, f.ticker);
    var delta := Delta(f);
    if net != 0.0 && delta != 0.0 && (net > 0.0) != (delta > 0.0) then MinR(AbsR(delta), AbsR(net)) else 0.0
  }

  /** The closed trade a fill records, if it closed anything. */
  function TradesOf(l: Ledger, f: ExecutedFill, now: int): seq<ClosedTrade> {
    var closed := ClosedBy(l, f);
    if closed > 0.0 then
      [ClosedTrade(f.ticker, now, closed, PriorAvg(l.positions, f.ticker), FillYesPrice(f),
                   ApplyToLedger(l, f).realized - l.realized, ByFill)]
    else []
  }

  function ApplyFill(st: State, f: ExecutedFill, now: int): State {
    st.(ledger := ApplyToLedger(st.ledger, f),
        trades := st.trades + TradesOf(st.ledger, f, now),
        fills := st.fills + [(now, f)])
  }

  function ApplyFills(st: State, fs: seq<ExecutedFill>, now: int): State
    decreases |fs|
  {
    if fs == [] then st else ApplyFills(ApplyFill(st, fs[0], now), fs[1..], now)
  }

  // ----- settlement -----

  function SettleOne(st: State, o: Outcome, now: int): State {
    var p := st.ledger.positions;
    var st' := st.(next := st.next + 1,
                   settled := st.settled + {o.ticker},
                   ledger := st.ledger.(positions := Without(p, o.ticker)));
    if o.ticker !in p || p[o.ticker].net == 0.0 then st'
    else
      var pos := p[o.ticker];
      var realized := RealizedFromSettlement(pos.net, pos.avg, o.PayoutYes());
      st'.(ledger := st'.ledger.(realized := st.ledger.realized + realized),
           settlements := st.settlements + 1,
           trades := st.trades + [ClosedTrade(o.ticker, now, AbsR(pos.net), pos.avg, o.PayoutYes(), realized, BySettlement)])
  }

  /** Recognise every scheduled outcome that replay time has reached. */
  function SettleDue(st: State, schedule: seq<Outcome>, now: int): State
    decreases |schedule| - st.next
  {
    if st.next < |schedule| && schedule[st.next].settledAt <= now
    then SettleDue(SettleOne(st, schedule[st.next], now), schedule, now)
    else st
  }

  // ----- validation: each check refuses rather than repairs -----

  function CheckIntent(i: Intent, obs: Observation, settled: set<string>): Option<Refusal> {
    if i.ticker != obs.ticker then Some(WrongMarket)
    else if i.ticker in settled then Some(LookAhead)
    else if !(0.0 <= i.limitPrice <= 1.0) then Some(LimitOutOfRange)
    else if i.contracts <= 0.0 then Some(IntentNotPositive)
    else None
  }

  function CheckFill(f: ExecutedFill, i: Intent): Option<Refusal> {
    if f.ticker != i.ticker then Some(FillWrongTicker)
    else if f.side != i.side || f.action != i.action then Some(FillInverted)
    else if !(0.0 < f.price < 1.0) then Some(FillPriceUntradeable)
    else if f.contracts <= 0.0 then Some(FillNotPositive)
    else if f.feeCents < 0.0 then Some(FillFeeNegative)
    else if f.action == Buy && f.price > i.limitPrice then Some(FillThroughLimit)
    else if f.action == Sell && f.price < i.limitPrice then Some(FillThroughLimit)
    else None
  }

  /** The first fill that is refused decides. */
  function CheckFills(fs: seq<ExecutedFill>, i: Intent): Option<Refusal> {
    if fs == [] then None
    else if CheckFill(fs[0], i).Some? then CheckFill(fs[0], i)
    else CheckFills(fs[1..], i)
  }

  function TotalContracts(fs: seq<ExecutedFill>): real {
    if fs == [] then 0.0 else TotalContracts(fs[..|fs| - 1]) + fs[|fs| - 1].contracts
  }

  function FillIntent(st: State, i: Intent, obs: Observation, filler: Filler): Result<State, Refusal> {
    var bad := CheckIntent(i, obs, st.settled);
    if bad.Some? then Err(bad.value)
    else
      var fs := filler(i, obs);
      var badFill := CheckFills(fs, i);
      if badFill.Some? then Err(badFill.value)
      else if TotalContracts(fs) > i.contracts then Err(Overfilled)
      else
        var st' := st.(intents := st.intents + 1);
        if fs == [] then Ok(st')
        else Ok(ApplyFills(st'.(filledIntents := st.filledIntents + 1), fs, obs.ts))
  }

  function FillIntents(st: State, wants: seq<Intent>, obs: Observation, filler: Filler): Result<State, Refusal>
    decreases |wants|
  {
    if wants == [] then Ok(st)
    else
      var r := FillIntent(st, wants[0], obs, filler);
      if r.Err? then r else FillIntents(r.value, wants[1..], obs, filler)
  }

  // ----- one observation, and a whole run -----

  function CheckObservation(st: State, obs: Observation): Option<Refusal> {
    if obs.ticker == "" then Some(MissingTicker)
    else if st.clock.Some? && obs.ts < st.clock.value then Some(UnsortedObservations)
    else None
  }

  /** What the strategy is handed at this instant. */
  function View(st: State, obs: Observation): StrategyState {
    StrategyState(obs.ts, obs, st.ledger.positions)
  }

  function Equity(start: real, l: Ledger): real {
    start + l.realized - l.fees
  }

  function Step(st: State, obs: Observation, env: Env): Result<State, Refusal> {
    var bad := CheckObservation(st, obs);
    if bad.Some? then Err(bad.value)
    else
      var due := SettleDue(st.(clock := Some(obs.ts)), env.schedule, obs.ts);
      var asked := due.(seen := due.seen + [View(due, obs)]);
      var r := FillIntents(asked, env.strategy(asked.seen), obs, env.filler);
      if r.Err? then r
      else Ok(r.value.(curve := r.value.curve + [(obs.ts, Equity(env.start, r.value.ledger))]))
  }

  /** The state after every observation of `obs`, or the refusal that stopped the run. */
  function Run(obs: seq<Observation>, env: Env): Result<State, Refusal> {
    if obs == [] then Ok(INITIAL_STATE)
    else
      var before := Run(obs[..|obs| - 1], env);
      if before.Err? then before else Step(before.value, obs[|obs| - 1], env)
  }

  /** A run that went through also went through on every prefix; a refusal is final. */
  lemma {:induction false} RunPrefix(obs: seq<Observation>, env: Env, k: nat)
    requires k <= |obs|
    ensures Run(obs, env).Ok? ==> Run(obs[..k], env).Ok?
    ensures Run(obs[..k], env).Err? ==> Run(obs, env) == Run(obs[..k], env)
  {
    if k == |obs| {
      assert obs[..k] == obs;
    } else {
      var init := obs[..|obs| - 1];
      assert init[..k] == obs[..k];
      RunPrefix(init, env, k);
    }
  }
}
