/**
 The source's own form of the replay: a mutable book, a schedule that is built
 and sorted, and one loop over the observations with settlement, intents and
 fills inside it. Each is proved against the machine of `Replay.dfy`.
 */
module ReplayLoop {
  import opened Prelude
  import opened TextOrder
  import opened Replay
  import opened ReplayLookAhead
  import opened ReplayMirror
  import opened ReplayCash
  import opened ReplayTrader
  import opened MapSums
  import opened Sums
  import Sorting

  datatype UnsettledPosition = UnsettledPosition(ticker: string, net: real, avg: real, costBasisCents: real)

  datatype ReplayResult = ReplayResult(
    trades: seq<ClosedTrade>, fills: seq<(int, ExecutedFill)>, curve: seq<(int, real)>,
    unsettled: seq<UnsettledPosition>, starting: real, ending: real, realized: real, fees: real,
    observations: nat, intents: nat, filledIntents: nat, settlements: nat)

  // ----- the schedule -----

  function InsertOutcome(o: Outcome, s: seq<Outcome>): seq<Outcome> {
    Sorting.Place(o, s, Before)
  }

  lemma {:induction false} InsertOutcomeKeeps(o: Outcome, s: seq<Outcome>)
    ensures forall x :: x in InsertOutcome(o, s) <==> x == o || x in s
  {
    if s != [] && !Before(o, s[0]) {
      InsertOutcomeKeeps(o, s[1..]);
      assert s == [s[0]] + s[1..];
      assert InsertOutcome(o, s) == [s[0]] + InsertOutcome(o, s[1..]);
    }
  }

  lemma HeadComesFirst(head: Outcome, o: Outcome, rest: seq<Outcome>, r: seq<Outcome>)
    requires Before(head, o) && (forall k :: 0 <= k < |rest| ==> Before(head, rest[k]))
    requires forall x :: x in r ==> x == o || x in rest
    ensures forall j :: 0 <= j < |r| ==> Before(head, r[j])
  {
    forall j | 0 <= j < |r| ensures Before(head, r[j]) {
      assert r[j] in r;
    }
  }

  lemma {:induction false} InsertOutcomeOrders(o: Outcome, s: seq<Outcome>)
    requires Ordered(s) && forall x :: x in s ==> x.ticker != o.ticker
    ensures Ordered(InsertOutcome(o, s))
    ensures forall x :: x in InsertOutcome(o, s) <==> x == o || x in s
  {
    InsertOutcomeKeeps(o, s);
    if s == [] {
    } else if Before(o, s[0]) {
      forall j | 0 <= j < |s| ensures Before(o, s[j]) {
        BeforeIsStrictOrder(o, s[0], s[j]);
      }
    } else {
      InsertOutcomeOrders(o, s[1..]);
      assert s[0] in s;
      BeforeIsStrictOrder(o, s[0], o);
      HeadComesFirst(s[0], o, s[1..], InsertOutcome(o, s[1..]));
    }
  }

  /** Outcomes in the order replay recognises them; a mislabelled mapping is refused. */
  method SettlementSchedule(outcomes: map<string, Outcome>) returns (r: Result<seq<Outcome>, Refusal>)
    ensures KeysMatch(outcomes) ==> r.Ok? && IsSchedule(outcomes, r.value)
    ensures !KeysMatch(outcomes) ==> r == Err(OutcomeKeyMismatch)
  {
    var todo := outcomes.Keys;
    var listed: seq<Outcome> := [];
    while todo != {}
      invariant todo <= outcomes.Keys
      invariant Ordered(listed)
      invariant forall k :: k in outcomes && k !in todo ==> outcomes[k].ticker == k
      invariant forall o :: o in listed <==> o.ticker in outcomes && o.ticker !in todo && outcomes[o.ticker] == o
      decreases |todo|
    {
      var key :| key in todo;
      todo := todo - {key};
      var outcome := outcomes[key];
      if outcome.ticker != key {
        return Err(OutcomeKeyMismatch);
      }
      InsertOutcomeOrders(outcome, listed);
      listed := InsertOutcome(outcome, listed);
    }
    return Ok(listed);
  }

  // ----- the book -----

  /** The source's `_Book`: working state that is updated in place. */
  class Book {
    var positions: Positions
    var realizedCents: real
    var feesCents: real

    constructor ()
      ensures Value() == Ledger(map[], 0.0, 0.0)
    {
      positions, realizedCents, feesCents := map[], 0.0, 0.0;
    }

    function Value(): Ledger
      reads this
    {
      Ledger(positions, realizedCents, feesCents)
    }

    /** Fold one fill in, appending the trade it closed. */
    method Apply(fill: ExecutedFill, now: int, trades: seq<ClosedTrade>) returns (trades': seq<ClosedTrade>)
      modifies this
      ensures Value() == ApplyToLedger(old(Value()), fill)
      ensures trades' == trades + TradesOf(old(Value()), fill, now)
    {
      var priorNet, priorAvg := PriorNet(positions, fill.ticker), PriorAvg(positions, fill.ticker);
      var delta := SignedContracts(fill.side, fill.action, fill.contracts);
      var yesPrice := ToYesPrice(fill.side, fill.price);
      var reducing := priorNet != 0.0 && delta != 0.0 && (priorNet > 0.0) != (delta > 0.0);
      var closed := if reducing then MinR(AbsR(delta), AbsR(priorNet)) else 0.0;
      var (newNet, newAvg, realized) := RealizedFromFill(priorNet, priorAvg, delta, yesPrice);
      realizedCents := realizedCents + realized;
      feesCents := feesCents + fill.feeCents;
      if newNet == 0.0 {
        positions := Without(positions, fill.ticker);
      } else {
        positions := positions[fill.ticker := OpenPosition(fill.ticker, newNet, newAvg)];
      }
      trades' := trades;
      if closed > 0.0 {
        trades' := trades' + [ClosedTrade(fill.ticker, now, closed, priorAvg, yesPrice, realized, ByFill)];
      }
    }
  }

  // ----- the report -----

  /** Open positions in ticker order, each with the cash paid to open it. */
  ghost predicate IsUnsettledReport(u: seq<UnsettledPosition>, p: Positions) {
    && (forall i, j :: 0 <= i < j < |u| ==> StrLt(u[i].ticker, u[j].ticker))
    && (forall i :: 0 <= i < |u| ==>
          u[i].ticker in p && p[u[i].ticker].net != 0.0
          && u[i] == UnsettledPosition(u[i].ticker, p[u[i].ticker].net, p[u[i].ticker].avg, CostBasisCents(p[u[i].ticker])))
    && (forall t :: t in p && p[t].net != 0.0 ==> Reported(u, t))
  }

  ghost predicate Reported(u: seq<UnsettledPosition>, t: string) {
    exists i :: 0 <= i < |u| && u[i].ticker == t
  }

  function Standing(t: string, pos: OpenPosition): UnsettledPosition {
    UnsettledPosition(t, pos.net, pos.avg, CostBasisCents(pos))
  }

  lemma ReportedGrows(u: seq<UnsettledPosition>, x: UnsettledPosition, t: string)
    ensures Reported(u, t) || t == x.ticker ==> Reported(u + [x], t)
  {
    var r := u + [x];
    assert r[|u|] == x;
    if Reported(u, t) {
      var i :| 0 <= i < |u| && u[i].ticker == t;
      assert r[i].ticker == t;
    }
  }

  /** The report over the first `i` tickers. */
  ghost predicate ListsFirst(u: seq<UnsettledPosition>, tickers: seq<string>, i: nat, p: Positions) {
    && i <= |tickers|
    && (forall j :: 0 <= j < |u| ==>
          u[j].ticker in tickers[..i] && u[j].ticker in p && p[u[j].ticker].net != 0.0 && u[j] == Standing(u[j].ticker, p[u[j].ticker]))
    && (forall j, k :: 0 <= j < k < |u| ==> StrLt(u[j].ticker, u[k].ticker))
    && (forall j :: 0 <= j < i && tickers[j] in p && p[tickers[j]].net != 0.0 ==> Reported(u, tickers[j]))
  }

  lemma ListsNextFlat(u: seq<UnsettledPosition>, tickers: seq<string>, i: nat, p: Positions)
    requires ListsFirst(u, tickers, i, p) && i < |tickers| && tickers[i] in p && p[tickers[i]].net == 0.0
    ensures ListsFirst(u, tickers, i + 1, p)
  {
    assert tickers[..i + 1] == tickers[..i] + [tickers[i]];
  }

  lemma ListsNextOpen(u: seq<UnsettledPosition>, tickers: seq<string>, i: nat, p: Positions)
    requires ListsFirst(u, tickers, i, p) && Increasing(tickers) && i < |tickers| && tickers[i] in p && p[tickers[i]].net != 0.0
    ensures ListsFirst(u + [Standing(tickers[i], p[tickers[i]])], tickers, i + 1, p)
  {
    var x := Standing(tickers[i], p[tickers[i]]);
    assert tickers[..i + 1] == tickers[..i] + [tickers[i]];
    forall j | 0 <= j <= i && tickers[j] in p && p[tickers[j]].net != 0.0 ensures Reported(u + [x], tickers[j]) {
      ReportedGrows(u, x, tickers[j]);
    }
    forall j | 0 <= j < |u| ensures StrLt(u[j].ticker, x.ticker) {
      var k :| 0 <= k < i && tickers[k] == u[j].ticker;
      assert StrLt(tickers[k], tickers[i]);
    }
  }

  method Unsettled(p: Positions) returns (u: seq<UnsettledPosition>)
    ensures IsUnsettledReport(u, p)
  {
    var tickers := Sorted(p.Keys);
    u := [];
    for i := 0 to |tickers|
      invariant ListsFirst(u, tickers, i, p)
    {
      var t := tickers[i];
      assert t in Members(tickers);
      if p[t].net != 0.0 {
        ListsNextOpen(u, tickers, i, p);
        u := u + [Standing(t, p[t])];
      } else {
        ListsNextFlat(u, tickers, i, p);
      }
    }
    forall t | t in p && p[t].net != 0.0 ensures Reported(u, t) {
      assert t in Members(tickers);
    }
  }

  /** `r` reports the outcome of the run: every field of the final state, or the refusal that stopped it. */
  ghost predicate Reports(r: Result<ReplayResult, Refusal>, run: Result<State, Refusal>, start: real, n: nat) {
    match run
    case Err(e) => r == Err(e)
    case Ok(st) =>
      && r.Ok?
      && r.value.trades == st.trades && r.value.fills == st.fills && r.value.curve == st.curve
      && IsUnsettledReport(r.value.unsettled, st.ledger.positions)
      && r.value.starting == start && r.value.ending == Equity(start, st.ledger)
      && r.value.realized == st.ledger.realized && r.value.fees == st.ledger.fees
      && r.value.observations == n && r.value.intents == st.intents
      && r.value.filledIntents == st.filledIntents && r.value.settlements == st.settlements
  }

  /** All of a batch is validated before any of it is applied. */
  method CheckedFills(fs: seq<ExecutedFill>, intent: Intent) returns (refused: Option<Refusal>)
    ensures refused == (if CheckFills(fs, intent).Some? then CheckFills(fs, intent)
                        else if TotalContracts(fs) > intent.contracts then Some(Overfilled) else None)
  {
    var total := 0.0;
    for i := 0 to |fs|
      invariant CheckFills(fs, intent) == CheckFills(fs[i..], intent)
      invariant total == TotalContracts(fs[..i])
    {
      var bad := CheckFill(fs[i], intent);
      assert fs[i..][1..] == fs[i + 1..];
      if bad.Some? {
        return bad;
      }
      assert fs[..i + 1][..i] == fs[..i];
      total := total + fs[i].contracts;
    }
    assert fs[..|fs|] == fs;
    return if total > intent.contracts then Some(Overfilled) else None;
  }

  /** The loop's local variables, read together with the book as one state of the machine. */
  datatype Locals = Locals(
    trades: seq<ClosedTrade>, fills: seq<(int, ExecutedFill)>, curve: seq<(int, real)>, settled: set<string>,
    next: nat, previous: Option<int>, seen: seq<StrategyState>, intents: nat, filled: nat, settlements: nat)

  function Snapshot(l: Ledger, v: Locals): State {
    State(l, v.trades, v.fills, v.curve, v.settled, v.next, v.previous, v.seen, v.intents, v.filled, v.settlements)
  }

  /** Step 1: settlements that replay time has now reached. */
  method Settle(book: Book, due: seq<Outcome>, now: int, v: Locals) returns (r: Locals)
    modifies book
    ensures Snapshot(book.Value(), r) == SettleDue(Snapshot(old(book.Value()), v), due, now)
  {
    r := v;
    while r.next < |due| && due[r.next].settledAt <= now
      invariant SettleDue(Snapshot(old(book.Value()), v), due, now) == SettleDue(Snapshot(book.Value(), r), due, now)
      decreases |due| - r.next
    {
      var outcome := due[r.next];
      ghost var here := Snapshot(book.Value(), r);
      r := r.(next := r.next + 1, settled := r.settled + {outcome.ticker});
      var held := outcome.ticker in book.positions;
      var position := if held then book.positions[outcome.ticker] else OpenPosition(outcome.ticker, 0.0, 0.0);
      book.positions := Without(book.positions, outcome.ticker);
      if held && position.net != 0.0 {
        var payout := outcome.PayoutYes();
        var realized := RealizedFromSettlement(position.net, position.avg, payout);
        book.realizedCents := book.realizedCents + realized;
        r := r.(settlements := r.settlements + 1,
                trades := r.trades + [ClosedTrade(outcome.ticker, now, AbsR(position.net), position.avg, payout, realized, BySettlement)]);
      }
      assert SettleOne(here, outcome, now) == Snapshot(book.Value(), r);
    }
  }

  /** Fold one accepted batch into the book. */
  method ApplyBatch(book: Book, fs: seq<ExecutedFill>, now: int, v: Locals) returns (r: Locals)
    modifies book
    ensures Snapshot(book.Value(), r) == ApplyFills(Snapshot(old(book.Value()), v), fs, now)
  {
    r := v;
    for m := 0 to |fs|
      invariant ApplyFills(Snapshot(old(book.Value()), v), fs, now) == ApplyFills(Snapshot(book.Value(), r), fs[m..], now)
    {
      assert fs[m..][0] == fs[m] && fs[m..][1..] == fs[m + 1..];
      var trades := book.Apply(fs[m], now, r.trades);
      r := r.(trades := trades, fills := r.fills + [(now, fs[m])]);
    }
  }

  method FillOne(book: Book, intent: Intent, obs: Observation, filler: Filler, v: Locals)
    returns (refused: Option<Refusal>, r: Locals)
    modifies book
    ensures var spec := FillIntent(Snapshot(old(book.Value()), v), intent, obs, filler);
            if refused.Some? then spec == Err(refused.value) else spec == Ok(Snapshot(book.Value(), r))
  {
    r := v;
    var bad := CheckIntent(intent, obs, r.settled);
    if bad.Some? {
      return bad, r;
    }
    var fs := filler(intent, obs);
    var badFills := CheckedFills(fs, intent);
    if badFills.Some? {
      return badFills, r;
    }
    r := r.(intents := r.intents + 1);
    if fs != [] {
      r := r.(filled := r.filled + 1);
      r := ApplyBatch(book, fs, obs.ts, r);
    }
    return None, r;
  }

  /** Step 3: validate, fill and account every intent of one observation. */
  method FillAll(book: Book, wants: seq<Intent>, obs: Observation, filler: Filler, v: Locals)
    returns (refused: Option<Refusal>, r: Locals)
    modifies book
    ensures var spec := FillIntents(Snapshot(old(book.Value()), v), wants, obs, filler);
            if refused.Some? then spec == Err(refused.value) else spec == Ok(Snapshot(book.Value(), r))
  {
    r := v;
    for j := 0 to |wants|
      invariant FillIntents(Snapshot(old(book.Value()), v), wants, obs, filler)
             == FillIntents(Snapshot(book.Value(), r), wants[j..], obs, filler)
    {
      assert wants[j..][0] == wants[j] && wants[j..][1..] == wants[j + 1..];
      refused, r := FillOne(book, wants[j], obs, filler, r);
      if refused.Some? {
        return;
      }
    }
    refused := None;
  }

  /** The body of the loop: check the clock, settle, ask, fill, and record one equity point. */
  method Observe(book: Book, obs: Observation, due: seq<Outcome>, strategy: Strategy, filler: Filler, start: real, v: Locals)
    returns (refused: Option<Refusal>, r: Locals)
    modifies book
    ensures var spec := Step(Snapshot(old(book.Value()), v), obs, Env(due, strategy, filler, start));
            if refused.Some? then spec == Err(refused.value) else spec == Ok(Snapshot(book.Value(), r))
  {
    StepIsAskThenFill(Snapshot(book.Value(), v), obs, Env(due, strategy, filler, start));
    r := v;
    if obs.ticker == "" {
      return Some(MissingTicker), r;
    }
    if r.previous.Some? && obs.ts < r.previous.value {
      return Some(UnsortedObservations), r;
    }
    r := r.(previous := Some(obs.ts));
    r := Settle(book, due, obs.ts, r);
    r := r.(seen := r.seen + [StrategyState(obs.ts, obs, book.positions)]);
    refused, r := FillAll(book, strategy(r.seen), obs, filler, r);
    if refused.None? {
      r := r.(curve := r.curve + [(obs.ts, start + book.realizedCents - book.feesCents)]);
    }
  }

  // ----- the cash identity, read off the report -----

  /** A figure of each listed position, from its net and its average. */
  function Figures(u: seq<UnsettledPosition>, g: (real, real) -> real): (r: seq<real>)
    ensures |r| == |u| && forall i :: 0 <= i < |u| ==> r[i] == g(u[i].net, u[i].avg)
  {
    seq(|u|, i requires 0 <= i < |u| => g(u[i].net, u[i].avg))
  }

  /** The same figure of each position of the book. */
  ghost function FiguresOf(p: Positions, g: (real, real) -> real): map<string, real> {
    map t | t in p :: g(p[t].net, p[t].avg)
  }

  /** Signed YES-equivalent cost. */
  function Signed(net: real, avg: real): real {
    net * avg
  }

  function CostBases(u: seq<UnsettledPosition>): (r: seq<real>)
    ensures |r| == |u| && forall i :: 0 <= i < |u| ==> r[i] == u[i].costBasisCents
  {
    seq(|u|, i requires 0 <= i < |u| => u[i].costBasisCents)
  }

  ghost predicate AllOpen(p: Positions) {
    forall t :: t in p ==> p[t].net != 0.0
  }

  lemma ReportTail(u: seq<UnsettledPosition>, p: Positions)
    requires u != [] && IsUnsettledReport(u, p)
    ensures IsUnsettledReport(u[1..], Without(p, u[0].ticker))
  {
    var q := Without(p, u[0].ticker);
    forall i | 0 < i < |u| ensures u[i].ticker != u[0].ticker {
      StrLtIrreflexive(u[0].ticker);
      assert StrLt(u[0].ticker, u[i].ticker);
    }
    forall t | t in q && q[t].net != 0.0 ensures Reported(u[1..], t) {
      assert Reported(u, t);
      var i :| 0 <= i < |u| && u[i].ticker == t;
      assert u[1..][i - 1].ticker == t;
    }
  }

  lemma EmptyListing(p: Positions)
    requires IsUnsettledReport([], p) && AllOpen(p)
    ensures p == map[]
  {
    forall t ensures t !in p {
      assert !Reported([], t);
    }
  }

  lemma FirstFigure(u: seq<UnsettledPosition>, g: (real, real) -> real)
    requires u != []
    ensures Sum(Figures(u, g)) == g(u[0].net, u[0].avg) + Sum(Figures(u[1..], g))
  {
    assert Figures(u, g)[1..] == Figures(u[1..], g);
  }

  lemma FirstFigureOf(p: Positions, t: string, g: (real, real) -> real)
    requires t in p
    ensures MapSum(FiguresOf(p, g)) == g(p[t].net, p[t].avg) + MapSum(FiguresOf(Without(p, t), g))
  {
    MapSumTakes(FiguresOf(p, g), t);
    assert FiguresOf(p, g) - {t} == FiguresOf(Without(p, t), g);
  }

  /** The listed positions add up to what the book's positions do, whatever is added up. */
  lemma {:induction false} ListingTotals(u: seq<UnsettledPosition>, p: Positions, g: (real, real) -> real)
    requires IsUnsettledReport(u, p) && AllOpen(p)
    ensures Sum(Figures(u, g)) == MapSum(FiguresOf(p, g))
    decreases |u|
  {
    if u == [] {
      EmptyListing(p);
    } else {
      ReportTail(u, p);
      ListingTotals(u[1..], Without(p, u[0].ticker), g);
      FirstFigure(u, g);
      FirstFigureOf(p, u[0].ticker, g);
    }
  }

  function InCents(net: real, avg: real): real {
    CostBasisCents(OpenPosition("", net, avg))
  }

  lemma FigureOfPosition(pos: OpenPosition)
    ensures Signed(pos.net, pos.avg) == Worth(pos) && InCents(pos.net, pos.avg) == CostBasisCents(pos)
  {
  }

  lemma ListedBasis(u: seq<UnsettledPosition>, p: Positions)
    requires IsUnsettledReport(u, p) && AllOpen(p)
    ensures Sum(Figures(u, Signed)) == Basis(p)
  {
    ListingTotals(u, p, Signed);
    forall t | t in p ensures FiguresOf(p, Signed)[t] == Costs(p)[t] {
      FigureOfPosition(p[t]);
    }
    assert FiguresOf(p, Signed) == Costs(p);
  }

  lemma ListedPaid(u: seq<UnsettledPosition>, p: Positions)
    requires IsUnsettledReport(u, p) && AllOpen(p)
    ensures Sum(CostBases(u)) == MapSum(Paid(p))
  {
    ListingTotals(u, p, InCents);
    forall t | t in p ensures FiguresOf(p, InCents)[t] == Paid(p)[t] {
      FigureOfPosition(p[t]);
    }
    assert FiguresOf(p, InCents) == Paid(p);
    forall i | 0 <= i < |u| ensures Figures(u, InCents)[i] == CostBases(u)[i] {
      FigureOfPosition(p[u[i].ticker]);
    }
    assert Figures(u, InCents) == CostBases(u);
  }

  /** How many scheduled outcomes a stream reaches. */
  ghost function Recognised(schedule: seq<Outcome>, obs: seq<Observation>): nat {
    if obs == [] then 0 else DueCount(schedule, obs[|obs| - 1].ts)
  }

  /**
   The report alone tells where its money came from: fills, settlements reached,
   and what is still open account for every realised cent, as do the trades.
   */
  ghost predicate CashReport(r: ReplayResult, schedule: seq<Outcome>, obs: seq<Observation>) {
    && Recognised(schedule, obs) <= |schedule|
    && r.realized == 100.0 * (CashFrom(r.fills) + PaidOut(schedule[..Recognised(schedule, obs)], r.fills) + Sum(Figures(r.unsettled, Signed)))
    && r.realized == PnlOf(r.trades) && r.fees == FeesFrom(r.fills) && r.ending == r.starting + r.realized - r.fees
    && (forall i :: 0 <= i < |r.unsettled| ==>
          var u := r.unsettled[i]; 0.0 < u.avg < 1.0 && u.net == NetFrom(r.fills, u.ticker) != 0.0)
  }

  /**
   And in the trader's terms, where no price or quantity is restated as its YES
   equivalent: realised cents are the dollars handed over, a dollar for each
   contract on the winning side and for each pair still held, and the cost of
   what is listed; every listed position is what was bought less what was sold.
   */
  ghost predicate TraderReport(r: ReplayResult, schedule: seq<Outcome>, obs: seq<Observation>)
    requires Recognised(schedule, obs) <= |schedule|
  {
    var settled := schedule[..Recognised(schedule, obs)];
    && r.realized == TraderAccount(r.fills, settled, Traded(r.fills) - Tickers(settled), Sum(CostBases(r.unsettled)))
    && (forall i :: 0 <= i < |r.unsettled| ==>
          var u := r.unsettled[i];
          u.net == Held(r.fills, u.ticker, Yes) - Held(r.fills, u.ticker, No))
    && (Traded(r.fills) <= Tickers(settled) ==>
          r.unsettled == [] && r.realized == 100.0 * (TraderCash(r.fills) + Winnings(settled, r.fills)))
  }

  /** Each equity point is the cash account of the run so far. */
  ghost predicate PointsAreCash(r: ReplayResult, obs: seq<Observation>, env: Env) {
    && |r.curve| == |obs|
    && forall k :: 0 <= k < |obs| ==> PointIsCash(r.curve[k], Run(obs[..k + 1], env), obs[k].ts, env)
  }

  ghost predicate PointIsCash(point: (int, real), run: Result<State, Refusal>, ts: int, env: Env) {
    && run.Ok? && run.value.next <= |env.schedule|
    && point == (ts, env.start + CashAccount(run.value, env.schedule) - FeesFrom(run.value.fills))
  }

  lemma {:induction false} CutIsDueCount(schedule: seq<Outcome>, n: nat, now: int)
    requires Ordered(schedule) && CutAt(schedule, n, now)
    ensures n == DueCount(schedule, now)
  {
    DueCountSplits(schedule, now);
    var due := DueCount(schedule, now);
    var i := if n < due then n else due;
    assert i < |schedule| ==> (schedule[i].settledAt <= now <==> i < n) && (schedule[i].settledAt <= now <==> i < due);
  }

  /** No assumption on the outcomes, the strategy or the filler is left: every report of the loop conserves cash. */
  lemma {:induction false} ReportConservesCash(r: ReplayResult, obs: seq<Observation>, outcomes: map<string, Outcome>, env: Env)
    requires IsSchedule(outcomes, env.schedule) && Reports(Ok(r), Run(obs, env), env.start, |obs|)
    ensures CashReport(r, env.schedule, obs) && TraderReport(r, env.schedule, obs) && PointsAreCash(r, obs, env)
  {
    var st := Run(obs, env).value;
    ScheduleTickersDistinct(outcomes, env.schedule);
    CashConserved(obs, env);
    SettledIsExactlyTheKnown(obs, outcomes, env);
    if obs != [] {
      CutIsDueCount(env.schedule, st.next, obs[|obs| - 1].ts);
    }
    AccountedReport(r, st, obs, env);
    OwedReport(r, st, obs, env);
    PointsOfReport(r, obs, env);
  }

  lemma AccountedReport(r: ReplayResult, st: State, obs: seq<Observation>, env: Env)
    requires Reports(Ok(r), Ok(st), env.start, |obs|) && Accounted(st, env.schedule) && st.next == Recognised(env.schedule, obs)
    ensures CashReport(r, env.schedule, obs)
  {
    assert AllOpen(st.ledger.positions);
    ListedBasis(r.unsettled, st.ledger.positions);
    assert r.realized == st.ledger.realized == CashAccount(st, env.schedule);
    assert r.realized == PnlOf(r.trades) && r.fees == FeesFrom(r.fills);
    assert r.ending == r.starting + r.realized - r.fees;
    forall i | 0 <= i < |r.unsettled|
      ensures var u := r.unsettled[i]; 0.0 < u.avg < 1.0 && u.net == NetFrom(r.fills, u.ticker) != 0.0
    {
      assert r.unsettled[i].ticker in st.ledger.positions;
    }
  }

  lemma OwedReport(r: ReplayResult, st: State, obs: seq<Observation>, env: Env)
    requires Reports(Ok(r), Ok(st), env.start, |obs|) && Accounted(st, env.schedule) && Distinct(env.schedule)
    requires st.next == Recognised(env.schedule, obs)
    ensures Recognised(env.schedule, obs) <= |env.schedule| && TraderReport(r, env.schedule, obs)
  {
    AccountedIsOwed(st, env.schedule);
    AccountedOpen(st, env.schedule);
    SettledTickers(st.settled, env.schedule, st.next);
    ListedPaid(r.unsettled, st.ledger.positions);
    if StillOpen(st) == {} {
      assert st.ledger.positions == map[];
      ListedIsOpen(r.unsettled, st.ledger.positions);
      assert Pairs(st.fills, {}) == map[] && CostBases([]) == [];
    }
  }

  lemma ListedIsOpen(u: seq<UnsettledPosition>, p: Positions)
    requires IsUnsettledReport(u, p)
    ensures u != [] ==> p != map[]
  {
    if u != [] {
      assert u[0].ticker in p;
    }
  }

  lemma {:induction false} PointsOfReport(r: ReplayResult, obs: seq<Observation>, env: Env)
    requires Distinct(env.schedule) && Reports(Ok(r), Run(obs, env), env.start, |obs|)
    ensures PointsAreCash(r, obs, env)
  {
    OnePointPerObservation(obs, env);
    forall k | 0 <= k < |obs| ensures PointIsCash(r.curve[k], Run(obs[..k + 1], env), obs[k].ts, env) {
      EquityPointIsCash(obs, env, k);
    }
  }

  /** The replay loop. */
  method ReplayAll(
      observations: seq<Observation>, strategy: Strategy, filler: Filler, outcomes: map<string, Outcome>, start: real)
    returns (r: Result<ReplayResult, Refusal>, ghost schedule: seq<Outcome>)
    ensures !KeysMatch(outcomes) ==> r == Err(OutcomeKeyMismatch)
    ensures KeysMatch(outcomes) ==>
              && IsSchedule(outcomes, schedule)
              && Reports(r, Run(observations, Env(schedule, strategy, filler, start)), start, |observations|)
    ensures r.Ok? ==>
              CashReport(r.value, schedule, observations) && TraderReport(r.value, schedule, observations)
              && PointsAreCash(r.value, observations, Env(schedule, strategy, filler, start))
  {
    schedule := [];
    var built := SettlementSchedule(outcomes);
    if built.Err? {
      return Err(built.error), schedule;
    }
    var due := built.value;
    schedule := due;
    ghost var env := Env(due, strategy, filler, start);
    var book := new Book();
    var v := Locals([], [], [], {}, 0, None, [], 0, 0, 0);
    for index := 0 to |observations|
      invariant Run(observations[..index], env) == Ok(Snapshot(book.Value(), v))
    {
      RunPrefix(observations, env, index + 1);
      assert observations[..index + 1][..index] == observations[..index];
      var refused;
      refused, v := Observe(book, observations[index], due, strategy, filler, start, v);
      if refused.Some? {
        return Err(refused.value), schedule;
      }
    }
    assert observations[..|observations|] == observations;
    var open := Unsettled(book.positions);
    r := Ok(ReplayResult(v.trades, v.fills, v.curve, open, start, start + book.realizedCents - book.feesCents,
                         book.realizedCents, book.feesCents, |observations|, v.intents, v.filled, v.settlements));
    ReportConservesCash(r.value, observations, outcomes, env);
  }
}
