/**
 YES and NO are one market seen from two sides. Flipping every side and every
 outcome of a run changes no cent of it, and trading NO is trading YES the
 other way round.
 */
module ReplayMirror {
  import opened Prelude
  import opened Replay

  function Flip(s: Side): Side {
    if s == Yes then No else Yes
  }

  function MirrorIntent(i: Intent): Intent {
    i.(side := Flip(i.side))
  }

  function MirrorFill(f: ExecutedFill): ExecutedFill {
    f.(side := Flip(f.side))
  }

  function MirrorOutcome(o: Outcome): Outcome {
    o.(settledYes := !o.settledYes)
  }

  function MirrorPosition(p: OpenPosition): OpenPosition {
    OpenPosition(p.ticker, -p.net, 1.0 - p.avg)
  }

  function MirrorPositions(p: Positions): Positions {
    map t | t in p :: MirrorPosition(p[t])
  }

  function MirrorView(v: StrategyState): StrategyState {
    v.(positions := MirrorPositions(v.positions))
  }

  function MirrorTrade(t: ClosedTrade): ClosedTrade {
    t.(entryYes := 1.0 - t.entryYes, exitYes := 1.0 - t.exitYes)
  }

  function Each<A, B>(f: A -> B, s: seq<A>): (r: seq<B>)
    ensures |r| == |s| && forall i :: 0 <= i < |s| ==> r[i] == f(s[i])
  {
    seq(|s|, i requires 0 <= i < |s| => f(s[i]))
  }

  function MirrorLogged(x: (int, ExecutedFill)): (int, ExecutedFill) {
    (x.0, MirrorFill(x.1))
  }

  function MirrorLedger(l: Ledger): Ledger {
    l.(positions := MirrorPositions(l.positions))
  }

  /** Everything flipped that has a side; every amount of money kept. */
  function MirrorState(st: State): State {
    st.(ledger := MirrorLedger(st.ledger),
        trades := Each(MirrorTrade, st.trades),
        fills := Each(MirrorLogged, st.fills),
        seen := Each(MirrorView, st.seen))
  }

  function MirrorResult(r: Result<State, Refusal>): Result<State, Refusal> {
    if r.Ok? then Ok(MirrorState(r.value)) else r
  }

  /** A strategy that plays `s` in the mirror. */
  function MirrorStrategy(s: Strategy): Strategy {
    (h: seq<StrategyState>) => Each(MirrorIntent, s(Each(MirrorView, h)))
  }

  function MirrorFiller(f: Filler): Filler {
    (i: Intent, obs: Observation) => Each(MirrorFill, f(MirrorIntent(i), obs))
  }

  function MirrorEnv(env: Env): Env {
    Env(Each(MirrorOutcome, env.schedule), MirrorStrategy(env.strategy), MirrorFiller(env.filler), env.start)
  }

  // ----- arithmetic in the mirror -----

  lemma BlendMirrors(avg: real, a: real, price: real, b: real)
    requires a >= 0.0 && b > 0.0
    ensures Blend(1.0 - avg, a, 1.0 - price, b) == 1.0 - Blend(avg, a, price, b)
  {
    var w, v := a + b, avg * a + price * b;
    assert (1.0 - avg) * a + (1.0 - price) * b == w - v;
    QuotientComplement(v, w);
  }

  lemma QuotientComplement(v: real, w: real)
    requires w > 0.0
    ensures (w - v) / w == 1.0 - v / w
  {
    SameFactor((w - v) / w, 1.0 - v / w, w);
  }

  lemma SameFactor(x: real, y: real, w: real)
    requires w > 0.0 && x * w == y * w
    ensures x == y
  {
  }

  lemma BlendIgnoresEmpty(avg: real, price: real, b: real)
    requires b > 0.0
    ensures Blend(avg, 0.0, price, b) == price
  {
    SameFactor((price * b) / b, price, b);
  }

  lemma ClosedMirrors(avg: real, price: real, directed: real)
    ensures ((1.0 - price) - (1.0 - avg)) * -directed == (price - avg) * directed
  {
  }

  lemma AddMirrors(net: real, avg: real, delta: real, price: real)
    requires net != 0.0 && delta != 0.0 && (net > 0.0) == (delta > 0.0)
    ensures RealizedFromFill(-net, 1.0 - avg, -delta, 1.0 - price).1 == 1.0 - RealizedFromFill(net, avg, delta, price).1
  {
    BlendMirrors(avg, AbsR(net), price, AbsR(delta));
  }

  lemma RealizedMirrors(net: real, avg: real, avg': real, delta: real, price: real)
    requires delta != 0.0
    requires net != 0.0 ==> avg' == 1.0 - avg
    ensures var (n, a, r) := RealizedFromFill(net, avg, delta, price);
            var (n', a', r') := RealizedFromFill(-net, avg', -delta, 1.0 - price);
            n' == -n && r' == r && (n != 0.0 ==> a' == 1.0 - a)
  {
    if net == 0.0 {
      BlendIgnoresEmpty(avg, price, AbsR(delta));
      BlendIgnoresEmpty(avg', 1.0 - price, AbsR(delta));
    } else if (net > 0.0) == (delta > 0.0) {
      AddMirrors(net, avg, delta, price);
    } else {
      var closed := MinR(AbsR(delta), AbsR(net));
      ClosedMirrors(avg, price, if net > 0.0 then closed else -closed);
    }
  }

  lemma SettlementMirrors(net: real, avg: real, payout: real)
    ensures RealizedFromSettlement(-net, 1.0 - avg, 1.0 - payout) == RealizedFromSettlement(net, avg, payout)
  {
    assert ((1.0 - payout) - (1.0 - avg)) * -net == (payout - avg) * net;
  }

  // ----- the machine in the mirror -----

  lemma PositionsMirror(p: Positions, t: string, pos: OpenPosition)
    ensures MirrorPositions(Without(p, t)) == Without(MirrorPositions(p), t)
    ensures MirrorPositions(p[t := pos]) == MirrorPositions(p)[t := MirrorPosition(pos)]
  {
  }

  lemma LedgerMirrors(l: Ledger, f: ExecutedFill)
    requires f.contracts != 0.0
    ensures ApplyToLedger(MirrorLedger(l), MirrorFill(f)) == MirrorLedger(ApplyToLedger(l, f))
    ensures ClosedBy(MirrorLedger(l), MirrorFill(f)) == ClosedBy(l, f)
    ensures ClosedBy(l, f) > 0.0 ==>
              PriorAvg(MirrorPositions(l.positions), f.ticker) == 1.0 - PriorAvg(l.positions, f.ticker)
  {
    var p := l.positions;
    var net, avg := PriorNet(p, f.ticker), PriorAvg(p, f.ticker);
    var (n, a, r) := RealizedFromFill(net, avg, Delta(f), FillYesPrice(f));
    RealizedMirrors(net, avg, PriorAvg(MirrorPositions(p), f.ticker), Delta(f), FillYesPrice(f));
    PositionsMirror(p, f.ticker, OpenPosition(f.ticker, n, a));
  }

  lemma FillMirrors(st: State, f: ExecutedFill, now: int)
    requires f.contracts != 0.0
    ensures ApplyFill(MirrorState(st), MirrorFill(f), now) == MirrorState(ApplyFill(st, f, now))
  {
    LedgerMirrors(st.ledger, f);
    var m := ApplyFill(MirrorState(st), MirrorFill(f), now);
    var r := MirrorState(ApplyFill(st, f, now));
    assert TradesOf(MirrorLedger(st.ledger), MirrorFill(f), now) == Each(MirrorTrade, TradesOf(st.ledger, f, now));
    assert m.trades == r.trades;
    assert m.fills == r.fills;
  }

  lemma {:induction false} FillsMirror(st: State, fs: seq<ExecutedFill>, now: int)
    requires forall f :: f in fs ==> f.contracts != 0.0
    ensures ApplyFills(MirrorState(st), Each(MirrorFill, fs), now) == MirrorState(ApplyFills(st, fs, now))
    decreases |fs|
  {
    if fs != [] {
      FillMirrors(st, fs[0], now);
      FillsMirror(ApplyFill(st, fs[0], now), fs[1..], now);
      assert Each(MirrorFill, fs)[1..] == Each(MirrorFill, fs[1..]);
    }
  }

  lemma SettleOneMirrors(st: State, o: Outcome, now: int)
    ensures SettleOne(MirrorState(st), MirrorOutcome(o), now) == MirrorState(SettleOne(st, o, now))
  {
    var p := st.ledger.positions;
    PositionsMirror(p, o.ticker, OpenPosition(o.ticker, 0.0, 0.0));
    if o.ticker in p {
      SettlementMirrors(p[o.ticker].net, p[o.ticker].avg, o.PayoutYes());
    }
    assert SettleOne(MirrorState(st), MirrorOutcome(o), now).trades == MirrorState(SettleOne(st, o, now)).trades;
  }

  lemma {:induction false} SettleDueMirrors(st: State, schedule: seq<Outcome>, now: int)
    ensures SettleDue(MirrorState(st), Each(MirrorOutcome, schedule), now) == MirrorState(SettleDue(st, schedule, now))
    decreases |schedule| - st.next
  {
    if st.next < |schedule| && schedule[st.next].settledAt <= now {
      SettleOneMirrors(st, schedule[st.next], now);
      SettleDueMirrors(SettleOne(st, schedule[st.next], now), schedule, now);
    }
  }

  lemma {:induction false} CheckFillsMirror(fs: seq<ExecutedFill>, i: Intent)
    ensures CheckFills(Each(MirrorFill, fs), MirrorIntent(i)) == CheckFills(fs, i)
    decreases |fs|
  {
    if fs != [] {
      assert Each(MirrorFill, fs)[1..] == Each(MirrorFill, fs[1..]);
      CheckFillsMirror(fs[1..], i);
    }
  }

  lemma {:induction false} AcceptedFillsMove(fs: seq<ExecutedFill>, i: Intent)
    requires CheckFills(fs, i).None?
    ensures forall f :: f in fs ==> f.contracts != 0.0
    decreases |fs|
  {
    if fs != [] {
      AcceptedFillsMove(fs[1..], i);
      assert fs == [fs[0]] + fs[1..];
    }
  }

  lemma {:induction false} TotalMirrors(fs: seq<ExecutedFill>)
    ensures TotalContracts(Each(MirrorFill, fs)) == TotalContracts(fs)
  {
    if fs != [] {
      var init := fs[..|fs| - 1];
      assert Each(MirrorFill, fs)[..|fs| - 1] == Each(MirrorFill, init);
      TotalMirrors(init);
    }
  }

  /** The state an accepted intent leaves, before and after the mirror. */
  function Accept(st: State, fs: seq<ExecutedFill>, now: int): State {
    if fs == [] then st.(intents := st.intents + 1)
    else ApplyFills(st.(intents := st.intents + 1, filledIntents := st.filledIntents + 1), fs, now)
  }

  lemma AcceptMirrors(st: State, fs: seq<ExecutedFill>, now: int)
    requires forall f :: f in fs ==> f.contracts != 0.0
    ensures Accept(MirrorState(st), Each(MirrorFill, fs), now) == MirrorState(Accept(st, fs, now))
  {
    FillsMirror(st.(intents := st.intents + 1, filledIntents := st.filledIntents + 1), fs, now);
  }

  lemma {:induction false} IntentIsCheckThenAccept(st: State, i: Intent, obs: Observation, filler: Filler)
    ensures var fs := filler(i, obs);
            FillIntent(st, i, obs, filler)
            == if CheckIntent(i, obs, st.settled).Some? then Err(CheckIntent(i, obs, st.settled).value)
               else if CheckFills(fs, i).Some? then Err(CheckFills(fs, i).value)
               else if TotalContracts(fs) > i.contracts then Err(Overfilled)
               else Ok(Accept(st, fs, obs.ts))
  {
  }

  lemma FillerMirrors(filler: Filler, i: Intent, obs: Observation)
    ensures MirrorFiller(filler)(MirrorIntent(i), obs) == Each(MirrorFill, filler(i, obs))
  {
    assert MirrorIntent(MirrorIntent(i)) == i;
  }

  lemma IntentMirrors(st: State, i: Intent, obs: Observation, filler: Filler)
    ensures FillIntent(MirrorState(st), MirrorIntent(i), obs, MirrorFiller(filler))
         == MirrorResult(FillIntent(st, i, obs, filler))
  {
    var fs := filler(i, obs);
    IntentIsCheckThenAccept(st, i, obs, filler);
    IntentIsCheckThenAccept(MirrorState(st), MirrorIntent(i), obs, MirrorFiller(filler));
    FillerMirrors(filler, i, obs);
    CheckFillsMirror(fs, i);
    TotalMirrors(fs);
    if CheckFills(fs, i).None? {
      AcceptedFillsMove(fs, i);
      AcceptMirrors(st, fs, obs.ts);
    }
  }

  lemma {:induction false} IntentsMirror(st: State, wants: seq<Intent>, obs: Observation, filler: Filler)
    ensures FillIntents(MirrorState(st), Each(MirrorIntent, wants), obs, MirrorFiller(filler))
         == MirrorResult(FillIntents(st, wants, obs, filler))
    decreases |wants|
  {
    if wants != [] {
      IntentMirrors(st, wants[0], obs, filler);
      assert Each(MirrorIntent, wants)[1..] == Each(MirrorIntent, wants[1..]);
      var r := FillIntent(st, wants[0], obs, filler);
      if r.Ok? {
        IntentsMirror(r.value, wants[1..], obs, filler);
      }
    }
  }

  lemma ViewsMirrorTwice(h: seq<StrategyState>)
    ensures Each(MirrorView, Each(MirrorView, h)) == h
  {
    forall i | 0 <= i < |h| ensures MirrorView(MirrorView(h[i])) == h[i] {
      assert MirrorPositions(MirrorPositions(h[i].positions)) == h[i].positions;
    }
  }

  /** The state in which the strategy is asked, with its view recorded. */
  function Asked(st: State, obs: Observation, schedule: seq<Outcome>): State {
    var due := SettleDue(st.(clock := Some(obs.ts)), schedule, obs.ts);
    due.(seen := due.seen + [View(due, obs)])
  }

  lemma AskedMirrors(st: State, obs: Observation, schedule: seq<Outcome>)
    ensures Asked(MirrorState(st), obs, Each(MirrorOutcome, schedule)) == MirrorState(Asked(st, obs, schedule))
  {
    var at := st.(clock := Some(obs.ts));
    assert MirrorState(st).(clock := Some(obs.ts)) == MirrorState(at);
    SettleDueMirrors(at, schedule, obs.ts);
    var due := SettleDue(at, schedule, obs.ts);
    assert MirrorState(due).seen + [View(MirrorState(due), obs)] == MirrorState(Asked(st, obs, schedule)).seen;
  }

  lemma StrategyMirrors(strategy: Strategy, h: seq<StrategyState>)
    ensures MirrorStrategy(strategy)(Each(MirrorView, h)) == Each(MirrorIntent, strategy(h))
  {
    ViewsMirrorTwice(h);
  }

  lemma {:induction false} StepIsAskThenFill(st: State, obs: Observation, env: Env)
    ensures var asked := Asked(st, obs, env.schedule);
            var r := FillIntents(asked, env.strategy(asked.seen), obs, env.filler);
            Step(st, obs, env)
            == if CheckObservation(st, obs).Some? then Err(CheckObservation(st, obs).value)
               else if r.Err? then r
               else Ok(r.value.(curve := r.value.curve + [(obs.ts, Equity(env.start, r.value.ledger))]))
  {
  }

  lemma StepMirrors(st: State, obs: Observation, env: Env)
    ensures Step(MirrorState(st), obs, MirrorEnv(env)) == MirrorResult(Step(st, obs, env))
  {
    var asked := Asked(st, obs, env.schedule);
    StepIsAskThenFill(st, obs, env);
    StepIsAskThenFill(MirrorState(st), obs, MirrorEnv(env));
    AskedMirrors(st, obs, env.schedule);
    StrategyMirrors(env.strategy, asked.seen);
    IntentsMirror(asked, env.strategy(asked.seen), obs, env.filler);
  }

  /**
   The mirror theorem. Flip every side a strategy trades, every side it is
   shown, and every outcome: the run ends in the mirrored state. Realised P&L,
   fees, the equity curve and every closed trade's P&L are untouched, each
   position is negated and its average complemented, and a refusal is the same
   refusal.
   */
  lemma {:induction false} RunMirrors(obs: seq<Observation>, env: Env)
    ensures Run(obs, MirrorEnv(env)) == MirrorResult(Run(obs, env))
  {
    if obs == [] {
      assert MirrorPositions(map[]) == map[];
      assert MirrorState(INITIAL_STATE) == INITIAL_STATE;
    } else {
      var init := obs[..|obs| - 1];
      RunMirrors(init, env);
      if Run(init, env).Ok? {
        StepMirrors(Run(init, env).value, obs[|obs| - 1], env);
      }
    }
  }

  /** Cash actually paid to open what is left, on the side it was traded. */
  function CostBasisCents(p: OpenPosition): real {
    (if p.net > 0.0 then p.avg else 1.0 - p.avg) * AbsR(p.net) * 100.0
  }

  /** A NO position and the YES position it mirrors cost the same cash, and never a negative amount. */
  lemma CostBasisMirrors(p: OpenPosition)
    requires p.net != 0.0 && 0.0 < p.avg < 1.0
    ensures CostBasisCents(MirrorPosition(p)) == CostBasisCents(p) > 0.0
  {
    var side := if p.net > 0.0 then p.avg else 1.0 - p.avg;
    assert 0.0 < side && 0.0 < AbsR(p.net);
    assert side * AbsR(p.net) > 0.0;
  }

  // ----- trading NO is trading YES the other way -----

  function Turn(a: Action): Action {
    if a == Buy then Sell else Buy
  }

  /** The same trade written on the other side of the market. */
  function OtherFill(f: ExecutedFill): ExecutedFill {
    f.(side := Flip(f.side), action := Turn(f.action), price := 1.0 - f.price)
  }

  function OtherIntent(i: Intent): Intent {
    i.(side := Flip(i.side), action := Turn(i.action), limitPrice := 1.0 - i.limitPrice)
  }

  /** One trade, whichever way it is written. */
  ghost predicate SameFill(f: ExecutedFill, g: ExecutedFill) {
    g == f || g == OtherFill(f)
  }

  ghost predicate SameIntent(i: Intent, j: Intent) {
    j == i || j == OtherIntent(i)
  }

  ghost predicate SameFills(fs: seq<ExecutedFill>, gs: seq<ExecutedFill>) {
    |gs| == |fs| && forall k :: 0 <= k < |fs| ==> SameFill(fs[k], gs[k])
  }

  ghost predicate SameIntents(a: seq<Intent>, b: seq<Intent>) {
    |b| == |a| && forall k :: 0 <= k < |a| ==> SameIntent(a[k], b[k])
  }

  /** Everything but the notation of the fills on record agrees. */
  ghost predicate Alike(a: State, b: State) {
    && b == a.(fills := b.fills) && |b.fills| == |a.fills|
    && forall k :: 0 <= k < |a.fills| ==> b.fills[k].0 == a.fills[k].0 && SameFill(a.fills[k].1, b.fills[k].1)
  }

  ghost predicate AlikeResults(a: Result<State, Refusal>, b: Result<State, Refusal>) {
    if a.Err? then b == a else b.Ok? && Alike(a.value, b.value)
  }

  lemma SameFillMovesAlike(f: ExecutedFill, g: ExecutedFill)
    requires SameFill(f, g)
    ensures g.ticker == f.ticker && Delta(g) == Delta(f) && FillYesPrice(g) == FillYesPrice(f)
    ensures g.feeCents == f.feeCents && g.contracts == f.contracts
  {
  }

  lemma ApplyFillAlike(a: State, b: State, f: ExecutedFill, g: ExecutedFill, now: int)
    requires Alike(a, b) && SameFill(f, g)
    ensures Alike(ApplyFill(a, f, now), ApplyFill(b, g, now))
  {
    SameFillMovesAlike(f, g);
  }

  /** Rewriting any of a batch of fills on the other side changes neither book nor trades. */
  lemma {:induction false} SideIsOnlyNotation(a: State, b: State, fs: seq<ExecutedFill>, gs: seq<ExecutedFill>, now: int)
    requires a.ledger == b.ledger && a.trades == b.trades && SameFills(fs, gs)
    ensures ApplyFills(a, fs, now).ledger == ApplyFills(b, gs, now).ledger
    ensures ApplyFills(a, fs, now).trades == ApplyFills(b, gs, now).trades
    decreases |fs|
  {
    if fs != [] {
      SameFillMovesAlike(fs[0], gs[0]);
      SideIsOnlyNotation(ApplyFill(a, fs[0], now), ApplyFill(b, gs[0], now), fs[1..], gs[1..], now);
    }
  }

  /** Nor anything else of the state but the notation on record. */
  lemma {:induction false} ApplyFillsAlike(a: State, b: State, fs: seq<ExecutedFill>, gs: seq<ExecutedFill>, now: int)
    requires Alike(a, b) && SameFills(fs, gs)
    ensures Alike(ApplyFills(a, fs, now), ApplyFills(b, gs, now))
    decreases |fs|
  {
    if fs != [] {
      ApplyFillAlike(a, b, fs[0], gs[0], now);
      ApplyFillsAlike(ApplyFill(a, fs[0], now), ApplyFill(b, gs[0], now), fs[1..], gs[1..], now);
    }
  }

  lemma CheckFillOther(f: ExecutedFill, i: Intent)
    ensures CheckFill(OtherFill(f), OtherIntent(i)) == CheckFill(f, i)
  {
  }

  lemma {:induction false} CheckFillsOther(fs: seq<ExecutedFill>, i: Intent)
    ensures CheckFills(Each(OtherFill, fs), OtherIntent(i)) == CheckFills(fs, i)
  {
    if fs != [] {
      CheckFillOther(fs[0], i);
      assert Each(OtherFill, fs)[1..] == Each(OtherFill, fs[1..]);
      CheckFillsOther(fs[1..], i);
    }
  }

  lemma {:induction false} TotalOther(fs: seq<ExecutedFill>)
    ensures TotalContracts(Each(OtherFill, fs)) == TotalContracts(fs)
  {
    if fs != [] {
      var init := fs[..|fs| - 1];
      assert Each(OtherFill, fs)[..|fs| - 1] == Each(OtherFill, init);
      TotalOther(init);
    }
  }

  /** A filler that fills an intent the same way however it is written. */
  ghost predicate IgnoresNotation(filler: Filler) {
    forall i: Intent, obs: Observation :: filler(OtherIntent(i), obs) == Each(OtherFill, filler(i, obs))
  }

  lemma AcceptAlike(a: State, b: State, fs: seq<ExecutedFill>, gs: seq<ExecutedFill>, now: int)
    requires Alike(a, b) && SameFills(fs, gs)
    ensures Alike(Accept(a, fs, now), Accept(b, gs, now))
  {
    ApplyFillsAlike(
      a.(intents := a.intents + 1, filledIntents := a.filledIntents + 1),
      b.(intents := b.intents + 1, filledIntents := b.filledIntents + 1), fs, gs, now);
  }

  lemma FillIntentAlike(a: State, b: State, i: Intent, j: Intent, obs: Observation, filler: Filler)
    requires Alike(a, b) && SameIntent(i, j) && IgnoresNotation(filler)
    ensures AlikeResults(FillIntent(a, i, obs, filler), FillIntent(b, j, obs, filler))
  {
    var fs, gs := filler(i, obs), filler(j, obs);
    IntentIsCheckThenAccept(a, i, obs, filler);
    IntentIsCheckThenAccept(b, j, obs, filler);
    if j != i {
      assert gs == Each(OtherFill, fs);
      CheckFillsOther(fs, i);
      TotalOther(fs);
    }
    assert CheckIntent(j, obs, b.settled) == CheckIntent(i, obs, a.settled);
    AcceptAlike(a, b, fs, gs, obs.ts);
  }

  lemma {:induction false} FillIntentsAlike(a: State, b: State, x: seq<Intent>, y: seq<Intent>, obs: Observation, filler: Filler)
    requires Alike(a, b) && SameIntents(x, y) && IgnoresNotation(filler)
    ensures AlikeResults(FillIntents(a, x, obs, filler), FillIntents(b, y, obs, filler))
    decreases |x|
  {
    if x != [] {
      FillIntentAlike(a, b, x[0], y[0], obs, filler);
      var r, q := FillIntent(a, x[0], obs, filler), FillIntent(b, y[0], obs, filler);
      if r.Ok? {
        FillIntentsAlike(r.value, q.value, x[1..], y[1..], obs, filler);
      }
    }
  }

  lemma {:induction false} SettleDueAlike(a: State, b: State, schedule: seq<Outcome>, now: int)
    requires Alike(a, b)
    ensures Alike(SettleDue(a, schedule, now), SettleDue(b, schedule, now))
    decreases |schedule| - a.next
  {
    if a.next < |schedule| && schedule[a.next].settledAt <= now {
      SettleDueAlike(SettleOne(a, schedule[a.next], now), SettleOne(b, schedule[b.next], now), schedule, now);
    }
  }

  /** Two configurations that differ only in how their strategies write some of their intents. */
  ghost predicate SameButNotation(a: Env, b: Env) {
    && b.schedule == a.schedule && b.start == a.start && b.filler == a.filler && IgnoresNotation(a.filler)
    && forall h: seq<StrategyState> :: SameIntents(a.strategy(h), b.strategy(h))
  }

  lemma AskedAlike(a: State, b: State, obs: Observation, schedule: seq<Outcome>)
    requires Alike(a, b)
    ensures Alike(Asked(a, obs, schedule), Asked(b, obs, schedule))
  {
    SettleDueAlike(a.(clock := Some(obs.ts)), b.(clock := Some(obs.ts)), schedule, obs.ts);
  }

  lemma StepAlike(s: State, t: State, obs: Observation, a: Env, b: Env)
    requires Alike(s, t) && SameButNotation(a, b)
    ensures AlikeResults(Step(s, obs, a), Step(t, obs, b))
  {
    var x, y := Asked(s, obs, a.schedule), Asked(t, obs, b.schedule);
    StepIsAskThenFill(s, obs, a);
    StepIsAskThenFill(t, obs, b);
    AskedAlike(s, t, obs, a.schedule);
    FillIntentsAlike(x, y, a.strategy(x.seen), b.strategy(y.seen), obs, a.filler);
  }

  /**
   Over a whole run: a strategy that writes any of its trades on the other side of
   the market, "sell YES at 1 - q" for "buy NO at q" or back, with a filler that
   ignores the notation, ends with the same book, trades, equity curve, settled
   set and views, or with the same refusal.
   */
  lemma {:induction false} NotationChangesNoRun(obs: seq<Observation>, a: Env, b: Env)
    requires SameButNotation(a, b)
    ensures AlikeResults(Run(obs, a), Run(obs, b))
  {
    if obs != [] {
      var init := obs[..|obs| - 1];
      NotationChangesNoRun(init, a, b);
      if Run(init, a).Ok? {
        StepAlike(Run(init, a).value, Run(init, b).value, obs[|obs| - 1], a, b);
      }
    }
  }
}
