/**
 Look-ahead freedom: what a run has done after its first `k` observations does
 not depend on later observations, nor on any outcome that has not yet settled.
 */
module ReplayLookAhead {
  import opened Prelude
  import opened TextOrder
  import opened Replay

  // ----- the settlement schedule -----

  predicate Before(a: Outcome, b: Outcome) {
    a.settledAt < b.settledAt || (a.settledAt == b.settledAt && StrLt(a.ticker, b.ticker))
  }

  lemma BeforeIsStrictOrder(a: Outcome, b: Outcome, c: Outcome)
    ensures !Before(a, a)
    ensures Before(a, b) && Before(b, c) ==> Before(a, c)
    ensures Before(a, b) ==> !Before(b, a)
    ensures a.ticker != b.ticker ==> Before(a, b) || Before(b, a)
  {
    StrLtIrreflexive(a.ticker);
    if StrLt(a.ticker, b.ticker) && StrLt(b.ticker, c.ticker) {
      StrLtTransitive(a.ticker, b.ticker, c.ticker);
    }
    if StrLt(a.ticker, b.ticker) && StrLt(b.ticker, a.ticker) {
      StrLtTransitive(a.ticker, b.ticker, a.ticker);
    }
    if a.ticker != b.ticker {
      StrLtConnected(a.ticker, b.ticker);
    }
  }

  ghost predicate Ordered(s: seq<Outcome>) {
    forall i, j :: 0 <= i < j < |s| ==> Before(s[i], s[j])
  }

  /** Every outcome is filed under the market it names. */
  ghost predicate KeysMatch(outcomes: map<string, Outcome>) {
    forall t :: t in outcomes ==> outcomes[t].ticker == t
  }

  /** `s` lists exactly the outcomes of the mapping, by `(settledAt, ticker)`. */
  ghost predicate IsSchedule(outcomes: map<string, Outcome>, s: seq<Outcome>) {
    && KeysMatch(outcomes)
    && Ordered(s)
    && forall o :: o in s <==> o.ticker in outcomes && outcomes[o.ticker] == o
  }

  /** `settled` holds the tickers of the first `n` outcomes of the schedule. */
  ghost predicate SettledUpTo(settled: set<string>, schedule: seq<Outcome>, n: nat) {
    n <= |schedule| && forall t :: t in settled <==> exists i :: 0 <= i < n && schedule[i].ticker == t
  }

  lemma OneMoreSettled(settled: set<string>, schedule: seq<Outcome>, n: nat)
    requires SettledUpTo(settled, schedule, n) && n < |schedule|
    ensures SettledUpTo(settled + {schedule[n].ticker}, schedule, n + 1)
  {
  }

  ghost predicate Distinct(schedule: seq<Outcome>) {
    forall i, j :: 0 <= i < j < |schedule| ==> schedule[i].ticker != schedule[j].ticker
  }

  lemma ScheduleTickersDistinct(outcomes: map<string, Outcome>, s: seq<Outcome>)
    requires IsSchedule(outcomes, s)
    ensures Distinct(s)
  {
    forall i, j | 0 <= i < j < |s| ensures s[i].ticker != s[j].ticker {
      assert Before(s[i], s[j]);
      assert s[i] in s && s[j] in s;
      BeforeIsStrictOrder(s[i], s[j], s[j]);
    }
  }

  /** The outcomes a mapping already knows at instant `t`. */
  function KnownBy(outcomes: map<string, Outcome>, t: int): map<string, Outcome> {
    map k | k in outcomes && outcomes[k].settledAt <= t :: outcomes[k]
  }

  /** How many scheduled outcomes are due by `t`. */
  function DueCount(s: seq<Outcome>, t: int): nat {
    if s != [] && s[0].settledAt <= t then 1 + DueCount(s[1..], t) else 0
  }

  lemma {:induction false} DueCountSplits(s: seq<Outcome>, t: int)
    requires Ordered(s)
    ensures DueCount(s, t) <= |s|
    ensures forall i :: 0 <= i < DueCount(s, t) ==> s[i].settledAt <= t
    ensures forall i :: DueCount(s, t) <= i < |s| ==> s[i].settledAt > t
  {
    if s != [] && s[0].settledAt <= t {
      DueCountSplits(s[1..], t);
      assert s == [s[0]] + s[1..];
    } else if s != [] {
      forall i | 0 <= i < |s| ensures s[i].settledAt > t {
        assert i > 0 ==> Before(s[0], s[i]);
      }
    }
  }

  lemma EmptyTogether(a: seq<Outcome>, b: seq<Outcome>)
    requires forall o :: o in a <==> o in b
    ensures a == [] <==> b == []
  {
    if a != [] { assert a[0] in b; }
    if b != [] { assert b[0] in a; }
  }

  /** A set of outcomes has only one ordered listing. */
  lemma {:induction false} OrderedListingUnique(a: seq<Outcome>, b: seq<Outcome>)
    requires Ordered(a) && Ordered(b)
    requires forall o :: o in a <==> o in b
    ensures a == b
  {
    EmptyTogether(a, b);
    if a != [] {
      assert a[0] in b && b[0] in a;
      if a[0] != b[0] {
        var i :| 0 <= i < |b| && b[i] == a[0];
        var j :| 0 <= j < |a| && a[j] == b[0];
        assert Before(b[0], b[i]) && Before(a[0], a[j]);
        BeforeIsStrictOrder(a[0], b[0], a[0]);
        assert false;
      }
      forall o ensures o in a[1..] <==> o in b[1..] {
        TailMembership(a, o);
        TailMembership(b, o);
      }
      OrderedListingUnique(a[1..], b[1..]);
      assert a == [a[0]] + a[1..] && b == [b[0]] + b[1..];
    }
  }

  lemma TailMembership(s: seq<Outcome>, o: Outcome)
    requires Ordered(s) && s != []
    ensures o in s[1..] <==> o in s && o != s[0]
  {
    if o in s[1..] {
      var i :| 0 <= i < |s[1..]| && s[1..][i] == o;
      assert Before(s[0], s[i + 1]);
      BeforeIsStrictOrder(s[0], s[0], s[0]);
    }
    if o in s && o != s[0] {
      var i :| 0 <= i < |s| && s[i] == o;
      assert s[1..][i - 1] == o;
    }
  }

  /** Mappings that know the same outcomes at `t` have the same schedule up to `t`. */
  lemma {:induction false} DuePrefixDetermined(
      outA: map<string, Outcome>, outB: map<string, Outcome>, sA: seq<Outcome>, sB: seq<Outcome>, t: int)
    requires IsSchedule(outA, sA) && IsSchedule(outB, sB)
    requires KnownBy(outA, t) == KnownBy(outB, t)
    ensures DueCount(sA, t) == DueCount(sB, t) <= |sA|
    ensures DueCount(sB, t) <= |sB|
    ensures sA[..DueCount(sA, t)] == sB[..DueCount(sB, t)]
  {
    DueCountSplits(sA, t);
    DueCountSplits(sB, t);
    var a := sA[..DueCount(sA, t)];
    var b := sB[..DueCount(sB, t)];
    forall o ensures o in a <==> o in b {
      DueMembership(outA, sA, t, o);
      DueMembership(outB, sB, t, o);
    }
    OrderedListingUnique(a, b);
    assert |a| == |b|;
  }

  lemma {:induction false} DueMembership(outcomes: map<string, Outcome>, s: seq<Outcome>, t: int, o: Outcome)
    requires IsSchedule(outcomes, s)
    ensures DueCount(s, t) <= |s|
    ensures o in s[..DueCount(s, t)] <==> o.ticker in KnownBy(outcomes, t) && KnownBy(outcomes, t)[o.ticker] == o
  {
    DueCountSplits(s, t);
    var n := DueCount(s, t);
    if o in s[..n] {
      assert o in s;
    }
    if o.ticker in KnownBy(outcomes, t) && KnownBy(outcomes, t)[o.ticker] == o {
      assert o in s;
      var i :| 0 <= i < |s| && s[i] == o;
      assert i < n;
      assert s[..n][i] == o;
    }
  }

  // ----- one step sees only the due prefix -----

  /** Settling up to `now` reads nothing of the schedule beyond what is due by `horizon`. */
  lemma {:induction false} SettleDueReadsDuePrefix(
      st: State, sA: seq<Outcome>, sB: seq<Outcome>, n: nat, now: int)
    requires n <= |sA| && n <= |sB| && sA[..n] == sB[..n] && st.next <= n
    requires forall i :: n <= i < |sA| ==> sA[i].settledAt > now
    requires forall i :: n <= i < |sB| ==> sB[i].settledAt > now
    ensures SettleDue(st, sA, now) == SettleDue(st, sB, now)
    ensures st.next <= SettleDue(st, sA, now).next <= n
    decreases n - st.next
  {
    if st.next < n {
      assert sA[st.next] == sA[..n][st.next] == sB[st.next];
      if sA[st.next].settledAt <= now {
        SettleDueReadsDuePrefix(SettleOne(st, sA[st.next], now), sA, sB, n, now);
      }
    }
  }

  lemma {:induction false} ApplyFillsKeepsSchedule(st: State, fs: seq<ExecutedFill>, now: int)
    ensures ApplyFills(st, fs, now).next == st.next
    ensures ApplyFills(st, fs, now).clock == st.clock
    ensures ApplyFills(st, fs, now).settled == st.settled
    ensures ApplyFills(st, fs, now).curve == st.curve
    ensures ApplyFills(st, fs, now).seen == st.seen
    decreases |fs|
  {
    if fs != [] {
      ApplyFillsKeepsSchedule(ApplyFill(st, fs[0], now), fs[1..], now);
    }
  }

  lemma {:induction false} FillIntentsKeepsSchedule(st: State, wants: seq<Intent>, obs: Observation, filler: Filler)
    requires FillIntents(st, wants, obs, filler).Ok?
    ensures var r := FillIntents(st, wants, obs, filler).value;
            r.next == st.next && r.clock == st.clock && r.settled == st.settled && r.curve == st.curve && r.seen == st.seen
    decreases |wants|
  {
    if wants != [] {
      var fs := filler(wants[0], obs);
      var st' := st.(intents := st.intents + 1);
      ApplyFillsKeepsSchedule(st'.(filledIntents := st.filledIntents + 1), fs, obs.ts);
      FillIntentsKeepsSchedule(FillIntent(st, wants[0], obs, filler).value, wants[1..], obs, filler);
    }
  }

  /** Two configurations that differ only in outcomes settling after `horizon`. */
  ghost predicate AgreeUpTo(a: Env, b: Env, n: nat, horizon: int) {
    && n <= |a.schedule| && n <= |b.schedule| && a.schedule[..n] == b.schedule[..n]
    && (forall i :: n <= i < |a.schedule| ==> a.schedule[i].settledAt > horizon)
    && (forall i :: n <= i < |b.schedule| ==> b.schedule[i].settledAt > horizon)
    && a.strategy == b.strategy && a.filler == b.filler && a.start == b.start
  }

  lemma StepReadsDuePrefix(st: State, obs: Observation, a: Env, b: Env, n: nat, horizon: int)
    requires AgreeUpTo(a, b, n, horizon) && st.next <= n && obs.ts <= horizon
    ensures Step(st, obs, a) == Step(st, obs, b)
    ensures Step(st, obs, a).Ok? ==> Step(st, obs, a).value.next <= n
  {
    var at := st.(clock := Some(obs.ts));
    SettleDueReadsDuePrefix(at, a.schedule, b.schedule, n, obs.ts);
    var due := SettleDue(at, a.schedule, obs.ts);
    var asked := due.(seen := due.seen + [View(due, obs)]);
    if FillIntents(asked, a.strategy(asked.seen), obs, a.filler).Ok? {
      FillIntentsKeepsSchedule(asked, a.strategy(asked.seen), obs, a.filler);
    }
  }

  lemma {:induction false} RunReadsDuePrefix(obs: seq<Observation>, a: Env, b: Env, n: nat, horizon: int)
    requires AgreeUpTo(a, b, n, horizon)
    requires forall o :: o in obs ==> o.ts <= horizon
    ensures Run(obs, a) == Run(obs, b)
    ensures Run(obs, a).Ok? ==> Run(obs, a).value.next <= n
  {
    if obs != [] {
      var init := obs[..|obs| - 1];
      assert forall o :: o in init ==> o in obs;
      RunReadsDuePrefix(init, a, b, n, horizon);
      assert obs[|obs| - 1] in obs;
      if Run(init, a).Ok? {
        StepReadsDuePrefix(Run(init, a).value, obs[|obs| - 1], a, b, n, horizon);
      }
    }
  }

  // ----- what a step leaves alone: the recorded past -----

  /** `a` is what `b` had recorded earlier. */
  ghost predicate Earlier(a: State, b: State) {
    && a.curve <= b.curve && a.trades <= b.trades && a.fills <= b.fills && a.seen <= b.seen
    && a.settled <= b.settled && a.next <= b.next
  }

  lemma {:induction false} SettleDueKeepsPast(st: State, schedule: seq<Outcome>, now: int)
    ensures var r := SettleDue(st, schedule, now);
            Earlier(st, r) && r.curve == st.curve && r.clock == st.clock && r.seen == st.seen && r.fills == st.fills
    decreases |schedule| - st.next
  {
    if st.next < |schedule| && schedule[st.next].settledAt <= now {
      SettleDueKeepsPast(SettleOne(st, schedule[st.next], now), schedule, now);
    }
  }

  lemma {:induction false} ApplyFillsKeepsPast(st: State, fs: seq<ExecutedFill>, now: int)
    ensures Earlier(st, ApplyFills(st, fs, now))
    decreases |fs|
  {
    if fs != [] {
      ApplyFillsKeepsPast(ApplyFill(st, fs[0], now), fs[1..], now);
    }
  }

  lemma {:induction false} FillIntentsKeepsPast(st: State, wants: seq<Intent>, obs: Observation, filler: Filler)
    requires FillIntents(st, wants, obs, filler).Ok?
    ensures Earlier(st, FillIntents(st, wants, obs, filler).value)
    decreases |wants|
  {
    if wants != [] {
      var fs := filler(wants[0], obs);
      var st' := st.(intents := st.intents + 1);
      ApplyFillsKeepsPast(st'.(filledIntents := st.filledIntents + 1), fs, obs.ts);
      FillIntentsKeepsPast(FillIntent(st, wants[0], obs, filler).value, wants[1..], obs, filler);
    }
  }

  lemma StepKeepsPast(st: State, obs: Observation, env: Env)
    requires Step(st, obs, env).Ok?
    ensures Earlier(st, Step(st, obs, env).value)
    ensures |Step(st, obs, env).value.curve| == |st.curve| + 1
    ensures |Step(st, obs, env).value.seen| == |st.seen| + 1
    ensures Step(st, obs, env).value.curve[|st.curve|].0 == obs.ts
    ensures Step(st, obs, env).value.seen[|st.seen|].now == obs.ts && Step(st, obs, env).value.seen[|st.seen|].observation == obs
  {
    var at := st.(clock := Some(obs.ts));
    SettleDueKeepsPast(at, env.schedule, obs.ts);
    var due := SettleDue(at, env.schedule, obs.ts);
    var asked := due.(seen := due.seen + [View(due, obs)]);
    FillIntentsKeepsPast(asked, env.strategy(asked.seen), obs, env.filler);
    FillIntentsKeepsSchedule(asked, env.strategy(asked.seen), obs, env.filler);
  }

  lemma EarlierTransitive(a: State, b: State, c: State)
    requires Earlier(a, b) && Earlier(b, c)
    ensures Earlier(a, c)
  {
  }

  /** The k-th equity point and the k-th view carry the time of `obs`, and the view shows it. */
  ghost predicate StampedWith(st: State, k: nat, obs: Observation) {
    && k < |st.curve| && k < |st.seen|
    && st.curve[k].0 == obs.ts && st.seen[k].now == obs.ts && st.seen[k].observation == obs
  }

  /** One equity point and one strategy call per observation, each at its time. */
  lemma {:induction false} OnePointPerObservation(obs: seq<Observation>, env: Env)
    requires Run(obs, env).Ok?
    ensures |Run(obs, env).value.curve| == |obs| && |Run(obs, env).value.seen| == |obs|
    ensures forall k :: 0 <= k < |obs| ==> StampedWith(Run(obs, env).value, k, obs[k])
  {
    if obs != [] {
      var init := obs[..|obs| - 1];
      OnePointPerObservation(init, env);
      StepKeepsPast(Run(init, env).value, obs[|obs| - 1], env);
      forall k | 0 <= k < |init| ensures StampedWith(Run(obs, env).value, k, obs[k]) {
        assert StampedWith(Run(init, env).value, k, init[k]);
      }
    }
  }

  /** The record after `k` observations is a prefix of the record of the whole run. */
  lemma {:induction false} RunKeepsPast(obs: seq<Observation>, env: Env, k: nat)
    requires k <= |obs| && Run(obs, env).Ok?
    ensures Run(obs[..k], env).Ok?
    ensures Earlier(Run(obs[..k], env).value, Run(obs, env).value)
    ensures |Run(obs[..k], env).value.curve| == k && |Run(obs[..k], env).value.seen| == k
  {
    RunPrefix(obs, env, k);
    OnePointPerObservation(obs[..k], env);
    if k < |obs| {
      var init := obs[..|obs| - 1];
      assert init[..k] == obs[..k];
      RunKeepsPast(init, env, k);
      StepKeepsPast(Run(init, env).value, obs[|obs| - 1], env);
      EarlierTransitive(Run(obs[..k], env).value, Run(init, env).value, Run(obs, env).value);
    } else {
      assert obs[..k] == obs;
    }
  }

  // ----- the hyperproperty -----

  /**
   Two replays that share a strategy and a filler, that agree on the first `k`
   observations and on every outcome known by `horizon`, where no one of those
   observations is later than `horizon`, are in the same state after them: the
   same book, trades, fills, settled set, equity curve and strategy views, or
   the same refusal.
   */
  lemma {:induction false} LookAheadFree(
      obsA: seq<Observation>, obsB: seq<Observation>, outA: map<string, Outcome>, outB: map<string, Outcome>,
      a: Env, b: Env, k: nat, horizon: int)
    requires k <= |obsA| && k <= |obsB| && obsA[..k] == obsB[..k]
    requires forall i :: 0 <= i < k ==> obsA[i].ts <= horizon
    requires IsSchedule(outA, a.schedule) && IsSchedule(outB, b.schedule)
    requires KnownBy(outA, horizon) == KnownBy(outB, horizon)
    requires a.strategy == b.strategy && a.filler == b.filler && a.start == b.start
    ensures Run(obsA[..k], a) == Run(obsB[..k], b)
  {
    DuePrefixDetermined(outA, outB, a.schedule, b.schedule, horizon);
    DueCountSplits(a.schedule, horizon);
    DueCountSplits(b.schedule, horizon);
    RunReadsDuePrefix(obsA[..k], a, b, DueCount(a.schedule, horizon), horizon);
  }

  /** The same for two runs that both go to the end: their reports agree on the shared past. */
  lemma {:induction false} ReportsShareThePast(
      obsA: seq<Observation>, obsB: seq<Observation>, outA: map<string, Outcome>, outB: map<string, Outcome>,
      a: Env, b: Env, k: nat, horizon: int)
    requires k <= |obsA| && k <= |obsB| && obsA[..k] == obsB[..k]
    requires forall i :: 0 <= i < k ==> obsA[i].ts <= horizon
    requires IsSchedule(outA, a.schedule) && IsSchedule(outB, b.schedule)
    requires KnownBy(outA, horizon) == KnownBy(outB, horizon)
    requires a.strategy == b.strategy && a.filler == b.filler && a.start == b.start
    requires Run(obsA, a).Ok? && Run(obsB, b).Ok?
    ensures var x, y := Run(obsA, a).value, Run(obsB, b).value;
            && |x.curve| >= k && |y.curve| >= k && x.curve[..k] == y.curve[..k]
            && |x.seen| >= k && |y.seen| >= k && x.seen[..k] == y.seen[..k]
            && Run(obsA[..k], a).Ok?
            && Earlier(Run(obsA[..k], a).value, x) && Earlier(Run(obsA[..k], a).value, y)
  {
    LookAheadFree(obsA, obsB, outA, outB, a, b, k, horizon);
    RunKeepsPast(obsA, a, k);
    RunKeepsPast(obsB, b, k);
    var p := Run(obsA[..k], a).value;
    assert Earlier(p, Run(obsA, a).value) && Earlier(p, Run(obsB, b).value);
    assert Run(obsA, a).value.curve[..k] == p.curve == Run(obsB, b).value.curve[..k];
    assert Run(obsA, a).value.seen[..k] == p.seen == Run(obsB, b).value.seen[..k];
  }

  // ----- and nothing is recognised late either -----

  /** The first `n` outcomes are exactly those due by `now`. */
  ghost predicate CutAt(schedule: seq<Outcome>, n: nat, now: int) {
    n <= |schedule| && (forall i :: 0 <= i < n ==> schedule[i].settledAt <= now)
    && (n < |schedule| ==> schedule[n].settledAt > now)
  }

  lemma {:induction false} SettleDueSettlesAllDue(st: State, schedule: seq<Outcome>, now: int)
    requires SettledUpTo(st.settled, schedule, st.next)
    requires forall i :: 0 <= i < st.next ==> schedule[i].settledAt <= now
    ensures var r := SettleDue(st, schedule, now); SettledUpTo(r.settled, schedule, r.next) && CutAt(schedule, r.next, now)
    decreases |schedule| - st.next
  {
    if st.next < |schedule| && schedule[st.next].settledAt <= now {
      var st' := SettleOne(st, schedule[st.next], now);
      OneMoreSettled(st.settled, schedule, st.next);
      assert st'.settled == st.settled + {schedule[st.next].ticker};
      SettleDueSettlesAllDue(st', schedule, now);
    }
  }

  /** After a run, exactly the outcomes settled by the last observation are recognised. */
  lemma {:induction false} SettledIsExactlyTheKnown(obs: seq<Observation>, outcomes: map<string, Outcome>, env: Env)
    requires IsSchedule(outcomes, env.schedule)
    requires Run(obs, env).Ok?
    ensures var st := Run(obs, env).value;
            && st.settled == (if obs == [] then {} else KnownBy(outcomes, obs[|obs| - 1].ts).Keys)
            && st.clock == (if obs == [] then None else Some(obs[|obs| - 1].ts))
            && SettledUpTo(st.settled, env.schedule, st.next)
            && (if obs == [] then st.next == 0 else CutAt(env.schedule, st.next, obs[|obs| - 1].ts))
  {
    if obs != [] {
      var init := obs[..|obs| - 1];
      SettledIsExactlyTheKnown(init, outcomes, env);
      StepSettlesTheKnown(Run(init, env).value, obs[|obs| - 1], outcomes, env);
    }
  }

  lemma StepSettlesTheKnown(before: State, last: Observation, outcomes: map<string, Outcome>, env: Env)
    requires IsSchedule(outcomes, env.schedule) && Step(before, last, env).Ok?
    requires SettledUpTo(before.settled, env.schedule, before.next)
    requires before.next > 0 ==> before.clock.Some? && CutAt(env.schedule, before.next, before.clock.value)
    ensures var st := Step(before, last, env).value;
            && st.settled == KnownBy(outcomes, last.ts).Keys && st.clock == Some(last.ts)
            && SettledUpTo(st.settled, env.schedule, st.next) && CutAt(env.schedule, st.next, last.ts)
  {
    var at := before.(clock := Some(last.ts));
    SettleDueSettlesAllDue(at, env.schedule, last.ts);
    SettleDueKeepsPast(at, env.schedule, last.ts);
    var due := SettleDue(at, env.schedule, last.ts);
    var asked := due.(seen := due.seen + [View(due, last)]);
    FillIntentsKeepsSchedule(asked, env.strategy(asked.seen), last, env.filler);
    SettledAreTheKnown(due.settled, outcomes, env.schedule, due.next, last.ts);
  }

  lemma SettledAreTheKnown(settled: set<string>, outcomes: map<string, Outcome>, s: seq<Outcome>, n: nat, now: int)
    requires IsSchedule(outcomes, s) && SettledUpTo(settled, s, n) && CutAt(s, n, now)
    ensures settled == KnownBy(outcomes, now).Keys
  {
    forall t ensures t in settled <==> t in KnownBy(outcomes, now) {
      SettledMeansKnown(outcomes, s, n, now, t);
    }
  }

  lemma ReachedIsKnown(outcomes: map<string, Outcome>, s: seq<Outcome>, n: nat, now: int, i: nat)
    requires IsSchedule(outcomes, s) && CutAt(s, n, now) && i < n
    ensures s[i].ticker in KnownBy(outcomes, now)
  {
    assert s[i] in s;
  }

  lemma KnownIsReached(outcomes: map<string, Outcome>, s: seq<Outcome>, n: nat, now: int, t: string)
    requires IsSchedule(outcomes, s) && CutAt(s, n, now) && t in KnownBy(outcomes, now)
    ensures exists i :: 0 <= i < n && s[i].ticker == t
  {
    assert outcomes[t] in s;
    var i :| 0 <= i < |s| && s[i] == outcomes[t];
    DueIsReached(s, n, now, i);
    assert s[i].ticker == t;
  }

  lemma DueIsReached(s: seq<Outcome>, n: nat, now: int, i: nat)
    requires Ordered(s) && CutAt(s, n, now) && i < |s| && s[i].settledAt <= now
    ensures i < n
  {
    assert n < i ==> Before(s[n], s[i]);
  }

  lemma SettledMeansKnown(outcomes: map<string, Outcome>, s: seq<Outcome>, n: nat, now: int, t: string)
    requires IsSchedule(outcomes, s) && CutAt(s, n, now)
    ensures (exists i :: 0 <= i < n && s[i].ticker == t) <==> t in KnownBy(outcomes, now)
  {
    if i :| 0 <= i < n && s[i].ticker == t {
      ReachedIsKnown(outcomes, s, n, now, i);
    }
    if t in KnownBy(outcomes, now) {
      KnownIsReached(outcomes, s, n, now, t);
    }
  }
}
