/**
 The AIMD token bucket of `backend/app/kalshi/ratelimit.py`: refilled lazily,
 shared by any number of waiters, its rate halved on a 429 and crept back by
 runs of success. Each method body between awaits is one atomic step.
 */
module RateLimit {
  import opened Prelude

  const MIN_RATE_FRACTION: real := 0.02
  const DECREASE_FACTOR: real := 0.5
  const INCREASE_FRACTION: real := 0.05
  const SUCCESSES_PER_INCREASE: nat := 20

  /** The fields of a `Bucket`. */
  datatype Tank = Tank(
    maxRate: real, minRate: real, capacity: real, rate: real, tokens: real, updated: real, successes: nat, throttles: nat)

  function Fresh(ratePerSec: real, capacity: real, now: real): Tank {
    var cap := MaxR(capacity, ratePerSec * 0.1);
    Tank(ratePerSec, MaxR(ratePerSec * MIN_RATE_FRACTION, 0.5), cap, ratePerSec, cap, now, 0, 0)
  }

  /** What accrues over `dt` at `rate`. */
  function Accrued(dt: real, rate: real): real {
    dt * rate
  }

  function Refill(k: Tank, now: real): Tank {
    k.(tokens := MinR(k.capacity, k.tokens + Accrued(now - k.updated, k.rate)), updated := now)
  }

  /** One try of `acquire`: refill, then take `cost` if it is there. */
  function Try(k: Tank, cost: real, now: real): (Tank, bool) {
    var r := Refill(k, now);
    if r.tokens >= cost then (r.(tokens := r.tokens - cost), true) else (r, false)
  }

  function Penalized(k: Tank, seconds: real, now: real): Tank {
    var r := Refill(k, now);
    var rate := MaxR(r.minRate, r.rate * DECREASE_FACTOR);
    r.(rate := rate, tokens := MinR(r.tokens, -Accrued(AbsR(seconds), rate)), successes := 0, throttles := r.throttles + 1)
  }

  function Succeeded(k: Tank, now: real): Tank {
    if k.rate >= k.maxRate then k
    else if k.successes + 1 < SUCCESSES_PER_INCREASE then k.(successes := k.successes + 1)
    else
      var r := Refill(k.(successes := 0), now);
      r.(rate := MinR(r.maxRate, r.rate + r.maxRate * INCREASE_FRACTION))
  }

  // ----- runs: any interleaving of any number of callers -----

  datatype Call = Acquire(cost: real) | Penalize(seconds: real) | Success

  datatype Event = Event(at: real, call: Call)

  function Step(k: Tank, e: Event): Tank {
    match e.call
    case Acquire(cost) => Try(k, cost, e.at).0
    case Penalize(s) => Penalized(k, s, e.at)
    case Success => Succeeded(k, e.at)
  }

  /** Tokens one event consumes: its cost if it is an acquire that succeeds. */
  function Spent(k: Tank, e: Event): real {
    if e.call.Acquire? && Try(k, e.call.cost, e.at).1 then e.call.cost else 0.0
  }

  function RunTank(k: Tank, es: seq<Event>): Tank
    decreases |es|
  {
    if es == [] then k else RunTank(Step(k, es[0]), es[1..])
  }

  function Consumed(k: Tank, es: seq<Event>): real
    decreases |es|
  {
    if es == [] then 0.0 else Spent(k, es[0]) + Consumed(Step(k, es[0]), es[1..])
  }

  /** Times do not go backwards, from `from` on, and nobody asks for a negative amount. */
  ghost predicate Timed(es: seq<Event>, from: real) {
    && (forall i :: 0 <= i < |es| ==> from <= es[i].at && (es[i].call.Acquire? ==> es[i].call.cost >= 0.0))
    && (forall i, j :: 0 <= i < j < |es| ==> es[i].at <= es[j].at)
  }

  lemma TimedTail(es: seq<Event>, from: real)
    requires Timed(es, from) && es != []
    ensures Timed(es[1..], es[0].at) && from <= es[0].at
  {
  }

  // ----- what every bucket keeps -----

  /** The fastest a bucket can ever refill. */
  function Ceiling(k: Tank): real {
    MaxR(k.maxRate, k.minRate)
  }

  ghost predicate Sound(k: Tank) {
    && 0.0 < k.maxRate && k.minRate == MaxR(k.maxRate * MIN_RATE_FRACTION, 0.5)
    && 0.0 < k.rate <= Ceiling(k)
    && k.tokens <= k.capacity && 0.0 < k.capacity && k.successes < SUCCESSES_PER_INCREASE
  }

  lemma FreshIsSound(ratePerSec: real, capacity: real, now: real)
    requires ratePerSec > 0.0
    ensures Sound(Fresh(ratePerSec, capacity, now))
  {
  }

  lemma StepKeepsSound(k: Tank, e: Event)
    requires Sound(k)
    requires e.call.Acquire? ==> e.call.cost >= 0.0
    ensures Sound(Step(k, e))
    ensures Step(k, e).maxRate == k.maxRate && Step(k, e).minRate == k.minRate && Step(k, e).capacity == k.capacity
  {
  }

  lemma StepClock(k: Tank, e: Event)
    requires k.updated <= e.at
    ensures k.updated <= Step(k, e).updated <= e.at
  {
  }

  /** The rate never leaves `[minRate, maxRate]` when the configured rate is at least the half-token floor. */
  lemma {:induction false} RateStaysInBand(k: Tank, es: seq<Event>, from: real)
    requires Sound(k) && k.maxRate >= 0.5 && k.minRate <= k.rate && Timed(es, from)
    ensures var r := RunTank(k, es).rate; k.minRate <= r <= k.maxRate
    decreases |es|
  {
    if es != [] {
      TimedTail(es, from);
      StepKeepsSound(k, es[0]);
      RateStaysInBand(Step(k, es[0]), es[1..], es[0].at);
    }
  }

  /** One 429 raises the rate exactly when the rate stands below the floor. */
  lemma PenaltyRaisesExactlyBelowMin(k: Tank, seconds: real, at: real)
    requires Sound(k)
    ensures Penalized(k, seconds, at).rate > k.rate <==> k.rate < k.minRate
  {
  }

  predicate NeverPenalized(es: seq<Event>) {
    forall i :: 0 <= i < |es| ==> !es[i].call.Penalize?
  }

  /** Configured below the half-token floor, a bucket runs at its configured rate until the first 429 and at the floor ever after. */
  lemma {:induction false} RateBelowFloor(k: Tank, es: seq<Event>)
    requires 0.0 < k.maxRate < 0.5 && k.minRate == 0.5 && (k.rate == k.maxRate || k.rate == 0.5)
    ensures RunTank(k, es).rate == if NeverPenalized(es) then k.rate else 0.5
    ensures RunTank(k, es).minRate == 0.5
    decreases |es|
  {
    if es != [] {
      RateBelowFloor(Step(k, es[0]), es[1..]);
      assert NeverPenalized(es) <==> !es[0].call.Penalize? && NeverPenalized(es[1..]) by {
        assert es == [es[0]] + es[1..];
      }
    }
  }

  /** Over every reachable bucket: a 429 raises its rate exactly when the configured rate is below the floor and it is the first. */
  lemma {:induction false} PenaltyRaisesExactly(
      ratePerSec: real, capacity: real, born: real, before: seq<Event>, seconds: real, at: real)
    requires ratePerSec > 0.0 && Timed(before, born)
    ensures var k := RunTank(Fresh(ratePerSec, capacity, born), before);
            Penalized(k, seconds, at).rate > k.rate <==> ratePerSec < 0.5 && NeverPenalized(before)
  {
    var k := Fresh(ratePerSec, capacity, born);
    FreshIsSound(ratePerSec, capacity, born);
    if ratePerSec < 0.5 {
      RateBelowFloor(k, before);
    } else {
      RateStaysInBand(k, before, born);
      RunKeepsSound(k, before, born);
    }
  }

  // ----- throughput in any window -----

  lemma AccrualMonotone(dt: real, rate: real, ceiling: real)
    requires dt >= 0.0 && rate <= ceiling
    ensures Accrued(dt, rate) <= Accrued(dt, ceiling)
  {
    ProductNonNegative(dt, ceiling - rate);
    assert dt * (ceiling - rate) == dt * ceiling - dt * rate;
  }

  lemma AccrualAdds(a: real, b: real, rate: real)
    ensures Accrued(a + b, rate) == Accrued(a, rate) + Accrued(b, rate)
  {
  }

  /** One event never gains more than what accrues at the ceiling, net of what it spends. */
  lemma StepBudget(k: Tank, e: Event)
    requires Sound(k) && k.updated <= e.at
    requires e.call.Acquire? ==> e.call.cost >= 0.0
    ensures var k' := Step(k, e);
            && k'.tokens + Spent(k, e) <= k.tokens + Accrued(k'.updated - k.updated, Ceiling(k))
            && (Spent(k, e) > 0.0 ==> k'.tokens >= 0.0)
  {
    AccrualMonotone(e.at - k.updated, k.rate, Ceiling(k));
    ProductNonNegative(AbsR(0.0), Ceiling(k));
  }

  lemma Chain(had: real, has: real, spent: real, rest: real, gain: real, later: real)
    requires has + spent <= had + gain && spent >= 0.0 && (spent > 0.0 ==> has >= 0.0)
    requires rest <= MaxR(0.0, has + later) && later >= 0.0
    ensures spent + rest <= MaxR(0.0, had + (gain + later))
  {
  }

  /** One step uses up part of the time to `end`, and no more budget than that part allows. */
  lemma StepSplitsBudget(k: Tank, es: seq<Event>, end: real) returns (gain: real, later: real)
    requires Sound(k) && Timed(es, k.updated) && es != [] && forall i :: 0 <= i < |es| ==> es[i].at <= end
    ensures var k' := Step(k, es[0]);
            && Sound(k') && Ceiling(k') == Ceiling(k) && k'.updated <= end && Timed(es[1..], k'.updated)
            && later == Accrued(end - k'.updated, Ceiling(k')) >= 0.0
            && gain + later == Accrued(end - k.updated, Ceiling(k))
            && k'.tokens + Spent(k, es[0]) <= k.tokens + gain && Spent(k, es[0]) >= 0.0
            && (Spent(k, es[0]) > 0.0 ==> k'.tokens >= 0.0)
  {
    var k' := Step(k, es[0]);
    TimedTail(es, k.updated);
    StepKeepsSound(k, es[0]);
    StepClock(k, es[0]);
    StepBudget(k, es[0]);
    gain, later := Accrued(k'.updated - k.updated, Ceiling(k)), Accrued(end - k'.updated, Ceiling(k));
    AccrualAdds(k'.updated - k.updated, end - k'.updated, Ceiling(k));
    ProductNonNegative(end - k'.updated, Ceiling(k));
  }

  /** Everything consumed by `end` fits in what was there plus what could accrue until then. */
  lemma {:induction false} ConsumedFits(k: Tank, es: seq<Event>, end: real, accrual: real)
    requires Sound(k) && k.updated <= end && Timed(es, k.updated) && forall i :: 0 <= i < |es| ==> es[i].at <= end
    requires accrual == Accrued(end - k.updated, Ceiling(k))
    ensures Consumed(k, es) <= MaxR(0.0, k.tokens + accrual)
    decreases |es|
  {
    if es != [] {
      var gain, later := StepSplitsBudget(k, es, end);
      ConsumedFits(Step(k, es[0]), es[1..], end, later);
      Chain(k.tokens, Step(k, es[0]).tokens, Spent(k, es[0]), Consumed(Step(k, es[0]), es[1..]), gain, later);
    }
  }

  /** Refilling at the instant of an event changes nothing about the event. */
  lemma RefillIsLazy(k: Tank, e: Event)
    requires !e.call.Success?
    requires k.tokens <= k.capacity
    ensures Step(Refill(k, e.at), e) == Step(k, e)
    ensures Spent(Refill(k, e.at), e) == Spent(k, e)
  {
    assert Refill(Refill(k, e.at), e.at) == Refill(k, e.at);
  }

  lemma WiderWindow(start: real, at: real, end: real, ceiling: real)
    requires start <= at <= end && ceiling >= 0.0
    ensures 0.0 <= Accrued(end - at, ceiling) <= Accrued(end - start, ceiling)
  {
    AccrualAdds(at - start, end - at, ceiling);
    ProductNonNegative(at - start, ceiling);
    ProductNonNegative(end - at, ceiling);
  }

  /** From the first event that touches the clock on, a full bucket at most. */
  lemma {:induction false} WindowFromTouch(k: Tank, es: seq<Event>, start: real, end: real)
    requires Sound(k) && start <= k.updated <= end && Timed(es, k.updated) && forall i :: 0 <= i < |es| ==> es[i].at <= end
    ensures Consumed(k, es) <= k.capacity + Accrued(end - start, Ceiling(k))
  {
    ConsumedFits(k, es, end, Accrued(end - k.updated, Ceiling(k)));
    WiderWindow(start, k.updated, end, Ceiling(k));
  }

  /** The bound for a window that opens some time after the bucket was last touched. */
  lemma {:induction false} WindowFits(k: Tank, es: seq<Event>, start: real, end: real)
    requires Sound(k) && k.updated <= start <= end
    requires Timed(es, start) && forall i :: 0 <= i < |es| ==> es[i].at <= end
    ensures Consumed(k, es) <= k.capacity + Accrued(end - start, Ceiling(k))
    decreases |es|
  {
    WiderWindow(start, start, end, Ceiling(k));
    if es != [] {
      var e := es[0];
      TimedTail(es, start);
      StepKeepsSound(k, e);
      if !e.call.Success? {
        RefillIsLazy(k, e);
        WindowFromTouch(Refill(k, e.at), es, start, end);
      } else {
        var k' := Step(k, e);
        if k'.updated == k.updated {
          WindowFits(k', es[1..], start, end);
        } else {
          WindowFromTouch(k', es[1..], start, end);
        }
      }
    }
  }

  lemma {:induction false} RunKeepsSound(k: Tank, es: seq<Event>, from: real)
    requires Sound(k) && Timed(es, from) && k.updated <= from
    ensures var r := RunTank(k, es);
            && Sound(r) && r.capacity == k.capacity && r.maxRate == k.maxRate && r.minRate == k.minRate
            && k.updated <= r.updated <= (if es == [] then from else es[|es| - 1].at)
    decreases |es|
  {
    if es != [] {
      TimedTail(es, from);
      StepKeepsSound(k, es[0]);
      StepClock(k, es[0]);
      RunKeepsSound(Step(k, es[0]), es[1..], es[0].at);
    }
  }

  /** `window` follows `before` in the life of a bucket, and opens at `start` and closes at `end`. */
  ghost predicate InWindow(born: real, before: seq<Event>, window: seq<Event>, start: real, end: real) {
    && Timed(before, born) && born <= start <= end && (forall i :: 0 <= i < |before| ==> before[i].at <= start)
    && Timed(window, start) && forall i :: 0 <= i < |window| ==> window[i].at <= end
  }

  /** What `window` consumes, and the length of it. */
  function Draw(ratePerSec: real, capacity: real, born: real, before: seq<Event>, window: seq<Event>): real {
    Consumed(RunTank(Fresh(ratePerSec, capacity, born), before), window)
  }

  /** The fastest rate a bucket configured with `ratePerSec` can reach. */
  function TopRate(ratePerSec: real): real {
    MaxR(ratePerSec, 0.5)
  }

  /**
   Throughput. Whatever any number of callers did before, and however acquires,
   429s and successes interleave in it, a window of length `end - start`
   consumes at most one full bucket plus what the configured rate, or the
   half-token floor when that is more, allows.
   */
  lemma Throughput(
      ratePerSec: real, capacity: real, born: real, before: seq<Event>, window: seq<Event>, start: real, end: real)
    requires ratePerSec > 0.0 && InWindow(born, before, window, start, end)
    ensures Draw(ratePerSec, capacity, born, before, window)
         <= Fresh(ratePerSec, capacity, born).capacity + Accrued(end - start, TopRate(ratePerSec))
  {
    var k := Fresh(ratePerSec, capacity, born);
    FreshIsSound(ratePerSec, capacity, born);
    RunKeepsSound(k, before, born);
    assert Ceiling(RunTank(k, before)) == TopRate(ratePerSec);
    WindowFits(RunTank(k, before), window, start, end);
  }

  /** Every window of every run keeps to one full bucket plus `limit` per second. */
  ghost predicate KeepsTo(ratePerSec: real, capacity: real, limit: real) {
    forall born: real, before: seq<Event>, window: seq<Event>, start: real, end: real ::
      InWindow(born, before, window, start, end) ==>
        Draw(ratePerSec, capacity, born, before, window)
          <= Fresh(ratePerSec, capacity, born).capacity + Accrued(end - start, limit)
  }

  /** A full bucket drawn twice, the second time as soon as it is full again. */
  function TwoDraws(c: real, at: real, again: real): seq<Event> {
    [Event(at, Acquire(c)), Event(again, Acquire(c))]
  }

  lemma {:induction false} TwoFullDraws(k: Tank, c: real, at: real, again: real)
    requires c == k.capacity > 0.0 && Refill(k, at).tokens == c && Accrued(again - at, k.rate) == c
    ensures Consumed(k, TwoDraws(c, at, again)) == c + c
  {
    var es := TwoDraws(c, at, again);
    var k' := Step(k, es[0]);
    assert k' == Refill(k, at).(tokens := 0.0);
    assert es[1..] == [es[1]] && es[1..][1..] == [];
    assert Refill(k', again).tokens == c;
    assert Consumed(k', es[1..]) == c;
  }

  lemma SlowerAccrues(dt: real, limit: real, rate: real)
    requires dt > 0.0 && limit < rate
    ensures Accrued(dt, limit) < Accrued(dt, rate)
  {
    ProductPositive(dt, rate - limit);
    assert dt * (rate - limit) == dt * rate - dt * limit;
  }

  /** At a configured rate from the floor up, two draws from a fresh bucket need all of that rate. */
  lemma FreshNeedsItsRate(ratePerSec: real, capacity: real, limit: real)
    requires ratePerSec >= 0.5 && limit < ratePerSec
    ensures !KeepsTo(ratePerSec, capacity, limit)
  {
    var k := Fresh(ratePerSec, capacity, 0.0);
    var c := k.capacity;
    var t := c / ratePerSec;
    QuotientTimes(c, ratePerSec);
    DelayPositive(t, ratePerSec, c);
    TwoFullDraws(k, c, 0.0, t);
    SlowerAccrues(t, limit, ratePerSec);
    assert InWindow(0.0, [], TwoDraws(c, 0.0, t), 0.0, t);
    assert Draw(ratePerSec, capacity, 0.0, [], TwoDraws(c, 0.0, t)) == c + c;
  }

  /** Below the floor, one 429 of no seconds sets the bucket refilling at one half. */
  lemma PenaltyNeedsTheFloor(ratePerSec: real, capacity: real, limit: real)
    requires 0.0 < ratePerSec < 0.5 && limit < 0.5
    ensures !KeepsTo(ratePerSec, capacity, limit)
  {
    var c := Fresh(ratePerSec, capacity, 0.0).capacity;
    var before := [Event(0.0, Penalize(0.0))];
    var k := RunTank(Fresh(ratePerSec, capacity, 0.0), before);
    assert before[1..] == [];
    assert k == Penalized(Fresh(ratePerSec, capacity, 0.0), 0.0, 0.0);
    assert k.rate == 0.5 && k.tokens == 0.0 && k.capacity == c && k.updated == 0.0;
    TwoFullDraws(k, c, 2.0 * c, 4.0 * c);
    SlowerAccrues(2.0 * c, limit, 0.5);
    assert InWindow(0.0, before, TwoDraws(c, 2.0 * c, 4.0 * c), 2.0 * c, 4.0 * c);
    assert Draw(ratePerSec, capacity, 0.0, before, TwoDraws(c, 2.0 * c, 4.0 * c)) == c + c;
  }

  /**
   The bound is exact: a rate bounds every window of every run if and only if it
   is at least the top rate. So the configured rate itself does exactly from
   one half up.
   */
  lemma ThroughputExactly(ratePerSec: real, capacity: real, limit: real)
    requires ratePerSec > 0.0
    ensures KeepsTo(ratePerSec, capacity, limit) <==> limit >= TopRate(ratePerSec)
    ensures KeepsTo(ratePerSec, capacity, ratePerSec) <==> ratePerSec >= 0.5
  {
    AtLeastTopKeeps(ratePerSec, capacity, MaxR(limit, TopRate(ratePerSec)));
    AtLeastTopKeeps(ratePerSec, capacity, TopRate(ratePerSec));
    if ratePerSec < 0.5 {
      PenaltyNeedsTheFloor(ratePerSec, capacity, ratePerSec);
    }
    if limit < TopRate(ratePerSec) {
      if ratePerSec < 0.5 {
        PenaltyNeedsTheFloor(ratePerSec, capacity, limit);
      } else {
        FreshNeedsItsRate(ratePerSec, capacity, limit);
      }
    }
  }

  lemma AtLeastTopKeeps(ratePerSec: real, capacity: real, limit: real)
    requires ratePerSec > 0.0 && limit >= TopRate(ratePerSec)
    ensures KeepsTo(ratePerSec, capacity, limit)
  {
    forall born: real, before: seq<Event>, window: seq<Event>, start: real, end: real | InWindow(born, before, window, start, end)
      ensures Draw(ratePerSec, capacity, born, before, window)
        <= Fresh(ratePerSec, capacity, born).capacity + Accrued(end - start, limit)
    {
      Throughput(ratePerSec, capacity, born, before, window, start, end);
      AccrualMonotone(end - start, TopRate(ratePerSec), limit);
    }
  }

  // ----- lazy refill is continuous refill -----

  function RefillEach(k: Tank, times: seq<real>): Tank
    decreases |times|
  {
    if times == [] then k else RefillEach(Refill(k, times[0]), times[1..])
  }

  lemma RefillTwice(k: Tank, a: real, b: real)
    requires k.updated <= a <= b && k.rate >= 0.0
    ensures Refill(Refill(k, a), b) == Refill(k, b)
  {
    AccrualAdds(a - k.updated, b - a, k.rate);
    ProductNonNegative(b - a, k.rate);
  }

  /** Refilling at any number of instants along the way leaves exactly what one late refill leaves. */
  lemma {:induction false} LazyIsContinuous(k: Tank, times: seq<real>, now: real)
    requires k.rate >= 0.0 && k.updated <= now
    requires forall i :: 0 <= i < |times| ==> k.updated <= times[i] <= now
    requires forall i, j :: 0 <= i < j < |times| ==> times[i] <= times[j]
    ensures Refill(RefillEach(k, times), now) == Refill(k, now)
    decreases |times|
  {
    if times != [] {
      LazyIsContinuous(Refill(k, times[0]), times[1..], now);
      RefillTwice(k, times[0], now);
    }
  }

  /** So a waiter that looks too early costs the others nothing: its failed try is only a refill. */
  lemma FailedTryIsOnlyARefill(k: Tank, cost: real, at: real, now: real)
    requires k.updated <= at <= now && k.rate >= 0.0 && !Try(k, cost, at).1
    ensures Refill(Try(k, cost, at).0, now) == Refill(k, now)
  {
    RefillTwice(k, at, now);
  }

  // ----- after a 429 -----

  /** Nothing can be drawn before `until`. */
  ghost predicate Dry(k: Tank, until: real) {
    k.minRate <= k.rate && k.tokens + Accrued(until - k.updated, k.rate) <= 0.0
  }

  lemma PenaltyDries(k: Tank, seconds: real, now: real)
    requires Sound(k) && k.updated <= now
    ensures Dry(Penalized(k, seconds, now), now + AbsR(seconds))
  {
  }

  lemma DryTakesNothing(k: Tank, e: Event, until: real)
    requires Sound(k) && Dry(k, until) && k.updated <= e.at <= until
    requires e.call.Acquire? ==> e.call.cost > 0.0
    requires Step(k, e).rate <= k.rate
    ensures Spent(k, e) == 0.0 && Dry(Step(k, e), until)
  {
    AccrualAdds(e.at - k.updated, until - e.at, k.rate);
    ProductNonNegative(until - e.at, k.rate);
    AccrualMonotone(until - e.at, Step(k, e).rate, k.rate);
  }

  /** The rate is never raised along the run. */
  predicate NeverRaised(k: Tank, es: seq<Event>)
    decreases |es|
  {
    es == [] || (Step(k, es[0]).rate <= k.rate && NeverRaised(Step(k, es[0]), es[1..]))
  }

  lemma {:induction false} DryRunTakesNothing(k: Tank, es: seq<Event>, until: real)
    requires Sound(k) && Dry(k, until) && Timed(es, k.updated) && NeverRaised(k, es)
    requires forall i :: 0 <= i < |es| ==> es[i].at <= until && (es[i].call.Acquire? ==> es[i].call.cost > 0.0)
    ensures Consumed(k, es) == 0.0
    decreases |es|
  {
    if es != [] {
      TimedTail(es, k.updated);
      DryTakesNothing(k, es[0], until);
      StepKeepsSound(k, es[0]);
      StepClock(k, es[0]);
      DryRunTakesNothing(Step(k, es[0]), es[1..], until);
    }
  }

  /** After `penalize(s)` no one draws a token for `s` seconds, further 429s included, unless the rate is raised meanwhile. */
  lemma {:induction false} PenaltyBlackout(k: Tank, seconds: real, now: real, es: seq<Event>)
    requires Sound(k) && k.updated <= now
    requires Timed(es, now) && NeverRaised(Penalized(k, seconds, now), es)
    requires forall i :: 0 <= i < |es| ==>
               es[i].at <= now + AbsR(seconds) && (es[i].call.Acquire? ==> es[i].call.cost > 0.0)
    ensures Consumed(Penalized(k, seconds, now), es) == 0.0
  {
    PenaltyDries(k, seconds, now);
    StepKeepsSound(k, Event(now, Penalize(seconds)));
    DryRunTakesNothing(Penalized(k, seconds, now), es, now + AbsR(seconds));
  }

  // ----- recovery -----

  function SuccessRun(k: Tank, times: seq<real>): Tank
    decreases |times|
  {
    if times == [] then k else SuccessRun(Succeeded(k, times[0]), times[1..])
  }

  /** How many twentieths of the configured rate a run of `n` successes restores. */
  function Raises(successes: nat, n: nat): nat {
    (successes + n) / SUCCESSES_PER_INCREASE
  }

  /** The rate regained by `n` raises. */
  function Regained(maxRate: real, n: nat): real {
    maxRate * INCREASE_FRACTION * (n as real)
  }

  lemma RegainedStep(maxRate: real, n: nat)
    ensures Regained(maxRate, n + 1) == Regained(maxRate, n) + maxRate * INCREASE_FRACTION
    ensures Regained(maxRate, 0) == 0.0
  {
  }

  lemma RaisesStep(successes: nat, n: nat)
    requires successes < SUCCESSES_PER_INCREASE && n > 0
    ensures successes + 1 < SUCCESSES_PER_INCREASE ==> Raises(successes, n) == Raises(successes + 1, n - 1)
    ensures successes + 1 == SUCCESSES_PER_INCREASE ==> Raises(successes, n) == Raises(0, n - 1) + 1
  {
  }

  lemma SucceededSound(k: Tank, now: real)
    requires k.maxRate > 0.0 && k.rate >= 0.0 && k.successes < SUCCESSES_PER_INCREASE
    ensures var k' := Succeeded(k, now);
            && k'.maxRate == k.maxRate && k'.rate >= 0.0
            && k'.successes == (if k.rate >= k.maxRate then k.successes else (k.successes + 1) % SUCCESSES_PER_INCREASE)
            && k'.rate == (if k.rate < k.maxRate && k.successes + 1 == SUCCESSES_PER_INCREASE
                           then MinR(k.maxRate, k.rate + k.maxRate * INCREASE_FRACTION) else k.rate)
  {
  }

  lemma RaiseChain(top: real, was: real, is': real, later: real, regained: real, step: real, end: real)
    requires end == MinR(top, is' + later) && later >= 0.0 && step >= 0.0 && was <= top
    requires (is' == was && (regained == later || (was == top && regained >= 0.0))) || (is' == MinR(top, was + step) && regained == later + step)
    ensures end == MinR(top, was + regained)
  {
  }

  lemma {:induction false} SuccessesRaise(k: Tank, times: seq<real>, regained: real)
    requires k.maxRate > 0.0 && 0.0 <= k.rate <= k.maxRate && k.successes < SUCCESSES_PER_INCREASE
    requires regained == Regained(k.maxRate, Raises(k.successes, |times|))
    ensures SuccessRun(k, times).rate == MinR(k.maxRate, k.rate + regained)
    decreases |times|
  {
    if times == [] {
      RegainedStep(k.maxRate, 0);
    } else {
      var k' := Succeeded(k, times[0]);
      SucceededSound(k, times[0]);
      var n := Raises(k'.successes, |times| - 1);
      var later :| later == Regained(k.maxRate, n);
      SuccessesRaise(k', times[1..], later);
      RaisesStep(k.successes, |times|);
      RegainedStep(k.maxRate, n);
      NeverBelow(k.maxRate, n);
      NeverBelow(k.maxRate, Raises(k.successes, |times|));
      RaiseChain(k.maxRate, k.rate, k'.rate, later, regained, k.maxRate * INCREASE_FRACTION, SuccessRun(k, times).rate);
    }
  }

  lemma NeverBelow(maxRate: real, n: nat)
    requires maxRate > 0.0
    ensures Regained(maxRate, n) >= 0.0
  {
    ProductNonNegative(maxRate * INCREASE_FRACTION, n as real);
  }

  /** Four hundred successes in a row always bring the full rate back, however far it had been cut; a rate above it stays. */
  lemma {:induction false} FourHundredRestore(k: Tank, times: seq<real>)
    requires Sound(k) && |times| >= 400
    ensures SuccessRun(k, times).rate == MaxR(k.maxRate, k.rate)
  {
    if k.rate <= k.maxRate {
      var n := Raises(k.successes, |times|);
      assert n >= 20;
      SuccessesRaise(k, times, Regained(k.maxRate, n));
      TwentyRaises(k.maxRate, n);
    } else {
      SuccessesAboveStay(k, times);
    }
  }

  lemma TwentyRaises(maxRate: real, n: nat)
    requires maxRate > 0.0 && n >= 20
    ensures Regained(maxRate, n) >= maxRate
  {
    ProductNonNegative(maxRate * INCREASE_FRACTION, n as real - 20.0);
  }

  lemma {:induction false} SuccessesAboveStay(k: Tank, times: seq<real>)
    requires k.rate >= k.maxRate
    ensures SuccessRun(k, times) == k
    decreases |times|
  {
    if times != [] {
      SuccessesAboveStay(k, times[1..]);
    }
  }

  // ----- the rate, in numbers -----

  /** `rate` halved `n` times. */
  function Halved(rate: real, n: nat): real
    decreases n
  {
    if n == 0 then rate else Halved(rate / 2.0, n - 1)
  }

  function Doubled(n: nat): (r: real)
    ensures r >= n as real + 1.0
  {
    if n == 0 then 1.0 else 2.0 * Doubled(n - 1)
  }

  lemma {:induction false} HalvedTimesDoubled(rate: real, n: nat)
    ensures Halved(rate, n) * Doubled(n) == rate
    decreases n
  {
    if n > 0 {
      HalvedTimesDoubled(rate / 2.0, n - 1);
      TwiceTimes(Halved(rate, n), Doubled(n - 1), rate / 2.0);
    }
  }

  lemma TwiceTimes(x: real, y: real, product: real)
    requires x * y == product
    ensures x * (2.0 * y) == 2.0 * product
  {
  }

  lemma {:induction false} HalvedBelow(rate: real, floor: real, n: nat)
    requires rate <= floor && floor >= 0.0
    ensures Halved(rate, n) <= floor
    decreases n
  {
    if n > 0 {
      HalvedBelow(rate / 2.0, floor, n - 1);
    }
  }

  predicate OnlyPenalties(es: seq<Event>) {
    forall i :: 0 <= i < |es| ==> es[i].call.Penalize?
  }

  /** One 429 halves the rate, down to the floor. */
  lemma PenaltyHalves(k: Tank, seconds: real, at: real)
    ensures Penalized(k, seconds, at).rate == MaxR(k.minRate, k.rate / 2.0)
  {
  }

  /** n 429s in a row, whenever they come, halve it n times, down to the floor. */
  lemma {:induction false} PenaltiesHalve(k: Tank, es: seq<Event>)
    requires OnlyPenalties(es) && 0.0 <= k.minRate && (es != [] || k.minRate <= k.rate)
    ensures RunTank(k, es).rate == MaxR(k.minRate, Halved(k.rate, |es|))
    ensures RunTank(k, es).minRate == k.minRate && RunTank(k, es).maxRate == k.maxRate
    ensures RunTank(k, es).successes == if es == [] then k.successes else 0
    ensures RunTank(k, es).throttles == k.throttles + |es|
    decreases |es|
  {
    if es != [] {
      var k' := Step(k, es[0]);
      PenaltyHalves(k, es[0].call.seconds, es[0].at);
      PenaltiesHalve(k', es[1..]);
      HalvedBelow(k.minRate, k.minRate, |es| - 1);
      if k.rate / 2.0 <= k.minRate {
        HalvedBelow(k.rate / 2.0, k.minRate, |es| - 1);
      }
    }
  }

  /** Halving often enough goes below any floor. */
  lemma HalvedEnough(rate: real, floor: real) returns (n: nat)
    requires floor > 0.0
    ensures forall m: nat :: m >= n ==> Halved(rate, m) <= floor
  {
    QuotientTimes(rate, floor);
    var ratio :| ratio == rate / floor && ratio * floor == rate;
    n := if ratio <= 0.0 then 0 else ratio.Floor + 1;
    forall m: nat | m >= n ensures Halved(rate, m) <= floor {
      HalvedTimesDoubled(rate, m);
      SmallFactor(Halved(rate, m), Doubled(m), ratio, floor);
    }
  }

  lemma SmallFactor(x: real, w: real, ratio: real, floor: real)
    requires x * w == ratio * floor && ratio <= w && w > 0.0 && floor > 0.0
    ensures x <= floor
  {
    ProductMonotone(ratio, w, floor);
    if x > floor {
      ProductPositive(x - floor, w);
      Distribute(x, floor, w);
      assert false;
    }
  }

  /** However fast a bucket runs, enough 429s bring it to its floor. */
  lemma EnoughPenalties(k: Tank) returns (n: nat)
    requires k.minRate > 0.0
    ensures forall es :: OnlyPenalties(es) && |es| >= n && es != [] ==> RunTank(k, es).rate == k.minRate
  {
    n := HalvedEnough(k.rate, k.minRate);
    forall es | OnlyPenalties(es) && |es| >= n && es != [] ensures RunTank(k, es).rate == k.minRate {
      PenaltiesHalve(k, es);
    }
  }

  /** `n` twentieths. */
  function Twentieths(rate: real, n: nat): real {
    rate / 20.0 * n as real
  }

  lemma RegainedInTwentieths(maxRate: real, n: nat)
    ensures Regained(maxRate, n) == Twentieths(maxRate, n)
  {
  }

  /** Every twenty successes in a row give back a twentieth of the configured rate, up to all of it. */
  lemma {:induction false} SuccessesCreep(k: Tank, times: seq<real>)
    requires k.maxRate > 0.0 && 0.0 <= k.rate <= k.maxRate && k.successes < 20
    ensures SuccessRun(k, times).rate == MinR(k.maxRate, k.rate + Twentieths(k.maxRate, (k.successes + |times|) / 20))
  {
    var n := Raises(k.successes, |times|);
    RegainedInTwentieths(k.maxRate, n);
    SuccessesRaise(k, times, Regained(k.maxRate, n));
  }

  /** The rate `halvings` 429s leave: halved each time, but no less than a fiftieth of what is configured, nor than one half. */
  function Cut(ratePerSec: real, halvings: nat): real {
    MaxR(MaxR(ratePerSec / 50.0, 0.5), Halved(ratePerSec, halvings))
  }

  /**
   The cycle. From a new bucket, 429s cut the rate geometrically and successes
   then restore it arithmetically: the two laws of the class, in numbers.
   */
  lemma {:induction false} HalveThenCreep(ratePerSec: real, capacity: real, born: real, es: seq<Event>, times: seq<real>)
    requires ratePerSec >= 0.5 && OnlyPenalties(es)
    ensures var k := RunTank(Fresh(ratePerSec, capacity, born), es);
            && k.rate == Cut(ratePerSec, |es|) && k.throttles == |es|
            && SuccessRun(k, times).rate == MinR(ratePerSec, Cut(ratePerSec, |es|) + Twentieths(ratePerSec, |times| / 20))
  {
    var full := Fresh(ratePerSec, capacity, born);
    PenaltiesHalve(full, es);
    HalvedBelow(ratePerSec, ratePerSec, |es|);
    SuccessesCreep(RunTank(full, es), times);
  }

  /** A new bucket serves at once exactly what fits its capacity or a tenth of a second's worth. */
  lemma FreshServes(ratePerSec: real, capacity: real, born: real, cost: real)
    requires ratePerSec > 0.0
    ensures Try(Fresh(ratePerSec, capacity, born), cost, born).1 <==> cost <= capacity || cost <= ratePerSec / 10.0
  {
  }

  /** The blackout of a 429 is no longer than asked: a bucket not deeper in debt is exactly empty when it ends. */
  lemma BlackoutEndsExactly(k: Tank, seconds: real, now: real)
    requires Sound(k)
    ensures var p := Penalized(k, seconds, now);
            && Refill(p, now + AbsR(seconds)).tokens == MinR(0.0, Refill(k, now).tokens + Accrued(AbsR(seconds), p.rate))
            && p.throttles == k.throttles + 1 && p.successes == 0
  {
    AccrualAdds(AbsR(seconds), -AbsR(seconds), Penalized(k, seconds, now).rate);
  }

  // ----- the wait -----

  /** The delay `acquire` sleeps is exactly long enough: alone, the next try succeeds and leaves nothing over. */
  lemma DelayIsExact(k: Tank, cost: real, now: real)
    requires Sound(k) && k.updated <= now && 0.0 <= cost <= k.capacity && !Try(k, cost, now).1
    ensures var r := Try(k, cost, now).0;
            var delay := (cost - r.tokens) / r.rate;
            && delay > 0.0
            && Try(r, cost, now + delay).1 && Try(r, cost, now + delay).0.tokens == 0.0
  {
    var r := Try(k, cost, now).0;
    var deficit := cost - r.tokens;
    QuotientTimes(deficit, r.rate);
    var delay :| delay == deficit / r.rate && Accrued(delay, r.rate) == deficit;
    DelayPositive(delay, r.rate, deficit);
  }

  lemma DelayPositive(delay: real, rate: real, deficit: real)
    requires rate > 0.0 && deficit > 0.0 && Accrued(delay, rate) == deficit
    ensures delay > 0.0
  {
    if delay <= 0.0 {
      ProductNonNegative(-delay, rate);
      assert false;
    }
  }

  /** How long a caller with no competition waits. */
  function Wait(k: Tank, cost: real, now: real): real
    requires k.rate != 0.0
  {
    if Try(k, cost, now).1 then 0.0 else (cost - Refill(k, now).tokens) / k.rate
  }

  /** It is the least wait: a later try succeeds and an earlier one does not. */
  lemma WaitIsLeast(k: Tank, cost: real, now: real, w: real)
    requires Sound(k) && k.updated <= now && 0.0 <= cost <= k.capacity && w >= 0.0
    ensures Try(k, cost, now + w).1 <==> w >= Wait(k, cost, now)
  {
    RefillTwice(k, now, now + w);
    var r := Refill(k, now);
    if r.tokens >= cost {
      ProductNonNegative(w, k.rate);
    } else {
      var wait :| wait == (cost - r.tokens) / k.rate;
      QuotientTimes(cost - r.tokens, k.rate);
      WaitAccrues(w, wait, k.rate, cost - r.tokens);
    }
  }

  lemma WaitAccrues(w: real, wait: real, rate: real, deficit: real)
    requires rate > 0.0 && Accrued(wait, rate) == deficit
    ensures Accrued(w, rate) >= deficit <==> w >= wait
  {
    if w >= wait {
      ProductNonNegative(w - wait, rate);
    } else {
      ProductPositive(wait - w, rate);
    }
    AccrualAdds(w - wait, wait, rate);
    AccrualAdds(wait - w, w, rate);
  }

  // ----- the class -----

  class Bucket {
    const maxRate: real
    const minRate: real
    const capacity: real
    var rate: real
    var tokens: real
    var updated: real
    var successes: nat
    var throttleEvents: nat

    /** A non-positive rate is refused by the source; here it is not constructible. */
    constructor (ratePerSec: real, capacity: real, now: real)
      requires ratePerSec > 0.0
      ensures State() == Fresh(ratePerSec, capacity, now)
    {
      this.maxRate := ratePerSec;
      this.minRate := MaxR(ratePerSec * MIN_RATE_FRACTION, 0.5);
      var cap := MaxR(capacity, ratePerSec * 0.1);
      this.capacity := cap;
      rate, tokens, updated, successes, throttleEvents := ratePerSec, cap, now, 0, 0;
    }

    function State(): Tank
      reads this
    {
      Tank(maxRate, minRate, capacity, rate, tokens, updated, successes, throttleEvents)
    }

    method RefillTo(now: real)
      modifies this
      ensures State() == Refill(old(State()), now)
    {
      tokens := MinR(capacity, tokens + (now - updated) * rate);
      updated := now;
    }

    /** One pass of the `acquire` loop under the lock: either the tokens are taken, or the delay to sleep is returned. */
    method TryAcquire(cost: real, now: real) returns (r: Result<bool, string>, delay: real)
      requires State().rate > 0.0
      modifies this
      ensures cost > capacity <==> r.Err?
      ensures r.Err? ==> State() == old(State())
      ensures r.Ok? ==> (State(), r.value) == Try(old(State()), cost, now)
      ensures r == Ok(false) ==> delay == (cost - tokens) / rate
    {
      delay := 0.0;
      if cost > capacity {
        return Err("could never be satisfied"), delay;
      }
      RefillTo(now);
      if tokens >= cost {
        tokens := tokens - cost;
        return Ok(true), delay;
      }
      delay := (cost - tokens) / rate;
      return Ok(false), delay;
    }

    /** The whole `acquire` loop for a caller with no competition: it sleeps at most once, exactly `Wait`. */
    method AcquireAlone(cost: real, now: real) returns (r: Result<real, string>)
      requires Sound(State()) && updated <= now && cost >= 0.0
      modifies this
      ensures cost > capacity <==> r.Err?
      ensures r.Ok? ==> r.value == Wait(old(State()), cost, now) >= 0.0
      ensures r.Ok? ==> Try(old(State()), cost, now + r.value) == (State(), true)
    {
      if cost > capacity {
        return Err("could never be satisfied");
      }
      ghost var k := State();
      var waited := 0.0;
      while true
        invariant Sound(State()) && updated <= now + waited && rate == k.rate
        invariant waited == 0.0 || waited == Wait(k, cost, now)
        invariant waited == 0.0 ==> State() == k
        invariant waited >= 0.0 && Try(State(), cost, now + waited) == Try(k, cost, now + waited)
        invariant waited != 0.0 ==> Try(State(), cost, now + waited).1
        decreases waited == 0.0
      {
        var got, delay := TryAcquire(cost, now + waited);
        if got == Ok(true) {
          return Ok(waited);
        }
        DelayIsExact(k, cost, now);
        RefillTwice(k, now, now + delay);
        waited := waited + delay;
      }
    }

    method PenalizeFor(seconds: real, now: real)
      modifies this
      ensures State() == Penalized(old(State()), seconds, now)
    {
      RefillTo(now);
      rate := MaxR(minRate, rate * DECREASE_FACTOR);
      tokens := MinR(tokens, -AbsR(seconds) * rate);
      successes := 0;
      throttleEvents := throttleEvents + 1;
    }

    method RecordSuccess(now: real)
      modifies this
      ensures State() == Succeeded(old(State()), now)
    {
      if rate >= maxRate {
        return;
      }
      successes := successes + 1;
      if successes < SUCCESSES_PER_INCREASE {
        return;
      }
      successes := 0;
      RefillTo(now);
      rate := MinR(maxRate, rate + maxRate * INCREASE_FRACTION);
    }
  }
}
