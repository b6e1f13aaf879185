/**
 Candles built from the tape (`CandleBuilder` in `backend/app/ingest/streams.py`):
 open buckets updated in place, taken away when their period has elapsed.
 */
module Candles {
  import opened Prelude
  import opened Sums

  /** `ts` in microseconds since the epoch. */
  datatype Trade = Trade(ticker: string, ts: int, price: real, count: real)

  /** A market and the first second of a bucket. */
  type Key = (string, int)

  datatype Candle = Candle(
    ticker: string, ts: int, period: int, open: real, high: real, low: real, close: real, volume: real, trades: int)

  /** Whole seconds, truncated toward zero as `int()` does. */
  function Seconds(us: int): int {
    if us >= 0 then us / 1_000_000 else -((-us) / 1_000_000)
  }

  function Bucket(us: int, period: int): int
    requires period > 0
  {
    Seconds(us) - Seconds(us) % period
  }

  /** A bucket starts on a multiple of the period and covers its own second. */
  lemma BucketCovers(us: int, period: int)
    requires period > 0
    ensures Bucket(us, period) == period * (Seconds(us) / period)
    ensures Bucket(us, period) <= Seconds(us) < Bucket(us, period) + period
  {
  }

  /** `start` opens a bucket whose seconds include the one `us` falls in; before the epoch a second is rounded up to. */
  predicate Includes(start: int, period: int, us: int)
    requires period > 0
  {
    && start % period == 0
    && if us >= 0 then start * 1_000_000 <= us < (start + period) * 1_000_000
       else (start - 1) * 1_000_000 < us <= (start + period - 1) * 1_000_000
  }

  /** There is exactly one such bucket, and it is the one chosen. */
  lemma BucketIncludes(us: int, period: int, start: int)
    requires period > 0
    ensures Includes(start, period, us) <==> start == Bucket(us, period)
  {
    var b := Bucket(us, period);
    BucketCovers(us, period);
    SecondsRound(us);
    SameMultiple(period, b / period, Seconds(us) / period, b % period);
    if start % period == 0 {
      ApartOrSame(start, b, period);
      ApartOrSame(b, start, period);
    }
  }

  lemma SecondsRound(us: int)
    ensures us >= 0 ==> Seconds(us) * 1_000_000 <= us < (Seconds(us) + 1) * 1_000_000
    ensures us < 0 ==> (Seconds(us) - 1) * 1_000_000 < us <= Seconds(us) * 1_000_000
  {
  }

  lemma {:induction false} Multiples(m: int, q: int, period: int)
    requires m < q && period > 0
    ensures period * m + period <= period * q
    decreases q - m
  {
    assert period * q == period * (q - 1) + period;
    if m < q - 1 {
      Multiples(m, q - 1, period);
    }
  }

  lemma SameMultiple(period: int, a: int, b: int, r: int)
    requires period > 0 && 0 <= r < period && period * a + r == period * b
    ensures r == 0
  {
    if a < b {
      Multiples(a, b, period);
    } else if b < a {
      Multiples(b, a, period);
    }
  }

  /** Two starts of buckets are the same, or a period apart. */
  lemma ApartOrSame(a: int, b: int, period: int)
    requires period > 0 && a % period == 0 && b % period == 0
    ensures a < b ==> a + period <= b
  {
    var m, q := a / period, b / period;
    assert a == period * m && b == period * q;
    if m < q {
      Multiples(m, q, period);
    } else if q < m {
      Multiples(q, m, period);
    }
  }

  lemma SecondsRise(a: int, b: int)
    requires a <= b
    ensures Seconds(a) <= Seconds(b)
  {
    SecondsRound(a);
    SecondsRound(b);
  }

  /** Later instants fall in no earlier bucket. */
  lemma BucketRises(a: int, b: int, period: int)
    requires period > 0 && a <= b
    ensures Bucket(a, period) <= Bucket(b, period)
  {
    SecondsRise(a, b);
    BucketCovers(a, period);
    BucketCovers(b, period);
    BucketIncludes(a, period, Bucket(a, period));
    BucketIncludes(b, period, Bucket(b, period));
    ApartOrSame(Bucket(b, period), Bucket(a, period), period);
  }

  function KeyOf(t: Trade, period: int): Key
    requires period > 0
  {
    (t.ticker, Bucket(t.ts, period))
  }

  function Opened(k: Key, period: int, price: real, count: real): Candle {
    Candle(k.0, k.1, period, price, price, price, price, count, 1)
  }

  function Updated(c: Candle, price: real, count: real): Candle {
    c.(high := MaxR(c.high, price), low := MinR(c.low, price), close := price, volume := c.volume + count, trades := c.trades + 1)
  }

  datatype Op = Add(trade: Trade) | TakeClosed(now: int) | TakeAll

  type Open = map<Key, Candle>

  function AfterAdd(m: Open, t: Trade, period: int): Open
    requires period > 0
  {
    var k := KeyOf(t, period);
    m[k := if k in m then Updated(m[k], t.price, t.count) else Opened(k, period, t.price, t.count)]
  }

  /** Whether an operation takes bucket `k` away. */
  predicate Takes(op: Op, k: Key, period: int)
    requires period > 0
  {
    match op
    case Add(_) => false
    case TakeClosed(now) => k.1 < Bucket(now, period)
    case TakeAll => true
  }

  function Taken(m: Open, op: Op, period: int): Open
    requires period > 0
  {
    map k | k in m && Takes(op, k, period) :: m[k]
  }

  function Kept(m: Open, op: Op, period: int): Open
    requires period > 0
  {
    map k | k in m && !Takes(op, k, period) :: m[k]
  }

  function After(m: Open, op: Op, period: int): Open
    requires period > 0
  {
    if op.Add? then AfterAdd(m, op.trade, period) else Kept(m, op, period)
  }

  /** The buckets still open after `ops`. */
  function OpenAfter(ops: seq<Op>, period: int): Open
    requires period > 0
  {
    if ops == [] then map[] else After(OpenAfter(ops[..|ops| - 1], period), ops[|ops| - 1], period)
  }

  /** What each operation emitted, one batch per operation. */
  function Emitted(ops: seq<Op>, period: int): (r: seq<Open>)
    requires period > 0
    ensures |r| == |ops|
  {
    if ops == [] then []
    else
      var init := ops[..|ops| - 1];
      Emitted(init, period) + [Taken(OpenAfter(init, period), ops[|ops| - 1], period)]
  }

  // ----- the reference: group the tape, then fold -----

  /** The trades of bucket `k`, in order. */
  function TradesOf(ops: seq<Op>, k: Key, period: int): seq<Trade>
    requires period > 0
  {
    if ops == [] then []
    else
      var op := ops[|ops| - 1];
      TradesOf(ops[..|ops| - 1], k, period) + if op.Add? && KeyOf(op.trade, period) == k then [op.trade] else []
  }

  /** Those of them that came after the bucket was last taken. */
  function Pending(ops: seq<Op>, k: Key, period: int): seq<Trade>
    requires period > 0
  {
    if ops == [] then []
    else
      var op := ops[|ops| - 1];
      if Takes(op, k, period) then []
      else Pending(ops[..|ops| - 1], k, period) + if op.Add? && KeyOf(op.trade, period) == k then [op.trade] else []
  }

  function Counts(ts: seq<Trade>): (r: seq<real>)
    ensures |r| == |ts| && forall i :: 0 <= i < |ts| ==> r[i] == ts[i].count
  {
    seq(|ts|, i requires 0 <= i < |ts| => ts[i].count)
  }

  /** `c` is the first, highest, lowest and last price, the volume and the count of `ts`. */
  ghost predicate Summarises(c: Candle, k: Key, ts: seq<Trade>, period: int) {
    && ts != [] && c.ticker == k.0 && c.ts == k.1 && c.period == period
    && c.open == ts[0].price && c.close == ts[|ts| - 1].price
    && (forall i :: 0 <= i < |ts| ==> c.low <= ts[i].price <= c.high)
    && (exists i :: 0 <= i < |ts| && ts[i].price == c.high)
    && (exists i :: 0 <= i < |ts| && ts[i].price == c.low)
    && c.volume == Sum(Counts(ts)) && c.trades == |ts|
  }

  lemma CountsAppend(ts: seq<Trade>, t: Trade)
    ensures Sum(Counts(ts + [t])) == Sum(Counts(ts)) + t.count
  {
    assert Counts(ts + [t]) == Counts(ts) + [t.count];
    SumAppend(Counts(ts), t.count);
  }

  lemma UpdateSummarises(c: Candle, k: Key, ts: seq<Trade>, t: Trade, period: int)
    requires Summarises(c, k, ts, period)
    ensures Summarises(Updated(c, t.price, t.count), k, ts + [t], period)
  {
    var all := ts + [t];
    CountsAppend(ts, t);
    var hi :| 0 <= hi < |ts| && ts[hi].price == c.high;
    var lo :| 0 <= lo < |ts| && ts[lo].price == c.low;
    assert all[hi].price == c.high && all[lo].price == c.low && all[|ts|] == t;
  }

  lemma OpenedSummarises(k: Key, t: Trade, period: int)
    ensures Summarises(Opened(k, period, t.price, t.count), k, [t], period)
  {
    CountsAppend([], t);
    assert [] + [t] == [t];
  }

  /** The in-place buckets are exactly the fold of the trades waiting in each. */
  lemma {:induction false} OpenIsFold(ops: seq<Op>, k: Key, period: int)
    requires period > 0
    ensures k in OpenAfter(ops, period) <==> Pending(ops, k, period) != []
    ensures k in OpenAfter(ops, period) ==> Summarises(OpenAfter(ops, period)[k], k, Pending(ops, k, period), period)
  {
    if ops != [] {
      var init, op := ops[..|ops| - 1], ops[|ops| - 1];
      OpenIsFold(init, k, period);
      if op.Add? && KeyOf(op.trade, period) == k {
        if k in OpenAfter(init, period) {
          UpdateSummarises(OpenAfter(init, period)[k], k, Pending(init, k, period), op.trade, period);
        } else {
          OpenedSummarises(k, op.trade, period);
          assert [] + [op.trade] == [op.trade];
        }
      } else if !Takes(op, k, period) {
        assert Pending(ops, k, period) == Pending(init, k, period);
      }
    }
  }

  lemma {:induction false} EmittedAt(ops: seq<Op>, i: nat, period: int)
    requires period > 0 && i < |ops|
    ensures Emitted(ops, period)[i] == Taken(OpenAfter(ops[..i], period), ops[i], period)
  {
    var init := ops[..|ops| - 1];
    if i < |init| {
      EmittedAt(init, i, period);
      assert init[..i] == ops[..i];
    } else {
      assert ops[..i] == init;
    }
  }

  /** Every candle ever emitted is the fold of the trades that were waiting for it. */
  lemma {:induction false} EmittedIsFold(ops: seq<Op>, i: nat, k: Key, period: int)
    requires period > 0 && i < |ops|
    ensures k in Emitted(ops, period)[i] <==> Takes(ops[i], k, period) && Pending(ops[..i], k, period) != []
    ensures k in Emitted(ops, period)[i] ==> Summarises(Emitted(ops, period)[i][k], k, Pending(ops[..i], k, period), period)
  {
    EmittedAt(ops, i, period);
    OpenIsFold(ops[..i], k, period);
  }

  // ----- conservation, bucket by bucket -----

  function VolumeIn(m: Open, k: Key): real {
    if k in m then m[k].volume else 0.0
  }

  function TradesIn(m: Open, k: Key): int {
    if k in m then m[k].trades else 0
  }

  function VolumeEmitted(batches: seq<Open>, k: Key): real {
    if batches == [] then 0.0
    else VolumeEmitted(batches[..|batches| - 1], k) + VolumeIn(batches[|batches| - 1], k)
  }

  function TradesEmitted(batches: seq<Open>, k: Key): int {
    if batches == [] then 0
    else TradesEmitted(batches[..|batches| - 1], k) + TradesIn(batches[|batches| - 1], k)
  }

  /** Volume and trade counts are never lost or doubled: in equals out plus still open, over any interleaving. */
  lemma {:induction false} NothingLost(ops: seq<Op>, k: Key, period: int)
    requires period > 0
    ensures Sum(Counts(TradesOf(ops, k, period)))
         == VolumeEmitted(Emitted(ops, period), k) + VolumeIn(OpenAfter(ops, period), k)
    ensures |TradesOf(ops, k, period)|
         == TradesEmitted(Emitted(ops, period), k) + TradesIn(OpenAfter(ops, period), k)
  {
    if ops != [] {
      var init, op := ops[..|ops| - 1], ops[|ops| - 1];
      NothingLost(init, k, period);
      var batch := Taken(OpenAfter(init, period), op, period);
      assert Emitted(ops, period)[..|init|] == Emitted(init, period);
      if op.Add? && KeyOf(op.trade, period) == k {
        CountsAppend(TradesOf(init, k, period), op.trade);
      } else {
        assert TradesOf(ops, k, period) == TradesOf(init, k, period);
      }
    }
  }

  // ----- once per bucket, when nothing arrives late -----

  predicate Adds(op: Op, k: Key, period: int)
    requires period > 0
  {
    op.Add? && KeyOf(op.trade, period) == k
  }

  /** No trade arrives for a bucket after it was emitted. */
  ghost predicate NeverLate(ops: seq<Op>, k: Key, period: int)
    requires period > 0
  {
    forall i, j :: 0 <= i < j < |ops| && k in Emitted(ops, period)[i] ==> !Adds(ops[j], k, period)
  }

  lemma {:induction false} PrefixNext(ops: seq<Op>, n: nat, k: Key, period: int)
    requires period > 0 && n < |ops|
    ensures var more := if Adds(ops[n], k, period) then [ops[n].trade] else [];
            && TradesOf(ops[..n + 1], k, period) == TradesOf(ops[..n], k, period) + more
            && Pending(ops[..n + 1], k, period) == if Takes(ops[n], k, period) then [] else Pending(ops[..n], k, period) + more
  {
    assert ops[..n + 1][..n] == ops[..n];
  }

  /** While a bucket has not been emitted, all its trades are pending. */
  lemma {:induction false} PendingIsAll(ops: seq<Op>, n: nat, k: Key, period: int)
    requires period > 0 && n <= |ops| && forall i :: 0 <= i < n ==> k !in Emitted(ops, period)[i]
    ensures Pending(ops[..n], k, period) == TradesOf(ops[..n], k, period)
    decreases n
  {
    if n > 0 {
      PendingIsAll(ops, n - 1, k, period);
      PrefixNext(ops, n - 1, k, period);
      EmittedIsFold(ops, n - 1, k, period);
    }
  }

  /** After a bucket was emitted, nothing of it is pending and nothing is added to it. */
  lemma {:induction false} NothingAfter(ops: seq<Op>, i: nat, n: nat, k: Key, period: int)
    requires period > 0 && i < n <= |ops| && Takes(ops[i], k, period)
    requires forall j :: i < j < n ==> !Adds(ops[j], k, period)
    ensures Pending(ops[..n], k, period) == []
    ensures TradesOf(ops[..n], k, period) == TradesOf(ops[..i], k, period)
    decreases n
  {
    var m := n - 1;
    PrefixNext(ops, m, k, period);
    assert !Adds(ops[m], k, period);
    assert TradesOf(ops[..m], k, period) + [] == TradesOf(ops[..m], k, period);
    if i < m {
      NothingAfter(ops, i, m, k, period);
    }
  }

  lemma {:induction false} EmittedFirst(ops: seq<Op>, i: nat, j: nat, k: Key, period: int)
    requires period > 0 && NeverLate(ops, k, period) && i < |ops| && j < |ops|
    requires k in Emitted(ops, period)[i] && k in Emitted(ops, period)[j]
    ensures i == j
  {
    EmittedIsFold(ops, i, k, period);
    EmittedIsFold(ops, j, k, period);
    if i < j {
      NothingAfter(ops, i, j, k, period);
    } else if j < i {
      NothingAfter(ops, j, i, k, period);
    }
  }

  /**
   With no trade after its emission a bucket is emitted at most once, and what is
   emitted is the open, high, low, close, volume and count of every trade it ever had.
   */
  lemma {:induction false} EmittedOnceAndWhole(ops: seq<Op>, i: nat, j: nat, k: Key, period: int)
    requires period > 0 && NeverLate(ops, k, period) && i < |ops| && j < |ops|
    requires k in Emitted(ops, period)[i]
    ensures Summarises(Emitted(ops, period)[i][k], k, TradesOf(ops, k, period), period)
    ensures k in Emitted(ops, period)[j] ==> i == j
  {
    EmittedIsFold(ops, i, k, period);
    forall h | 0 <= h < i ensures k !in Emitted(ops, period)[h] {
      if k in Emitted(ops, period)[h] { EmittedFirst(ops, h, i, k, period); }
    }
    PendingIsAll(ops, i, k, period);
    NothingAfter(ops, i, |ops|, k, period);
    assert ops[..|ops|] == ops;
    if k in Emitted(ops, period)[j] {
      EmittedFirst(ops, i, j, k, period);
    }
  }

  // ----- a tape in order -----

  function Time(op: Op): Option<int> {
    match op
    case Add(t) => Some(t.ts)
    case TakeClosed(now) => Some(now)
    case TakeAll => None
  }

  /** Trades and flushes come in order of time, and everything is taken only at the very end. */
  ghost predicate InOrder(ops: seq<Op>) {
    && (forall i, j :: 0 <= i < j < |ops| && Time(ops[i]).Some? && Time(ops[j]).Some? ==> Time(ops[i]).value <= Time(ops[j]).value)
    && (forall i :: 0 <= i < |ops| - 1 ==> Time(ops[i]).Some?)
  }

  /** Which trades a bucket gets: those of its market, in its seconds. */
  lemma TradeBelongs(t: Trade, k: Key, period: int)
    requires period > 0
    ensures KeyOf(t, period) == k <==> t.ticker == k.0 && Includes(k.1, period, t.ts)
  {
    BucketIncludes(t.ts, period, k.1);
  }

  /** A flush takes a bucket exactly when the last of its seconds is over. */
  lemma TakenWhenOver(k: Key, now: int, period: int)
    requires period > 0 && k.1 % period == 0
    ensures Takes(TakeClosed(now), k, period)
            <==> if now >= 0 then (k.1 + period) * 1_000_000 <= now else (k.1 + period - 1) * 1_000_000 < now
    ensures Takes(TakeAll, k, period)
  {
    BucketIncludes(now, period, Bucket(now, period));
    ApartOrSame(k.1, Bucket(now, period), period);
  }

  /** So a tape in order is never late. */
  lemma InOrderIsNeverLate(ops: seq<Op>, k: Key, period: int)
    requires period > 0 && InOrder(ops)
    ensures NeverLate(ops, k, period)
  {
    forall i, j | 0 <= i < j < |ops| && k in Emitted(ops, period)[i] ensures !Adds(ops[j], k, period) {
      EmittedIsFold(ops, i, k, period);
      assert Time(ops[i]).Some?;
      if ops[j].Add? {
        BucketRises(ops[i].now, ops[j].trade.ts, period);
      }
    }
  }

  /** A tape in order loses nothing and repeats nothing: each candle is of all its bucket's trades, and comes once. */
  lemma {:induction false} InOrderTapeEmitsWhole(ops: seq<Op>, i: nat, j: nat, k: Key, period: int)
    requires period > 0 && InOrder(ops) && i < |ops| && j < |ops| && k in Emitted(ops, period)[i]
    ensures Summarises(Emitted(ops, period)[i][k], k, TradesOf(ops, k, period), period)
    ensures k in Emitted(ops, period)[j] ==> i == j
  {
    InOrderIsNeverLate(ops, k, period);
    EmittedOnceAndWhole(ops, i, j, k, period);
  }

  // ----- the class -----

  /** `out` lists the candles of `m`, each once, in some order. */
  ghost predicate Lists(out: seq<Candle>, m: Open) {
    && |out| == |m|
    && (forall i :: 0 <= i < |out| ==> (out[i].ticker, out[i].ts) in m && m[(out[i].ticker, out[i].ts)] == out[i])
    && (forall i, j :: 0 <= i < j < |out| ==> (out[i].ticker, out[i].ts) != (out[j].ticker, out[j].ts))
  }

  ghost predicate WellKeyed(m: Open) {
    forall k :: k in m ==> m[k].ticker == k.0 && m[k].ts == k.1
  }

  method List(m: Open) returns (out: seq<Candle>)
    requires WellKeyed(m)
    ensures Lists(out, m)
  {
    out := [];
    var todo := m.Keys;
    while todo != {}
      invariant todo <= m.Keys && |out| == |m| - |todo|
      invariant forall i :: 0 <= i < |out| ==>
          (out[i].ticker, out[i].ts) in m && (out[i].ticker, out[i].ts) !in todo && m[(out[i].ticker, out[i].ts)] == out[i]
      invariant forall i, j :: 0 <= i < j < |out| ==> (out[i].ticker, out[i].ts) != (out[j].ticker, out[j].ts)
      decreases |todo|
    {
      var k := AnyOf(todo);
      out := out + [m[k]];
      todo := todo - {k};
    }
  }

  class CandleBuilder {
    const periodSec: int
    var open: Open

    constructor (periodSec: int)
      requires periodSec > 0
      ensures this.periodSec == periodSec && open == OpenAfter([], periodSec) && Valid()
    {
      this.periodSec := periodSec;
      open := map[];
    }

    /** Every candle sits under its own market and bucket. */
    ghost predicate Valid()
      reads this
    {
      periodSec > 0 && WellKeyed(open)
    }

    method AddTrade(ticker: string, ts: int, price: real, count: real)
      requires Valid()
      modifies this
      ensures Valid() && open == After(old(open), Add(Trade(ticker, ts, price, count)), periodSec)
    {
      var key := (ticker, Bucket(ts, periodSec));
      if key !in open {
        open := open[key := Candle(ticker, key.1, periodSec, price, price, price, price, count, 1)];
        return;
      }
      var candle := open[key];
      candle := candle.(high := MaxR(candle.high, price), low := MinR(candle.low, price), close := price,
                        volume := candle.volume + count, trades := candle.trades + 1);
      open := open[key := candle];
    }

    method TakeClosedBefore(now: int) returns (out: seq<Candle>)
      requires Valid()
      modifies this
      ensures Valid() && open == After(old(open), TakeClosed(now), periodSec)
      ensures Lists(out, Taken(old(open), TakeClosed(now), periodSec))
    {
      var cutoff := Bucket(now, periodSec);
      out := List(map k | k in open && k.1 < cutoff :: open[k]);
      assert (map k | k in open && k.1 < cutoff :: open[k]) == Taken(open, TakeClosed(now), periodSec);
      open := map k | k in open && !(k.1 < cutoff) :: open[k];
    }

    method TakeEverything() returns (out: seq<Candle>)
      requires Valid()
      modifies this
      ensures Valid() && open == After(old(open), TakeAll, periodSec)
      ensures Lists(out, Taken(old(open), TakeAll, periodSec))
    {
      assert Taken(open, TakeAll, periodSec) == open;
      out := List(open);
      open := map[];
    }
  }
}
