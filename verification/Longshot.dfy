/**
  * Settled markets counted by price bucket, and which buckets are believed mispriced
  * (backend/app/detectors/longshot_calibration.py).
  */
module Longshot {
  import opened Prelude
  import opened Wilson
  import Sorting

  const MIN_BUCKET := 1
  const MAX_BUCKET := 99
  const Z := 1.96

  datatype Observation = Observation(bucket: int, settledYes: bool)

  datatype BucketStat = BucketStat(bucket: int, samples: int, yesCount: int, observedRate: real, impliedRate: real, ci: Interval)

  /** The bucket's own price lies outside what the data can support. */
  predicate Mispriced(s: BucketStat) {
    !(s.ci.low <= s.impliedRate <= s.ci.high)
  }

  predicate Priced(bucket: int) {
    MIN_BUCKET <= bucket <= MAX_BUCKET
  }

  datatype Counted = Counted(samples: int, yes: int)

  predicate Countable(bucket: int, c: Counted) {
    Priced(bucket) && c.samples > 0 && 0 <= c.yes <= c.samples
  }

  function StatOf(bucket: int, c: Counted, sqrt: real -> real): BucketStat
    requires Countable(bucket, c)
  {
    BucketStat(bucket, c.samples, c.yes, c.yes as real / c.samples as real, bucket as real / 100.0,
      WilsonInterval(c.yes, c.samples, Z, sqrt).value)
  }

  /** One stat for each countable bucket and no other, ascending by price. */
  ghost predicate Calibrates(stats: seq<BucketStat>, counts: map<int, Counted>, sqrt: real -> real) {
    && (forall i, j :: 0 <= i < j < |stats| ==> stats[i].bucket < stats[j].bucket)
    && (forall i :: 0 <= i < |stats| ==> IsStat(stats[i], counts, sqrt))
    && (forall b :: b in counts && Countable(b, counts[b]) ==> Listed(stats, b))
  }

  ghost predicate Listed(stats: seq<BucketStat>, b: int) {
    exists i :: 0 <= i < |stats| && stats[i].bucket == b
  }

  function AsReal(b: int): real { b as real }

  ghost predicate Ascending(s: seq<int>) {
    forall i, j :: 0 <= i < j < |s| ==> s[i] < s[j]
  }

  method SortedKeys(keys: set<int>) returns (r: seq<int>)
    ensures Ascending(r)
    ensures forall b :: b in r <==> b in keys
  {
    var listed: seq<int> := [];
    var todo := keys;
    while todo != {}
      invariant todo <= keys
      invariant forall b :: b in listed <==> b in keys - todo
      invariant forall b :: multiset(listed)[b] <= 1
      decreases |todo|
    {
      var b := AnyOf(todo);
      assert b !in listed;
      listed, todo := listed + [b], todo - {b};
    }
    Sorting.SortSorts(listed, AsReal);
    Sorting.SortKeepsMembers(listed, AsReal);
    r := Sorting.Sort(listed, AsReal);
    SortedDistinct(r);
  }

  lemma SortedDistinct(r: seq<int>)
    requires Sorting.SortedBy(r, AsReal) && forall b :: multiset(r)[b] <= 1
    ensures Ascending(r)
  {
    forall i, j | 0 <= i < j < |r| ensures r[i] < r[j] {
      assert AsReal(r[i]) <= AsReal(r[j]);
      Sorting.TwicePlaced(r, i, j);
    }
  }

  method CalibrateCounts(counts: map<int, Counted>, sqrt: real -> real) returns (stats: seq<BucketStat>)
    ensures Calibrates(stats, counts, sqrt)
  {
    stats := [];
    var keys := SortedKeys(counts.Keys);
    for k := 0 to |keys|
      invariant CalibratesKeys(stats, keys[..k], counts, sqrt)
    {
      var bucket := keys[k];
      var c := counts[bucket];
      assert keys[..k + 1] == keys[..k] + [bucket];
      NextKey(stats, keys[..k], bucket, counts, sqrt);
      if Countable(bucket, c) {
        stats := stats + [StatOf(bucket, c, sqrt)];
      }
    }
    assert keys[..|keys|] == keys;
    forall b | b in counts && Countable(b, counts[b]) ensures Listed(stats, b) {
      assert b in keys;
    }
  }

  ghost predicate IsStat(s: BucketStat, counts: map<int, Counted>, sqrt: real -> real) {
    s.bucket in counts && Countable(s.bucket, counts[s.bucket]) && s == StatOf(s.bucket, counts[s.bucket], sqrt)
  }

  /** The stats of the keys listed so far. */
  ghost predicate CalibratesKeys(stats: seq<BucketStat>, keys: seq<int>, counts: map<int, Counted>, sqrt: real -> real) {
    && (forall b :: b in keys ==> b in counts)
    && (forall i, j :: 0 <= i < j < |stats| ==> stats[i].bucket < stats[j].bucket)
    && (forall i :: 0 <= i < |stats| ==> stats[i].bucket in keys && IsStat(stats[i], counts, sqrt))
    && (forall b :: b in keys && Countable(b, counts[b]) ==> Listed(stats, b))
  }

  lemma ListedGrows(stats: seq<BucketStat>, s: BucketStat, b: int)
    ensures Listed(stats, b) || b == s.bucket ==> Listed(stats + [s], b)
  {
    var r := stats + [s];
    assert r[|stats|] == s;
    if Listed(stats, b) {
      var i :| 0 <= i < |stats| && stats[i].bucket == b;
      assert r[i].bucket == b;
    }
  }

  lemma BeforeLast(keys: seq<int>, bucket: int)
    requires Ascending(keys + [bucket])
    ensures forall b :: b in keys ==> b < bucket
  {
    var all := keys + [bucket];
    forall b | b in keys ensures b < bucket {
      var j :| 0 <= j < |keys| && keys[j] == b;
      assert all[j] < all[|keys|];
    }
  }

  lemma NextKey(stats: seq<BucketStat>, keys: seq<int>, bucket: int, counts: map<int, Counted>, sqrt: real -> real)
    requires CalibratesKeys(stats, keys, counts, sqrt) && bucket in counts && Ascending(keys + [bucket])
    ensures CalibratesKeys(if Countable(bucket, counts[bucket]) then stats + [StatOf(bucket, counts[bucket], sqrt)] else stats,
      keys + [bucket], counts, sqrt)
  {
    BeforeLast(keys, bucket);
    if Countable(bucket, counts[bucket]) {
      forall b | b in keys + [bucket] && Countable(b, counts[b]) ensures Listed(stats + [StatOf(bucket, counts[bucket], sqrt)], b) {
        ListedGrows(stats, StatOf(bucket, counts[bucket], sqrt), b);
      }
    }
  }

  // ---- Counting observations ---------------------------------------------------------------

  function SamplesIn(obs: seq<Observation>, b: int): nat {
    if obs == [] then 0
    else SamplesIn(obs[..|obs| - 1], b) + if obs[|obs| - 1].bucket == b then 1 else 0
  }

  function YesIn(obs: seq<Observation>, b: int): (r: nat)
    ensures r <= SamplesIn(obs, b)
  {
    if obs == [] then 0
    else YesIn(obs[..|obs| - 1], b) + if obs[|obs| - 1] == Observation(b, true) then 1 else 0
  }

  /** Every priced bucket seen, with how often it was seen and how often it settled YES. */
  ghost function CountsOf(obs: seq<Observation>): map<int, Counted> {
    map b | MIN_BUCKET <= b <= MAX_BUCKET && SamplesIn(obs, b) > 0 :: Counted(SamplesIn(obs, b), YesIn(obs, b))
  }

  function At(m: map<int, int>, b: int): int {
    if b in m then m[b] else 0
  }

  method CountBuckets(obs: seq<Observation>) returns (totals: map<int, int>, yeses: map<int, int>)
    ensures forall b :: b in totals <==> Priced(b) && SamplesIn(obs, b) > 0
    ensures forall b :: b in totals ==> totals[b] == SamplesIn(obs, b) && At(yeses, b) == YesIn(obs, b)
  {
    totals, yeses := map[], map[];
    for i := 0 to |obs|
      invariant forall b :: b in totals <==> Priced(b) && SamplesIn(obs[..i], b) > 0
      invariant forall b :: Priced(b) ==> At(totals, b) == SamplesIn(obs[..i], b) && At(yeses, b) == YesIn(obs[..i], b)
    {
      assert obs[..i + 1][..i] == obs[..i];
      var o := obs[i];
      if Priced(o.bucket) {
        totals := totals[o.bucket := At(totals, o.bucket) + 1];
        if o.settledYes {
          yeses := yeses[o.bucket := At(yeses, o.bucket) + 1];
        }
      }
    }
    assert obs[..|obs|] == obs;
  }

  method Calibrate(obs: seq<Observation>, sqrt: real -> real) returns (stats: seq<BucketStat>)
    ensures Calibrates(stats, CountsOf(obs), sqrt)
  {
    var totals, yeses := CountBuckets(obs);
    var counts := map b | b in totals :: Counted(totals[b], At(yeses, b));
    assert counts == CountsOf(obs);
    stats := CalibrateCounts(counts, sqrt);
  }

  function Significant(stats: seq<BucketStat>, minSamples: int): seq<BucketStat> {
    if stats == [] then []
    else (if stats[0].samples >= minSamples && Mispriced(stats[0]) then [stats[0]] else []) + Significant(stats[1..], minSamples)
  }

  lemma {:induction false} SignificantMembers(stats: seq<BucketStat>, minSamples: int)
    ensures forall s :: s in Significant(stats, minSamples) <==> s in stats && s.samples >= minSamples && Mispriced(s)
  {
    if stats != [] {
      SignificantMembers(stats[1..], minSamples);
      assert forall s :: s in stats <==> s == stats[0] || s in stats[1..];
    }
  }

  /** The score test, at the screen's level, rejects the bucket's own price. */
  ghost predicate PriceRejected(bucket: int, c: Counted)
    requires c.samples > 0
  {
    !ScoreAccepts(c.samples as real, c.yes as real / c.samples as real, Z, bucket as real / 100.0)
  }

  lemma MispricedIsRejection(bucket: int, c: Counted, sqrt: real -> real)
    requires Countable(bucket, c) && IsSquareRoot(sqrt)
    ensures Mispriced(StatOf(bucket, c, sqrt)) <==> PriceRejected(bucket, c)
  {
    WilsonInvertsScoreTest(c.yes, c.samples, Z, sqrt, bucket as real / 100.0);
  }

  // ---- In the terms of the observations ------------------------------------------------------

  /** Which observations were made at this price, and which of them settled YES. */
  ghost function Seen(obs: seq<Observation>, b: int): set<int> {
    set i | 0 <= i < |obs| && obs[i].bucket == b
  }

  ghost function SeenYes(obs: seq<Observation>, b: int): set<int> {
    set i | 0 <= i < |obs| && obs[i].bucket == b && obs[i].settledYes
  }

  lemma SeenNext(obs: seq<Observation>, b: int, n: int)
    requires obs != [] && n == |obs| - 1
    ensures Seen(obs, b) == Seen(obs[..n], b) + if obs[n].bucket == b then {n} else {}
    ensures SeenYes(obs, b) == SeenYes(obs[..n], b) + if obs[n] == Observation(b, true) then {n} else {}
    ensures n !in Seen(obs[..n], b) && n !in SeenYes(obs[..n], b)
  {
  }

  lemma {:induction false} CountsAreSeen(obs: seq<Observation>, b: int)
    ensures SamplesIn(obs, b) == |Seen(obs, b)|
    ensures YesIn(obs, b) == |SeenYes(obs, b)|
  {
    if obs != [] {
      var n := |obs| - 1;
      CountsAreSeen(obs[..n], b);
      SeenNext(obs, b, n);
      Added(Seen(obs[..n], b), n, obs[n].bucket == b);
      Added(SeenYes(obs[..n], b), n, obs[n] == Observation(b, true));
    }
  }

  lemma Added(s: set<int>, n: int, more: bool)
    requires n !in s
    ensures |s + if more then {n} else {}| == |s| + if more then 1 else 0
  {
    assert s + {} == s;
  }

  /** Every stat is of a price from 1 to 99 cents, and counts its own observations. */
  lemma StatsCount(obs: seq<Observation>, stats: seq<BucketStat>, sqrt: real -> real, b: int)
    requires Calibrates(stats, CountsOf(obs), sqrt)
    ensures Listed(stats, b) <==> 1 <= b <= 99 && Seen(obs, b) != {}
    ensures forall s :: s in stats && s.bucket == b ==>
      && s.samples == |Seen(obs, b)| && s.yesCount == |SeenYes(obs, b)|
      && s.observedRate == |SeenYes(obs, b)| as real / |Seen(obs, b)| as real && s.impliedRate == b as real / 100.0
  {
    CountsAreSeen(obs, b);
    assert SamplesIn(obs, b) > 0 <==> Seen(obs, b) != {};
    assert b in CountsOf(obs) ==> Countable(b, CountsOf(obs)[b]);
  }

  /**
    * The buckets a caller may act on are exactly the prices from 1 to 99 cents seen often enough
    * whose own price the score test rejects at 1.96 standard errors; nothing about the order of
    * the observations matters.
    */
  lemma {:induction false} ActedOnExactly(obs: seq<Observation>, stats: seq<BucketStat>, minSamples: int, sqrt: real -> real, b: int)
    requires IsSquareRoot(sqrt) && Calibrates(stats, CountsOf(obs), sqrt)
    ensures (exists s :: s in Significant(stats, minSamples) && s.bucket == b) <==>
      1 <= b <= 99 && Seen(obs, b) != {} && |Seen(obs, b)| >= minSamples
      && !ScoreAccepts(|Seen(obs, b)| as real, |SeenYes(obs, b)| as real / |Seen(obs, b)| as real, 1.96, b as real / 100.0)
  {
    var counts := CountsOf(obs);
    SignificantMembers(stats, minSamples);
    CountsAreSeen(obs, b);
    StatsCount(obs, stats, sqrt, b);
    if s :| s in Significant(stats, minSamples) && s.bucket == b {
      var i :| 0 <= i < |stats| && stats[i] == s;
      MispricedIsRejection(b, counts[b], sqrt);
    }
    if Listed(stats, b) && |Seen(obs, b)| >= minSamples && PriceRejected(b, Counted(|Seen(obs, b)|, |SeenYes(obs, b)|)) {
      var i :| 0 <= i < |stats| && stats[i].bucket == b;
      MispricedIsRejection(b, counts[b], sqrt);
      assert stats[i] in stats;
      assert stats[i] in Significant(stats, minSamples);
    }
  }
}
