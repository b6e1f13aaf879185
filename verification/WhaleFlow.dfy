/**
  * Splitting a tape of trades into aggressive same-side runs, and the sweep that is reported
  * (backend/app/detectors/whale_flow.py).
  */
module WhaleFlow {
  import opened Prelude
  import opened Sums
  import Sorting

  datatype Side = Buy | Sell

  /** One print; `side` is None when the taker side is missing or unreadable. Times in microseconds. */
  datatype Trade = Trade(ts: int, price: real, count: real, side: Option<Side>)

  predicate Usable(t: Trade) {
    0.0 < t.price < 1.0 && t.count > 0.0
  }

  /** A print that may start a run. */
  predicate Seeds(t: Trade) {
    Usable(t) && t.side.Some?
  }

  /** Whether `trade` continues the run in progress. */
  predicate Extends(run: seq<Trade>, trade: Trade, window: real) {
    if run == [] then false
    else if !Usable(trade) then false
    else
      var direction := run[0].side;
      if direction.None? || trade.side != direction then false
      else
        var last := run[|run| - 1];
        if (trade.ts - last.ts) as real > window then false
        else if direction == Some(Buy) then trade.price >= last.price
        else trade.price <= last.price
  }

  // ---- What a run is, print by print ---------------------------------------------------------

  predicate NotBack(side: Side, from: real, to: real) {
    match side
    case Buy => to >= from
    case Sell => to <= from
  }

  /** Two neighbouring prints that belong together. */
  predicate Joins(a: Trade, b: Trade, window: real) {
    Seeds(a) && Seeds(b) && a.side == b.side && (b.ts - a.ts) as real <= window && NotBack(a.side.value, a.price, b.price)
  }

  ghost predicate Chain(run: seq<Trade>, window: real) {
    run != [] && (forall k :: 0 <= k < |run| ==> Seeds(run[k])) && forall k :: 0 < k < |run| ==> Joins(run[k - 1], run[k], window)
  }

  /** The runs of a tape, read from its end: a print joins the run of its neighbour or stands alone. */
  function Split(tape: seq<Trade>, window: real): (runs: seq<seq<Trade>>)
    ensures forall k :: 0 <= k < |runs| ==> runs[k] != []
    ensures tape != [] && Seeds(tape[0]) ==> runs != [] && runs[0][0] == tape[0]
  {
    if tape == [] then []
    else
      var rest := Split(tape[1..], window);
      if !Seeds(tape[0]) then rest
      else if |tape| > 1 && Joins(tape[0], tape[1], window) then [[tape[0]] + rest[0]] + rest[1..]
      else [[tape[0]]] + rest
  }

  /** Runs, with `run` still open in front of the rest of the tape. */
  function SplitAfter(run: seq<Trade>, tape: seq<Trade>, window: real): seq<seq<Trade>> {
    if run == [] then Split(tape, window)
    else if tape != [] && Joins(run[|run| - 1], tape[0], window) then
      var rest := Split(tape, window);
      [run + rest[0]] + rest[1..]
    else [run] + Split(tape, window)
  }

  lemma {:induction false} ChainSide(run: seq<Trade>, window: real, k: nat)
    requires Chain(run, window) && k < |run|
    ensures run[k].side == run[0].side
  {
    if k > 0 {
      ChainSide(run, window, k - 1);
      assert Joins(run[k - 1], run[k], window);
    }
  }

  lemma ExtendsIsJoin(run: seq<Trade>, trade: Trade, window: real)
    requires Chain(run, window)
    ensures Extends(run, trade, window) <==> Joins(run[|run| - 1], trade, window)
    ensures Extends(run, trade, window) ==> Chain(run + [trade], window)
  {
    ChainSide(run, window, |run| - 1);
  }

  lemma SplitExtends(run: seq<Trade>, tape: seq<Trade>, window: real)
    requires run != [] && tape != [] && Joins(run[|run| - 1], tape[0], window)
    ensures SplitAfter(run, tape, window) == SplitAfter(run + [tape[0]], tape[1..], window)
  {
    var rest := Split(tape[1..], window);
    if |tape| > 1 && Joins(tape[0], tape[1], window) {
      assert run + ([tape[0]] + rest[0]) == run + [tape[0]] + rest[0];
    } else {
      assert SplitAfter(run, tape, window) == [run + [tape[0]]] + rest;
    }
  }

  lemma SplitBreaks(run: seq<Trade>, tape: seq<Trade>, window: real)
    requires tape != [] && (run == [] || !Joins(run[|run| - 1], tape[0], window))
    ensures SplitAfter(run, tape, window)
      == (if run == [] then [] else [run]) + SplitAfter(if Seeds(tape[0]) then [tape[0]] else [], tape[1..], window)
  {
    assert [] + Split(tape, window) == Split(tape, window);
    if Seeds(tape[0]) && |tape| > 1 && Joins(tape[0], tape[1], window) {
    } else if Seeds(tape[0]) {
    }
  }

  ghost predicate OpenRun(run: seq<Trade>, window: real) {
    run == [] || Chain(run, window)
  }

  lemma PrintContinues(runs: seq<seq<Trade>>, run: seq<Trade>, tape: seq<Trade>, window: real)
    requires tape != [] && OpenRun(run, window) && Extends(run, tape[0], window)
    ensures OpenRun(run + [tape[0]], window)
    ensures runs + SplitAfter(run, tape, window) == runs + SplitAfter(run + [tape[0]], tape[1..], window)
  {
    ExtendsIsJoin(run, tape[0], window);
    SplitExtends(run, tape, window);
  }

  lemma PrintBreaks(runs: seq<seq<Trade>>, run: seq<Trade>, tape: seq<Trade>, window: real, closed: seq<seq<Trade>>, next: seq<Trade>)
    requires tape != [] && OpenRun(run, window) && !Extends(run, tape[0], window)
    requires closed == (if run == [] then runs else runs + [run]) && next == (if Seeds(tape[0]) then [tape[0]] else [])
    ensures OpenRun(next, window)
    ensures runs + SplitAfter(run, tape, window) == closed + SplitAfter(next, tape[1..], window)
  {
    if run != [] { ExtendsIsJoin(run, tape[0], window); }
    SplitBreaks(run, tape, window);
    var done, open := (if run == [] then [] else [run]), SplitAfter(next, tape[1..], window);
    CloseRun(runs, done, open, SplitAfter(run, tape, window));
    assert runs + done == closed;
  }

  lemma CloseRun(runs: seq<seq<Trade>>, done: seq<seq<Trade>>, open: seq<seq<Trade>>, before: seq<seq<Trade>>)
    requires before == done + open
    ensures runs + before == runs + done + open
  {
  }

  /** Left to right, one open run at a time. */
  method Runs(ordered: seq<Trade>, window: real) returns (runs: seq<seq<Trade>>)
    ensures runs == Split(ordered, window)
  {
    runs := [];
    var run: seq<Trade> := [];
    for i := 0 to |ordered|
      invariant OpenRun(run, window)
      invariant Split(ordered, window) == runs + SplitAfter(run, ordered[i..], window)
    {
      var trade := ordered[i];
      assert ordered[i..][1..] == ordered[i + 1..];
      if Extends(run, trade, window) {
        PrintContinues(runs, run, ordered[i..], window);
        run := run + [trade];
      } else {
        ghost var before, open := runs, run;
        if run != [] {
          runs := runs + [run];
        }
        run := if Seeds(trade) then [trade] else [];
        PrintBreaks(before, open, ordered[i..], window, runs, run);
      }
    }
    if run != [] {
      runs := runs + [run];
    }
  }

  // ---- Nothing is lost, nothing is spliced, nothing is split short ------------------------------

  function Flatten(runs: seq<seq<Trade>>): seq<Trade> {
    if runs == [] then [] else runs[0] + Flatten(runs[1..])
  }

  function Seeding(tape: seq<Trade>): seq<Trade> {
    if tape == [] then [] else (if Seeds(tape[0]) then [tape[0]] else []) + Seeding(tape[1..])
  }

  /** Laid end to end, the runs are the usable prints with a readable side, in order. */
  lemma {:induction false} RunsKeepEveryPrint(tape: seq<Trade>, window: real)
    ensures Flatten(Split(tape, window)) == Seeding(tape)
  {
    if tape != [] {
      var t, rest := tape[0], Split(tape[1..], window);
      RunsKeepEveryPrint(tape[1..], window);
      if !Seeds(t) {
        assert [] + Seeding(tape[1..]) == Seeding(tape[1..]);
      } else if |tape| > 1 && Joins(t, tape[1], window) {
        assert [t] + (rest[0] + Flatten(rest[1..])) == [t] + rest[0] + Flatten(rest[1..]);
        assert ([[t] + rest[0]] + rest[1..])[1..] == rest[1..];
      } else {
        assert ([[t]] + rest)[1..] == rest;
      }
    }
  }

  /** A stretch of neighbouring prints that belong together and cannot be made longer. */
  ghost predicate MaximalBlock(tape: seq<Trade>, i: nat, j: nat, window: real) {
    && i < j <= |tape| && Chain(tape[i..j], window)
    && (i > 0 ==> !Joins(tape[i - 1], tape[i], window))
    && (j < |tape| ==> !Joins(tape[j - 1], tape[j], window))
  }

  lemma BlockShifts(tape: seq<Trade>, i: nat, j: nat, window: real)
    requires tape != [] && MaximalBlock(tape[1..], i, j, window)
    requires i == 0 ==> !Joins(tape[0], tape[1], window)
    ensures MaximalBlock(tape, i + 1, j + 1, window) && tape[i + 1..j + 1] == tape[1..][i..j]
  {
    var rest := tape[1..];
    forall k | 0 <= k < j - i ensures tape[i + 1..j + 1][k] == rest[i..j][k] {
      assert rest[i + k] == tape[i + 1 + k];
    }
    assert tape[i + 1..j + 1] == rest[i..j];
  }

  lemma BlockGrows(tape: seq<Trade>, j: nat, window: real)
    requires |tape| > 1 && Joins(tape[0], tape[1], window) && MaximalBlock(tape[1..], 0, j, window)
    ensures MaximalBlock(tape, 0, j + 1, window) && tape[0..j + 1] == [tape[0]] + tape[1..][0..j]
  {
    var run, more := tape[1..][0..j], tape[0..j + 1];
    assert more == [tape[0]] + run;
    forall k | 0 < k < |more| ensures Joins(more[k - 1], more[k], window) {
      if k > 1 { assert Joins(run[k - 2], run[k - 1], window); }
    }
  }

  function TailIndex(tape: seq<Trade>, window: real, k: nat): int
    requires tape != []
  {
    if Seeds(tape[0]) && !(|tape| > 1 && Joins(tape[0], tape[1], window)) then k - 1 else k
  }

  lemma {:induction false} SplitUnfolds(tape: seq<Trade>, window: real, rest: seq<seq<Trade>>)
    requires tape != [] && rest == Split(tape[1..], window)
    ensures !Seeds(tape[0]) ==> Split(tape, window) == rest
    ensures Seeds(tape[0]) && !(|tape| > 1 && Joins(tape[0], tape[1], window)) ==> Split(tape, window) == [[tape[0]]] + rest
    ensures |tape| > 1 && Joins(tape[0], tape[1], window) ==> rest != [] && Split(tape, window) == [[tape[0]] + rest[0]] + rest[1..]
  {
  }

  lemma {:induction false} TailRun(tape: seq<Trade>, window: real, k: nat, rest: seq<seq<Trade>>, all: seq<seq<Trade>>)
    requires tape != [] && rest == Split(tape[1..], window) && all == Split(tape, window)
    requires k < |all| && !(Seeds(tape[0]) && k == 0)
    ensures 0 <= TailIndex(tape, window, k) < |rest| && all[k] == rest[TailIndex(tape, window, k)]
  {
    SplitUnfolds(tape, window, rest);
  }

  lemma {:induction false} FirstRun(tape: seq<Trade>, window: real)
    requires tape != [] && Seeds(tape[0])
    ensures |tape| > 1 && Joins(tape[0], tape[1], window) ==>
      Split(tape[1..], window) != [] && Split(tape, window)[0] == [tape[0]] + Split(tape[1..], window)[0]
    ensures !(|tape| > 1 && Joins(tape[0], tape[1], window)) ==>
      Split(tape, window)[0] == [tape[0]] == tape[0..1] && MaximalBlock(tape, 0, 1, window)
  {
  }

  /** Every run is such a stretch of the tape: same side, in window, never stepping back, and maximal. */
  lemma {:induction false} RunsAreMaximalBlocks(tape: seq<Trade>, window: real, k: nat) returns (i: nat, j: nat)
    requires k < |Split(tape, window)|
    ensures MaximalBlock(tape, i, j, window) && tape[i..j] == Split(tape, window)[k]
    ensures Seeds(tape[0]) ==> (i == 0 <==> k == 0)
    decreases |tape|
  {
    if Seeds(tape[0]) && k == 0 {
      FirstRun(tape, window);
      i, j := 0, 1;
      if |tape| > 1 && Joins(tape[0], tape[1], window) {
        i, j := RunsAreMaximalBlocks(tape[1..], window, 0);
        BlockGrows(tape, j, window);
        j := j + 1;
      }
    } else {
      TailRun(tape, window, k, Split(tape[1..], window), Split(tape, window));
      i, j := RunsAreMaximalBlocks(tape[1..], window, TailIndex(tape, window, k));
      BlockShifts(tape, i, j, window);
      i, j := i + 1, j + 1;
    }
  }

  // ---- A sweep ------------------------------------------------------------------------------------

  datatype Sweep = Sweep(direction: Side, levels: nat, contracts: real, firstPrice: real, lastPrice: real, micros: int)

  function Prices(run: seq<Trade>): set<real> {
    set t | t in run :: t.price
  }

  function Counts(run: seq<Trade>): seq<real> {
    seq(|run|, k requires 0 <= k < |run| => run[k].count)
  }

  function AsSweep(run: seq<Trade>, minLevels: int): Option<Sweep> {
    if run == [] || run[0].side.None? then None
    else
      var levels := |Prices(run)|;
      if levels < minLevels then None
      else
        var last := run[|run| - 1];
        Some(Sweep(run[0].side.value, levels, Sum(Counts(run)), run[0].price, last.price, last.ts - run[0].ts))
  }

  /** How many prints moved the price. */
  function StrictSteps(run: seq<Trade>): nat {
    if |run| < 2 then 0
    else StrictSteps(run[..|run| - 1]) + if run[|run| - 1].price != run[|run| - 2].price then 1 else 0
  }

  lemma ChainPrefix(run: seq<Trade>, window: real)
    requires Chain(run, window) && |run| > 1
    ensures Chain(run[..|run| - 1], window)
  {
    var init := run[..|run| - 1];
    forall k | 0 < k < |init| ensures Joins(init[k - 1], init[k], window) {
      assert Joins(run[k - 1], run[k], window);
    }
  }

  /** Along a run no earlier price lies beyond the last. */
  lemma {:induction false} LastIsFurthest(run: seq<Trade>, window: real, k: nat)
    requires Chain(run, window) && k < |run|
    ensures NotBack(run[0].side.value, run[k].price, run[|run| - 1].price)
    decreases |run|
  {
    var n := |run| - 1;
    if k < n {
      ChainPrefix(run, window);
      LastIsFurthest(run[..n], window, k);
      assert Joins(run[n - 1], run[n], window);
      ChainSide(run, window, n - 1);
    }
  }

  /** Distinct prices are one more than the prints that moved the price: repeats add no level. */
  lemma {:induction false} LevelsAreStrictSteps(run: seq<Trade>, window: real)
    requires Chain(run, window)
    ensures |Prices(run)| == 1 + StrictSteps(run)
    decreases |run|
  {
    if |run| == 1 {
      assert Prices(run) == {run[0].price};
    } else {
      ChainPrefix(run, window);
      LevelsAreStrictSteps(run[..|run| - 1], window);
      OneMoreLevel(run, window);
    }
  }

  lemma OneMoreLevel(run: seq<Trade>, window: real)
    requires Chain(run, window) && |run| > 1
    ensures |Prices(run)| == |Prices(run[..|run| - 1])| + if run[|run| - 1].price != run[|run| - 2].price then 1 else 0
  {
    var n := |run| - 1;
    var init := run[..n];
    PricesGrow(init, run[n]);
    assert run == init + [run[n]];
    if run[n].price != run[n - 1].price {
      NewPriceIsFresh(run, window);
    } else {
      assert init[n - 1] in init;
      assert Prices(run) == Prices(init);
    }
  }

  lemma PricesGrow(init: seq<Trade>, t: Trade)
    ensures Prices(init + [t]) == Prices(init) + {t.price}
  {
    var all := init + [t];
    forall p | p in Prices(init) + {t.price} ensures p in Prices(all) {
      if p == t.price {
        assert t in all;
      } else {
        var u :| u in init && u.price == p;
        assert u in all;
      }
    }
  }

  lemma NewPriceIsFresh(run: seq<Trade>, window: real)
    requires Chain(run, window) && |run| > 1 && run[|run| - 1].price != run[|run| - 2].price
    ensures run[|run| - 1].price !in Prices(run[..|run| - 1])
  {
    var n := |run| - 1;
    var init := run[..n];
    ChainPrefix(run, window);
    assert Joins(run[n - 1], run[n], window);
    ChainSide(run, window, n - 1);
    forall k | 0 <= k < n ensures init[k].price != run[n].price {
      LastIsFurthest(init, window, k);
    }
  }

  /** One distinct price means no step; so two levels put the end strictly past the start. */
  lemma {:induction false} LevelsMoveThePrice(run: seq<Trade>, window: real)
    requires Chain(run, window)
    ensures StrictSteps(run) > 0 <==> run[|run| - 1].price != run[0].price
    decreases |run|
  {
    var n := |run| - 1;
    if n > 0 {
      ChainPrefix(run, window);
      LevelsMoveThePrice(run[..n], window);
      LastIsFurthest(run, window, 0);
      LastIsFurthest(run[..n], window, 0);
      assert Joins(run[n - 1], run[n], window);
      ChainSide(run, window, n - 1);
    }
  }

  function TsKey(t: Trade): real { t.ts as real }

  ghost predicate LastAt(s: Sweep, runs: seq<seq<Trade>>, k: nat, minLevels: int) {
    && k < |runs| && AsSweep(runs[k], minLevels) == Some(s)
    && forall n :: k < n < |runs| ==> AsSweep(runs[n], minLevels).None?
  }

  /** The last run that qualifies. */
  ghost predicate IsLatest(latest: Option<Sweep>, runs: seq<seq<Trade>>, minLevels: int) {
    match latest
    case None => forall k :: 0 <= k < |runs| ==> AsSweep(runs[k], minLevels).None?
    case Some(s) => exists k: nat :: LastAt(s, runs, k, minLevels)
  }

  lemma LatestNext(latest: Option<Sweep>, runs: seq<seq<Trade>>, run: seq<Trade>, minLevels: int)
    requires IsLatest(latest, runs, minLevels)
    ensures IsLatest(if AsSweep(run, minLevels).Some? then AsSweep(run, minLevels) else latest, runs + [run], minLevels)
  {
    if AsSweep(run, minLevels).Some? {
      assert LastAt(AsSweep(run, minLevels).value, runs + [run], |runs|, minLevels);
    } else if latest.Some? {
      var k: nat :| LastAt(latest.value, runs, k, minLevels);
      assert LastAt(latest.value, runs + [run], k, minLevels);
    }
  }

  method DetectSweep(trades: seq<Trade>, window: real, minLevels: int) returns (latest: Option<Sweep>)
    ensures minLevels < 2 || window <= 0.0 ==> latest == None
    ensures minLevels >= 2 && window > 0.0 ==> IsLatest(latest, Split(Sorting.Sort(trades, TsKey), window), minLevels)
  {
    latest := None;
    if minLevels < 2 || window <= 0.0 {
      return;
    }
    var runs := Runs(Sorting.Sort(trades, TsKey), window);
    for n := 0 to |runs|
      invariant IsLatest(latest, runs[..n], minLevels)
    {
      assert runs[..n + 1] == runs[..n] + [runs[n]];
      LatestNext(latest, runs[..n], runs[n], minLevels);
      var sweep := AsSweep(runs[n], minLevels);
      if sweep.Some? {
        latest := sweep;
      }
    }
    assert runs[..|runs|] == runs;
  }

  /** A run of trades on the tape behind a sweep, and what makes it one. */
  ghost predicate Walked(s: Sweep, run: seq<Trade>, window: real, minLevels: int) {
    && Chain(run, window) && run[0].side == Some(s.direction)
    && s.levels == 1 + StrictSteps(run) && s.levels >= minLevels
    && s.firstPrice == run[0].price && s.lastPrice == run[|run| - 1].price
    && s.contracts == Sum(Counts(run)) && s.contracts > 0.0 && s.micros == run[|run| - 1].ts - run[0].ts
    && (s.direction == Buy ==> s.lastPrice > s.firstPrice) && (s.direction == Sell ==> s.lastPrice < s.firstPrice)
  }

  lemma {:induction false} PositiveSum(x: seq<real>)
    requires x != [] && forall k :: 0 <= k < |x| ==> x[k] > 0.0
    ensures Sum(x) > 0.0
  {
    if |x| > 1 { PositiveSum(x[1..]); }
  }

  lemma SweepOfRun(run: seq<Trade>, window: real, minLevels: int)
    requires Chain(run, window) && minLevels >= 2 && AsSweep(run, minLevels).Some?
    ensures Walked(AsSweep(run, minLevels).value, run, window, minLevels)
  {
    LevelsAreStrictSteps(run, window);
    LevelsMoveThePrice(run, window);
    LastIsFurthest(run, window, 0);
    PositiveSum(Counts(run));
  }

  /**
    * A reported sweep is a maximal stretch of the ordered tape, all on one readable side, that
    * ends strictly above its first price when buying and strictly below when selling.
    */
  lemma SweepsWalkTheBook(trades: seq<Trade>, window: real, minLevels: int, s: Sweep) returns (i: nat, j: nat)
    requires minLevels >= 2 && IsLatest(Some(s), Split(Sorting.Sort(trades, TsKey), window), minLevels)
    ensures var tape := Sorting.Sort(trades, TsKey);
      MaximalBlock(tape, i, j, window) && Walked(s, tape[i..j], window, minLevels)
  {
    var tape := Sorting.Sort(trades, TsKey);
    var runs := Split(tape, window);
    var k: nat :| LastAt(s, runs, k, minLevels);
    i, j := RunsAreMaximalBlocks(tape, window, k);
    SweepOfRun(tape[i..j], window, minLevels);
  }

  // ---- And none is missed -------------------------------------------------------------------------

  /** A print that says something: a price that trades, a size, and a readable side. */
  predicate Readable(t: Trade) {
    t.price > 0.0 && t.price < 1.0 && t.count > 0.0 && t.side != None
  }

  lemma {:induction false} InFlatten(runs: seq<seq<Trade>>, t: Trade)
    ensures t in Flatten(runs) <==> exists k :: 0 <= k < |runs| && t in runs[k]
  {
    if runs != [] {
      InFlatten(runs[1..], t);
      assert forall k :: 0 < k < |runs| ==> runs[k] == runs[1..][k - 1];
    }
  }

  lemma {:induction false} InSeeding(tape: seq<Trade>, t: Trade)
    ensures t in Seeding(tape) <==> t in tape && Readable(t)
  {
    if tape != [] {
      InSeeding(tape[1..], t);
      assert tape == [tape[0]] + tape[1..];
    }
  }

  /** A print is in some run exactly when it is readable. */
  lemma {:induction false} ReadablePrintsRun(tape: seq<Trade>, window: real, t: Trade)
    requires t in tape
    ensures (exists k :: 0 <= k < |Split(tape, window)| && t in Split(tape, window)[k]) <==> Readable(t)
  {
    RunsKeepEveryPrint(tape, window);
    InFlatten(Split(tape, window), t);
    InSeeding(tape, t);
  }

  lemma BlockBack(tape: seq<Trade>, i: nat, j: nat, window: real)
    requires i > 0 && MaximalBlock(tape, i, j, window)
    ensures MaximalBlock(tape[1..], i - 1, j - 1, window) && tape[1..][i - 1..j - 1] == tape[i..j]
  {
    assert tape[1..][i - 1..j - 1] == tape[i..j];
  }

  lemma FirstBlock(tape: seq<Trade>, j: nat, window: real)
    requires j > 1 && MaximalBlock(tape, 0, j, window)
    ensures Joins(tape[0], tape[1], window)
    ensures MaximalBlock(tape[1..], 0, j - 1, window) && tape[0..j] == [tape[0]] + tape[1..][0..j - 1]
  {
    var run, less := tape[0..j], tape[1..][0..j - 1];
    assert Joins(run[0], run[1], window);
    forall k | 0 < k < |less| ensures Joins(less[k - 1], less[k], window) {
      assert Joins(run[k], run[k + 1], window);
    }
  }

  /** Every maximal stretch of the tape is a run. */
  lemma {:induction false} BlocksAreRuns(tape: seq<Trade>, i: nat, j: nat, window: real) returns (k: nat)
    requires MaximalBlock(tape, i, j, window)
    ensures k < |Split(tape, window)| && Split(tape, window)[k] == tape[i..j]
    ensures i == 0 ==> k == 0
    ensures i > 0 && Seeds(tape[0]) ==> k > 0
    decreases |tape|
  {
    var rest := Split(tape[1..], window);
    SplitUnfolds(tape, window, rest);
    if i > 0 {
      BlockBack(tape, i, j, window);
      k := BlocksAreRuns(tape[1..], i - 1, j - 1, window);
      if Seeds(tape[0]) && !Joins(tape[0], tape[1], window) {
        k := k + 1;
      }
    } else {
      assert tape[i..j][0] == tape[0];
      k := 0;
      if j > 1 {
        FirstBlock(tape, j, window);
        var n := BlocksAreRuns(tape[1..], 0, j - 1, window);
      } else {
        assert tape[0..1] == [tape[0]];
      }
    }
  }

  /** With nothing reported, no maximal stretch of the ordered tape walks enough prices. */
  lemma {:induction false} NoSweepIsMissed(trades: seq<Trade>, window: real, minLevels: int, i: nat, j: nat)
    requires IsLatest(None, Split(Sorting.Sort(trades, TsKey), window), minLevels)
    requires MaximalBlock(Sorting.Sort(trades, TsKey), i, j, window)
    ensures 1 + StrictSteps(Sorting.Sort(trades, TsKey)[i..j]) < minLevels
  {
    var tape := Sorting.Sort(trades, TsKey);
    var k := BlocksAreRuns(tape, i, j, window);
    assert tape[i..j][0].side.Some?;
    LevelsAreStrictSteps(tape[i..j], window);
  }

  // ---- How much a flow observation is worth ---------------------------------------------------------

  function Clamp01(x: real): real { MinR(1.0, MaxR(0.0, x)) }

  function OutlierStrength(zscore: Option<real>, threshold: real): real {
    if zscore.Some? && zscore.value >= threshold then MaxR(0.0, MinR(1.0, 0.5 + 0.10 * (zscore.value - threshold))) else 0.0
  }

  function SweepStrength(sweep: Option<Sweep>, minLevels: int): real {
    if sweep.Some? then MaxR(0.0, MinR(1.0, 0.6 + 0.10 * (sweep.value.levels - minLevels) as real)) else 0.0
  }

  function Strength(zscore: Option<real>, sweep: Option<Sweep>, threshold: real, minLevels: int): real {
    var best := MaxR(OutlierStrength(zscore, threshold), SweepStrength(sweep, minLevels));
    if zscore.Some? && zscore.value >= threshold && sweep.Some? then MinR(1.0, best + 0.15) else best
  }

  lemma FractionOf(worth: real, part: real, share: real)
    requires worth >= 0.0 && 0.0 <= part <= 1.0 && share == worth * part
    ensures 0.0 <= share <= worth
  {
    ProductNonNegative(worth, part);
    ProductNonNegative(worth, 1.0 - part);
    assert worth * (1.0 - part) == worth - worth * part;
  }

  method Confidence(base: real, zscore: Option<real>, sweep: Option<Sweep>, threshold: real, minLevels: int) returns (c: real)
    ensures c == Clamp01(base) * Strength(zscore, sweep, threshold, minLevels)
    ensures 0.0 <= c <= Clamp01(base)
  {
    StrengthIsAFraction(zscore, sweep, threshold, minLevels);
    var worth := Clamp01(base);
    if worth <= 0.0 {
      return 0.0;
    }
    var outlier := zscore.Some? && zscore.value >= threshold;
    var strength := 0.0;
    if outlier {
      strength := MaxR(strength, MinR(1.0, 0.5 + 0.10 * (zscore.value - threshold)));
    }
    if sweep.Some? {
      strength := MaxR(strength, MinR(1.0, 0.6 + 0.10 * (sweep.value.levels - minLevels) as real));
    }
    if outlier && sweep.Some? {
      strength := MinR(1.0, strength + 0.15);
    }
    assert strength == Strength(zscore, sweep, threshold, minLevels);
    c := worth * strength;
    FractionOf(worth, strength, c);
  }

  /** An outlier `x` over its threshold is worth a half and a tenth a unit, all of it from five up; below it, nothing. */
  lemma OutlierWorth(threshold: real, x: real)
    ensures OutlierStrength(Some(threshold + x), threshold) == if x < 0.0 then 0.0 else if x >= 5.0 then 1.0 else (5.0 + x) / 10.0
    ensures OutlierStrength(None, threshold) == 0.0
  {
  }

  /** A sweep `n` levels over the least is worth six tenths and a tenth a level, all of it from four up; none is worth nothing. */
  lemma SweepWorth(s: Sweep, minLevels: int, n: nat)
    requires s.levels == minLevels + n
    ensures SweepStrength(Some(s), minLevels) == if n >= 4 then 1.0 else (6 + n) as real / 10.0
    ensures SweepStrength(None, minLevels) == 0.0
  {
  }

  /** The better of the two, and fifteen hundredths more, up to all of it, when both are there. */
  lemma TogetherWorth(zscore: Option<real>, sweep: Option<Sweep>, threshold: real, minLevels: int)
    ensures var o, s := OutlierStrength(zscore, threshold), SweepStrength(sweep, minLevels);
            var better := if o > s then o else s;
            Strength(zscore, sweep, threshold, minLevels) ==
            if zscore.None? || zscore.value < threshold || sweep.None? then better
            else if better >= 0.85 then 1.0 else better + 0.15
    ensures (sweep.Some? ==> sweep.value.levels >= minLevels) ==>
            var o, s := OutlierStrength(zscore, threshold), SweepStrength(sweep, minLevels);
            (o > 0.0 <==> zscore.Some? && zscore.value >= threshold) && (s > 0.0 <==> sweep.Some?)
  {
  }

  lemma StrengthIsAFraction(zscore: Option<real>, sweep: Option<Sweep>, threshold: real, minLevels: int)
    ensures 0.0 <= Strength(zscore, sweep, threshold, minLevels) <= 1.0
  {
  }

  ghost predicate AtLeast(less: Option<real>, more: Option<real>) {
    less.None? || (more.Some? && more.value >= less.value)
  }

  ghost predicate WalksFurther(less: Option<Sweep>, more: Option<Sweep>) {
    less.None? || (more.Some? && more.value.levels >= less.value.levels)
  }

  /** More evidence is never worth less, and no amount of it lifts the ceiling the caller set. */
  lemma MoreEvidenceNeverHurts(z1: Option<real>, z2: Option<real>, s1: Option<Sweep>, s2: Option<Sweep>, threshold: real, minLevels: int, base: real)
    requires AtLeast(z1, z2) && WalksFurther(s1, s2)
    ensures Clamp01(base) * Strength(z1, s1, threshold, minLevels) <= Clamp01(base) * Strength(z2, s2, threshold, minLevels) <= Clamp01(base)
  {
    StrengthGrows(z1, z2, s1, s2, threshold, minLevels);
    StrengthIsAFraction(z2, s2, threshold, minLevels);
    ProductMonotone(Strength(z1, s1, threshold, minLevels), Strength(z2, s2, threshold, minLevels), Clamp01(base));
    ProductMonotone(Strength(z2, s2, threshold, minLevels), 1.0, Clamp01(base));
  }

  lemma StrengthGrows(z1: Option<real>, z2: Option<real>, s1: Option<Sweep>, s2: Option<Sweep>, threshold: real, minLevels: int)
    requires AtLeast(z1, z2) && WalksFurther(s1, s2)
    ensures Strength(z1, s1, threshold, minLevels) <= Strength(z2, s2, threshold, minLevels)
  {
    assert OutlierStrength(z1, threshold) <= OutlierStrength(z2, threshold);
    assert SweepStrength(s1, minLevels) <= SweepStrength(s2, minLevels);
  }
}
