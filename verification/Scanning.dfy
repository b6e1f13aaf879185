/** Which exclusive events a capped scan may price (backend/app/detectors/runner.py). */
module Watchlist {
  import opened Prelude
  import opened TextOrder

  datatype Row = Row(event: string, ticker: string)

  /** Rows of one event stand together, and no market is listed twice: what the query's ordering gives. */
  ghost predicate Grouped(rows: seq<Row>) {
    && (forall i, j :: 0 <= i < j < |rows| ==> rows[i].ticker != rows[j].ticker)
    && (forall i, j, k :: 0 <= i < j < k < |rows| && rows[i].event == rows[k].event ==> rows[j].event == rows[i].event)
  }

  /** The tickers of an event, in row order. */
  function LegList(rows: seq<Row>, event: string): seq<string> {
    if rows == [] then []
    else
      var last := rows[|rows| - 1];
      LegList(rows[..|rows| - 1], event) + if last.event == event then [last.ticker] else []
  }

  ghost function Legs(rows: seq<Row>, event: string): set<string> {
    set i | 0 <= i < |rows| && rows[i].event == event :: rows[i].ticker
  }

  predicate Capped(rows: seq<Row>, cap: nat) {
    |rows| >= cap
  }

  /** An event that is offered: more than one leg, all of them watched, and not the one a cap may have cut. */
  ghost predicate Offered(rows: seq<Row>, cap: nat, watchlist: set<string>, event: string) {
    && |Legs(rows, event)| > 1 && Legs(rows, event) <= watchlist
    && (Capped(rows, cap) && rows != [] ==> event != rows[|rows| - 1].event)
  }

  lemma RowsPrefix(rows: seq<Row>, n: nat)
    requires Grouped(rows) && n <= |rows|
    ensures Grouped(rows[..n])
  {
  }

  lemma {:induction false} LegListIsLegs(rows: seq<Row>, event: string)
    requires Grouped(rows)
    ensures forall t :: t in LegList(rows, event) <==> t in Legs(rows, event)
    ensures |LegList(rows, event)| == |Legs(rows, event)|
  {
    if rows == [] {
      assert Legs(rows, event) == {};
    } else {
      var n := |rows| - 1;
      var init := rows[..n];
      RowsPrefix(rows, n);
      LegListIsLegs(init, event);
      LegsNext(rows, event);
    }
  }

  lemma LegsNext(rows: seq<Row>, event: string)
    requires Grouped(rows) && rows != []
    ensures var last := rows[|rows| - 1]; var init := rows[..|rows| - 1];
      && Legs(rows, event) == Legs(init, event) + (if last.event == event then {last.ticker} else {})
      && last.ticker !in Legs(init, event)
  {
    var n := |rows| - 1;
    var init := rows[..n];
    forall t | t in Legs(rows, event) && t != rows[n].ticker ensures t in Legs(init, event) {
      var i :| 0 <= i < |rows| && rows[i].event == event && rows[i].ticker == t;
      assert init[i] == rows[i];
    }
    forall t | t in Legs(init, event) ensures t in Legs(rows, event) && t != rows[n].ticker {
      var i :| 0 <= i < |init| && init[i].event == event && init[i].ticker == t;
      assert rows[i] == init[i];
    }
    if rows[n].event == event {
      assert rows[n].ticker in Legs(rows, event);
    }
    assert forall i :: 0 <= i < n ==> rows[i].ticker != rows[n].ticker;
  }

  method GroupByEvent(rows: seq<Row>) returns (byEvent: map<string, seq<string>>)
    ensures forall e :: e in byEvent <==> LegList(rows, e) != []
    ensures forall e :: e in byEvent ==> byEvent[e] == LegList(rows, e)
  {
    byEvent := map[];
    for i := 0 to |rows|
      invariant forall e :: e in byEvent <==> LegList(rows[..i], e) != []
      invariant forall e :: e in byEvent ==> byEvent[e] == LegList(rows[..i], e)
    {
      assert rows[..i + 1][..i] == rows[..i];
      var row := rows[i];
      byEvent := byEvent[row.event := (if row.event in byEvent then byEvent[row.event] else []) + [row.ticker]];
    }
    assert rows[..|rows|] == rows;
  }

  predicate FullyWatched(tickers: seq<string>, watchlist: set<string>) {
    |tickers| > 1 && forall t :: t in tickers ==> t in watchlist
  }

  method KeepWatched(byEvent: map<string, seq<string>>, watchlist: set<string>) returns (r: map<string, seq<string>>)
    ensures forall e :: e in r <==> e in byEvent && FullyWatched(byEvent[e], watchlist)
    ensures forall e :: e in r ==> Increasing(r[e]) && Members(r[e]) == Members(byEvent[e])
  {
    r := map[];
    var todo := byEvent.Keys;
    while todo != {}
      invariant todo <= byEvent.Keys
      invariant forall e :: e in r <==> e in byEvent.Keys - todo && FullyWatched(byEvent[e], watchlist)
      invariant forall e :: e in r ==> Increasing(r[e]) && Members(r[e]) == Members(byEvent[e])
      decreases |todo|
    {
      var e := AnyOf(todo);
      if FullyWatched(byEvent[e], watchlist) {
        var sorted := Sorted(set t | t in byEvent[e]);
        r := r[e := sorted];
      }
      todo := todo - {e};
    }
  }

  lemma {:induction false} FullyWatchedIsOffered(rows: seq<Row>, watchlist: set<string>, e: string)
    requires Grouped(rows)
    ensures FullyWatched(LegList(rows, e), watchlist) <==> |Legs(rows, e)| > 1 && Legs(rows, e) <= watchlist
    ensures Members(LegList(rows, e)) == Legs(rows, e)
    ensures LegList(rows, e) == [] <==> Legs(rows, e) == {}
  {
    LegListIsLegs(rows, e);
  }

  method WatchedExclusiveEvents(rows: seq<Row>, cap: nat, watchlist: set<string>) returns (r: map<string, seq<string>>)
    requires Grouped(rows) && cap > 0
    ensures forall e :: e in r <==> Offered(rows, cap, watchlist, e)
    ensures forall e :: e in r ==> Increasing(r[e]) && Members(r[e]) == Legs(rows, e)
  {
    forall e
      ensures FullyWatched(LegList(rows, e), watchlist) <==> |Legs(rows, e)| > 1 && Legs(rows, e) <= watchlist
      ensures Members(LegList(rows, e)) == Legs(rows, e) && (LegList(rows, e) == [] <==> Legs(rows, e) == {})
    {
      FullyWatchedIsOffered(rows, watchlist, e);
    }
    if watchlist == {} {
      return map[];
    }
    var byEvent := GroupByEvent(rows);
    if Capped(rows, cap) {
      byEvent := byEvent - {rows[|rows| - 1].event};
    }
    r := KeepWatched(byEvent, watchlist);
  }

  /**
    * Whatever a capped query leaves out, an event that is offered has its whole leg set: every
    * leg of it anywhere in the table. Only the event the cut may run through is given up.
    */
  lemma OfferedSetsAreWhole(all: seq<Row>, cap: nat, watchlist: set<string>, event: string)
    requires Grouped(all) && cap > 0
    ensures var rows := if |all| <= cap then all else all[..cap];
      && Grouped(rows)
      && (Offered(rows, cap, watchlist, event) ==> Legs(rows, event) == Legs(all, event))
      && (Offered(rows, cap, watchlist, event) <==>
        |Legs(all, event)| > 1 && Legs(all, event) <= watchlist
        && (|all| >= cap ==> event != all[cap - 1].event && forall i :: cap <= i < |all| ==> all[i].event != event))
  {
    if |all| > cap {
      var rows := all[..cap];
      RowsPrefix(all, cap);
      if forall i :: cap <= i < |all| ==> all[i].event != event {
        NothingPastTheCut(all, cap, event);
      } else {
        var i :| cap <= i < |all| && all[i].event == event;
        if event != all[cap - 1].event {
          AbsentBeforeTheCut(all, cap, event, i);
        }
      }
    }
  }

  lemma NothingPastTheCut(all: seq<Row>, cap: nat, event: string)
    requires cap <= |all| && forall i :: cap <= i < |all| ==> all[i].event != event
    ensures Legs(all[..cap], event) == Legs(all, event)
  {
    var rows := all[..cap];
    forall t | t in Legs(all, event) ensures t in Legs(rows, event) {
      var i :| 0 <= i < |all| && all[i].event == event && all[i].ticker == t;
      assert rows[i] == all[i];
    }
    forall t | t in Legs(rows, event) ensures t in Legs(all, event) {
      var i :| 0 <= i < |rows| && rows[i].event == event && rows[i].ticker == t;
      assert all[i] == rows[i];
    }
  }

  /** An event found past the cut but not at it has nothing before it. */
  lemma AbsentBeforeTheCut(all: seq<Row>, cap: nat, event: string, past: nat)
    requires Grouped(all) && 0 < cap <= past < |all| && all[past].event == event && all[cap - 1].event != event
    ensures Legs(all[..cap], event) == {}
  {
    var rows := all[..cap];
    forall i | 0 <= i < cap ensures rows[i].event != event {
      assert rows[i] == all[i];
    }
  }
}

/** Repeats of a finding are folded into the row that first reported it (backend/app/detectors/base.py). */
module Signals {
  import opened Prelude

  datatype Finding = Finding(detector: string, ticker: string, side: string, edge: real)

  datatype Signal = Signal(about: Finding, lastSeen: int, seenCount: int)

  datatype Folding = Folding(window: int, threshold: real)

  predicate IsMaterialChange(previous: real, current: real, threshold: real) {
    AbsR(current - previous) >= threshold
  }

  predicate SameSubject(a: Finding, b: Finding) {
    a.detector == b.detector && a.ticker == b.ticker && a.side == b.side
  }

  predicate Matches(s: Signal, f: Finding, since: int) {
    SameSubject(s.about, f) && s.lastSeen >= since
  }

  /** A most recently seen match. */
  ghost predicate IsPrevious(rows: seq<Signal>, f: Finding, since: int, i: nat) {
    i < |rows| && Matches(rows[i], f, since)
    && forall j :: 0 <= j < |rows| && Matches(rows[j], f, since) ==> rows[j].lastSeen <= rows[i].lastSeen
  }

  function Fresh(f: Finding, now: int): Signal {
    Signal(f, now, 1)
  }

  function Again(s: Signal, now: int): Signal {
    s.(lastSeen := now, seenCount := s.seenCount + 1)
  }

  ghost predicate Folds(before: seq<Signal>, f: Finding, now: int, how: Folding, after: seq<Signal>, i: nat) {
    how.window > 0 && IsPrevious(before, f, now - how.window, i) && !IsMaterialChange(before[i].about.edge, f.edge, how.threshold)
    && after == before[i := Again(before[i], now)]
  }

  /** No recent match, or one whose edge has moved. */
  ghost predicate Appends(before: seq<Signal>, f: Finding, now: int, how: Folding, after: seq<Signal>) {
    && (how.window <= 0
      || (forall i :: 0 <= i < |before| ==> !Matches(before[i], f, now - how.window))
      || exists i: nat :: IsPrevious(before, f, now - how.window, i) && IsMaterialChange(before[i].about.edge, f.edge, how.threshold))
    && after == before + [Fresh(f, now)]
  }

  ghost predicate Records(before: seq<Signal>, f: Finding, now: int, how: Folding, after: seq<Signal>) {
    Appends(before, f, now, how, after) || exists i: nat :: Folds(before, f, now, how, after, i)
  }

  method FindPrevious(rows: seq<Signal>, f: Finding, since: int) returns (at: Option<nat>)
    ensures at.None? ==> forall i :: 0 <= i < |rows| ==> !Matches(rows[i], f, since)
    ensures at.Some? ==> IsPrevious(rows, f, since, at.value)
  {
    at := None;
    for i := 0 to |rows|
      invariant at.None? ==> forall j :: 0 <= j < i ==> !Matches(rows[j], f, since)
      invariant at.Some? ==> at.value < i && IsPrevious(rows[..i], f, since, at.value)
    {
      if Matches(rows[i], f, since) && (at.None? || rows[at.value].lastSeen < rows[i].lastSeen) {
        at := Some(i);
      }
    }
    assert rows[..|rows|] == rows;
  }

  /** The signal table. */
  class Recorder {
    var rows: seq<Signal>

    constructor ()
      ensures rows == []
    {
      rows := [];
    }

    method Record(f: Finding, now: int, how: Folding)
      modifies this
      ensures Records(old(rows), f, now, how, rows)
    {
      if how.window > 0 {
        var at := FindPrevious(rows, f, now - how.window);
        if at.Some? && !IsMaterialChange(rows[at.value].about.edge, f.edge, how.threshold) {
          ghost var before := rows;
          rows := rows[at.value := Again(rows[at.value], now)];
          assert Folds(before, f, now, how, rows, at.value);
          return;
        }
      }
      rows := rows + [Fresh(f, now)];
    }
  }

  /** A row of the same subject, seen within the window, and nearer in edge than the threshold or not. */
  ghost predicate SeenLately(s: Signal, f: Finding, now: int, window: int) {
    s.about.(edge := 0.0) == f.(edge := 0.0) && now - s.lastSeen <= window
  }

  ghost predicate Near(s: Signal, f: Finding, threshold: real) {
    -threshold < s.about.edge - f.edge < threshold
  }

  /** A new row is written only for news: never when every row seen lately is near, always when none is. */
  lemma NewRowOnlyForNews(before: seq<Signal>, f: Finding, now: int, how: Folding, after: seq<Signal>)
    requires Records(before, f, now, how, after)
    ensures |after| == |before| || after == before + [Signal(f, now, 1)]
    ensures how.window <= 0 ==> |after| == |before| + 1
    ensures (forall i :: 0 <= i < |before| && SeenLately(before[i], f, now, how.window) ==> !Near(before[i], f, how.threshold)) ==>
              |after| == |before| + 1
    ensures how.window > 0 && (exists i :: 0 <= i < |before| && SeenLately(before[i], f, now, how.window))
            && (forall i :: 0 <= i < |before| && SeenLately(before[i], f, now, how.window) ==> Near(before[i], f, how.threshold)) ==>
              |after| == |before|
  {
    forall i | 0 <= i < |before|
      ensures SeenLately(before[i], f, now, how.window) <==> Matches(before[i], f, now - how.window)
      ensures Near(before[i], f, how.threshold) <==> !IsMaterialChange(before[i].about.edge, f.edge, how.threshold)
    {
    }
  }

  /** Whichever it is, the row now shows the finding as just seen. */
  lemma RecordedIsSeenNow(before: seq<Signal>, f: Finding, now: int, how: Folding, after: seq<Signal>)
    requires Records(before, f, now, how, after)
    ensures exists i :: 0 <= i < |after| && StandsFor(after[i], f, how.threshold) && after[i].lastSeen == now
  {
    if Appends(before, f, now, how, after) {
      assert StandsFor(after[|before|], f, how.threshold);
    } else {
      var i: nat :| Folds(before, f, now, how, after, i);
      assert StandsFor(after[i], f, how.threshold);
    }
  }

  // ---- A history of findings ------------------------------------------------------------------

  /** `tables[k]` is the table after the first k findings. */
  ghost predicate IsHistory(tables: seq<seq<Signal>>, fs: seq<Finding>, nows: seq<int>, how: Folding) {
    |tables| == |fs| + 1 == |nows| + 1 && forall k :: 0 <= k < |fs| ==> Records(tables[k], fs[k], nows[k], how, tables[k + 1])
  }

  function TotalSeen(rows: seq<Signal>): int {
    if rows == [] then 0 else TotalSeen(rows[..|rows| - 1]) + rows[|rows| - 1].seenCount
  }

  lemma {:induction false} TotalSeenUpdate(rows: seq<Signal>, i: nat, s: Signal)
    requires i < |rows|
    ensures TotalSeen(rows[i := s]) == TotalSeen(rows) - rows[i].seenCount + s.seenCount
    decreases |rows|
  {
    var n := |rows| - 1;
    if i == n {
      assert rows[i := s][..n] == rows[..n];
    } else {
      assert rows[i := s][..n] == rows[..n][i := s];
      TotalSeenUpdate(rows[..n], i, s);
    }
  }

  lemma {:induction false} RecordCounts(before: seq<Signal>, f: Finding, now: int, how: Folding, after: seq<Signal>)
    requires Records(before, f, now, how, after)
    ensures TotalSeen(after) == TotalSeen(before) + 1
  {
    if Appends(before, f, now, how, after) {
      assert after[..|before|] == before;
    } else {
      var i: nat :| Folds(before, f, now, how, after, i);
      TotalSeenUpdate(before, i, Again(before[i], now));
    }
  }

  /** Counters account for every finding ever recorded, folded or not. */
  lemma {:induction false} SeenCountsAddUp(tables: seq<seq<Signal>>, fs: seq<Finding>, nows: seq<int>, how: Folding)
    requires IsHistory(tables, fs, nows, how)
    ensures TotalSeen(tables[|fs|]) == TotalSeen(tables[0]) + |fs|
    ensures tables[0] == [] ==> TotalSeen(tables[|fs|]) == |fs|
    decreases |fs|
  {
    if fs != [] {
      var n := |fs| - 1;
      SeenCountsAddUp(tables[..n + 1], fs[..n], nows[..n], how);
      RecordCounts(tables[n], fs[n], nows[n], how, tables[n + 1]);
    }
  }

  /** A row that stands for a finding: the same subject, at an edge not materially different. */
  ghost predicate StandsFor(s: Signal, f: Finding, threshold: real) {
    && s.about.detector == f.detector && s.about.ticker == f.ticker && s.about.side == f.side
    && (s.about.edge == f.edge || -threshold < s.about.edge - f.edge < threshold)
  }

  lemma RowsStay(before: seq<Signal>, f: Finding, now: int, how: Folding, after: seq<Signal>)
    requires Records(before, f, now, how, after)
    ensures |before| <= |after| && forall i :: 0 <= i < |before| ==> after[i].about == before[i].about
    ensures exists i :: 0 <= i < |after| && StandsFor(after[i], f, how.threshold)
  {
    if Appends(before, f, now, how, after) {
      assert StandsFor(after[|before|], f, how.threshold);
    } else {
      var i: nat :| Folds(before, f, now, how, after, i);
      assert StandsFor(after[i], f, how.threshold);
    }
  }

  /** Folding hides no news: every finding still has a row that stands for it at the end. */
  lemma {:induction false} EveryFindingIsKept(tables: seq<seq<Signal>>, fs: seq<Finding>, nows: seq<int>, how: Folding, k: nat)
    requires IsHistory(tables, fs, nows, how) && k < |fs|
    ensures exists i :: 0 <= i < |tables[|fs|]| && StandsFor(tables[|fs|][i], fs[k], how.threshold)
    decreases |fs|
  {
    var n := |fs| - 1;
    RowsStay(tables[n], fs[n], nows[n], how, tables[n + 1]);
    if k < n {
      EveryFindingIsKept(tables[..n + 1], fs[..n], nows[..n], how, k);
      var i :| 0 <= i < |tables[n]| && StandsFor(tables[n][i], fs[k], how.threshold);
      assert StandsFor(tables[n + 1][i], fs[k], how.threshold);
    }
  }
}
