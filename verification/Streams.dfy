/**
 The stream processor of `backend/app/ingest/streams.py`: one order book per
 market, resyncs that invalidate them all, and a throttled record of what each
 fresh book looked like.
 */
module Streams {
  import opened Prelude
  import opened Greedy
  import opened OrderBooks

  const DEPTH: nat := 10

  datatype Row = Row(ticker: string, ts: int, seqNo: Option<int>, yes: seq<Level>, no: seq<Level>)

  datatype Event =
    | Resync(reason: string)
    | SnapshotIn(ticker: string, body: SnapshotBody, seqNo: Option<int>, now: int)
    | DeltaIn(ticker: string, delta: DeltaBody, seqNo: Option<int>, now: int)

  /** The processor's fields, with every book read out. */
  datatype Stream = Stream(
    books: map<string, BookState>, resyncNeeded: set<string>, lastWrite: map<string, int>, rows: seq<Row>)

  const IDLE: Stream := Stream(map[], {}, map[], [])

  function AfterResync(s: Stream, reason: string): Stream {
    s.(books := map t | t in s.books :: AfterStale(s.books[t], reason), resyncNeeded := s.resyncNeeded + s.books.Keys)
  }

  /** `r` is the record of book `b` at `now`. */
  ghost predicate Records(r: Row, t: string, b: BookState, now: int) {
    && r.ticker == t && r.ts == now && r.seqNo == b.seqNo && !b.stale
    && IsTop(r.yes, b.yes, DEPTH) && IsTop(r.no, b.no, DEPTH)
  }

  /** A fresh book is written unless it was written less than `throttle` ago. */
  predicate Due(s: Stream, t: string, now: int, throttle: int) {
    t in s.books && !s.books[t].stale && (t !in s.lastWrite || now - s.lastWrite[t] >= throttle)
  }

  ghost predicate MaybeRecorded(s: Stream, s': Stream, t: string, now: int, throttle: int) {
    if Due(s, t, now, throttle)
    then |s'.rows| == |s.rows| + 1 && Records(s'.rows[|s.rows|], t, s.books[t], now)
         && s' == s.(lastWrite := s.lastWrite[t := now], rows := s.rows + [s'.rows[|s.rows|]])
    else s' == s
  }

  /** The processor with a snapshot applied, before anything is recorded. */
  function WithSnapshot(s: Stream, t: string, body: SnapshotBody, seqNo: Option<int>): Stream {
    var before := if t in s.books then s.books[t] else UNOPENED;
    s.(books := s.books[t := AfterSnapshot(before, body, seqNo)], resyncNeeded := s.resyncNeeded - {t})
  }

  ghost predicate Handled(s: Stream, s': Stream, e: Event, throttle: int) {
    match e
    case Resync(reason) => s' == AfterResync(s, reason)
    case SnapshotIn(t, body, seqNo, now) =>
      if t == "" then s' == s else MaybeRecorded(WithSnapshot(s, t, body, seqNo), s', t, now, throttle)
    case DeltaIn(t, d, seqNo, now) =>
      if t == "" then s' == s
      else if t !in s.books then s' == s.(resyncNeeded := s.resyncNeeded + {t})
      else
        var mid := s.(books := s.books[t := AfterDelta(s.books[t], d, seqNo)]);
        if Accepts(s.books[t], d, seqNo) then MaybeRecorded(mid, s', t, now, throttle)
        else s' == mid.(resyncNeeded := s.resyncNeeded + {t})
  }

  /** `trace` is a run of the processor over `events`, one state per prefix. */
  ghost predicate IsRun(trace: seq<Stream>, events: seq<Event>, throttle: int) {
    && |trace| == |events| + 1 && trace[0] == IDLE
    && forall i :: 0 <= i < |events| ==> Handled(trace[i], trace[i + 1], events[i], throttle)
  }

  // ----- every stale book is waiting for a snapshot -----

  ghost predicate StaleAwaits(s: Stream) {
    forall t :: t in s.books && s.books[t].stale ==> t in s.resyncNeeded
  }

  /** No book is ever both stale and forgotten. */
  lemma {:induction false} StaleBooksAwaitResync(trace: seq<Stream>, events: seq<Event>, throttle: int, i: nat)
    requires IsRun(trace, events, throttle) && i <= |events|
    ensures StaleAwaits(trace[i])
  {
    if i > 0 {
      StaleBooksAwaitResync(trace, events, throttle, i - 1);
      assert Handled(trace[i - 1], trace[i], events[i - 1], throttle);
    }
  }

  // ----- the throttle -----

  ghost predicate Spaced(rows: seq<Row>, throttle: int) {
    forall a, b :: 0 <= a < b < |rows| && rows[a].ticker == rows[b].ticker ==> rows[b].ts - rows[a].ts >= throttle
  }

  /** Row `a` is the newest of its market. */
  ghost predicate Newest(rows: seq<Row>, a: int) {
    0 <= a < |rows| && forall b :: a < b < |rows| ==> rows[b].ticker != rows[a].ticker
  }

  /** Each row is at least the throttle after the row of its market before it. */
  ghost predicate SpacedNext(rows: seq<Row>, throttle: int) {
    forall a, b :: 0 <= b < |rows| && Newest(rows[..b], a) && rows[a].ticker == rows[b].ticker ==> rows[b].ts - rows[a].ts >= throttle
  }

  ghost predicate LastWriteIsNewest(s: Stream) {
    forall a :: Newest(s.rows, a) ==> s.rows[a].ticker in s.lastWrite && s.rows[a].ts == s.lastWrite[s.rows[a].ticker]
  }

  /** A row that is due is spaced from the last of its market. */
  lemma RecordKeepsSpacing(s: Stream, s': Stream, t: string, now: int, throttle: int)
    requires MaybeRecorded(s, s', t, now, throttle) && SpacedNext(s.rows, throttle) && LastWriteIsNewest(s)
    ensures SpacedNext(s'.rows, throttle) && LastWriteIsNewest(s')
  {
    if Due(s, t, now, throttle) {
      var n := |s.rows|;
      assert s'.rows == s.rows + [s'.rows[n]] && s'.rows[..n] == s.rows;
      forall a, b | 0 <= b < n + 1 && Newest(s'.rows[..b], a) && s'.rows[a].ticker == s'.rows[b].ticker
        ensures s'.rows[b].ts - s'.rows[a].ts >= throttle
      {
        if b < n { assert s'.rows[..b] == s.rows[..b]; }
      }
      forall a | Newest(s'.rows, a)
        ensures s'.rows[a].ticker in s'.lastWrite && s'.rows[a].ts == s'.lastWrite[s'.rows[a].ticker]
      {
        if a < n {
          assert s'.rows[n].ticker != s'.rows[a].ticker;
          assert forall b :: a < b < n ==> s'.rows[b] == s.rows[b];
          assert Newest(s.rows, a);
        }
      }
    }
  }

  /** With a throttle that is not negative the gaps add up, so any two rows of a market are spaced. */
  lemma {:induction false} SpacedThroughout(rows: seq<Row>, throttle: int, a: int, b: int)
    requires SpacedNext(rows, throttle) && throttle >= 0 && 0 <= a < b < |rows| && rows[a].ticker == rows[b].ticker
    ensures rows[b].ts - rows[a].ts >= throttle
    decreases b - a
  {
    if c :| a < c < b && rows[c].ticker == rows[a].ticker {
      SpacedThroughout(rows, throttle, a, c);
      SpacedThroughout(rows, throttle, c, b);
    } else {
      assert forall c :: a < c < b ==> rows[..b][c] == rows[c];
      assert Newest(rows[..b], a);
    }
  }

  /** Whatever the clock does, a row is at least the throttle after the last of its market, and so after every one. */
  lemma {:induction false} RowsAreThrottled(trace: seq<Stream>, events: seq<Event>, throttle: int, i: nat)
    requires IsRun(trace, events, throttle) && i <= |events|
    ensures SpacedNext(trace[i].rows, throttle) && LastWriteIsNewest(trace[i])
    ensures throttle >= 0 ==> Spaced(trace[i].rows, throttle)
  {
    if i > 0 {
      var s, s', e := trace[i - 1], trace[i], events[i - 1];
      RowsAreThrottled(trace, events, throttle, i - 1);
      assert Handled(s, s', e, throttle);
      StepKeepsSpacing(s, s', e, throttle);
    }
    if throttle >= 0 {
      var rows := trace[i].rows;
      forall a, b | 0 <= a < b < |rows| && rows[a].ticker == rows[b].ticker ensures rows[b].ts - rows[a].ts >= throttle {
        SpacedThroughout(rows, throttle, a, b);
      }
    }
  }

  lemma StepKeepsSpacing(s: Stream, s': Stream, e: Event, throttle: int)
    requires Handled(s, s', e, throttle) && SpacedNext(s.rows, throttle) && LastWriteIsNewest(s)
    ensures SpacedNext(s'.rows, throttle) && LastWriteIsNewest(s')
  {
    match e
    case Resync(reason) =>
    case SnapshotIn(t, body, seqNo, now) =>
      if t != "" { RecordKeepsSpacing(WithSnapshot(s, t, body, seqNo), s', t, now, throttle); }
    case DeltaIn(t, d, seqNo, now) =>
      if t in s.books && t != "" && Accepts(s.books[t], d, seqNo) {
        var mid := s.(books := s.books[t := AfterDelta(s.books[t], d, seqNo)]);
        RecordKeepsSpacing(mid, s', t, now, throttle);
      }
  }

  // ----- nothing that is due is missed -----

  /** Every market with a write time has a row to show for it. */
  ghost predicate WritesHaveRows(s: Stream) {
    forall t :: t in s.lastWrite ==> HasRow(s.rows, t)
  }

  ghost predicate HasRow(rows: seq<Row>, t: string) {
    exists a :: 0 <= a < |rows| && rows[a].ticker == t
  }

  lemma RowExtends(rows: seq<Row>, r: Row, t: string)
    ensures HasRow(rows + [r], t) <==> HasRow(rows, t) || r.ticker == t
  {
    var all := rows + [r];
    assert all[|rows|] == r;
    if HasRow(rows, t) {
      var a :| 0 <= a < |rows| && rows[a].ticker == t;
      assert all[a] == rows[a];
    }
  }

  lemma RecordHasRow(s: Stream, s': Stream, t: string, now: int, throttle: int)
    requires MaybeRecorded(s, s', t, now, throttle) && WritesHaveRows(s)
    ensures WritesHaveRows(s')
  {
    if Due(s, t, now, throttle) {
      forall u | u in s'.lastWrite ensures HasRow(s'.rows, u) {
        RowExtends(s.rows, s'.rows[|s.rows|], u);
      }
    }
  }

  lemma {:induction false} WrittenMeansRow(trace: seq<Stream>, events: seq<Event>, throttle: int, i: nat)
    requires IsRun(trace, events, throttle) && i <= |events|
    ensures WritesHaveRows(trace[i])
  {
    if i > 0 {
      WrittenMeansRow(trace, events, throttle, i - 1);
      assert Handled(trace[i - 1], trace[i], events[i - 1], throttle);
      StepHasRow(trace[i - 1], trace[i], events[i - 1], throttle);
    }
  }

  lemma StepHasRow(s: Stream, s': Stream, e: Event, throttle: int)
    requires Handled(s, s', e, throttle) && WritesHaveRows(s)
    ensures WritesHaveRows(s')
  {
    match e
    case Resync(reason) =>
    case SnapshotIn(t, body, seqNo, now) =>
      if t != "" { RecordHasRow(WithSnapshot(s, t, body, seqNo), s', t, now, throttle); }
    case DeltaIn(t, d, seqNo, now) =>
      if t in s.books && t != "" && Accepts(s.books[t], d, seqNo) {
        RecordHasRow(s.(books := s.books[t := AfterDelta(s.books[t], d, seqNo)]), s', t, now, throttle);
      }
  }

  lemma {:induction false} NewestRow(rows: seq<Row>, t: string) returns (a: nat)
    requires HasRow(rows, t)
    ensures Newest(rows, a) && rows[a].ticker == t
    decreases |rows|
  {
    var n := |rows| - 1;
    if rows[n].ticker == t {
      a := n;
    } else {
      assert rows == rows[..n] + [rows[n]];
      RowExtends(rows[..n], rows[n], t);
      a := NewestRow(rows[..n], t);
      assert forall b :: 0 <= b < n ==> rows[b] == rows[..n][b];
    }
  }

  /** The event gives market `t` a book to show at `now`: a snapshot, or a delta its book takes. */
  ghost predicate Brings(s: Stream, e: Event, t: string, now: int) {
    match e
    case Resync(_) => false
    case SnapshotIn(u, _, _, at) => u == t && at == now
    case DeltaIn(u, d, seqNo, at) => u == t && at == now && u in s.books && Accepts(s.books[u], d, seqNo)
  }

  /** The newest row of `t` was written less than `throttle` before `now`. */
  ghost predicate Recent(rows: seq<Row>, t: string, now: int, throttle: int) {
    exists a :: Newest(rows, a) && rows[a].ticker == t && now - rows[a].ts < throttle
  }

  /** `rows'` is `rows` and one more row, of `t` at `now`. */
  ghost predicate OneMore(rows: seq<Row>, rows': seq<Row>, t: string, now: int) {
    && |rows'| == |rows| + 1 && rows'[..|rows|] == rows
    && rows'[|rows|].ticker == t && rows'[|rows|].ts == now
  }

  lemma RecentIsNotDue(s: Stream, t: string, now: int, throttle: int)
    requires LastWriteIsNewest(s) && WritesHaveRows(s)
    ensures Recent(s.rows, t, now, throttle) <==> t in s.lastWrite && now - s.lastWrite[t] < throttle
  {
    if t in s.lastWrite {
      var a := NewestRow(s.rows, t);
    }
  }

  lemma BringsIsRecorded(s: Stream, s': Stream, e: Event, throttle: int, t: string, now: int) returns (mid: Stream)
    requires Handled(s, s', e, throttle) && t != "" && Brings(s, e, t, now)
    ensures MaybeRecorded(mid, s', t, now, throttle) && mid.rows == s.rows && mid.lastWrite == s.lastWrite
    ensures t in mid.books && !mid.books[t].stale
  {
    match e
    case SnapshotIn(u, body, seqNo, at) =>
      mid := WithSnapshot(s, t, body, seqNo);
    case DeltaIn(u, d, seqNo, at) =>
      mid := s.(books := s.books[t := AfterDelta(s.books[t], d, seqNo)]);
  }

  /**
   Nothing due is missed. Each snapshot, and each delta a book takes, leaves a
   fresh book and exactly one new row of it, unless the newest row of the market
   is younger than the throttle: then no row. So a market that moves always has a
   row younger than the throttle to show for it.
   */
  lemma DueRowsAreWritten(trace: seq<Stream>, events: seq<Event>, throttle: int, i: nat, t: string, now: int)
    requires IsRun(trace, events, throttle) && i < |events| && t != "" && Brings(trace[i], events[i], t, now)
    ensures t in trace[i + 1].books && !trace[i + 1].books[t].stale
    ensures if Recent(trace[i].rows, t, now, throttle) then trace[i + 1].rows == trace[i].rows
            else OneMore(trace[i].rows, trace[i + 1].rows, t, now)
    ensures throttle > 0 ==> Recent(trace[i + 1].rows, t, now, throttle)
  {
    var s, s' := trace[i], trace[i + 1];
    assert Handled(s, s', events[i], throttle);
    RowsAreThrottled(trace, events, throttle, i);
    WrittenMeansRow(trace, events, throttle, i);
    RecentIsNotDue(s, t, now, throttle);
    var mid := BringsIsRecorded(s, s', events[i], throttle, t, now);
    if Due(mid, t, now, throttle) {
      assert Newest(s'.rows, |s.rows|);
    }
  }

  /** And no other event writes a row. */
  lemma OnlyFreshBooksAreWritten(trace: seq<Stream>, events: seq<Event>, throttle: int, i: nat)
    requires IsRun(trace, events, throttle) && i < |events|
    requires forall t: string, now: int :: Brings(trace[i], events[i], t, now) ==> t == ""
    ensures trace[i + 1].rows == trace[i].rows
  {
    assert Handled(trace[i], trace[i + 1], events[i], throttle);
    match events[i]
    case Resync(_) =>
    case SnapshotIn(t, _, _, now) =>
      assert Brings(trace[i], events[i], t, now);
    case DeltaIn(t, d, seqNo, now) =>
      assert t in trace[i].books && Accepts(trace[i].books[t], d, seqNo) ==> Brings(trace[i], events[i], t, now);
  }

  // ----- who is waiting for a snapshot -----

  /** The event leaves market `t` to be resynced: a resync of a held book, or a delta no book takes. */
  ghost predicate Untrusts(s: Stream, e: Event, t: string) {
    match e
    case Resync(_) => t in s.books
    case SnapshotIn(_, _, _, _) => false
    case DeltaIn(u, d, seqNo, _) => u == t && !(t in s.books && Accepts(s.books[t], d, seqNo))
  }

  ghost predicate Restores(e: Event, t: string) {
    e.SnapshotIn? && e.ticker == t
  }

  /** Untrusted at `j`, and no snapshot of its own before `i`. */
  ghost predicate UntrustedSince(trace: seq<Stream>, events: seq<Event>, t: string, j: int, i: int)
    requires |trace| == |events| + 1
  {
    0 <= j < i <= |events| && Untrusts(trace[j], events[j], t) && forall k :: j < k < i ==> !Restores(events[k], t)
  }

  /** A market is listed for resync exactly when it was untrusted since its last snapshot. */
  lemma {:induction false} AwaitsExactly(trace: seq<Stream>, events: seq<Event>, throttle: int, i: nat, t: string)
    requires IsRun(trace, events, throttle) && i <= |events| && t != ""
    ensures t in trace[i].resyncNeeded <==> exists j :: UntrustedSince(trace, events, t, j, i)
  {
    if i > 0 {
      AwaitsExactly(trace, events, throttle, i - 1, t);
      var s, s', e := trace[i - 1], trace[i], events[i - 1];
      assert Handled(s, s', e, throttle);
      AwaitsStep(s, s', e, throttle, t);
      assert Untrusts(s, e, t) ==> UntrustedSince(trace, events, t, i - 1, i);
      var before := i - 1;
      if j :| UntrustedSince(trace, events, t, j, before) {
        UntrustedStep(trace, events, t, j, i);
      }
      if j :| UntrustedSince(trace, events, t, j, i) {
        UntrustedStep(trace, events, t, j, i);
      }
    }
  }

  lemma UntrustedStep(trace: seq<Stream>, events: seq<Event>, t: string, j: int, i: int)
    requires |trace| == |events| + 1 && 0 < i <= |events|
    ensures UntrustedSince(trace, events, t, j, i) <==>
      (j == i - 1 && Untrusts(trace[i - 1], events[i - 1], t))
      || (UntrustedSince(trace, events, t, j, i - 1) && !Restores(events[i - 1], t))
  {
  }

  lemma AwaitsStep(s: Stream, s': Stream, e: Event, throttle: int, t: string)
    requires Handled(s, s', e, throttle) && t != ""
    ensures t in s'.resyncNeeded <==> Untrusts(s, e, t) || (t in s.resyncNeeded && !Restores(e, t))
  {
  }

  // ----- one market at a time -----

  /** What one event means to market `t` once its book exists. */
  function Share(e: Event, t: string): seq<Message> {
    match e
    case Resync(reason) => [StaleMsg(reason)]
    case SnapshotIn(u, body, seqNo, _) => if u == t then [SnapshotMsg(body, seqNo)] else []
    case DeltaIn(u, d, seqNo, _) => if u == t then [DeltaMsg(d, seqNo)] else []
  }

  /** The messages of market `t`, in order, resyncs included. */
  function MessagesOf(events: seq<Event>, t: string): seq<Message> {
    if events == [] then []
    else MessagesOf(events[..|events| - 1], t) + Share(events[|events| - 1], t)
  }

  lemma {:induction false} RunBookExtend(msgs: seq<Message>, m: Message)
    ensures RunBook(msgs + [m]) == Handle(RunBook(msgs), m)
    ensures msgs + [] == msgs
  {
    assert (msgs + [m])[..|msgs|] == msgs;
  }

  ghost predicate HasSnapshot(events: seq<Event>, t: string) {
    exists i :: 0 <= i < |events| && events[i].SnapshotIn? && events[i].ticker == t
  }

  lemma HasSnapshotExtend(events: seq<Event>, t: string)
    requires events != []
    ensures var init, last := events[..|events| - 1], events[|events| - 1];
            HasSnapshot(events, t) <==> HasSnapshot(init, t) || (last.SnapshotIn? && last.ticker == t)
  {
    var init, last := events[..|events| - 1], events[|events| - 1];
    if HasSnapshot(init, t) {
      var i :| 0 <= i < |init| && init[i].SnapshotIn? && init[i].ticker == t;
      assert events[i] == init[i];
    }
    if HasSnapshot(events, t) && !(last.SnapshotIn? && last.ticker == t) {
      var i :| 0 <= i < |events| && events[i].SnapshotIn? && events[i].ticker == t;
      assert init[i] == events[i];
    }
  }

  /** Before any snapshot a lone book stays stale with nothing counted. */
  lemma {:induction false} UnopenedStaysStale(events: seq<Event>, t: string)
    requires !HasSnapshot(events, t)
    ensures RunBook(MessagesOf(events, t)).stale && RunBook(MessagesOf(events, t)).gaps == 0
  {
    if events != [] {
      HasSnapshotExtend(events, t);
      UnopenedStaysStale(events[..|events| - 1], t);
      var last := events[|events| - 1];
      var msgs := MessagesOf(events[..|events| - 1], t);
      if Share(last, t) != [] {
        RunBookExtend(msgs, Share(last, t)[0]);
      } else {
        assert MessagesOf(events, t) == msgs;
      }
    }
  }

  /** One event moves a market's book exactly as that market's share of it would. */
  lemma EventReachesItsMarket(s: Stream, s': Stream, e: Event, throttle: int, t: string, b: BookState)
    requires Handled(s, s', e, throttle) && t != ""
    requires t in s.books ==> s.books[t] == b
    requires t !in s.books ==> b.gaps == 0
    ensures t in s'.books <==> t in s.books || (e.SnapshotIn? && e.ticker == t)
    ensures t in s'.books ==> s'.books[t] == if Share(e, t) == [] then b else Handle(b, Share(e, t)[0])
  {
  }

  /**
   Markets do not disturb one another: the book the processor holds for a
   market is the book that market's own messages build, and it exists exactly
   once a snapshot has come.
   */
  lemma {:induction false} BookIsItsOwnMessages(
      trace: seq<Stream>, events: seq<Event>, throttle: int, i: nat, t: string)
    requires IsRun(trace, events, throttle) && i <= |events| && t != ""
    ensures t in trace[i].books <==> HasSnapshot(events[..i], t)
    ensures t in trace[i].books ==> trace[i].books[t] == RunBook(MessagesOf(events[..i], t))
  {
    if i > 0 {
      BookIsItsOwnMessages(trace, events, throttle, i - 1, t);
      assert events[..i][..i - 1] == events[..i - 1] && events[..i][i - 1] == events[i - 1];
      assert Handled(trace[i - 1], trace[i], events[i - 1], throttle);
      OwnMessagesStep(trace[i - 1], trace[i], events[..i], throttle, t);
    }
  }

  /** A stream whose market shows its own messages so far still does after one more event. */
  lemma {:induction false} OwnMessagesStep(s: Stream, s': Stream, events: seq<Event>, throttle: int, t: string)
    requires events != [] && t != "" && Handled(s, s', events[|events| - 1], throttle)
    requires t in s.books <==> HasSnapshot(events[..|events| - 1], t)
    requires t in s.books ==> s.books[t] == RunBook(MessagesOf(events[..|events| - 1], t))
    ensures t in s'.books <==> HasSnapshot(events, t)
    ensures t in s'.books ==> s'.books[t] == RunBook(MessagesOf(events, t))
  {
    var init, last := events[..|events| - 1], events[|events| - 1];
    HasSnapshotExtend(events, t);
    OwnMessagesExtend(events, t);
    if !HasSnapshot(init, t) {
      UnopenedStaysStale(init, t);
    }
    EventReachesItsMarket(s, s', last, throttle, t, RunBook(MessagesOf(init, t)));
  }

  lemma {:induction false} OwnMessagesExtend(events: seq<Event>, t: string)
    requires events != []
    ensures var init, last := events[..|events| - 1], events[|events| - 1];
            RunBook(MessagesOf(events, t))
            == if Share(last, t) == [] then RunBook(MessagesOf(init, t)) else Handle(RunBook(MessagesOf(init, t)), Share(last, t)[0])
  {
    var share, msgs := Share(events[|events| - 1], t), MessagesOf(events[..|events| - 1], t);
    assert MessagesOf(events, t) == msgs + share;
    if share != [] {
      assert share == [share[0]];
      RunBookExtend(msgs, share[0]);
    } else {
      assert msgs + share == msgs;
    }
  }

  /**
   End to end: whenever the processor holds a fresh book, every level of it is
   the clamped total of that market's own accepted moves since its own last
   snapshot; a book with anything untrusted about it is stale.
   */
  lemma {:induction false} HeldBooksRefine(trace: seq<Stream>, events: seq<Event>, throttle: int, i: nat, t: string)
    requires IsRun(trace, events, throttle) && i <= |events| && t != "" && t in trace[i].books
    ensures Refines(trace[i].books[t], Trusted(MessagesOf(events[..i], t)))
  {
    BookIsItsOwnMessages(trace, events, throttle, i, t);
    BookRefines(MessagesOf(events[..i], t));
  }

  /** Every persisted row shows the best ten levels of a book that was fresh when it was written. */
  lemma {:induction false} RowsShowFreshBooks(trace: seq<Stream>, events: seq<Event>, throttle: int, i: nat, a: nat)
    returns (k: nat)
    requires IsRun(trace, events, throttle) && i <= |events| && a < |trace[i].rows|
    ensures 0 < k <= i && |trace[k - 1].rows| <= a < |trace[k].rows| && trace[k].rows[a] == trace[i].rows[a]
    ensures trace[i].rows[a].ticker in trace[k].books
    ensures var r := trace[i].rows[a];
            var b := trace[k].books[r.ticker];
            !b.stale && r.seqNo == b.seqNo && IsTop(r.yes, b.yes, 10) && IsTop(r.no, b.no, 10)
  {
    assert i > 0;
    assert Handled(trace[i - 1], trace[i], events[i - 1], throttle);
    if a < |trace[i - 1].rows| {
      k := RowsShowFreshBooks(trace, events, throttle, i - 1, a);
    } else {
      k := i;
    }
  }

  // ----- the class -----

  class StreamProcessor {
    var books: map<string, OrderBook>
    var resyncNeeded: set<string>
    var lastBookWrite: map<string, int>
    var bookBatch: seq<Row>
    const throttle: int

    /** The fields as one value, every book read out. */
    ghost var view: Stream

    constructor (throttle: int)
      ensures Valid() && view == IDLE && this.throttle == throttle
    {
      books, resyncNeeded, lastBookWrite, bookBatch := map[], {}, map[], [];
      this.throttle := throttle;
      view := IDLE;
    }

    /** No two markets share a book object, and `view` is what the fields say. */
    ghost predicate Valid()
      reads this, books.Values
    {
      && Separate()
      && books.Keys == view.books.Keys
      && (forall t :: t in books ==> books[t].State() == view.books[t])
      && resyncNeeded == view.resyncNeeded && lastBookWrite == view.lastWrite && bookBatch == view.rows
    }

    ghost predicate Separate()
      reads this
    {
      forall t, u :: t in books && u in books && t != u ==> books[t] != books[u]
    }

    /** Every book is as `view` says, except that those outside `todo` have been marked stale. */
    ghost predicate PartlyStale(todo: set<string>, reason: string)
      reads this, books.Values
    {
      && books.Keys == view.books.Keys
      && forall t :: t in books ==> books[t].State() == if t in todo then view.books[t] else AfterStale(view.books[t], reason)
    }

    method MarkOne(ticker: string, reason: string, ghost todo: set<string>)
      requires Separate() && PartlyStale(todo, reason) && ticker in books && ticker in todo
      modifies books[ticker]
      ensures PartlyStale(todo - {ticker}, reason)
    {
      books[ticker].MarkStale(reason);
    }

    /** Mark every book stale. */
    method MarkAll(reason: string)
      requires Separate() && PartlyStale(books.Keys, reason)
      modifies books.Values
      ensures PartlyStale({}, reason)
    {
      var todo := books.Keys;
      while todo != {}
        invariant todo <= books.Keys && PartlyStale(todo, reason)
        decreases |todo|
      {
        var ticker := AnyOf(todo);
        MarkOne(ticker, reason, todo);
        todo := todo - {ticker};
      }
    }

    method OnResync(reason: string)
      requires Valid()
      modifies this`resyncNeeded, this`view, books.Values
      ensures Valid()
      ensures Handled(old(view), view, Resync(reason), throttle)
    {
      MarkAll(reason);
      ListAll(reason);
    }

    /** Every held market is listed for resync. */
    method ListAll(reason: string)
      requires Separate() && PartlyStale({}, reason)
      requires resyncNeeded == view.resyncNeeded && lastBookWrite == view.lastWrite && bookBatch == view.rows
      modifies this`resyncNeeded, this`view
      ensures Valid() && view == AfterResync(old(view), reason)
    {
      resyncNeeded := resyncNeeded + books.Keys;
      view := AfterResync(view, reason);
    }

    /** All but this market's book is as `view` says; the book itself is `b`. */
    ghost predicate ShownBut(ticker: string, b: BookState)
      reads this, books.Values
    {
      && Separate()
      && ticker in books && books[ticker].State() == b
      && books.Keys == view.books.Keys + {ticker}
      && (forall t :: t in books && t != ticker ==> books[t].State() == view.books[t])
      && lastBookWrite == view.lastWrite && bookBatch == view.rows
    }

    /** Find the market's book, created empty if this is the first that is heard of it. */
    method SetDefault(ticker: string)
      requires Valid()
      modifies this`books
      ensures ShownBut(ticker, if ticker in view.books then view.books[ticker] else UNOPENED)
      ensures fresh(books.Values - old(books.Values))
    {
      if ticker !in books {
        var book := new OrderBook(ticker);
        books := books[ticker := book];
      }
    }

    method Rebuild(ticker: string, body: SnapshotBody, seqNo: Option<int>, ghost b: BookState)
      requires ShownBut(ticker, b)
      modifies books[ticker]
      ensures ShownBut(ticker, AfterSnapshot(b, body, seqNo))
    {
      books[ticker].ApplySnapshot(body, seqNo);
    }

    /** The rebuilt book is fresh: show it, and stop asking for it. */
    method Publish(ticker: string, ghost b: BookState)
      requires ShownBut(ticker, b) && resyncNeeded == view.resyncNeeded
      modifies this`view, this`resyncNeeded
      ensures Valid()
      ensures view == old(view).(books := old(view).books[ticker := b], resyncNeeded := old(view).resyncNeeded - {ticker})
    {
      resyncNeeded := resyncNeeded - {ticker};
      view := view.(books := view.books[ticker := b], resyncNeeded := resyncNeeded);
    }

    /** Replace the market's book with what the snapshot says. */
    method Install(ticker: string, body: SnapshotBody, seqNo: Option<int>)
      requires Valid()
      modifies this, books.Values
      ensures Valid() && ticker in books && view == WithSnapshot(old(view), ticker, body, seqNo)
    {
      ghost var b := if ticker in view.books then view.books[ticker] else UNOPENED;
      SetDefault(ticker);
      Rebuild(ticker, body, seqNo, b);
      Publish(ticker, AfterSnapshot(b, body, seqNo));
    }

    method OnSnapshot(ticker: string, body: SnapshotBody, seqNo: Option<int>, now: int)
      requires Valid()
      modifies this, books.Values
      ensures Valid()
      ensures Handled(old(view), view, SnapshotIn(ticker, body, seqNo, now), throttle)
    {
      if ticker == "" {
        return;
      }
      Install(ticker, body, seqNo);
      MaybeRecordBook(ticker, now);
    }

    /** Move one level of the market's book, if the book takes the delta. */
    method Move(ticker: string, d: DeltaBody, seqNo: Option<int>) returns (applied: bool)
      requires Valid() && ticker in books
      modifies this`view, books[ticker]
      ensures Valid() && applied == Accepts(old(view).books[ticker], d, seqNo)
      ensures view == old(view).(books := old(view).books[ticker := AfterDelta(old(view).books[ticker], d, seqNo)])
    {
      applied := books[ticker].ApplyDelta(d, seqNo);
      view := view.(books := view.books[ticker := AfterDelta(view.books[ticker], d, seqNo)]);
    }

    method OnDelta(ticker: string, d: DeltaBody, seqNo: Option<int>, now: int)
      requires Valid()
      modifies this, books.Values
      ensures Valid()
      ensures Handled(old(view), view, DeltaIn(ticker, d, seqNo, now), throttle)
    {
      if ticker == "" {
        return;
      }
      if ticker !in books {
        resyncNeeded := resyncNeeded + {ticker};
        view := view.(resyncNeeded := resyncNeeded);
        return;
      }
      var applied := Move(ticker, d, seqNo);
      if !applied {
        resyncNeeded := resyncNeeded + {ticker};
        view := view.(resyncNeeded := resyncNeeded);
        return;
      }
      MaybeRecordBook(ticker, now);
    }

    method MaybeRecordBook(ticker: string, now: int)
      requires Valid() && ticker in books
      modifies this`lastBookWrite, this`bookBatch, this`view
      ensures Valid()
      ensures MaybeRecorded(old(view), view, ticker, now, throttle)
    {
      var book := books[ticker];
      if book.stale {
        return;
      }
      if ticker in lastBookWrite && now - lastBookWrite[ticker] < throttle {
        return;
      }
      lastBookWrite := lastBookWrite[ticker := now];
      var top := book.TopN(DEPTH);
      bookBatch := bookBatch + [Row(ticker, now, book.seqNo, top.0, top.1)];
      view := view.(lastWrite := lastBookWrite, rows := bookBatch);
    }
  }
}
