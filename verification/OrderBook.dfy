/**
 Local orderbook reconstruction (`backend/app/kalshi/orderbook.py`): a mutable
 map of price levels driven by snapshots and signed deltas, which either equals
 "last snapshot plus the deltas accepted since" or refuses to answer.
 */
module OrderBooks {
  import opened Prelude
  import opened Sums
  import opened Greedy
  import Sorting

  type Levels = map<real, real>

  datatype BookSide = YesSide | NoSide | UnknownSide(text: string)

  /** Level entries as they arrive; entries with fewer than two fields are skipped. */
  datatype SnapshotBody = SnapshotBody(yesFp: seq<seq<real>>, yes: seq<seq<real>>, noFp: seq<seq<real>>, no: seq<seq<real>>) {
    function Raw(side: BookSide): seq<seq<real>> {
      if side == YesSide then (if yesFp != [] then yesFp else yes)
      else (if noFp != [] then noFp else no)
    }
  }

  datatype DeltaBody = DeltaBody(price: real, size: real, side: BookSide)

  datatype BookState = BookState(
    yes: Levels, no: Levels, seqNo: Option<int>, stale: bool, reason: Option<string>, gaps: nat) {
    function SideOf(side: BookSide): Levels {
      if side == YesSide then yes else no
    }
  }

  const UNOPENED: BookState := BookState(map[], map[], None, true, Some("awaiting snapshot"), 0)

  datatype Message =
    | SnapshotMsg(snapshot: SnapshotBody, seqNo: Option<int>)
    | DeltaMsg(delta: DeltaBody, seqNo: Option<int>)
    | StaleMsg(reason: string)

  // ----- the transitions -----

  /** Positive sizes by price; a later entry for a price replaces an earlier one. */
  function LevelsOf(raw: seq<seq<real>>): Levels {
    if raw == [] then map[]
    else
      var m := LevelsOf(raw[..|raw| - 1]);
      var e := raw[|raw| - 1];
      if |e| < 2 || e[1] <= 0.0 then m else m[e[0] := e[1]]
  }

  function SizeIn(m: Levels, price: real): real {
    if price in m then m[price] else 0.0
  }

  function Moved(m: Levels, price: real, delta: real): Levels {
    var size := SizeIn(m, price) + delta;
    if size <= 0.0 then m - {price} else m[price := size]
  }

  function AfterSnapshot(b: BookState, body: SnapshotBody, seqNo: Option<int>): BookState {
    BookState(LevelsOf(body.Raw(YesSide)), LevelsOf(body.Raw(NoSide)), seqNo, false, None, b.gaps)
  }

  function AfterStale(b: BookState, reason: string): BookState {
    b.(stale := true, reason := Some(reason), gaps := if b.stale then b.gaps else b.gaps + 1)
  }

  /** A sequence number at or below the one already seen: a replay. */
  predicate Replayed(cursor: Option<int>, seqNo: Option<int>) {
    seqNo.Some? && cursor.Some? && seqNo.value <= cursor.value
  }

  predicate Accepts(b: BookState, d: DeltaBody, seqNo: Option<int>) {
    !b.stale && !Replayed(b.seqNo, seqNo) && !d.side.UnknownSide?
  }

  function AfterDelta(b: BookState, d: DeltaBody, seqNo: Option<int>): BookState {
    if b.stale || Replayed(b.seqNo, seqNo) then b
    else if d.side.UnknownSide? then AfterStale(b, "unknown book side " + d.side.text)
    else
      var at := if seqNo.Some? then seqNo else b.seqNo;
      if d.side == YesSide then b.(yes := Moved(b.yes, d.price, d.size), seqNo := at)
      else b.(no := Moved(b.no, d.price, d.size), seqNo := at)
  }

  function Handle(b: BookState, m: Message): BookState {
    match m
    case SnapshotMsg(body, seqNo) => AfterSnapshot(b, body, seqNo)
    case DeltaMsg(d, seqNo) => AfterDelta(b, d, seqNo)
    case StaleMsg(reason) => AfterStale(b, reason)
  }

  function RunBook(msgs: seq<Message>): BookState {
    if msgs == [] then UNOPENED else Handle(RunBook(msgs[..|msgs| - 1]), msgs[|msgs| - 1])
  }

  // ----- the reference: last snapshot plus accepted deltas, or nothing -----

  datatype Epoch = Epoch(snapshot: SnapshotBody, deltas: seq<DeltaBody>, cursor: Option<int>)

  /** What may be trusted after `msgs`, worked out without keeping a single level. */
  function Trusted(msgs: seq<Message>): Option<Epoch> {
    if msgs == [] then None
    else
      var before := Trusted(msgs[..|msgs| - 1]);
      match msgs[|msgs| - 1]
      case SnapshotMsg(body, seqNo) => Some(Epoch(body, [], seqNo))
      case StaleMsg(_) => None
      case DeltaMsg(d, seqNo) =>
        if before.None? || (seqNo.Some? && before.value.cursor.Some? && seqNo.value <= before.value.cursor.value) then before
        else if d.side.UnknownSide? then None
        else Some(Epoch(before.value.snapshot, before.value.deltas + [d],
                        if seqNo.Some? then seqNo else before.value.cursor))
  }

  /** The moves at one level, in order. */
  function MovesAt(ds: seq<DeltaBody>, side: BookSide, price: real): seq<real> {
    if ds == [] then []
    else
      var d := ds[|ds| - 1];
      MovesAt(ds[..|ds| - 1], side, price) + if d.side == side && d.price == price then [d.size] else []
  }

  /** The last positive entry at that price, or nothing. */
  ghost function LastQuote(raw: seq<seq<real>>, price: real): real {
    if i :| IsLastQuote(raw, price, i) then raw[i][1] else 0.0
  }

  /** What a snapshot quotes on a side: fixed-point levels when it has any, else the plain ones. */
  ghost function Opening(body: SnapshotBody, side: BookSide, price: real): real {
    match side
    case YesSide => LastQuote(if |body.yesFp| > 0 then body.yesFp else body.yes, price)
    case NoSide => LastQuote(if |body.noFp| > 0 then body.noFp else body.no, price)
    case UnknownSide(_) => 0.0
  }

  ghost predicate IsQuote(raw: seq<seq<real>>, price: real, i: int) {
    0 <= i < |raw| && |raw[i]| >= 2 && raw[i][0] == price && raw[i][1] > 0.0
  }

  ghost predicate IsLastQuote(raw: seq<seq<real>>, price: real, i: int) {
    IsQuote(raw, price, i) && forall j :: i < j < |raw| ==> !IsQuote(raw, price, j)
  }

  /**
   The closed form of `x := max(0, x + d)`: the greater of starting size plus
   every move, and the largest sum of moves since some point.
   */
  ghost predicate IsClampedTotal(x: real, start: real, moves: seq<real>) {
    && x >= start + Sum(moves)
    && (forall k :: 0 <= k <= |moves| ==> x >= Sum(moves[k..]))
    && (x == start + Sum(moves) || exists k :: 0 <= k <= |moves| && x == Sum(moves[k..]))
  }

  lemma SuffixGrows(moves: seq<real>, d: real, k: nat)
    requires k <= |moves|
    ensures Sum((moves + [d])[k..]) == Sum(moves[k..]) + d
  {
    assert (moves + [d])[k..] == moves[k..] + [d];
    SumAppend(moves[k..], d);
  }

  /** One clamped step keeps the closed form. */
  lemma ClampStep(x: real, start: real, moves: seq<real>, d: real)
    requires start >= 0.0 && IsClampedTotal(x, start, moves)
    ensures IsClampedTotal(MaxR(0.0, x + d), start, moves + [d])
  {
    var all := moves + [d];
    var y := MaxR(0.0, x + d);
    SumAppend(moves, d);
    forall k | 0 <= k <= |all| ensures y >= Sum(all[k..]) {
      if k <= |moves| {
        SuffixGrows(moves, d, k);
      }
    }
    if x + d <= 0.0 {
      assert all[|all|..] == [];
      assert y == Sum(all[|all|..]);
    } else if x != start + Sum(moves) {
      var k :| 0 <= k <= |moves| && x == Sum(moves[k..]);
      SuffixGrows(moves, d, k);
      assert y == Sum(all[k..]);
    }
  }

  // ----- the refinement theorem -----

  ghost predicate AllPositive(m: Levels) {
    forall p :: p in m ==> m[p] > 0.0
  }

  lemma {:induction false} SnapshotLevels(raw: seq<seq<real>>, price: real)
    ensures AllPositive(LevelsOf(raw))
    ensures SizeIn(LevelsOf(raw), price) == LastQuote(raw, price)
    ensures price in LevelsOf(raw) <==> exists i :: IsQuote(raw, price, i)
  {
    if raw != [] {
      var init := raw[..|raw| - 1];
      SnapshotLevels(init, price);
      forall i | 0 <= i < |init| ensures IsQuote(raw, price, i) <==> IsQuote(init, price, i) {
        assert raw[i] == init[i];
      }
      if IsQuote(raw, price, |raw| - 1) {
        assert IsLastQuote(raw, price, |raw| - 1);
      }
      forall i ensures !IsQuote(raw, price, |raw| - 1) ==> (IsLastQuote(raw, price, i) <==> IsLastQuote(init, price, i)) {
        assert IsQuote(raw, price, i) && i < |init| ==> IsQuote(init, price, i);
      }
    }
  }

  lemma MovedSize(m: Levels, price: real, delta: real, at: real)
    requires AllPositive(m)
    ensures AllPositive(Moved(m, price, delta))
    ensures SizeIn(Moved(m, price, delta), at)
         == if at == price then MaxR(0.0, SizeIn(m, price) + delta) else SizeIn(m, at)
  {
  }

  /** The book holds, at this level, what its trusted epoch says. */
  ghost predicate LevelRefines(b: BookState, e: Epoch, side: BookSide, price: real) {
    IsClampedTotal(SizeIn(b.SideOf(side), price), Opening(e.snapshot, side, price), MovesAt(e.deltas, side, price))
  }

  ghost predicate Refines(b: BookState, t: Option<Epoch>) {
    && (b.stale <==> t.None?)
    && AllPositive(b.yes) && AllPositive(b.no)
    && (t.Some? ==> b.seqNo == t.value.cursor
                    && forall side: BookSide, price: real :: !side.UnknownSide? ==> LevelRefines(b, t.value, side, price))
  }

  lemma SnapshotRefines(b: BookState, body: SnapshotBody, seqNo: Option<int>)
    ensures Refines(AfterSnapshot(b, body, seqNo), Some(Epoch(body, [], seqNo)))
  {
    SnapshotLevels(body.Raw(YesSide), 0.0);
    SnapshotLevels(body.Raw(NoSide), 0.0);
    forall side: BookSide, price: real | !side.UnknownSide?
      ensures LevelRefines(AfterSnapshot(b, body, seqNo), Epoch(body, [], seqNo), side, price)
    {
      SnapshotLevels(body.Raw(side), price);
      StillRefines(Opening(body, side, price));
    }
  }

  /** Each side opens at the last positive quote of its own levels. */
  lemma SnapshotShows(b: BookState, body: SnapshotBody, seqNo: Option<int>, price: real)
    ensures var b' := AfterSnapshot(b, body, seqNo);
            SizeIn(b'.yes, price) == Opening(body, YesSide, price) && SizeIn(b'.no, price) == Opening(body, NoSide, price)
  {
    SnapshotLevels(body.Raw(YesSide), price);
    SnapshotLevels(body.Raw(NoSide), price);
  }

  lemma StillRefines(x: real)
    requires x >= 0.0
    ensures IsClampedTotal(x, x, [])
  {
  }

  lemma DeltaRefines(b: BookState, e: Epoch, d: DeltaBody, seqNo: Option<int>)
    requires Refines(b, Some(e)) && Accepts(b, d, seqNo)
    ensures Refines(AfterDelta(b, d, seqNo),
                    Some(Epoch(e.snapshot, e.deltas + [d], if seqNo.Some? then seqNo else e.cursor)))
  {
    var b' := AfterDelta(b, d, seqNo);
    var e' := Epoch(e.snapshot, e.deltas + [d], if seqNo.Some? then seqNo else e.cursor);
    MovedSize(b.SideOf(d.side), d.price, d.size, d.price);
    forall side: BookSide, price: real | !side.UnknownSide? ensures LevelRefines(b', e', side, price) {
      DeltaRefinesLevel(b, e, d, seqNo, side, price);
    }
  }

  lemma DeltaRefinesLevel(b: BookState, e: Epoch, d: DeltaBody, seqNo: Option<int>, side: BookSide, price: real)
    requires Refines(b, Some(e)) && Accepts(b, d, seqNo) && !side.UnknownSide?
    ensures LevelRefines(AfterDelta(b, d, seqNo),
                         Epoch(e.snapshot, e.deltas + [d], if seqNo.Some? then seqNo else e.cursor), side, price)
  {
    assert LevelRefines(b, e, side, price);
    assert (e.deltas + [d])[..|e.deltas|] == e.deltas;
    var start := Opening(e.snapshot, side, price);
    var moves := MovesAt(e.deltas, side, price);
    MovedSize(b.SideOf(d.side), d.price, d.size, price);
    if d.side == side && d.price == price {
      SnapshotLevels(e.snapshot.Raw(side), price);
      ClampStep(SizeIn(b.SideOf(side), price), start, moves, d.size);
    } else {
      assert MovesAt(e.deltas + [d], side, price) == moves;
    }
  }

  /**
   The refinement theorem. After any sequence of messages the book is stale
   exactly when nothing may be trusted; otherwise it holds only positive sizes
   and every level is the closed form of the moves accepted at that level since
   the last snapshot, starting from what that snapshot quoted.
   */
  lemma {:induction false} BookRefines(msgs: seq<Message>)
    ensures Refines(RunBook(msgs), Trusted(msgs))
  {
    if msgs != [] {
      var init, last := msgs[..|msgs| - 1], msgs[|msgs| - 1];
      BookRefines(init);
      var b := RunBook(init);
      match last
      case SnapshotMsg(body, seqNo) =>
        SnapshotRefines(b, body, seqNo);
      case StaleMsg(_) =>
      case DeltaMsg(d, seqNo) =>
        if Accepts(b, d, seqNo) {
          DeltaRefines(b, Trusted(init).value, d, seqNo);
        }
    }
  }

  /** No running total ever went below zero. */
  ghost predicate NeverNegative(start: real, moves: seq<real>) {
    forall k :: 0 <= k <= |moves| ==> start + Sum(moves[..k]) >= 0.0
  }

  /** Plain bookkeeping: with no negative running total the clamp never bites, and the level is snapshot plus sum. */
  lemma {:induction false} ClampNeverBites(x: real, start: real, moves: seq<real>)
    requires IsClampedTotal(x, start, moves) && NeverNegative(start, moves)
    ensures x == start + Sum(moves)
  {
    forall k | 0 <= k <= |moves| ensures Sum(moves[k..]) <= start + Sum(moves) {
      SumSplits(moves, k);
    }
  }

  lemma {:induction false} SumSplits(moves: seq<real>, k: nat)
    requires k <= |moves|
    ensures Sum(moves) == Sum(moves[..k]) + Sum(moves[k..])
  {
    SumConcat(moves[..k], moves[k..]);
    assert moves[..k] + moves[k..] == moves;
  }

  /** And conversely: a total that went negative leaves the level strictly above snapshot plus sum. */
  lemma {:induction false} ClampBites(x: real, start: real, moves: seq<real>, k: nat)
    requires IsClampedTotal(x, start, moves) && k <= |moves| && start + Sum(moves[..k]) < 0.0
    ensures x > start + Sum(moves)
  {
    SumSplits(moves, k);
  }

  /** On a fresh book the level is plain snapshot plus sum exactly when no running total went negative. */
  lemma {:induction false} PlainSumExactly(msgs: seq<Message>, side: BookSide, price: real)
    requires Trusted(msgs).Some? && !side.UnknownSide?
    ensures var e := Trusted(msgs).value;
            var start := Opening(e.snapshot, side, price);
            var moves := MovesAt(e.deltas, side, price);
            SizeIn(RunBook(msgs).SideOf(side), price) == start + Sum(moves) <==> NeverNegative(start, moves)
  {
    BookRefines(msgs);
    var e := Trusted(msgs).value;
    var start := Opening(e.snapshot, side, price);
    var moves := MovesAt(e.deltas, side, price);
    var x := SizeIn(RunBook(msgs).SideOf(side), price);
    assert LevelRefines(RunBook(msgs), e, side, price);
    if NeverNegative(start, moves) {
      ClampNeverBites(x, start, moves);
    } else {
      var k :| 0 <= k <= |moves| && start + Sum(moves[..k]) < 0.0;
      ClampBites(x, start, moves, k);
    }
  }

  /** A level of `size`, then a move down by more than that, then one up. */
  function Overdrawn(price: real, size: real, down: real, up: real): seq<Message> {
    [ SnapshotMsg(SnapshotBody([[price, size]], [], [], []), None),
      DeltaMsg(DeltaBody(price, -down, YesSide), None),
      DeltaMsg(DeltaBody(price, up, YesSide), None) ]
  }

  /** On such messages the clamp bites: the level keeps the whole of the move up, which plain bookkeeping would not give it. */
  lemma OverdrawnKeepsTheRest(price: real, size: real, down: real, up: real)
    requires 0.0 < size < down && up > 0.0
    ensures var b := RunBook(Overdrawn(price, size, down, up));
            !b.stale && SizeIn(b.yes, price) == up > size - down + up
  {
    var msgs := Overdrawn(price, size, down, up);
    var quoted := AfterSnapshot(UNOPENED, msgs[0].snapshot, None);
    assert [[price, size]][..0] == [];
    assert quoted.yes == map[][price := size];
    assert msgs[..2][..1] == msgs[..1] && msgs[..1][..0] == [];
    assert RunBook(msgs[..1]) == quoted;
    assert RunBook(msgs[..2]) == AfterDelta(quoted, msgs[1].delta, None);
    assert price !in RunBook(msgs[..2]).yes;
  }

  // ----- which deltas are applied -----

  function Number(m: Message): Option<int> {
    match m
    case SnapshotMsg(_, seqNo) => seqNo
    case DeltaMsg(_, seqNo) => seqNo
    case StaleMsg(_) => None
  }

  /** The highest number among `msgs`, if any has one. */
  ghost predicate IsNewest(c: Option<int>, msgs: seq<Message>) {
    && (c.Some? ==> exists k :: 0 <= k < |msgs| && Number(msgs[k]) == c)
    && forall k :: 0 <= k < |msgs| && Number(msgs[k]).Some? ==> c.Some? && Number(msgs[k]).value <= c.value
  }

  /** `msgs` ends with a snapshot at `j` and deltas after it. */
  ghost predicate LastSnapshotAt(msgs: seq<Message>, j: nat) {
    j < |msgs| && msgs[j].SnapshotMsg? && forall k :: j < k < |msgs| ==> msgs[k].DeltaMsg?
  }

  /** What is trusted starts at the last snapshot, and its cursor is the highest number since. */
  lemma {:induction false} CursorIsNewest(msgs: seq<Message>) returns (j: nat)
    requires Trusted(msgs).Some?
    ensures LastSnapshotAt(msgs, j) && msgs[j].snapshot == Trusted(msgs).value.snapshot
    ensures IsNewest(Trusted(msgs).value.cursor, msgs[j..])
  {
    var init, last := msgs[..|msgs| - 1], msgs[|msgs| - 1];
    if last.SnapshotMsg? {
      j := |msgs| - 1;
      assert msgs[j..][0] == last;
    } else {
      j := CursorIsNewest(init);
      NewestExtends(init[j..], last, Trusted(init).value.cursor, Trusted(msgs).value.cursor);
      assert msgs[j..] == init[j..] + [last];
    }
  }

  lemma NewestExtends(msgs: seq<Message>, m: Message, c: Option<int>, c': Option<int>)
    requires IsNewest(c, msgs)
    requires c' == if Number(m).None? || (c.Some? && Number(m).value <= c.value) then c else Number(m)
    ensures IsNewest(c', msgs + [m])
  {
    var all := msgs + [m];
    if c'.Some? {
      var k :| 0 <= k <= |msgs| && (if k < |msgs| then Number(msgs[k]) == c' else Number(m) == c');
      assert Number(all[k]) == c';
    }
  }

  /** A delta is applied exactly when its side is known and its number, if it has one, is higher than any since the last snapshot. */
  lemma AppliedExactly(msgs: seq<Message>, d: DeltaBody, seqNo: Option<int>) returns (j: nat)
    requires !RunBook(msgs).stale
    ensures LastSnapshotAt(msgs, j)
    ensures Accepts(RunBook(msgs), d, seqNo) <==>
      !d.side.UnknownSide?
      && (seqNo.Some? ==> forall k :: j <= k < |msgs| && Number(msgs[k]).Some? ==> Number(msgs[k]).value < seqNo.value)
  {
    BookRefines(msgs);
    j := CursorIsNewest(msgs);
    forall k | j <= k < |msgs| ensures msgs[k] == msgs[j..][k - j] {
    }
  }

  /** How often what was trusted stopped being so. */
  ghost function Losses(msgs: seq<Message>): nat {
    if msgs == [] then 0
    else Losses(msgs[..|msgs| - 1]) + if Trusted(msgs[..|msgs| - 1]).Some? && Trusted(msgs).None? then 1 else 0
  }

  /** The gap counter counts exactly the times a fresh book was lost. */
  lemma {:induction false} GapsAreLosses(msgs: seq<Message>)
    ensures RunBook(msgs).gaps == Losses(msgs)
  {
    if msgs != [] {
      var init := msgs[..|msgs| - 1];
      GapsAreLosses(init);
      BookRefines(init);
      BookRefines(msgs);
    }
  }

  /** A numbered delta at or below the current number changes nothing, however often it is delivered. */
  lemma {:induction false} ReplaysAreInert(b: BookState, ds: seq<(DeltaBody, int)>)
    requires b.seqNo.Some?
    requires forall x :: x in ds ==> x.1 <= b.seqNo.value
    ensures Deliver(b, ds) == b
  {
    if ds != [] {
      assert ds[0] in ds;
      ReplaysAreInert(b, ds[1..]);
    }
  }

  function Deliver(b: BookState, ds: seq<(DeltaBody, int)>): BookState
    decreases |ds|
  {
    if ds == [] then b else Deliver(AfterDelta(b, ds[0].0, Some(ds[0].1)), ds[1..])
  }

  // ----- reads -----

  /** The items of `m`, best (highest) price first. */
  ghost predicate ListsBest(levels: seq<Level>, m: Levels) {
    && (forall i, j :: 0 <= i < j < |levels| ==> levels[i].price > levels[j].price)
    && (forall i :: 0 <= i < |levels| ==> levels[i].price in m && levels[i].size == m[levels[i].price])
    && (forall p :: p in m ==> exists i :: 0 <= i < |levels| && levels[i].price == p)
  }

  lemma HeadIsBest(a: seq<Level>, m: Levels)
    requires ListsBest(a, m) && a != []
    ensures a[0].price in m && m[a[0].price] == a[0].size && forall p :: p in m ==> p <= a[0].price
  {
  }

  /** There is only one such listing. */
  lemma {:induction false} BestListingUnique(a: seq<Level>, b: seq<Level>, m: Levels)
    requires ListsBest(a, m) && ListsBest(b, m)
    ensures a == b
    decreases |a|
  {
    if a != [] {
      HeadIsBest(a, m);
      assert b != [];
      HeadIsBest(b, m);
      assert a[0] == b[0];
      TailLists(a, m);
      TailLists(b, m);
      BestListingUnique(a[1..], b[1..], m - {a[0].price});
    } else if b != [] {
      HeadIsBest(b, m);
    }
  }

  lemma TailLists(a: seq<Level>, m: Levels)
    requires ListsBest(a, m) && a != []
    ensures ListsBest(a[1..], m - {a[0].price})
  {
    forall p | p in m - {a[0].price} ensures exists i :: 0 <= i < |a[1..]| && a[1..][i].price == p {
      var i :| 0 <= i < |a| && a[i].price == p;
      assert a[1..][i - 1].price == p;
    }
  }

  predicate Dearer(a: Level, b: Level) {
    a.price > b.price
  }

  function InsertLevel(l: Level, s: seq<Level>): seq<Level> {
    Sorting.Place(l, s, Dearer)
  }

  lemma PutFirst(l: Level, s: seq<Level>, m: Levels)
    requires ListsBest(s, m) && forall i :: 0 <= i < |s| ==> l.price > s[i].price
    ensures l.price !in m && ListsBest([l] + s, m[l.price := l.size])
  {
    var r := [l] + s;
    var m' := m[l.price := l.size];
    forall p: real ensures p in m' ==> exists i :: 0 <= i < |r| && r[i].price == p {
      if p == l.price {
        assert r[0].price == p;
      } else if p in m {
        var i :| 0 <= i < |s| && s[i].price == p;
        assert r[i + 1].price == p;
      }
    }
  }

  lemma HeadStaysBest(s: seq<Level>, m: Levels, t: seq<Level>, tm: Levels, p: real)
    requires s != [] && ListsBest(s, m) && ListsBest(t, tm) && p < s[0].price
    requires forall q :: q in tm ==> q == p || (q in m && q != s[0].price)
    ensures forall j :: 0 <= j < |t| ==> s[0].price > t[j].price
  {
    forall j | 0 <= j < |t| ensures s[0].price > t[j].price {
      var q := t[j].price;
      assert q in tm;
      if q != p {
        var i :| 0 <= i < |s| && s[i].price == q;
      }
    }
  }

  lemma InsertBehind(l: Level, s: seq<Level>, m: Levels, t: seq<Level>)
    requires s != [] && ListsBest(s, m) && l.price !in m && l.price < s[0].price
    requires ListsBest(t, (m - {s[0].price})[l.price := l.size])
    ensures ListsBest([s[0]] + t, m[l.price := l.size])
  {
    var rest := (m - {s[0].price})[l.price := l.size];
    HeadStaysBest(s, m, t, rest, l.price);
    PutFirst(s[0], t, rest);
    assert rest[s[0].price := s[0].size] == m[l.price := l.size];
  }

  lemma {:induction false} InsertLevelLists(l: Level, s: seq<Level>, m: Levels)
    requires ListsBest(s, m) && l.price !in m
    ensures ListsBest(InsertLevel(l, s), m[l.price := l.size])
    decreases |s|
  {
    if s == [] || l.price > s[0].price {
      HeadPasses(l, s, m);
      PutFirst(l, s, m);
    } else {
      TailLists(s, m);
      InsertLevelLists(l, s[1..], m - {s[0].price});
      InsertBehind(l, s, m, InsertLevel(l, s[1..]));
    }
  }

  lemma HeadPasses(l: Level, s: seq<Level>, m: Levels)
    requires ListsBest(s, m) && (s == [] || l.price > s[0].price)
    ensures forall i :: 0 <= i < |s| ==> l.price > s[i].price
  {
    forall i | 0 <= i < |s| ensures l.price > s[i].price {
      if i > 0 { assert s[0].price > s[i].price; }
    }
  }

  method SortedBest(m: Levels) returns (levels: seq<Level>)
    ensures ListsBest(levels, m)
  {
    levels := [];
    var todo := m.Keys;
    while todo != {}
      invariant todo <= m.Keys && ListsBest(levels, m - todo)
      decreases |todo|
    {
      var p := AnyOf(todo);
      assert p !in m - todo;
      InsertLevelLists(Level(p, m[p]), levels, m - todo);
      assert (m - todo)[p := m[p]] == m - (todo - {p});
      levels := InsertLevel(Level(p, m[p]), levels);
      todo := todo - {p};
    }
    assert m - {} == m;
  }

  /** The best `n` levels, or all of them when there are fewer. */
  ghost predicate IsTop(levels: seq<Level>, m: Levels, n: nat) {
    exists all :: ListsBest(all, m) && levels == all[..if n <= |all| then n else |all|]
  }

  /** Offers to sell YES: NO bids inverted, cheapest first. */
  function AsAsks(noBids: seq<Level>): (r: seq<Level>)
    ensures |r| == |noBids| && forall i :: 0 <= i < |r| ==> r[i] == Level(1.0 - noBids[i].price, noBids[i].size)
  {
    seq(|noBids|, i requires 0 <= i < |noBids| => Level(1.0 - noBids[i].price, noBids[i].size))
  }

  /** An offer at one less the bid for each NO bid. */
  ghost predicate Inverts(asks: seq<Level>, bids: seq<Level>) {
    |asks| == |bids| && forall i :: 0 <= i < |bids| ==> asks[i].price + bids[i].price == 1.0 && asks[i].size == bids[i].size
  }

  /** What a buyer of `contracts` YES pays: `(average, filled)`, or nothing when nothing fills. */
  ghost predicate IsYesQuote(q: Option<(real, real)>, no: Levels, contracts: real) {
    exists bids, asks :: ListsBest(bids, no) && Inverts(asks, bids) && IsCheapestFill(q, asks, contracts)
  }

  /** The quote fills all it can, at a total no other allocation of that size undercuts. */
  ghost predicate IsCheapestFill(q: Option<(real, real)>, asks: seq<Level>, contracts: real) {
    && (q.None? <==> contracts <= 0.0 || asks == [])
    && (q.Some? ==>
          && q.value.1 == MinR(contracts, Depth(asks)) > 0.0
          && Pay(q.value.0, q.value.1) == Cost(asks, Take(asks, contracts))
          && forall a :: Feasible(asks, a) && Sum(a) == q.value.1 ==> Pay(q.value.0, q.value.1) <= Cost(asks, a))
  }

  lemma AsksAreWalkable(bids: seq<Level>, no: Levels)
    requires ListsBest(bids, no) && AllPositive(no)
    ensures Positive(AsAsks(bids)) && Ascending(AsAsks(bids))
  {
  }

  // ----- the class -----

  class OrderBook {
    const ticker: string
    var yes: Levels
    var no: Levels
    var seqNo: Option<int>
    var stale: bool
    var staleReason: Option<string>
    var gapCount: nat

    constructor (ticker: string)
      ensures State() == UNOPENED && this.ticker == ticker
    {
      this.ticker := ticker;
      yes, no, seqNo, stale, staleReason, gapCount := map[], map[], None, true, Some("awaiting snapshot"), 0;
    }

    function State(): BookState
      reads this
    {
      BookState(yes, no, seqNo, stale, staleReason, gapCount)
    }

    static method ParseLevels(raw: seq<seq<real>>) returns (levels: Levels)
      ensures levels == LevelsOf(raw)
    {
      levels := map[];
      for i := 0 to |raw|
        invariant levels == LevelsOf(raw[..i])
      {
        assert raw[..i + 1][..i] == raw[..i];
        var entry := raw[i];
        if |entry| >= 2 && entry[1] > 0.0 {
          levels := levels[entry[0] := entry[1]];
        }
      }
      assert raw[..|raw|] == raw;
    }

    method ApplySnapshot(body: SnapshotBody, at: Option<int>)
      modifies this
      ensures State() == AfterSnapshot(old(State()), body, at)
      ensures forall price :: SizeIn(yes, price) == Opening(body, YesSide, price) && SizeIn(no, price) == Opening(body, NoSide, price)
    {
      forall price
        ensures SizeIn(AfterSnapshot(State(), body, at).yes, price) == Opening(body, YesSide, price)
        ensures SizeIn(AfterSnapshot(State(), body, at).no, price) == Opening(body, NoSide, price)
      {
        SnapshotShows(State(), body, at, price);
      }
      yes := ParseLevels(if body.yesFp != [] then body.yesFp else body.yes);
      no := ParseLevels(if body.noFp != [] then body.noFp else body.no);
      seqNo := at;
      stale := false;
      staleReason := None;
    }

    method ApplyDelta(d: DeltaBody, at: Option<int>) returns (applied: bool)
      modifies this
      ensures State() == AfterDelta(old(State()), d, at)
      ensures applied <==> old(Accepts(State(), d, at))
      ensures !applied ==> State() == old(State()) || stale
    {
      if stale {
        return false;
      }
      if at.Some? && seqNo.Some? && at.value <= seqNo.value {
        return false;
      }
      if d.side.UnknownSide? {
        MarkStale("unknown book side " + d.side.text);
        return false;
      }
      var book := if d.side == YesSide then yes else no;
      var newSize := (if d.price in book then book[d.price] else 0.0) + d.size;
      if newSize <= 0.0 {
        book := book - {d.price};
      } else {
        book := book[d.price := newSize];
      }
      if d.side == YesSide {
        yes := book;
      } else {
        no := book;
      }
      if at.Some? {
        seqNo := at;
      }
      return true;
    }

    method MarkStale(reason: string)
      modifies this
      ensures State() == AfterStale(old(State()), reason)
    {
      if !stale {
        gapCount := gapCount + 1;
      }
      stale := true;
      staleReason := Some(reason);
    }

    /** Serialisable best `n` levels of each side. */
    method TopN(n: nat) returns (top: (seq<Level>, seq<Level>))
      ensures IsTop(top.0, yes, n) && IsTop(top.1, no, n)
    {
      var y := SortedBest(yes);
      var x := SortedBest(no);
      top := (y[..if n <= |y| then n else |y|], x[..if n <= |x| then n else |x|]);
    }

    /** Walk the offers for `contracts` YES. A stale book refuses to answer. */
    method ExecutableYesCost(contracts: real) returns (r: Result<Option<(real, real)>, string>)
      requires AllPositive(no)
      ensures r.Err? <==> stale
      ensures r.Ok? ==> IsYesQuote(r.value, no, contracts)
    {
      if stale {
        return Err("stale");
      }
      var bids := SortedBest(no);
      AsksAreWalkable(bids, no);
      var q := WalkCost(AsAsks(bids), contracts);
      assert Inverts(AsAsks(bids), bids);
      return Ok(q);
    }
  }

  /** The cost walk: `remaining`, `cost` and `filled` over the ladder. */
  method WalkCost(levels: seq<Level>, contracts: real) returns (q: Option<(real, real)>)
    requires Positive(levels) && Ascending(levels)
    ensures IsCheapestFill(q, levels, contracts)
  {
    if levels == [] {
      return None;
    }
    var remaining, cost, filled := contracts, 0.0, 0.0;
    ghost var taken: seq<real> := [];
    var i := 0;
    while i < |levels| && remaining > 0.0
      invariant 0 <= i <= |levels|
      invariant Walked(levels, contracts, taken, remaining, i)
      invariant filled == Sum(taken) && cost == Sum(Costs(levels[..i], taken))
    {
      var take := MinR(levels[i].size, remaining);
      WalkStep(levels, contracts, taken, remaining, i);
      taken := taken + [take];
      cost := cost + Pay(levels[i].price, take);
      filled := filled + take;
      remaining := remaining - take;
      i := i + 1;
    }
    WalkTotals(levels, contracts, taken, remaining, i);
    if filled <= 0.0 {
      return None;
    }
    var average := cost / filled;
    AverageTimes(cost, filled);
    CheapestQuote(levels, contracts, average, cost, filled);
    return Some((average, filled));
  }

  lemma AverageTimes(cost: real, filled: real)
    requires filled != 0.0
    ensures cost == Pay(cost / filled, filled)
  {
    QuotientTimes(cost, filled);
  }

  lemma {:induction false} CheapestQuote(levels: seq<Level>, contracts: real, average: real, cost: real, filled: real)
    requires Positive(levels) && Ascending(levels) && levels != [] && contracts > 0.0
    requires filled == MinR(contracts, Depth(levels)) == Sum(Take(levels, contracts)) && filled > 0.0
    requires cost == Cost(levels, Take(levels, contracts)) == Pay(average, filled)
    ensures IsCheapestFill(Some((average, filled)), levels, contracts)
  {
    forall a | Feasible(levels, a) && Sum(a) == filled ensures cost <= Cost(levels, a) {
      BuyWalkOptimal(levels, a, contracts);
    }
  }

  /** After `i` levels, `taken` is the walk so far and `remaining` is what it still wants. */
  ghost predicate Walked(levels: seq<Level>, contracts: real, taken: seq<real>, remaining: real, i: nat) {
    && i <= |levels| && |taken| == i
    && remaining == contracts - Sum(taken) && (contracts >= 0.0 ==> remaining >= 0.0)
    && (i > 0 ==> contracts > 0.0)
    && (contracts > 0.0 ==> Take(levels, contracts) == taken + Take(levels[i..], remaining))
  }

  lemma WalkStep(levels: seq<Level>, contracts: real, taken: seq<real>, remaining: real, i: nat)
    requires Walked(levels, contracts, taken, remaining, i) && i < |levels| && remaining > 0.0
    ensures var take := MinR(levels[i].size, remaining);
            && (levels[i].size > 0.0 ==> Walked(levels, contracts, taken + [take], remaining - take, i + 1))
            && Sum(taken + [take]) == Sum(taken) + take
            && Sum(Costs(levels[..i + 1], taken + [take])) == Sum(Costs(levels[..i], taken)) + Pay(levels[i].price, take)
  {
    var take := MinR(levels[i].size, remaining);
    SumAppend(taken, take);
    assert Costs(levels[..i + 1], taken + [take]) == Costs(levels[..i], taken) + [Pay(levels[i].price, take)];
    SumAppend(Costs(levels[..i], taken), Pay(levels[i].price, take));
    assert levels[i..][1..] == levels[i + 1..];
    assert i == 0 ==> Sum(taken) == 0.0;
    assert taken + Take(levels[i..], remaining) == taken + [take] + Take(levels[i + 1..], remaining - take);
  }

  lemma {:induction false} AllZero(a: seq<real>)
    requires forall i :: 0 <= i < |a| ==> a[i] == 0.0
    ensures Sum(a) == 0.0
  {
    SumScales(a, a, 0.0);
  }

  /** Stopping the loop early, or at the end of the ladder, leaves exactly the walk's totals. */
  lemma {:induction false} WalkTotals(levels: seq<Level>, contracts: real, taken: seq<real>, remaining: real, i: nat)
    requires Positive(levels) && levels != [] && Walked(levels, contracts, taken, remaining, i)
    requires i == |levels| || remaining <= 0.0
    ensures Sum(taken) > 0.0 <==> contracts > 0.0
    ensures contracts > 0.0 ==>
              && Sum(taken) == MinR(contracts, Depth(levels)) == Sum(Take(levels, contracts))
              && Sum(Costs(levels[..i], taken)) == Cost(levels, Take(levels, contracts))
  {
    if contracts > 0.0 {
      var rest := Take(levels[i..], remaining);
      TakeFills(levels, contracts);
      NothingLeft(levels[i..], remaining);
      AllZero(rest);
      SumConcat(taken, rest);
      AllZero(Costs(levels[i..], rest));
      assert Costs(levels, taken + rest) == Costs(levels[..i], taken) + Costs(levels[i..], rest);
      SumConcat(Costs(levels[..i], taken), Costs(levels[i..], rest));
    }
  }
}
