/**
 The attributed events, told by the rows of the tables alone: which order a fill
 came from, who claims a settlement, and what each event adds up to.
 */
module AttributionRows {
  import opened Prelude
  import opened Attribution

  /** The tables as they are read. */
  datatype Tables = Tables(
    orders: seq<OrderRow>, sources: map<int, string>, fills: seq<FillRow>, settlements: seq<SettlementRow>)

  function LinksIn(t: Tables): Links {
    LinksOf(t.orders, t.sources)
  }

  // ----- rows -----

  /** `o` is the row of order `id`; of two with the same id, the later. */
  ghost predicate OrderIs(orders: seq<OrderRow>, id: int, o: OrderRow) {
    exists i :: 0 <= i < |orders| && orders[i] == o && o.id == id && forall j :: i < j < |orders| ==> orders[j].id != id
  }

  ghost predicate HasOrder(orders: seq<OrderRow>, f: FillRow) {
    f.orderId.Some? && exists o :: OrderIs(orders, f.orderId.value, o)
  }

  /** The fill came from an order of proposal `pid`. */
  ghost predicate Caused(orders: seq<OrderRow>, f: FillRow, pid: int) {
    f.orderId.Some? && exists o :: OrderIs(orders, f.orderId.value, o) && o.proposalId == Some(pid)
  }

  function Venue(route: string): string {
    if |route| > 0 then route else "simulated"
  }

  /** The fill went by `route`: its order's, or the simulator when that is blank or unknown. */
  ghost predicate Went(orders: seq<OrderRow>, f: FillRow, route: string) {
    if HasOrder(orders, f) then exists o :: OrderIs(orders, f.orderId.value, o) && route == Venue(o.route)
    else route == "simulated"
  }

  /** A detector made the proposal behind the fill. */
  ghost predicate MadeBy(t: Tables, f: FillRow, detector: string) {
    exists pid :: Caused(t.orders, f, pid) && pid in t.sources && t.sources[pid] == detector
  }

  ghost predicate At(t: Tables, f: FillRow, pos: Pos) {
    f.ticker == pos.0 && Went(t.orders, f, pos.1)
  }

  /** A detector with a name filled something at the position. */
  ghost predicate Claims(t: Tables, pos: Pos, detector: string) {
    |detector| > 0 && exists f :: f in t.fills && At(t, f, pos) && MadeBy(t, f, detector)
  }

  ghost predicate SoleClaimant(t: Tables, pos: Pos, detector: string) {
    forall d :: Claims(t, pos, d) <==> d == detector
  }

  /** Every fill at the position came from the one proposal. */
  ghost predicate SoleProposal(t: Tables, pos: Pos, pid: int) {
    && (exists f :: f in t.fills && At(t, f, pos))
    && forall f :: f in t.fills && At(t, f, pos) ==> Caused(t.orders, f, pid)
  }

  function PosOfRow(s: SettlementRow): Pos {
    (s.ticker, Venue(s.route))
  }

  /** Which event a fill counts for: that of its proposal, if a detector made it. */
  ghost predicate FillCounts(t: Tables, f: FillRow, k: Key) {
    k.OfProposal? && Caused(t.orders, f, k.pid) && k.pid in t.sources
  }

  /** Which event a settlement counts for: that of the only proposal, or one of its own, if one detector alone claims it. */
  ghost predicate SettlementCounts(t: Tables, s: SettlementRow, k: Key) {
    && (exists d :: SoleClaimant(t, PosOfRow(s), d))
    && match k
       case OfProposal(pid) => SoleProposal(t, PosOfRow(s), pid)
       case OfSettlement(ticker, route) => (ticker, route) == PosOfRow(s) && forall pid :: !SoleProposal(t, PosOfRow(s), pid)
  }

  // ----- the lookups read the rows -----

  lemma {:induction false} LinksRead(orders: seq<OrderRow>, sources: map<int, string>, id: int)
    ensures var l := LinksOf(orders, sources);
            && l.sources == sources && l.proposals.Keys == l.routes.Keys
            && (id in l.proposals <==> exists o :: OrderIs(orders, id, o))
            && forall o :: OrderIs(orders, id, o) ==> l.proposals[id] == o.proposalId && l.routes[id] == Venue(o.route)
  {
    if orders != [] {
      var n := |orders| - 1;
      var init, last := orders[..n], orders[n];
      LinksRead(init, sources, id);
      forall o ensures OrderIs(orders, id, o) <==> if last.id == id then o == last else OrderIs(init, id, o) {
        OrderNext(orders, id, o, n);
      }
    }
  }

  lemma OrderNext(orders: seq<OrderRow>, id: int, o: OrderRow, n: int)
    requires orders != [] && n == |orders| - 1
    ensures OrderIs(orders, id, o) <==> if orders[n].id == id then o == orders[n] else OrderIs(orders[..n], id, o)
  {
    var init := orders[..n];
    if OrderIs(orders, id, o) {
      var i :| 0 <= i < |orders| && orders[i] == o && o.id == id && forall j :: i < j < |orders| ==> orders[j].id != id;
      if i < n {
        assert init[i] == o && forall j :: i < j < n ==> init[j].id != id;
      }
    }
    if orders[n].id == id && o == orders[n] {
      assert orders[n] == o;
    }
    if orders[n].id != id && OrderIs(init, id, o) {
      var i :| 0 <= i < |init| && init[i] == o && o.id == id && forall j :: i < j < |init| ==> init[j].id != id;
      assert orders[i] == o && forall j :: i < j < |orders| ==> j < n ==> orders[j] == init[j];
    }
  }

  lemma FillRead(t: Tables, f: FillRow)
    ensures forall pid :: PidOf(LinksIn(t), f) == Some(pid) <==> Caused(t.orders, f, pid)
    ensures forall r :: RouteOf(LinksIn(t), f) == r <==> Went(t.orders, f, r)
  {
    LinksRead(t.orders, t.sources, if f.orderId.Some? then f.orderId.value else 0);
  }

  lemma DetectorRead(t: Tables, f: FillRow, d: string)
    ensures DetectorOf(LinksIn(t), f) == Some(d) <==> MadeBy(t, f, d)
  {
    FillRead(t, f);
    LinksRead(t.orders, t.sources, 0);
    var pid := PidOf(LinksIn(t), f);
    if pid.Some? {
      assert Caused(t.orders, f, pid.value);
    }
  }

  lemma ClaimsRead(t: Tables, pos: Pos, d: string)
    ensures d in Touched(LinksIn(t), t.fills, pos) <==> Claims(t, pos, d)
  {
    var l := LinksIn(t);
    forall f | f in t.fills
      ensures PosOf(l, f) == pos <==> At(t, f, pos)
      ensures DetectorOf(l, f) == Some(d) <==> MadeBy(t, f, d)
    {
      FillRead(t, f);
      DetectorRead(t, f, d);
    }
  }

  lemma SoleRead(t: Tables, pos: Pos, pid: int)
    ensures BuiltBy(LinksIn(t), t.fills, pos, pid) <==> SoleProposal(t, pos, pid)
  {
    var l := LinksIn(t);
    forall f | f in t.fills
      ensures PosOf(l, f) == pos <==> At(t, f, pos)
      ensures PidOf(l, f) == Some(pid) <==> Caused(t.orders, f, pid)
    {
      FillRead(t, f);
    }
  }

  /** One claimant, and which: what the size of the set of claimants says. */
  lemma SoleClaimantRead(t: Tables, pos: Pos)
    ensures |Touched(LinksIn(t), t.fills, pos)| == 1 <==> exists d :: SoleClaimant(t, pos, d)
    ensures |Touched(LinksIn(t), t.fills, pos)| > 1 <==> exists d, e :: d != e && Claims(t, pos, d) && Claims(t, pos, e)
    ensures forall d :: SoleClaimant(t, pos, d) <==> Touched(LinksIn(t), t.fills, pos) == {d}
  {
    var ds := Touched(LinksIn(t), t.fills, pos);
    forall d ensures d in ds <==> Claims(t, pos, d) {
      ClaimsRead(t, pos, d);
    }
    forall d ensures SoleClaimant(t, pos, d) <==> ds == {d} {
      if SoleClaimant(t, pos, d) {
        assert forall e :: e in ds <==> e == d;
      }
    }
    if |ds| >= 1 {
      var d :| d in ds;
      if |ds| == 1 {
        Singleton(ds, d);
      } else {
        assert |ds - {d}| > 0;
        var e :| e in ds - {d};
        assert Claims(t, pos, d) && Claims(t, pos, e);
      }
    }
    if d, e :| d != e && Claims(t, pos, d) && Claims(t, pos, e) {
      TwoMembers(ds, d, e);
    }
  }

  lemma TwoMembers(s: set<string>, d: string, e: string)
    requires d in s && e in s && d != e
    ensures |s| > 1
  {
    assert e in s - {d};
    assert |s - {d}| > 0;
  }

  // ----- what the rows add up to -----

  /** What an event adds up to: net cents, fee cents, and rows. */
  datatype Figures = Figures(pnl: real, fees: real, legs: nat)

  const NOTHING: Figures := Figures(0.0, 0.0, 0)

  function Plus(a: Figures, b: Figures): Figures {
    Figures(a.pnl + b.pnl, a.fees + b.fees, a.legs + b.legs)
  }

  /** A row nets what it realised less its fee. */
  function OneRow(realizedCents: real, feeCents: real): Figures {
    Figures(realizedCents - feeCents, feeCents, 1)
  }

  ghost function FillFigures(t: Tables, fills: seq<FillRow>, k: Key): Figures {
    if fills == [] then NOTHING
    else
      var f := fills[|fills| - 1];
      Plus(FillFigures(t, fills[..|fills| - 1], k), if FillCounts(t, f, k) then OneRow(f.realizedCents, f.feeCents) else NOTHING)
  }

  ghost function SettlementFigures(t: Tables, rows: seq<SettlementRow>, k: Key): Figures {
    if rows == [] then NOTHING
    else
      var s := rows[|rows| - 1];
      Plus(SettlementFigures(t, rows[..|rows| - 1], k), if SettlementCounts(t, s, k) then OneRow(s.realizedCents, s.feeCents) else NOTHING)
  }

  ghost function SharesFigures(shares: seq<Share>, k: Key): Figures {
    Figures(PnlAt(shares, k), FeesAt(shares, k), LegsAt(shares, k))
  }

  lemma {:induction false} FiguresConcat(a: seq<Share>, b: seq<Share>, k: Key)
    ensures SharesFigures(a + b, k) == Plus(SharesFigures(a, k), SharesFigures(b, k))
    decreases |b|
  {
    if b == [] {
      assert a + b == a;
    } else {
      assert (a + b)[..|a + b| - 1] == a + b[..|b| - 1];
      FiguresConcat(a, b[..|b| - 1], k);
    }
  }

  lemma OneShare(s: Share, k: Key)
    ensures SharesFigures([s], k) == if s.key == k then Figures(s.pnl, s.fee, 1) else NOTHING
  {
    var one := [s];
    assert one[..|one| - 1] == [] && one[|one| - 1] == s;
    assert SharesFigures([], k) == NOTHING;
  }

  lemma FillShareFigures(t: Tables, f: FillRow, k: Key)
    ensures SharesFigures(FillShare(LinksIn(t), f), k)
         == if FillCounts(t, f, k) then OneRow(f.realizedCents, f.feeCents) else NOTHING
  {
    FillRead(t, f);
    LinksRead(t.orders, t.sources, 0);
    var share := FillShare(LinksIn(t), f);
    if share != [] {
      OneShare(share[0], k);
    }
  }

  lemma SettlementShareFigures(t: Tables, s: SettlementRow, k: Key)
    ensures SharesFigures(SettlementShare(LinksIn(t), t.fills, s), k)
         == if SettlementCounts(t, s, k) then OneRow(s.realizedCents, s.feeCents) else NOTHING
  {
    var pos := PosOfRow(s);
    SoleClaimantRead(t, pos);
    forall pid ensures BuiltBy(LinksIn(t), t.fills, pos, pid) <==> SoleProposal(t, pos, pid) {
      SoleRead(t, pos, pid);
    }
    var share := SettlementShare(LinksIn(t), t.fills, s);
    if share != [] {
      OneShare(share[0], k);
      OneProposal(t, pos);
    }
  }

  lemma OneProposal(t: Tables, pos: Pos)
    ensures forall p, q :: SoleProposal(t, pos, p) && SoleProposal(t, pos, q) ==> p == q
  {
    forall p, q | SoleProposal(t, pos, p) && SoleProposal(t, pos, q) ensures p == q {
      var f :| f in t.fills && At(t, f, pos);
      FillRead(t, f);
      assert Caused(t.orders, f, p) && Caused(t.orders, f, q);
    }
  }

  lemma {:induction false} FillsAddUp(t: Tables, fills: seq<FillRow>, k: Key)
    ensures SharesFigures(FillShares(LinksIn(t), fills), k) == FillFigures(t, fills, k)
  {
    if fills != [] {
      var init, f := fills[..|fills| - 1], fills[|fills| - 1];
      FillsAddUp(t, init, k);
      FillShareFigures(t, f, k);
      FiguresConcat(FillShares(LinksIn(t), init), FillShare(LinksIn(t), f), k);
    }
  }

  lemma {:induction false} SettlementsAddUp(t: Tables, rows: seq<SettlementRow>, k: Key)
    ensures SharesFigures(SettlementShares(LinksIn(t), t.fills, rows), k) == SettlementFigures(t, rows, k)
  {
    if rows != [] {
      var init, s := rows[..|rows| - 1], rows[|rows| - 1];
      SettlementsAddUp(t, init, k);
      SettlementShareFigures(t, s, k);
      FiguresConcat(SettlementShares(LinksIn(t), t.fills, init), SettlementShare(LinksIn(t), t.fills, s), k);
    }
  }

  /**
   Every event, from the rows alone: it exists exactly when some row counts for
   it, and it nets, is charged and counts exactly what those rows do.
   */
  lemma {:induction false} EventsAreRows(t: Tables, k: Key)
    ensures var acc := Accounts(LinksIn(t), t.fills, t.settlements);
            var all := Plus(FillFigures(t, t.fills, k), SettlementFigures(t, t.settlements, k));
            && (k in acc <==> all.legs > 0)
            && (k in acc ==> Figures(acc[k].pnl, acc[k].fees, acc[k].legs) == all)
  {
    var l := LinksIn(t);
    EntryIsItsRows(Shares(l, t.fills, t.settlements), k);
    FiguresConcat(FillShares(l, t.fills), SettlementShares(l, t.fills, t.settlements), k);
    FillsAddUp(t, t.fills, k);
    SettlementsAddUp(t, t.settlements, k);
  }

  /** Whose event it is: its proposal's detector, or the only claimant of its position. */
  lemma EventsAreTheirDetectors(t: Tables, k: Key)
    requires k in Accounts(LinksIn(t), t.fills, t.settlements)
    ensures var e := Accounts(LinksIn(t), t.fills, t.settlements)[k];
            match k
            case OfProposal(pid) => pid in t.sources && e.detector == t.sources[pid]
            case OfSettlement(ticker, route) => SoleClaimant(t, (ticker, route), e.detector) && e.route == route
  {
    var l := LinksIn(t);
    var shares := Shares(l, t.fills, t.settlements);
    EntryIsItsRows(shares, k);
    var acc := Accounts(l, t.fills, t.settlements);
    var i :| 0 <= i < |shares| && shares[i].key == k && shares[i].detector == acc[k].detector && shares[i].route == acc[k].route;
    ShareBelongs(l, t.fills, t.settlements, shares[i]);
    LinksRead(t.orders, t.sources, 0);
    if k.OfSettlement? {
      SoleClaimantRead(t, (k.ticker, k.route));
    }
  }

  lemma {:induction false} ShareIsNoLater(shares: seq<Share>, i: nat)
    requires i < |shares|
    ensures shares[i].key in AddShares(map[], shares) && shares[i].ts <= AddShares(map[], shares)[shares[i].key].ts
  {
    EntryIsItsRows(shares, shares[i].key);
  }

  /** No fill of an event is later than it. */
  lemma NoLaterFill(t: Tables, k: Key, f: FillRow)
    requires k in Accounts(LinksIn(t), t.fills, t.settlements) && f in t.fills && FillCounts(t, f, k)
    ensures f.ts <= Accounts(LinksIn(t), t.fills, t.settlements)[k].ts
  {
    var ours, theirs := FillShares(LinksIn(t), t.fills), SettlementShares(LinksIn(t), t.fills, t.settlements);
    var i := FillIsShare(t, t.fills, f, k);
    assert (ours + theirs)[i] == ours[i];
    ShareIsNoLater(ours + theirs, i);
  }

  /** Nor any settlement of it. */
  lemma NoLaterSettlement(t: Tables, k: Key, s: SettlementRow)
    requires k in Accounts(LinksIn(t), t.fills, t.settlements) && s in t.settlements && SettlementCounts(t, s, k)
    ensures s.ts <= Accounts(LinksIn(t), t.fills, t.settlements)[k].ts
  {
    var ours, theirs := FillShares(LinksIn(t), t.fills), SettlementShares(LinksIn(t), t.fills, t.settlements);
    var i := SettlementIsShare(t, t.settlements, s, k);
    assert (ours + theirs)[|ours| + i] == theirs[i];
    ShareIsNoLater(ours + theirs, |ours| + i);
  }

  ghost predicate FillAt(t: Tables, f: FillRow, k: Key, ts: int) {
    f in t.fills && FillCounts(t, f, k) && f.ts == ts
  }

  ghost predicate SettlementAt(t: Tables, s: SettlementRow, k: Key, ts: int) {
    s in t.settlements && SettlementCounts(t, s, k) && s.ts == ts
  }

  lemma DatedShare(shares: seq<Share>, k: Key) returns (i: nat)
    requires k in AddShares(map[], shares)
    ensures i < |shares| && shares[i].key == k && shares[i].ts == AddShares(map[], shares)[k].ts
  {
    EntryIsItsRows(shares, k);
    i :| 0 <= i < |shares| && shares[i].key == k && shares[i].ts == AddShares(map[], shares)[k].ts;
  }

  lemma ShareHasRow(t: Tables, i: nat, share: Share)
    requires i < |Shares(LinksIn(t), t.fills, t.settlements)| && share == Shares(LinksIn(t), t.fills, t.settlements)[i]
    ensures (exists f :: FillAt(t, f, share.key, share.ts)) || exists s :: SettlementAt(t, s, share.key, share.ts)
  {
    var ours, theirs := FillShares(LinksIn(t), t.fills), SettlementShares(LinksIn(t), t.fills, t.settlements);
    if i < |ours| {
      assert share == ours[i];
      var f := ShareIsFill(t, t.fills, i);
      assert FillAt(t, f, share.key, share.ts);
    } else {
      assert share == theirs[i - |ours|];
      var s := ShareIsSettlement(t, t.settlements, i - |ours|);
      assert SettlementAt(t, s, share.key, share.ts);
    }
  }

  /** And some row of it is as late. */
  lemma SomeRowAsLate(t: Tables, k: Key)
    requires k in Accounts(LinksIn(t), t.fills, t.settlements)
    ensures var ts := Accounts(LinksIn(t), t.fills, t.settlements)[k].ts;
            (exists f :: FillAt(t, f, k, ts)) || (exists s :: SettlementAt(t, s, k, ts))
  {
    var all := Shares(LinksIn(t), t.fills, t.settlements);
    var i := DatedShare(all, k);
    ShareHasRow(t, i, all[i]);
  }

  /** An event is dated by the latest of its rows. */
  lemma EventsAreDated(t: Tables, k: Key)
    requires k in Accounts(LinksIn(t), t.fills, t.settlements)
    ensures var ts := Accounts(LinksIn(t), t.fills, t.settlements)[k].ts;
            && (forall f :: f in t.fills && FillCounts(t, f, k) ==> f.ts <= ts)
            && (forall s :: s in t.settlements && SettlementCounts(t, s, k) ==> s.ts <= ts)
            && ((exists f :: FillAt(t, f, k, ts)) || exists s :: SettlementAt(t, s, k, ts))
  {
    forall f | f in t.fills && FillCounts(t, f, k) ensures f.ts <= Accounts(LinksIn(t), t.fills, t.settlements)[k].ts {
      NoLaterFill(t, k, f);
    }
    forall s | s in t.settlements && SettlementCounts(t, s, k) ensures s.ts <= Accounts(LinksIn(t), t.fills, t.settlements)[k].ts {
      NoLaterSettlement(t, k, s);
    }
    SomeRowAsLate(t, k);
  }

  lemma FillShareDated(t: Tables, f: FillRow, k: Key)
    ensures FillCounts(t, f, k) <==> FillShare(LinksIn(t), f) != [] && FillShare(LinksIn(t), f)[0].key == k
    ensures FillShare(LinksIn(t), f) != [] ==> FillShare(LinksIn(t), f)[0].ts == f.ts && |FillShare(LinksIn(t), f)| == 1
  {
    FillRead(t, f);
    LinksRead(t.orders, t.sources, 0);
  }

  lemma SettlementShareDated(t: Tables, s: SettlementRow, k: Key)
    ensures var share := SettlementShare(LinksIn(t), t.fills, s);
            && (SettlementCounts(t, s, k) <==> share != [] && share[0].key == k)
            && (share != [] ==> share[0].ts == s.ts && |share| == 1)
  {
    SettlementShareFigures(t, s, k);
    var share := SettlementShare(LinksIn(t), t.fills, s);
    if share != [] {
      OneShare(share[0], k);
    }
  }

  lemma {:induction false} FillIsShare(t: Tables, fills: seq<FillRow>, f: FillRow, k: Key) returns (i: nat)
    requires f in fills && FillCounts(t, f, k)
    ensures i < |FillShares(LinksIn(t), fills)| && FillShares(LinksIn(t), fills)[i].key == k && FillShares(LinksIn(t), fills)[i].ts == f.ts
  {
    var init, last := fills[..|fills| - 1], fills[|fills| - 1];
    if f == last {
      FillShareDated(t, f, k);
      i := |FillShares(LinksIn(t), init)|;
    } else {
      LastOf(fills);
      i := FillIsShare(t, init, f, k);
    }
  }

  lemma {:induction false} ShareIsFill(t: Tables, fills: seq<FillRow>, i: nat) returns (f: FillRow)
    requires i < |FillShares(LinksIn(t), fills)|
    ensures f in fills && FillCounts(t, f, FillShares(LinksIn(t), fills)[i].key) && FillShares(LinksIn(t), fills)[i].ts == f.ts
  {
    var init, last := fills[..|fills| - 1], fills[|fills| - 1];
    if i < |FillShares(LinksIn(t), init)| {
      f := ShareIsFill(t, init, i);
      LastOf(fills);
    } else {
      f := last;
      FillShareDated(t, f, FillShares(LinksIn(t), fills)[i].key);
    }
  }

  lemma {:induction false} SettlementIsShare(t: Tables, rows: seq<SettlementRow>, s: SettlementRow, k: Key) returns (i: nat)
    requires s in rows && SettlementCounts(t, s, k)
    ensures var shares := SettlementShares(LinksIn(t), t.fills, rows);
            i < |shares| && shares[i].key == k && shares[i].ts == s.ts
  {
    var init, last := rows[..|rows| - 1], rows[|rows| - 1];
    if s == last {
      SettlementShareDated(t, s, k);
      i := |SettlementShares(LinksIn(t), t.fills, init)|;
    } else {
      assert rows == init + [last];
      i := SettlementIsShare(t, init, s, k);
    }
  }

  lemma {:induction false} ShareIsSettlement(t: Tables, rows: seq<SettlementRow>, i: nat) returns (s: SettlementRow)
    requires i < |SettlementShares(LinksIn(t), t.fills, rows)|
    ensures var share := SettlementShares(LinksIn(t), t.fills, rows)[i];
            s in rows && SettlementCounts(t, s, share.key) && share.ts == s.ts
  {
    var init, last := rows[..|rows| - 1], rows[|rows| - 1];
    if i < |SettlementShares(LinksIn(t), t.fills, init)| {
      s := ShareIsSettlement(t, init, i);
      assert rows == init + [last];
    } else {
      s := last;
      SettlementShareDated(t, s, SettlementShares(LinksIn(t), t.fills, rows)[i].key);
    }
  }

  /** A settlement is contested exactly when two detectors claim it; then it counts for no event. */
  lemma ContestedExactly(t: Tables, s: SettlementRow, d: string, route: string)
    ensures Contested(LinksIn(t), t.fills, s, d, route)
            <==> route == Venue(s.route) && Claims(t, PosOfRow(s), d) && exists e :: e != d && Claims(t, PosOfRow(s), e)
    ensures Contested(LinksIn(t), t.fills, s, d, route) ==> forall k :: !SettlementCounts(t, s, k)
  {
    SoleClaimantRead(t, PosOfRow(s));
    ClaimsRead(t, PosOfRow(s), d);
    if |Touched(LinksIn(t), t.fills, PosOfRow(s))| > 1 {
      var a, b :| a != b && Claims(t, PosOfRow(s), a) && Claims(t, PosOfRow(s), b);
      assert a != d || b != d;
    }
  }

  /** The settlements, by position, that `d` contests with another on `route`. */
  ghost function ContestedRows(t: Tables, rows: seq<SettlementRow>, d: string, route: string): set<int> {
    Where(rows, s => Contested(LinksIn(t), t.fills, s, d, route))
  }

  ghost function Where(rows: seq<SettlementRow>, p: SettlementRow -> bool): set<int> {
    set i | 0 <= i < |rows| && p(rows[i])
  }

  lemma WhereNext(rows: seq<SettlementRow>, p: SettlementRow -> bool, n: int)
    requires rows != [] && n == |rows| - 1
    ensures |Where(rows, p)| == |Where(rows[..n], p)| + if p(rows[n]) then 1 else 0
  {
    assert n !in Where(rows[..n], p);
    assert Where(rows, p) == if p(rows[n]) then Where(rows[..n], p) + {n} else Where(rows[..n], p);
  }

  /** What is reported of a detector on a route is how many those are. */
  lemma {:induction false} ContestedAreCounted(t: Tables, rows: seq<SettlementRow>, d: string, route: string)
    ensures ContestedCount(LinksIn(t), t.fills, rows, d, route) == |ContestedRows(t, rows, d, route)|
  {
    if rows != [] {
      var n := |rows| - 1;
      ContestedAreCounted(t, rows[..n], d, route);
      WhereNext(rows, s => Contested(LinksIn(t), t.fills, s, d, route), n);
    }
  }
}
