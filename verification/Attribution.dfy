/**
 Which decision earned which cent (`attribute_events` in
 `backend/app/backtest/report.py`): fills first, then settlements, grouped by
 the proposal that caused them, with ambiguous settlements dropped.
 */
module Attribution {
  import opened Prelude
  import opened MapSums
  import Sorting

  datatype OrderRow = OrderRow(id: int, proposalId: Option<int>, route: string)

  datatype FillRow = FillRow(orderId: Option<int>, ticker: string, feeCents: real, realizedCents: real, ts: int)

  datatype SettlementRow = SettlementRow(ticker: string, route: string, realizedCents: real, feeCents: real, ts: int)

  /** A position: a market on a route. */
  type Pos = (string, string)

  datatype Key = OfProposal(pid: int) | OfSettlement(ticker: string, route: string)

  datatype Entry = Entry(detector: string, route: string, ts: int, pnl: real, fees: real, legs: nat)

  datatype Event = Event(key: Key, entry: Entry)

  /** The lookups the loops consult. */
  datatype Links = Links(proposals: map<int, Option<int>>, routes: map<int, string>, sources: map<int, string>)

  function RouteOr(route: string): string {
    if route == "" then "simulated" else route
  }

  function LinksOf(orders: seq<OrderRow>, sources: map<int, string>): Links {
    if orders == [] then Links(map[], map[], sources)
    else
      var l := LinksOf(orders[..|orders| - 1], sources);
      var o := orders[|orders| - 1];
      l.(proposals := l.proposals[o.id := o.proposalId], routes := l.routes[o.id := RouteOr(o.route)])
  }

  function PidOf(l: Links, f: FillRow): Option<int> {
    if f.orderId.Some? && f.orderId.value in l.proposals then l.proposals[f.orderId.value] else None
  }

  function RouteOf(l: Links, f: FillRow): string {
    if f.orderId.Some? && f.orderId.value in l.routes then l.routes[f.orderId.value] else "simulated"
  }

  function DetectorOf(l: Links, f: FillRow): Option<string> {
    var pid := PidOf(l, f);
    if pid.Some? && pid.value in l.sources then Some(l.sources[pid.value]) else None
  }

  function PosOf(l: Links, f: FillRow): Pos {
    (f.ticker, RouteOf(l, f))
  }

  /** An empty detector name is no detector where the source asks for truth, and a detector where it asks for `None`. */
  predicate Named(d: Option<string>) {
    d.Some? && d.value != ""
  }

  // ----- contributions: what a row adds, and to which decision -----

  datatype Share = Share(key: Key, detector: string, route: string, ts: int, pnl: real, fee: real)

  function FillShare(l: Links, f: FillRow): seq<Share> {
    var d := DetectorOf(l, f);
    if d.None? then []
    else [Share(OfProposal(PidOf(l, f).value), d.value, RouteOf(l, f), f.ts, f.realizedCents - f.feeCents, f.feeCents)]
  }

  function AddShare(acc: map<Key, Entry>, s: Share): map<Key, Entry> {
    var e := if s.key in acc then acc[s.key] else Entry(s.detector, s.route, s.ts, 0.0, 0.0, 0);
    acc[s.key := e.(fees := e.fees + s.fee, pnl := e.pnl + s.pnl, legs := e.legs + 1, ts := if s.ts > e.ts then s.ts else e.ts)]
  }

  function AddShares(acc: map<Key, Entry>, shares: seq<Share>): map<Key, Entry> {
    if shares == [] then acc else AddShare(AddShares(acc, shares[..|shares| - 1]), shares[|shares| - 1])
  }

  /** What the first loop has gathered. */
  datatype Tally = Tally(touched: map<Pos, set<string>>, sole: map<Pos, Option<int>>, acc: map<Key, Entry>)

  function TouchedAt(t: Tally, pos: Pos): set<string> {
    if pos in t.touched then t.touched[pos] else {}
  }

  function AfterFill(t: Tally, l: Links, f: FillRow): Tally {
    var pos, pid, d := PosOf(l, f), PidOf(l, f), DetectorOf(l, f);
    Tally(
      if Named(d) then t.touched[pos := TouchedAt(t, pos) + {d.value}] else t.touched,
      if pos !in t.sole then t.sole[pos := pid]
      else if t.sole[pos] != pid then t.sole[pos := None]
      else t.sole,
      AddShares(t.acc, FillShare(l, f)))
  }

  function AfterFills(l: Links, fills: seq<FillRow>): Tally {
    if fills == [] then Tally(map[], map[], map[])
    else AfterFill(AfterFills(l, fills[..|fills| - 1]), l, fills[|fills| - 1])
  }

  // ----- the same, said outright -----

  /** The detectors that touched a position. */
  ghost function Touched(l: Links, fills: seq<FillRow>, pos: Pos): set<string> {
    set f | f in fills && PosOf(l, f) == pos && Named(DetectorOf(l, f)) :: DetectorOf(l, f).value
  }

  /** One proposal, and nothing else, built the position. */
  ghost predicate BuiltBy(l: Links, fills: seq<FillRow>, pos: Pos, pid: int) {
    && (exists f :: f in fills && PosOf(l, f) == pos)
    && (forall f :: f in fills && PosOf(l, f) == pos ==> PidOf(l, f) == Some(pid))
  }

  /** A settlement belongs to the only detector that touched its position, and to its only proposal if there was one. */
  ghost function SettlementShare(l: Links, fills: seq<FillRow>, s: SettlementRow): seq<Share> {
    var pos := (s.ticker, RouteOr(s.route));
    var ds := Touched(l, fills, pos);
    if |ds| != 1 then []
    else
      var d :| d in ds;
      var key := if pid :| BuiltBy(l, fills, pos, pid) then OfProposal(pid) else OfSettlement(pos.0, pos.1);
      [Share(key, d, pos.1, s.ts, s.realizedCents - s.feeCents, s.feeCents)]
  }

  function FillShares(l: Links, fills: seq<FillRow>): seq<Share> {
    if fills == [] then [] else FillShares(l, fills[..|fills| - 1]) + FillShare(l, fills[|fills| - 1])
  }

  ghost function SettlementShares(l: Links, fills: seq<FillRow>, rows: seq<SettlementRow>): seq<Share> {
    if rows == [] then []
    else SettlementShares(l, fills, rows[..|rows| - 1]) + SettlementShare(l, fills, rows[|rows| - 1])
  }

  /** Every row that counts, with the decision it counts for. */
  ghost function Shares(l: Links, fills: seq<FillRow>, rows: seq<SettlementRow>): seq<Share> {
    FillShares(l, fills) + SettlementShares(l, fills, rows)
  }

  ghost function Accounts(l: Links, fills: seq<FillRow>, rows: seq<SettlementRow>): map<Key, Entry> {
    AddShares(map[], Shares(l, fills, rows))
  }

  // ----- the first loop says the same -----

  lemma {:induction false} AddSharesConcat(acc: map<Key, Entry>, a: seq<Share>, b: seq<Share>)
    ensures AddShares(acc, a + b) == AddShares(AddShares(acc, a), b)
    decreases |b|
  {
    if b == [] {
      assert a + b == a;
    } else {
      assert (a + b)[..|a + b| - 1] == a + b[..|b| - 1];
      AddSharesConcat(acc, a, b[..|b| - 1]);
    }
  }

  ghost predicate SoleSays(sole: map<Pos, Option<int>>, l: Links, fills: seq<FillRow>, pos: Pos) {
    && (pos in sole <==> exists f :: f in fills && PosOf(l, f) == pos)
    && (pos in sole ==> forall pid :: sole[pos] == Some(pid) <==> BuiltBy(l, fills, pos, pid))
  }

  lemma LastOf(fills: seq<FillRow>)
    requires fills != []
    ensures forall f :: f in fills <==> f in fills[..|fills| - 1] || f == fills[|fills| - 1]
  {
    assert fills == fills[..|fills| - 1] + [fills[|fills| - 1]];
  }

  lemma {:induction false} TouchedGathered(l: Links, fills: seq<FillRow>, pos: Pos)
    ensures TouchedAt(AfterFills(l, fills), pos) == Touched(l, fills, pos)
  {
    if fills != [] {
      LastOf(fills);
      TouchedGathered(l, fills[..|fills| - 1], pos);
    }
  }

  lemma {:induction false} SoleGathered(l: Links, fills: seq<FillRow>, pos: Pos)
    ensures SoleSays(AfterFills(l, fills).sole, l, fills, pos)
  {
    if fills != [] {
      var init, f := fills[..|fills| - 1], fills[|fills| - 1];
      LastOf(fills);
      SoleGathered(l, init, pos);
      var before := AfterFills(l, init).sole;
      if PosOf(l, f) == pos && pos in before {
        var g :| g in init && PosOf(l, g) == pos;
        assert g in fills;
        forall pid ensures BuiltBy(l, fills, pos, pid) <==> BuiltBy(l, init, pos, pid) && PidOf(l, f) == Some(pid) {
          assert f in fills;
        }
      }
    }
  }

  lemma {:induction false} AccGathered(l: Links, fills: seq<FillRow>)
    ensures AfterFills(l, fills).acc == AddShares(map[], FillShares(l, fills))
  {
    if fills != [] {
      var init := fills[..|fills| - 1];
      AccGathered(l, init);
      AddSharesConcat(map[], FillShares(l, init), FillShare(l, fills[|fills| - 1]));
    }
  }

  // ----- each decision gets exactly its own rows -----

  function PnlAt(shares: seq<Share>, k: Key): real {
    if shares == [] then 0.0
    else
      var s := shares[|shares| - 1];
      PnlAt(shares[..|shares| - 1], k) + if s.key == k then s.pnl else 0.0
  }

  function FeesAt(shares: seq<Share>, k: Key): real {
    if shares == [] then 0.0
    else
      var s := shares[|shares| - 1];
      FeesAt(shares[..|shares| - 1], k) + if s.key == k then s.fee else 0.0
  }

  function LegsAt(shares: seq<Share>, k: Key): nat {
    if shares == [] then 0
    else
      var s := shares[|shares| - 1];
      LegsAt(shares[..|shares| - 1], k) + if s.key == k then 1 else 0
  }

  ghost predicate Agree(shares: seq<Share>) {
    forall i, j :: 0 <= i < |shares| && 0 <= j < |shares| && shares[i].key == shares[j].key ==>
      shares[i].detector == shares[j].detector && shares[i].route == shares[j].route
  }

  /** An entry is the sum of its rows, as late as the latest of them, and has no row of anyone else's. */
  lemma {:induction false} EntryIsItsRows(shares: seq<Share>, k: Key)
    ensures var acc := AddShares(map[], shares);
            && (k in acc <==> exists i :: 0 <= i < |shares| && shares[i].key == k)
            && (k !in acc ==> PnlAt(shares, k) == 0.0 && LegsAt(shares, k) == 0)
            && (k in acc ==>
                  && acc[k].pnl == PnlAt(shares, k) && acc[k].fees == FeesAt(shares, k) && acc[k].legs == LegsAt(shares, k) > 0
                  && (forall i :: 0 <= i < |shares| && shares[i].key == k ==> shares[i].ts <= acc[k].ts)
                  && (exists i :: 0 <= i < |shares| && shares[i].key == k && shares[i].ts == acc[k].ts)
                  && (exists i :: 0 <= i < |shares| && shares[i].key == k
                                  && shares[i].detector == acc[k].detector && shares[i].route == acc[k].route))
  {
    if shares != [] {
      var init, s := shares[..|shares| - 1], shares[|shares| - 1];
      EntryIsItsRows(init, k);
      var acc := AddShares(map[], init);
      if k in acc {
        var t :| 0 <= t < |init| && init[t].key == k && init[t].ts == acc[k].ts;
        var d :| 0 <= d < |init| && init[d].key == k && init[d].detector == acc[k].detector && init[d].route == acc[k].route;
        assert shares[t] == init[t] && shares[d] == init[d];
      } else if s.key == k {
        assert FeesAt(init, k) == 0.0 by { NoRowsNoFees(init, k); }
        assert shares[|shares| - 1].key == k;
      } else {
        assert forall i :: 0 <= i < |init| ==> shares[i] == init[i];
      }
    }
  }

  lemma {:induction false} NoRowsNoFees(shares: seq<Share>, k: Key)
    requires forall i :: 0 <= i < |shares| ==> shares[i].key != k
    ensures FeesAt(shares, k) == 0.0
  {
    if shares != [] {
      NoRowsNoFees(shares[..|shares| - 1], k);
    }
  }

  // ----- nothing is lost, nothing is counted twice -----

  ghost function Pnls(acc: map<Key, Entry>): map<Key, real> {
    map k | k in acc :: acc[k].pnl
  }

  ghost function TotalPnl(acc: map<Key, Entry>): real {
    MapSum(Pnls(acc))
  }

  function SumPnl(shares: seq<Share>): real {
    if shares == [] then 0.0 else SumPnl(shares[..|shares| - 1]) + shares[|shares| - 1].pnl
  }

  lemma {:induction false} AccountsTotal(shares: seq<Share>)
    ensures TotalPnl(AddShares(map[], shares)) == SumPnl(shares)
  {
    if shares != [] {
      var init, s := shares[..|shares| - 1], shares[|shares| - 1];
      AccountsTotal(init);
      var acc := AddShares(map[], init);
      var p := Pnls(acc);
      var was := if s.key in acc then acc[s.key].pnl else 0.0;
      assert Pnls(AddShare(acc, s)) == p[s.key := was + s.pnl];
      MapSumPut(p, s.key, was + s.pnl);
      MapSumSplit(p, s.key);
    }
  }

  /** Net P&L of the fills some detector's proposal caused. */
  function DetectorFillPnl(l: Links, fills: seq<FillRow>): real {
    if fills == [] then 0.0
    else
      var f := fills[|fills| - 1];
      DetectorFillPnl(l, fills[..|fills| - 1]) + if DetectorOf(l, f).Some? then f.realizedCents - f.feeCents else 0.0
  }

  /** Net P&L of the settlements of positions exactly one detector touched. */
  ghost function SoleSettlementPnl(l: Links, fills: seq<FillRow>, rows: seq<SettlementRow>): real {
    if rows == [] then 0.0
    else
      var s := rows[|rows| - 1];
      SoleSettlementPnl(l, fills, rows[..|rows| - 1])
      + if |Touched(l, fills, (s.ticker, RouteOr(s.route)))| == 1 then s.realizedCents - s.feeCents else 0.0
  }

  lemma {:induction false} SumPnlConcat(a: seq<Share>, b: seq<Share>)
    ensures SumPnl(a + b) == SumPnl(a) + SumPnl(b)
    decreases |b|
  {
    if b == [] {
      assert a + b == a;
    } else {
      assert (a + b)[..|a + b| - 1] == a + b[..|b| - 1];
      SumPnlConcat(a, b[..|b| - 1]);
    }
  }

  lemma {:induction false} FillSharesTotal(l: Links, fills: seq<FillRow>)
    ensures SumPnl(FillShares(l, fills)) == DetectorFillPnl(l, fills)
  {
    if fills != [] {
      FillSharesTotal(l, fills[..|fills| - 1]);
      SumPnlConcat(FillShares(l, fills[..|fills| - 1]), FillShare(l, fills[|fills| - 1]));
    }
  }

  lemma {:induction false} SettlementSharesTotal(l: Links, fills: seq<FillRow>, rows: seq<SettlementRow>)
    ensures SumPnl(SettlementShares(l, fills, rows)) == SoleSettlementPnl(l, fills, rows)
  {
    if rows != [] {
      SettlementSharesTotal(l, fills, rows[..|rows| - 1]);
      SumPnlConcat(SettlementShares(l, fills, rows[..|rows| - 1]), SettlementShare(l, fills, rows[|rows| - 1]));
    }
  }

  /**
   Conservation: the P&L of all events together is the net of every fill some
   detector caused and every settlement with exactly one claimant, no more.
   */
  lemma {:induction false} AttributionConserves(l: Links, fills: seq<FillRow>, rows: seq<SettlementRow>)
    ensures TotalPnl(Accounts(l, fills, rows)) == DetectorFillPnl(l, fills) + SoleSettlementPnl(l, fills, rows)
  {
    AccountsTotal(Shares(l, fills, rows));
    SumPnlConcat(FillShares(l, fills), SettlementShares(l, fills, rows));
    FillSharesTotal(l, fills);
    SettlementSharesTotal(l, fills, rows);
  }

  // ----- every row of an event is its detector's, on its route -----

  /** The filled orders of a proposal that some detector made all went one way. */
  ghost predicate OneRoutePerProposal(l: Links, fills: seq<FillRow>) {
    forall f, g :: f in fills && g in fills && DetectorOf(l, f).Some? && PidOf(l, f) == PidOf(l, g) ==> RouteOf(l, f) == RouteOf(l, g)
  }

  /** What a share of a decision must look like. */
  ghost predicate Belongs(s: Share, l: Links, fills: seq<FillRow>) {
    match s.key
    case OfProposal(pid) =>
      pid in l.sources && s.detector == l.sources[pid] && exists f :: f in fills && PidOf(l, f) == Some(pid) && RouteOf(l, f) == s.route
    case OfSettlement(t, r) => Touched(l, fills, (t, r)) == {s.detector} && s.route == r
  }

  lemma {:induction false} FillSharesBelong(l: Links, all: seq<FillRow>, fills: seq<FillRow>, s: Share)
    requires s in FillShares(l, fills) && forall f :: f in fills ==> f in all
    ensures Belongs(s, l, all)
  {
    var init, f := fills[..|fills| - 1], fills[|fills| - 1];
    assert f in fills;
    if s in FillShares(l, init) {
      assert forall g :: g in init ==> g in fills;
      FillSharesBelong(l, all, init, s);
    } else {
      assert s in FillShare(l, f);
    }
  }

  lemma Singleton(s: set<string>, d: string)
    requires |s| == 1 && d in s
    ensures s == {d}
  {
    assert |s - {d}| == 0;
  }

  lemma SettlementShareBelongs(l: Links, fills: seq<FillRow>, row: SettlementRow, s: Share)
    requires s in SettlementShare(l, fills, row)
    ensures Belongs(s, l, fills)
  {
    var pos := (row.ticker, RouteOr(row.route));
    var ds := Touched(l, fills, pos);
    assert s == SettlementShare(l, fills, row)[0];
    Singleton(ds, s.detector);
    if s.key.OfProposal? {
      assert BuiltBy(l, fills, pos, s.key.pid);
      assert s.detector in ds;
      var f :| f in fills && PosOf(l, f) == pos && Named(DetectorOf(l, f)) && DetectorOf(l, f).value == s.detector;
      assert PidOf(l, f) == Some(s.key.pid);
    }
  }

  lemma {:induction false} SettlementSharesBelong(l: Links, fills: seq<FillRow>, rows: seq<SettlementRow>, s: Share)
    requires s in SettlementShares(l, fills, rows)
    ensures Belongs(s, l, fills)
  {
    if s in SettlementShares(l, fills, rows[..|rows| - 1]) {
      SettlementSharesBelong(l, fills, rows[..|rows| - 1], s);
    } else {
      SettlementShareBelongs(l, fills, rows[|rows| - 1], s);
    }
  }

  lemma ShareBelongs(l: Links, fills: seq<FillRow>, rows: seq<SettlementRow>, s: Share)
    requires s in Shares(l, fills, rows)
    ensures Belongs(s, l, fills)
  {
    if s in FillShares(l, fills) {
      FillSharesBelong(l, fills, fills, s);
    } else {
      SettlementSharesBelong(l, fills, rows, s);
    }
  }

  /** Two rows of one event never belong to different detectors, nor to different routes if proposals keep to one. */
  lemma SharesAgree(l: Links, fills: seq<FillRow>, rows: seq<SettlementRow>, a: Share, b: Share)
    requires a in Shares(l, fills, rows) && b in Shares(l, fills, rows) && a.key == b.key
    ensures a.detector == b.detector
    ensures OneRoutePerProposal(l, fills) ==> a.route == b.route
  {
    ShareBelongs(l, fills, rows, a);
    ShareBelongs(l, fills, rows, b);
    if a.key.OfSettlement? {
      assert b.detector in {a.detector};
    }
  }

  /** So an event's own detector is the detector of every row in it, and its route the route of every row. */
  lemma EventOwnsItsRows(l: Links, fills: seq<FillRow>, rows: seq<SettlementRow>, s: Share)
    requires s in Shares(l, fills, rows)
    ensures var acc := Accounts(l, fills, rows);
            && s.key in acc && acc[s.key].detector == s.detector
            && (OneRoutePerProposal(l, fills) ==> acc[s.key].route == s.route)
  {
    var shares := Shares(l, fills, rows);
    EntryIsItsRows(shares, s.key);
    var i :| 0 <= i < |shares| && shares[i] == s;
    var acc := Accounts(l, fills, rows);
    var j :| 0 <= j < |shares| && shares[j].key == s.key && shares[j].detector == acc[s.key].detector && shares[j].route == acc[s.key].route;
    SharesAgree(l, fills, rows, shares[j], s);
  }

  // ----- the order of the fills does not matter -----

  lemma AddShareCommutes(acc: map<Key, Entry>, a: Share, b: Share)
    requires a.key == b.key ==> a.detector == b.detector && a.route == b.route
    ensures AddShare(AddShare(acc, a), b) == AddShare(AddShare(acc, b), a)
  {
    if a.key == b.key {
      assert AddShare(AddShare(acc, a), b)[a.key] == AddShare(AddShare(acc, b), a)[a.key];
    }
  }

  function Removed<T>(s: seq<T>, j: nat): seq<T>
    requires j < |s|
  {
    s[..j] + s[j + 1..]
  }

  lemma {:induction false} AddSharesStep(shares: seq<Share>, s: Share)
    ensures AddShares(map[], shares + [s]) == AddShare(AddShares(map[], shares), s)
  {
    assert (shares + [s])[..|shares|] == shares;
  }

  lemma RemovedStep(shares: seq<Share>, j: nat)
    requires j < |shares| - 1
    ensures Removed(shares, j) == Removed(shares[..|shares| - 1], j) + [shares[|shares| - 1]]
  {
  }

  /** Any row may be counted last. */
  lemma {:induction false} CountLast(shares: seq<Share>, j: nat)
    requires Agree(shares) && j < |shares|
    ensures AddShares(map[], shares) == AddShare(AddShares(map[], Removed(shares, j)), shares[j])
  {
    var n := |shares| - 1;
    var init, last := shares[..n], shares[n];
    assert shares == init + [last];
    AddSharesStep(init, last);
    if j == n {
      assert Removed(shares, j) == init;
    } else {
      CountLast(init, j);
      RemovedStep(shares, j);
      AddSharesStep(Removed(init, j), last);
      AddShareCommutes(AddShares(map[], Removed(init, j)), shares[j], last);
    }
  }

  lemma RemovedMultiset<T>(s: seq<T>, j: nat)
    requires j < |s|
    ensures multiset(Removed(s, j)) + multiset{s[j]} == multiset(s)
  {
    assert s == s[..j] + [s[j]] + s[j + 1..];
  }

  /** The last element of `a`, found and taken out of its permutation `b`. */
  lemma FindLast<T>(a: seq<T>, b: seq<T>) returns (j: nat)
    requires a != [] && multiset(a) == multiset(b)
    ensures j < |b| && b[j] == a[|a| - 1]
    ensures multiset(a[..|a| - 1]) == multiset(Removed(b, j))
  {
    var n := |a| - 1;
    assert a == a[..n] + [a[n]];
    assert a[n] in multiset(b);
    j :| 0 <= j < |b| && b[j] == a[n];
    RemovedMultiset(b, j);
    assert multiset(a[..n]) == multiset(a) - multiset{a[n]};
    assert multiset(Removed(b, j)) == multiset(b) - multiset{b[j]};
  }

  lemma {:induction false} AccountsPermute(a: seq<Share>, b: seq<Share>)
    requires multiset(a) == multiset(b) && Agree(a) && Agree(b)
    ensures AddShares(map[], a) == AddShares(map[], b)
    decreases |a|
  {
    if a == [] {
      assert |multiset(b)| == 0;
    } else {
      var j := FindLast(a, b);
      CountLast(b, j);
      AgreeRemoved(b, j);
      AccountsPermute(a[..|a| - 1], Removed(b, j));
    }
  }

  lemma AgreeRemoved(shares: seq<Share>, j: nat)
    requires Agree(shares) && j < |shares|
    ensures Agree(Removed(shares, j))
  {
    var r := Removed(shares, j);
    forall x, y | 0 <= x < |r| && 0 <= y < |r| && r[x].key == r[y].key
      ensures r[x].detector == r[y].detector && r[x].route == r[y].route
    {
      assert r[x] == shares[if x < j then x else x + 1] && r[y] == shares[if y < j then y else y + 1];
    }
  }

  lemma {:induction false} FillSharesConcat(l: Links, a: seq<FillRow>, b: seq<FillRow>)
    ensures FillShares(l, a + b) == FillShares(l, a) + FillShares(l, b)
    decreases |b|
  {
    if b == [] {
      assert a + b == a;
    } else {
      assert (a + b)[..|a + b| - 1] == a + b[..|b| - 1];
      FillSharesConcat(l, a, b[..|b| - 1]);
    }
  }

  lemma MiddleOut<T>(x: seq<T>, m: seq<T>, y: seq<T>)
    ensures multiset(x + (m + y)) == multiset(x + y) + multiset(m)
  {
  }

  lemma {:induction false} FillSharesOne(l: Links, f: FillRow)
    ensures FillShares(l, [f]) == FillShare(l, f)
  {
    assert [f][..0] == [];
  }

  lemma {:induction false} FillSharesAround(l: Links, before: seq<FillRow>, f: FillRow, after: seq<FillRow>)
    ensures multiset(FillShares(l, before + ([f] + after)))
         == multiset(FillShares(l, before + after)) + multiset(FillShare(l, f))
  {
    FillSharesConcat(l, before, after);
    FillSharesConcat(l, before, [f] + after);
    FillSharesConcat(l, [f], after);
    FillSharesOne(l, f);
    MiddleOut(FillShares(l, before), FillShare(l, f), FillShares(l, after));
  }

  lemma SplitAround<T>(s: seq<T>, j: nat) returns (before: seq<T>, after: seq<T>)
    requires j < |s|
    ensures s == before + ([s[j]] + after) && Removed(s, j) == before + after
  {
    before, after := s[..j], s[j + 1..];
  }

  lemma {:induction false} FillSharesPermute(l: Links, a: seq<FillRow>, b: seq<FillRow>)
    requires multiset(a) == multiset(b)
    ensures multiset(FillShares(l, a)) == multiset(FillShares(l, b))
    decreases |a|
  {
    if a == [] {
      assert |multiset(b)| == 0;
    } else {
      var j := FindLast(a, b);
      FillSharesPermute(l, a[..|a| - 1], Removed(b, j));
      var before, after := SplitAround(b, j);
      FillSharesAround(l, before, b[j], after);
    }
  }

  lemma SameRows(a: seq<FillRow>, b: seq<FillRow>)
    requires multiset(a) == multiset(b)
    ensures forall f :: f in a <==> f in b
  {
    forall f ensures f in a <==> f in b {
      assert f in multiset(a) <==> f in multiset(b);
    }
  }

  lemma {:induction false} SettlementSharesSame(l: Links, a: seq<FillRow>, b: seq<FillRow>, rows: seq<SettlementRow>)
    requires forall f :: f in a <==> f in b
    ensures SettlementShares(l, a, rows) == SettlementShares(l, b, rows)
  {
    if rows != [] {
      SettlementSharesSame(l, a, b, rows[..|rows| - 1]);
      SettlementShareSame(l, a, b, rows[|rows| - 1]);
    }
  }

  lemma BuiltByOnlyOne(l: Links, fills: seq<FillRow>, pos: Pos, p: int, q: int)
    requires BuiltBy(l, fills, pos, p) && BuiltBy(l, fills, pos, q)
    ensures p == q
  {
    var f :| f in fills && PosOf(l, f) == pos;
    assert PidOf(l, f) == Some(p);
  }

  lemma SettlementShareSame(l: Links, a: seq<FillRow>, b: seq<FillRow>, row: SettlementRow)
    requires forall f :: f in a <==> f in b
    ensures SettlementShare(l, a, row) == SettlementShare(l, b, row)
  {
    var pos := (row.ticker, RouteOr(row.route));
    assert Touched(l, a, pos) == Touched(l, b, pos);
    forall pid ensures BuiltBy(l, a, pos, pid) <==> BuiltBy(l, b, pos, pid) {
    }
    if |Touched(l, a, pos)| == 1 {
      var x, y := SettlementShare(l, a, row)[0], SettlementShare(l, b, row)[0];
      Singleton(Touched(l, a, pos), x.detector);
      assert y.detector in {x.detector};
      if x.key.OfProposal? {
        assert BuiltBy(l, a, pos, x.key.pid);
        assert y.key.OfProposal?;
        BuiltByOnlyOne(l, b, pos, x.key.pid, y.key.pid);
      }
    }
  }

  lemma SharesAllAgree(l: Links, fills: seq<FillRow>, rows: seq<SettlementRow>)
    requires OneRoutePerProposal(l, fills)
    ensures Agree(Shares(l, fills, rows))
  {
    var shares := Shares(l, fills, rows);
    forall i, j | 0 <= i < |shares| && 0 <= j < |shares| && shares[i].key == shares[j].key
      ensures shares[i].detector == shares[j].detector && shares[i].route == shares[j].route
    {
      SharesAgree(l, fills, rows, shares[i], shares[j]);
    }
  }

  /** Reading the same fills in any other order gives the same decisions with the same figures. */
  lemma OrderDoesNotMatter(l: Links, a: seq<FillRow>, b: seq<FillRow>, rows: seq<SettlementRow>)
    requires multiset(a) == multiset(b) && OneRoutePerProposal(l, a)
    ensures Accounts(l, a, rows) == Accounts(l, b, rows)
  {
    SameRows(a, b);
    SharesAllAgree(l, a, rows);
    SharesAllAgree(l, b, rows);
    FillSharesPermute(l, a, b);
    SettlementSharesSame(l, a, b, rows);
    AccountsPermute(Shares(l, a, rows), Shares(l, b, rows));
  }

  /** The first row of a decision names its route, and no later one changes it. */
  lemma {:induction false} FirstNamesRoute(shares: seq<Share>)
    requires shares != []
    ensures var acc := AddShares(map[], shares); shares[0].key in acc && acc[shares[0].key].route == shares[0].route
    decreases |shares|
  {
    if |shares| == 1 {
      assert shares[..0] == [];
    } else {
      FirstNamesRoute(shares[..|shares| - 1]);
    }
  }

  lemma FrontNamesRoute(l: Links, f: FillRow, rest: seq<FillRow>, rows: seq<SettlementRow>)
    requires DetectorOf(l, f).Some?
    ensures var acc := Accounts(l, [f] + rest, rows); var k := OfProposal(PidOf(l, f).value); k in acc && acc[k].route == RouteOf(l, f)
  {
    FillSharesConcat(l, [f], rest);
    FillSharesOne(l, f);
    FirstNamesRoute(Shares(l, [f] + rest, rows));
  }

  /** The fills with the `j`-th one read first. */
  function Fronted(fills: seq<FillRow>, j: nat): seq<FillRow>
    requires j < |fills|
  {
    [fills[j]] + Removed(fills, j)
  }

  /** No order of the fills changes the accounts. */
  ghost predicate OrderFree(l: Links, a: seq<FillRow>, rows: seq<SettlementRow>) {
    forall b: seq<FillRow> :: multiset(b) == multiset(a) ==> Accounts(l, b, rows) == Accounts(l, a, rows)
  }

  /** Exactly: the order is free if and only if the fills of each detector's proposal share a route. */
  lemma OrderIsFreeExactly(l: Links, a: seq<FillRow>, rows: seq<SettlementRow>)
    ensures OrderFree(l, a, rows) <==> OneRoutePerProposal(l, a)
  {
    if OneRoutePerProposal(l, a) {
      forall b: seq<FillRow> | multiset(b) == multiset(a) ensures Accounts(l, b, rows) == Accounts(l, a, rows) {
        OrderDoesNotMatter(l, a, b, rows);
      }
    }
    if OrderFree(l, a, rows) {
      forall f, g | f in a && g in a && DetectorOf(l, f).Some? && PidOf(l, f) == PidOf(l, g) ensures RouteOf(l, f) == RouteOf(l, g) {
        var i :| 0 <= i < |a| && a[i] == f;
        var j :| 0 <= j < |a| && a[j] == g;
        FrontRoute(l, a, rows, i, OfProposal(PidOf(l, f).value));
        FrontRoute(l, a, rows, j, OfProposal(PidOf(l, f).value));
      }
    }
  }

  /** With a free order, whichever fill of a proposal is read first names the route of its event. */
  lemma FrontRoute(l: Links, a: seq<FillRow>, rows: seq<SettlementRow>, i: nat, k: Key)
    requires OrderFree(l, a, rows) && i < |a| && DetectorOf(l, a[i]).Some? && k == OfProposal(PidOf(l, a[i]).value)
    ensures k in Accounts(l, a, rows) && Accounts(l, a, rows)[k].route == RouteOf(l, a[i])
  {
    RemovedMultiset(a, i);
    assert multiset(Fronted(a, i)) == multiset(a);
    FrontNamesRoute(l, a[i], Removed(a, i), rows);
  }

  // ----- what could not be attributed -----

  ghost predicate Contested(l: Links, fills: seq<FillRow>, row: SettlementRow, d: string, route: string) {
    var ds := Touched(l, fills, (row.ticker, RouteOr(row.route)));
    RouteOr(row.route) == route && d in ds && |ds| > 1
  }

  /** Settlements a detector had a claim on, shared with another. */
  ghost function ContestedCount(l: Links, fills: seq<FillRow>, rows: seq<SettlementRow>, d: string, route: string): nat {
    if rows == [] then 0
    else ContestedCount(l, fills, rows[..|rows| - 1], d, route)
         + if Contested(l, fills, rows[|rows| - 1], d, route) then 1 else 0
  }

  /** `m` counts exactly the contested settlements, and lists no pair without one. */
  ghost predicate CountsContested(m: map<(string, string), nat>, l: Links, fills: seq<FillRow>, rows: seq<SettlementRow>) {
    forall k: (string, string) {:trigger k in m} ::
      && (k in m <==> ContestedCount(l, fills, rows, k.0, k.1) > 0)
      && (k in m ==> m[k] == ContestedCount(l, fills, rows, k.0, k.1))
  }

  // ----- the loops -----

  ghost predicate ByTime(events: seq<Event>) {
    forall i, j :: 0 <= i < j < |events| ==> events[i].entry.ts <= events[j].entry.ts
  }

  /** Every entry once, oldest first. */
  ghost predicate Lists(events: seq<Event>, acc: map<Key, Entry>) {
    && |events| == |acc| && ByTime(events)
    && (forall i :: 0 <= i < |events| ==> events[i].key in acc && events[i].entry == acc[events[i].key])
    && (forall i, j :: 0 <= i < j < |events| ==> events[i].key != events[j].key)
  }

  function TsOf(e: Event): real { e.entry.ts as real }

  ghost predicate ListsOnce(events: seq<Event>, acc: map<Key, Entry>) {
    forall e :: e in multiset(events) ==> e.key in acc && e.entry == acc[e.key] && multiset(events)[e] == 1
  }

  method SortEvents(acc: map<Key, Entry>) returns (events: seq<Event>)
    ensures Lists(events, acc)
  {
    var listed: seq<Event> := [];
    var todo := acc.Keys;
    while todo != {}
      invariant todo <= acc.Keys && |listed| == |acc| - |todo| && ListsOnce(listed, acc)
      invariant forall e :: e in multiset(listed) ==> e.key !in todo
      decreases |todo|
    {
      var k := AnyOf(todo);
      assert Event(k, acc[k]) !in multiset(listed);
      listed := listed + [Event(k, acc[k])];
      todo := todo - {k};
    }
    events := Sorting.Sort(listed, TsOf);
    Sorting.SortSorts(listed, TsOf);
    ListedByTime(events, acc);
  }

  lemma ListedByTime(events: seq<Event>, acc: map<Key, Entry>)
    requires Sorting.SortedBy(events, TsOf) && ListsOnce(events, acc) && |events| == |acc|
    ensures Lists(events, acc)
  {
    forall i | 0 <= i < |events| ensures events[i].key in acc && events[i].entry == acc[events[i].key] {
      assert events[i] in multiset(events);
    }
    forall i, j | 0 <= i < j < |events| ensures events[i].key != events[j].key && events[i].entry.ts <= events[j].entry.ts {
      Sorting.TwicePlaced(events, i, j);
      assert events[j] in multiset(events);
      assert TsOf(events[i]) <= TsOf(events[j]);
    }
  }

  /** The settlement share, worked out from what the first loop gathered. */
  lemma {:induction false} ShareFromTally(l: Links, fills: seq<FillRow>, row: SettlementRow, t: Tally, d: string)
    requires t == AfterFills(l, fills)
    requires var ds := TouchedAt(t, (row.ticker, RouteOr(row.route))); |ds| == 1 && d in ds
    ensures var pos := (row.ticker, RouteOr(row.route));
            && pos in t.sole
            && SettlementShare(l, fills, row)
               == [Share(if t.sole[pos].Some? then OfProposal(t.sole[pos].value) else OfSettlement(pos.0, pos.1),
                         d, pos.1, row.ts, row.realizedCents - row.feeCents, row.feeCents)]
  {
    var pos := (row.ticker, RouteOr(row.route));
    TouchedGathered(l, fills, pos);
    SoleGathered(l, fills, pos);
    assert d in Touched(l, fills, pos);
    Singleton(Touched(l, fills, pos), d);
    if t.sole[pos].Some? {
      assert BuiltBy(l, fills, pos, t.sole[pos].value);
    }
    var s := SettlementShare(l, fills, row)[0];
    assert s.detector in {d};
    if s.key.OfProposal? {
      assert BuiltBy(l, fills, pos, s.key.pid);
    }
  }

  lemma {:induction false} NoShareUnlessSole(l: Links, fills: seq<FillRow>, row: SettlementRow, t: Tally)
    requires t == AfterFills(l, fills) && |TouchedAt(t, (row.ticker, RouteOr(row.route)))| != 1
    ensures SettlementShare(l, fills, row) == []
  {
    TouchedGathered(l, fills, (row.ticker, RouteOr(row.route)));
  }

  /** The first loop: who touched what, who alone built it, and what each proposal's fills came to. */
  method Credit(acc: map<Key, Entry>, key: Key, detector: string, route: string, fill: FillRow) returns (r: map<Key, Entry>)
    ensures r == AddShare(acc, Share(key, detector, route, fill.ts, fill.realizedCents - fill.feeCents, fill.feeCents))
  {
    var entry := if key in acc then acc[key] else Entry(detector, route, fill.ts, 0.0, 0.0, 0);
    entry := entry.(fees := entry.fees + fill.feeCents, pnl := entry.pnl + (fill.realizedCents - fill.feeCents),
                    legs := entry.legs + 1);
    if fill.ts > entry.ts {
      entry := entry.(ts := fill.ts);
    }
    r := acc[key := entry];
  }

  lemma {:induction false} OneFillShare(acc: map<Key, Entry>, before: map<Key, Entry>, l: Links, f: FillRow)
    requires acc == if FillShare(l, f) == [] then before else AddShare(before, FillShare(l, f)[0])
    ensures acc == AddShares(before, FillShare(l, f))
  {
    if FillShare(l, f) != [] {
      assert FillShare(l, f)[..0] == [];
    }
  }

  method GatherFills(l: Links, fills: seq<FillRow>) returns (t: Tally)
    ensures t == AfterFills(l, fills)
  {
    var touched: map<Pos, set<string>> := map[];
    var sole: map<Pos, Option<int>> := map[];
    var acc: map<Key, Entry> := map[];
    for i := 0 to |fills|
      invariant Tally(touched, sole, acc) == AfterFills(l, fills[..i])
    {
      assert fills[..i + 1][..i] == fills[..i];
      var fill := fills[i];
      ghost var before := Tally(touched, sole, acc);
      var route, pid, detector := RouteOf(l, fill), PidOf(l, fill), DetectorOf(l, fill);
      var pos := (fill.ticker, route);
      if Named(detector) {
        touched := touched[pos := (if pos in touched then touched[pos] else {}) + {detector.value}];
      }
      if pos !in sole {
        sole := sole[pos := pid];
      } else if sole[pos] != pid {
        sole := sole[pos := None];
      }
      if detector.Some? {
        acc := Credit(acc, OfProposal(pid.value), detector.value, route, fill);
      }
      OneFillShare(acc, before.acc, l, fill);
      assert Tally(touched, sole, acc) == AfterFill(before, l, fill);
    }
    assert fills[..|fills|] == fills;
    t := Tally(touched, sole, acc);
  }

  /** Count one contested settlement against each of its claimants. */
  method CountContested(m: map<(string, string), nat>, detectors: set<string>, route: string)
    returns (r: map<(string, string), nat>)
    ensures r.Keys == m.Keys + set d | d in detectors :: (d, route)
    ensures forall k :: k in r ==> r[k] == (if k in m then m[k] else 0) + (if k.1 == route && k.0 in detectors then 1 else 0)
  {
    r := m;
    var todo := detectors;
    while todo != {}
      invariant todo <= detectors
      invariant forall k :: k in r <==> k in m || (k.1 == route && k.0 in detectors - todo)
      invariant forall k :: k in r ==>
          r[k] == (if k in m then m[k] else 0) + (if k.1 == route && k.0 in detectors - todo then 1 else 0)
      decreases |todo|
    {
      var d := AnyOf(todo);
      r := r[(d, route) := (if (d, route) in r then r[(d, route)] else 0) + 1];
      todo := todo - {d};
    }
    forall k ensures k in r <==> k in m.Keys + set d | d in detectors :: (d, route) {
      if k.1 == route && k.0 in detectors {
        assert k == (k.0, route);
      }
    }
  }

  /** `after` counts one more settlement against each of its claimants, if it is contested. */
  ghost predicate CountsOne(
      before: map<(string, string), nat>, after: map<(string, string), nat>, l: Links, fills: seq<FillRow>, row: SettlementRow) {
    forall k: (string, string) {:trigger k in after} ::
      && (k in after <==> k in before || Contested(l, fills, row, k.0, k.1))
      && (k in after ==> after[k] == (if k in before then before[k] else 0) + (if Contested(l, fills, row, k.0, k.1) then 1 else 0))
  }

  lemma CountStep(
      m: map<(string, string), nat>, m': map<(string, string), nat>, l: Links, fills: seq<FillRow>, rows: seq<SettlementRow>, row: SettlementRow)
    requires CountsContested(m, l, fills, rows) && CountsOne(m, m', l, fills, row)
    ensures CountsContested(m', l, fills, rows + [row])
  {
    assert (rows + [row])[..|rows|] == rows;
  }

  /** One settlement: to its only claimant, merged into its only proposal, or counted as contested. */
  method SettleOne(l: Links, fills: seq<FillRow>, t: Tally, row: SettlementRow, acc: map<Key, Entry>, contested: map<(string, string), nat>)
    returns (acc': map<Key, Entry>, contested': map<(string, string), nat>)
    requires t == AfterFills(l, fills)
    ensures acc' == AddShares(acc, SettlementShare(l, fills, row))
    ensures CountsOne(contested, contested', l, fills, row)
  {
    acc', contested' := acc, contested;
    var route := RouteOr(row.route);
    var pos := (row.ticker, route);
    var detectors := if pos in t.touched then t.touched[pos] else {};
    TouchedGathered(l, fills, pos);
    if |detectors| > 1 {
      NoShareUnlessSole(l, fills, row, t);
      contested' := CountContested(contested, detectors, route);
    } else if |detectors| == 1 {
      var detector := AnyOf(detectors);
      ShareFromTally(l, fills, row, t, detector);
      var key := if t.sole[pos].Some? then OfProposal(t.sole[pos].value) else OfSettlement(row.ticker, route);
      var share := Share(key, detector, route, row.ts, row.realizedCents - row.feeCents, row.feeCents);
      assert [share][..0] == [];
      acc' := AddShare(acc, share);
    } else {
      NoShareUnlessSole(l, fills, row, t);
    }
  }

  /** The second loop. */
  method GatherSettlements(l: Links, fills: seq<FillRow>, t: Tally, rows: seq<SettlementRow>)
    returns (acc: map<Key, Entry>, contested: map<(string, string), nat>)
    requires t == AfterFills(l, fills)
    ensures acc == AddShares(t.acc, SettlementShares(l, fills, rows))
    ensures CountsContested(contested, l, fills, rows)
  {
    acc, contested := t.acc, map[];
    for i := 0 to |rows|
      invariant acc == AddShares(t.acc, SettlementShares(l, fills, rows[..i]))
      invariant CountsContested(contested, l, fills, rows[..i])
    {
      assert rows[..i + 1] == rows[..i] + [rows[i]] && rows[..i + 1][..i] == rows[..i];
      AddSharesConcat(t.acc, SettlementShares(l, fills, rows[..i]), SettlementShare(l, fills, rows[i]));
      ghost var before := contested;
      acc, contested := SettleOne(l, fills, t, rows[i], acc, contested);
      CountStep(before, contested, l, fills, rows[..i], rows[i]);
    }
    assert rows[..|rows|] == rows;
  }

  method AttributeEvents(orders: seq<OrderRow>, fills: seq<FillRow>, settlements: seq<SettlementRow>, sources: map<int, string>)
    returns (events: seq<Event>, unattributed: map<(string, string), nat>)
    ensures Lists(events, Accounts(LinksOf(orders, sources), fills, settlements))
    ensures CountsContested(unattributed, LinksOf(orders, sources), fills, settlements)
  {
    var l := LinksOf(orders, sources);
    var tally := GatherFills(l, fills);
    var acc;
    acc, unattributed := GatherSettlements(l, fills, tally, settlements);
    AccGathered(l, fills);
    AddSharesConcat(map[], FillShares(l, fills), SettlementShares(l, fills, settlements));
    events := SortEvents(acc);
  }
}
