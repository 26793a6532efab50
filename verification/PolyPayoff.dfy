/** What a position pays in the end: the locked spread, the stuck unhedged leg, and the half-sold pair. */
module PolyPayoff {
  import opened Prelude
  import opened PolyPositions
  import opened Opportunities
  import opened PolyExecutor
  import opened PolyMonitor
  import opened PolyRuns
  import opened PolyOrders
  import opened PolyClosing

  // ----- The locked spread -----

  lemma UniqueFirst(b: Book, i: nat)
    requires UniqueIds(b) && i < |b.records|
    ensures FirstFrom(b.records, b.records[i].id, 0) == i
  {
    var k := FirstFrom(b.records, b.records[i].id, 0);
    assert k <= i;
  }

  lemma SecondLegRecord(cfg: Config, script: Script, b: Book, v: Venue, opp: Opportunity, shares: real,
          yesFill: real, now: int)
    requires SecondLeg(cfg, script, b, v, opp, shares, yesFill, now).1.Executed?
    ensures var u := SecondLeg(cfg, script, b, v, opp, shares, yesFill, now).0;
      && |u.book.records| == |b.records| + 1
      && var r := u.book.records[|b.records|];
      && r.legs == YesAndNo && r.status == Open && r.contracts == shares
      && r.sizeUsdc == LegUsdc(shares, opp.entryYes) + LegUsdc(shares, opp.entryNo)
  {
    hide PlaceOrder;
  }

  lemma PairLegs(cfg: Config, script: Script, w: World, opp: Opportunity, requested: real, env: Surroundings)
    requires TwoLegs(cfg, script, w, opp, requested, env).1.Executed?
    ensures var u := TwoLegs(cfg, script, w, opp, requested, env).0;
      && |u.book.records| == |w.book.records| + 1
      && var r := u.book.records[|w.book.records|];
      && r.yesToken == opp.yesToken && r.noToken == opp.noToken
      && u.venue.accepted == w.venue.accepted + [YesLeg(opp, r.contracts), NoLeg(opp, r.contracts)]
  {
    var n, first, yesPaid, noPaid, r := PairOrders(cfg, script, w, opp, requested, env);
    hide TwoLegs, AcceptedAt, SetsFor, YesLeg, NoLeg;
    assert (w.book.records + [r])[|w.book.records|] == r;
  }

  // A pair bought on both legs costs exactly the clamped trade size and holds one share of each
  // outcome per unit of the combined ask.
  lemma PairRecord(cfg: Config, script: Script, w: World, opp: Opportunity, requested: real, env: Surroundings)
    requires opp.PricesQuoted() && TwoLegs(cfg, script, w, opp, requested, env).1.Executed?
    ensures var u := TwoLegs(cfg, script, w, opp, requested, env).0; var cost := opp.entryYes + opp.entryNo;
      && cost > 0.0 && Clamp(cfg, requested, env.freeCollateral) > 0.0
      && |u.book.records| == |w.book.records| + 1
      && var r := u.book.records[|w.book.records|];
      && r.legs == YesAndNo && r.status == Open
      && r.sizeUsdc == Clamp(cfg, requested, env.freeCollateral)
      && r.contracts == SharesFor(r.sizeUsdc, cost)
      && r.yesToken == opp.yesToken && r.noToken == opp.noToken
      && u.venue.accepted == w.venue.accepted + [YesLeg(opp, r.contracts), NoLeg(opp, r.contracts)]
  {
    PairLegs(cfg, script, w, opp, requested, env);
    hide PlaceOrder, SharesFor, LegUsdc, SecondLeg, YesLeg, NoLeg;
    var cost, size := opp.entryYes + opp.entryNo, Clamp(cfg, requested, env.freeCollateral);
    SharesSplitSize(size, cost, opp.entryYes, opp.entryNo);
    var n := SharesFor(size, cost);
    var (yes, v) := PlaceOrder(cfg, script, w.venue, Leg(Buy, opp.yesToken, LegUsdc(n, opp.entryYes), opp.entryYes));
    SecondLegRecord(cfg, script, w.book, v, opp, n, FillPrice(yes.value, opp.entryYes), env.now);
  }

  function PairCost(ob: Orderbook): real {
    ob.yes.bestAsk + ob.no.bestAsk
  }

  // n pairs bought at this cost each pay one dollar whatever happens.
  function PairProfit(n: real, cost: real): real {
    n * (1.0 - cost)
  }

  // n of each token of a book, at its asks.
  function BookLegs(ob: Orderbook, n: real): seq<Leg> {
    [Leg(Buy, ob.yesToken, n * ob.yes.bestAsk, ob.yes.bestAsk), Leg(Buy, ob.noToken, n * ob.no.bestAsk, ob.no.bestAsk)]
  }

  lemma FlaggedPairRecord(cfg: Config, script: Script, w: World, ob: Orderbook, feePct: real, requested: real,
          env: Surroundings)
    requires ob.yes.bestAsk >= 0.0 && ob.no.bestAsk >= 0.0
    requires TwoLegs(cfg, script, w, SpreadOpportunity(ob, feePct), requested, env).1.Executed?
    ensures var u := TwoLegs(cfg, script, w, SpreadOpportunity(ob, feePct), requested, env).0;
      && PairCost(ob) > 0.0
      && |u.book.records| == |w.book.records| + 1
      && var r := u.book.records[|w.book.records|];
      && r.legs == YesAndNo && r.status == Open
      && r.sizeUsdc == Clamp(cfg, requested, env.freeCollateral) > 0.0
      && r.contracts == SharesFor(r.sizeUsdc, PairCost(ob))
      && r.yesToken == ob.yesToken && r.noToken == ob.noToken
      && u.venue.accepted == w.venue.accepted + BookLegs(ob, r.contracts)
  {
    hide SharesFor, TwoLegs;
    var opp := SpreadOpportunity(ob, feePct);
    PairRecord(cfg, script, w, opp, requested, env);
    var n := TwoLegs(cfg, script, w, opp, requested, env).0.book.records[|w.book.records|].contracts;
    LegsOfBook(ob, feePct, n);
    hide YesLeg, NoLeg, BookLegs, PairCost;
  }

  lemma LegsOfBook(ob: Orderbook, feePct: real, n: real)
    ensures var opp := SpreadOpportunity(ob, feePct); [YesLeg(opp, n), NoLeg(opp, n)] == BookLegs(ob, n)
  {
    var opp := SpreadOpportunity(ob, feePct);
    assert opp.entryYes == ob.yes.bestAsk && opp.entryNo == ob.no.bestAsk;
    assert YesLeg(opp, n) == BookLegs(ob, n)[0];
    assert NoLeg(opp, n) == BookLegs(ob, n)[1];
  }

  lemma PairArithmetic(ob: Orderbook, size: real, feePct: real, minEdgePct: real)
    requires PairCost(ob) > 0.0 && size > 0.0 && SpreadEdge(ob, feePct) >= minEdgePct
    ensures var n := SharesFor(size, PairCost(ob));
      && n > 0.0 && LegUsdc(n, PairCost(ob)) == size
      && n - size == PairProfit(n, PairCost(ob))
      && PairProfit(n, PairCost(ob)) >= n * (feePct + minEdgePct / 100.0)
  {
    var n, cost := SharesFor(size, PairCost(ob)), PairCost(ob);
    DivMul(size, cost);
    if n <= 0.0 {
      MulNonNeg(-n, cost);
    }
    MulMono(feePct + minEdgePct / 100.0, 1.0 - cost, n);
  }

  lemma Resolves(c: Book, i: nat, p: PositionRecord, detail: MarketDetail, now: int)
    requires UniqueIds(c) && i < |c.records| && c.records[i].id == p.id && c.records[i].status == Open
        && detail.resolved
    ensures var (after, done) := CheckResolution(c, p, detail, now);
      && done && i < |after.records| && after.records[i].status == Resolved
      && after.records[i].pnl == Some(Round4(ResolutionPnl(p, detail.winner)))
      && after.records[i].exitPrice == Some(if detail.winner in {YesWon, NoWon} then 1.0 else 0.0)
      && after.records[i].closedAt == Some(now)
  {
    hide ResolutionPnl, Round4;
    UniqueFirst(c, i);
  }

  // One monitor step on the open record of a resolved market.
  lemma MonitorResolves(cfg: Config, script: Script, w: World, i: nat, t: Tick)
    requires UniqueIds(w.book) && i < |w.book.records| && w.book.records[i].status == Open
    requires t.detail.Some? && t.detail.value.resolved
    ensures var p := w.book.records[i]; var u := MonitorOne(cfg, script, w, p, t);
      && i < |u.book.records| && u.book.records[i].status == Resolved
      && u.book.records[i].pnl == Some(Round4(ResolutionPnl(p, t.detail.value.winner)))
      && u.book.records[i].exitPrice == Some(if t.detail.value.winner in {YesWon, NoWon} then 1.0 else 0.0)
      && u.book.records[i].closedAt == Some(t.now)
  {
    hide ResolutionPnl, Round4, CheckResolution, ComputeUnrealized, ReasonToClose, ClosePosition;
    var p := w.book.records[i];
    var (pnl, pct) := ComputeUnrealized(p, t.yesBid.GetOr(0.0), t.noBid.GetOr(0.0));
    UniqueFirst(w.book, i);
    UnrealizedProgresses(w.book, p.id, Round4(pnl), Round4(pct));
    Resolves(RecordUnrealized(w.book, p.id, Round4(pnl), Round4(pct)), i, p, t.detail.value, t.now);
  }

  // What a record that was opened as a pair pays, whichever outcome wins.
  lemma PairPays(r: PositionRecord, ob: Orderbook, feePct: real, minEdgePct: real, winner: Outcome)
    requires r.legs == YesAndNo && r.sizeUsdc > 0.0 && PairCost(ob) > 0.0
        && r.contracts == SharesFor(r.sizeUsdc, PairCost(ob))
    requires SpreadEdge(ob, feePct) >= minEdgePct
    ensures var n, pnl := r.contracts, Round4(ResolutionPnl(r, winner));
      && n > 0.0 && r.sizeUsdc == LegUsdc(n, PairCost(ob))
      && -0.00005 <= pnl - PairProfit(n, PairCost(ob)) <= 0.00005
      && PairProfit(n, PairCost(ob)) >= n * (feePct + minEdgePct / 100.0)
  {
    hide Round4, SharesFor, PairProfit, PairCost, LegUsdc, SpreadEdge;
    PairArithmetic(ob, r.sizeUsdc, feePct, minEdgePct);
    Round4Close(r.contracts - r.sizeUsdc);
  }

  // From detection to resolution, in any run. A book flagged with at least the minimum edge is
  // bought on both legs by action k and is still open when the monitor finds its market resolved at
  // action n. The venue accepted an order for as many of each token as the record holds. The record
  // cost exactly the clamped trade size and realises n * (1 - cost) for its n pairs, to within half of
  // the fourth decimal, whichever outcome wins: at least n times the fee plus the minimum edge.
  lemma LockedPayoff(d: Desk, k: nat, n: nat, ob: Orderbook, feePct: real, minEdgePct: real)
    requires d.Valid() && k < n < |d.actions|
    requires SpreadEdge(ob, feePct) >= minEdgePct
    requires d.actions[k].Call? && d.actions[k].opp == SpreadOpportunity(ob, feePct) && d.EndingOf(k).Some?
        && d.EndingOf(k).value.Executed?
    requires var i := |d.At(k).book.records|;
      && i < |d.At(n).book.records| && d.At(n).book.records[i].status == Open
      && d.actions[n].Observe? && d.actions[n].snapshot == d.At(n).book.records[i]
      && d.actions[n].tick.detail.Some? && d.actions[n].tick.detail.value.resolved
    ensures var i := |d.At(k).book.records|;
      && i < |d.At(n + 1).book.records|
      && var r := d.At(n + 1).book.records[i];
      && r.status == Resolved && r.pnl.Some? && r.contracts > 0.0
      && r.yesToken == ob.yesToken && r.noToken == ob.noToken
      && d.At(k + 1).venue.accepted == d.At(k).venue.accepted + BookLegs(ob, r.contracts)
      && r.sizeUsdc == Clamp(d.cfg, d.cfg.maxTradeUsdc, d.actions[k].env.freeCollateral) 
                      == LegUsdc(r.contracts, PairCost(ob))
      && -0.00005 <= r.pnl.value - PairProfit(r.contracts, PairCost(ob)) <= 0.00005
      && PairProfit(r.contracts, PairCost(ob)) >= r.contracts * (feePct + minEdgePct / 100.0)
  {
    hide Round4, SharesFor, TwoLegs, PairProfit, PairCost, LegUsdc, SpreadEdge, MonitorOne, ResolutionPnl,
        RiskProblem, BookOk, Clamp, BookLegs;
    var i, w, a := |d.At(k).book.records|, d.At(k), d.actions[k];
    FlaggedPairRecord(d.cfg, d.script, w, ob, feePct, d.cfg.maxTradeUsdc, a.env);
    TerminalIsForever(d, k + 1, n);
    AlwaysOk(d, n);
    OkIsUnique(d.At(n).book);
    assert RecordProgressed(d.At(k + 1).book.records[i], d.At(n).book.records[i]);
    PairPays(d.At(n).book.records[i], ob, feePct, minEdgePct, d.actions[n].tick.detail.value.winner);
    MonitorResolves(d.cfg, d.script, d.At(n), i, d.actions[n].tick);
    TerminalIsForever(d, n, n + 1);
    assert RecordProgressed(d.At(n).book.records[i], d.At(n + 1).book.records[i]);
  }

  lemma OkIsUnique(b: Book)
    requires BookOk(b)
    ensures UniqueIds(b)
  {
  }

  // ----- One monitor step touches one record -----

  // Records with another id are exactly as they were.
  ghost predicate OthersUntouched(b: Book, c: Book, id: nat) {
    && |b.records| == |c.records|
    && forall i :: 0 <= i < |b.records| && b.records[i].id != id ==> c.records[i] == b.records[i]
  }

  ghost predicate SameIds(b: Book, c: Book) {
    |b.records| == |c.records| && forall i :: 0 <= i < |b.records| ==> c.records[i].id == b.records[i].id
  }

  lemma TransitionTouchesOne(b: Book, id: nat, status: Status, patch: Patch)
    ensures OthersUntouched(b, Transition(b, id, status, patch).0, id) && SameIds(b, Transition(b, id, status, patch).0)
  {
  }

  lemma TouchesOneTransitive(b: Book, c: Book, d: Book, id: nat)
    requires OthersUntouched(b, c, id) && SameIds(b, c) && OthersUntouched(c, d, id) && SameIds(c, d)
    ensures OthersUntouched(b, d, id) && SameIds(b, d)
  {
  }

  lemma CloseTouchesOne(cfg: Config, script: Script, w: World, p: PositionRecord, bids: Option<(real, real)>, now: int)
    ensures var u := ClosePosition(cfg, script, w, p, bids, now).0;
      OthersUntouched(w.book, u.book, p.id) && SameIds(w.book, u.book)
  {
    hide Transition, SellTo, TokensToSell, ContractsPerLeg, HeldContracts, Round4, Round6;
    TransitionTouchesOne(w.book, p.id, Closing, NoPatch);
    var marked := if p.status != Closing then World(Transition(w.book, p.id, Closing, NoPatch).0, w.venue) else w;
    if !cfg.dryRun && bids.Some? {
      var tokens := TokensToSell(p, bids.value);
      var (v, proceeds, all) := SellTo(cfg, script, marked.venue, tokens, ContractsPerLeg(p, |tokens|), |tokens|);
      var exit := proceeds / Max(HeldContracts(p, 1.0), 0.000000001);
      var patch := Settlement(Round4(proceeds - p.sizeUsdc), Round6(exit), now);
      TransitionTouchesOne(marked.book, p.id, Closed, patch);
      TouchesOneTransitive(w.book, marked.book, Transition(marked.book, p.id, Closed, patch).0, p.id);
    }
  }

  lemma ResolutionTouchesOne(b: Book, p: PositionRecord, detail: MarketDetail, now: int)
    ensures var c := CheckResolution(b, p, detail, now).0; OthersUntouched(b, c, p.id) && SameIds(b, c)
  {
    hide ResolutionPnl, Round4;
  }

  lemma UnrealizedTouchesOne(b: Book, id: nat, pnl: real, pct: real)
    ensures var c := RecordUnrealized(b, id, pnl, pct); OthersUntouched(b, c, id) && SameIds(b, c)
  {
  }

  // A monitor step leaves every record but its own alone.
  lemma MonitorTouchesOne(cfg: Config, script: Script, w: World, p: PositionRecord, t: Tick)
    ensures var u := MonitorOne(cfg, script, w, p, t); OthersUntouched(w.book, u.book, p.id) && SameIds(w.book, u.book)
  {
    hide ClosePosition, CheckResolution, ComputeUnrealized, ReasonToClose, RecordUnrealized, Round4;
    CloseTouchesOne(cfg, script, w, p, t.closeBids, t.now);
    if p.status != Closing {
      var (pnl, pct) := ComputeUnrealized(p, t.yesBid.GetOr(0.0), t.noBid.GetOr(0.0));
      var updated := World(RecordUnrealized(w.book, p.id, Round4(pnl), Round4(pct)), w.venue);
      UnrealizedTouchesOne(w.book, p.id, Round4(pnl), Round4(pct));
      var checked := updated;
      if t.detail.Some? {
        ResolutionTouchesOne(updated.book, p, t.detail.value, t.now);
        checked := World(CheckResolution(updated.book, p, t.detail.value, t.now).0, updated.venue);
        TouchesOneTransitive(w.book, updated.book, checked.book, p.id);
      }
      CloseTouchesOne(cfg, script, checked, p, t.closeBids, t.now);
      TouchesOneTransitive(w.book, checked.book, ClosePosition(cfg, script, checked, p, t.closeBids, t.now).0.book,
          p.id);
    }
  }

  // ----- The stuck unhedged leg -----

  // The monitor sees record `id` as unhedged in a resolved market, or looks at other records.
  ghost predicate SeesResolvedMarket(a: Action, id: nat) {
    a.Observe? ==>
      a.snapshot.id != id
      || (a.snapshot.status == Unhedged && a.tick.detail.Some? && a.tick.detail.value.resolved)
  }

  lemma ResolvedMarketBlocks(cfg: Config, script: Script, w: World, i: nat, p: PositionRecord, t: Tick)
    requires UniqueIds(w.book) && i < |w.book.records| && w.book.records[i].status == Unhedged
    requires p.id == w.book.records[i].id && p.status == Unhedged && t.detail.Some? && t.detail.value.resolved
    ensures var u := MonitorOne(cfg, script, w, p, t);
      && u.venue == w.venue && i < |u.book.records|
      && var r := u.book.records[i];
      && r == w.book.records[i].(unrealizedPnl := r.unrealizedPnl, unrealizedPct := r.unrealizedPct)
  {
    hide ComputeUnrealized, ReasonToClose, Round4, ResolutionPnl, ClosePosition;
    UniqueFirst(w.book, i);
    var (pnl, pct) := ComputeUnrealized(p, t.yesBid.GetOr(0.0), t.noBid.GetOr(0.0));
    var updated := RecordUnrealized(w.book, p.id, Round4(pnl), Round4(pct));
    UnrealizedProgresses(w.book, p.id, Round4(pnl), Round4(pct));
    UniqueFirst(updated, i);
  }

  // The same records are resolved before and after.
  ghost predicate ResolvesNone(b: Book, c: Book) {
    |c.records| == |b.records|
    && forall i :: 0 <= i < |b.records| ==> (c.records[i].status == Resolved <==> b.records[i].status == Resolved)
  }

  lemma TransitionResolvesNone(b: Book, id: nat, status: Status, patch: Patch)
    requires status != Resolved
    ensures ResolvesNone(b, Transition(b, id, status, patch).0)
  {
  }

  lemma CloseResolvesNone(cfg: Config, script: Script, w: World, p: PositionRecord, bids: Option<(real, real)>,
          now: int)
    ensures ResolvesNone(w.book, ClosePosition(cfg, script, w, p, bids, now).0.book)
  {
    hide Transition, SellTo, TokensToSell, ContractsPerLeg, HeldContracts, Round4, Round6;
    TransitionResolvesNone(w.book, p.id, Closing, NoPatch);
    var marked := if p.status != Closing then World(Transition(w.book, p.id, Closing, NoPatch).0, w.venue) else w;
    if !cfg.dryRun && bids.Some? {
      var tokens := TokensToSell(p, bids.value);
      var (v, proceeds, all) := SellTo(cfg, script, marked.venue, tokens, ContractsPerLeg(p, |tokens|), |tokens|);
      var exit := proceeds / Max(HeldContracts(p, 1.0), 0.000000001);
      TransitionResolvesNone(marked.book, p.id, Closed, Settlement(Round4(proceeds - p.sizeUsdc), Round6(exit), now));
    }
  }

  lemma UnresolvedMarketResolvesNone(cfg: Config, script: Script, w: World, p: PositionRecord, t: Tick)
    requires t.detail.Some? ==> !t.detail.value.resolved
    ensures ResolvesNone(w.book, MonitorOne(cfg, script, w, p, t).book)
  {
    hide ClosePosition, ComputeUnrealized, ReasonToClose, Round4, Transition;
    CloseResolvesNone(cfg, script, w, p, t.closeBids, t.now);
    if p.status != Closing {
      var (pnl, pct) := ComputeUnrealized(p, t.yesBid.GetOr(0.0), t.noBid.GetOr(0.0));
      var updated := World(RecordUnrealized(w.book, p.id, Round4(pnl), Round4(pct)), w.venue);
      UnrealizedProgresses(w.book, p.id, Round4(pnl), Round4(pct));
      var checked := updated;
      if t.detail.Some? {
        checked := World(CheckResolution(updated.book, p, t.detail.value, t.now).0, updated.venue);
        if EndTime(p, t.detail.value).Some? {
          var end := EndTime(p, t.detail.value).value;
          TransitionResolvesNone(updated.book, p.id, Stale, EndDate(end));
        }
      }
      CloseResolvesNone(cfg, script, checked, p, t.closeBids, t.now);
    }
  }

  // The monitor settles an active record by its market's resolution exactly when the record is open
  // and the market is found resolved: an unhedged or closing record is passed over.
  lemma ResolvedIff(cfg: Config, script: Script, w: World, i: nat, t: Tick)
    requires UniqueIds(w.book) && i < |w.book.records| && Active(w.book.records[i].status)
    ensures var p := w.book.records[i]; var u := MonitorOne(cfg, script, w, p, t);
      && i < |u.book.records|
      && (u.book.records[i].status == Resolved <==> p.status == Open && t.detail.Some? && t.detail.value.resolved)
  {
    hide MonitorOne;
    var p := w.book.records[i];
    if t.detail.Some? && t.detail.value.resolved {
      if p.status == Open {
        MonitorResolves(cfg, script, w, i, t);
      } else if p.status == Unhedged {
        ResolvedMarketBlocks(cfg, script, w, i, p, t);
      } else {
        ClosingOnlyCloses(cfg, script, w, p, t);
      }
    } else {
      UnresolvedMarketResolvesNone(cfg, script, w, p, t);
    }
  }

  lemma ClosingOnlyCloses(cfg: Config, script: Script, w: World, p: PositionRecord, t: Tick)
    requires p.status == Closing
    ensures ResolvesNone(w.book, MonitorOne(cfg, script, w, p, t).book)
  {
    hide ClosePosition;
    CloseResolvesNone(cfg, script, w, p, t.closeBids, t.now);
  }

  // An unhedged leg whose market has resolved is never resolved, closed or finalised: for as long as
  // the monitor finds the market resolved, the record stays unhedged, without a P&L, and keeps its slot.
  lemma {:induction false} UnhedgedStaysStuck(d: Desk, m: nat, n: nat, i: nat)
    requires d.Valid() && m <= n <= |d.actions| && i < |d.At(m).book.records|
        && d.At(m).book.records[i].status == Unhedged
    requires forall k :: m <= k < n ==> SeesResolvedMarket(d.actions[k], d.At(m).book.records[i].id)
    ensures i < |d.At(n).book.records|
    ensures var r := d.At(n).book.records[i];
      r.id == d.At(m).book.records[i].id && r.status == Unhedged && r.pnl == None
  {
    hide Next;
    if m == n {
      AlwaysOk(d, m);
      assert RecordOk(d.At(m).book, d.At(m).book.records[i]);
    } else {
      UnhedgedStaysStuck(d, m, n - 1, i);
      StuckStep(d, n - 1, i);
    }
  }

  lemma StuckStep(d: Desk, k: nat, i: nat)
    requires d.Valid() && k < |d.actions| && i < |d.At(k).book.records| && d.At(k).book.records[i].status == Unhedged
    requires SeesResolvedMarket(d.actions[k], d.At(k).book.records[i].id)
    ensures i < |d.At(k + 1).book.records|
    ensures var r, s := d.At(k).book.records[i], d.At(k + 1).book.records[i];
      s.id == r.id && s.status == r.status && s.pnl == r.pnl
  {
    hide Execute, MonitorOne, BookOk, ActiveCount;
    AlwaysOk(d, k);
    var w, a := d.At(k), d.actions[k];
    if a.Call? {
      ExecuteOutcome(d.cfg, d.script, a.paused, w, a.opp, a.env);
    } else if a.snapshot.id == w.book.records[i].id {
      OkIsUnique(w.book);
      ResolvedMarketBlocks(d.cfg, d.script, w, i, a.snapshot, a.tick);
    } else {
      MonitorTouchesOne(d.cfg, d.script, w, a.snapshot, a.tick);
    }
  }

  // ----- The half-sold pair -----

  lemma ShareOfWhole(x: real, n: real)
    requires n != 0.0
    ensures x / n == x <==> x == 0.0 || n == 1.0
    ensures 2.0 * x / n == x <==> x == 0.0 || n == 2.0
  {
    DivMul(x, n);
    DivMul(2.0 * x, n);
    if x / n == x && x != 0.0 {
      CancelMul(n, 1.0, x);
    }
    if 2.0 * x / n == x && x != 0.0 {
      CancelMul(n, 2.0, x);
    }
  }

  // Closing sells a record's whole holding of each token exactly when there is a single token to
  // sell, except that the estimate of a pair counts its cost twice, so there it takes two tokens.
  lemma WholeHoldingSoldIff(p: PositionRecord, bids: (real, real))
    requires TokensToSell(p, bids) != []
    ensures ContractsPerLeg(p, |TokensToSell(p, bids)|) == HoldingPerOutcome(p)
            <==> HoldingPerOutcome(p) == 0.0
                 || |TokensToSell(p, bids)| == if Estimated(p) && p.legs == YesAndNo then 2 else 1
  {
    hide HoldingPerOutcome, HeldContracts;
    EstimatedHolding(p);
    ShareOfWhole(HoldingPerOutcome(p), |TokensToSell(p, bids)| as real);
  }

  // A pair holds `contracts` of each outcome, but closing it sells only half of each, books the
  // proceeds of that half against the whole cost, and marks the record closed.
  lemma PairCloseSellsHalf(cfg: Config, script: Script, w: World, i: nat, p: PositionRecord, bids: (real, real),
          now: int)
    requires p.legs == YesAndNo && p.yesToken != "" && p.noToken != "" && p.contracts > 0.0
    requires UniqueIds(w.book) && i < |w.book.records| && w.book.records[i].id == p.id
        && w.book.records[i].status == Closing
    requires CloseWith(cfg, script, w, p, TokensToSell(p, bids), now).1
    ensures var u := CloseWith(cfg, script, w, p, TokensToSell(p, bids), now).0;
      var half := p.contracts / 2.0;
      var yes, no := SellLeg(p.yesToken, half, bids.0), SellLeg(p.noToken, half, bids.1);
      var (yesReply, v) := PlaceOrder(cfg, script, w.venue, yes);
      var (noReply, _) := PlaceOrder(cfg, script, v, no);
      && u.venue.accepted == w.venue.accepted + [yes, no]
      && yesReply.Some? && noReply.Some?
      && i < |u.book.records| && u.book.records[i].status == Closed
      && u.book.records[i].pnl
         == Some(Round4(LegUsdc(half, FillPrice(yesReply.value, yes.price))
                        + LegUsdc(half, FillPrice(noReply.value, no.price)) - p.sizeUsdc))
  {
    hide PlaceOrder, SellLeg, LegUsdc, Round4, Round6, SellTo, FillPrice;
    var tokens := TokensToSell(p, bids);
    assert tokens == [(p.yesToken, bids.0), (p.noToken, bids.1)];
    assert ContractsPerLeg(p, |tokens|) == p.contracts / 2.0;
    UniqueFirst(w.book, i);
    SellingTwo(cfg, script, w.venue, tokens, p.contracts / 2.0);
  }

  // The n-th leg of a sale that filled on every leg.
  lemma SellingOne(cfg: Config, script: Script, v: Venue, tokens: seq<(string, real)>, contracts: real, n: nat)
    requires 0 < n <= |tokens| && SellTo(cfg, script, v, tokens, contracts, n).2
    ensures var (before, proceeds, all) := SellTo(cfg, script, v, tokens, contracts, n - 1);
      var leg := SellLeg(tokens[n - 1].0, contracts, tokens[n - 1].1);
      var (reply, after) := PlaceOrder(cfg, script, before, leg);
      && all && reply.Some?
      && after.accepted == before.accepted + [leg]
      && SellTo(cfg, script, v, tokens, contracts, n)
         == (after, proceeds + LegUsdc(contracts, FillPrice(reply.value, leg.price)), true)
  {
    hide PlaceOrder, SellLeg, LegUsdc, FillPrice;
    var (before, proceeds, all) := SellTo(cfg, script, v, tokens, contracts, n - 1);
    var leg := SellLeg(tokens[n - 1].0, contracts, tokens[n - 1].1);
    PlaceAccepts(cfg, script, before, leg);
    var (reply, after) := PlaceOrder(cfg, script, before, leg);
    assert SellTo(cfg, script, v, tokens, contracts, n).0 == after;
  }

  lemma SellingTwo(cfg: Config, script: Script, v: Venue, tokens: seq<(string, real)>, contracts: real)
    requires |tokens| == 2 && SellTo(cfg, script, v, tokens, contracts, 2).2
    ensures var first, second := SellLeg(tokens[0].0, contracts, tokens[0].1),
        SellLeg(tokens[1].0, contracts, tokens[1].1);
      var (one, between) := PlaceOrder(cfg, script, v, first);
      var (two, after) := PlaceOrder(cfg, script, between, second);
      && one.Some? && two.Some?
      && SellTo(cfg, script, v, tokens, contracts, 2).0 == after && after.accepted == v.accepted + [first, second]
      && SellTo(cfg, script, v, tokens, contracts, 2).1
         == LegUsdc(contracts, FillPrice(one.value, first.price))
            + LegUsdc(contracts, FillPrice(two.value, second.price))
  {
    hide PlaceOrder, SellLeg, LegUsdc, FillPrice;
    SellingOne(cfg, script, v, tokens, contracts, 2);
    SellingOne(cfg, script, v, tokens, contracts, 1);
    assert SellTo(cfg, script, v, tokens, contracts, 0) == (v, 0.0, true);
  }

  // ----- Marks against settlement -----

  // What the two tokens are bid once the outcome is certain; a market that names neither pays neither.
  function SettledBids(winner: Outcome): (real, real) {
    (if winner == YesWon then 1.0 else 0.0, if winner == NoWon then 1.0 else 0.0)
  }

  // Marks and settlement value a record the same way: single tokens always; a pair when an outcome
  // wins and its contracts are on record, and when neither wins only if it holds nothing; a BUY_LOW
  // token never. A record without cost is marked at zero, so there the payout must be its cost.
  predicate ValuedAlike(p: PositionRecord, winner: Outcome) {
    if p.sizeUsdc <= 0.0 then Payout(p.legs, winner, HeldContracts(p, 1.0)) == p.sizeUsdc
    else
      match p.legs
      case Yes => true
      case No => true
      case YesAndNo => if winner == OtherOutcome then p.contracts == 0.0 && p.entryPrice <= 0.0 else !Estimated(p)
      case BuyLow => false
  }

  lemma EstimateOfCost(p: PositionRecord)
    requires p.sizeUsdc > 0.0 && Estimated(p)
    ensures HeldContracts(p, 1.0) != 0.0 && HeldContracts(p, 2.0) == HeldContracts(p, 1.0) / 2.0
  {
    DivMul(p.sizeUsdc, p.entryPrice);
  }

  // The unrealised P&L at settled bids is the P&L that resolution records exactly when the two value
  // the record alike.
  lemma MarkAgreesWithSettlementIff(p: PositionRecord, winner: Outcome)
    ensures ComputeUnrealized(p, SettledBids(winner).0, SettledBids(winner).1).0 == ResolutionPnl(p, winner)
            <==> ValuedAlike(p, winner)
  {
    if p.sizeUsdc > 0.0 && Estimated(p) {
      EstimateOfCost(p);
      hide HeldContracts;
    }
  }

  // ----- Settlement against what the tokens pay -----

  // What a record's tokens pay: one dollar each when their outcome wins, a pair one dollar whoever
  // wins. The token of a BUY_LOW record is the YES token of its market.
  function TokensPay(p: PositionRecord, winner: Outcome): real {
    var pays := match p.legs
      case Yes => winner == YesWon
      case No => winner == NoWon
      case YesAndNo => true
      case BuyLow => winner == YesWon;
    if pays then HoldingPerOutcome(p) else 0.0
  }

  // Resolution records what the held tokens pay minus their cost exactly when nothing is held, a
  // BUY_LOW record's outcome does not win, or any other record is not a pair with estimated contracts.
  lemma SettlementPaysTokensIff(p: PositionRecord, winner: Outcome)
    ensures ResolutionPnl(p, winner) == TokensPay(p, winner) - p.sizeUsdc
            <==> HoldingPerOutcome(p) == 0.0
                 || if p.legs == BuyLow then winner != YesWon else !(p.legs == YesAndNo && Estimated(p))
  {
    hide HoldingPerOutcome, HeldContracts;
    EstimatedHolding(p);
  }

  // ----- Whole monitor passes -----

  // monitor_positions is a sequence of monitor steps, so it keeps what they keep.
  lemma {:induction false} MonitorPassKeeps(cfg: Config, script: Script, w: World, snapshot: seq<PositionRecord>,
          ticks: seq<Tick>, n: nat)
    requires n <= |snapshot| == |ticks| && BookOk(w.book)
    ensures Monitored(w, MonitorTo(cfg, script, w, snapshot, ticks, n))
  {
    hide MonitorOne, BookOk;
    if n == 0 {
      MonitoredNothing(w);
    } else {
      MonitorPassKeeps(cfg, script, w, snapshot, ticks, n - 1);
      var before := MonitorTo(cfg, script, w, snapshot, ticks, n - 1);
      if Active(snapshot[n - 1].status) {
        MonitorOneMonitors(cfg, script, before, snapshot[n - 1], ticks[n - 1]);
        MonitoredTransitive(w, before, MonitorOne(cfg, script, before, snapshot[n - 1], ticks[n - 1]));
      }
    }
  }
}
