/** Every interleaving of order execution and position monitoring: caps, conservation, and life cycles. */
module PolyRuns {
  import opened Prelude
  import opened PolyPositions
  import opened Opportunities
  import opened PolyExecutor
  import opened PolyMonitor

  // ----- Totals -----

  function Bought(legs: seq<Leg>): real {
    if legs == [] then 0.0
    else Bought(legs[..|legs| - 1]) + if legs[|legs| - 1].side == Buy then legs[|legs| - 1].usdc else 0.0
  }

  function TotalUsdc(records: seq<PositionRecord>): real {
    if records == [] then 0.0 else TotalUsdc(records[..|records| - 1]) + records[|records| - 1].sizeUsdc
  }

  function ActiveUsdc(records: seq<PositionRecord>): real {
    if records == [] then 0.0
    else
      var last := records[|records| - 1];
      ActiveUsdc(records[..|records| - 1]) + if Active(last.status) then last.sizeUsdc else 0.0
  }

  lemma BoughtAppend(legs: seq<Leg>, leg: Leg)
    ensures Bought(legs + [leg]) == Bought(legs) + if leg.side == Buy then leg.usdc else 0.0
  {
    assert (legs + [leg])[..|legs|] == legs;
  }

  lemma RecordAppend(records: seq<PositionRecord>, r: PositionRecord)
    ensures TotalUsdc(records + [r]) == TotalUsdc(records) + r.sizeUsdc
    ensures ActiveCount(records + [r]) == ActiveCount(records) + if Active(r.status) then 1 else 0
  {
    assert (records + [r])[..|records|] == records;
  }

  lemma {:induction false} TotalUnchanged(a: seq<PositionRecord>, b: seq<PositionRecord>)
    requires |a| == |b| && forall i :: 0 <= i < |a| ==> b[i].sizeUsdc == a[i].sizeUsdc
    ensures TotalUsdc(b) == TotalUsdc(a)
  {
    if a != [] {
      TotalUnchanged(a[..|a| - 1], b[..|b| - 1]);
    }
  }

  // ----- The status history of a record -----

  function History(log: seq<LogLine>, id: nat): seq<Status> {
    if log == [] then []
    else History(log[..|log| - 1], id) + if log[|log| - 1].id == id then [log[|log| - 1].status] else []
  }

  lemma HistoryAppend(log: seq<LogLine>, line: LogLine, id: nat)
    ensures History(log + [line], id) == History(log, id) + if line.id == id then [line.status] else []
  {
    assert (log + [line])[..|log|] == log;
  }

  // A record's history follows the transition table up to its present status, and it carries a
  // realised P&L exactly when that status is final.
  ghost predicate RecordOk(b: Book, r: PositionRecord) {
    var h := History(b.log, r.id);
    FollowsTable(h) && h[|h| - 1] == r.status && (r.pnl.Some? <==> Final(r.status))
  }

  ghost predicate BookOk(b: Book) {
    && UniqueIds(b)
    && (forall i :: 0 <= i < |b.records| ==> RecordOk(b, b.records[i]))
    && forall id :: id >= b.nextId ==> History(b.log, id) == []
  }

  lemma AddKeepsBook(b: Book, r: PositionRecord)
    requires BookOk(b) && r.id == b.nextId && r.status in {Open, Unhedged} && r.pnl == None
    ensures BookOk(Add(b, r)) && Progressed(b, Add(b, r))
  {
    var c := Add(b, r);
    forall i | 0 <= i < |c.records| ensures RecordOk(c, c.records[i]) {
      HistoryAppend(b.log, LogLine(r.id, r.status), c.records[i].id);
      if i < |b.records| {
        assert RecordOk(b, b.records[i]);
      }
    }
    forall id | id >= c.nextId ensures History(c.log, id) == [] {
      HistoryAppend(b.log, LogLine(r.id, r.status), id);
    }
  }

  lemma TransitionKeepsBook(b: Book, id: nat, status: Status, patch: Patch)
    requires BookOk(b) && (Final(status) <==> patch.Settlement?)
    ensures BookOk(Transition(b, id, status, patch).0) && Progressed(b, Transition(b, id, status, patch).0)
    ensures |Transition(b, id, status, patch).0.records| == |b.records|
  {
    TransitionProgresses(b, id, status, patch);
    var c := Transition(b, id, status, patch).0;
    if c != b {
      var k := FirstFrom(b.records, id, 0);
      forall i | 0 <= i < |c.records| ensures RecordOk(c, c.records[i]) {
        HistoryAppend(b.log, LogLine(id, status), c.records[i].id);
        assert RecordOk(b, b.records[i]);
        if i == k {
          FollowsTableAppend(History(b.log, id), status);
        }
      }
      forall other | other >= c.nextId ensures History(c.log, other) == [] {
        HistoryAppend(b.log, LogLine(id, status), other);
      }
    }
  }

  lemma FollowsTableAppend(h: seq<Status>, status: Status)
    requires FollowsTable(h) && status in ValidNext(h[|h| - 1])
    ensures FollowsTable(h + [status])
  {
    var g := h + [status];
    forall i | 0 <= i < |g| - 1 ensures g[i + 1] in ValidNext(g[i]) {
      if i < |h| - 1 {
        assert h[i + 1] in ValidNext(h[i]);
      }
    }
  }

  lemma UnrealizedKeepsBook(b: Book, id: nat, pnl: real, pct: real)
    requires BookOk(b)
    ensures BookOk(RecordUnrealized(b, id, pnl, pct)) && Progressed(b, RecordUnrealized(b, id, pnl, pct))
    ensures |RecordUnrealized(b, id, pnl, pct).records| == |b.records|
  {
    var c := RecordUnrealized(b, id, pnl, pct);
    UnrealizedProgresses(b, id, pnl, pct);
    forall i | 0 <= i < |c.records| ensures RecordOk(c, c.records[i]) {
      assert RecordOk(b, b.records[i]);
    }
  }

  // ----- What monitoring keeps -----

  // No record appears or disappears, every record only moves forward, and nothing is bought.
  ghost predicate Monitored(w: World, u: World) {
    && BookOk(u.book)
    && Progressed(w.book, u.book)
    && |u.book.records| == |w.book.records|
    && u.book.nextId == w.book.nextId
    && Bought(u.venue.accepted) == Bought(w.venue.accepted)
  }

  lemma MonitoredTransitive(w: World, u: World, x: World)
    requires Monitored(w, u) && Monitored(u, x)
    ensures Monitored(w, x)
  {
    ProgressedTransitive(w.book, u.book, x.book);
  }

  lemma MonitoredNothing(w: World)
    requires BookOk(w.book)
    ensures Monitored(w, w)
  {
  }

  lemma {:induction false} PostAccepts(script: Script, v: Venue, leg: Leg, tries: nat)
    ensures var (reply, after) := Post(script, v, leg, tries);
      after.accepted == v.accepted + if reply.Some? then [leg] else []
    decreases tries
  {
    if tries > 0 && script(v.cursor).Transient? {
      PostAccepts(script, Venue(v.cursor + 1, v.accepted), leg, tries - 1);
    }
  }

  // An order that succeeds adds exactly its own leg, with a non-zero price; one that fails adds none.
  lemma PlaceAccepts(cfg: Config, script: Script, v: Venue, leg: Leg)
    ensures var (reply, after) := PlaceOrder(cfg, script, v, leg);
      && after.accepted == v.accepted + (if reply.Some? then [leg] else [])
      && (reply.Some? ==> leg.price != 0.0)
  {
    PostAccepts(script, v, leg, cfg.maxRetries + 1);
  }

  lemma {:induction false} SellingBuysNothing(cfg: Config, script: Script, v: Venue, tokens: seq<(string, real)>,
          contracts: real, n: nat)
    requires n <= |tokens|
    ensures Bought(SellTo(cfg, script, v, tokens, contracts, n).0.accepted) == Bought(v.accepted)
  {
    hide PlaceOrder;
    if n > 0 {
      SellingBuysNothing(cfg, script, v, tokens, contracts, n - 1);
      var before := SellTo(cfg, script, v, tokens, contracts, n - 1).0;
      var leg := SellLeg(tokens[n - 1].0, contracts, tokens[n - 1].1);
      PlaceAccepts(cfg, script, before, leg);
      BoughtAppend(before.accepted, leg);
      assert before.accepted + [] == before.accepted;
    }
  }

  lemma CloseMonitors(cfg: Config, script: Script, w: World, p: PositionRecord, bids: Option<(real, real)>, now: int)
    requires BookOk(w.book)
    ensures Monitored(w, ClosePosition(cfg, script, w, p, bids, now).0)
  {
    hide Transition, SellTo, TokensToSell, ContractsPerLeg, HeldContracts, Round4, Round6, BookOk;
    MonitoredNothing(w);
    if !cfg.dryRun {
      var marked := if p.status != Closing then World(Transition(w.book, p.id, Closing, NoPatch).0, w.venue) else w;
      TransitionKeepsBook(w.book, p.id, Closing, NoPatch);
      TransitionKeepsId(w.book, p.id, Closing, NoPatch);
      if bids.Some? && TokensToSell(p, bids.value) != [] {
        CloseWithMonitors(cfg, script, marked, p, TokensToSell(p, bids.value), now);
        MonitoredTransitive(w, marked, CloseWith(cfg, script, marked, p, TokensToSell(p, bids.value), now).0);
      }
    }
  }

  lemma TransitionKeepsId(b: Book, id: nat, status: Status, patch: Patch)
    ensures Transition(b, id, status, patch).0.nextId == b.nextId
  {
  }

  lemma CloseWithMonitors(cfg: Config, script: Script, w: World, p: PositionRecord, tokens: seq<(string, real)>,
          now: int)
    requires BookOk(w.book)
    ensures Monitored(w, CloseWith(cfg, script, w, p, tokens, now).0)
  {
    hide Transition, SellTo, ContractsPerLeg, HeldContracts, Round4, Round6, BookOk;
    MonitoredNothing(w);
    SellingBuysNothing(cfg, script, w.venue, tokens, ContractsPerLeg(p, |tokens|), |tokens|);
    var (v, proceeds, all) := SellTo(cfg, script, w.venue, tokens, ContractsPerLeg(p, |tokens|), |tokens|);
    var exit := proceeds / Max(HeldContracts(p, 1.0), 0.000000001);
    var patch := Settlement(Round4(proceeds - p.sizeUsdc), Round6(exit), now);
    TransitionKeepsBook(w.book, p.id, Closed, patch);
    TransitionKeepsId(w.book, p.id, Closed, patch);
  }

  lemma ResolutionMonitors(w: World, p: PositionRecord, detail: MarketDetail, now: int)
    requires BookOk(w.book)
    ensures Monitored(w, World(CheckResolution(w.book, p, detail, now).0, w.venue))
  {
    hide Transition, ResolutionPnl, Round4, BookOk;
    MonitoredNothing(w);
    if detail.resolved {
      var patch := Settlement(Round4(ResolutionPnl(p, detail.winner)),
          if detail.winner == OtherOutcome then 0.0 else 1.0, now);
      TransitionKeepsBook(w.book, p.id, Resolved, patch);
      TransitionKeepsId(w.book, p.id, Resolved, patch);
    } else if EndTime(p, detail).Some? {
      TransitionKeepsBook(w.book, p.id, Stale, EndDate(EndTime(p, detail).value));
      TransitionKeepsId(w.book, p.id, Stale, EndDate(EndTime(p, detail).value));
    }
  }

  // Whatever snapshot of a record the monitor acts on, however old, the books stay in order.
  lemma MonitorOneMonitors(cfg: Config, script: Script, w: World, p: PositionRecord, t: Tick)
    requires BookOk(w.book)
    ensures Monitored(w, MonitorOne(cfg, script, w, p, t))
  {
    hide ClosePosition, CheckResolution, ComputeUnrealized, ReasonToClose, RecordUnrealized, Round4, Monitored;
    if p.status == Closing {
      CloseMonitors(cfg, script, w, p, t.closeBids, t.now);
    } else {
      var (pnl, pct) := ComputeUnrealized(p, t.yesBid.GetOr(0.0), t.noBid.GetOr(0.0));
      var updated := World(RecordUnrealized(w.book, p.id, Round4(pnl), Round4(pct)), w.venue);
      UnrealizedMonitors(w, p.id, Round4(pnl), Round4(pct));
      var book := if t.detail.Some? then CheckResolution(updated.book, p, t.detail.value, t.now).0 else updated.book;
      var checked := World(book, updated.venue);
      if t.detail.Some? {
        ResolutionMonitors(updated, p, t.detail.value, t.now);
        MonitoredTransitive(w, updated, checked);
      }
      MonitoredBookOk(w, checked);
      CloseMonitors(cfg, script, checked, p, t.closeBids, t.now);
      MonitoredTransitive(w, checked, ClosePosition(cfg, script, checked, p, t.closeBids, t.now).0);
    }
  }

  lemma MonitoredBookOk(w: World, u: World)
    requires Monitored(w, u)
    ensures BookOk(u.book)
  {
  }

  lemma UnrealizedMonitors(w: World, id: nat, pnl: real, pct: real)
    requires BookOk(w.book)
    ensures BookOk(RecordUnrealized(w.book, id, pnl, pct))
    ensures Monitored(w, World(RecordUnrealized(w.book, id, pnl, pct), w.venue))
  {
    UnrealizedKeepsBook(w.book, id, pnl, pct);
  }

  // ----- What executing keeps -----

  lemma SharesSplitSize(size: real, cost: real, yes: real, no: real)
    requires size > 0.0 && cost == yes + no > 0.0 && yes >= 0.0 && no >= 0.0
    ensures var n := SharesFor(size, cost);
      && n > 0.0
      && LegUsdc(n, yes) + LegUsdc(n, no) == size
      && 0.0 <= LegUsdc(n, yes) <= size && 0.0 <= LegUsdc(n, no)
      && (yes > 0.0 ==> LegUsdc(n, yes) > 0.0)
  {
    var n := SharesFor(size, cost);
    DivMul(size, cost);
    assert n * cost == n * yes + n * no;
    if n <= 0.0 {
      MulNonNeg(-n, cost);
    }
    MulNonNeg(n, yes);
    MulNonNeg(n, no);
    if yes > 0.0 {
      MulPos(n, yes);
    }
  }

  // A call adds at most one record; the USDC of the legs it got accepted is the cost of that record,
  // unless an accepted reply could not be read, when something was bought and nothing recorded.
  ghost predicate CallOutcome(cfg: Config, w: World, u: World, ending: Ending) {
    var spent := Bought(u.venue.accepted) - Bought(w.venue.accepted);
    match ending
    case Executed(usdc) => spent == usdc && Added(cfg, w, u, Open, usdc)
    case Unhedging(usdc) => spent == usdc && Added(cfg, w, u, Unhedged, usdc)
    case Raised => spent > 0.0 && u.book == w.book
    case LegFailed => u.book == w.book && u.venue.accepted == w.venue.accepted
    case _ => u == w
  }

  ghost predicate Added(cfg: Config, w: World, u: World, status: Status, usdc: real) {
    && |u.book.records| == |w.book.records| + 1
    && var r := u.book.records[|w.book.records|];
    && u.book == Add(w.book, r)
    && r.id == w.book.nextId && r.status == status && r.pnl == None && r.sizeUsdc == usdc
    && 0.0 <= usdc <= cfg.maxTradeUsdc
  }

  lemma AddIsAdded(cfg: Config, w: World, r: PositionRecord, v: Venue)
    requires r.id == w.book.nextId && r.pnl == None && 0.0 <= r.sizeUsdc <= cfg.maxTradeUsdc
    ensures Added(cfg, w, World(Add(w.book, r), v), r.status, r.sizeUsdc)
  {
    assert (w.book.records + [r])[|w.book.records|] == r;
  }

  lemma OneLegOutcome(cfg: Config, script: Script, w: World, opp: Opportunity, legs: Legs, size: real,
          env: Surroundings)
    requires 0.0 < size <= cfg.maxTradeUsdc
    ensures var (u, ending) := OneLeg(cfg, script, w, opp, legs, size, env); CallOutcome(cfg, w, u, ending)
  {
    hide PlaceOrder, Contracts, Bought, Added;
    var leg := Leg(Buy, opp.yesToken, size, opp.entryYes);
    PlaceAccepts(cfg, script, w.venue, leg);
    BoughtAppend(w.venue.accepted, leg);
    assert w.venue.accepted + [] == w.venue.accepted;
    var (reply, v) := PlaceOrder(cfg, script, w.venue, leg);
    if reply.Some? && !reply.value.Unparsable? {
      var fill := FillPrice(reply.value, opp.entryYes);
      AddIsAdded(cfg, w, NewPosition(w.book, opp, legs, fill, size, env.now, Open, "", Contracts(size, fill)), v);
    }
  }

  lemma SecondLegOutcome(cfg: Config, script: Script, w: World, v: Venue, opp: Opportunity, shares: real,
          yesFill: real, now: int)
    requires var yesUsdc, noUsdc := LegUsdc(shares, opp.entryYes), LegUsdc(shares, opp.entryNo);
      && 0.0 < yesUsdc && 0.0 <= noUsdc && yesUsdc + noUsdc <= cfg.maxTradeUsdc
      && Bought(v.accepted) == Bought(w.venue.accepted) + yesUsdc
    ensures var (u, ending) := SecondLeg(cfg, script, w.book, v, opp, shares, yesFill, now);
      CallOutcome(cfg, w, u, ending)
  {
    hide PlaceOrder, Contracts, LegUsdc, Bought, Added;
    var yesUsdc, noUsdc := LegUsdc(shares, opp.entryYes), LegUsdc(shares, opp.entryNo);
    var leg := Leg(Buy, opp.noToken, noUsdc, opp.entryNo);
    PlaceAccepts(cfg, script, v, leg);
    BoughtAppend(v.accepted, leg);
    assert v.accepted + [] == v.accepted;
    var (no, after) := PlaceOrder(cfg, script, v, leg);
    if no.None? {
      AddIsAdded(cfg, w, NewPosition(w.book, opp, Yes, yesFill, yesUsdc, now, Unhedged, "",
          Contracts(yesUsdc, yesFill)), after);
    } else {
      var entry := (yesFill + FillPrice(no.value, opp.entryNo)) / 2.0;
      AddIsAdded(cfg, w, NewPosition(w.book, opp, YesAndNo, entry, yesUsdc + noUsdc, now, Open, opp.noToken, shares),
          after);
    }
  }

  lemma TwoLegsOutcome(cfg: Config, script: Script, w: World, opp: Opportunity, requested: real, env: Surroundings)
    requires opp.PricesQuoted() && requested <= cfg.maxTradeUsdc
    ensures var (u, ending) := TwoLegs(cfg, script, w, opp, requested, env); CallOutcome(cfg, w, u, ending)
  {
    hide PlaceOrder, LegUsdc, SharesFor, SecondLeg, Bought, Added;
    var cost, size := opp.entryYes + opp.entryNo, Clamp(cfg, requested, env.freeCollateral);
    if env.gasOk && cost > 0.0 && size > 0.0 {
      SharesSplitSize(size, cost, opp.entryYes, opp.entryNo);
      var n := SharesFor(size, cost);
      var leg := Leg(Buy, opp.yesToken, LegUsdc(n, opp.entryYes), opp.entryYes);
      PlaceAccepts(cfg, script, w.venue, leg);
      BoughtAppend(w.venue.accepted, leg);
      assert w.venue.accepted + [] == w.venue.accepted;
      var (yes, v) := PlaceOrder(cfg, script, w.venue, leg);
      if yes.Some? {
        SecondLegOutcome(cfg, script, w, v, opp, n, FillPrice(yes.value, opp.entryYes), env.now);
      }
    }
  }

  lemma ExecuteOutcome(cfg: Config, script: Script, paused: bool, w: World, opp: Opportunity, env: Surroundings)
    requires cfg.Valid() && opp.PricesQuoted()
    ensures var (u, ending) := Execute(cfg, script, paused, w, opp, env);
      && CallOutcome(cfg, w, u, ending)
      && (u.book != w.book ==> ActiveCount(w.book.records) < cfg.maxPositions)
  {
    hide TwoLegs, OneLeg, CallOutcome, ActiveCount, DailyPnl;
    TwoLegsOutcome(cfg, script, w, opp, cfg.maxTradeUsdc, env);
    TwoLegsOutcome(cfg, script, w, opp, Min(cfg.underroundMaxUsdc, cfg.maxTradeUsdc), env);
    var full, capped := Clamp(cfg, cfg.maxTradeUsdc, env.freeCollateral),
        Clamp(cfg, Min(cfg.carryMaxUsdc, cfg.maxTradeUsdc), env.freeCollateral);
    if full > 0.0 {
      OneLegOutcome(cfg, script, w, opp, BuyLow, full, env);
    }
    if capped > 0.0 {
      OneLegOutcome(cfg, script, w, opp, Yes, capped, env);
    }
    RefusalOutcome(cfg, w);
  }

  lemma RefusalOutcome(cfg: Config, w: World)
    ensures CallOutcome(cfg, w, w, DryRun)
    ensures forall why :: CallOutcome(cfg, w, w, Refused(why))
  {
  }

  // A call can touch the ledger or the venue only when all eight risk checks pass on the full trade
  // size, trading is live and authorised, and there is gas; so a paused desk, a desk at its position
  // cap or at its daily loss limit neither buys nor records anything.
  lemma OnlyThroughTheGate(cfg: Config, script: Script, paused: bool, w: World, opp: Opportunity, env: Surroundings)
    requires Execute(cfg, script, paused, w, opp, env).0 != w
    ensures !paused && !cfg.dryRun && env.authOk && env.gasOk && opp.strategy != OtherStrategy
    ensures env.balance.Some? ==> env.balance.value >= cfg.maxTradeUsdc
    ensures opp.edgePct >= cfg.minEdgePct && opp.volume24h >= cfg.minVolume24h && opp.confidence in {Medium, High}
    ensures ActiveCount(w.book.records) < cfg.maxPositions
    ensures DailyPnl(w.book.records, env.Today()) > -cfg.dailyLossLimit
  {
    hide ActiveCount, DailyPnl, OneLeg, PlaceOrder, SecondLeg;
  }

  // ----- Replies that cannot be read -----

  // One of the venue's answers to the attempts from `from` up to `to` accepts the order with a price
  // that cannot be read.
  ghost predicate Garbled(script: Script, from: nat, to: nat) {
    exists j: nat :: from <= j < to && script(j) == Accept(Unparsable)
  }

  ghost predicate GarbledReply(reply: Option<ReplyPrice>) {
    reply.Some? && reply.value.Unparsable?
  }

  lemma GarbledSplit(script: Script, a: nat, b: nat, c: nat)
    requires a <= b <= c
    ensures Garbled(script, a, c) <==> Garbled(script, a, b) || Garbled(script, b, c)
  {
  }

  lemma {:induction false} PostGarbledIff(script: Script, v: Venue, leg: Leg, tries: nat)
    ensures var (reply, after) := Post(script, v, leg, tries);
      v.cursor <= after.cursor && (GarbledReply(reply) <==> Garbled(script, v.cursor, after.cursor))
    decreases tries
  {
    if tries > 0 {
      var next := Venue(v.cursor + 1, v.accepted);
      if script(v.cursor).Transient? {
        PostGarbledIff(script, next, leg, tries - 1);
        GarbledSplit(script, v.cursor, next.cursor, Post(script, next, leg, tries - 1).1.cursor);
      }
    }
  }

  // An order gets an unreadable reply exactly when the venue gives one to some attempt it makes.
  lemma PlaceGarbledIff(cfg: Config, script: Script, v: Venue, leg: Leg)
    ensures var (reply, after) := PlaceOrder(cfg, script, v, leg);
      v.cursor <= after.cursor && (GarbledReply(reply) <==> Garbled(script, v.cursor, after.cursor))
  {
    PostGarbledIff(script, v, leg, cfg.maxRetries + 1);
  }

  lemma TwoLegsRaisesIff(cfg: Config, script: Script, w: World, opp: Opportunity, requested: real, env: Surroundings)
    ensures var (u, ending) := TwoLegs(cfg, script, w, opp, requested, env);
      w.venue.cursor <= u.venue.cursor && (ending.Raised? <==> Garbled(script, w.venue.cursor, u.venue.cursor))
  {
    hide PlaceOrder, LegUsdc, SharesFor, Garbled, Contracts;
    NothingGarbled(script, w.venue.cursor);
    var cost, size := opp.entryYes + opp.entryNo, Clamp(cfg, requested, env.freeCollateral);
    if env.gasOk && cost > 0.0 && size > 0.0 {
      var n := SharesFor(size, cost);
      var leg := Leg(Buy, opp.yesToken, LegUsdc(n, opp.entryYes), opp.entryYes);
      var second := Leg(Buy, opp.noToken, LegUsdc(n, opp.entryNo), opp.entryNo);
      PlaceGarbledIff(cfg, script, w.venue, leg);
      var v := PlaceOrder(cfg, script, w.venue, leg).1;
      PlaceGarbledIff(cfg, script, v, second);
      GarbledSplit(script, w.venue.cursor, v.cursor, PlaceOrder(cfg, script, v, second).1.cursor);
    }
  }

  lemma NothingGarbled(script: Script, at: nat)
    ensures !Garbled(script, at, at)
  {
  }

  lemma OneLegRaisesIff(cfg: Config, script: Script, w: World, opp: Opportunity, legs: Legs, size: real,
          env: Surroundings)
    ensures var (u, ending) := OneLeg(cfg, script, w, opp, legs, size, env);
      w.venue.cursor <= u.venue.cursor && (ending.Raised? <==> Garbled(script, w.venue.cursor, u.venue.cursor))
  {
    hide PlaceOrder, Garbled, Contracts;
    var leg := Leg(Buy, opp.yesToken, size, opp.entryYes);
    PlaceGarbledIff(cfg, script, w.venue, leg);
    var (reply, v) := PlaceOrder(cfg, script, w.venue, leg);
    assert OneLeg(cfg, script, w, opp, legs, size, env).0.venue == v;
  }

  lemma CorrelatedRaisesIff(cfg: Config, script: Script, w: World, opp: Opportunity, env: Surroundings)
    ensures var (u, ending) := Correlated(cfg, script, w, opp, env);
      w.venue.cursor <= u.venue.cursor && (ending.Raised? <==> Garbled(script, w.venue.cursor, u.venue.cursor))
  {
    hide OneLeg, Garbled, Clamp;
    NothingGarbled(script, w.venue.cursor);
    OneLegRaisesIff(cfg, script, w, opp, BuyLow, Clamp(cfg, cfg.maxTradeUsdc, env.freeCollateral), env);
  }

  lemma CarryRaisesIff(cfg: Config, script: Script, w: World, opp: Opportunity, env: Surroundings)
    ensures var (u, ending) := Carry(cfg, script, w, opp, env);
      w.venue.cursor <= u.venue.cursor && (ending.Raised? <==> Garbled(script, w.venue.cursor, u.venue.cursor))
  {
    hide OneLeg, Garbled, Clamp;
    NothingGarbled(script, w.venue.cursor);
    OneLegRaisesIff(cfg, script, w, opp, Yes,
        Clamp(cfg, Min(cfg.carryMaxUsdc, cfg.maxTradeUsdc), env.freeCollateral), env);
  }

  // A call ends by an exception exactly when the venue accepted one of its attempts with a price
  // that cannot be read.
  lemma ExecuteRaisesIff(cfg: Config, script: Script, paused: bool, w: World, opp: Opportunity, env: Surroundings)
    ensures var (u, ending) := Execute(cfg, script, paused, w, opp, env);
      w.venue.cursor <= u.venue.cursor && (ending.Raised? <==> Garbled(script, w.venue.cursor, u.venue.cursor))
  {
    hide TwoLegs, Correlated, Carry, RiskProblem, Garbled;
    NothingGarbled(script, w.venue.cursor);
    TwoLegsRaisesIff(cfg, script, w, opp, cfg.maxTradeUsdc, env);
    TwoLegsRaisesIff(cfg, script, w, opp, Min(cfg.underroundMaxUsdc, cfg.maxTradeUsdc), env);
    CorrelatedRaisesIff(cfg, script, w, opp, env);
    CarryRaisesIff(cfg, script, w, opp, env);
  }

  // ----- Interleavings -----

  // A call of execute, or one monitor step acting on a snapshot of a record. The snapshot may be any
  // record value at all: the monitor loads its list once and acts on it while the ledger moves on.
  datatype Action =
    | Call(paused: bool, opp: Opportunity, env: Surroundings)
    | Observe(snapshot: PositionRecord, tick: Tick)

  function Next(cfg: Config, script: Script, w: World, a: Action): (World, Option<Ending>) {
    match a
    case Call(paused, opp, env) =>
      var (u, ending) := Execute(cfg, script, paused, w, opp, env);
      (u, Some(ending))
    case Observe(snapshot, tick) => (MonitorOne(cfg, script, w, snapshot, tick), None)
  }

  datatype Desk = Desk(cfg: Config, script: Script, actions: seq<Action>) {
    ghost predicate Valid() {
      cfg.Valid() && forall i :: 0 <= i < |actions| && actions[i].Call? ==> actions[i].opp.PricesQuoted()
    }

    // The ledger and the venue after the first n actions, starting from an empty ledger.
    function At(n: nat): World
      requires n <= |actions|
    {
      if n == 0 then World(Book([], [], 0), Venue(0, [])) else Next(cfg, script, At(n - 1), actions[n - 1]).0
    }

    // How action n ended, when it was a call of execute.
    function EndingOf(n: nat): Option<Ending>
      requires n < |actions|
    {
      Next(cfg, script, At(n), actions[n]).1
    }
  }

  lemma UnfoldDesk(d: Desk, n: nat)
    requires 0 < n <= |d.actions|
    ensures d.At(n) == Next(d.cfg, d.script, d.At(n - 1), d.actions[n - 1]).0
  {
  }

  ghost predicate WorldOk(cfg: Config, w: World) {
    && BookOk(w.book)
    && ActiveCount(w.book.records) <= cfg.maxPositions
    && (forall i :: 0 <= i < |w.book.records| ==> 0.0 <= w.book.records[i].sizeUsdc <= cfg.maxTradeUsdc)
    && Bought(w.venue.accepted) >= TotalUsdc(w.book.records)
  }

  lemma CallKeepsWorld(cfg: Config, script: Script, w: World, a: Action)
    requires cfg.Valid() && WorldOk(cfg, w) && a.Call? && a.opp.PricesQuoted()
    ensures var (u, ending) := Next(cfg, script, w, a);
      && WorldOk(cfg, u) && Progressed(w.book, u.book) && ending.Some?
      && Bought(u.venue.accepted) - TotalUsdc(u.book.records) >= Bought(w.venue.accepted) - TotalUsdc(w.book.records)
      && (ending.value.Raised? <==>
            Bought(u.venue.accepted) - TotalUsdc(u.book.records) > Bought(w.venue.accepted) - TotalUsdc(w.book.records))
  {
    hide Execute, BookOk, ActiveCount, TotalUsdc, Bought, Progressed;
    ExecuteOutcome(cfg, script, a.paused, w, a.opp, a.env);
    var (u, ending) := Execute(cfg, script, a.paused, w, a.opp, a.env);
    if ending.Executed? || ending.Unhedging? {
      var r := u.book.records[|w.book.records|];
      AddKeepsBook(w.book, r);
      RecordAppend(w.book.records, r);
    } else {
      ProgressedSame(w.book);
    }
  }

  lemma ProgressedSame(b: Book)
    ensures Progressed(b, b)
  {
  }

  lemma ObserveKeepsWorld(cfg: Config, script: Script, w: World, a: Action)
    requires WorldOk(cfg, w) && a.Observe?
    ensures var u := Next(cfg, script, w, a).0;
      && WorldOk(cfg, u) && Monitored(w, u)
      && TotalUsdc(u.book.records) == TotalUsdc(w.book.records)
  {
    MonitorOneMonitors(cfg, script, w, a.snapshot, a.tick);
    var u := MonitorOne(cfg, script, w, a.snapshot, a.tick);
    hide MonitorOne, BookOk;
    forall i | 0 <= i < |w.book.records|
      ensures u.book.records[i].sizeUsdc == w.book.records[i].sizeUsdc
      ensures Active(u.book.records[i].status) ==> Active(w.book.records[i].status)
    {
      assert RecordProgressed(w.book.records[i], u.book.records[i]);
    }
    TotalUnchanged(w.book.records, u.book.records);
    ActiveCountMonotone(w.book.records, u.book.records);
  }

  lemma {:induction false} AlwaysOk(d: Desk, n: nat)
    requires d.Valid() && n <= |d.actions|
    ensures WorldOk(d.cfg, d.At(n))
  {
    hide Next, WorldOk;
    if n == 0 {
      EmptyIsOk(d);
    } else {
      AlwaysOk(d, n - 1);
      if d.actions[n - 1].Call? {
        CallKeepsWorld(d.cfg, d.script, d.At(n - 1), d.actions[n - 1]);
      } else {
        ObserveKeepsWorld(d.cfg, d.script, d.At(n - 1), d.actions[n - 1]);
      }
    }
  }

  lemma EmptyIsOk(d: Desk)
    requires d.Valid()
    ensures WorldOk(d.cfg, d.At(0))
  {
  }

  lemma {:induction false} ExposureBound(records: seq<PositionRecord>, max: real)
    requires forall i :: 0 <= i < |records| ==> 0.0 <= records[i].sizeUsdc <= max
    ensures ActiveUsdc(records) <= ActiveCount(records) as real * max
  {
    if records != [] {
      ExposureBound(records[..|records| - 1], max);
      OneMoreTimes(ActiveCount(records[..|records| - 1]), max);
    }
  }

  lemma OneMoreTimes(k: nat, max: real)
    ensures (k + 1) as real * max == k as real * max + max
  {
  }

  // In every interleaving, with every pattern of leg failures, prices and resolutions, the number of
  // active positions and the USDC they tie up stay within the configured caps.
  lemma CapsHold(d: Desk, n: nat)
    requires d.Valid() && n <= |d.actions|
    ensures ActiveCount(d.At(n).book.records) <= d.cfg.maxPositions
    ensures ActiveUsdc(d.At(n).book.records) <= d.cfg.maxPositions as real * d.cfg.maxTradeUsdc
  {
    hide Desk.At, ActiveCount, ActiveUsdc, Bought, TotalUsdc, BookOk;
    AlwaysOk(d, n);
    ExposureBound(d.At(n).book.records, d.cfg.maxTradeUsdc);
    CapTimesSize(ActiveUsdc(d.At(n).book.records), ActiveCount(d.At(n).book.records), d.cfg.maxPositions,
        d.cfg.maxTradeUsdc);
  }

  lemma CapTimesSize(usdc: real, count: int, cap: int, size: real)
    requires usdc <= count as real * size && count <= cap && size >= 0.0
    ensures usdc <= cap as real * size
  {
    MulMono(count as real, cap as real, size);
  }

  // What was bought but is not the cost of any record.
  function OffTheBooks(w: World): real {
    Bought(w.venue.accepted) - TotalUsdc(w.book.records)
  }

  // Action k is a call, and the venue accepted one of its attempts with a price that cannot be read.
  ghost predicate GarbledCall(d: Desk, k: nat)
    requires k < |d.actions|
  {
    d.actions[k].Call? && Garbled(d.script, d.At(k).venue.cursor, d.At(k + 1).venue.cursor)
  }

  // Everything bought is the cost of some record if and only if the venue never accepts an attempt
  // of a call with a price that cannot be read. What is off the books is never negative.
  lemma {:induction false} NothingOffTheBooksIff(d: Desk, n: nat)
    requires d.Valid() && n <= |d.actions|
    ensures OffTheBooks(d.At(n)) >= 0.0
    ensures OffTheBooks(d.At(n)) == 0.0 <==> forall k :: 0 <= k < n ==> !GarbledCall(d, k)
  {
    hide Next, WorldOk, Bought, TotalUsdc, GarbledCall;
    if n == 0 {
      NothingYet(d);
    } else {
      NothingOffTheBooksIff(d, n - 1);
      StepOffTheBooks(d, n - 1);
    }
  }

  lemma NothingYet(d: Desk)
    ensures OffTheBooks(d.At(0)) == 0.0
  {
  }

  // One action leaves more off the books exactly when it is such a call.
  lemma StepOffTheBooks(d: Desk, k: nat)
    requires d.Valid() && k < |d.actions|
    ensures OffTheBooks(d.At(k + 1)) >= OffTheBooks(d.At(k))
    ensures OffTheBooks(d.At(k + 1)) == OffTheBooks(d.At(k)) <==> !GarbledCall(d, k)
  {
    AlwaysOk(d, k);
    var a := d.actions[k];
    hide Bought, TotalUsdc, WorldOk, BookOk, Progressed, Garbled;
    if a.Call? {
      CallKeepsWorld(d.cfg, d.script, d.At(k), a);
      ExecuteRaisesIff(d.cfg, d.script, a.paused, d.At(k), a.opp, a.env);
    } else {
      ObserveKeepsWorld(d.cfg, d.script, d.At(k), a);
    }
    hide Execute, MonitorOne;
  }

  // Every record's status history is a life cycle of the transition table, ends in its present
  // status, is finalised at most once, and carries a realised P&L exactly when it was finalised.
  lemma LivesFollowTheTable(d: Desk, n: nat, i: nat)
    requires d.Valid() && n <= |d.actions| && i < |d.At(n).book.records|
    ensures var r, h := d.At(n).book.records[i], History(d.At(n).book.log, d.At(n).book.records[i].id);
      && LifeCycle(h) && h[|h| - 1] == r.status
      && FinalCount(h) == (if r.pnl.Some? then 1 else 0)
      && (r.pnl.Some? <==> Final(r.status))
  {
    AlwaysOk(d, n);
    assert RecordOk(d.At(n).book, d.At(n).book.records[i]);
    var h := History(d.At(n).book.log, d.At(n).book.records[i].id);
    TableIsLifeCycle(h);
    FinalisedAtMostOnce(h);
  }

  // Records are never lost and only move forward; a terminal one keeps status, P&L, exit price and
  // closing time under every later call and every monitor step on any stale snapshot.
  lemma {:induction false} TerminalIsForever(d: Desk, m: nat, n: nat)
    requires d.Valid() && m <= n <= |d.actions|
    ensures Progressed(d.At(m).book, d.At(n).book)
  {
    hide Next, WorldOk;
    if m == n {
      ProgressedSame(d.At(m).book);
    } else {
      TerminalIsForever(d, m, n - 1);
      AlwaysOk(d, n - 1);
      if d.actions[n - 1].Call? {
        CallKeepsWorld(d.cfg, d.script, d.At(n - 1), d.actions[n - 1]);
      } else {
        ObserveKeepsWorld(d.cfg, d.script, d.At(n - 1), d.actions[n - 1]);
      }
      ProgressedTransitive(d.At(m).book, d.At(n - 1).book, d.At(n).book);
    }
  }
}
