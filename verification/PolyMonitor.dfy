/** Watching, resolving and closing prediction-market positions, as in src/polymarket/monitor.py. */
module PolyMonitor {
  import opened Prelude
  import opened PolyPositions
  import opened Opportunities
  import opened PolyExecutor

  // ----- What one monitor cycle observes -----

  datatype Outcome = YesWon | NoWon | OtherOutcome

  // The market's own end date: not supplied, supplied but unreadable, or a time.
  datatype EndField = NotSupplied | Unreadable | EndsAt(time: int)

  datatype MarketDetail = MarketDetail(resolved: bool, winner: Outcome, end: EndField)

  // None stands for a request that failed.
  datatype Tick = Tick(
    yesBid: Option<real>, noBid: Option<real>, detail: Option<MarketDetail>,
    closeBids: Option<(real, real)>, now: int)

  // ----- P&L -----

  // Contracts on record, or an estimate from the cost when there is none.
  function HeldContracts(p: PositionRecord, perSet: real): real
    requires perSet > 0.0
  {
    if p.contracts <= 0.0 && p.entryPrice > 0.0 then p.sizeUsdc / p.entryPrice / perSet else p.contracts
  }

  function ComputeUnrealized(p: PositionRecord, yesBid: real, noBid: real): (real, real) {
    if p.sizeUsdc <= 0.0 || p.legs == BuyLow then (0.0, 0.0)
    else
      var value :=
        if p.legs == YesAndNo then HeldContracts(p, 2.0) * (yesBid + noBid)
        else if p.legs == Yes then HeldContracts(p, 1.0) * yesBid
        else HeldContracts(p, 1.0) * noBid;
      (value - p.sizeUsdc, (value - p.sizeUsdc) / p.sizeUsdc * 100.0)
  }

  datatype CloseReason = ProfitTarget | StopLoss | MaxHold | GraceExpired

  function ReasonToClose(p: PositionRecord, cfg: Config, pct: real, now: int): Option<CloseReason> {
    if pct >= cfg.takeProfitPct then Some(ProfitTarget)
    else if pct <= -cfg.stopLossPct then Some(StopLoss)
    else if now - p.openedAt >= cfg.maxHoldHours * 3600 then Some(MaxHold)
    else if p.status == Unhedged && now - p.openedAt >= cfg.unhedgedGraceMinutes * 60 then Some(GraceExpired)
    else None
  }

  function Payout(legs: Legs, winner: Outcome, contracts: real): real {
    if legs == YesAndNo || (legs == Yes && winner == YesWon) || (legs == No && winner == NoWon) then contracts else 0.0
  }

  function ResolutionPnl(p: PositionRecord, winner: Outcome): real {
    Payout(p.legs, winner, HeldContracts(p, 1.0)) - p.sizeUsdc
  }

  // ----- Resolution -----

  function EndTime(p: PositionRecord, detail: MarketDetail): Option<int> {
    match detail.end
    case NotSupplied => p.endDate
    case Unreadable => None
    case EndsAt(time) => Some(time)
  }

  // Moves the record to resolved or stale; True tells the monitor to leave the position alone.
  function CheckResolution(b: Book, p: PositionRecord, detail: MarketDetail, now: int): (Book, bool) {
    if detail.resolved then
      (Transition(b, p.id, Resolved,
         Settlement(Round4(ResolutionPnl(p, detail.winner)), if detail.winner == OtherOutcome then 0.0 else 1.0,
             now)).0,
       true)
    else
      var end := EndTime(p, detail);
      if end.Some? && now > end.value then (Transition(b, p.id, Stale, EndDate(end.value)).0, false)
      else (b, false)
  }

  // ----- Closing -----

  // The tokens to sell, each with its best bid.
  function TokensToSell(p: PositionRecord, bids: (real, real)): seq<(string, real)> {
    (if p.legs in {Yes, YesAndNo} && p.yesToken != "" then [(p.yesToken, bids.0)] else [])
    + (if p.legs in {No, YesAndNo} && p.noToken != "" then [(p.noToken, bids.1)] else [])
  }

  function SellPrice(bid: real): real {
    Max(bid - 0.01, 0.01)
  }

  function SellLeg(token: string, contracts: real, bid: real): Leg {
    Leg(Sell, token, LegUsdc(contracts, SellPrice(bid)), SellPrice(bid))
  }

  // Sells the first n tokens, `contracts` of each: the venue, the proceeds, and whether all filled.
  function SellTo(cfg: Config, script: Script, v: Venue, tokens: seq<(string, real)>, contracts: real,
          n: nat): (Venue, real, bool)
    requires n <= |tokens|
  {
    if n == 0 then (v, 0.0, true)
    else
      var (before, proceeds, all) := SellTo(cfg, script, v, tokens, contracts, n - 1);
      var leg := SellLeg(tokens[n - 1].0, contracts, tokens[n - 1].1);
      var (reply, after) := PlaceOrder(cfg, script, before, leg);
      if reply.None? || reply.value.Unparsable? then (after, proceeds, false)
      else (after, proceeds + LegUsdc(contracts, FillPrice(reply.value, leg.price)), all)
  }

  // The position's contracts are spread evenly over the tokens to sell.
  function ContractsPerLeg(p: PositionRecord, tokens: nat): real {
    HeldContracts(p, 1.0) / (if tokens >= 1 then tokens as real else 1.0)
  }

  function CloseWith(cfg: Config, script: Script, w: World, p: PositionRecord, tokens: seq<(string, real)>,
          now: int): (World, bool) {
    var (v, proceeds, all) := SellTo(cfg, script, w.venue, tokens, ContractsPerLeg(p, |tokens|), |tokens|);
    if !all then (World(w.book, v), false)
    else
      var exit := proceeds / Max(HeldContracts(p, 1.0), 0.000000001);
      (World(Transition(w.book, p.id, Closed, Settlement(Round4(proceeds - p.sizeUsdc), Round6(exit), now)).0, v), true)
  }

  function ClosePosition(cfg: Config, script: Script, w: World, p: PositionRecord, bids: Option<(real, real)>,
          now: int): (World, bool) {
    if cfg.dryRun then (w, true)
    else
      var marked := if p.status != Closing then World(Transition(w.book, p.id, Closing, NoPatch).0, w.venue) else w;
      if bids.None? then (marked, false)
      else
        var tokens := TokensToSell(p, bids.value);
        if tokens == [] then (marked, false) else CloseWith(cfg, script, marked, p, tokens, now)
  }

  // ----- One cycle for one position -----

  function MonitorOne(cfg: Config, script: Script, w: World, p: PositionRecord, t: Tick): World {
    if p.status == Closing then ClosePosition(cfg, script, w, p, t.closeBids, t.now).0
    else
      var (pnl, pct) := ComputeUnrealized(p, t.yesBid.GetOr(0.0), t.noBid.GetOr(0.0));
      var updated := World(RecordUnrealized(w.book, p.id, Round4(pnl), Round4(pct)), w.venue);
      var (book, done) :=
        if t.detail.Some? then CheckResolution(updated.book, p, t.detail.value, t.now) else (updated.book, false);
      var checked := World(book, updated.venue);
      if done || ReasonToClose(p, cfg, pct, t.now).None? then checked
      else ClosePosition(cfg, script, checked, p, t.closeBids, t.now).0
  }

  // Visits the active records of a snapshot in order, each with its own observations.
  function MonitorTo(cfg: Config, script: Script, w: World, snapshot: seq<PositionRecord>, ticks: seq<Tick>,
          n: nat): World
    requires n <= |snapshot| == |ticks|
  {
    if n == 0 then w
    else
      var before := MonitorTo(cfg, script, w, snapshot, ticks, n - 1);
      if Active(snapshot[n - 1].status) then MonitorOne(cfg, script, before, snapshot[n - 1], ticks[n - 1]) else before
  }

  // ----- The monitor's methods -----

  method SellTokens(cfg: Config, tokens: seq<(string, real)>, contracts: real, exchange: Exchange)
    returns (proceeds: real, allFilled: bool)
    modifies exchange
    ensures (exchange.State(), proceeds, allFilled)
         == old(SellTo(cfg, exchange.script, exchange.State(), tokens, contracts, |tokens|))
  {
    hide PlaceOrder, SellLeg, LegUsdc;
    proceeds, allFilled := 0.0, true;
    for i := 0 to |tokens|
      invariant (exchange.State(), proceeds, allFilled)
             == old(SellTo(cfg, exchange.script, exchange.State(), tokens, contracts, i))
    {
      var leg := SellLeg(tokens[i].0, contracts, tokens[i].1);
      var reply := exchange.Place(cfg, leg);
      if reply.None? || reply.value.Unparsable? {
        allFilled := false;
      } else {
        proceeds := proceeds + LegUsdc(contracts, FillPrice(reply.value, leg.price));
      }
    }
  }

  method Close(p: PositionRecord, cfg: Config, bids: Option<(real, real)>, now: int, ledger: PositionsLedger,
          exchange: Exchange)
    returns (done: bool)
    modifies ledger, exchange
    ensures (WorldOf(ledger, exchange), done)
         == old(ClosePosition(cfg, exchange.script, WorldOf(ledger, exchange), p, bids, now))
  {
    hide SellTo, Transition, ContractsPerLeg, HeldContracts, Round4, Round6, TokensToSell;
    if cfg.dryRun {
      return true;
    }
    if p.status != Closing {
      var moved := ledger.Move(p.id, Closing, NoPatch);
    }
    if bids.None? {
      return false;
    }
    var tokens := TokensToSell(p, bids.value);
    if tokens == [] {
      return false;
    }
    var proceeds, allFilled := SellTokens(cfg, tokens, ContractsPerLeg(p, |tokens|), exchange);
    if !allFilled {
      return false;
    }
    var exit := proceeds / Max(HeldContracts(p, 1.0), 0.000000001);
    var closed := ledger.Move(p.id, Closed, Settlement(Round4(proceeds - p.sizeUsdc), Round6(exit), now));
    return true;
  }

  method Resolve(p: PositionRecord, detail: MarketDetail, now: int, ledger: PositionsLedger) returns (done: bool)
    modifies ledger
    ensures (ledger.Contents(), done) == old(CheckResolution(ledger.Contents(), p, detail, now))
  {
    hide Transition, ResolutionPnl, Round4;
    if detail.resolved {
      var moved := ledger.Move(p.id, Resolved,
        Settlement(Round4(ResolutionPnl(p, detail.winner)), if detail.winner == OtherOutcome then 0.0 else 1.0, now));
      return true;
    }
    var end := EndTime(p, detail);
    if end.Some? && now > end.value {
      var moved := ledger.Move(p.id, Stale, EndDate(end.value));
    }
    return false;
  }

  method Watch(p: PositionRecord, cfg: Config, t: Tick, ledger: PositionsLedger, exchange: Exchange)
    modifies ledger, exchange
    ensures WorldOf(ledger, exchange) == old(MonitorOne(cfg, exchange.script, WorldOf(ledger, exchange), p, t))
  {
    hide ClosePosition, CheckResolution, ComputeUnrealized, ReasonToClose, RecordUnrealized, Round4;
    if p.status == Closing {
      var retried := Close(p, cfg, t.closeBids, t.now, ledger, exchange);
      return;
    }
    var (pnl, pct) := ComputeUnrealized(p, t.yesBid.GetOr(0.0), t.noBid.GetOr(0.0));
    ledger.UpdateUnrealized(p.id, Round4(pnl), Round4(pct));
    if t.detail.Some? {
      var done := Resolve(p, t.detail.value, t.now, ledger);
      if done {
        return;
      }
    }
    var reason := ReasonToClose(p, cfg, pct, t.now);
    if reason.Some? {
      var closed := Close(p, cfg, t.closeBids, t.now, ledger, exchange);
    }
  }

  // monitor_positions: loads the records once, then acts on each active one.
  method MonitorPositions(cfg: Config, ticks: seq<Tick>, ledger: PositionsLedger, exchange: Exchange)
    requires |ticks| == |ledger.records|
    modifies ledger, exchange
    ensures WorldOf(ledger, exchange)
         == old(MonitorTo(cfg, exchange.script, WorldOf(ledger, exchange), ledger.records, ticks, |ticks|))
  {
    hide MonitorOne;
    var snapshot := ledger.records;
    for i := 0 to |snapshot|
      invariant WorldOf(ledger, exchange)
             == old(MonitorTo(cfg, exchange.script, WorldOf(ledger, exchange), ledger.records, ticks, i))
    {
      if Active(snapshot[i].status) {
        Watch(snapshot[i], cfg, ticks[i], ledger, exchange);
      }
    }
  }
}
