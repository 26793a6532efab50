/** Placing prediction-market orders behind the risk guard, as in src/polymarket/executor.py and risk.py. */
module PolyExecutor {
  import opened Prelude
  import opened PolyPositions
  import opened Opportunities

  datatype Config = Config(
    maxTradeUsdc: real, maxPositions: int, dailyLossLimit: real, minEdgePct: real, minVolume24h: real,
    maxRetries: nat, dryRun: bool, safetyFraction: real, underroundMaxUsdc: real, carryMaxUsdc: real,
    takeProfitPct: real, stopLossPct: real, maxHoldHours: int, unhedgedGraceMinutes: int)
  {
    predicate Valid() {
      && maxTradeUsdc > 0.0 && maxPositions > 0 && dailyLossLimit > 0.0 && minEdgePct > 0.0
      && takeProfitPct > 0.0 && stopLossPct > 0.0 && maxHoldHours > 0 && unhedgedGraceMinutes >= 0
    }
  }

  // ----- The venue -----

  // The price field of an accepted order's reply: missing, a number, or text that is not a number.
  datatype ReplyPrice = Missing | Number(price: real) | Unparsable

  datatype Attempt = Accept(price: ReplyPrice) | Transient | Fatal

  datatype OrderSide = Buy | Sell

  datatype Leg = Leg(side: OrderSide, token: string, usdc: real, price: real)

  // How many placement attempts the venue has answered so far, and the legs it accepted.
  datatype Venue = Venue(cursor: nat, accepted: seq<Leg>)

  // What the venue will answer, attempt by attempt; it is arbitrary.
  type Script = nat -> Attempt

  // Up to `tries` attempts: stops at the first acceptance or the first fatal error.
  function Post(script: Script, v: Venue, leg: Leg, tries: nat): (Option<ReplyPrice>, Venue)
    decreases tries
  {
    if tries == 0 then (None, v)
    else
      var next := Venue(v.cursor + 1, v.accepted);
      match script(v.cursor)
      case Accept(price) => (Some(price), next.(accepted := v.accepted + [leg]))
      case Fatal => (None, next)
      case Transient => Post(script, next, leg, tries - 1)
  }

  // A zero price cannot be turned into a token quantity, so such an order never reaches the venue.
  function PlaceOrder(cfg: Config, script: Script, v: Venue, leg: Leg): (Option<ReplyPrice>, Venue) {
    if leg.price == 0.0 then (None, v) else Post(script, v, leg, cfg.maxRetries + 1)
  }

  class Exchange {
    const script: Script
    var cursor: nat
    var accepted: seq<Leg>

    ghost function State(): Venue
      reads this
    {
      Venue(cursor, accepted)
    }

    constructor (script: Script)
      ensures State() == Venue(0, []) && this.script == script
    {
      this.script := script;
      cursor, accepted := 0, [];
    }

    // _place_order: retries transient errors, gives up at once on fatal ones.
    method Place(cfg: Config, leg: Leg) returns (reply: Option<ReplyPrice>)
      modifies this
      ensures (reply, State()) == old(PlaceOrder(cfg, script, State(), leg))
    {
      if leg.price == 0.0 {
        return None;
      }
      var attempt := 0;
      while attempt < cfg.maxRetries + 1
        invariant attempt <= cfg.maxRetries + 1
        invariant old(Post(script, State(), leg, cfg.maxRetries + 1))
               == Post(script, State(), leg, cfg.maxRetries + 1 - attempt)
      {
        var answer := script(cursor);
        cursor := cursor + 1;
        match answer {
          case Accept(price) =>
            accepted := accepted + [leg];
            return Some(price);
          case Fatal =>
            return None;
          case Transient =>
        }
        attempt := attempt + 1;
      }
      return None;
    }
  }

  // ----- The risk guard -----

  datatype RiskReason =
    | BotPaused | LowBalance | LowEdge | LowConfidence | TradeTooLarge | TooManyPositions | DailyLoss | LowVolume

  function ConfidenceScore(c: Confidence): real {
    match c
    case High => 1.0
    case Medium => 0.5
    case _ => 0.0
  }

  // The first of the eight checks that fails, if any.
  function RiskProblem(cfg: Config, paused: bool, records: seq<PositionRecord>, opp: Opportunity, size: real,
                       balance: Option<real>, today: int): Option<RiskReason> {
    if paused then Some(BotPaused)
    else if balance.Some? && balance.value < size then Some(LowBalance)
    else if opp.edgePct < cfg.minEdgePct then Some(LowEdge)
    else if ConfidenceScore(opp.confidence) < 0.5 then Some(LowConfidence)
    else if size > cfg.maxTradeUsdc then Some(TradeTooLarge)
    else if ActiveCount(records) >= cfg.maxPositions then Some(TooManyPositions)
    else if DailyPnl(records, today) <= -cfg.dailyLossLimit then Some(DailyLoss)
    else if opp.volume24h < cfg.minVolume24h then Some(LowVolume)
    else None
  }

  class RiskGuard {
    const cfg: Config
    const ledger: PositionsLedger
    var paused: bool

    constructor (cfg: Config, ledger: PositionsLedger)
      ensures this.cfg == cfg && this.ledger == ledger && !paused
    {
      this.cfg, this.ledger, paused := cfg, ledger, false;
    }

    method Pause()
      modifies this
      ensures paused
    {
      paused := true;
    }

    method Resume()
      modifies this
      ensures !paused
    {
      paused := false;
    }

    method Check(opp: Opportunity, size: real, balance: Option<real>, today: int) returns (problem: Option<RiskReason>)
      ensures problem == RiskProblem(cfg, paused, ledger.records, opp, size, balance, today)
    {
      if paused {
        return Some(BotPaused);
      }
      if balance.Some? && balance.value < size {
        return Some(LowBalance);
      }
      if opp.edgePct < cfg.minEdgePct {
        return Some(LowEdge);
      }
      if ConfidenceScore(opp.confidence) < 0.5 {
        return Some(LowConfidence);
      }
      if size > cfg.maxTradeUsdc {
        return Some(TradeTooLarge);
      }
      var open := ledger.OpenCount();
      if open >= cfg.maxPositions {
        return Some(TooManyPositions);
      }
      var pnl := ledger.TodaysPnl(today);
      if pnl <= -cfg.dailyLossLimit {
        return Some(DailyLoss);
      }
      if opp.volume24h < cfg.minVolume24h {
        return Some(LowVolume);
      }
      return None;
    }
  }

  // ----- Executing an opportunity -----

  // What one call observes of its surroundings.
  datatype Surroundings = Surroundings(
    balance: Option<real>, freeCollateral: real, gasOk: bool, authOk: bool, now: int)
  {
    function Today(): int {
      now / SECONDS_PER_DAY
    }
  }

  datatype World = World(book: Book, venue: Venue)

  // A call ends with a position, without one, or by an exception while reading an accepted reply.
  datatype Ending = Executed(usdc: real) | DryRun | Refused(why: Refusal) | LegFailed | Unhedging(usdc: real) | Raised

  datatype Refusal =
    | NotExecutable | Risk(reason: RiskReason) | NoAuth | NoGas | NoPrices | NoTokens | BadPrice | NoCollateral
    | PriceTooHigh

  function Clamp(cfg: Config, requested: real, freeCollateral: real): real {
    if freeCollateral <= 0.0 then requested else Min(requested, freeCollateral * cfg.safetyFraction)
  }

  function FillPrice(reply: ReplyPrice, limit: real): real {
    if reply.Number? then reply.price else limit
  }

  function Contracts(usdc: real, fillPrice: real): real {
    if fillPrice > 0.0 then usdc / fillPrice else 0.0
  }

  function NewPosition(b: Book, opp: Opportunity, legs: Legs, entryPrice: real, usdc: real, now: int,
                       status: Status, noToken: string, contracts: real): PositionRecord {
    PositionRecord(b.nextId, opp.conditionId, opp.strategy, legs, entryPrice, usdc, now, status, None,
                   opp.yesToken, noToken, None, None, None, None, None, contracts)
  }

  // Complete sets affordable with this size, and one leg's share of the size.
  function SharesFor(size: real, cost: real): real
    requires cost > 0.0
  {
    size / cost
  }

  function LegUsdc(shares: real, price: real): real {
    shares * price
  }

  // The NO leg, once the YES leg has filled: its failure leaves an unhedged YES position on record.
  function SecondLeg(cfg: Config, script: Script, b: Book, v: Venue, opp: Opportunity, shares: real, yesFill: real,
          now: int): (World, Ending) {
    var yesUsdc, noUsdc := LegUsdc(shares, opp.entryYes), LegUsdc(shares, opp.entryNo);
    var (no, after) := PlaceOrder(cfg, script, v, Leg(Buy, opp.noToken, noUsdc, opp.entryNo));
    if no.None? then
      (World(Add(b, NewPosition(b, opp, Yes, yesFill, yesUsdc, now, Unhedged, "", Contracts(yesUsdc, yesFill))), after),
       Unhedging(yesUsdc))
    else if no.value.Unparsable? then (World(b, after), Raised)
    else
      var entry := (yesFill + FillPrice(no.value, opp.entryNo)) / 2.0;
      (World(Add(b, NewPosition(b, opp, YesAndNo, entry, yesUsdc + noUsdc, now, Open, opp.noToken, shares)), after),
       Executed(yesUsdc + noUsdc))
  }

  // Buys the YES and NO legs of one market, each with its share of the trade size.
  function TwoLegs(cfg: Config, script: Script, w: World, opp: Opportunity, requested: real,
          env: Surroundings): (World, Ending) {
    var cost := opp.entryYes + opp.entryNo;
    if !env.gasOk then (w, Refused(NoGas))
    else if cost <= 0.0 then (w, Refused(NoPrices))
    else
      var size := Clamp(cfg, requested, env.freeCollateral);
      if size <= 0.0 then (w, Refused(NoCollateral))
      else
        var shares := SharesFor(size, cost);
        var (yes, v) := PlaceOrder(cfg, script, w.venue,
            Leg(Buy, opp.yesToken, LegUsdc(shares, opp.entryYes), opp.entryYes));
        if yes.None? then (World(w.book, v), LegFailed)
        else if yes.value.Unparsable? then (World(w.book, v), Raised)
        else SecondLeg(cfg, script, w.book, v, opp, shares, FillPrice(yes.value, opp.entryYes), env.now)
  }

  // Buys a single YES leg.
  function OneLeg(cfg: Config, script: Script, w: World, opp: Opportunity, legs: Legs, size: real,
          env: Surroundings): (World, Ending) {
    var (reply, v) := PlaceOrder(cfg, script, w.venue, Leg(Buy, opp.yesToken, size, opp.entryYes));
    if reply.None? then (World(w.book, v), LegFailed)
    else if reply.value.Unparsable? then (World(w.book, v), Raised)
    else
      var fill := FillPrice(reply.value, opp.entryYes);
      (World(Add(w.book, NewPosition(w.book, opp, legs, fill, size, env.now, Open, "", Contracts(size, fill))), v),
       Executed(size))
  }

  // Relative-value trades buy the lower-priced market only: the sell leg is disabled.
  function Correlated(cfg: Config, script: Script, w: World, opp: Opportunity, env: Surroundings): (World, Ending) {
    if !env.gasOk then (w, Refused(NoGas))
    else if opp.yesToken2 == "" || opp.yesToken == "" then (w, Refused(NoTokens))
    else if opp.entryYes <= 0.0 then (w, Refused(NoPrices))
    else if opp.entryYes >= 0.99 || opp.entryYes <= 0.01 then (w, Refused(BadPrice))
    else
      var size := Clamp(cfg, cfg.maxTradeUsdc, env.freeCollateral);
      if size <= 0.0 then (w, Refused(NoCollateral))
      else if opp.entryYes > 0.70 then (w, Refused(PriceTooHigh))
      else OneLeg(cfg, script, w, opp, BuyLow, size, env)
  }

  function Carry(cfg: Config, script: Script, w: World, opp: Opportunity, env: Surroundings): (World, Ending) {
    if !env.gasOk then (w, Refused(NoGas))
    else if opp.entryYes <= 0.0 || opp.entryYes >= 1.0 then (w, Refused(BadPrice))
    else
      var size := Clamp(cfg, Min(cfg.carryMaxUsdc, cfg.maxTradeUsdc), env.freeCollateral);
      if size <= 0.0 then (w, Refused(NoCollateral))
      else OneLeg(cfg, script, w, opp, Yes, size, env)
  }

  function Execute(cfg: Config, script: Script, paused: bool, w: World, opp: Opportunity,
          env: Surroundings): (World, Ending) {
    if opp.strategy == OtherStrategy then (w, Refused(NotExecutable))
    else
      var problem := RiskProblem(cfg, paused, w.book.records, opp, cfg.maxTradeUsdc, env.balance, env.Today());
      if problem.Some? then (w, Refused(Risk(problem.value)))
      else if cfg.dryRun then (w, DryRun)
      else if !env.authOk then (w, Refused(NoAuth))
      else
        match opp.strategy
        case OrderbookSpread => TwoLegs(cfg, script, w, opp, cfg.maxTradeUsdc, env)
        case Underround => TwoLegs(cfg, script, w, opp, Min(cfg.underroundMaxUsdc, cfg.maxTradeUsdc), env)
        case CorrelatedMarkets => Correlated(cfg, script, w, opp, env)
        case ResolutionCarry => Carry(cfg, script, w, opp, env)
  }

  // ----- The executor's methods -----

  ghost function WorldOf(ledger: PositionsLedger, exchange: Exchange): World
    reads ledger, exchange
  {
    World(ledger.Contents(), exchange.State())
  }

  // _execute_orderbook_spread and _execute_underround.
  method ExecuteTwoLegs(cfg: Config, opp: Opportunity, requested: real, env: Surroundings, ledger: PositionsLedger,
          exchange: Exchange)
    returns (ending: Ending)
    modifies ledger, exchange
    ensures (WorldOf(ledger, exchange), ending)
         == old(TwoLegs(cfg, exchange.script, WorldOf(ledger, exchange), opp, requested, env))
  {
    hide PlaceOrder, SharesFor, LegUsdc;
    if !env.gasOk {
      return Refused(NoGas);
    }
    var cost := opp.entryYes + opp.entryNo;
    if cost <= 0.0 {
      return Refused(NoPrices);
    }
    var size := Clamp(cfg, requested, env.freeCollateral);
    if size <= 0.0 {
      return Refused(NoCollateral);
    }
    var shares := SharesFor(size, cost);
    var yesUsdc, noUsdc := LegUsdc(shares, opp.entryYes), LegUsdc(shares, opp.entryNo);
    var yes := exchange.Place(cfg, Leg(Buy, opp.yesToken, yesUsdc, opp.entryYes));
    if yes.None? {
      return LegFailed;
    }
    if yes.value.Unparsable? {
      return Raised;
    }
    var yesFill := FillPrice(yes.value, opp.entryYes);
    var no := exchange.Place(cfg, Leg(Buy, opp.noToken, noUsdc, opp.entryNo));
    if no.None? {
      var unhedged := NewPosition(Book(ledger.records, ledger.log, ledger.nextId), opp, Yes, yesFill, yesUsdc, env.now,
                                  Unhedged, "", Contracts(yesUsdc, yesFill));
      ledger.AddRecord(unhedged);
      return Unhedging(yesUsdc);
    }
    if no.value.Unparsable? {
      return Raised;
    }
    var entry := (yesFill + FillPrice(no.value, opp.entryNo)) / 2.0;
    var position := NewPosition(Book(ledger.records, ledger.log, ledger.nextId), opp, YesAndNo, entry, yesUsdc + noUsdc,
                                env.now, Open, opp.noToken, shares);
    ledger.AddRecord(position);
    return Executed(yesUsdc + noUsdc);
  }

  method ExecuteOneLeg(cfg: Config, opp: Opportunity, legs: Legs, size: real, env: Surroundings,
          ledger: PositionsLedger, exchange: Exchange)
    returns (ending: Ending)
    modifies ledger, exchange
    ensures (WorldOf(ledger, exchange), ending)
         == old(OneLeg(cfg, exchange.script, WorldOf(ledger, exchange), opp, legs, size, env))
  {
    hide PlaceOrder;
    var reply := exchange.Place(cfg, Leg(Buy, opp.yesToken, size, opp.entryYes));
    if reply.None? {
      return LegFailed;
    }
    if reply.value.Unparsable? {
      return Raised;
    }
    var fill := FillPrice(reply.value, opp.entryYes);
    var position := NewPosition(Book(ledger.records, ledger.log, ledger.nextId), opp, legs, fill, size, env.now,
        Open, "",
                                Contracts(size, fill));
    ledger.AddRecord(position);
    return Executed(size);
  }

  method ExecuteCorrelated(cfg: Config, opp: Opportunity, env: Surroundings, ledger: PositionsLedger,
          exchange: Exchange)
    returns (ending: Ending)
    modifies ledger, exchange
    ensures (WorldOf(ledger, exchange), ending)
         == old(Correlated(cfg, exchange.script, WorldOf(ledger, exchange), opp, env))
  {
    hide OneLeg;
    if !env.gasOk {
      return Refused(NoGas);
    }
    if opp.yesToken2 == "" || opp.yesToken == "" {
      return Refused(NoTokens);
    }
    if opp.entryYes <= 0.0 {
      return Refused(NoPrices);
    }
    if opp.entryYes >= 0.99 || opp.entryYes <= 0.01 {
      return Refused(BadPrice);
    }
    var size := Clamp(cfg, cfg.maxTradeUsdc, env.freeCollateral);
    if size <= 0.0 {
      return Refused(NoCollateral);
    }
    if opp.entryYes > 0.70 {
      return Refused(PriceTooHigh);
    }
    ending := ExecuteOneLeg(cfg, opp, BuyLow, size, env, ledger, exchange);
  }

  method ExecuteCarry(cfg: Config, opp: Opportunity, env: Surroundings, ledger: PositionsLedger, exchange: Exchange)
    returns (ending: Ending)
    modifies ledger, exchange
    ensures (WorldOf(ledger, exchange), ending)
         == old(Carry(cfg, exchange.script, WorldOf(ledger, exchange), opp, env))
  {
    hide OneLeg;
    if !env.gasOk {
      return Refused(NoGas);
    }
    if opp.entryYes <= 0.0 || opp.entryYes >= 1.0 {
      return Refused(BadPrice);
    }
    var size := Clamp(cfg, Min(cfg.carryMaxUsdc, cfg.maxTradeUsdc), env.freeCollateral);
    if size <= 0.0 {
      return Refused(NoCollateral);
    }
    ending := ExecuteOneLeg(cfg, opp, Yes, size, env, ledger, exchange);
  }

  method ExecuteOpportunity(cfg: Config, opp: Opportunity, env: Surroundings, guard: RiskGuard, exchange: Exchange)
    returns (ending: Ending)
    requires guard.cfg == cfg
    modifies guard.ledger, exchange
    ensures (WorldOf(guard.ledger, exchange), ending)
         == old(Execute(cfg, exchange.script, guard.paused, WorldOf(guard.ledger, exchange), opp, env))
  {
    hide RiskProblem, TwoLegs, Correlated, Carry;
    if opp.strategy == OtherStrategy {
      return Refused(NotExecutable);
    }
    var problem := guard.Check(opp, cfg.maxTradeUsdc, env.balance, env.Today());
    if problem.Some? {
      return Refused(Risk(problem.value));
    }
    if cfg.dryRun {
      return DryRun;
    }
    if !env.authOk {
      return Refused(NoAuth);
    }
    match opp.strategy {
      case OrderbookSpread =>
        ending := ExecuteTwoLegs(cfg, opp, cfg.maxTradeUsdc, env, guard.ledger, exchange);
      case Underround =>
        ending := ExecuteTwoLegs(cfg, opp, Min(cfg.underroundMaxUsdc, cfg.maxTradeUsdc), env, guard.ledger, exchange);
      case CorrelatedMarkets =>
        ending := ExecuteCorrelated(cfg, opp, env, guard.ledger, exchange);
      case ResolutionCarry =>
        ending := ExecuteCarry(cfg, opp, env, guard.ledger, exchange);
      case OtherStrategy =>
        ending := Refused(NotExecutable);
    }
  }
}
