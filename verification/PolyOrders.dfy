/** When a call goes to the venue, what it orders there, and what it records about it. */
module PolyOrders {
  import opened Prelude
  import opened PolyPositions
  import opened Opportunities
  import opened PolyExecutor
  import opened PolyMonitor
  import opened PolyRuns

  // ----- The gates -----

  const RISK_CONDITIONS := 8

  // The conditions of the risk guard, in the order in which they are asked.
  ghost predicate RiskCondition(cfg: Config, paused: bool, records: seq<PositionRecord>, opp: Opportunity, size: real,
          balance: Option<real>, today: int, k: nat) {
    match k
    case 0 => !paused
    case 1 => balance.Some? ==> size <= balance.value
    case 2 => cfg.minEdgePct <= opp.edgePct
    case 3 => opp.confidence == Medium || opp.confidence == High
    case 4 => size <= cfg.maxTradeUsdc
    case 5 => ActiveCount(records) < cfg.maxPositions
    case 6 => -cfg.dailyLossLimit < DailyPnl(records, today)
    case 7 => cfg.minVolume24h <= opp.volume24h
    case _ => true
  }

  function RiskReasonAt(k: nat): RiskReason {
    match k
    case 0 => BotPaused
    case 1 => LowBalance
    case 2 => LowEdge
    case 3 => LowConfidence
    case 4 => TradeTooLarge
    case 5 => TooManyPositions
    case 6 => DailyLoss
    case _ => LowVolume
  }

  // The guard approves exactly when all eight conditions hold, and reports the first that fails.
  lemma RiskIff(cfg: Config, paused: bool, records: seq<PositionRecord>, opp: Opportunity, size: real,
          balance: Option<real>, today: int)
    ensures var problem := RiskProblem(cfg, paused, records, opp, size, balance, today);
      var c := (k: nat) => RiskCondition(cfg, paused, records, opp, size, balance, today, k);
      && (problem.None? <==> forall k: nat :: k < RISK_CONDITIONS ==> c(k))
      && forall k: nat :: k < RISK_CONDITIONS && !c(k) && (forall j: nat :: j < k ==> c(j)) ==>
           problem == Some(RiskReasonAt(k))
  {
    hide ActiveCount, DailyPnl;
    var c := (k: nat) => RiskCondition(cfg, paused, records, opp, size, balance, today, k);
    assert (forall k: nat :: k < RISK_CONDITIONS ==> c(k))
        <==> c(0) && c(1) && c(2) && c(3) && c(4) && c(5) && c(6) && c(7);
  }

  // Only records that were opened today and have been closed or resolved count towards today's P&L.
  lemma DailyPnlCounts(records: seq<PositionRecord>, r: PositionRecord, today: int)
    ensures DailyPnl([], today) == 0.0
    ensures DailyPnl(records + [r], today) - DailyPnl(records, today)
         == if r.status in {Closed, Resolved} && today * 86_400 <= r.openedAt < (today + 1) * 86_400 && r.pnl.Some?
            then r.pnl.value else 0.0
  {
    assert (records + [r])[..|records|] == records;
  }

  // What a call is allowed to spend on this opportunity.
  ghost predicate TradeSize(cfg: Config, opp: Opportunity, env: Surroundings, size: real) {
    var cap := if opp.strategy == Underround then cfg.underroundMaxUsdc
      else if opp.strategy == ResolutionCarry then cfg.carryMaxUsdc else cfg.maxTradeUsdc;
    var asked := if cap < cfg.maxTradeUsdc then cap else cfg.maxTradeUsdc;
    var safe := env.freeCollateral * cfg.safetyFraction;
    size == if env.freeCollateral > 0.0 && safe < asked then safe else asked
  }

  const CALL_CONDITIONS := 12

  // The conditions of a call, in the order in which they are asked; each strategy asks its own.
  ghost predicate CallCondition(cfg: Config, paused: bool, w: World, opp: Opportunity, env: Surroundings, size: real,
          k: nat) {
    var pair, low, carry := opp.strategy in {OrderbookSpread, Underround}, opp.strategy == CorrelatedMarkets,
        opp.strategy == ResolutionCarry;
    match k
    case 0 => pair || low || carry
    case 1 => RiskProblem(cfg, paused, w.book.records, opp, cfg.maxTradeUsdc, env.balance, env.now / 86_400).None?
    case 2 => !cfg.dryRun
    case 3 => env.authOk
    case 4 => env.gasOk
    case 5 => pair ==> opp.entryYes + opp.entryNo > 0.0
    case 6 => low ==> opp.yesToken != "" && opp.yesToken2 != ""
    case 7 => low ==> opp.entryYes > 0.0
    case 8 => low ==> 0.01 < opp.entryYes < 0.99
    case 9 => carry ==> 0.0 < opp.entryYes < 1.0
    case 10 => size > 0.0
    case 11 => low ==> opp.entryYes <= 0.7
    case _ => true
  }

  // How a call is refused when condition k is the first that fails.
  function RefusalAt(cfg: Config, paused: bool, w: World, opp: Opportunity, env: Surroundings, k: nat): Ending {
    match k
    case 0 => Refused(NotExecutable)
    case 1 =>
      Refused(Risk(RiskProblem(cfg, paused, w.book.records, opp, cfg.maxTradeUsdc, env.balance, env.now / 86_400)
                     .GetOr(BotPaused)))
    case 2 => DryRun
    case 3 => Refused(NoAuth)
    case 4 => Refused(NoGas)
    case 5 => Refused(NoPrices)
    case 6 => Refused(NoTokens)
    case 7 => Refused(NoPrices)
    case 8 => Refused(BadPrice)
    case 9 => Refused(BadPrice)
    case 10 => Refused(NoCollateral)
    case _ => Refused(PriceTooHigh)
  }

  lemma SizeIsClamp(cfg: Config, opp: Opportunity, env: Surroundings, size: real)
    requires TradeSize(cfg, opp, env, size)
    ensures opp.strategy in {OrderbookSpread, CorrelatedMarkets} ==>
              size == Clamp(cfg, cfg.maxTradeUsdc, env.freeCollateral)
    ensures opp.strategy == Underround ==>
              size == Clamp(cfg, Min(cfg.underroundMaxUsdc, cfg.maxTradeUsdc), env.freeCollateral)
    ensures opp.strategy == ResolutionCarry ==>
              size == Clamp(cfg, Min(cfg.carryMaxUsdc, cfg.maxTradeUsdc), env.freeCollateral)
  {
  }

  // A call is refused with the reason of its first condition that fails, and then changes nothing.
  lemma RefusedAt(cfg: Config, script: Script, paused: bool, w: World, opp: Opportunity, env: Surroundings, size: real,
          k: nat)
    requires TradeSize(cfg, opp, env, size) && k < CALL_CONDITIONS
    requires !CallCondition(cfg, paused, w, opp, env, size, k)
    requires forall j: nat :: j < k ==> CallCondition(cfg, paused, w, opp, env, size, j)
    ensures Execute(cfg, script, paused, w, opp, env) == (w, RefusalAt(cfg, paused, w, opp, env, k))
  {
    hide RiskProblem, OneLeg, SecondLeg, PlaceOrder, Clamp, TradeSize;
    SizeIsClamp(cfg, opp, env, size);
    var c := (j: nat) => CallCondition(cfg, paused, w, opp, env, size, j);
    assert forall j: nat :: j < k ==> c(j);
    assert (k > 0 ==> c(0)) && (k > 1 ==> c(1)) && (k > 2 ==> c(2)) && (k > 3 ==> c(3)) && (k > 4 ==> c(4))
      && (k > 5 ==> c(5)) && (k > 6 ==> c(6)) && (k > 7 ==> c(7)) && (k > 8 ==> c(8)) && (k > 9 ==> c(9))
      && (k > 10 ==> c(10));
  }

  // ----- One order at the venue -----

  // The venue accepts an order at some attempt, after errors that are worth retrying, and answers with
  // this price to pay; None when the price cannot be read.
  ghost predicate AcceptedAt(cfg: Config, script: Script, from: nat, at: nat, limit: real, paid: Option<real>) {
    && from <= at <= from + cfg.maxRetries
    && (forall j :: from <= j < at ==> script(j).Transient?)
    && script(at).Accept?
    && paid == match script(at).price
               case Missing => Some(limit)
               case Number(price) => Some(price)
               case Unparsable => None
  }

  function PaidFor(reply: ReplyPrice, limit: real): Option<real> {
    if reply.Unparsable? then None else Some(FillPrice(reply, limit))
  }

  lemma {:induction false} PostAcceptedAt(cfg: Config, script: Script, v: Venue, leg: Leg, tries: nat)
    requires tries <= cfg.maxRetries + 1
    ensures var (reply, after) := Post(script, v, leg, tries);
      && v.cursor <= after.cursor <= v.cursor + tries
      && (if reply.Some? then
            && v.cursor < after.cursor && AcceptedAt(cfg, script, v.cursor, after.cursor - 1, leg.price,
                                                     PaidFor(reply.value, leg.price))
            && after.accepted == v.accepted + [leg]
          else
            && after.accepted == v.accepted
            && forall at :: v.cursor <= at < v.cursor + tries && script(at).Accept? ==>
                 exists j :: v.cursor <= j < at && script(j).Fatal?)
    decreases tries
  {
    if tries > 0 && script(v.cursor).Transient? {
      PostAcceptedAt(cfg, script, Venue(v.cursor + 1, v.accepted), leg, tries - 1);
    }
  }

  // An order is accepted exactly when it has a price and, within the allowed attempts, the venue accepts
  // it before any fatal error.
  lemma PlacedIff(cfg: Config, script: Script, v: Venue, leg: Leg)
    ensures var (reply, after) := PlaceOrder(cfg, script, v, leg);
      && (reply.Some? <==> leg.price != 0.0 && exists at, paid ::
            AcceptedAt(cfg, script, v.cursor, at, leg.price, paid))
      && (if reply.Some? then
            && v.cursor < after.cursor
            && AcceptedAt(cfg, script, v.cursor, after.cursor - 1, leg.price, PaidFor(reply.value, leg.price))
            && after.accepted == v.accepted + [leg]
          else after.accepted == v.accepted)
  {
    hide Post;
    PostAcceptedAt(cfg, script, v, leg, cfg.maxRetries + 1);
  }

  // ----- What a call orders -----

  // n complete sets of the two tokens for this size, each leg ordered at its own price.
  ghost predicate SetsFor(opp: Opportunity, size: real, n: real) {
    n * (opp.entryYes + opp.entryNo) == size
  }

  function YesLeg(opp: Opportunity, n: real): Leg {
    Leg(Buy, opp.yesToken, n * opp.entryYes, opp.entryYes)
  }

  function NoLeg(opp: Opportunity, n: real): Leg {
    Leg(Buy, opp.noToken, n * opp.entryNo, opp.entryNo)
  }

  // The record that a call appends to the ledger.
  ghost predicate Recorded(w: World, u: World, opp: Opportunity, now: int, r: PositionRecord, legs: Legs, entry: real,
          usdc: real, status: Status, noToken: string, contracts: real) {
    && u.book == Book(w.book.records + [r], w.book.log + [LogLine(w.book.nextId, status)], w.book.nextId + 1)
    && r.id == w.book.nextId && r.conditionId == opp.conditionId && r.strategy == opp.strategy && r.legs == legs
    && r.entryPrice == entry && r.sizeUsdc == usdc && r.openedAt == now && r.status == status && r.pnl == None
    && r.yesToken == opp.yesToken && r.noToken == noToken && r.endDate == None && r.exitPrice == None
    && r.closedAt == None && r.unrealizedPnl == None && r.unrealizedPct == None && r.contracts == contracts
  }

  // Contracts got for this much at this price.
  ghost predicate ContractsGot(usdc: real, paid: real, contracts: real) {
    if paid > 0.0 then contracts * paid == usdc else contracts == 0.0
  }

  // Both legs are ordered for n sets, the YES leg first, and a pair of n contracts is recorded at the
  // mean of the two prices paid.
  ghost predicate PairOrdered(cfg: Config, script: Script, w: World, u: World, opp: Opportunity, size: real, now: int,
          n: real, first: nat, yesPaid: real, noPaid: real, r: PositionRecord) {
    && SetsFor(opp, size, n)
    && u.venue.accepted == w.venue.accepted + [YesLeg(opp, n), NoLeg(opp, n)]
    && AcceptedAt(cfg, script, w.venue.cursor, first, opp.entryYes, Some(yesPaid))
    && first + 1 < u.venue.cursor
    && AcceptedAt(cfg, script, first + 1, u.venue.cursor - 1, opp.entryNo, Some(noPaid))
    && Recorded(w, u, opp, now, r, YesAndNo, (yesPaid + noPaid) / 2.0, YesLeg(opp, n).usdc + NoLeg(opp, n).usdc, Open,
                opp.noToken, n)
  }

  // The YES leg alone is ordered for n sets, and recorded unhedged.
  ghost predicate YesOrdered(cfg: Config, script: Script, w: World, u: World, opp: Opportunity, size: real, now: int,
          n: real, first: nat, paid: real, contracts: real, r: PositionRecord) {
    && SetsFor(opp, size, n)
    && u.venue.accepted == w.venue.accepted + [YesLeg(opp, n)]
    && AcceptedAt(cfg, script, w.venue.cursor, first, opp.entryYes, Some(paid))
    && ContractsGot(YesLeg(opp, n).usdc, paid, contracts)
    && Recorded(w, u, opp, now, r, Yes, paid, YesLeg(opp, n).usdc, Unhedged, "", contracts)
  }

  // One leg is ordered for the whole size, and recorded.
  ghost predicate SingleOrdered(cfg: Config, script: Script, w: World, u: World, opp: Opportunity, legs: Legs,
          size: real, now: int, paid: real, contracts: real, r: PositionRecord) {
    && u.venue.accepted == w.venue.accepted + [Leg(Buy, opp.yesToken, size, opp.entryYes)]
    && w.venue.cursor < u.venue.cursor
    && AcceptedAt(cfg, script, w.venue.cursor, u.venue.cursor - 1, opp.entryYes, Some(paid))
    && ContractsGot(size, paid, contracts)
    && Recorded(w, u, opp, now, r, legs, paid, size, Open, "", contracts)
  }

  lemma ContractsOf(usdc: real, paid: real)
    ensures ContractsGot(usdc, paid, Contracts(usdc, paid))
  {
    if paid > 0.0 {
      DivMul(usdc, paid);
    }
  }

  lemma AddRecords(w: World, opp: Opportunity, legs: Legs, entry: real, usdc: real, now: int, status: Status,
          noToken: string, contracts: real, v: Venue)
    ensures var r := NewPosition(w.book, opp, legs, entry, usdc, now, status, noToken, contracts);
      Recorded(w, World(Add(w.book, r), v), opp, now, r, legs, entry, usdc, status, noToken, contracts)
  {
  }

  lemma SingleOrders(cfg: Config, script: Script, w: World, opp: Opportunity, legs: Legs, size: real,
          env: Surroundings) returns (paid: real, contracts: real, r: PositionRecord)
    requires OneLeg(cfg, script, w, opp, legs, size, env).1.Executed?
    ensures SingleOrdered(cfg, script, w, OneLeg(cfg, script, w, opp, legs, size, env).0, opp, legs, size, env.now,
                          paid, contracts, r)
  {
    hide PlaceOrder, AcceptedAt, Contracts, ContractsGot, NewPosition, Add, Recorded;
    var leg := Leg(Buy, opp.yesToken, size, opp.entryYes);
    PlacedIff(cfg, script, w.venue, leg);
    var (reply, v) := PlaceOrder(cfg, script, w.venue, leg);
    paid := FillPrice(reply.value, opp.entryYes);
    contracts := Contracts(size, paid);
    ContractsOf(size, paid);
    r := NewPosition(w.book, opp, legs, paid, size, env.now, Open, "", contracts);
    AddRecords(w, opp, legs, paid, size, env.now, Open, "", contracts, v);
  }

  lemma SetsOf(opp: Opportunity, size: real)
    requires opp.entryYes + opp.entryNo > 0.0
    ensures var n := SharesFor(size, opp.entryYes + opp.entryNo);
      && SetsFor(opp, size, n)
      && YesLeg(opp, n) == Leg(Buy, opp.yesToken, LegUsdc(n, opp.entryYes), opp.entryYes)
      && NoLeg(opp, n) == Leg(Buy, opp.noToken, LegUsdc(n, opp.entryNo), opp.entryNo)
  {
    DivMul(size, opp.entryYes + opp.entryNo);
  }

  // The first of two legs was accepted with a readable price.
  lemma FirstLegFilled(cfg: Config, script: Script, w: World, opp: Opportunity, requested: real, env: Surroundings)
    requires TwoLegs(cfg, script, w, opp, requested, env).1.Executed?
        || TwoLegs(cfg, script, w, opp, requested, env).1.Unhedging?
    ensures var size := Clamp(cfg, requested, env.freeCollateral);
      && opp.entryYes + opp.entryNo > 0.0
      && var n := SharesFor(size, opp.entryYes + opp.entryNo);
      && var (yes, v) := PlaceOrder(cfg, script, w.venue, YesLeg(opp, n));
      && yes.Some? && !yes.value.Unparsable?
      && TwoLegs(cfg, script, w, opp, requested, env)
         == SecondLeg(cfg, script, w.book, v, opp, n, FillPrice(yes.value, opp.entryYes), env.now)
  {
    hide PlaceOrder, SecondLeg, SharesFor, LegUsdc, Clamp, YesLeg, NoLeg, SetsFor;
    assert opp.entryYes + opp.entryNo > 0.0;
    SetsOf(opp, Clamp(cfg, requested, env.freeCollateral));
    var n := SharesFor(Clamp(cfg, requested, env.freeCollateral), opp.entryYes + opp.entryNo);
    var (yes, v) := PlaceOrder(cfg, script, w.venue, Leg(Buy, opp.yesToken, LegUsdc(n, opp.entryYes), opp.entryYes));
    assert yes.Some? && !yes.value.Unparsable?;
  }

  lemma PairOrders(cfg: Config, script: Script, w: World, opp: Opportunity, requested: real, env: Surroundings)
    returns (n: real, first: nat, yesPaid: real, noPaid: real, r: PositionRecord)
    requires TwoLegs(cfg, script, w, opp, requested, env).1.Executed?
    ensures PairOrdered(cfg, script, w, TwoLegs(cfg, script, w, opp, requested, env).0, opp,
                        Clamp(cfg, requested, env.freeCollateral), env.now, n, first, yesPaid, noPaid, r)
  {
    hide PlaceOrder, SharesFor, LegUsdc, YesLeg, NoLeg, SetsFor, AcceptedAt, NewPosition, Add, Recorded, TwoLegs, Clamp;
    var size := Clamp(cfg, requested, env.freeCollateral);
    FirstLegFilled(cfg, script, w, opp, requested, env);
    n := SharesFor(size, opp.entryYes + opp.entryNo);
    SetsOf(opp, size);
    PlacedIff(cfg, script, w.venue, YesLeg(opp, n));
    var (yes, v) := PlaceOrder(cfg, script, w.venue, YesLeg(opp, n));
    PlacedIff(cfg, script, v, NoLeg(opp, n));
    var no := PlaceOrder(cfg, script, v, NoLeg(opp, n)).0;
    first, yesPaid, noPaid := v.cursor - 1, FillPrice(yes.value, opp.entryYes), FillPrice(no.value, opp.entryNo);
    var entry, usdc := (yesPaid + noPaid) / 2.0, YesLeg(opp, n).usdc + NoLeg(opp, n).usdc;
    r := NewPosition(w.book, opp, YesAndNo, entry, usdc, env.now, Open, opp.noToken, n);
    AddRecords(w, opp, YesAndNo, entry, usdc, env.now, Open, opp.noToken, n,
               TwoLegs(cfg, script, w, opp, requested, env).0.venue);
    assert w.venue.accepted + [YesLeg(opp, n)] + [NoLeg(opp, n)]
        == w.venue.accepted + [YesLeg(opp, n), NoLeg(opp, n)];
  }

  lemma YesOrders(cfg: Config, script: Script, w: World, opp: Opportunity, requested: real, env: Surroundings)
    returns (n: real, first: nat, paid: real, contracts: real, r: PositionRecord)
    requires TwoLegs(cfg, script, w, opp, requested, env).1.Unhedging?
    ensures YesOrdered(cfg, script, w, TwoLegs(cfg, script, w, opp, requested, env).0, opp,
                       Clamp(cfg, requested, env.freeCollateral), env.now, n, first, paid, contracts, r)
  {
    hide PlaceOrder, SharesFor, LegUsdc, YesLeg, NoLeg, SetsFor, AcceptedAt, NewPosition, Add, Recorded, TwoLegs, Clamp,
        Contracts, ContractsGot;
    var size := Clamp(cfg, requested, env.freeCollateral);
    FirstLegFilled(cfg, script, w, opp, requested, env);
    n := SharesFor(size, opp.entryYes + opp.entryNo);
    SetsOf(opp, size);
    PlacedIff(cfg, script, w.venue, YesLeg(opp, n));
    var (yes, v) := PlaceOrder(cfg, script, w.venue, YesLeg(opp, n));
    PlacedIff(cfg, script, v, NoLeg(opp, n));
    var usdc := YesLeg(opp, n).usdc;
    first, paid := v.cursor - 1, FillPrice(yes.value, opp.entryYes);
    contracts := Contracts(usdc, paid);
    ContractsOf(usdc, paid);
    r := NewPosition(w.book, opp, Yes, paid, usdc, env.now, Unhedged, "", contracts);
    AddRecords(w, opp, Yes, paid, usdc, env.now, Unhedged, "", contracts,
               TwoLegs(cfg, script, w, opp, requested, env).0.venue);
  }

  // The legs of a record of a single leg: a relative-value trade holds the lower market's YES token.
  function SingleLegs(opp: Opportunity): Legs {
    if opp.strategy == CorrelatedMarkets then BuyLow else Yes
  }

  // What a call that ends with a record has ordered, whatever the strategy.
  ghost predicate Ordered(cfg: Config, script: Script, w: World, u: World, opp: Opportunity, size: real, now: int,
          ending: Ending) {
    if ending.Unhedging? then
      && opp.strategy in {OrderbookSpread, Underround}
      && exists n, first, paid, contracts, r ::
           YesOrdered(cfg, script, w, u, opp, size, now, n, first, paid, contracts, r)
    else if opp.strategy in {OrderbookSpread, Underround} then
      exists n, first, yesPaid, noPaid, r ::
        PairOrdered(cfg, script, w, u, opp, size, now, n, first, yesPaid, noPaid, r)
    else
      exists paid, contracts, r ::
        SingleOrdered(cfg, script, w, u, opp, SingleLegs(opp), size, now, paid, contracts, r)
  }

  // A call that passes all conditions places its orders, and what it records is what it ordered.
  lemma CallOrders(cfg: Config, script: Script, paused: bool, w: World, opp: Opportunity, env: Surroundings, size: real)
    requires TradeSize(cfg, opp, env, size)
    ensures var (u, ending) := Execute(cfg, script, paused, w, opp, env);
      && (ending.Executed? || ending.Unhedging? ==> Ordered(cfg, script, w, u, opp, size, env.now, ending))
      && ((ending.Executed? || ending.Unhedging? || ending.LegFailed? || ending.Raised?)
          <==> forall k: nat :: k < CALL_CONDITIONS ==> CallCondition(cfg, paused, w, opp, env, size, k))
  {
    SizeIsClamp(cfg, opp, env, size);
    ReachesVenue(cfg, script, paused, w, opp, env, size);
    hide Execute, TwoLegs, OneLeg, Clamp, TradeSize, PairOrdered, YesOrdered, SingleOrdered, CallCondition;
    var (u, ending) := Execute(cfg, script, paused, w, opp, env);
    if ending.Executed? || ending.Unhedging? {
      Dispatched(cfg, script, paused, w, opp, env, size);
      OneLegNeverUnhedged(cfg, script, w, opp, size, env);
      var requested := Requested(cfg, opp);
      if opp.strategy in {CorrelatedMarkets, ResolutionCarry} {
        var paid, contracts, r := SingleOrders(cfg, script, w, opp, SingleLegs(opp), size, env);
      } else if ending.Executed? {
        var n, first, yesPaid, noPaid, r := PairOrders(cfg, script, w, opp, requested, env);
      } else {
        var n, first, paid, contracts, r := YesOrders(cfg, script, w, opp, requested, env);
      }
    }
  }

  function Requested(cfg: Config, opp: Opportunity): real {
    if opp.strategy == Underround then Min(cfg.underroundMaxUsdc, cfg.maxTradeUsdc) else cfg.maxTradeUsdc
  }

  lemma OneLegNeverUnhedged(cfg: Config, script: Script, w: World, opp: Opportunity, size: real, env: Surroundings)
    ensures !OneLeg(cfg, script, w, opp, BuyLow, size, env).1.Unhedging?
    ensures !OneLeg(cfg, script, w, opp, Yes, size, env).1.Unhedging?
  {
    hide PlaceOrder, Contracts, NewPosition;
  }

  // Which strategy's orders a call that ends with a record has placed.
  lemma Dispatched(cfg: Config, script: Script, paused: bool, w: World, opp: Opportunity, env: Surroundings, size: real)
    requires TradeSize(cfg, opp, env, size)
    requires Execute(cfg, script, paused, w, opp, env).1.Executed?
        || Execute(cfg, script, paused, w, opp, env).1.Unhedging?
    ensures opp.strategy != OtherStrategy
    ensures Execute(cfg, script, paused, w, opp, env)
         == match opp.strategy
            case CorrelatedMarkets => OneLeg(cfg, script, w, opp, BuyLow, size, env)
            case ResolutionCarry => OneLeg(cfg, script, w, opp, Yes, size, env)
            case _ => TwoLegs(cfg, script, w, opp, Requested(cfg, opp), env)
  {
    SizeIsClamp(cfg, opp, env, size);
    hide RiskProblem, OneLeg, TwoLegs, Clamp, TradeSize;
  }

  lemma ReachesVenue(cfg: Config, script: Script, paused: bool, w: World, opp: Opportunity, env: Surroundings,
          size: real)
    requires TradeSize(cfg, opp, env, size)
    ensures Execute(cfg, script, paused, w, opp, env).1 in {LegFailed, Raised}
            || Execute(cfg, script, paused, w, opp, env).1.Executed?
            || Execute(cfg, script, paused, w, opp, env).1.Unhedging?
            <==> forall k: nat :: k < CALL_CONDITIONS ==> CallCondition(cfg, paused, w, opp, env, size, k)
  {
    hide RiskProblem, PlaceOrder, Clamp, TradeSize, Contracts, NewPosition, LegUsdc, SharesFor;
    SizeIsClamp(cfg, opp, env, size);
    var c := (j: nat) => CallCondition(cfg, paused, w, opp, env, size, j);
    assert (forall k: nat :: k < CALL_CONDITIONS ==> c(k))
        <==> c(0) && c(1) && c(2) && c(3) && c(4) && c(5) && c(6) && c(7) && c(8) && c(9) && c(10) && c(11);
  }
}
