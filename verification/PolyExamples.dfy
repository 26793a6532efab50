/** Small desks on which the failing side of each exact condition is reached. */
module PolyExamples {
  import opened Prelude
  import opened PolyPositions
  import opened Opportunities
  import opened PolyExecutor
  import opened PolyMonitor
  import opened PolyRuns
  import opened PolyPayoff
  import opened PolyBuyLow
  import opened PolyClosing
  import opened PolySales
  import opened PolyLockUp

  // One position at most, 10 USDC a trade, one attempt an order, one hour of holding.
  const CFG := Config(10.0, 1, 100.0, 1.0, 0.0, 0, false, 1.0, 10.0, 10.0, 50.0, 50.0, 1, 0)

  const SURROUNDINGS := Surroundings(None, 0.0, true, true, 0)

  function SpreadTrade(yes: real, no: real): Opportunity {
    Opportunity(OrderbookSpread, 5.0, High, "c", "yes", "no", "", yes, no, 1000.0)
  }

  function SpreadRecord(legs: Legs, entry: real, usdc: real, status: Status, contracts: real): PositionRecord {
    PositionRecord(0, "c", OrderbookSpread, legs, entry, usdc, 0, status, None, "yes",
                   if legs == Yes then "" else "no", None, None, None, None, None, contracts)
  }

  lemma FirstAttempt(script: Script, v: Venue, leg: Leg)
    requires leg.price != 0.0
    ensures PlaceOrder(CFG, script, v, leg)
         == match script(v.cursor)
            case Accept(price) => (Some(price), Venue(v.cursor + 1, v.accepted + [leg]))
            case _ => (None, Venue(v.cursor + 1, v.accepted))
  {
  }

  // A spread at these prices passes every gate and buys both legs, the YES leg first.
  lemma SpreadStarts(script: Script, yes: real, no: real)
    requires yes + no > 0.0
    ensures Desk(CFG, script, []).At(0) == World(Book([], [], 0), Venue(0, []))
    ensures Execute(CFG, script, false, World(Book([], [], 0), Venue(0, [])), SpreadTrade(yes, no), SURROUNDINGS)
         == TwoLegs(CFG, script, World(Book([], [], 0), Venue(0, [])), SpreadTrade(yes, no), 10.0, SURROUNDINGS)
  {
    hide TwoLegs;
  }

  // ----- Bought off the books -----

  // One relative-value trade of 10 USDC at 0.50, and the record it leaves.
  function RelativeValueTrade(): Opportunity {
    Opportunity(CorrelatedMarkets, 5.0, High, "c", "low", "", "high", 0.5, 0.6, 1000.0)
  }

  function TradeRecord(status: Status): PositionRecord {
    PositionRecord(0, "c", CorrelatedMarkets, BuyLow, 0.5, 10.0, 0, status, None, "low", "", None, None, None, None,
        None, 20.0)
  }

  // The relative-value trade, accepted with a price that cannot be read.
  function GarbledDesk(): Desk {
    Desk(CFG, (attempt: nat) => Accept(Unparsable), [Call(false, RelativeValueTrade(), SURROUNDINGS)])
  }

  // The call ends by an exception, 10 USDC are spent and the ledger stays empty.
  lemma BoughtOffTheBooks()
    ensures var d := GarbledDesk();
      && d.Valid() && d.EndingOf(0) == Some(Raised)
      && d.At(1).book.records == [] && OffTheBooks(d.At(1)) == 10.0
  {
    var d := GarbledDesk();
    var leg := Leg(Buy, "low", 10.0, 0.5);
    FirstAttempt(d.script, Venue(0, []), leg);
    hide PlaceOrder;
    UnfoldDesk(d, 1);
    assert d.At(1).venue.accepted == [leg];
    BoughtAppend([], leg);
    assert [] + [leg] == [leg];
  }

  // ----- The stuck unhedged leg -----

  // The YES leg fills, the NO leg is refused, and YES wins.
  function StuckDesk(): Desk {
    Desk(CFG, (attempt: nat) => if attempt == 0 then Accept(Missing) else Fatal,
         [Call(false, SpreadTrade(0.4, 0.4), SURROUNDINGS),
          Observe(SpreadRecord(Yes, 0.4, 5.0, Unhedged, 12.5),
                  Tick(Some(1.0), Some(0.0), Some(MarketDetail(true, YesWon, NotSupplied)), Some((1.0, 0.0)), 7200))])
  }

  lemma StuckDeskBuys()
    ensures StuckDesk().At(1).book.records == [SpreadRecord(Yes, 0.4, 5.0, Unhedged, 12.5)]
    ensures UniqueIds(StuckDesk().At(1).book)
  {
    var d := StuckDesk();
    var yes, no := Leg(Buy, "yes", 5.0, 0.4), Leg(Buy, "no", 5.0, 0.4);
    FirstAttempt(d.script, Venue(0, []), yes);
    FirstAttempt(d.script, Venue(1, [yes]), no);
    assert [] + [yes] == [yes];
    SpreadStarts(d.script, 0.4, 0.4);
    hide PlaceOrder, Execute;
    UnfoldDesk(d, 1);
    assert SharesFor(10.0, 0.8) == 12.5 && LegUsdc(12.5, 0.4) == 5.0 && Contracts(5.0, 0.4) == 12.5;
  }

  // The winning leg is worth 12.5 against a cost of 5, but the record of the resolved market stays
  // unhedged, without a P&L, in the only slot of the desk.
  lemma WinningLegStaysUnhedged()
    ensures var d := StuckDesk();
      && d.Valid() && HonestSnapshots(d)
      && |d.At(2).book.records| == 1 && d.At(2).book.records[0].status == Unhedged
          && d.At(2).book.records[0].pnl == None
      && ActiveCount(d.At(2).book.records) == d.cfg.maxPositions
      && Payout(Yes, YesWon, d.At(2).book.records[0].contracts) == 12.5
  {
    var d := StuckDesk();
    StuckDeskBuys();
    hide Desk.At;
    assert TakenFromLedger(d, 1, 1, 0);
    UnfoldDesk(d, 2);
    var a := d.actions[1];
    ResolvedMarketBlocks(d.cfg, d.script, d.At(1), 0, a.snapshot, a.tick);
    MonitorTouchesOne(d.cfg, d.script, d.At(1), a.snapshot, a.tick);
    var records := d.At(2).book.records;
    hide MonitorOne;
    assert records[..0] == [];
    assert ActiveCount(records) == ActiveCount(records[..0]) + 1;
  }

  // ----- A desk that locks up -----

  // With a position cap of one: the trade, then a monitor step after the maximum holding time.
  function LockedDesk(): Desk {
    Desk(CFG, (attempt: nat) => Accept(Missing),
         [Call(false, RelativeValueTrade(), SURROUNDINGS),
          Observe(TradeRecord(Open), Tick(None, None, None, Some((0.5, 0.5)), 3600))])
  }

  lemma LockedDeskBuys()
    ensures LockedDesk().At(1).book == Book([TradeRecord(Open)], [LogLine(0, Open)], 1)
  {
    var d := LockedDesk();
    var leg := Leg(Buy, "low", 10.0, 0.5);
    assert d.At(0) == World(Book([], [], 0), Venue(0, []));
    var none: seq<Leg> := [];
    assert none + [leg] == [leg];
    assert d.script(0) == Accept(Missing);
    assert Post(d.script, Venue(0, none), leg, 1) == (Some(Missing), Venue(1, [leg]));
    assert Contracts(10.0, 0.5) == 20.0;
    hide PlaceOrder, Contracts;
  }

  lemma LockedDeskCloses()
    ensures LockedDesk().At(2).book.records
         == [TradeRecord(Closing).(unrealizedPnl := Some(Round4(0.0)), unrealizedPct := Some(Round4(0.0)))]
  {
    hide Round4;
    LockedDeskBuys();
    var d := LockedDesk();
    var p := TradeRecord(Open);
    hide Desk.At;
    assert d.At(2) == Next(d.cfg, d.script, d.At(1), d.actions[1]).0 by {
      UnfoldDesk(d, 2);
    }
  }

  // Two actions are enough to lock up a desk whose cap is one position.
  lemma DeskCanLockUp()
    ensures var d := LockedDesk();
      d.Valid() && HonestSnapshots(d) && StuckCount(d.cfg, d.At(2).book.records) >= d.cfg.maxPositions
      && !CanTradeAgain(d.cfg, d.At(2))
  {
    var d := LockedDesk();
    LockedDeskBuys();
    LockedDeskCloses();
    hide Desk.At;
    assert TakenFromLedger(d, 1, 1, 0);
    var stuck := d.At(2).book.records;
    assert Stuck(d.cfg, stuck[0]) && stuck[..0] == [];
    assert StuckCount(d.cfg, stuck) == 1;
    DeskTradesAgainIff(d, 2);
  }

  // The 20 tokens bought for 10 USDC pay 20 when their outcome wins, but they are marked at no gain and
  // settled at a loss of 10.
  lemma BuyLowMarkedAboveSettlement()
    ensures LockedDesk().At(1).book.records == [TradeRecord(Open)]
    ensures ComputeUnrealized(TradeRecord(Open), SettledBids(YesWon).0, SettledBids(YesWon).1).0 == 0.0
    ensures TokensPay(TradeRecord(Open), YesWon) == 20.0 && ResolutionPnl(TradeRecord(Open), YesWon) == -10.0
  {
    LockedDeskBuys();
    hide Desk.At;
  }

  // ----- The half-sold pair -----

  const PAIR := SpreadRecord(YesAndNo, 0.4, 10.0, Open, 12.5)

  const BIDS := (0.41, 0.41)

  // Both legs fill at 0.40 each, and the monitor then observes this.
  function PairDesk(t: Tick): Desk {
    Desk(CFG, (attempt: nat) => Accept(Missing), [Call(false, SpreadTrade(0.4, 0.4), SURROUNDINGS), Observe(PAIR, t)])
  }

  lemma PairDeskBuys(t: Tick)
    ensures PairDesk(t).At(1).book == Book([PAIR], [LogLine(0, Open)], 1) && |PairDesk(t).At(1).venue.accepted| == 2
    ensures PairDesk(t).Valid() && HonestSnapshots(PairDesk(t))
  {
    var d := PairDesk(t);
    var yes, no := Leg(Buy, "yes", 5.0, 0.4), Leg(Buy, "no", 5.0, 0.4);
    FirstAttempt(d.script, Venue(0, []), yes);
    FirstAttempt(d.script, Venue(1, [yes]), no);
    assert [] + [yes] == [yes];
    SpreadStarts(d.script, 0.4, 0.4);
    hide PlaceOrder, Execute;
    UnfoldDesk(d, 1);
    assert SharesFor(10.0, 0.8) == 12.5 && LegUsdc(12.5, 0.4) == 5.0;
    hide Desk.At;
    assert TakenFromLedger(d, 1, 1, 0);
  }

  // Selling the pair sells 6.25 of each outcome at 0.40.
  lemma PairSells(script: Script, v: Venue)
    requires forall attempt: nat :: script(attempt) == Accept(Missing)
    ensures ContractsPerLeg(PAIR, 2) == 6.25 && TokensToSell(PAIR, BIDS) == [("yes", 0.41), ("no", 0.41)]
    ensures var yes, no := SellLeg("yes", 6.25, 0.41), SellLeg("no", 6.25, 0.41);
      && yes.price == 0.4 == no.price
      && SellTo(CFG, script, v, TokensToSell(PAIR, BIDS), 6.25, 2)
         == (Venue(v.cursor + 2, v.accepted + [yes, no]), 5.0, true)
  {
    hide PlaceOrder;
    var tokens := TokensToSell(PAIR, BIDS);
    var yes, no := SellLeg("yes", 6.25, 0.41), SellLeg("no", 6.25, 0.41);
    var between := Venue(v.cursor + 1, v.accepted + [yes]);
    FirstAttempt(script, v, yes);
    FirstAttempt(script, between, no);
    assert LegUsdc(6.25, 0.4) == 2.5;
    assert SellTo(CFG, script, v, tokens, 6.25, 0) == (v, 0.0, true);
    assert SellTo(CFG, script, v, tokens, 6.25, 1) == (between, 2.5, true);
    assert between.accepted + [no] == v.accepted + [yes, no];
  }

  // After the maximum holding time, with no news from the market.
  const HELD := Tick(Some(0.41), Some(0.41), None, Some(BIDS), 3600)

  lemma PairDeskCloses()
    ensures var d := PairDesk(HELD);
      var marked := Transition(RecordUnrealized(d.At(1).book, 0, Round4(0.25), Round4(2.5)), 0, Closing, NoPatch).0;
      d.At(2) == CloseWith(CFG, d.script, World(marked, d.At(1).venue), PAIR, TokensToSell(PAIR, BIDS), 3600).0
  {
    var d := PairDesk(HELD);
    hide Desk.At, CloseWith, Round4, Transition, RecordUnrealized;
    UnfoldDesk(d, 2);
    assert ComputeUnrealized(PAIR, 0.41, 0.41) == (0.25, 2.5);
    assert ReasonToClose(PAIR, CFG, 2.5, 3600) == Some(MaxHold);
    assert TokensToSell(PAIR, BIDS) != [];
  }

  lemma PairSaleRecords(script: Script, w: World)
    requires forall attempt: nat :: script(attempt) == Accept(Missing)
    requires |w.book.records| == 1 && w.book.records[0].id == 0 && w.book.records[0].status == Closing
    ensures var u := CloseWith(CFG, script, w, PAIR, TokensToSell(PAIR, BIDS), 3600).0;
      |u.book.records| == 1 && u.book.records[0].status == Closed && u.book.records[0].pnl == Some(-5.0)
  {
    PairSells(script, w.venue);
    RoundMinusFive();
    hide SellTo, Round4, Round6, TokensToSell, ContractsPerLeg;
  }

  // A pair marked at a gain of 0.25 is closed with a recorded loss of 5, half of its cost.
  lemma PairClosedAtHalf()
    ensures var d := PairDesk(HELD);
      && d.Valid() && HonestSnapshots(d)
      && d.At(1).book.records == [PAIR] && ComputeUnrealized(PAIR, BIDS.0, BIDS.1).0 == 0.25
      && |d.At(2).book.records| == 1 && d.At(2).book.records[0].status == Closed
          && d.At(2).book.records[0].pnl == Some(-5.0)
  {
    var d := PairDesk(HELD);
    PairDeskBuys(HELD);
    PairDeskCloses();
    hide Desk.At, CloseWith, Round4;
    var marked := Transition(RecordUnrealized(d.At(1).book, 0, Round4(0.25), Round4(2.5)), 0, Closing, NoPatch).0;
    PairSaleRecords(d.script, World(marked, d.At(1).venue));
  }

  // ----- Sold off the books -----

  // After the maximum holding time, with the market's end date past and no resolution yet.
  const PAST_END := Tick(Some(0.41), Some(0.41), Some(MarketDetail(false, OtherOutcome, EndsAt(1800))), Some(BIDS),
      3600)

  lemma StaleDeskSells()
    ensures var d := PairDesk(PAST_END);
      var stale := Transition(RecordUnrealized(d.At(1).book, 0, Round4(0.25), Round4(2.5)), 0, Stale, EndDate(1800)).0;
      var marked := Transition(stale, 0, Closing, NoPatch).0;
      d.At(2) == CloseWith(CFG, d.script, World(marked, d.At(1).venue), PAIR, TokensToSell(PAIR, BIDS), 3600).0
  {
    var d := PairDesk(PAST_END);
    hide Desk.At, CloseWith, Round4, Transition, RecordUnrealized;
    UnfoldDesk(d, 2);
    assert ComputeUnrealized(PAIR, 0.41, 0.41) == (0.25, 2.5);
    assert ReasonToClose(PAIR, CFG, 2.5, 3600) == Some(MaxHold);
    assert TokensToSell(PAIR, BIDS) != [];
  }

  lemma StaleSaleRecords(script: Script, w: World)
    requires forall attempt: nat :: script(attempt) == Accept(Missing)
    requires |w.book.records| == 1 && w.book.records[0].id == 0 && w.book.records[0].status == Stale
    ensures var u := CloseWith(CFG, script, w, PAIR, TokensToSell(PAIR, BIDS), 3600).0;
      u.book == w.book && |u.venue.accepted| == |w.venue.accepted| + 2
  {
    PairSells(script, w.venue);
    hide SellTo, Round4, Round6, TokensToSell, ContractsPerLeg;
  }

  // One step marks the record stale, and then sells both legs of it without recording anything.
  lemma StaleSoldOffTheBooks()
    ensures var d := PairDesk(PAST_END);
      && d.Valid() && HonestSnapshots(d)
      && |d.At(2).book.records| == 1 && d.At(2).book.records[0].status == Stale && d.At(2).book.records[0].pnl == None
      && |d.At(2).venue.accepted| == |d.At(1).venue.accepted| + 2
      && UnbookedSale(d, 1)
  {
    var d := PairDesk(PAST_END);
    PairDeskBuys(PAST_END);
    StaleDeskSells();
    var before, after := d.At(1), d.At(2);
    hide Desk.At, CloseWith, Round4, ComputeUnrealized;
    var stale := Transition(RecordUnrealized(before.book, 0, Round4(0.25), Round4(2.5)), 0, Stale, EndDate(1800)).0;
    var marked := Transition(stale, 0, Closing, NoPatch).0;
    StaleSaleRecords(d.script, World(marked, before.venue));
    UnfoldDesk(d, 2);
    UnbookedSaleIff(CFG, d.script, before, PAIR, PAST_END);
    hide MonitorOne, SellsUnbooked;
    assert StatusOf(after.book, 0) == Some(Stale);
  }

  lemma RoundMinusFive()
    ensures Round4(-5.0) == -5.0
  {
    assert (-50000.0).Floor == -50000;
  }

  // ----- Why quotes must not be negative -----

  // A YES price of 2 against a NO price of -1 makes a set cost 1, and the NO leg is refused.
  function NegativeQuoteDesk(): Desk {
    Desk(CFG, (attempt: nat) => if attempt == 0 then Accept(Missing) else Fatal,
         [Call(false, SpreadTrade(2.0, -1.0), SURROUNDINGS)])
  }

  // The YES leg alone costs twice the maximum trade size, so the exposure passes the cap.
  lemma NegativeQuotePassesCap()
    ensures var d := NegativeQuoteDesk();
      && !d.actions[0].opp.PricesQuoted()
      && ActiveUsdc(d.At(1).book.records) == 20.0 > d.cfg.maxPositions as real * d.cfg.maxTradeUsdc
  {
    var d := NegativeQuoteDesk();
    var yes, no := Leg(Buy, "yes", 20.0, 2.0), Leg(Buy, "no", -10.0, -1.0);
    FirstAttempt(d.script, Venue(0, []), yes);
    FirstAttempt(d.script, Venue(1, [yes]), no);
    assert [] + [yes] == [yes];
    SpreadStarts(d.script, 2.0, -1.0);
    hide PlaceOrder, Execute;
    UnfoldDesk(d, 1);
    assert SharesFor(10.0, 1.0) == 10.0 && LegUsdc(10.0, 2.0) == 20.0 && LegUsdc(10.0, -1.0) == -10.0;
    assert Contracts(20.0, 2.0) == 10.0;
    var record := SpreadRecord(Yes, 2.0, 20.0, Unhedged, 10.0);
    assert d.At(1).book.records == [record];
    assert [record][..0] == [];
    assert ActiveUsdc([record]) == 20.0;
  }
}
