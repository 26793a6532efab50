/** Small sessions of the paper executor on which the failing side of each exact condition is reached. */
module PaperExamples {
  import opened Prelude
  import opened Dicts
  import opened Sorting
  import opened PaperExecutor
  import opened PaperSessions
  import opened PaperReplay
  import opened PaperRestore
  import opened PaperBacktest
  import P = PerformanceLayer
  import B = BacktestEngine
  import D = BacktestProperties

  const CFG := Settings(1000.0, true, 1000.0, 1, 500.0)

  function NewOrder(side: Side, quantity: real, price: real, timestamp: int): Ticket {
    Ticket("", "S", side, quantity, price, timestamp, NotLimit, None, false)
  }

  // One share bought at 1, then this order, then one share bought back at 4 at the same time.
  function Orders(side: Side, quantity: real, price: real): Session {
    Session(CFG, [Place(NewOrder(Buy, 1.0, 1.0, 1), APPROVE), Place(NewOrder(side, quantity, price, 2), APPROVE),
                  Place(NewOrder(Buy, 1.0, 4.0, 2), APPROVE)])
  }

  // On the first order of a day the anchor becomes the equity before it; later that day it stays.
  lemma AnchorAfterOrder(cfg: Settings, s: State, t: Ticket)
    requires s.positions.Valid() && Admit(cfg, s, t, APPROVE).1.None?
    ensures var u := Submit(cfg, s, t, APPROVE).state;
      && u.currentDay == Some(DayOf(t.timestamp))
      && u.dayStart == if s.currentDay == Some(DayOf(t.timestamp)) then s.dayStart else Equity(s)
  {
    BookKeeps(cfg, Admit(cfg, s, t, APPROVE).0, t);
    hide Book, Sum, TicketProblem;
  }

  // An approved order in the one symbol that the executor will fill.
  ghost predicate SoundEvent(e: Event) {
    && e.Place? && e.advice == APPROVE && e.ticket.symbol == "S"
    && TicketProblem(e.ticket).None? && e.ticket.quantity * e.ticket.price <= 1000.0
  }

  lemma SoundOrder(side: Side, quantity: real, price: real, timestamp: int)
    requires side != Invalid && 0.0 < quantity <= 1.0 && 0.0 < price <= 1000.0
    ensures SoundEvent(Place(NewOrder(side, quantity, price, timestamp), APPROVE))
  {
    assert "S"[0] == 'S';
    NotionalFits(quantity, price);
  }

  lemma NotionalFits(quantity: real, price: real)
    requires 0.0 < quantity <= 1.0 && 0.0 < price <= 1000.0
    ensures quantity * price <= 1000.0
  {
    var rest := 1.0 - quantity;
    MulNonNeg(rest, price);
    assert rest * price == price - quantity * price;
  }

  // What one order does to a state that has traded nothing else.
  ghost predicate Ordered(s: State, u: State, t: Ticket)
    requires s.positions.Valid() && u.positions.Valid()
  {
    && OneSymbol(u, "S") && u.fills == s.fills + [BrokerFill(t)]
    && u.cash == s.cash + CashFlow(s.positions.Get("S", NO_POSITION), BrokerFill(t))
    && u.positions.Get("S", NO_POSITION) == FillInto(s.positions.Get("S", NO_POSITION), BrokerFill(t))
    && u.currentDay == Some(DayOf(t.timestamp))
    && u.dayStart == (if s.currentDay == Some(DayOf(t.timestamp)) then s.dayStart else Equity(s))
    && (u.killed <==> Equity(u) <= u.dayStart - 500.0)
  }

  lemma OrderStep(run: Session, n: nat)
    requires run.Valid() && run.cfg == CFG && n < |run.events| && SoundEvent(run.events[n])
    requires OneSymbol(run.At(n), "S") && !run.At(n).killed
    ensures Ordered(run.At(n), run.At(n + 1), run.events[n].ticket)
  {
    hide Session.At, TicketProblem, Equity, FillInto;
    var s, t := run.At(n), run.events[n].ticket;
    Unfold(run, n + 1);
    OrderFills(CFG, s, t);
    NothingElseHeld(s, "S");
    OrderAdmitted(CFG, s, t);
    AnchorAfterOrder(CFG, s, t);
    LossCapKills(run, n + 1);
    hide Submit, Admit;
  }

  // With one symbol the totals are those of its position.
  lemma OneSymbolSum(s: State, f: (string, Position) -> real)
    requires OneSymbol(s, "S") && "S" in s.positions.entries
    ensures Sum(s.positions, f) == f("S", s.positions.entries["S"])
  {
    var d := s.positions;
    assert d.keys == ["S"] by {
      assert "S" in d.keys;
    }
    assert SumTo(d, f, 0) == 0.0;
    assert SumTo(d, f, 1) == SumTo(d, f, 0) + f("S", d.entries["S"]);
  }

  lemma HeldEquity(run: Session, n: nat)
    requires run.Valid() && n <= |run.events| && OneSymbol(run.At(n), "S") && "S" in run.At(n).positions.entries
    ensures var s := run.At(n); var p := s.positions.entries["S"];
      && Equity(s) == run.cfg.startingCash + p.realizedPnl + p.unrealizedPnl
      && s.cash + Sum(s.positions, BasisOf) == run.cfg.startingCash + p.realizedPnl
  {
    hide Session.At, Equity, Sum;
    BooksBalance(run, n);
    OneSymbolSum(run.At(n), RealizedOf);
    OneSymbolSum(run.At(n), UnrealizedOf);
  }

  // A session that opens with one share bought at 1.
  ghost predicate Opens(run: Session) {
    && run.Valid() && run.cfg == CFG && |run.events| >= 2
    && run.events[0] == Place(NewOrder(Buy, 1.0, 1.0, 1), APPROVE)
  }

  lemma OrdersOpen(side: Side, quantity: real, price: real)
    ensures Opens(Orders(side, quantity, price))
        && Orders(side, quantity, price).events[1] == Place(NewOrder(side, quantity, price, 2), APPROVE)
  {
  }

  lemma Start(run: Session)
    requires Opens(run)
    ensures var s := run.At(0);
      && OneSymbol(s, "S") && !s.killed && s.fills == [] && s.currentDay == None && s.cash == 1000.0
      && s.positions.Get("S", NO_POSITION) == NO_POSITION && Equity(s) == 1000.0
  {
  }

  lemma FirstPosition()
    ensures FillInto(NO_POSITION, BrokerFill(NewOrder(Buy, 1.0, 1.0, 1))) == Position(1.0, 1.0, 0.0, 0.0)
  {
    AverageFromNothing(0.0, 1.0, 1.0);
  }

  // One share held at 1, worth what it cost.
  ghost predicate Opened(s: State) {
    && OneSymbol(s, "S") && !s.killed && s.fills == [BrokerFill(NewOrder(Buy, 1.0, 1.0, 1))]
    && s.positions.Get("S", NO_POSITION) == Position(1.0, 1.0, 0.0, 0.0)
    && s.dayStart == 1000.0 && s.currentDay == Some(0) && s.cash == 999.0
  }

  lemma OpensFacts(run: Session)
    requires Opens(run)
    ensures run.Valid() && run.cfg == CFG && |run.events| >= 2
    ensures run.events[0] == Place(NewOrder(Buy, 1.0, 1.0, 1), APPROVE) && SoundEvent(run.events[0])
  {
    SoundOrder(Buy, 1.0, 1.0, 1);
    hide SoundEvent;
  }

  lemma FirstOrdered(s: State, u: State)
    requires s.positions.Valid() && u.positions.Valid() && Ordered(s, u, NewOrder(Buy, 1.0, 1.0, 1))
    requires s.fills == [] && s.currentDay == None && s.positions.Get("S", NO_POSITION) == NO_POSITION
        && Equity(s) == 1000.0 == s.cash
    ensures OneSymbol(u, "S") && u.positions.Get("S", NO_POSITION) == Position(1.0, 1.0, 0.0, 0.0)
    ensures Equity(u) == 1000.0 ==> Opened(u)
  {
    FirstPosition();
    hide OneSymbol, Equity, FillInto, Dict.Get, Dict.Valid;
  }

  lemma OpenedEquity(run: Session)
    requires Opens(run) && OneSymbol(run.At(1), "S")
        && run.At(1).positions.Get("S", NO_POSITION) == Position(1.0, 1.0, 0.0, 0.0)
    ensures Equity(run.At(1)) == 1000.0
  {
    hide Session.At, Session.Valid, Equity, Sum, Dict.Valid;
    HeldEquity(run, 1);
  }

  lemma AfterFirst(run: Session)
    requires Opens(run)
    ensures Opened(run.At(1))
  {
    hide *;
    OpensFacts(run);
    Start(run);
    OrderStep(run, 0);
    FirstOrdered(run.At(0), run.At(1));
    OpenedEquity(run);
  }

  // ----- A purchase without the cash for it -----

  lemma OverspentFrom(s: State, u: State)
    requires s.positions.Valid() && u.positions.Valid() && Opened(s) && Ordered(s, u, NewOrder(Buy, 1.0, 1000.0, 2))
    ensures u.cash == -1.0
  {
    hide OneSymbol, Equity, FillInto, Dict.Get, Dict.Valid;
  }

  // With 999 in cash a purchase for 1000 is accepted, and leaves the cash at -1.
  lemma CashGoesNegative()
    ensures var run := Orders(Buy, 1.0, 1000.0); run.Valid() && |run.events| == 3 && run.At(2).cash == -1.0
  {
    OrdersOpen(Buy, 1.0, 1000.0);
    OrdersSize(Buy, 1.0, 1000.0);
    hide *;
    var run := Orders(Buy, 1.0, 1000.0);
    OpensFacts(run);
    AfterFirst(run);
    OpenedFacts(run.At(1));
    SoundOrder(Buy, 1.0, 1000.0, 2);
    OrderStep(run, 1);
    OverspentFrom(run.At(1), run.At(2));
  }

  lemma OrdersSize(side: Side, quantity: real, price: real)
    ensures |Orders(side, quantity, price).events| == 3
  {
  }

  // ----- A sale after the first purchase -----

  // That share or part of it sold again.
  ghost predicate Sold(s: State, quantity: real, price: real) {
    && OneSymbol(s, "S")
    && s.fills == [BrokerFill(NewOrder(Buy, 1.0, 1.0, 1)), BrokerFill(NewOrder(Sell, quantity, price, 2))]
    && s.positions.Get("S", NO_POSITION) == SellFrom(Position(1.0, 1.0, 0.0, 0.0), quantity, price)
    && s.dayStart == 1000.0 && s.currentDay == Some(0)
  }

  lemma SecondOrdered(s: State, u: State, quantity: real, price: real)
    requires s.positions.Valid() && u.positions.Valid() && Opened(s)
        && Ordered(s, u, NewOrder(Sell, quantity, price, 2))
    ensures Sold(u, quantity, price)
  {
    hide OneSymbol, Equity, SellFrom, Dict.Get, Dict.Valid;
  }

  lemma OpenedFacts(s: State)
    requires Opened(s)
    ensures OneSymbol(s, "S") && !s.killed && s.positions.Valid()
  {
  }

  lemma AfterSale(run: Session, quantity: real, price: real)
    requires Opens(run) && run.events[1] == Place(NewOrder(Sell, quantity, price, 2), APPROVE)
    requires 0.0 < quantity <= 1.0 && 0.0 < price <= 1000.0
    ensures Sold(run.At(2), quantity, price)
  {
    hide *;
    OpensFacts(run);
    AfterFirst(run);
    OpenedFacts(run.At(1));
    SoundOrder(Sell, quantity, price, 2);
    OrderStep(run, 1);
    SecondOrdered(run.At(1), run.At(2), quantity, price);
  }

  // ----- A sale that leaves half an EPSILON -----

  const ALMOST_ALL: real := 1.0 - EPSILON / 2.0

  // How the fills of a session in this symbol are exported.
  function Exported(n: nat): Export {
    Export(map["S" := "s"], seq(n, _ => None), false, None)
  }

  // The ledger still holds half an EPSILON, so the replay, which holds nothing, does not agree with it.
  lemma DustNotReplayed(contexts: map<string, P.Context>)
    ensures var run, ex := Orders(Sell, ALMOST_ALL, 1.0), Exported(2); var log := run.At(2).fills;
      && run.At(2).positions.Get("S", NO_POSITION).quantity == EPSILON / 2.0
      && |log| == 2 && Exportable(log, ex) && |P.Normalize(ExportLog(log, ex), contexts)| == 2
      && !DustFree(log, 2) && !AgreesThroughout(log, ex, contexts, 2)
  {
    var run, ex := Orders(Sell, ALMOST_ALL, 1.0), Exported(2);
    OrdersOpen(Sell, ALMOST_ALL, 1.0);
    AfterSale(run, ALMOST_ALL, 1.0);
    hide Session.At, Session.Valid, P.Normalize, OneSymbol, Equity;
    var log := run.At(2).fills;
    LedgerIsFoldOfLog(run, 2, "S");
    DustAtTheEnd(log);
    ReplayExactIffDustFree(log, ex, contexts, 2);
  }

  lemma DustAtTheEnd(log: seq<Fill>)
    requires |log| == 2 && LogPosition(log, "S", 2).quantity == EPSILON / 2.0
    ensures !DustFree(log, 2)
  {
    hide LogPosition;
    assert !NotDust(LogPosition(log, "S", 2));
  }

  // ----- A closed symbol with a gain, saved and restored -----

  // The share sold at 2.
  function Gaining(): Session {
    Orders(Sell, 1.0, 2.0)
  }

  // The gain of 1 is realised on a symbol that is closed.
  ghost predicate Gained(s: State) {
    && OneSymbol(s, "S") && "S" in s.positions.entries && s.positions.entries["S"] == Position(0.0, 0.0, 1.0, 0.0)
    && s.dayStart == 1000.0 && s.currentDay == Some(0)
    && s.cash + Sum(s.positions, BasisOf) == 1001.0 && Sum(s.positions, FlatRealizedOf) == 1.0
  }

  lemma SoldPosition(s: State)
    requires Sold(s, 1.0, 2.0)
    ensures "S" in s.positions.entries && s.positions.entries["S"] == Position(0.0, 0.0, 1.0, 0.0)
  {
    hide OneSymbol, Equity;
  }

  lemma GainedFrom(run: Session)
    requires Opens(run) && Sold(run.At(2), 1.0, 2.0)
    ensures Gained(run.At(2))
  {
    hide Session.At, Session.Valid, Equity, Sum, SellFrom;
    SoldPosition(run.At(2));
    HeldEquity(run, 2);
    OneSymbolSum(run.At(2), FlatRealizedOf);
  }

  lemma BooksInOrder(run: Session, n: nat)
    requires run.Valid() && n <= |run.events|
    ensures Sound(run.At(n)) && run.At(n).positions.Valid() && Accounted(run.cfg, run.At(n))
  {
    AlwaysGood(run, n);
    hide Session.At, Session.Valid, Accounted;
  }

  lemma AfterGain()
    ensures var run := Gaining(); var s := run.At(2);
      Opens(run) && run.Valid() && run.cfg == CFG && s.positions.Valid() && Gained(s) && Sound(s) && Accounted(CFG, s)
  {
    var run := Gaining();
    OrdersOpen(Sell, 1.0, 2.0);
    hide Session.At, Session.Valid, Sound, Accounted, Gained, Sold, Opens;
    OpensFacts(run);
    AfterSale(run, 1.0, 2.0);
    GainedFrom(run);
    BooksInOrder(run, 2);
  }

  lemma GainedFacts(s: State)
    requires Gained(s)
    ensures s.positions.Valid() && s.dayStart == 1000.0 && s.currentDay == Some(0)
        && s.cash + Sum(s.positions, BasisOf) == 1001.0
    ensures Sum(s.positions, FlatRealizedOf) != 0.0
  {
  }

  // The restored executor has forgotten the gain of 1, so its accounts no longer balance.
  lemma RestoreForgetsGain(t: State, kill: bool)
    ensures var s := Gaining().At(2); var r := Restore(t, TakeSnapshot(s), kill);
      s.positions.Valid() && r.positions.Valid() && Accounted(CFG, s) && !Accounted(CFG, r)
  {
    AfterGain();
    GainedFacts(Gaining().At(2));
    hide Session.At, Session.Valid, Accounted, Sound, Sum, Restore, TakeSnapshot, Gained, Opens;
    RestoreKeepsAccountsIff(Gaining(), 2, t, kill);
  }

  // The day began with 1000. A fresh executor restored later that day anchors at 1001 on its first
  // order, so the loss cap is measured from there.
  lemma RestoreMovesAnchor()
    ensures var s := Gaining().At(2); var r := Restore(Gaining().At(0), TakeSnapshot(s), false);
      && s.positions.Valid() && r.positions.Valid()
      && s.currentDay == Some(0) && s.dayStart == 1000.0 == r.dayStart
      && AnchorsAt(r, NewOrder(Buy, 1.0, 1.0, 3), 1001.0)
  {
    hide *;
    AfterGain();
    OpensFacts(Gaining());
    Start(Gaining());
    var s, t := Gaining().At(2), Gaining().At(0);
    GainedFacts(s);
    RestoreKeepsOpenBooks(s, t, false);
    RestoredEquityIsCost(s, t, false);
    RestoredOrder(s, Restore(t, TakeSnapshot(s), false));
  }

  // The first order of the day is filled and anchors the day at this equity.
  ghost predicate AnchorsAt(r: State, t: Ticket, equity: real)
    requires r.positions.Valid()
  {
    var u := Submit(CFG, r, t, APPROVE);
    u.reply.Accepted? && u.state.currentDay == Some(0) && u.state.dayStart == equity
  }

  lemma RestoredOrder(s: State, r: State)
    requires Gained(s) && r.positions.Valid() && r.currentDay == None && !r.killed && Equity(r) == 1001.0
    requires forall k :: k in r.positions.entries <==> k in s.positions.entries && s.positions.entries[k].quantity > 0.0
    ensures AnchorsAt(r, NewOrder(Buy, 1.0, 1.0, 3), 1001.0)
  {
    var t := NewOrder(Buy, 1.0, 1.0, 3);
    NothingRestored(s, r);
    SoundOrder(Buy, 1.0, 1.0, 3);
    hide TicketProblem, Sum, Equity;
    OrderFills(CFG, r, t);
    NothingElseHeld(r, "S");
    OrderAdmitted(CFG, r, t);
    AnchorAfterOrder(CFG, r, t);
    hide Submit, Admit, OneSymbol;
  }

  // ----- A sale and a purchase at one time -----

  lemma SecondOrderedAlive(s: State, u: State)
    requires s.positions.Valid() && u.positions.Valid() && Opened(s) && Ordered(s, u, NewOrder(Sell, 1.0, 2.0, 2))
    requires Equity(u) == 1001.0
    ensures !u.killed
  {
    hide OneSymbol, Equity, FillInto, Dict.Get, Dict.Valid;
  }

  lemma SoldEquity(run: Session)
    requires Opens(run) && Sold(run.At(2), 1.0, 2.0)
    ensures Equity(run.At(2)) == 1001.0
  {
    hide Session.At, Session.Valid, Equity, Sum, SellFrom;
    SoldPosition(run.At(2));
    HeldEquity(run, 2);
  }

  // After the sale the executor still trades.
  lemma SoldAlive(run: Session)
    requires Opens(run) && run.events[1] == Place(NewOrder(Sell, 1.0, 2.0, 2), APPROVE)
    ensures Sold(run.At(2), 1.0, 2.0) && OneSymbol(run.At(2), "S") && !run.At(2).killed
  {
    hide *;
    OpensFacts(run);
    AfterFirst(run);
    OpenedFacts(run.At(1));
    SoundOrder(Sell, 1.0, 2.0, 2);
    OrderStep(run, 1);
    SecondOrdered(run.At(1), run.At(2), 1.0, 2.0);
    SoldEquity(run);
    SecondOrderedAlive(run.At(1), run.At(2));
    SoldFacts(run.At(2));
  }

  lemma SoldFacts(s: State)
    requires Sold(s, 1.0, 2.0)
    ensures OneSymbol(s, "S") && s.positions.Valid()
        && s.positions.Get("S", NO_POSITION) == Position(0.0, 0.0, 1.0, 0.0)
    ensures s.fills == [BrokerFill(NewOrder(Buy, 1.0, 1.0, 1)), BrokerFill(NewOrder(Sell, 1.0, 2.0, 2))]
  {
    assert SellFrom(Position(1.0, 1.0, 0.0, 0.0), 1.0, 2.0) == Position(0.0, 0.0, 1.0, 0.0);
    hide SellFrom, OneSymbol;
  }

  lemma ThirdOrdered(s: State, u: State)
    requires s.positions.Valid() && u.positions.Valid() && Sold(s, 1.0, 2.0)
        && Ordered(s, u, NewOrder(Buy, 1.0, 4.0, 2))
    ensures u.positions.Get("S", NO_POSITION).realizedPnl == 1.0
    ensures u.fills == [BrokerFill(NewOrder(Buy, 1.0, 1.0, 1)), BrokerFill(NewOrder(Sell, 1.0, 2.0, 2)),
                        BrokerFill(NewOrder(Buy, 1.0, 4.0, 2))]
  {
    SoldFacts(s);
    hide OneSymbol, Equity, Dict.Get, Dict.Valid, Sold, WeightedAverage, Gain;
  }

  lemma AfterThird()
    ensures var run := Gaining();
      && Opens(run) && run.Valid() && |run.events| == 3
      && run.At(3).positions.Get("S", NO_POSITION).realizedPnl == 1.0
      && run.At(3).fills == [BrokerFill(NewOrder(Buy, 1.0, 1.0, 1)), BrokerFill(NewOrder(Sell, 1.0, 2.0, 2)),
                             BrokerFill(NewOrder(Buy, 1.0, 4.0, 2))]
  {
    GainingFacts();
    hide *;
    var run := Gaining();
    OpensFacts(run);
    SoldAlive(run);
    SoldFacts(run.At(2));
    OrderStep(run, 2);
    ThirdOrdered(run.At(2), run.At(3));
  }

  lemma GainingFacts()
    ensures var run := Gaining();
      && Opens(run) && |run.events| == 3 && run.events[1] == Place(NewOrder(Sell, 1.0, 2.0, 2), APPROVE)
      && run.events[2] == Place(NewOrder(Buy, 1.0, 4.0, 2), APPROVE) && SoundEvent(run.events[2])
  {
    OrdersOpen(Sell, 1.0, 2.0);
    assert "S"[0] == 'S';
  }

  // The sale gained 1, but its replay, after the purchase at the same time, reports a loss of 0.5.
  lemma EqualTimesNotReplayed(contexts: map<string, P.Context>)
    ensures var run, ex := Gaining(), Exported(3); var log := run.At(3).fills;
      && run.Valid() && |run.events| == 3 && |log| == 3
      && (forall k :: 0 <= k < 3 ==> log[k].symbol in ex.strategyOf)
      && !ReplayMatches(run.At(3), ex, contexts, ExportLog(log, ex), "S")
  {
    AfterThird();
    hide Session.At, Session.Valid, P.Normalize, P.ReplayAll, StableSort, P.FillLeq;
    var ex, log := Exported(3), Gaining().At(3).fills;
    var x, y, z := RowOf(log[0], ex, 0), RowOf(log[1], ex, 1), RowOf(log[2], ex, 2);
    assert ExportLog(log, ex) == [x, y, z];
    P.OneByOne(x, y, z, contexts);
    var a, b, c := P.NormalizeRow(x, contexts), P.NormalizeRow(y, contexts), P.NormalizeRow(z, contexts);
    P.SaleGoesLast(a, b, c);
    P.OneLotEach(a, c, b);
    PnlOfOne(P.ReplayAll([a, c, b], false).outcomes, "s", "S");
  }

  lemma PnlOfOne(outcomes: seq<P.Outcome>, strategy: string, symbol: string)
    requires |outcomes| == 1 && outcomes[0].pnl == -0.5
    ensures P.PnlOf(outcomes, strategy, symbol) <= 0.0
  {
    assert outcomes[..0] == [];
  }

  // A restored book of closed symbols is empty.
  lemma NothingRestored(s: State, r: State)
    requires OneSymbol(s, "S") && r.positions.Valid() && "S" in s.positions.entries
        && s.positions.entries["S"].quantity == 0.0
    requires forall k :: k in r.positions.entries <==> k in s.positions.entries && s.positions.entries[k].quantity > 0.0
    ensures OneSymbol(r, "S")
  {
    forall k: string ensures k !in r.positions.entries {
      if k in s.positions.entries {
        assert k in s.positions.keys;
      }
    }
    EmptyIff(r.positions);
  }

  lemma EmptyIff(d: Dict<string, Position>)
    requires d.Valid()
    ensures d.keys == [] <==> d.entries == map[]
  {
    if d.keys != [] {
      assert d.keys[0] in d.keys;
    }
  }

  // ----- A backtest that zeroes dust, on paper -----

  function DustyOrder(side: Side, quantity: real, time: int): Ticket {
    NewOrder(side, quantity, 2.0, time)
  }

  function DustySession(): Session {
    Session(CFG, [Place(DustyOrder(Buy, 500.0, 1), APPROVE), Place(DustyOrder(Sell, 500.0 - D.CRUMB, 2), APPROVE)])
  }

  // The trades of the dusty run as paper orders.
  lemma DustyOrders()
    ensures D.DustyRun().Valid() && PaperRun(D.DustyRun(), 2, CFG, "S") == DustySession()
  {
    D.DustHappens();
    hide B.Backtest.Trades, B.StepBar;
    var trades := D.DustyRun().Trades(2);
    assert TicketOf(trades[0], "S") == DustyOrder(Buy, 500.0, 1);
    assert TicketOf(trades[1], "S") == DustyOrder(Sell, 500.0 - D.CRUMB, 2);
  }

  lemma DustyFacts()
    ensures var run := DustySession();
      && run.Valid() && run.cfg == CFG && |run.events| == 2
      && run.events[0] == Place(DustyOrder(Buy, 500.0, 1), APPROVE)
      && run.events[1] == Place(DustyOrder(Sell, 500.0 - D.CRUMB, 2), APPROVE)
  {
  }

  lemma DustySound()
    ensures SoundEvent(Place(DustyOrder(Buy, 500.0, 1), APPROVE))
    ensures SoundEvent(Place(DustyOrder(Sell, 500.0 - D.CRUMB, 2), APPROVE))
  {
    assert "S"[0] == 'S';
  }

  lemma DustyPositions()
    ensures FillInto(NO_POSITION, BrokerFill(DustyOrder(Buy, 500.0, 1))) == Position(500.0, 2.0, 0.0, 0.0)
    ensures FillInto(Position(500.0, 2.0, 0.0, 0.0), BrokerFill(DustyOrder(Sell, 500.0 - D.CRUMB, 2)))
         == Position(D.CRUMB, 2.0, 0.0, 0.0)
  {
    AverageFromNothing(0.0, 500.0, 2.0);
    assert Min(500.0 - D.CRUMB, 500.0) == 500.0 - D.CRUMB;
    assert Gain(2.0, 2.0, 500.0) == 0.0 == Gain(2.0, 2.0, 500.0 - D.CRUMB) == Gain(2.0, 2.0, D.CRUMB);
    hide WeightedAverage, Gain;
  }

  lemma StartOf(run: Session)
    requires run.Valid() && run.cfg == CFG
    ensures var s := run.At(0);
      && OneSymbol(s, "S") && !s.killed && s.currentDay == None
      && s.positions.Get("S", NO_POSITION) == NO_POSITION && Equity(s) == 1000.0
  {
  }

  // After an order that leaves a position without any gain equity is 1000, and the executor still trades.
  lemma NoGainNoKill(run: Session, n: nat, t: Ticket, q: real)
    requires run.Valid() && run.cfg == CFG && n < |run.events|
    requires Ordered(run.At(n), run.At(n + 1), t) && DayOf(t.timestamp) == 0
    requires FillInto(run.At(n).positions.Get("S", NO_POSITION), BrokerFill(t)) == Position(q, 2.0, 0.0, 0.0)
    requires run.At(n).currentDay == None || (run.At(n).currentDay == Some(0) && run.At(n).dayStart == 1000.0)
    requires Equity(run.At(n)) == 1000.0
    ensures var u := run.At(n + 1);
      && OneSymbol(u, "S") && !u.killed && u.currentDay == Some(0) && u.dayStart == 1000.0 && Equity(u) == 1000.0
      && u.positions.Get("S", NO_POSITION) == Position(q, 2.0, 0.0, 0.0)
  {
    hide Session.At, Session.Valid, Equity, Sum, Dict.Valid, FillInto, OneSymbol;
    HeldEquity(run, n + 1);
  }

  // No limit of the executor is reached while it is handed that run's trades.
  lemma DustyLimitsOff()
    ensures D.DustyRun().Valid() && LimitsOff(D.DustyRun(), 2, CFG, "S")
  {
    hide *;
    DustyBacktest();
    DustyOrders();
    DustyFacts();
    DustyNeverKilled();
    DustyNotional();
    CfgFacts();
    LimitsOffFor(D.DustyRun(), 2, CFG, "S", DustySession());
  }

  lemma DustyBacktest()
    ensures D.DustyRun().Valid() && |D.DustyRun().bars| == 3 && D.DustyRun().cfg.initialCapital == 1000.0
  {
  }

  lemma LimitsOffFor(b: B.Backtest, n: nat, cfg: Settings, symbol: string, run: Session)
    requires b.Valid() && n < |b.bars| && run.Valid() && run == PaperRun(b, n, cfg, symbol)
    requires cfg.Valid() && cfg.paperTradingEnabled && cfg.startingCash == b.cfg.initialCapital && !Blank(symbol)
    requires forall k :: 0 <= k < |b.Trades(n)| ==>
      b.Trades(n)[k].quantity * b.Trades(n)[k].fillPrice <= cfg.maxNotional
    requires !run.At(|run.events|).killed
    ensures LimitsOff(b, n, cfg, symbol)
  {
    hide PaperRun, Session.At, Session.Valid, B.Backtest.Trades, B.Backtest.Valid, Blank;
  }

  lemma CfgFacts()
    ensures CFG.Valid() && CFG.paperTradingEnabled && CFG.startingCash == 1000.0 == CFG.maxNotional && !Blank("S")
  {
    assert "S"[0] == 'S';
  }

  lemma DustyNotional()
    ensures var trades := D.DustyRun().Trades(2);
      && D.DustyRun().Valid() && |trades| == 2
      && forall k :: 0 <= k < |trades| ==> trades[k].quantity * trades[k].fillPrice <= 1000.0
  {
    D.DustHappens();
    hide B.Backtest.Trades, B.StepBar;
  }

  lemma DustyNeverKilled()
    ensures DustySession().Valid() && |DustySession().events| == 2 && !DustySession().At(2).killed
  {
    hide *;
    DustyFacts();
    DustySound();
    DustyPositions();
    var run := DustySession();
    StartOf(run);
    OrderStep(run, 0);
    DustyDay();
    NoGainNoKill(run, 0, DustyOrder(Buy, 500.0, 1), 500.0);
    OrderStep(run, 1);
    NoGainNoKill(run, 1, DustyOrder(Sell, 500.0 - D.CRUMB, 2), D.CRUMB);
  }

  lemma DustyDay()
    ensures DayOf(DustyOrder(Buy, 500.0, 1).timestamp) == 0
    ensures DayOf(DustyOrder(Sell, 500.0 - D.CRUMB, 2).timestamp) == 0
  {
  }

  // The engine has zeroed half an EPSILON that the paper ledger still holds.
  lemma DustyLedgersDiffer()
    ensures var b := D.DustyRun();
      && b.Valid() && LimitsOff(b, 2, CFG, "S")
      && (forall k :: 0 <= k <= 2 ==> |b.Trades(k)| <= |b.Trades(2)|)
      && !AgreesUpTo(b, 2, 2, CFG, "S")
  {
    D.DustHappens();
    DustyLimitsOff();
    PaperAgreesIffNoDust(D.DustyRun(), 2, 2, CFG, "S");
    hide LimitsOff, AgreesUpTo, B.Backtest.Trades, D.Dust;
  }
}
