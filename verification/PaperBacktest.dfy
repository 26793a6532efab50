/** A backtest's trades submitted to the paper executor: the two ledgers against each other. */
module PaperBacktest {
  import opened Prelude
  import opened Dicts
  import B = BacktestEngine
  import opened BacktestProperties
  import R = BacktestReplay
  import E = PaperExecutor
  import opened PaperSessions

  // ----- A book of one symbol -----

  // Nothing but this symbol was ever traded.
  ghost predicate OneSymbol(s: E.State, symbol: string) {
    s.positions.Valid() && (s.positions.keys == [] || s.positions.keys == [symbol])
  }

  const APPROVE := E.Advice(false, true, {}, false)

  lemma NothingElseHeld(s: E.State, symbol: string)
    requires OneSymbol(s, symbol)
    ensures s.positions.Get(symbol, E.NO_POSITION).quantity <= 0.0 ==> Sum(s.positions, E.ActiveFlag) == 0.0
  {
    var d := s.positions;
    if d.keys == [symbol] {
      assert symbol in d.keys;
      assert SumTo(d, E.ActiveFlag, 0) == 0.0;
      assert SumTo(d, E.ActiveFlag, 1) == E.ActiveFlag(symbol, d.entries[symbol]);
    } else {
      NotThere(d, symbol);
    }
  }

  lemma NotThere(d: Dict<string, E.Position>, symbol: string)
    requires d.Valid() && d.keys == []
    ensures symbol !in d.entries
  {
  }

  // A sound order in the only symbol of the book, approved and within the notional limit, is filled.
  lemma OrderFills(cfg: E.Settings, s: E.State, t: E.Ticket)
    requires cfg.Valid() && cfg.paperTradingEnabled && OneSymbol(s, t.symbol) && !s.killed
    requires E.TicketProblem(t).None? && t.quantity * t.price <= cfg.maxNotional
    ensures var r := E.Submit(cfg, s, t, APPROVE); var p := s.positions.Get(t.symbol, E.NO_POSITION);
      && r.reply.Accepted?
      && OneSymbol(r.state, t.symbol)
      && r.state.fills == s.fills + [E.BrokerFill(t)]
      && r.state.cash == s.cash + E.CashFlow(p, E.BrokerFill(t))
      && r.state.positions.Get(t.symbol, E.NO_POSITION) == E.FillInto(p, E.BrokerFill(t))
  {
    hide E.Equity, E.TicketProblem, E.FillInto, E.CashFlow;
    var p := s.positions.Get(t.symbol, E.NO_POSITION);
    NothingElseHeld(s, t.symbol);
    OrderAdmitted(cfg, s, t);
    var a := E.Admit(cfg, s, t, APPROVE).0;
    E.AdmitKeeps(cfg, s, t, APPROVE);
    hide E.Admit;
    E.BookKeeps(cfg, a, t);
    BookSets(cfg, a, t);
  }

  lemma OrderAdmitted(cfg: E.Settings, s: E.State, t: E.Ticket)
    requires cfg.Valid() && cfg.paperTradingEnabled && s.positions.Valid() && !s.killed
    requires E.TicketProblem(t).None? && t.quantity * t.price <= cfg.maxNotional
    requires s.positions.Get(t.symbol, E.NO_POSITION).quantity <= 0.0 ==> Sum(s.positions, E.ActiveFlag) == 0.0
    ensures E.Admit(cfg, s, t, APPROVE).1.None?
  {
    hide E.Equity, E.TicketProblem, E.ActiveFlag, Sum;
  }

  lemma BookSets(cfg: E.Settings, s: E.State, t: E.Ticket)
    requires OneSymbol(s, t.symbol)
    ensures var b := E.Book(cfg, s, t); var p := s.positions.Get(t.symbol, E.NO_POSITION);
      && OneSymbol(b, t.symbol)
      && b.cash == s.cash + E.CashFlow(p, E.BrokerFill(t))
      && b.positions.Get(t.symbol, E.NO_POSITION) == E.FillInto(p, E.BrokerFill(t))
  {
    hide E.Equity, E.FillInto, E.CashFlow;
    E.BookKeeps(cfg, s, t);
  }

  // ----- The engine's trades as orders -----

  function TicketOf(t: B.Trade, symbol: string): E.Ticket {
    E.Ticket("", symbol, if t.side == B.Buy then E.Buy else E.Sell, t.quantity, t.fillPrice, t.timestamp, E.NotLimit,
        None, false)
  }

  // Every trade of the first n bars, submitted in order to a manager that approves.
  function PaperRun(b: B.Backtest, n: nat, cfg: E.Settings, symbol: string): Session
    requires b.Valid() && n < |b.bars|
  {
    Session(cfg, seq(|b.Trades(n)|,
      k requires 0 <= k < |b.Trades(n)| => Place(TicketOf(b.Trades(n)[k], symbol), APPROVE)))
  }

  // The executor is enabled, starts with the engine's capital, and its limits are never reached.
  ghost predicate LimitsOff(b: B.Backtest, n: nat, cfg: E.Settings, symbol: string)
    requires b.Valid() && n < |b.bars|
  {
    && cfg.Valid() && cfg.paperTradingEnabled && cfg.startingCash == b.cfg.initialCapital && !E.Blank(symbol)
    && (forall k :: 0 <= k < |b.Trades(n)| ==> b.Trades(n)[k].quantity * b.Trades(n)[k].fillPrice <= cfg.maxNotional)
    && var run := PaperRun(b, n, cfg, symbol);
    && !run.At(|run.events|).killed
  }

  // The paper ledger has the engine's quantity and average entry, and its cash before fees.
  ghost predicate SameLedger(b: B.Backtest, n: nat, s: E.State, symbol: string)
    requires b.Valid() && n < |b.bars|
  {
    var p := s.positions.Get(symbol, E.NO_POSITION);
    && p.quantity == b.At(n).shares
    && p.avgPrice == b.At(n).entry.GetOr(0.0)
    && s.cash == b.At(n).cash + R.FeesPaid(b, n)
  }

  // The order of bar n's trade in a session over the trades of all bars up to last.
  lemma TradeIsEvent(b: B.Backtest, n: nat, last: nat, cfg: E.Settings, symbol: string)
    requires b.Valid() && 0 < n <= last < |b.bars| && b.TradeAt(n).Some?
    ensures var k := |b.Trades(n - 1)|;
      && k < |b.Trades(last)| && |b.Trades(n)| == k + 1 && b.Trades(last)[k] == b.TradeAt(n).value
      && PaperRun(b, last, cfg, symbol).events[k] == Place(TicketOf(b.TradeAt(n).value, symbol), APPROVE)
  {
    hide B.StepBar;
    R.TradesGrow(b, n, last);
    var k := |b.Trades(n - 1)|;
    assert b.Trades(n)[k] == b.TradeAt(n).value;
    assert b.Trades(last)[..k + 1][k] == b.Trades(last)[k];
  }

  lemma NeverKilled(b: B.Backtest, last: nat, cfg: E.Settings, symbol: string, m: nat)
    requires b.Valid() && last < |b.bars| && LimitsOff(b, last, cfg, symbol) && m <= |b.Trades(last)|
    ensures !PaperRun(b, last, cfg, symbol).At(m).killed
  {
    var run := PaperRun(b, last, cfg, symbol);
    hide Session.At, SameBooks;
    if run.At(m).killed {
      KilledIsFrozen(run, m, |run.events|);
    }
  }

  lemma TradeIsSound(b: B.Backtest, n: nat, symbol: string)
    requires b.Valid() && 0 < n < |b.bars| && b.TradeAt(n).Some? && !E.Blank(symbol)
    ensures E.TicketProblem(TicketOf(b.TradeAt(n).value, symbol)).None?
  {
    hide B.StepBar, SellReference, B.BuyPrice, B.SellPrice, E.Blank;
    KindAt(b, n);
  }

  // ----- One bar -----

  lemma BuyIntoAverages(p: E.Position, q: real, price: real, shares: real, entry: real)
    requires shares == p.quantity + q && shares > 0.0 && entry * shares == p.quantity * p.avgPrice + q * price
    ensures E.BuyInto(p, q, price).quantity == shares && E.BuyInto(p, q, price).avgPrice == entry
  {
    hide Gain;
    CancelMul(WeightedAverage(p.quantity, p.avgPrice, q, price), entry, shares);
  }

  lemma BuyInStep(b: B.Backtest, n: nat, p: E.Position, symbol: string)
    requires b.Valid() && 0 < n < |b.bars| && b.BuyAt(n)
    requires p.quantity == b.At(n - 1).shares && p.avgPrice == b.At(n - 1).entry.GetOr(0.0)
    ensures var f := E.BrokerFill(TicketOf(b.TradeAt(n).value, symbol)); var q := E.FillInto(p, f);
      && q.quantity == b.At(n).shares && q.avgPrice == b.At(n).entry.GetOr(0.0)
      && E.CashFlow(p, f) == b.At(n).cash - b.At(n - 1).cash + b.cfg.fixedFee
  {
    hide B.StepBar, B.BuyPrice, B.SellPrice, SellReference, E.BuyInto;
    KindAt(b, n);
    var t := b.TradeAt(n).value;
    BuyIntoAverages(p, t.quantity, t.fillPrice, b.At(n).shares, b.At(n).entry.value);
  }

  // A sale keeps the two ledgers equal exactly when the engine zeroes no dust.
  lemma SellInStep(b: B.Backtest, n: nat, p: E.Position, symbol: string)
    requires b.Valid() && 0 < n < |b.bars| && b.SellAt(n)
    requires p.quantity == b.At(n - 1).shares && p.avgPrice == b.At(n - 1).entry.GetOr(0.0)
    ensures var f := E.BrokerFill(TicketOf(b.TradeAt(n).value, symbol)); var q := E.FillInto(p, f);
      && (q.quantity == b.At(n).shares && q.avgPrice == b.At(n).entry.GetOr(0.0) <==> Dust(b, n) == 0.0)
      && E.CashFlow(p, f) == b.At(n).cash - b.At(n - 1).cash + b.cfg.fixedFee
  {
    hide B.StepBar, B.BuyPrice, B.SellPrice, SellReference, Gain;
    KindAt(b, n);
  }

  lemma NoDustWithoutSale(b: B.Backtest, n: nat)
    requires b.Valid() && n < |b.bars| && !b.SellAt(n)
    ensures Dust(b, n) == 0.0
  {
  }

  // The order of bar n's trade, on a paper ledger equal to the engine's.
  lemma TradeStep(b: B.Backtest, n: nat, last: nat, cfg: E.Settings, symbol: string)
    requires b.Valid() && 0 < n <= last < |b.bars| && b.TradeAt(n).Some? && LimitsOff(b, last, cfg, symbol)
    requires |b.Trades(n - 1)| <= |b.Trades(last)|
    requires var s := PaperRun(b, last, cfg, symbol).At(|b.Trades(n - 1)|);
      OneSymbol(s, symbol) && SameLedger(b, n - 1, s, symbol)
    ensures |b.Trades(n)| <= |b.Trades(last)|
    ensures var u := PaperRun(b, last, cfg, symbol).At(|b.Trades(n)|);
      OneSymbol(u, symbol) && (SameLedger(b, n, u, symbol) <==> Dust(b, n) == 0.0)
  {
    hide B.StepBar, Dust, Session.At, E.Submit, E.FillInto, E.CashFlow, E.TicketProblem, Dict.Get, OneSymbol,
         R.FeesPaid;
    var run, k, t := PaperRun(b, last, cfg, symbol), |b.Trades(n - 1)|, TicketOf(b.TradeAt(n).value, symbol);
    var s := run.At(k);
    TradeIsEvent(b, n, last, cfg, symbol);
    TradeIsSound(b, n, symbol);
    NeverKilled(b, last, cfg, symbol, k);
    OrderFills(cfg, s, t);
    Unfold(run, k + 1);
    R.OneMoreFeePaid(b, n);
    var p := s.positions.Get(symbol, E.NO_POSITION);
    if b.BuyAt(n) {
      BuyInStep(b, n, p, symbol);
      NoDustWithoutSale(b, n);
    } else {
      SellInStep(b, n, p, symbol);
    }
  }

  // ----- Whole runs -----

  // The ledgers agree after each of the first n bars.
  ghost predicate AgreesUpTo(b: B.Backtest, n: nat, last: nat, cfg: E.Settings, symbol: string)
    requires b.Valid() && n <= last < |b.bars| && cfg.Valid()
    requires forall k :: 0 <= k <= n ==> |b.Trades(k)| <= |b.Trades(last)|
  {
    forall k :: 0 <= k <= n ==> SameLedger(b, k, PaperRun(b, last, cfg, symbol).At(|b.Trades(k)|), symbol)
  }

  ghost predicate NoDust(b: B.Backtest, n: nat)
    requires b.Valid() && n < |b.bars|
  {
    forall k :: 0 <= k <= n ==> Dust(b, k) == 0.0
  }

  lemma TradesWithin(b: B.Backtest, n: nat, last: nat)
    requires b.Valid() && n <= last < |b.bars|
    ensures forall k :: 0 <= k <= n ==> |b.Trades(k)| <= |b.Trades(last)|
  {
    forall k | 0 <= k <= n ensures |b.Trades(k)| <= |b.Trades(last)| {
      R.TradesGrow(b, k, last);
    }
  }

  // Submitting a backtest's trades as paper orders, limits off and every order approved, gives the
  // engine's quantity and average entry and its cash before fees after every bar, exactly when the
  // engine never zeroes a remainder as dust.
  lemma {:induction false} PaperAgreesIffNoDust(b: B.Backtest, n: nat, last: nat, cfg: E.Settings, symbol: string)
    requires b.Valid() && n <= last < |b.bars| && LimitsOff(b, last, cfg, symbol)
    ensures forall k :: 0 <= k <= n ==> |b.Trades(k)| <= |b.Trades(last)|
    ensures AgreesUpTo(b, n, last, cfg, symbol) <==> NoDust(b, n)
    ensures NoDust(b, n) ==> OneSymbol(PaperRun(b, last, cfg, symbol).At(|b.Trades(n)|), symbol)
  {
    hide B.StepBar, Dust, Session.At, SameLedger, OneSymbol, LimitsOff, PaperRun, B.Backtest.Trades;
    TradesWithin(b, n, last);
    if n == 0 {
      StartAgrees(b, last, cfg, symbol);
    } else {
      PaperAgreesIffNoDust(b, n - 1, last, cfg, symbol);
      if NoDust(b, n - 1) {
        if b.TradeAt(n).Some? {
          TradeStep(b, n, last, cfg, symbol);
        } else {
          IdleAgrees(b, n, last, cfg, symbol);
        }
      }
    }
  }

  lemma StartAgrees(b: B.Backtest, last: nat, cfg: E.Settings, symbol: string)
    requires b.Valid() && last < |b.bars| && LimitsOff(b, last, cfg, symbol)
    ensures Dust(b, 0) == 0.0 && |b.Trades(0)| == 0
    ensures var s := PaperRun(b, last, cfg, symbol).At(0); SameLedger(b, 0, s, symbol) && OneSymbol(s, symbol)
  {
  }

  lemma IdleAgrees(b: B.Backtest, n: nat, last: nat, cfg: E.Settings, symbol: string)
    requires b.Valid() && 0 < n <= last < |b.bars| && LimitsOff(b, last, cfg, symbol) && b.TradeAt(n).None?
    requires |b.Trades(n - 1)| <= |b.Trades(last)|
    requires SameLedger(b, n - 1, PaperRun(b, last, cfg, symbol).At(|b.Trades(n - 1)|), symbol)
    ensures Dust(b, n) == 0.0 && b.Trades(n) == b.Trades(n - 1)
    ensures SameLedger(b, n, PaperRun(b, last, cfg, symbol).At(|b.Trades(n)|), symbol)
  {
    hide B.StepBar, Session.At, PaperRun;
    R.IdleKeepsBooks(b, n);
  }
}
