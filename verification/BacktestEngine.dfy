/** The long-only bar-by-bar portfolio simulation of src/backtest/engine.py. */
module BacktestEngine {
  import opened Prelude

  datatype Settings = Settings(
    initialCapital: real,
    positionSizePct: real,
    fixedFee: real,
    slippagePct: real,
    stopLossPct: Option<real>,
    takeProfitPct: Option<real>,
    trailingStopPct: Option<real>)
  {
    // What the engine's constructor accepts.
    predicate Valid() {
      && initialCapital > 0.0
      && 0.0 < positionSizePct <= 1.0
      && fixedFee >= 0.0
      && 0.0 <= slippagePct < 1.0
      && (stopLossPct.Some? ==> 0.0 < stopLossPct.value < 1.0)
      && (takeProfitPct.Some? ==> 0.0 < takeProfitPct.value)
      && (trailingStopPct.Some? ==> 0.0 < trailingStopPct.value < 1.0)
    }
  }

  datatype Bar = Bar(timestamp: int, open: real, high: real, low: real, close: real) {
    predicate PositivePrices() {
      open > 0.0 && high > 0.0 && low > 0.0 && close > 0.0
    }

    predicate Valid() {
      PositivePrices() && high >= low
    }
  }

  // What a risk manager answers on one bar. Its code is not modelled, so the answers are inputs.
  datatype Advice = NoManager | Manager(target: real, approves: bool)

  datatype Side = Buy | Sell

  datatype Reason = Signal | StopLoss | TakeProfit | TrailingStop

  datatype Trade = Trade(
    timestamp: int, side: Side, quantity: real, fillPrice: real, fee: real, reason: Reason,
    cashAfter: real, sharesAfter: real, equityAfter: real)

  // The loop variables of the simulation.
  datatype Account = Account(cash: real, shares: real, entry: Option<real>, peak: Option<real>)

  datatype Fill = Fill(account: Account, trade: Option<Trade>)

  datatype Step = Step(account: Account, trade: Option<Trade>, rejected: bool)

  // ----- Fills -----

  // Slippage always works against the trade.
  function BuyPrice(cfg: Settings, reference: real): real {
    reference * (1.0 + cfg.slippagePct)
  }

  function SellPrice(cfg: Settings, reference: real): real {
    reference * (1.0 - cfg.slippagePct)
  }

  function Affordable(cfg: Settings, cash: real, fillPrice: real): real
    requires fillPrice > 0.0
  {
    Max((cash - cfg.fixedFee) / fillPrice, 0.0)
  }

  lemma PricesPositive(cfg: Settings, reference: real)
    requires cfg.Valid() && reference > 0.0
    ensures BuyPrice(cfg, reference) > 0.0 && SellPrice(cfg, reference) > 0.0
  {
    var up, down := 1.0 + cfg.slippagePct, 1.0 - cfg.slippagePct;
    MulPos(reference, up);
    MulPos(reference, down);
    assert BuyPrice(cfg, reference) == reference * up;
    assert SellPrice(cfg, reference) == reference * down;
  }

  function ExecuteBuy(cfg: Settings, bar: Bar, quantity: real, a: Account): (r: Fill)
    requires cfg.Valid() && bar.Valid()
    ensures r.account.peak == a.peak
  {
    if quantity <= EPSILON then Fill(a, None)
    else
      PricesPositive(cfg, bar.close);
      var fillPrice := BuyPrice(cfg, bar.close);
      var fillQuantity := Min(quantity, Affordable(cfg, a.cash, fillPrice));
      if fillQuantity <= EPSILON then Fill(a, None)
      else
        var nextCash := a.cash - (fillQuantity * fillPrice + cfg.fixedFee);
        var nextShares := a.shares + fillQuantity;
        var nextEntry :=
          if a.shares <= EPSILON || a.entry.None? then fillPrice
          else WeightedAverage(a.shares, a.entry.value, fillQuantity, fillPrice);
        Fill(Account(nextCash, nextShares, Some(nextEntry), a.peak),
             Some(Trade(bar.timestamp, Buy, fillQuantity, fillPrice, cfg.fixedFee, Signal,
                        nextCash, nextShares, nextCash + nextShares * bar.close)))
  }

  function ExecuteSell(cfg: Settings, bar: Bar, reference: real, quantity: real, a: Account, reason: Reason): (r: Fill)
    requires cfg.Valid()
    ensures r.account.peak == a.peak
  {
    if quantity <= EPSILON || a.shares <= EPSILON then Fill(a, None)
    else
      var fillQuantity := Min(quantity, a.shares);
      var fillPrice := SellPrice(cfg, reference);
      var nextCash := a.cash + (fillQuantity * fillPrice - cfg.fixedFee);
      var remaining := a.shares - fillQuantity;
      var nextShares := if remaining <= EPSILON then 0.0 else remaining;
      var nextEntry := if remaining <= EPSILON then None else a.entry;
      Fill(Account(nextCash, nextShares, nextEntry, a.peak),
           Some(Trade(bar.timestamp, Sell, fillQuantity, fillPrice, cfg.fixedFee, reason,
                      nextCash, nextShares, nextCash + nextShares * bar.close)))
  }

  function BelowBy(price: real, pct: real): real {
    price * (1.0 - pct)
  }

  function AboveBy(price: real, pct: real): real {
    price * (1.0 + pct)
  }

  // The first protective rule that fires on this bar, with its reference price: stop loss,
  // then take profit, then trailing stop.
  function ProtectiveTrigger(cfg: Settings, bar: Bar, entry: real, peak: Option<real>): Option<(Reason, real)>
  {
    if cfg.stopLossPct.Some? && bar.low <= BelowBy(entry, cfg.stopLossPct.value) then
      Some((StopLoss, BelowBy(entry, cfg.stopLossPct.value)))
    else if cfg.takeProfitPct.Some? && bar.high >= AboveBy(entry, cfg.takeProfitPct.value) then
      Some((TakeProfit, AboveBy(entry, cfg.takeProfitPct.value)))
    else if cfg.trailingStopPct.Some? && peak.Some? && bar.low <= BelowBy(peak.value, cfg.trailingStopPct.value) then
      Some((TrailingStop, BelowBy(peak.value, cfg.trailingStopPct.value)))
    else None
  }

  function ApplyProtectiveExit(cfg: Settings, bar: Bar, a: Account): (r: (Fill, bool))
    requires cfg.Valid() && a.entry.Some?
    ensures !r.1 ==> r.0 == Fill(a, None)
  {
    var trigger := ProtectiveTrigger(cfg, bar, a.entry.value, a.peak);
    if trigger.None? then (Fill(a, None), false)
    else
      var fill := ExecuteSell(cfg, bar, trigger.value.1, a.shares, a, trigger.value.0);
      (Fill(fill.account.(peak := None), fill.trade), true)
  }

  // ----- One bar -----

  function UpdatePeak(bar: Bar, a: Account): Account {
    a.(peak :=
      if a.shares > EPSILON then Some(if a.peak.None? then bar.high else Max(a.peak.value, bar.high)) else None)
  }

  function DesiredPosition(cfg: Settings, signal: real, advice: Advice): real {
    Clip(if advice.Manager? then advice.target else signal * cfg.positionSizePct, 0.0, cfg.positionSizePct)
  }

  function DeltaShares(cfg: Settings, bar: Bar, signal: real, advice: Advice, a: Account): real
    requires bar.Valid()
  {
    (a.cash + a.shares * bar.close) * DesiredPosition(cfg, signal, advice) / bar.close - a.shares
  }

  // Moves towards the signal's target weight.
  function Rebalance(cfg: Settings, bar: Bar, signal: real, advice: Advice, a: Account): Step
    requires cfg.Valid() && bar.Valid()
  {
    var delta := DeltaShares(cfg, bar, signal, advice, a);
    if delta > EPSILON then
      if advice.Manager? && !advice.approves then Step(a, None, true)
      else
        var fill := ExecuteBuy(cfg, bar, delta, a);
        if fill.trade.None? then Step(fill.account, None, false)
        else Step(fill.account.(peak := Some(Max(bar.high, fill.trade.value.fillPrice))), fill.trade, false)
    else if delta < -EPSILON then
      if advice.Manager? && !advice.approves then Step(a, None, true)
      else
        var fill := ExecuteSell(cfg, bar, bar.close, -delta, a, Signal);
        if fill.trade.Some? && fill.account.shares <= EPSILON then Step(fill.account.(peak := None), fill.trade, false)
        else Step(fill.account, fill.trade, false)
    else Step(a, None, false)
  }

  function StepBar(cfg: Settings, bar: Bar, signal: real, advice: Advice, a: Account): Step
    requires cfg.Valid() && bar.Valid()
  {
    var marked := UpdatePeak(bar, a);
    if marked.shares > EPSILON && marked.entry.Some? then
      var (fill, triggered) := ApplyProtectiveExit(cfg, bar, marked);
      if triggered then Step(fill.account, fill.trade, false)
      else Rebalance(cfg, bar, signal, advice, marked)
    else Rebalance(cfg, bar, signal, advice, marked)
  }

  // ----- Whole runs -----

  // One backtest: settings, market data, clipped signals and the risk manager's answers, bar by bar.
  datatype Backtest = Backtest(cfg: Settings, bars: seq<Bar>, signals: seq<real>, advice: seq<Advice>) {

    ghost predicate Valid() {
      && cfg.Valid()
      && 0 < |bars| == |signals| == |advice|
      && forall i :: 0 <= i < |bars| ==> bars[i].Valid()
    }

    // The loop variables once bars 1..n have been processed; bar 0 only opens the account.
    function At(n: nat): Account
      requires Valid() && n < |bars|
      decreases n, 1
    {
      if n == 0 then Account(cfg.initialCapital, 0.0, None, None) else StepAt(n).account
    }

    function StepAt(n: nat): Step
      requires Valid() && 0 < n < |bars|
      decreases n, 0
    {
      StepBar(cfg, bars[n], signals[n - 1], advice[n], At(n - 1))
    }

    function TradeAt(n: nat): Option<Trade>
      requires Valid() && n < |bars|
    {
      if n == 0 then None else StepAt(n).trade
    }

    // The trade log after bar n, oldest first.
    function Trades(n: nat): seq<Trade>
      requires Valid() && n < |bars|
    {
      if n == 0 then [] else
        Trades(n - 1) + if TradeAt(n).Some? then [TradeAt(n).value] else []
    }

    function Equity(n: nat): real
      requires Valid() && n < |bars|
    {
      At(n).cash + At(n).shares * bars[n].close
    }

    // The share of equity held in the asset after bar n.
    function PositionPct(n: nat): real
      requires Valid() && n < |bars|
    {
      if Equity(n) > 0.0 then At(n).shares * bars[n].close / Equity(n) else 0.0
    }

    function Rejections(n: nat): nat
      requires Valid() && n < |bars|
    {
      if n == 0 then 0 else Rejections(n - 1) + if StepAt(n).rejected then 1 else 0
    }

    ghost predicate BuyAt(n: nat)
      requires Valid() && n < |bars|
    {
      TradeAt(n).Some? && TradeAt(n).value.side == Buy
    }

    ghost predicate SellAt(n: nat)
      requires Valid() && n < |bars|
    {
      TradeAt(n).Some? && TradeAt(n).value.side == Sell
    }
  }

  // ----- The engine's entry point -----

  datatype RunError = EmptyData | NonPositivePrice | HighBelowLow | NegativeSignal

  datatype BacktestResult = BacktestResult(
    equityCurve: seq<real>, positionSeries: seq<real>, trades: seq<Trade>, rejectedOrders: nat)

  function ClipSignals(raw: seq<real>): seq<real> {
    seq(|raw|, i requires 0 <= i < |raw| => Clip(raw[i], 0.0, 1.0))
  }

  ghost predicate AllPositive(bars: seq<Bar>) {
    forall i :: 0 <= i < |bars| ==> bars[i].PositivePrices()
  }

  ghost predicate AllOrdered(bars: seq<Bar>) {
    forall i :: 0 <= i < |bars| ==> bars[i].high >= bars[i].low
  }

  // e is what the first failing check reports: emptiness, prices, highs and lows, then signals.
  ghost predicate FirstError(bars: seq<Bar>, raw: seq<real>, e: RunError) {
    match e
    case EmptyData => bars == []
    case NonPositivePrice => bars != [] && !AllPositive(bars)
    case HighBelowLow => bars != [] && AllPositive(bars) && !AllOrdered(bars)
    case NegativeSignal =>
      bars != [] && AllPositive(bars) && AllOrdered(bars) && exists i :: 0 <= i < |raw| && raw[i] < -EPSILON
  }

  method CheckInput(bars: seq<Bar>, raw: seq<real>) returns (e: Option<RunError>)
    ensures e.Some? ==> FirstError(bars, raw, e.value)
    ensures e.None? ==> bars != [] && (forall i :: 0 <= i < |bars| ==> bars[i].Valid())
                        && forall i :: 0 <= i < |raw| ==> raw[i] >= -EPSILON
  {
    if bars == [] {
      return Some(EmptyData);
    }
    for i := 0 to |bars|
      invariant forall k :: 0 <= k < i ==> bars[k].PositivePrices()
    {
      if !bars[i].PositivePrices() {
        return Some(NonPositivePrice);
      }
    }
    for i := 0 to |bars|
      invariant forall k :: 0 <= k < i ==> bars[k].high >= bars[k].low
    {
      if bars[i].high < bars[i].low {
        return Some(HighBelowLow);
      }
    }
    for i := 0 to |raw|
      invariant forall k :: 0 <= k < i ==> raw[k] >= -EPSILON
    {
      if raw[i] < -EPSILON {
        return Some(NegativeSignal);
      }
    }
    return None;
  }

  // The body of the simulation loop: updates the loop variables in place for one bar.
  method ProcessBar(cfg: Settings, bar: Bar, signal: real, advice: Advice, a: Account) returns (r: Step)
    requires cfg.Valid() && bar.Valid()
    ensures r == StepBar(cfg, bar, signal, advice, a)
  {
    hide ExecuteBuy, ExecuteSell, ApplyProtectiveExit, DeltaShares;
    var cash, shares, entry, peak := a.cash, a.shares, a.entry, a.peak;
    var trade: Option<Trade>, rejected := None, false;

    if shares > EPSILON {
      peak := Some(if peak.None? then bar.high else Max(peak.value, bar.high));
    } else {
      peak := None;
    }
    ghost var marked := Account(cash, shares, entry, peak);
    assert marked == UpdatePeak(bar, a);

    var triggered := false;
    if shares > EPSILON && entry.Some? {
      var (exit, fired) := ApplyProtectiveExit(cfg, bar, Account(cash, shares, entry, peak));
      cash, shares, entry, peak := exit.account.cash, exit.account.shares, exit.account.entry, exit.account.peak;
      trade, triggered := exit.trade, fired;
    }

    if !triggered {
      var delta := DeltaShares(cfg, bar, signal, advice, Account(cash, shares, entry, peak));
      if delta > EPSILON {
        if advice.Manager? && !advice.approves {
          rejected := true;
        } else {
          var fill := ExecuteBuy(cfg, bar, delta, Account(cash, shares, entry, peak));
          cash, shares, entry := fill.account.cash, fill.account.shares, fill.account.entry;
          trade := fill.trade;
          if trade.Some? {
            peak := Some(Max(bar.high, trade.value.fillPrice));
          }
        }
      } else if delta < -EPSILON {
        if advice.Manager? && !advice.approves {
          rejected := true;
        } else {
          var fill := ExecuteSell(cfg, bar, bar.close, -delta, Account(cash, shares, entry, peak), Signal);
          cash, shares, entry := fill.account.cash, fill.account.shares, fill.account.entry;
          trade := fill.trade;
          if trade.Some? && shares <= EPSILON {
            peak := None;
          }
        }
      }
    }
    return Step(Account(cash, shares, entry, peak), trade, rejected);
  }

  // How each list and counter of the simulation grows at bar n.
  lemma BarExtends(b: Backtest, n: nat)
    requires b.Valid() && 0 < n < |b.bars|
    ensures b.StepAt(n) == StepBar(b.cfg, b.bars[n], b.signals[n - 1], b.advice[n], b.At(n - 1))
    ensures b.At(n) == b.StepAt(n).account
    ensures b.Trades(n) == b.Trades(n - 1) + if b.StepAt(n).trade.Some? then [b.StepAt(n).trade.value] else []
    ensures b.Rejections(n) == b.Rejections(n - 1) + if b.StepAt(n).rejected then 1 else 0
    ensures b.Equity(n) == b.At(n).cash + b.At(n).shares * b.bars[n].close
    ensures b.PositionPct(n) == if b.Equity(n) > 0.0 then b.At(n).shares * b.bars[n].close / b.Equity(n) else 0.0
  {
    hide StepBar;
  }

  lemma OpeningBar(b: Backtest)
    requires b.Valid()
    ensures b.At(0) == Account(b.cfg.initialCapital, 0.0, None, None)
    ensures b.Trades(0) == [] && b.Rejections(0) == 0
    ensures b.Equity(0) == b.cfg.initialCapital && b.PositionPct(0) == 0.0
  {
  }

  // BacktestEngine.run: grows the equity, position and trade lists bar by bar. The postcondition
  // says what each list holds and exactly which inputs are refused.
  method Run(cfg: Settings, bars: seq<Bar>, raw: seq<real>, advice: seq<Advice>)
    returns (r: Result<BacktestResult, RunError>)
    requires cfg.Valid() && |raw| == |bars| == |advice|
    ensures r.Failure? <==> bars == [] || exists i :: 0 <= i < |bars| && (!bars[i].Valid() || raw[i] < -EPSILON)
    ensures r.Failure? ==> FirstError(bars, raw, r.error)
    ensures r.Success? ==>
              var b := Backtest(cfg, bars, ClipSignals(raw), advice);
              && b.Valid()
              && |r.value.equityCurve| == |r.value.positionSeries| == |bars|
              && (forall k :: 0 <= k < |bars| ==> r.value.equityCurve[k] == b.Equity(k))
              && (forall k :: 0 <= k < |bars| ==> r.value.positionSeries[k] == b.PositionPct(k))
              && r.value.trades == b.Trades(|bars| - 1)
              && r.value.rejectedOrders == b.Rejections(|bars| - 1)
  {
    hide StepBar, Backtest.At, Backtest.StepAt, Backtest.Trades, Backtest.Rejections, Backtest.Equity,
        Backtest.PositionPct;
    var problem := CheckInput(bars, raw);
    if problem.Some? {
      return Failure(problem.value);
    }
    var signals := ClipSignals(raw);
    ghost var b := Backtest(cfg, bars, signals, advice);
    OpeningBar(b);

    var account := Account(cfg.initialCapital, 0.0, None, None);
    var equityValues, positionValues := [cfg.initialCapital], [0.0];
    var trades: seq<Trade> := [];
    var rejected := 0;

    for i := 1 to |bars|
      invariant account == b.At(i - 1)
      invariant |equityValues| == |positionValues| == i
      invariant forall k :: 0 <= k < i ==> equityValues[k] == b.Equity(k)
      invariant forall k :: 0 <= k < i ==> positionValues[k] == b.PositionPct(k)
      invariant trades == b.Trades(i - 1)
      invariant rejected == b.Rejections(i - 1)
    {
      var step := ProcessBar(cfg, bars[i], signals[i - 1], advice[i], account);
      BarExtends(b, i);
      account := step.account;
      if step.trade.Some? {
        trades := trades + [step.trade.value];
      }
      if step.rejected {
        rejected := rejected + 1;
      }
      var equity := account.cash + account.shares * bars[i].close;
      equityValues := equityValues + [equity];
      positionValues := positionValues + [if equity > 0.0 then account.shares * bars[i].close / equity else 0.0];
    }
    return Success(BacktestResult(equityValues, positionValues, trades, rejected));
  }
}
