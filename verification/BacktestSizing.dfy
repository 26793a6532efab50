/** What every bar rebalances to, in terms of signals, weights, cash and prices, and what each trade reports. */
module BacktestSizing {
  import opened Prelude
  import opened BacktestEngine
  import opened BacktestProperties

  // w is the share of equity that bar n asks for: the signal's share of the position size, or the risk
  // manager's target, cut to lie between nothing and the position size.
  ghost predicate TargetWeight(b: Backtest, n: nat, w: real)
    requires b.Valid() && 0 < n < |b.bars|
  {
    var size := b.cfg.positionSizePct;
    match b.advice[n]
    case NoManager =>
      var signal := b.signals[n - 1];
      && (0.0 <= signal <= 1.0 ==> w == Notional(signal, size))
      && (signal < 0.0 ==> w == 0.0) && (signal > 1.0 ==> w == size)
    case Manager(target, _) =>
      && (0.0 <= target <= size ==> w == target)
      && (target < 0.0 ==> w == 0.0) && (target > size ==> w == size)
  }

  lemma ShareOfSize(signal: real, size: real)
    requires size > 0.0
    ensures signal >= 0.0 ==> Notional(signal, size) >= 0.0
    ensures signal < 0.0 ==> Notional(signal, size) < 0.0
    ensures signal <= 1.0 ==> Notional(signal, size) <= size
    ensures signal > 1.0 ==> Notional(signal, size) > size
  {
    if signal >= 0.0 {
      MulNonNeg(signal, size);
    } else {
      MulBelow(signal, 0.0, size);
    }
    if signal <= 1.0 {
      MulMono(signal, 1.0, size);
    } else {
      MulBelow(1.0, signal, size);
    }
  }

  lemma WeightIsDesired(b: Backtest, n: nat, w: real)
    requires b.Valid() && 0 < n < |b.bars| && TargetWeight(b, n, w)
    ensures w == DesiredPosition(b.cfg, b.signals[n - 1], b.advice[n])
  {
    ShareOfSize(b.signals[n - 1], b.cfg.positionSizePct);
    DesiredIs(b.cfg, b.signals[n - 1], b.advice[n]);
    hide Notional, DesiredPosition;
  }

  lemma DesiredIs(cfg: Settings, signal: real, advice: Advice)
    ensures DesiredPosition(cfg, signal, advice)
         == Clip(if advice.Manager? then advice.target else Notional(signal, cfg.positionSizePct), 0.0,
                 cfg.positionSizePct)
  {
  }

  // What that share of the equity is worth at the bar's close.
  ghost function Wanted(b: Backtest, n: nat, w: real): real
    requires b.Valid() && 0 < n < |b.bars|
  {
    w * (b.At(n - 1).cash + b.At(n - 1).shares * b.bars[n].close)
  }

  // That many more shares are worth it.
  ghost predicate Gap(b: Backtest, n: nat, w: real, gap: real)
    requires b.Valid() && 0 < n < |b.bars|
  {
    Notional(b.At(n - 1).shares + gap, b.bars[n].close) == Wanted(b, n, w)
  }

  lemma GapIsDelta(cfg: Settings, bar: Bar, signal: real, advice: Advice, a: Account, gap: real)
    requires bar.Valid()
    requires (a.shares + gap) * bar.close == DesiredPosition(cfg, signal, advice) * (a.cash + a.shares * bar.close)
    ensures DeltaShares(cfg, bar, signal, advice, a) == gap
  {
    var equity, w := a.cash + a.shares * bar.close, DesiredPosition(cfg, signal, advice);
    TargetValue(equity, w, bar.close);
    assert equity * w == w * equity;
    CancelMul(equity * w / bar.close, a.shares + gap, bar.close);
  }

  ghost predicate Vetoed(b: Backtest, n: nat)
    requires b.Valid() && n < |b.bars|
  {
    b.advice[n].Manager? && !b.advice[n].approves
  }

  ghost predicate Exited(b: Backtest, n: nat)
    requires b.Valid() && n < |b.bars|
  {
    b.TradeAt(n).Some? && b.TradeAt(n).value.reason != Signal
  }

  // Nothing is traded, and cash, shares and entry stay.
  ghost predicate Untraded(a: Account, r: Step) {
    r.trade == None && r.account.cash == a.cash && r.account.shares == a.shares && r.account.entry == a.entry
  }

  ghost predicate Bought(a: Account, r: Step, quantity: real, price: real, fee: real) {
    && r.trade.Some? && r.trade.value.side == Buy && r.trade.value.quantity == quantity
    && r.trade.value.fillPrice == price
    && r.account.shares == a.shares + quantity && r.account.cash == a.cash - Notional(quantity, price) - fee
  }

  ghost predicate Sold(a: Account, r: Step, quantity: real, price: real, fee: real) {
    && r.trade.Some? && r.trade.value.side == Sell && r.trade.value.quantity == quantity
    && r.trade.value.fillPrice == price && r.trade.value.reason == Signal
    && r.account.cash == a.cash + Notional(quantity, price) - fee
    && r.account.shares == if a.shares - quantity <= EPSILON then 0.0 else a.shares - quantity
  }

  // What a bar without an exit does about a gap: nothing within EPSILON; nothing but counting a
  // rejection when vetoed; a purchase of the whole gap, or for all the cash there is, or none when the
  // cash buys no more than EPSILON; a sale of the whole gap, or of everything held.
  ghost predicate ClosesGap(cfg: Settings, close: real, vetoed: bool, a: Account, gap: real, r: Step) {
    var buyAt, sellAt, fee := close * (1.0 + cfg.slippagePct), close * (1.0 - cfg.slippagePct), cfg.fixedFee;
    if -EPSILON <= gap <= EPSILON then Untraded(a, r) && !r.rejected
    else if vetoed then Untraded(a, r) && r.rejected
    else
      && !r.rejected
      && if gap > 0.0 then
           if Notional(gap, buyAt) + fee <= a.cash then Bought(a, r, gap, buyAt, fee)
           else if Notional(EPSILON, buyAt) + fee < a.cash then
             r.trade.Some? && Bought(a, r, r.trade.value.quantity, buyAt, fee) && r.account.cash == 0.0
           else Untraded(a, r)
         else if a.shares == 0.0 then Untraded(a, r)
         else Sold(a, r, if a.shares + gap >= 0.0 then -gap else a.shares, sellAt, fee)
  }

  // An amount of cash buys that quantity, and no more.
  lemma AffordableIs(cfg: Settings, cash: real, price: real, q: real)
    requires price > 0.0 && q > 0.0
    ensures q <= Affordable(cfg, cash, price) <==> Notional(q, price) + cfg.fixedFee <= cash
    ensures Affordable(cfg, cash, price) > 0.0 ==> Notional(Affordable(cfg, cash, price), price) == cash - cfg.fixedFee
  {
    QuotientOrder(cash - cfg.fixedFee, price, q);
    DivMul(cash - cfg.fixedFee, price);
  }

  lemma BuyIs(cfg: Settings, bar: Bar, quantity: real, a: Account)
    requires cfg.Valid() && bar.Valid()
    ensures BuyPrice(cfg, bar.close) > 0.0
    ensures var price := BuyPrice(cfg, bar.close); var q := Min(quantity, Affordable(cfg, a.cash, price));
      var r := ExecuteBuy(cfg, bar, quantity, a);
      if quantity <= EPSILON || q <= EPSILON then r == Fill(a, None)
      else Bought(a, Step(r.account, r.trade, false), q, price, cfg.fixedFee)
  {
    PricesPositive(cfg, bar.close);
    hide BuyPrice, Affordable, WeightedAverage;
  }

  lemma BuyClosesGap(cfg: Settings, bar: Bar, a: Account, gap: real)
    requires cfg.Valid() && bar.Valid() && gap > EPSILON
    ensures var r := ExecuteBuy(cfg, bar, gap, a);
      ClosesGap(cfg, bar.close, false, a, gap, Step(r.account, r.trade, false))
  {
    var price := BuyPrice(cfg, bar.close);
    BuyIs(cfg, bar, gap, a);
    AffordableIs(cfg, a.cash, price, gap);
    AffordableIs(cfg, a.cash, price, EPSILON);
    BuyPriceIs(cfg, bar.close);
    hide BuyPrice, Affordable, Notional, ExecuteBuy;
  }

  lemma BuyPriceIs(cfg: Settings, close: real)
    ensures BuyPrice(cfg, close) == close * (1.0 + cfg.slippagePct)
  {
  }

  lemma QuotientOrder(x: real, y: real, q: real)
    requires y > 0.0
    ensures q <= x / y <==> q * y <= x
  {
    DivMul(x, y);
    if q <= x / y {
      MulMono(q, x / y, y);
    } else {
      MulPos(q - x / y, y);
      assert (q - x / y) * y == q * y - x;
    }
  }

  lemma SellClosesGap(cfg: Settings, bar: Bar, a: Account, gap: real)
    requires cfg.Valid() && bar.Valid() && gap < -EPSILON && (a.shares == 0.0 || a.shares > EPSILON)
    ensures var r := ExecuteSell(cfg, bar, bar.close, -gap, a, Signal);
      ClosesGap(cfg, bar.close, false, a, gap, Step(r.account, r.trade, false))
  {
    hide BuyPrice;
  }

  // The trailing peak plays no part in it.
  lemma PeakIsIrrelevant(cfg: Settings, close: real, vetoed: bool, a: Account, gap: real, r: Step, m: Account, s: Step)
    requires ClosesGap(cfg, close, vetoed, a, gap, r)
    requires m == a.(peak := m.peak) && s == r.(account := r.account.(peak := s.account.peak))
    ensures ClosesGap(cfg, close, vetoed, m, gap, s)
  {
  }

  lemma NoTradeClosesGap(cfg: Settings, close: real, vetoed: bool, a: Account, gap: real)
    requires -EPSILON <= gap <= EPSILON || vetoed
    ensures ClosesGap(cfg, close, vetoed, a, gap, Step(a, None, !(-EPSILON <= gap <= EPSILON)))
  {
  }

  lemma RebalanceClosesGap(cfg: Settings, bar: Bar, signal: real, advice: Advice, a: Account, m: Account, gap: real)
    requires cfg.Valid() && bar.Valid() && Inv(a) && m == a.(peak := m.peak)
    requires DeltaShares(cfg, bar, signal, advice, m) == gap
    ensures ClosesGap(cfg, bar.close, advice.Manager? && !advice.approves, a, gap,
                      Rebalance(cfg, bar, signal, advice, m))
  {
    var vetoed, r := advice.Manager? && !advice.approves, Rebalance(cfg, bar, signal, advice, m);
    hide DeltaShares, ExecuteBuy, ExecuteSell, DesiredPosition, ClosesGap;
    if vetoed || -EPSILON <= gap <= EPSILON {
      NoTradeClosesGap(cfg, bar.close, vetoed, m, gap);
      PeakIsIrrelevant(cfg, bar.close, vetoed, m, gap, r, a, r);
    } else if gap > EPSILON {
      var fill := ExecuteBuy(cfg, bar, gap, m);
      BuyClosesGap(cfg, bar, m, gap);
      PeakIsIrrelevant(cfg, bar.close, vetoed, m, gap, Step(fill.account, fill.trade, false), a, r);
    } else {
      var fill := ExecuteSell(cfg, bar, bar.close, -gap, m, Signal);
      SellClosesGap(cfg, bar, m, gap);
      PeakIsIrrelevant(cfg, bar.close, vetoed, m, gap, Step(fill.account, fill.trade, false), a, r);
    }
  }

  // Every bar of every run without a protective exit closes the gap to its target weight, as far as
  // the cash, the holding and the risk manager allow.
  lemma BarClosesGap(b: Backtest, n: nat, w: real, gap: real)
    requires b.Valid() && 0 < n < |b.bars| && TargetWeight(b, n, w) && Gap(b, n, w, gap) && !Exited(b, n)
    ensures ClosesGap(b.cfg, b.bars[n].close, Vetoed(b, n), b.At(n - 1), gap, b.StepAt(n))
  {
    hide ClosesGap, Rebalance, StepBar, DeltaShares, TargetWeight, Gap, Exited;
    AccountInv(b, n - 1);
    var a := b.At(n - 1);
    NotExited(b, n);
    DeltaIs(b, n, w, gap, UpdatePeak(b.bars[n], a));
    RebalanceClosesGap(b.cfg, b.bars[n], b.signals[n - 1], b.advice[n], a, UpdatePeak(b.bars[n], a), gap);
  }

  lemma DeltaIs(b: Backtest, n: nat, w: real, gap: real, m: Account)
    requires b.Valid() && 0 < n < |b.bars| && TargetWeight(b, n, w) && Gap(b, n, w, gap)
    requires m == b.At(n - 1).(peak := m.peak)
    ensures DeltaShares(b.cfg, b.bars[n], b.signals[n - 1], b.advice[n], m) == gap
  {
    hide DeltaShares, TargetWeight, DesiredPosition, Backtest.At;
    WeightIsDesired(b, n, w);
    GapIsDelta(b.cfg, b.bars[n], b.signals[n - 1], b.advice[n], m, gap);
  }

  lemma NotExited(b: Backtest, n: nat)
    requires b.Valid() && 0 < n < |b.bars| && !Exited(b, n)
    ensures var m := UpdatePeak(b.bars[n], b.At(n - 1));
      b.StepAt(n) == Rebalance(b.cfg, b.bars[n], b.signals[n - 1], b.advice[n], m)
  {
    AccountInv(b, n - 1);
    if Held(b.At(n - 1)) {
      ExitKind(b.cfg, b.bars[n], b.At(n - 1));
    }
    hide Rebalance, ApplyProtectiveExit, SellStep, StopHit, TargetHit, TrailHit;
  }

  // So a purchase that the cash covers, and a sale that leaves more than EPSILON, end with exactly the
  // wanted share of the equity in the asset; a purchase that the cash does not cover ends with none left.
  lemma EndsAtTarget(b: Backtest, n: nat, w: real)
    requires b.Valid() && 0 < n < |b.bars| && TargetWeight(b, n, w) && b.TradeAt(n).Some? && !Exited(b, n)
    ensures Reached(b.bars[n].close, Wanted(b, n, w), b.TradeAt(n).value.side, b.At(n))
  {
    hide StepBar, ClosesGap, Reached, TargetWeight;
    var close, a, target := b.bars[n].close, b.At(n - 1), Wanted(b, n, w);
    var gap := target / close - a.shares;
    DivMul(target, close);
    assert Notional(a.shares + gap, close) == target;
    hide Notional;
    BarClosesGap(b, n, w, gap);
    TargetReached(b.cfg, close, Vetoed(b, n), a, gap, target, b.StepAt(n));
    BarExtends(b, n);
  }

  // The holding is worth its target, or the cash is used up below it, or nothing is left above it.
  ghost predicate Reached(close: real, target: real, side: Side, a: Account) {
    var worth := Notional(a.shares, close);
    worth == target || if side == Buy then a.cash == 0.0 && worth < target
                       else a.shares == 0.0 && target <= EPSILON * close
  }

  lemma TargetReached(cfg: Settings, close: real, vetoed: bool, a: Account, gap: real, target: real, r: Step)
    requires cfg.Valid() && close > 0.0 && Notional(a.shares + gap, close) == target && r.trade.Some?
    requires ClosesGap(cfg, close, vetoed, a, gap, r)
    ensures Reached(close, target, r.trade.value.side, r.account)
  {
    PartlyBought(cfg, close, a, gap, r.trade.value.quantity);
    NotionalOrder(r.account.shares, a.shares + gap, close);
    NotionalOrder(EPSILON, a.shares + gap, close);
    assert Notional(EPSILON, close) == EPSILON * close;
    hide Notional;
    if gap < 0.0 && r.account.shares != 0.0 {
      assert r.account.shares == a.shares + gap;
    }
  }

  lemma NotionalOrder(x: real, y: real, k: real)
    requires k > 0.0
    ensures x < y <==> Notional(x, k) < Notional(y, k)
  {
    MulBelow(x, y, k);
    MulBelow(y, x, k);
  }

  lemma PartlyBought(cfg: Settings, close: real, a: Account, gap: real, quantity: real)
    requires cfg.Valid() && close > 0.0
    ensures var price := close * (1.0 + cfg.slippagePct);
      Notional(quantity, price) < Notional(gap, price) ==> quantity < gap
  {
    var price := close * (1.0 + cfg.slippagePct);
    MulPos(close, 1.0 + cfg.slippagePct);
    if quantity >= gap {
      MulMono(gap, quantity, price);
    }
  }

  lemma MulBelow(x: real, y: real, k: real)
    requires k > 0.0
    ensures x < y ==> x * k < y * k
  {
    if x < y {
      MulPos(y - x, k);
    }
  }

  // ----- When and where exits fill -----

  // A bar that starts with a holding exits exactly when its low reaches the stop below the entry, or its
  // high the target above it, or its low the trailing stop below the highest price since the last buy,
  // this bar's high included; and the first of the three in this order is the reason given.
  lemma ExitedIff(b: Backtest, n: nat)
    requires b.Valid() && 0 < n < |b.bars|
    ensures var a, bar := b.At(n - 1), b.bars[n];
      if a.shares == 0.0 then !Exited(b, n)
      else
        && a.entry.Some? && a.peak.Some?
        && var peak := Some(if bar.high > a.peak.value then bar.high else a.peak.value);
        var stop, target := StopHit(b.cfg, bar, a.entry.value), TargetHit(b.cfg, bar, a.entry.value);
        && (Exited(b, n) <==> stop || target || TrailHit(b.cfg, bar, peak))
        && (Exited(b, n) ==>
              b.TradeAt(n).value.reason == if stop then StopLoss else if target then TakeProfit else TrailingStop)
  {
    hide StepBar, StopHit, TargetHit, TrailHit;
    AccountInv(b, n - 1);
    var a, bar := b.At(n - 1), b.bars[n];
    var signal, advice := b.signals[n - 1], b.advice[n];
    NoExitInRebalance(b.cfg, bar, signal, advice, UpdatePeak(bar, a));
    StepBranches(b.cfg, bar, signal, advice, a);
    if Held(a) {
      ExitKind(b.cfg, bar, a);
      hide Rebalance, ApplyProtectiveExit, SellStep;
    }
  }

  lemma NoExitInRebalance(cfg: Settings, bar: Bar, signal: real, advice: Advice, m: Account)
    requires cfg.Valid() && bar.Valid()
    ensures var t := Rebalance(cfg, bar, signal, advice, m).trade; t.Some? ==> t.value.reason == Signal
  {
    hide DeltaShares;
    SignalReason(cfg, bar, DeltaShares(cfg, bar, signal, advice, m), m);
    hide ExecuteBuy, ExecuteSell;
  }

  lemma StepBranches(cfg: Settings, bar: Bar, signal: real, advice: Advice, a: Account)
    requires cfg.Valid() && bar.Valid() && Inv(a)
    ensures var m, r := UpdatePeak(bar, a), StepBar(cfg, bar, signal, advice, a);
      if Held(a) && ApplyProtectiveExit(cfg, bar, m).1
      then r.trade == ApplyProtectiveExit(cfg, bar, m).0.trade
      else r == Rebalance(cfg, bar, signal, advice, m)
  {
    hide Rebalance, ApplyProtectiveExit;
  }

  // The trade fills at the level of its rule, slipped against it.
  ghost predicate FilledAtLevel(cfg: Settings, t: Trade, entry: real, peak: real) {
    var slip := 1.0 - cfg.slippagePct;
    match t.reason
    case StopLoss => cfg.stopLossPct.Some? && t.fillPrice == entry * (1.0 - cfg.stopLossPct.value) * slip
    case TakeProfit => cfg.takeProfitPct.Some? && t.fillPrice == entry * (1.0 + cfg.takeProfitPct.value) * slip
    case TrailingStop =>
      cfg.trailingStopPct.Some? && t.fillPrice == peak * (1.0 - cfg.trailingStopPct.value) * slip
    case Signal => false
  }

  lemma TriggerFills(cfg: Settings, bar: Bar, entry: real, peak: real, level: real, t: Trade)
    requires ProtectiveTrigger(cfg, bar, entry, Some(peak)) == Some((t.reason, level))
    requires t.fillPrice == SellPrice(cfg, level)
    ensures FilledAtLevel(cfg, t, entry, peak)
  {
  }

  // A protective exit sells everything at that level: a distance below or above the entry, or below the
  // highest price since the last buy, this bar's high included.
  lemma ExitFillsAt(b: Backtest, n: nat)
    requires b.Valid() && 0 < n < |b.bars| && Exited(b, n)
    ensures b.At(n - 1).entry.Some? && b.At(n - 1).peak.Some?
    ensures var t, before := b.TradeAt(n).value, b.At(n - 1);
      && t.side == Sell && t.quantity == before.shares && b.At(n).shares == 0.0
      && FilledAtLevel(b.cfg, t, before.entry.value, Max(before.peak.value, b.bars[n].high))
  {
    hide StepBar, BuyPrice, SellPrice, ProtectiveTrigger, FilledAtLevel;
    KindAt(b, n);
    var t, before := b.TradeAt(n).value, b.At(n - 1);
    var level := SellReference(b.cfg, b.bars[n], before, t).value;
    TriggerFills(b.cfg, b.bars[n], before.entry.value, Max(before.peak.value, b.bars[n].high), level, t);
  }

  // ----- What is reported -----

  // A rejection is counted exactly on the bars where the manager vetoes a gap above EPSILON.
  lemma RejectionIff(b: Backtest, n: nat, w: real, gap: real)
    requires b.Valid() && 0 < n < |b.bars| && TargetWeight(b, n, w) && Gap(b, n, w, gap)
    ensures b.Rejections(n) == b.Rejections(n - 1)
              + if !Exited(b, n) && Vetoed(b, n) && !(-EPSILON <= gap <= EPSILON) then 1 else 0
  {
    hide StepBar, TargetWeight, Gap, Untraded, Bought, Sold;
    if Exited(b, n) {
      ExitNotRejected(b, n);
    } else {
      BarClosesGap(b, n, w, gap);
    }
  }

  lemma ExitNotRejected(b: Backtest, n: nat)
    requires b.Valid() && 0 < n < |b.bars| && Exited(b, n)
    ensures !b.StepAt(n).rejected
  {
    hide ApplyProtectiveExit, DeltaShares;
    var bar, a := b.bars[n], UpdatePeak(b.bars[n], b.At(n - 1));
    var delta := DeltaShares(b.cfg, bar, b.signals[n - 1], b.advice[n], a);
    SignalReason(b.cfg, bar, delta, a);
    hide ExecuteBuy, ExecuteSell;
  }

  lemma SignalReason(cfg: Settings, bar: Bar, delta: real, a: Account)
    requires cfg.Valid() && bar.Valid()
    ensures var t := ExecuteBuy(cfg, bar, delta, a).trade; t.Some? ==> t.value.reason == Signal
    ensures var t := ExecuteSell(cfg, bar, bar.close, -delta, a, Signal).trade; t.Some? ==> t.value.reason == Signal
  {
    hide WeightedAverage, Affordable, BuyPrice, SellPrice;
  }

  // The trade, if there is one, carries its bar's time, the fee, and the cash, shares and equity it left.
  ghost predicate Reports(cfg: Settings, bar: Bar, a: Account, trade: Option<Trade>) {
    trade.Some? ==>
      var t := trade.value;
      && t.timestamp == bar.timestamp && t.fee == cfg.fixedFee
      && t.cashAfter == a.cash && t.sharesAfter == a.shares && t.equityAfter == a.cash + a.shares * bar.close
  }

  lemma BuyReports(cfg: Settings, bar: Bar, q: real, a: Account, p: Option<real>)
    requires cfg.Valid() && bar.Valid()
    ensures var r := ExecuteBuy(cfg, bar, q, a); Reports(cfg, bar, r.account.(peak := p), r.trade)
  {
    hide WeightedAverage, Affordable, BuyPrice, SellPrice;
  }

  lemma SellReports(cfg: Settings, bar: Bar, level: real, q: real, a: Account, reason: Reason, p: Option<real>)
    requires cfg.Valid() && bar.Valid()
    ensures var r := ExecuteSell(cfg, bar, level, q, a, reason); Reports(cfg, bar, r.account.(peak := p), r.trade)
  {
    hide BuyPrice, SellPrice;
  }

  lemma StepReports(cfg: Settings, bar: Bar, signal: real, advice: Advice, a: Account)
    requires cfg.Valid() && bar.Valid()
    ensures var r := StepBar(cfg, bar, signal, advice, a); Reports(cfg, bar, r.account, r.trade)
  {
    hide ProtectiveTrigger, DeltaShares, ExecuteBuy, ExecuteSell, Reports;
    var m, r := UpdatePeak(bar, a), StepBar(cfg, bar, signal, advice, a);
    var delta := DeltaShares(cfg, bar, signal, advice, m);
    BuyReports(cfg, bar, delta, m, r.account.peak);
    SellReports(cfg, bar, bar.close, -delta, m, Signal, r.account.peak);
    NothingReported(cfg, bar, r.account);
    if m.entry.Some? {
      var trigger := ProtectiveTrigger(cfg, bar, m.entry.value, m.peak);
      if trigger.Some? {
        SellReports(cfg, bar, trigger.value.1, m.shares, m, trigger.value.0, r.account.peak);
      }
    }
  }

  lemma NothingReported(cfg: Settings, bar: Bar, a: Account)
    ensures Reports(cfg, bar, a, None)
  {
  }

  // Each logged trade carries its bar's time, the fee, and the cash, shares and equity after it.
  lemma TradeReports(b: Backtest, n: nat)
    requires b.Valid() && n < |b.bars| && b.TradeAt(n).Some?
    ensures var t := b.TradeAt(n).value;
      && t.timestamp == b.bars[n].timestamp && t.fee == b.cfg.fixedFee
      && t.cashAfter == b.At(n).cash && t.sharesAfter == b.At(n).shares && t.equityAfter == b.Equity(n)
  {
    hide StepBar;
    StepReports(b.cfg, b.bars[n], b.signals[n - 1], b.advice[n], b.At(n - 1));
    BarExtends(b, n);
  }

  // The reported position is the share of the equity that is held, and nothing at no equity.
  lemma PositionIsShare(b: Backtest, n: nat)
    requires b.Valid() && n < |b.bars|
    ensures b.Equity(n) > 0.0 ==> b.PositionPct(n) * b.Equity(n) == b.At(n).shares * b.bars[n].close
    ensures b.Equity(n) <= 0.0 ==> b.PositionPct(n) == 0.0
  {
    hide Backtest.At;
    if b.Equity(n) > 0.0 {
      DivMul(b.At(n).shares * b.bars[n].close, b.Equity(n));
      hide Backtest.Equity;
    }
  }

  // Raw signals between zero and one are used as they are, others as the nearer of the two.
  lemma SignalsAreClipped(raw: seq<real>, i: nat)
    requires i < |raw|
    ensures |ClipSignals(raw)| == |raw|
    ensures var signal := ClipSignals(raw)[i];
      && 0.0 <= signal <= 1.0
      && (0.0 <= raw[i] <= 1.0 ==> signal == raw[i])
      && (raw[i] < 0.0 ==> signal == 0.0) && (raw[i] > 1.0 ==> signal == 1.0)
  {
  }
}
