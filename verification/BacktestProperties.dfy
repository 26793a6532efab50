/** What every backtest keeps, bar after bar: the loop invariant, self-financing, and the stop-out bound. */
module BacktestProperties {
  import opened Prelude
  import opened BacktestEngine

  // ----- One bar, by kind of step -----

  ghost predicate Flat(a: Account) {
    a.shares == 0.0 && a.entry == None
  }

  ghost predicate Held(a: Account) {
    a.shares > EPSILON && a.entry.Some? && a.entry.value > 0.0 && a.peak.Some? && a.peak.value > 0.0
  }

  ghost predicate Inv(a: Account) {
    (Flat(a) && a.peak == None) || Held(a)
  }

  ghost predicate IdleStep(bar: Bar, a: Account, r: Step) {
    r.trade == None && r.account == UpdatePeak(bar, a)
  }

  ghost predicate BuyStep(cfg: Settings, bar: Bar, a: Account, r: Step) {
    && r.trade.Some?
    && var t := r.trade.value;
    && t.side == Buy && t.reason == Signal && t.fee == cfg.fixedFee && t.timestamp == bar.timestamp
    && t.quantity > EPSILON
    && t.fillPrice == BuyPrice(cfg, bar.close)
    && t.fillPrice > 0.0
    && r.account.cash == a.cash - (t.quantity * t.fillPrice + cfg.fixedFee)
    && r.account.cash >= 0.0
    && r.account.shares == a.shares + t.quantity
    && r.account.shares * bar.close <= cfg.positionSizePct * (a.cash + a.shares * bar.close)
    && r.account.peak == Some(Max(bar.high, t.fillPrice))
    && r.account.entry.Some?
    && r.account.entry.value * r.account.shares == a.shares * a.entry.GetOr(0.0) + t.quantity * t.fillPrice
  }

  // The reference price of a sell: the close for a signal trade, the trigger price for an exit.
  ghost function SellReference(cfg: Settings, bar: Bar, a: Account, t: Trade): Option<real>
    requires a.entry.Some?
  {
    if t.reason == Signal then Some(bar.close)
    else
      var trigger := ProtectiveTrigger(cfg, bar, a.entry.value, UpdatePeak(bar, a).peak);
      if trigger.Some? && trigger.value.0 == t.reason then Some(trigger.value.1) else None
  }

  ghost predicate SellStep(cfg: Settings, bar: Bar, a: Account, r: Step) {
    && r.trade.Some? && Held(a)
    && var t := r.trade.value;
    && var reference := SellReference(cfg, bar, a, t);
    && t.side == Sell && t.fee == cfg.fixedFee && t.timestamp == bar.timestamp
    && EPSILON < t.quantity <= a.shares
    && (t.reason != Signal ==> t.quantity == a.shares)
    && reference.Some? && reference.value > 0.0
    && t.fillPrice == SellPrice(cfg, reference.value)
    && t.fillPrice > 0.0
    && r.account.cash == a.cash + (t.quantity * t.fillPrice - cfg.fixedFee)
    && if a.shares - t.quantity <= EPSILON
       then Flat(r.account) && r.account.peak == None
       else r.account == Account(r.account.cash, a.shares - t.quantity, a.entry, UpdatePeak(bar, a).peak)
  }

  // A quantity that is affordable leaves cash non-negative.
  lemma AffordableLeavesCash(cfg: Settings, q: real, cash: real, fillPrice: real)
    requires fillPrice > 0.0 && 0.0 < q <= Affordable(cfg, cash, fillPrice)
    ensures cash - (q * fillPrice + cfg.fixedFee) >= 0.0
  {
    MulMono(q, (cash - cfg.fixedFee) / fillPrice, fillPrice);
    DivMul(cash - cfg.fixedFee, fillPrice);
  }

  lemma BuyFill(cfg: Settings, bar: Bar, quantity: real, a: Account)
    requires cfg.Valid() && bar.Valid() && Inv(a)
    ensures var r := ExecuteBuy(cfg, bar, quantity, a);
      && (r.trade.None? ==> r.account == a)
      && (r.trade.Some? ==>
        var t := r.trade.value;
        && t.side == Buy && t.reason == Signal && t.fee == cfg.fixedFee && t.timestamp == bar.timestamp
        && EPSILON < t.quantity <= quantity
        && t.fillPrice == BuyPrice(cfg, bar.close) && t.fillPrice > 0.0
        && r.account.cash == a.cash - (t.quantity * t.fillPrice + cfg.fixedFee) && r.account.cash >= 0.0
        && r.account.shares == a.shares + t.quantity
        && r.account.entry.Some?
        && r.account.entry.value * r.account.shares == a.shares * a.entry.GetOr(0.0) + t.quantity * t.fillPrice)
  {
    hide BuyPrice, SellPrice, Affordable;
    var r := ExecuteBuy(cfg, bar, quantity, a);
    PricesPositive(cfg, bar.close);
    if r.trade.Some? {
      var t := r.trade.value;
      AffordableLeavesCash(cfg, t.quantity, a.cash, t.fillPrice);
    }
  }

  // Shares worth no more than a weight of equity are worth no more than any larger weight of it.
  lemma WithinWeight(shares: real, target: real, close: real, equity: real, weight: real, cap: real)
    requires shares > 0.0 && shares <= target && close > 0.0 && target * close == equity * weight
    requires 0.0 <= weight <= cap
    ensures shares * close <= cap * equity
  {
    MulPos(shares, close);
    MulMono(shares, target, close);
    assert equity >= 0.0 by {
      if equity < 0.0 {
        MulNonNeg(weight, -equity);
      }
    }
    MulMono(weight, cap, equity);
  }

  lemma TargetValue(equity: real, weight: real, close: real)
    requires close > 0.0
    ensures equity * weight / close * close == equity * weight
  {
    DivMul(equity * weight, close);
  }

  lemma BuyWithinTarget(cfg: Settings, bar: Bar, signal: real, advice: Advice, a: Account, q: real)
    requires cfg.Valid() && bar.Valid() && a.shares >= 0.0
    requires 0.0 < q <= DeltaShares(cfg, bar, signal, advice, a)
    ensures (a.shares + q) * bar.close <= cfg.positionSizePct * (a.cash + a.shares * bar.close)
  {
    var equity, weight := a.cash + a.shares * bar.close, DesiredPosition(cfg, signal, advice);
    TargetValue(equity, weight, bar.close);
    WithinWeight(a.shares + q, equity * weight / bar.close, bar.close, equity, weight, cfg.positionSizePct);
  }

  lemma SellFill(cfg: Settings, bar: Bar, reference: real, quantity: real, a: Account, reason: Reason)
    requires cfg.Valid() && reference > 0.0 && Inv(a)
    ensures var r := ExecuteSell(cfg, bar, reference, quantity, a, reason);
      && (r.trade.None? ==> r.account == a && (quantity <= EPSILON || !Held(a)))
      && (r.trade.Some? ==>
        var t := r.trade.value;
        && Held(a)
        && t.side == Sell && t.reason == reason && t.fee == cfg.fixedFee && t.timestamp == bar.timestamp
        && EPSILON < t.quantity == Min(quantity, a.shares)
        && t.fillPrice == SellPrice(cfg, reference) && t.fillPrice > 0.0
        && r.account.cash == a.cash + (t.quantity * t.fillPrice - cfg.fixedFee)
        && if a.shares - t.quantity <= EPSILON then Flat(r.account)
           else r.account == Account(r.account.cash, a.shares - t.quantity, a.entry, a.peak))
  {
    hide BuyPrice, SellPrice;
    PricesPositive(cfg, reference);
  }

  lemma LevelsPositive(price: real, pct: real)
    requires price > 0.0 && pct > 0.0
    ensures AboveBy(price, pct) > 0.0
    ensures pct < 1.0 ==> BelowBy(price, pct) > 0.0
  {
    var up, down := 1.0 + pct, 1.0 - pct;
    MulPos(price, up);
    assert AboveBy(price, pct) == price * up;
    if pct < 1.0 {
      MulPos(price, down);
      assert BelowBy(price, pct) == price * down;
    }
  }

  lemma TriggerPositive(cfg: Settings, bar: Bar, entry: real, peak: Option<real>)
    requires cfg.Valid() && entry > 0.0 && (peak.Some? ==> peak.value > 0.0)
    ensures var t := ProtectiveTrigger(cfg, bar, entry, peak);
      t.Some? ==> t.value.1 > 0.0 && t.value.0 != Signal
  {
    hide BelowBy, AboveBy;
    if cfg.stopLossPct.Some? { LevelsPositive(entry, cfg.stopLossPct.value); }
    if cfg.takeProfitPct.Some? { LevelsPositive(entry, cfg.takeProfitPct.value); }
    if cfg.trailingStopPct.Some? && peak.Some? { LevelsPositive(peak.value, cfg.trailingStopPct.value); }
  }

  ghost predicate StopHit(cfg: Settings, bar: Bar, entry: real) {
    cfg.stopLossPct.Some? && bar.low <= entry * (1.0 - cfg.stopLossPct.value)
  }

  ghost predicate TargetHit(cfg: Settings, bar: Bar, entry: real) {
    cfg.takeProfitPct.Some? && bar.high >= entry * (1.0 + cfg.takeProfitPct.value)
  }

  ghost predicate TrailHit(cfg: Settings, bar: Bar, peak: Option<real>) {
    cfg.trailingStopPct.Some? && peak.Some? && bar.low <= peak.value * (1.0 - cfg.trailingStopPct.value)
  }

  // Which rule fires on a bar: the stop loss before the target, the target before the trailing stop.
  lemma TriggerIff(cfg: Settings, bar: Bar, entry: real, peak: Option<real>)
    ensures var t := ProtectiveTrigger(cfg, bar, entry, peak);
      && (t == None <==> !StopHit(cfg, bar, entry) && !TargetHit(cfg, bar, entry) && !TrailHit(cfg, bar, peak))
      && (t.Some? && t.value.0 == StopLoss <==> StopHit(cfg, bar, entry))
      && (t.Some? && t.value.0 == TakeProfit <==> !StopHit(cfg, bar, entry) && TargetHit(cfg, bar, entry))
      && (t.Some? && t.value.0 == TrailingStop <==>
            !StopHit(cfg, bar, entry) && !TargetHit(cfg, bar, entry) && TrailHit(cfg, bar, peak))
  {
  }

  // A protective exit fires exactly when one of the three levels is reached, the trailing one measured
  // from a peak that already includes this bar's high; it sells everything at the slipped level of the
  // first rule that fires, and says which.
  lemma ExitKind(cfg: Settings, bar: Bar, a: Account)
    requires cfg.Valid() && bar.Valid() && Held(a)
    ensures var m := UpdatePeak(bar, a); var (fill, fired) := ApplyProtectiveExit(cfg, bar, m);
      && (fired <==>
            StopHit(cfg, bar, a.entry.value) || TargetHit(cfg, bar, a.entry.value) || TrailHit(cfg, bar, m.peak))
      && (fired ==>
            && SellStep(cfg, bar, a, Step(fill.account, fill.trade, false))
            && fill.trade.value.reason != Signal
            && (fill.trade.value.reason == StopLoss <==> StopHit(cfg, bar, a.entry.value))
            && (fill.trade.value.reason == TakeProfit <==>
                  !StopHit(cfg, bar, a.entry.value) && TargetHit(cfg, bar, a.entry.value)))
  {
    var m := UpdatePeak(bar, a);
    TriggerPositive(cfg, bar, m.entry.value, m.peak);
    TriggerIff(cfg, bar, m.entry.value, m.peak);
    var trigger := ProtectiveTrigger(cfg, bar, m.entry.value, m.peak);
    if trigger.Some? {
      SellFill(cfg, bar, trigger.value.1, a.shares, m, trigger.value.0);
    }
    hide ExecuteSell, ProtectiveTrigger, StopHit, TargetHit, TrailHit, SellPrice, BuyPrice;
  }

  lemma RebalanceKind(cfg: Settings, bar: Bar, signal: real, advice: Advice, a: Account, m: Account)
    requires cfg.Valid() && bar.Valid() && Inv(a)
    requires m == UpdatePeak(bar, a) && Inv(m) && m == a.(peak := m.peak)
    ensures var r := Rebalance(cfg, bar, signal, advice, m);
      IdleStep(bar, a, r) || BuyStep(cfg, bar, a, r) || SellStep(cfg, bar, a, r)
  {
    hide ExecuteBuy, ExecuteSell, DeltaShares, UpdatePeak, BuyPrice, SellPrice;
    var delta := DeltaShares(cfg, bar, signal, advice, m);
    if delta > EPSILON {
      BuyFill(cfg, bar, delta, m);
      var fill := ExecuteBuy(cfg, bar, delta, m);
      if fill.trade.Some? {
        BuyWithinTarget(cfg, bar, signal, advice, m, fill.trade.value.quantity);
      }
    } else if delta < -EPSILON {
      SellFill(cfg, bar, bar.close, -delta, m, Signal);
    }
  }

  // Every bar does nothing, buys once, or sells once.
  lemma StepKind(cfg: Settings, bar: Bar, signal: real, advice: Advice, a: Account)
    requires cfg.Valid() && bar.Valid() && Inv(a)
    ensures var r := StepBar(cfg, bar, signal, advice, a);
      IdleStep(bar, a, r) || BuyStep(cfg, bar, a, r) || SellStep(cfg, bar, a, r)
  {
    RebalanceKind(cfg, bar, signal, advice, a, UpdatePeak(bar, a));
    if Held(a) {
      ExitKind(cfg, bar, a);
    }
    hide Rebalance, ApplyProtectiveExit, BuyStep, SellStep;
  }

  lemma KindKeepsInv(cfg: Settings, bar: Bar, a: Account, r: Step)
    requires cfg.Valid() && bar.Valid() && Inv(a)
    requires IdleStep(bar, a, r) || BuyStep(cfg, bar, a, r) || SellStep(cfg, bar, a, r)
    ensures Inv(r.account)
  {
    hide SellReference, BuyPrice, SellPrice;
    if BuyStep(cfg, bar, a, r) {
      var t := r.trade.value;
      AverageBetween(a.shares, if Held(a) then a.entry.value else t.fillPrice, t.quantity, t.fillPrice,
          r.account.entry.value);
    }
  }

  // ----- Whole runs -----

  lemma {:induction false} AccountInv(b: Backtest, n: nat)
    requires b.Valid() && n < |b.bars|
    ensures Inv(b.At(n))
  {
    hide StepBar;
    if n > 0 {
      AccountInv(b, n - 1);
      StepKind(b.cfg, b.bars[n], b.signals[n - 1], b.advice[n], b.At(n - 1));
      KindKeepsInv(b.cfg, b.bars[n], b.At(n - 1), b.StepAt(n));
    }
  }

  // The kind of the step at bar n of a run.
  lemma KindAt(b: Backtest, n: nat)
    requires b.Valid() && 0 < n < |b.bars|
    ensures Inv(b.At(n - 1)) && Inv(b.At(n))
    ensures var r := b.StepAt(n);
      || IdleStep(b.bars[n], b.At(n - 1), r)
      || BuyStep(b.cfg, b.bars[n], b.At(n - 1), r)
      || SellStep(b.cfg, b.bars[n], b.At(n - 1), r)
  {
    AccountInv(b, n - 1);
    AccountInv(b, n);
    StepKind(b.cfg, b.bars[n], b.signals[n - 1], b.advice[n], b.At(n - 1));
  }

  // A buy into a flat account holds exactly the bought quantity at the fill price.
  lemma OpeningBuy(b: Backtest, n: nat)
    requires b.Valid() && 0 < n < |b.bars| && b.At(n - 1).shares == 0.0 && b.TradeAt(n).Some?
    ensures b.BuyAt(n)
    ensures var t := b.TradeAt(n).value;
      && b.At(n).shares == t.quantity > EPSILON
      && b.At(n).entry == Some(t.fillPrice)
      && b.At(n).cash == b.At(n - 1).cash - t.quantity * t.fillPrice - b.cfg.fixedFee
  {
    hide StepBar;
    KindAt(b, n);
    var t := b.TradeAt(n).value;
    CancelMul(b.At(n).entry.value, t.fillPrice, t.quantity);
  }

  // Shares never go negative, and an entry price and a trailing peak are present exactly while
  // more than dust is held.
  lemma LoopInvariant(b: Backtest, n: nat)
    requires b.Valid() && n < |b.bars|
    ensures var a := b.At(n);
      && a.shares >= 0.0
      && (a.entry.Some? <==> a.shares > EPSILON)
      && (a.peak.Some? <==> a.shares > EPSILON)
      && (a.shares <= EPSILON ==> a.shares == 0.0)
      && (a.entry.Some? ==> a.entry.value > 0.0)
  {
    AccountInv(b, n);
  }

  // Sells made since the last buy.
  function SellsSinceBuy(b: Backtest, n: nat): nat
    requires b.Valid() && n < |b.bars|
  {
    if n == 0 || (b.TradeAt(n).Some? && b.TradeAt(n).value.side == Buy) then 0
    else SellsSinceBuy(b, n - 1) + if b.TradeAt(n).Some? then 1 else 0
  }

  lemma CashAfterTrade(b: Backtest, n: nat)
    requires b.Valid() && 0 < n < |b.bars|
    ensures b.BuyAt(n) ==> b.At(n).cash >= 0.0
    ensures b.SellAt(n) ==> b.At(n).cash >= b.At(n - 1).cash - b.cfg.fixedFee
    ensures b.TradeAt(n).None? ==> b.At(n).cash == b.At(n - 1).cash
  {
    hide StepBar, SellReference;
    KindAt(b, n);
    if b.SellAt(n) {
      MulPos(b.TradeAt(n).value.quantity, b.TradeAt(n).value.fillPrice);
    }
  }

  lemma OneMoreFee(fee: real, k: nat)
    ensures fee * (k + 1) as real == fee * k as real + fee
  {
  }

  // Only the fees of the sells since the last buy can push cash below zero.
  lemma {:induction false} CashFloor(b: Backtest, n: nat)
    requires b.Valid() && n < |b.bars|
    ensures b.At(n).cash >= -(b.cfg.fixedFee * SellsSinceBuy(b, n) as real)
  {
    hide StepBar;
    if n > 0 {
      CashFloor(b, n - 1);
      CashAfterTrade(b, n);
      OneMoreFee(b.cfg.fixedFee, SellsSinceBuy(b, n - 1));
    }
  }

  // A buy never leaves more than the configured share of the pre-trade equity in the asset, never
  // spends more cash than there is, and fills at the slipped close.
  lemma BuyRespectsSizing(b: Backtest, n: nat)
    requires b.Valid() && n < |b.bars| && b.BuyAt(n)
    ensures 0 < n
    ensures var before := b.At(n - 1).cash + b.At(n - 1).shares * b.bars[n].close;
      && b.At(n).shares * b.bars[n].close <= b.cfg.positionSizePct * before
      && b.At(n).cash >= 0.0
      && b.TradeAt(n).value.fillPrice == b.bars[n].close * (1.0 + b.cfg.slippagePct)
  {
    hide StepBar;
    KindAt(b, n);
  }

  // ----- Where the entry price and the trailing peak come from -----

  // Bar o bought into a flat account and something has been held ever since.
  ghost predicate OpenedAt(b: Backtest, o: nat, n: nat)
    requires b.Valid() && n < |b.bars|
  {
    0 < o <= n && b.BuyAt(o) && b.At(o - 1).shares == 0.0 &&
    forall k :: o <= k <= n ==> b.At(k).shares > EPSILON
  }

  // Two buys since the opening bar o bracket the entry price.
  ghost predicate EntryBracketed(b: Backtest, o: nat, i: nat, j: nat, n: nat)
    requires b.Valid() && n < |b.bars|
  {
    && OpenedAt(b, o, n) && o <= i <= n && o <= j <= n && b.BuyAt(i) && b.BuyAt(j) && b.At(n).entry.Some?
    && b.TradeAt(i).value.fillPrice <= b.At(n).entry.value <= b.TradeAt(j).value.fillPrice
  }

  // The entry price lies between two fill prices of buys made since the account was last flat.
  lemma {:induction false} EntryBetweenBuys(b: Backtest, n: nat)
    requires b.Valid() && n < |b.bars| && b.At(n).shares > EPSILON
    ensures exists o: nat, i: nat, j: nat :: EntryBracketed(b, o, i, j, n)
  {
    hide StepBar;
    if n > 0 {
      KindAt(b, n);
      var before, r := b.At(n - 1), b.StepAt(n);
      if Flat(before) {
        OpeningBuy(b, n);
        assert OpenedAt(b, n, n);
        assert EntryBracketed(b, n, n, n, n);
      } else {
        EntryBetweenBuys(b, n - 1);
        var o: nat, i: nat, j: nat :| EntryBracketed(b, o, i, j, n - 1);
        assert OpenedAt(b, o, n);
        if b.BuyAt(n) {
          var t := r.trade.value;
          AverageBetween(before.shares, before.entry.value, t.quantity, t.fillPrice, r.account.entry.value);
          assert EntryBracketed(b, o, if t.fillPrice <= before.entry.value then n else i,
                                if t.fillPrice <= before.entry.value then j else n, n);
        } else {
          assert EntryBracketed(b, o, i, j, n);
        }
      }
    }
  }

  ghost predicate LastBuy(b: Backtest, o: nat, n: nat)
    requires b.Valid() && n < |b.bars|
  {
    0 < o <= n && b.BuyAt(o) && forall k :: o < k <= n ==> !b.BuyAt(k)
  }

  // The highest price of a bar: its high, or the fill of a buy made on it if slippage lifts that higher.
  ghost function Top(b: Backtest, k: nat): real
    requires b.Valid() && k < |b.bars|
  {
    if b.BuyAt(k) then Max(b.bars[k].high, b.TradeAt(k).value.fillPrice) else b.bars[k].high
  }

  // peak is the highest price from bar o to bar n.
  ghost predicate HighestSince(b: Backtest, peak: real, o: nat, n: nat)
    requires b.Valid() && n < |b.bars|
  {
    (forall k :: o <= k <= n ==> Top(b, k) <= peak) && exists k :: o <= k <= n && Top(b, k) == peak
  }

  // The trailing peak restarts at the last buy, scale-ins included, and follows the highs from there.
  lemma {:induction false} PeakSinceLastBuy(b: Backtest, n: nat)
    requires b.Valid() && n < |b.bars| && b.At(n).shares > EPSILON
    ensures b.At(n).peak.Some?
    ensures exists o: nat :: LastBuy(b, o, n) && HighestSince(b, b.At(n).peak.value, o, n)
  {
    hide StepBar;
    if n > 0 {
      KindAt(b, n);
      var before, r := b.At(n - 1), b.StepAt(n);
      if b.BuyAt(n) {
        assert Top(b, n) == b.At(n).peak.value;
        assert LastBuy(b, n, n) && HighestSince(b, b.At(n).peak.value, n, n);
      } else {
        PeakSinceLastBuy(b, n - 1);
        var o: nat :| LastBuy(b, o, n - 1) && HighestSince(b, before.peak.value, o, n - 1);
        assert LastBuy(b, o, n);
        assert Top(b, n) == b.bars[n].high;
        assert b.At(n).peak.value == Max(before.peak.value, b.bars[n].high);
        assert HighestSince(b, b.At(n).peak.value, o, n);
      }
    }
  }

  // The trailing peak is the highest price since the position was opened exactly when every bar before
  // the last buy is overtaken by that buy's bar or a later one.
  lemma PeakSinceOpeningIff(b: Backtest, o: nat, l: nat, n: nat)
    requires b.Valid() && n < |b.bars| && OpenedAt(b, o, n) && LastBuy(b, l, n)
    ensures b.At(n).peak.Some? && o <= l
    ensures HighestSince(b, b.At(n).peak.value, o, n)
            <==> forall k :: o <= k < l ==> exists later :: l <= later <= n && Top(b, k) <= Top(b, later)
  {
    hide Top, Backtest.At;
    PeakSinceLastBuy(b, n);
    var last: nat :| LastBuy(b, last, n) && HighestSince(b, b.At(n).peak.value, last, n);
    assert last == l;
  }

  // ----- Self-financing -----

  // What the trade at bar n costs against the close: slippage and fee for a signal trade, the
  // distance from the close to the slipped trigger price plus the fee for a protective exit.
  ghost function Friction(b: Backtest, n: nat): real
    requires b.Valid() && n < |b.bars|
  {
    if n == 0 || b.TradeAt(n).None? then 0.0
    else
      var t, before, close := b.TradeAt(n).value, b.At(n - 1), b.bars[n].close;
      if t.reason == Signal then t.quantity * close * b.cfg.slippagePct + b.cfg.fixedFee
      else
        var entry := before.entry.GetOr(0.0);
        var trigger := ProtectiveTrigger(b.cfg, b.bars[n], entry, UpdatePeak(b.bars[n], before).peak);
        if trigger.None? then 0.0
        else before.shares * (close - SellPrice(b.cfg, trigger.value.1)) + b.cfg.fixedFee
  }

  // The remainder that a sell zeroes because it is no larger than EPSILON.
  ghost function Dust(b: Backtest, n: nat): real
    requires b.Valid() && n < |b.bars|
  {
    if n == 0 || b.TradeAt(n).None? || b.TradeAt(n).value.side == Buy then 0.0
    else b.At(n - 1).shares - b.TradeAt(n).value.quantity - b.At(n).shares
  }

  // The price move of bar n on what was held into it.
  ghost function HoldingGain(b: Backtest, n: nat): real
    requires b.Valid() && 0 < n < |b.bars|
  {
    b.At(n - 1).shares * (b.bars[n].close - b.bars[n - 1].close)
  }

  ghost function DustLoss(b: Backtest, n: nat): real
    requires b.Valid() && n < |b.bars|
  {
    Dust(b, n) * b.bars[n].close
  }

  ghost function HoldingGains(b: Backtest, n: nat): real
    requires b.Valid() && n < |b.bars|
  {
    if n == 0 then 0.0 else HoldingGains(b, n - 1) + HoldingGain(b, n)
  }

  ghost function TotalFriction(b: Backtest, n: nat): real
    requires b.Valid() && n < |b.bars|
  {
    if n == 0 then 0.0 else TotalFriction(b, n - 1) + Friction(b, n)
  }

  ghost function DustLosses(b: Backtest, n: nat): real
    requires b.Valid() && n < |b.bars|
  {
    if n == 0 then 0.0 else DustLosses(b, n - 1) + DustLoss(b, n)
  }

  lemma BuyCost(cfg: Settings, q: real, close: real, fill: real)
    requires fill == BuyPrice(cfg, close)
    ensures q * fill == q * close + q * close * cfg.slippagePct
  {
  }

  lemma SellProceeds(cfg: Settings, q: real, close: real, fill: real)
    requires fill == SellPrice(cfg, close)
    ensures q * fill == q * close - q * close * cfg.slippagePct
  {
  }

  lemma BuyMovesEquity(cash: real, shares: real, q: real, last: real, close: real, paid: real, slip: real, fee: real)
    requires paid == q * close + slip
    ensures cash - (paid + fee) + (shares + q) * close == cash + shares * last + shares * (close - last) - (slip + fee)
  {
    assert (shares + q) * close == shares * close + q * close;
    assert shares * (close - last) == shares * close - shares * last;
  }

  lemma SellMovesEquity(cash: real, shares: real, q: real, left: real, dust: real, last: real, close: real,
          got: real, fee: real)
    requires dust == shares - q - left
    ensures cash + (got - fee) + left * close
         == cash + shares * last + shares * (close - last) - (q * close - got + fee) - dust * close
  {
    assert dust * close == shares * close - q * close - left * close;
    assert shares * (close - last) == shares * close - shares * last;
  }

  lemma BuyEquity(b: Backtest, n: nat)
    requires b.Valid() && 0 < n < |b.bars| && b.BuyAt(n)
    ensures Dust(b, n) == 0.0 == DustLoss(b, n)
    ensures b.Equity(n) == b.Equity(n - 1) + HoldingGain(b, n) - Friction(b, n)
  {
    hide StepBar, BuyPrice, SellPrice, SellReference;
    KindAt(b, n);
    var before, t, last, close := b.At(n - 1), b.TradeAt(n).value, b.bars[n - 1].close, b.bars[n].close;
    BuyCost(b.cfg, t.quantity, close, t.fillPrice);
    BuyMovesEquity(before.cash, before.shares, t.quantity, last, close, t.quantity * t.fillPrice,
                   t.quantity * close * b.cfg.slippagePct, b.cfg.fixedFee);
  }

  // What a sell gives up against the close.
  lemma SellFriction(b: Backtest, n: nat)
    requires b.Valid() && 0 < n < |b.bars| && b.SellAt(n)
    ensures var t := b.TradeAt(n).value;
      Friction(b, n) == t.quantity * b.bars[n].close - t.quantity * t.fillPrice + b.cfg.fixedFee
  {
    hide StepBar, ProtectiveTrigger, BuyPrice, SellPrice;
    KindAt(b, n);
    var t, close := b.TradeAt(n).value, b.bars[n].close;
    if t.reason == Signal {
      SellProceeds(b.cfg, t.quantity, close, t.fillPrice);
    } else {
      Spread(t.quantity, close, t.fillPrice);
    }
  }

  lemma Spread(q: real, close: real, fill: real)
    ensures q * (close - fill) == q * close - q * fill
  {
  }

  lemma SellEquity(b: Backtest, n: nat)
    requires b.Valid() && 0 < n < |b.bars| && b.SellAt(n)
    ensures 0.0 <= Dust(b, n) <= EPSILON
    ensures b.Equity(n) == b.Equity(n - 1) + HoldingGain(b, n) - Friction(b, n) - DustLoss(b, n)
  {
    hide StepBar, SellReference, BuyPrice, SellPrice, Friction;
    KindAt(b, n);
    SellFriction(b, n);
    var before, t := b.At(n - 1), b.TradeAt(n).value;
    SellMovesEquity(before.cash, before.shares, t.quantity, b.At(n).shares, Dust(b, n), b.bars[n - 1].close,
        b.bars[n].close,
                    t.quantity * t.fillPrice, b.cfg.fixedFee);
  }

  lemma IdleEquity(b: Backtest, n: nat)
    requires b.Valid() && 0 < n < |b.bars| && b.TradeAt(n).None?
    ensures Dust(b, n) == 0.0 == DustLoss(b, n)
    ensures b.Equity(n) == b.Equity(n - 1) + HoldingGain(b, n) - Friction(b, n)
  {
    hide StepBar, SellReference, BuyPrice, SellPrice;
    KindAt(b, n);
    Spread(b.At(n - 1).shares, b.bars[n].close, b.bars[n - 1].close);
  }

  // The identity for one bar; a sell never zeroes more than EPSILON shares.
  lemma EquityStep(b: Backtest, n: nat)
    requires b.Valid() && 0 < n < |b.bars|
    ensures 0.0 <= Dust(b, n) <= EPSILON
    ensures b.Equity(n) == b.Equity(n - 1) + HoldingGain(b, n) - Friction(b, n) - DustLoss(b, n)
  {
    hide Dust, DustLoss, HoldingGain, Friction, Backtest.Equity, Backtest.At, StepBar;
    if b.BuyAt(n) {
      BuyEquity(b, n);
    } else if b.SellAt(n) {
      SellEquity(b, n);
    } else {
      IdleEquity(b, n);
    }
  }

  // Equity is exactly the initial capital, plus the price moves of what was held into each bar,
  // minus the frictions of the trades and the value of zeroed dust.
  lemma {:induction false} SelfFinancing(b: Backtest, n: nat)
    requires b.Valid() && n < |b.bars|
    ensures b.Equity(n) == b.cfg.initialCapital + HoldingGains(b, n) - TotalFriction(b, n) - DustLosses(b, n)
  {
    hide Friction, DustLoss, Dust, HoldingGain, Backtest.Equity;
    if n == 0 {
      OpeningBar(b);
    } else {
      SelfFinancing(b, n - 1);
      EquityStep(b, n);
    }
  }

  // ----- The stop-out bound -----

  // Bar i buys into a flat account; no trade follows until the stop loss closes the position at bar j.
  ghost predicate StoppedOut(b: Backtest, i: nat, j: nat)
    requires b.Valid() && j < |b.bars|
  {
    && 0 < i < j && b.BuyAt(i) && b.At(i - 1).shares == 0.0
    && (forall k :: i < k < j ==> b.TradeAt(k) == None)
    && b.TradeAt(j).Some? && b.TradeAt(j).value.reason == StopLoss
  }

  lemma {:induction false} UntouchedBetween(b: Backtest, i: nat, j: nat)
    requires b.Valid() && 0 < i <= j < |b.bars| && b.At(i).shares > EPSILON
    requires forall k :: i < k <= j ==> b.TradeAt(k) == None
    ensures b.At(j).(peak := None) == b.At(i).(peak := None)
  {
    hide StepBar;
    if i < j {
      UntouchedBetween(b, i, j - 1);
      KindAt(b, j);
      assert b.TradeAt(j) == None;
    }
  }

  // What a stop at distance sl costs a position worth this much at the close it was opened on, with
  // slippage s on the way in and on the way out.
  function StopCost(worth: real, s: real, sl: real): real {
    worth * (1.0 + s) * (sl + s - sl * s)
  }

  lemma StopOutArithmetic(q: real, close: real, s: real, sl: real)
    ensures q * (close * (1.0 + s)) - q * (close * (1.0 + s) * (1.0 - sl) * (1.0 - s)) == StopCost(q * close, s, sl)
  {
    var paid := q * (close * (1.0 + s));
    assert q * (close * (1.0 + s) * (1.0 - sl) * (1.0 - s)) == paid * ((1.0 - sl) * (1.0 - s));
    assert (1.0 - sl) * (1.0 - s) == 1.0 - (sl + s - sl * s);
    assert paid == q * close * (1.0 + s);
  }

  function Notional(quantity: real, price: real): real {
    quantity * price
  }

  // In and out: q shares at the slipped close, sold at the slipped stop of that entry.
  lemma RoundTripCost(cfg: Settings, q: real, close: real)
    requires cfg.stopLossPct.Some?
    ensures var buy, sl := BuyPrice(cfg, close), cfg.stopLossPct.value;
      Notional(q, buy) - Notional(q, SellPrice(cfg, BelowBy(buy, sl)))
      == StopCost(Notional(q, close), cfg.slippagePct, sl)
  {
    StopOutArithmetic(q, close, cfg.slippagePct, cfg.stopLossPct.value);
  }

  lemma OpeningCost(b: Backtest, i: nat)
    requires b.Valid() && 0 < i < |b.bars| && b.BuyAt(i) && b.At(i - 1).shares == 0.0
    ensures var buy := BuyPrice(b.cfg, b.bars[i].close);
      && b.At(i).entry == Some(buy)
      && b.At(i).cash == b.At(i - 1).cash - Notional(b.TradeAt(i).value.quantity, buy) - b.cfg.fixedFee
  {
    hide StepBar, BuyPrice, SellPrice;
    KindAt(b, i);
    OpeningBuy(b, i);
  }

  lemma StopProceeds(b: Backtest, j: nat)
    requires b.Valid() && 0 < j < |b.bars| && b.TradeAt(j).Some? && b.TradeAt(j).value.reason == StopLoss
    ensures var before := b.At(j - 1);
      && before.entry.Some? && b.cfg.stopLossPct.Some? && b.At(j).shares == 0.0
      && b.At(j).cash == before.cash - b.cfg.fixedFee
           + Notional(before.shares, SellPrice(b.cfg, BelowBy(before.entry.value, b.cfg.stopLossPct.value)))
  {
    hide StepBar, BuyPrice, SellPrice, BelowBy, AboveBy;
    KindAt(b, j);
  }

  // What bar i bought is worth at its close.
  function Worth(b: Backtest, i: nat): real
    requires b.Valid() && i < |b.bars| && b.TradeAt(i).Some?
  {
    Notional(b.TradeAt(i).value.quantity, b.bars[i].close)
  }

  // The cash lost by a stopped-out position: q shares at the slipped entry fall to the slipped stop.
  lemma StopOutLoss(b: Backtest, i: nat, j: nat)
    requires b.Valid() && j < |b.bars| && StoppedOut(b, i, j) && b.cfg.stopLossPct.Some?
    ensures b.At(j).cash
         == b.At(i - 1).cash - StopCost(Worth(b, i), b.cfg.slippagePct, b.cfg.stopLossPct.value) - 2.0 * b.cfg.fixedFee
  {
    hide StepBar, StopCost, BuyPrice, SellPrice, BelowBy, AboveBy, Notional;
    OpeningBuy(b, i);
    OpeningCost(b, i);
    UntouchedBetween(b, i, j - 1);
    StopProceeds(b, j);
    RoundTripCost(b.cfg, b.TradeAt(i).value.quantity, b.bars[i].close);
  }

  const RISK_PER_TRADE: real := 0.01

  // The position size the command-line workflow derives from the stop distance and its own cap.
  function EffectivePositionSize(stopLossPct: real, maxPositionSize: real): real
    requires stopLossPct > 0.0
  {
    Min(RISK_PER_TRADE / stopLossPct, maxPositionSize)
  }

  // It risks no more than one percent over the stop distance, and never passes the cap.
  lemma EffectiveSizeIs(stopLossPct: real, maxPositionSize: real)
    requires stopLossPct > 0.0
    ensures var size := EffectivePositionSize(stopLossPct, maxPositionSize);
      && size * stopLossPct <= RISK_PER_TRADE && size <= maxPositionSize
      && (size * stopLossPct == RISK_PER_TRADE || size == maxPositionSize)
  {
    var free := RISK_PER_TRADE / stopLossPct;
    DivMul(RISK_PER_TRADE, stopLossPct);
    MulMono(EffectivePositionSize(stopLossPct, maxPositionSize), free, stopLossPct);
  }

  // The worth of a position that loses one percent of equity over the stop distance.
  function RiskWorth(equity: real, stopLossPct: real): real
    requires stopLossPct > 0.0
  {
    RISK_PER_TRADE / stopLossPct * equity
  }

  lemma StopCostMonotone(worth: real, most: real, s: real, sl: real)
    requires worth <= most && s >= 0.0 && 0.0 < sl < 1.0
    ensures StopCost(worth, s, sl) <= StopCost(most, s, sl)
  {
    var slip, distance := 1.0 + s, sl + s - sl * s;
    MulNonNeg(s, 1.0 - sl);
    assert distance == sl + s * (1.0 - sl);
    MulMono(worth, most, slip);
    MulMono(worth * slip, most * slip, distance);
  }

  lemma WorthWithinShare(worth: real, pct: real, share: real, equity: real)
    requires worth > 0.0 && worth <= pct * equity && 0.0 < pct <= share
    ensures worth <= share * equity
  {
    assert equity > 0.0 by {
      if equity <= 0.0 {
        MulNonNeg(pct, -equity);
      }
    }
    MulMono(pct, share, equity);
  }

  lemma OnePercentAtZeroSlippage(equity: real, sl: real)
    requires sl > 0.0
    ensures StopCost(RiskWorth(equity, sl), 0.0, sl) == RISK_PER_TRADE * equity
  {
    var share := RISK_PER_TRADE / sl;
    DivMul(RISK_PER_TRADE, sl);
    assert StopCost(RiskWorth(equity, sl), 0.0, sl) == share * equity * sl;
    assert share * equity * sl == share * sl * equity;
  }

  lemma OpenedWithinRisk(b: Backtest, i: nat, maxPositionSize: real)
    requires b.Valid() && 0 < i < |b.bars| && b.BuyAt(i) && b.At(i - 1).shares == 0.0 && b.cfg.stopLossPct.Some?
    requires b.cfg.positionSizePct == EffectivePositionSize(b.cfg.stopLossPct.value, maxPositionSize)
    ensures Worth(b, i) <= RiskWorth(b.At(i - 1).cash, b.cfg.stopLossPct.value)
  {
    hide StepBar, BuyPrice, SellPrice, BelowBy, AboveBy;
    KindAt(b, i);
    OpeningBuy(b, i);
    MulPos(b.TradeAt(i).value.quantity, b.bars[i].close);
    WorthWithinShare(Worth(b, i), b.cfg.positionSizePct, RISK_PER_TRADE / b.cfg.stopLossPct.value, b.At(i - 1).cash);
  }

  // Sized by the one-percent rule, a stopped-out position costs at most about one percent of the
  // equity it was opened with, plus two fees: exactly 1% at zero slippage.
  lemma StopOutBound(b: Backtest, i: nat, j: nat, maxPositionSize: real)
    requires b.Valid() && j < |b.bars| && StoppedOut(b, i, j) && b.cfg.stopLossPct.Some?
    requires b.cfg.positionSizePct == EffectivePositionSize(b.cfg.stopLossPct.value, maxPositionSize)
    ensures var sl, s, equity, fees := b.cfg.stopLossPct.value, b.cfg.slippagePct, b.At(i - 1).cash,
        2.0 * b.cfg.fixedFee;
      && b.At(j).shares == 0.0
      && equity - b.At(j).cash <= StopCost(RiskWorth(equity, sl), s, sl) + fees
      && (s == 0.0 ==> equity - b.At(j).cash <= RISK_PER_TRADE * equity + fees)
  {
    hide StepBar, StopCost, RiskWorth, Worth, EffectivePositionSize, Backtest.At, Notional;
    var sl, s, equity := b.cfg.stopLossPct.value, b.cfg.slippagePct, b.At(i - 1).cash;
    StopOutLoss(b, i, j);
    StopProceeds(b, j);
    OpenedWithinRisk(b, i, maxPositionSize);
    StopCostMonotone(Worth(b, i), RiskWorth(equity, sl), s, sl);
    if s == 0.0 {
      OnePercentAtZeroSlippage(equity, sl);
    }
  }

  // A run of three bars that buys at 100 with a 5% stop and is stopped out on the last bar.
  const STOP := Settings(1000.0, 0.2, 0.0, 0.0, Some(0.05), None, None)

  function StopRun(last: Bar): Backtest {
    var flat := (time: int) => Bar(time, 100.0, 100.0, 100.0, 100.0);
    Backtest(STOP, [flat(0), flat(1), last], [1.0, 1.0, 1.0],
             [NoManager, NoManager, NoManager])
  }

  lemma StopRunBuys(last: Bar)
    requires last.Valid()
    ensures var b := StopRun(last);
      b.Valid() && b.At(0) == Account(1000.0, 0.0, None, None)
      && b.At(1) == Account(800.0, 2.0, Some(100.0), Some(100.0)) && b.BuyAt(1)
  {
    var b := StopRun(last);
    OpeningBar(b);
    assert DeltaShares(b.cfg, b.bars[1], 1.0, NoManager, b.At(0)) == 2.0;
  }

  lemma StopSells(last: Bar, peak: real)
    ensures var r := ExecuteSell(STOP, last, 95.0, 2.0, Account(800.0, 2.0, Some(100.0), Some(peak)), StopLoss);
      && r.account.cash == 990.0 && r.trade.Some? && r.trade.value.reason == StopLoss && r.trade.value.fillPrice == 95.0
  {
    assert SellPrice(STOP, 95.0) == 95.0;
  }

  lemma StopRunStops(last: Bar)
    requires last.Valid() && last.low <= 95.0
    ensures var r := StepBar(STOP, last, 1.0, NoManager, Account(800.0, 2.0, Some(100.0), Some(100.0)));
      && r.account.cash == 990.0 && r.trade.Some? && r.trade.value.reason == StopLoss && r.trade.value.fillPrice == 95.0
  {
    assert BelowBy(100.0, 0.05) == 95.0;
    StopSells(last, Max(100.0, last.high));
    hide Rebalance, ExecuteSell, BelowBy, AboveBy;
  }

  lemma StopRunEnds(last: Bar)
    requires last.Valid() && last.low <= 95.0
    ensures var b := StopRun(last);
      b.Valid() && StoppedOut(b, 1, 2) && b.At(0).cash == 1000.0 && b.At(2).cash == 990.0
      && b.TradeAt(2).value.fillPrice == 95.0
  {
    hide StepBar;
    StopRunBuys(last);
    StopRunStops(last);
    var b := StopRun(last);
    assert b.StepAt(2) == StepBar(STOP, last, 1.0, NoManager, b.At(1));
  }

  // The bound cannot be lowered: without slippage and fees this run loses exactly one percent.
  lemma StopOutBoundAttained()
    ensures var b := StopRun(Bar(2, 100.0, 100.0, 90.0, 100.0));
      && b.Valid() && b.cfg.positionSizePct == EffectivePositionSize(0.05, 1.0)
      && StoppedOut(b, 1, 2)
      && b.At(0).cash - b.At(2).cash == RISK_PER_TRADE * b.At(0).cash
  {
    StopRunEnds(Bar(2, 100.0, 100.0, 90.0, 100.0));
    hide Backtest.At, StoppedOut;
  }

  // ----- Exits outside the bar -----

  // The price a protective exit is filled at, before slippage, was traded on its bar exactly when a
  // stop lies at or below the bar's high, and a target at or above its low.
  lemma ExitInsideBarIff(b: Backtest, n: nat)
    requires b.Valid() && 0 < n < |b.bars| && b.TradeAt(n).Some? && b.TradeAt(n).value.reason != Signal
    ensures b.At(n - 1).entry.Some? && SellReference(b.cfg, b.bars[n], b.At(n - 1), b.TradeAt(n).value).Some?
    ensures var bar, t := b.bars[n], b.TradeAt(n).value;
      var level := SellReference(b.cfg, bar, b.At(n - 1), t).value;
      bar.low <= level <= bar.high <==> if t.reason == TakeProfit then bar.low <= level else level <= bar.high
  {
    hide StepBar, BuyPrice, SellPrice;
    KindAt(b, n);
    TriggerIff(b.cfg, b.bars[n], b.At(n - 1).entry.value, UpdatePeak(b.bars[n], b.At(n - 1)).peak);
  }

  // A bar that opens below the stop: the position is sold at 95, above everything traded on that bar.
  lemma GapSoldAboveBar()
    ensures var b := StopRun(Bar(2, 90.0, 90.0, 85.0, 88.0));
      && b.Valid() && StoppedOut(b, 1, 2)
      && b.TradeAt(2).value.fillPrice == 95.0 > b.bars[2].high
  {
    StopRunEnds(Bar(2, 90.0, 90.0, 85.0, 88.0));
    hide Backtest.At, Backtest.TradeAt, StoppedOut;
  }

  // ----- A scale-in that lowers the trailing peak -----

  const TRAILING := Settings(1000.0, 0.5, 0.0, 0.0, None, None, Some(0.6))

  // 5 shares bought at 100 on a bar with a high of 120, and 2.5 more at 50.
  function ScaleInRun(): Backtest {
    Backtest(TRAILING,
             [Bar(0, 100.0, 100.0, 100.0, 100.0), Bar(1, 100.0, 120.0, 100.0, 100.0), Bar(2, 50.0, 50.0, 50.0, 50.0)],
             [1.0, 1.0, 1.0], [NoManager, NoManager, NoManager])
  }

  lemma ScaleInOpens()
    ensures var b := ScaleInRun();
      && b.Valid() && b.At(0) == Account(1000.0, 0.0, None, None)
      && b.At(1) == Account(500.0, 5.0, Some(100.0), Some(120.0)) && b.BuyAt(1)
  {
    var b := ScaleInRun();
    OpeningBar(b);
    assert DeltaShares(b.cfg, b.bars[1], 1.0, NoManager, b.At(0)) == 5.0;
  }

  lemma ScaleInAdds()
    ensures var r := StepBar(TRAILING, Bar(2, 50.0, 50.0, 50.0, 50.0), 1.0, NoManager,
                             Account(500.0, 5.0, Some(100.0), Some(120.0)));
      && r.trade.Some? && r.trade.value.side == Buy && r.account.shares == 7.5 && r.account.peak == Some(50.0)
  {
    ScaleInNotStopped();
    ScaleInBuy();
    hide ExecuteBuy, ExecuteSell, DeltaShares, ProtectiveTrigger;
  }

  lemma ScaleInNotStopped()
    ensures ProtectiveTrigger(TRAILING, Bar(2, 50.0, 50.0, 50.0, 50.0), 100.0, Some(120.0)) == None
  {
    assert BelowBy(120.0, 0.6) == 48.0;
  }

  lemma ScaleInBuy()
    ensures var bar, held := Bar(2, 50.0, 50.0, 50.0, 50.0), Account(500.0, 5.0, Some(100.0), Some(120.0));
      && DeltaShares(TRAILING, bar, 1.0, NoManager, held) == 2.5
      && var r := ExecuteBuy(TRAILING, bar, 2.5, held);
      && r.account.shares == 7.5 && r.trade.Some? && r.trade.value.side == Buy && r.trade.value.fillPrice == 50.0
  {
    assert BuyPrice(TRAILING, 50.0) == 50.0;
    assert Affordable(TRAILING, 500.0, 50.0) == 10.0;
    hide BuyPrice, Affordable, WeightedAverage;
  }

  // The peak falls from 120 to 50 while the position stays open, and the trailing stop with it.
  lemma ScaleInLowersPeak()
    ensures var b := ScaleInRun();
      && b.Valid() && OpenedAt(b, 1, 2) && LastBuy(b, 2, 2)
      && b.At(1).peak == Some(120.0) && b.At(2).peak == Some(50.0)
      && !HighestSince(b, 50.0, 1, 2)
  {
    hide StepBar;
    var b := ScaleInRun();
    ScaleInOpens();
    ScaleInAdds();
    assert b.StepAt(2) == StepBar(TRAILING, b.bars[2], 1.0, NoManager, b.At(1));
    assert Top(b, 1) >= 120.0;
  }

  // ----- A run that zeroes dust -----

  const CRUMB: real := EPSILON / 2.0

  const PLAIN := Settings(1000.0, 1.0, 0.0, 0.0, None, None, None)

  function FlatBar(time: int): Bar {
    Bar(time, 2.0, 2.0, 2.0, 2.0)
  }

  // 500 shares bought at 2, and a target that leaves half an EPSILON of them.
  function DustyRun(): Backtest {
    Backtest(PLAIN, [FlatBar(0), FlatBar(1), FlatBar(2)], [1.0, CRUMB / 500.0, 0.0], [NoManager, NoManager, NoManager])
  }

  predicate IsTrade(t: Trade, time: int, side: Side, quantity: real) {
    t.timestamp == time && t.side == side && t.quantity == quantity && t.fillPrice == 2.0
  }

  lemma DustyBuy()
    ensures ExecuteBuy(PLAIN, FlatBar(1), 500.0, Account(1000.0, 0.0, None, None)).account
         == Account(0.0, 500.0, Some(2.0), None)
    ensures var trade := ExecuteBuy(PLAIN, FlatBar(1), 500.0, Account(1000.0, 0.0, None, None)).trade;
      trade.Some? && IsTrade(trade.value, 1, Buy, 500.0)
  {
    assert BuyPrice(PLAIN, 2.0) == 2.0;
    assert Affordable(PLAIN, 1000.0, 2.0) == 500.0;
    hide BuyPrice, Affordable;
  }

  lemma DustyDelta()
    ensures DeltaShares(PLAIN, FlatBar(1), 1.0, NoManager, Account(1000.0, 0.0, None, None)) == 500.0
  {
  }

  lemma DustyFirst()
    ensures var r := StepBar(PLAIN, FlatBar(1), 1.0, NoManager, Account(1000.0, 0.0, None, None));
      && r.account == Account(0.0, 500.0, Some(2.0), Some(2.0))
      && r.trade.Some? && IsTrade(r.trade.value, 1, Buy, 500.0)
  {
    DustyDelta();
    DustyBuy();
    hide DeltaShares, ExecuteBuy, ExecuteSell;
  }

  lemma DustySecond()
    ensures var r := StepBar(PLAIN, FlatBar(2), CRUMB / 500.0, NoManager, Account(0.0, 500.0, Some(2.0), Some(2.0)));
      && r.trade.Some? && IsTrade(r.trade.value, 2, Sell, 500.0 - CRUMB)
      && r.account.shares == 0.0
  {
    assert SellPrice(PLAIN, 2.0) == 2.0;
    assert DeltaShares(PLAIN, FlatBar(2), CRUMB / 500.0, NoManager,
        Account(0.0, 500.0, Some(2.0), Some(2.0))) == CRUMB - 500.0;
    hide DeltaShares;
  }

  // A sell does zero a remainder that is not nothing.
  lemma DustHappens()
    ensures var b := DustyRun(); b.Valid() && Dust(b, 2) == CRUMB > 0.0
    ensures var trades := DustyRun().Trades(2);
      |trades| == 2 && IsTrade(trades[0], 1, Buy, 500.0) && IsTrade(trades[1], 2, Sell, 500.0 - CRUMB)
  {
    hide StepBar;
    var b := DustyRun();
    OpeningBar(b);
    DustyFirst();
    BarExtends(b, 1);
    DustySecond();
    BarExtends(b, 2);
  }
}
