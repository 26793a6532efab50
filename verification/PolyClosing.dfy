/** What a position is marked at, and when the monitor goes on to close it. */
module PolyClosing {
  import opened Prelude
  import opened PolyPositions
  import opened PolyExecutor
  import opened PolyMonitor

  // ----- Marks -----

  // What a record holds of each of its outcomes: its contracts, or, without any on record, what its cost
  // buys at its entry price; the entry price of a pair is half the cost of a set.
  function HoldingPerOutcome(p: PositionRecord): real {
    if p.contracts > 0.0 || p.entryPrice <= 0.0 then p.contracts
    else if p.legs == YesAndNo then p.sizeUsdc / (2.0 * p.entryPrice)
    else p.sizeUsdc / p.entryPrice
  }

  // The gain over its cost at these bids. A BUY_LOW record and one without cost are marked at no gain.
  function MarkedGain(p: PositionRecord, yesBid: real, noBid: real): real {
    if p.sizeUsdc <= 0.0 then 0.0
    else
      match p.legs
      case Yes => HoldingPerOutcome(p) * yesBid - p.sizeUsdc
      case No => HoldingPerOutcome(p) * noBid - p.sizeUsdc
      case YesAndNo => HoldingPerOutcome(p) * (yesBid + noBid) - p.sizeUsdc
      case BuyLow => 0.0
  }

  // The same in percent of the cost.
  function MarkedPct(p: PositionRecord, yesBid: real, noBid: real): real {
    if p.sizeUsdc <= 0.0 then 0.0 else 100.0 * MarkedGain(p, yesBid, noBid) / p.sizeUsdc
  }

  // The record holds a pair without contracts, so they are estimated from its cost.
  predicate Estimated(p: PositionRecord) {
    p.contracts <= 0.0 && p.entryPrice > 0.0
  }

  // The two estimates of the monitor, for a set and for a single token, against the holding.
  lemma EstimatedHolding(p: PositionRecord)
    ensures p.legs == YesAndNo ==> HeldContracts(p, 2.0) == HoldingPerOutcome(p)
    ensures HeldContracts(p, 1.0)
         == if Estimated(p) && p.legs == YesAndNo then 2.0 * HoldingPerOutcome(p) else HoldingPerOutcome(p)
  {
    if Estimated(p) {
      HalfOfQuotient(p.sizeUsdc, p.entryPrice);
    }
  }

  lemma HalfOfQuotient(x: real, y: real)
    requires y > 0.0
    ensures x / y / 2.0 == x / (2.0 * y) && x / y / 1.0 == x / y == 2.0 * (x / (2.0 * y))
  {
    DivMul(x, y);
    DivMul(x, 2.0 * y);
    CancelMul(x / y / 2.0, x / (2.0 * y), 2.0 * y);
  }

  lemma PercentOf(gain: real, size: real)
    requires size > 0.0
    ensures gain / size * 100.0 == 100.0 * gain / size
  {
    DivMul(gain, size);
    DivMul(100.0 * gain, size);
    CancelMul(gain / size * 100.0, 100.0 * gain / size, size);
  }

  lemma GainIs(p: PositionRecord, yesBid: real, noBid: real)
    ensures ComputeUnrealized(p, yesBid, noBid).0 == MarkedGain(p, yesBid, noBid)
  {
    EstimatedHolding(p);
    hide HoldingPerOutcome, HeldContracts;
  }

  lemma PercentIs(p: PositionRecord, yesBid: real, noBid: real)
    ensures ComputeUnrealized(p, yesBid, noBid).1
         == if p.sizeUsdc <= 0.0 then 0.0 else ComputeUnrealized(p, yesBid, noBid).0 / p.sizeUsdc * 100.0
  {
    hide HeldContracts;
  }

  // The monitor's marks are these.
  lemma MarksAre(p: PositionRecord, yesBid: real, noBid: real)
    ensures ComputeUnrealized(p, yesBid, noBid) == (MarkedGain(p, yesBid, noBid), MarkedPct(p, yesBid, noBid))
  {
    GainIs(p, yesBid, noBid);
    PercentIs(p, yesBid, noBid);
    hide ComputeUnrealized, MarkedGain;
    if p.sizeUsdc > 0.0 {
      PercentOf(MarkedGain(p, yesBid, noBid), p.sizeUsdc);
    }
  }

  // ----- When to close -----

  // The gain is at least this percentage of the cost.
  ghost predicate GainReaches(p: PositionRecord, yesBid: real, noBid: real, percent: real) {
    if p.sizeUsdc > 0.0 then 100.0 * MarkedGain(p, yesBid, noBid) >= percent * p.sizeUsdc else percent <= 0.0
  }

  ghost predicate LossReaches(p: PositionRecord, yesBid: real, noBid: real, percent: real) {
    if p.sizeUsdc > 0.0 then -100.0 * MarkedGain(p, yesBid, noBid) >= percent * p.sizeUsdc else percent <= 0.0
  }

  ghost predicate HeldTooLong(cfg: Config, p: PositionRecord, now: int) {
    now >= p.openedAt + 3600 * cfg.maxHoldHours
  }

  ghost predicate GraceOver(cfg: Config, p: PositionRecord, now: int) {
    p.status == Unhedged && now >= p.openedAt + 60 * cfg.unhedgedGraceMinutes
  }

  ghost predicate DueToClose(cfg: Config, p: PositionRecord, yesBid: real, noBid: real, now: int) {
    || GainReaches(p, yesBid, noBid, cfg.takeProfitPct)
    || LossReaches(p, yesBid, noBid, cfg.stopLossPct)
    || HeldTooLong(cfg, p, now)
    || GraceOver(cfg, p, now)
  }

  lemma PercentReached(gain: real, size: real, percent: real)
    requires size > 0.0
    ensures 100.0 * gain / size >= percent <==> 100.0 * gain >= percent * size
    ensures 100.0 * gain / size <= -percent <==> -100.0 * gain >= percent * size
  {
    var pct := 100.0 * gain / size;
    DivMul(100.0 * gain, size);
    assert pct * size == 100.0 * gain;
    OrderTimes(pct, percent, size);
    OrderTimes(-percent, pct, size);
    assert -percent * size == -(percent * size);
  }

  lemma OrderTimes(x: real, y: real, k: real)
    requires k > 0.0
    ensures x >= y <==> x * k >= y * k
  {
    if x >= y {
      MulMono(y, x, k);
    } else {
      MulPos(y - x, k);
    }
  }

  // The monitor finds a reason to close exactly when one of four conditions holds: the gain or the loss
  // has reached its percentage of the cost, the holding time is over, or an unhedged leg's grace is over.
  // The reason given is the first of them.
  lemma ReasonIff(cfg: Config, p: PositionRecord, yesBid: real, noBid: real, now: int)
    ensures var reason := ReasonToClose(p, cfg, ComputeUnrealized(p, yesBid, noBid).1, now);
      var gain := GainReaches(p, yesBid, noBid, cfg.takeProfitPct);
      var loss := LossReaches(p, yesBid, noBid, cfg.stopLossPct);
      && (reason.Some? <==> DueToClose(cfg, p, yesBid, noBid, now))
      && (reason == Some(ProfitTarget) <==> gain)
      && (reason == Some(StopLoss) <==> !gain && loss)
      && (reason == Some(MaxHold) <==> !gain && !loss && HeldTooLong(cfg, p, now))
      && (reason == Some(GraceExpired) <==> !gain && !loss && !HeldTooLong(cfg, p, now) && GraceOver(cfg, p, now))
  {
    MarksAre(p, yesBid, noBid);
    hide MarkedGain, ComputeUnrealized;
    if p.sizeUsdc > 0.0 {
      PercentReached(MarkedGain(p, yesBid, noBid), p.sizeUsdc, cfg.takeProfitPct);
      PercentReached(MarkedGain(p, yesBid, noBid), p.sizeUsdc, cfg.stopLossPct);
      hide MarkedPct;
      PctIs(p, yesBid, noBid);
    }
  }

  lemma PctIs(p: PositionRecord, yesBid: real, noBid: real)
    requires p.sizeUsdc > 0.0
    ensures MarkedPct(p, yesBid, noBid) == 100.0 * MarkedGain(p, yesBid, noBid) / p.sizeUsdc
  {
  }

  // The market's end is past: its own end date, or the record's where the market supplies none.
  ghost predicate PastEnd(p: PositionRecord, detail: MarketDetail, now: int) {
    || (detail.end.EndsAt? && now > detail.end.time)
    || (detail.end.NotSupplied? && p.endDate.Some? && now > p.endDate.value)
  }

  lemma PastEndIff(p: PositionRecord, detail: MarketDetail, now: int)
    ensures PastEnd(p, detail, now) <==> EndTime(p, detail).Some? && now > EndTime(p, detail).value
  {
  }
}
