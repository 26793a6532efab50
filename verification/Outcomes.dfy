/** What each reported trade of a replayed log says, against the pool of lots it was sold from. */
module Outcomes {
  import opened Prelude
  import opened Sorting
  import opened PerformanceLayer

  // ----- The pool of lots -----

  // What is left of one purchase.
  datatype Lot = Lot(quantity: real, price: real, time: real)

  function Times(x: real, y: real): real {
    x * y
  }

  function Held(lots: seq<Lot>): real {
    if lots == [] then 0.0 else Held(lots[..|lots| - 1]) + lots[|lots| - 1].quantity
  }

  function Cost(lots: seq<Lot>): real {
    if lots == [] then 0.0 else Cost(lots[..|lots| - 1]) + Times(lots[|lots| - 1].quantity, lots[|lots| - 1].price)
  }

  // Quantity times time of purchase.
  function TimeMass(lots: seq<Lot>): real {
    if lots == [] then 0.0
    else TimeMass(lots[..|lots| - 1]) + Times(lots[|lots| - 1].quantity, lots[|lots| - 1].time)
  }

  // The same share of every lot.
  function Share(lots: seq<Lot>, share: real): seq<Lot> {
    seq(|lots|, k requires 0 <= k < |lots| => lots[k].(quantity := Times(share, lots[k].quantity)))
  }

  // A purchase adds a lot, and a sale takes the same share of every lot. A remainder of no more than
  // EPSILON is dropped; a purchase that brings the holding to no more than EPSILON starts it anew, at no
  // price.
  function NextLots(lots: seq<Lot>, f: Fill): seq<Lot> {
    if f.side == Buy then
      var more := lots + [Lot(f.quantity, f.price, f.timestamp as real)];
      if Held(more) > EPSILON then more else [Lot(Held(more), 0.0, f.timestamp as real)]
    else if Held(lots) <= EPSILON then lots
    else if Held(lots) - f.quantity <= EPSILON then []
    else Share(lots, (Held(lots) - f.quantity) / Held(lots))
  }

  // The lots of one position after the first n fills.
  function Lots(fills: seq<Fill>, isolate: bool, key: Key, n: nat): seq<Lot>
    requires n <= |fills|
  {
    if n == 0 then []
    else
      var lots := Lots(fills, isolate, key, n - 1);
      if KeyOf(fills[n - 1], isolate) == key then NextLots(lots, fills[n - 1]) else lots
  }

  lemma AddLot(lots: seq<Lot>, lot: Lot)
    ensures Held(lots + [lot]) == Held(lots) + lot.quantity
    ensures Cost(lots + [lot]) == Cost(lots) + Times(lot.quantity, lot.price)
    ensures TimeMass(lots + [lot]) == TimeMass(lots) + Times(lot.quantity, lot.time)
  {
    assert (lots + [lot])[..|lots|] == lots;
  }

  lemma ScaleTerm(share: real, quantity: real, x: real, sum: real)
    ensures Times(share, sum) + Times(Times(share, quantity), x) == Times(share, sum + Times(quantity, x))
    ensures Times(share, sum) + Times(share, quantity) == Times(share, sum + quantity)
  {
  }

  lemma ShareLast(lots: seq<Lot>, share: real)
    requires lots != []
    ensures var last := lots[|lots| - 1];
      Share(lots, share) == Share(lots[..|lots| - 1], share) + [last.(quantity := Times(share, last.quantity))]
  {
  }

  lemma {:induction false} ShareOfSums(lots: seq<Lot>, share: real)
    ensures Held(Share(lots, share)) == Times(share, Held(lots))
    ensures Cost(Share(lots, share)) == Times(share, Cost(lots))
    ensures TimeMass(Share(lots, share)) == Times(share, TimeMass(lots))
  {
    if lots != [] {
      var front, last := lots[..|lots| - 1], lots[|lots| - 1];
      ShareOfSums(front, share);
      ShareLast(lots, share);
      AddLot(Share(front, share), last.(quantity := Times(share, last.quantity)));
      ScaleTerm(share, last.quantity, last.price, Cost(front));
      ScaleTerm(share, last.quantity, last.time, TimeMass(front));
      ScaleTerm(share, last.quantity, 1.0, Held(front));
      hide Times, Share;
    }
  }

  // The replayed position describes this pool.
  ghost predicate Pools(p: Position, lots: seq<Lot>) {
    && p.quantity == Held(lots) && p.quantity >= 0.0
    && Times(p.quantity, p.avgPrice) == Cost(lots)
    && (lots == [] ==> p == EMPTY)
    && (lots != [] ==> p.quantity > 0.0 && p.entryNs.Some? && Times(p.quantity, p.entryNs.value) == TimeMass(lots))
  }

  lemma AverageTimes(q0: real, x0: real, q1: real, x1: real)
    requires q0 + q1 != 0.0
    ensures Times(q0 + q1, WeightedAverage(q0, x0, q1, x1)) == Times(q0, x0) + Times(q1, x1)
  {
  }

  lemma NoTimes(x: real)
    ensures Times(0.0, x) == 0.0 == Times(x, 0.0)
  {
  }

  lemma BuyPools(p: Position, f: Fill, lots: seq<Lot>)
    requires Pools(p, lots) && f.quantity > 0.0
    ensures var more := lots + [Lot(f.quantity, f.price, f.timestamp as real)];
      Pools(ApplyBuy(p, f), if Held(more) > EPSILON then more else [Lot(Held(more), 0.0, f.timestamp as real)])
  {
    var ts := f.timestamp as real;
    var more := lots + [Lot(f.quantity, f.price, ts)];
    AddLot(lots, Lot(f.quantity, f.price, ts));
    EmptyPool();
    NoTimes(p.avgPrice);
    hide Held, Cost, TimeMass, Times, WeightedAverage;
    if Held(more) <= EPSILON {
      var only := Lot(Held(more), 0.0, ts);
      AddLot([], only);
      NoTimes(only.quantity);
      assert [] + [only] == [only];
    } else {
      AverageTimes(p.quantity, p.avgPrice, f.quantity, f.price);
      if lots != [] {
        AverageTimes(p.quantity, p.entryNs.value, f.quantity, ts);
      }
    }
  }

  lemma EmptyPool()
    ensures Held([]) == 0.0 == Cost([]) == TimeMass([])
  {
  }

  lemma SellPools(p: Position, f: Fill, lots: seq<Lot>)
    requires Pools(p, lots) && f.quantity > 0.0 && p.quantity > EPSILON
    ensures Pools(ApplySell(p, f).0,
                  if Held(lots) - f.quantity <= EPSILON then []
                  else Share(lots, (Held(lots) - f.quantity) / Held(lots)))
  {
    EmptyPool();
    NoTimes(0.0);
    hide SellCloses, Cost, TimeMass, Times, Share;
    if Held(lots) - f.quantity > EPSILON {
      var share := Quotient(Held(lots) - f.quantity, Held(lots));
      ShareOfSums(lots, share);
      SameLength(lots, share);
      hide Held;
      ShareOfProduct(share, p.quantity, p.avgPrice);
      ShareOfProduct(share, p.quantity, p.entryNs.value);
    }
  }

  lemma Quotient(left: real, held: real) returns (share: real)
    requires held != 0.0
    ensures share == left / held && Times(share, held) == left
  {
    share := left / held;
    DivMul(left, held);
  }

  lemma SameLength(lots: seq<Lot>, share: real)
    ensures |Share(lots, share)| == |lots|
  {
  }

  lemma ShareOfProduct(share: real, x: real, y: real)
    ensures Times(Times(share, x), y) == Times(share, Times(x, y))
  {
  }

  // After any log of validated fills every position is the pool of what is left of its purchases.
  lemma {:induction false} PositionIsPool(fills: seq<Fill>, isolate: bool, key: Key, n: nat)
    requires n <= |fills| && forall k :: 0 <= k < |fills| ==> fills[k].quantity > 0.0
    ensures Pools(ReplayAt(fills, isolate, n).PositionOf(key), Lots(fills, isolate, key, n))
  {
    hide NextLots, ApplyFill, ReplayFill, Pools;
    if n == 0 {
      NothingPooled(key);
    } else {
      PositionIsPool(fills, isolate, key, n - 1);
      var f, before := fills[n - 1], ReplayAt(fills, isolate, n - 1);
      if KeyOf(f, isolate) == key {
        FillPools(before.PositionOf(key), f, Lots(fills, isolate, key, n - 1));
        ReplayKeyed(before, f, isolate);
      } else {
        ReplayOther(before, f, isolate, key);
      }
    }
  }

  lemma NothingPooled(key: Key)
    ensures Pools(Replay(map[], []).PositionOf(key), [])
  {
    NoTimes(0.0);
  }

  lemma FillPools(p: Position, f: Fill, lots: seq<Lot>)
    requires Pools(p, lots) && f.quantity > 0.0
    ensures Pools(ApplyFill(p, f).0, NextLots(lots, f))
  {
    hide Share, ApplyBuy, Held, SellCloses;
    if f.side == Buy {
      BuyPools(p, f, lots);
    } else {
      PoolHolds(p, lots);
      if p.quantity > EPSILON {
        SellPools(p, f, lots);
      }
    }
    hide Pools;
  }

  lemma PoolHolds(p: Position, lots: seq<Lot>)
    requires Pools(p, lots)
    ensures p.quantity == Held(lots)
  {
  }

  lemma ReplayKeyed(r: Replay, f: Fill, isolate: bool)
    ensures ReplayFill(r, f, isolate).PositionOf(KeyOf(f, isolate)) == ApplyFill(r.PositionOf(KeyOf(f, isolate)), f).0
  {
    hide ApplyBuy, SellCloses;
  }

  lemma ReplayOther(r: Replay, f: Fill, isolate: bool, key: Key)
    requires KeyOf(f, isolate) != key
    ensures ReplayFill(r, f, isolate).PositionOf(key) == r.PositionOf(key)
  {
  }

  // ----- What is reported -----

  // entry is x with its fraction dropped.
  predicate WithoutFraction(entry: int, x: real) {
    if x >= 0.0 then entry as real <= x < entry as real + 1.0 else entry as real - 1.0 < x <= entry as real
  }

  // The outcome o that a fill of these lots reports: where it comes from is the fill's; its P&L is what
  // the closed quantity brings above its share of the cost, and its return is that P&L over the cost of
  // the closed quantity, or nothing when the average price is no more than EPSILON; it was entered at the
  // mean time of the lots and left at the fill's.
  ghost predicate Reported(lots: seq<Lot>, f: Fill, o: Outcome) {
    && Held(lots) > 0.0
    && var closed, average := Min(f.quantity, Held(lots)), Cost(lots) / Held(lots);
    && o.strategy == f.strategy && o.symbol == f.symbol && o.timeframe == f.timeframe && o.regime == f.regime
    && o.runId == f.runId
    && o.exitNs == f.timestamp && WithoutFraction(o.entryNs, TimeMass(lots) / Held(lots))
    && o.holdNs == (if o.exitNs >= o.entryNs then o.exitNs - o.entryNs else 0)
    && o.pnl == Times(closed, f.price) - Times(closed, average)
    && (average > EPSILON ==> o.pnl == Times(o.returnPct, Times(closed, average)))
    && (average <= EPSILON ==> o.returnPct == 0.0)
  }

  lemma Means(p: Position, lots: seq<Lot>)
    requires Pools(p, lots) && p.quantity > EPSILON
    ensures p.avgPrice == Cost(lots) / Held(lots)
    ensures p.entryNs.Some? && p.entryNs.value == TimeMass(lots) / Held(lots)
  {
    assert lots != [] by {
      EmptyPool();
    }
    MeanOf(p.quantity, p.avgPrice, Cost(lots));
    MeanOf(p.quantity, p.entryNs.value, TimeMass(lots));
  }

  lemma MeanOf(quantity: real, x: real, sum: real)
    requires quantity > 0.0 && Times(quantity, x) == sum
    ensures x == sum / quantity
  {
    DivMul(sum, quantity);
    CancelMul(x, sum / quantity, quantity);
  }

  lemma ReturnExplainsPnl(price: real, average: real, closed: real)
    ensures Gain(price, average, closed) == Times(closed, price) - Times(closed, average)
    ensures average > 0.0 ==> Gain(price, average, closed) == Times(price / average - 1.0, Times(closed, average))
  {
    if average > 0.0 {
      DivMul(price, average);
      var r := price / average - 1.0;
      assert r * average == price - average;
      assert r * (closed * average) == r * average * closed;
    }
  }

  lemma TruncateDropsFraction(x: real)
    ensures WithoutFraction(Truncate(x), x)
  {
  }

  lemma SaleReports(p: Position, f: Fill, lots: seq<Lot>)
    requires Pools(p, lots) && f.side != Buy && p.quantity > EPSILON
    ensures ApplyFill(p, f).1.Some? && Reported(lots, f, ApplyFill(p, f).1.value)
  {
    PoolHolds(p, lots);
    Means(p, lots);
    TruncateDropsFraction(p.entryNs.value);
    ReturnExplainsPnl(f.price, p.avgPrice, Min(f.quantity, p.quantity));
    hide Held, Cost, TimeMass, Times, Gain, Truncate, WithoutFraction, Pools;
  }

  // Fill n of a log reports one outcome when it closes some of more than EPSILON, and none otherwise.
  lemma FillReports(fills: seq<Fill>, isolate: bool, n: nat)
    requires n < |fills| && forall k :: 0 <= k < |fills| ==> fills[k].quantity > 0.0
    ensures var f, before, after := fills[n], ReplayAt(fills, isolate, n).outcomes,
          ReplayAt(fills, isolate, n + 1).outcomes;
      var lots := Lots(fills, isolate, KeyOf(f, isolate), n);
      if f.side == Buy || Held(lots) <= EPSILON then after == before
      else |after| == |before| + 1 && after[..|before|] == before && Reported(lots, f, after[|before|])
  {
    hide ApplyBuy, SellCloses, Pools, Reported, Held;
    var f, before := fills[n], ReplayAt(fills, isolate, n);
    var key := KeyOf(f, isolate);
    var p, lots := before.PositionOf(key), Lots(fills, isolate, key, n);
    PositionIsPool(fills, isolate, key, n);
    PoolHolds(p, lots);
    if f.side != Buy && p.quantity > EPSILON {
      SaleReports(p, f, lots);
    } else {
      assert before.outcomes + [] == before.outcomes;
    }
  }

  // Every outcome of a replayed log is what some fill of it reports about the lots it was sold from.
  lemma {:induction false} EveryOutcomeReported(fills: seq<Fill>, isolate: bool, n: nat, k: nat) returns (m: nat)
    requires n <= |fills| && (forall i :: 0 <= i < |fills| ==> fills[i].quantity > 0.0)
    requires k < |ReplayAt(fills, isolate, n).outcomes|
    ensures m < n && fills[m].side != Buy
    ensures Reported(Lots(fills, isolate, KeyOf(fills[m], isolate), m), fills[m],
                     ReplayAt(fills, isolate, n).outcomes[k])
  {
    hide ReplayAt, Reported, Lots, Held;
    if n == 0 {
      NoOutcomes(fills, isolate);
    } else {
      FillReports(fills, isolate, n - 1);
      if k < |ReplayAt(fills, isolate, n - 1).outcomes| {
        m := EveryOutcomeReported(fills, isolate, n - 1, k);
      } else {
        m := n - 1;
      }
    }
  }

  lemma NoOutcomes(fills: seq<Fill>, isolate: bool)
    ensures ReplayAt(fills, isolate, 0).outcomes == []
  {
  }

  // So a reported return has the sign of the P&L beside it.
  lemma ReturnHasSignOfPnl(lots: seq<Lot>, f: Fill, o: Outcome)
    requires Reported(lots, f, o) && f.quantity > 0.0 && Cost(lots) / Held(lots) > EPSILON
    ensures (o.returnPct > 0.0 <==> o.pnl > 0.0) && (o.returnPct < 0.0 <==> o.pnl < 0.0)
  {
    var closed, average := Min(f.quantity, Held(lots)), Cost(lots) / Held(lots);
    hide Held, Cost, TimeMass, WithoutFraction;
    MulPos(closed, average);
    SignOfProduct(o.returnPct, Times(closed, average));
  }

  lemma SignOfProduct(x: real, y: real)
    requires y > 0.0
    ensures (x > 0.0 <==> Times(x, y) > 0.0) && (x < 0.0 <==> Times(x, y) < 0.0)
  {
    if x > 0.0 {
      MulPos(x, y);
    } else if x < 0.0 {
      MulPos(-x, y);
    }
  }

  // The whole of it, from stored rows to reported trades.
  lemma TradesAreReported(rows: seq<RawFill>, contexts: map<string, Context>, isolate: bool, k: nat) returns (m: nat)
    requires k < |ReplayAll(OrderedFills(rows, contexts), isolate).outcomes|
    ensures var fills := OrderedFills(rows, contexts);
      && m < |fills| && fills[m].side != Buy
      && Reported(Lots(fills, isolate, KeyOf(fills[m], isolate), m), fills[m], ReplayAll(fills, isolate).outcomes[k])
  {
    var fills := OrderedFills(rows, contexts);
    OrderedArePositive(rows, contexts);
    m := EveryOutcomeReported(fills, isolate, |fills|, k);
  }

  lemma {:induction false} NormalizedArePositive(rows: seq<RawFill>, contexts: map<string, Context>)
    ensures forall f :: f in Normalize(rows, contexts) ==> f.quantity > 0.0 && f.price > 0.0
  {
    if rows != [] {
      NormalizedArePositive(rows[..|rows| - 1], contexts);
    }
  }

  lemma OrderedArePositive(rows: seq<RawFill>, contexts: map<string, Context>)
    ensures var fills := OrderedFills(rows, contexts); forall k :: 0 <= k < |fills| ==> fills[k].quantity > 0.0
  {
    hide StableSort, Normalize;
    NormalizedArePositive(rows, contexts);
    SortContents(Normalize(rows, contexts), FillLeq);
    var fills := OrderedFills(rows, contexts);
    forall k | 0 <= k < |fills| ensures fills[k].quantity > 0.0 {
      assert fills[k] in multiset(fills);
    }
  }

  // The context that a row's run was stored under, if there is one.
  function ContextOf(row: RawFill, contexts: map<string, Context>): Option<Context> {
    if row.runId.Some? && row.runId.value in contexts then Some(contexts[row.runId.value])
    else if row.runId.None? && "" in contexts then Some(contexts[""])
    else None
  }

  // Which rows are replayed, and what fills the gaps in them.
  lemma RowIsKept(row: RawFill, contexts: map<string, Context>)
    ensures var fills := Normalize([row], contexts);
      if row.timestamp.None? || row.side == Unknown || row.quantity <= 0.0 || row.price <= 0.0 then fills == []
      else
        && |fills| == 1
        && var f, context := fills[0], ContextOf(row, contexts);
        && f.timestamp == row.timestamp.value && f.side == row.side
        && f.quantity == row.quantity && f.price == row.price
        && f.symbol == (if row.symbol == "" then "UNKNOWN" else row.symbol)
        && (row.strategy != "" ==> f.strategy == row.strategy)
        && (row.strategy == "" && context.Some? && context.value.strategy != "" ==>
              f.strategy == context.value.strategy)
        && (row.strategy == "" && (context.None? || context.value.strategy == "") ==> f.strategy == "unknown")
        && (f.runId == if row.runId == Some("") then None else row.runId)
        && (if context.Some? && context.value.timeframe != "" then f.timeframe == context.value.timeframe
            else f.timeframe == "unknown")
        && (if context.Some? && context.value.regime != "" then f.regime == context.value.regime
            else f.regime == "unknown")
  {
    assert [row][..0] == [];
  }
}
