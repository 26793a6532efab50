/** Replaying a backtest's trade log through the analytics layer reproduces the engine's own books. */
module BacktestReplay {
  import opened Prelude
  import B = BacktestEngine
  import opened BacktestProperties
  import P = PerformanceLayer
  import opened Sorting

  // How a run's trades are tagged when they are stored.
  datatype Tag = Tag(symbol: string, strategy: string, runId: Option<string>)

  function RowOf(t: B.Trade, tag: Tag): P.RawFill {
    P.RawFill(Some(t.timestamp), if t.side == B.Buy then P.Buy else P.Sell, t.quantity, t.fillPrice,
              tag.symbol, tag.strategy, tag.runId)
  }

  function TradeLog(trades: seq<B.Trade>, tag: Tag): seq<P.RawFill> {
    seq(|trades|, i requires 0 <= i < |trades| => RowOf(trades[i], tag))
  }

  // The positions key under which every trade of one run is filed.
  function RunKey(tag: Tag, contexts: map<string, P.Context>, isolate: bool): P.Key {
    var row := RowOf(B.Trade(0, B.Buy, 1.0, 1.0, 0.0, B.Signal, 0.0, 0.0, 0.0), tag);
    P.KeyOf(P.NormalizeRow(row, contexts), isolate)
  }

  function TotalPnl(outcomes: seq<P.Outcome>): real {
    if outcomes == [] then 0.0 else TotalPnl(outcomes[..|outcomes| - 1]) + outcomes[|outcomes| - 1].pnl
  }

  // Cost basis of the remainders zeroed as dust.
  ghost function DustBasis(b: B.Backtest, n: nat): real
    requires b.Valid() && n < |b.bars|
  {
    if n == 0 then 0.0 else DustBasis(b, n - 1) + DustCost(b, n)
  }

  ghost function DustCost(b: B.Backtest, n: nat): real
    requires b.Valid() && 0 < n < |b.bars|
  {
    Dust(b, n) * b.At(n - 1).entry.GetOr(0.0)
  }

  function FeesPaid(b: B.Backtest, n: nat): real
    requires b.Valid() && n < |b.bars|
  {
    b.cfg.fixedFee * |b.Trades(n)| as real
  }

  lemma OneMoreFeePaid(b: B.Backtest, n: nat)
    requires b.Valid() && 0 < n < |b.bars| && b.TradeAt(n).Some?
    ensures FeesPaid(b, n) == FeesPaid(b, n - 1) + b.cfg.fixedFee
  {
    hide B.StepBar;
    OneMoreFee(b.cfg.fixedFee, |b.Trades(n - 1)|);
  }

  ghost predicate IncreasingTimes(b: B.Backtest) {
    forall i, j :: 0 <= i < j < |b.bars| ==> b.bars[i].timestamp < b.bars[j].timestamp
  }

  // The engine's account and a replayed position describe the same holding.
  ghost predicate SameHolding(a: B.Account, p: P.Position) {
    p.quantity == a.shares && (if a.entry.Some? then p.avgPrice == a.entry.value else p == P.EMPTY)
  }

  lemma {:induction false} PrefixReplay(a: seq<P.Fill>, x: P.Fill, isolate: bool, k: nat)
    requires k <= |a|
    ensures P.ReplayAt(a + [x], isolate, k) == P.ReplayAt(a, isolate, k)
  {
    if k > 0 {
      PrefixReplay(a, x, isolate, k - 1);
    }
  }

  lemma NormalizeLast(rows: seq<P.RawFill>, row: P.RawFill, contexts: map<string, P.Context>)
    requires P.Usable(row)
    ensures P.Normalize(rows + [row], contexts) == P.Normalize(rows, contexts) + [P.NormalizeRow(row, contexts)]
  {
    assert (rows + [row])[..|rows|] == rows;
  }

  lemma TotalPnlAppend(outcomes: seq<P.Outcome>, o: P.Outcome)
    ensures TotalPnl(outcomes + [o]) == TotalPnl(outcomes) + o.pnl
  {
    assert (outcomes + [o])[..|outcomes|] == outcomes;
  }

  // Cash plus the cost basis of what is held.
  ghost function BookValue(a: B.Account): real {
    a.cash + a.shares * a.entry.GetOr(0.0)
  }

  lemma BuyAverages(p: P.Position, f: P.Fill, shares: real, entry: real)
    requires shares == p.quantity + f.quantity > EPSILON
    requires entry * shares == p.quantity * p.avgPrice + f.quantity * f.price
    ensures P.ApplyBuy(p, f).quantity == shares && P.ApplyBuy(p, f).avgPrice == entry
  {
    CancelMul(WeightedAverage(p.quantity, p.avgPrice, f.quantity, f.price), entry, shares);
  }

  lemma BuyAgrees(b: B.Backtest, n: nat, p: P.Position, f: P.Fill)
    requires b.Valid() && 0 < n < |b.bars| && b.BuyAt(n) && SameHolding(b.At(n - 1), p)
    requires f.side == P.Buy && f.quantity == b.TradeAt(n).value.quantity && f.price == b.TradeAt(n).value.fillPrice
    ensures SameHolding(b.At(n), P.ApplyBuy(p, f))
    ensures BookValue(b.At(n)) == BookValue(b.At(n - 1)) - b.cfg.fixedFee
  {
    hide B.StepBar, SellReference, P.ApplyBuy;
    KindAt(b, n);
    BuyAverages(p, f, b.At(n).shares, b.At(n).entry.value);
  }

  lemma SellAgrees(b: B.Backtest, n: nat, p: P.Position, f: P.Fill)
    requires b.Valid() && 0 < n < |b.bars| && b.SellAt(n) && SameHolding(b.At(n - 1), p)
    requires f.side == P.Sell && f.quantity == b.TradeAt(n).value.quantity && f.price == b.TradeAt(n).value.fillPrice
    ensures var (next, outcome) := P.ApplySell(p, f);
      && SameHolding(b.At(n), next)
      && outcome.Some?
      && BookValue(b.At(n)) == BookValue(b.At(n - 1)) + outcome.value.pnl - b.cfg.fixedFee
                               - DustCost(b, n)
  {
    hide B.StepBar, SellReference;
    KindAt(b, n);
    var before, after, t := b.At(n - 1), b.At(n), b.TradeAt(n).value;
    var entry, q := before.entry.value, t.quantity;
    assert Min(f.quantity, p.quantity) == q;
    assert before.shares * entry == q * entry + after.shares * entry + Dust(b, n) * entry;
    assert (t.fillPrice - entry) * q == q * t.fillPrice - q * entry;
  }

  // What replaying the log of the first n bars must have produced.
  ghost predicate Reproduces(b: B.Backtest, n: nat, tag: Tag, isolate: bool, contexts: map<string, P.Context>,
          r: P.Replay)
    requires b.Valid() && n < |b.bars|
  {
    && SameHolding(b.At(n), r.PositionOf(RunKey(tag, contexts, isolate)))
    && b.cfg.initialCapital + TotalPnl(r.outcomes) - FeesPaid(b, n) - DustBasis(b, n)
       == BookValue(b.At(n))
  }

  lemma TradeReproduces(b: B.Backtest, n: nat, tag: Tag, isolate: bool, contexts: map<string, P.Context>, r: P.Replay)
    requires b.Valid() && 0 < n < |b.bars| && b.TradeAt(n).Some?
    requires Reproduces(b, n - 1, tag, isolate, contexts, r)
    requires P.Usable(RowOf(b.TradeAt(n).value, tag))
    ensures var f := P.NormalizeRow(RowOf(b.TradeAt(n).value, tag), contexts);
      Reproduces(b, n, tag, isolate, contexts, P.ReplayFill(r, f, isolate))
  {
    hide B.StepBar, P.ApplyBuy, P.ApplySell, Dust, DustCost, FeesPaid, SameHolding, BookValue, P.ReplayFill, RunKey;
    var f := P.NormalizeRow(RowOf(b.TradeAt(n).value, tag), contexts);
    FiledUnderRunKey(b.TradeAt(n).value, tag, isolate, contexts);
    ReplayFillFacts(r, f, isolate);
    var p := r.PositionOf(RunKey(tag, contexts, isolate));
    if b.BuyAt(n) {
      BuyAgrees(b, n, p, f);
      BuyLeavesNoDust(b, n);
    } else {
      SellAgrees(b, n, p, f);
    }
    OneMoreFeePaid(b, n);
  }

  lemma FiledUnderRunKey(t: B.Trade, tag: Tag, isolate: bool, contexts: map<string, P.Context>)
    requires P.Usable(RowOf(t, tag))
    ensures P.KeyOf(P.NormalizeRow(RowOf(t, tag), contexts), isolate) == RunKey(tag, contexts, isolate)
  {
  }

  lemma ReplayFillFacts(r: P.Replay, f: P.Fill, isolate: bool)
    ensures var (next, outcome) := P.ApplyFill(r.PositionOf(P.KeyOf(f, isolate)), f);
      && P.ReplayFill(r, f, isolate).PositionOf(P.KeyOf(f, isolate)) == next
      && TotalPnl(P.ReplayFill(r, f, isolate).outcomes)
         == TotalPnl(r.outcomes) + if outcome.Some? then outcome.value.pnl else 0.0
  {
    hide P.ApplyBuy;
    var (next, outcome) := P.ApplyFill(r.PositionOf(P.KeyOf(f, isolate)), f);
    if outcome.Some? {
      TotalPnlAppend(r.outcomes, outcome.value);
    } else {
      assert r.outcomes + [] == r.outcomes;
    }
  }

  lemma BuyLeavesNoDust(b: B.Backtest, n: nat)
    requires b.Valid() && 0 < n < |b.bars| && b.BuyAt(n)
    ensures DustCost(b, n) == 0.0
  {
  }

  lemma IdleReproduces(b: B.Backtest, n: nat, tag: Tag, isolate: bool, contexts: map<string, P.Context>, r: P.Replay)
    requires b.Valid() && 0 < n < |b.bars| && b.TradeAt(n).None?
    requires Reproduces(b, n - 1, tag, isolate, contexts, r)
    ensures Reproduces(b, n, tag, isolate, contexts, r)
  {
    hide B.StepBar, RunKey, TotalPnl;
    IdleKeepsBooks(b, n);
  }

  lemma IdleKeepsBooks(b: B.Backtest, n: nat)
    requires b.Valid() && 0 < n < |b.bars| && b.TradeAt(n).None?
    ensures b.Trades(n) == b.Trades(n - 1) && DustBasis(b, n) == DustBasis(b, n - 1)
    ensures b.At(n).cash == b.At(n - 1).cash && b.At(n).shares == b.At(n - 1).shares
        && b.At(n).entry == b.At(n - 1).entry
  {
    hide B.StepBar;
    KindAt(b, n);
    assert b.Trades(n) == b.Trades(n - 1);
  }

  // The validated fills of the first n bars, and how bar n extends them.
  ghost function RunFills(b: B.Backtest, n: nat, tag: Tag, contexts: map<string, P.Context>): seq<P.Fill>
    requires b.Valid() && n < |b.bars|
  {
    P.Normalize(TradeLog(b.Trades(n), tag), contexts)
  }

  lemma RunFillsStep(b: B.Backtest, n: nat, tag: Tag, contexts: map<string, P.Context>)
    requires b.Valid() && 0 < n < |b.bars|
    ensures b.TradeAt(n).None? ==> RunFills(b, n, tag, contexts) == RunFills(b, n - 1, tag, contexts)
    ensures b.TradeAt(n).Some? ==>
              var row := RowOf(b.TradeAt(n).value, tag);
              && P.Usable(row)
              && row.timestamp.value == b.bars[n].timestamp == P.NormalizeRow(row, contexts).timestamp
              && RunFills(b, n, tag, contexts) == RunFills(b, n - 1, tag, contexts) + [P.NormalizeRow(row, contexts)]
  {
    hide B.StepBar;
    KindAt(b, n);
    if b.TradeAt(n).Some? {
      var row := RowOf(b.TradeAt(n).value, tag);
      var oldLog := TradeLog(b.Trades(n - 1), tag);
      assert TradeLog(b.Trades(n), tag) == oldLog + [row];
      NormalizeLast(oldLog, row, contexts);
    } else {
      assert b.Trades(n) == b.Trades(n - 1);
    }
  }

  ghost predicate StrictUpTo(fills: seq<P.Fill>, last: int) {
    P.StrictTimes(fills) && forall k :: 0 <= k < |fills| ==> fills[k].timestamp <= last
  }

  lemma StrictExtends(fills: seq<P.Fill>, f: P.Fill, last: int, next: int)
    requires StrictUpTo(fills, last) && last < next
    requires f.timestamp == next
    ensures StrictUpTo(fills + [f], next)
  {
  }

  lemma {:induction false} RunFillsStrict(b: B.Backtest, n: nat, tag: Tag, contexts: map<string, P.Context>)
    requires b.Valid() && n < |b.bars| && IncreasingTimes(b)
    ensures StrictUpTo(RunFills(b, n, tag, contexts), b.bars[n].timestamp)
  {
    if n > 0 {
      RunFillsStrict(b, n - 1, tag, contexts);
      RunFillsStrictStep(b, n, tag, contexts, b.bars[n - 1].timestamp);
      hide RunFills, StrictUpTo;
    }
  }

  lemma RunFillsStrictStep(b: B.Backtest, n: nat, tag: Tag, contexts: map<string, P.Context>, last: int)
    requires b.Valid() && 0 < n < |b.bars| && last < b.bars[n].timestamp
    requires StrictUpTo(RunFills(b, n - 1, tag, contexts), last)
    ensures StrictUpTo(RunFills(b, n, tag, contexts), b.bars[n].timestamp)
  {
    hide RunFills, StrictUpTo, B.Backtest.TradeAt, RowOf, P.Usable, P.NormalizeRow;
    RunFillsStep(b, n, tag, contexts);
    var fills := RunFills(b, n - 1, tag, contexts);
    if b.TradeAt(n).Some? {
      StrictExtends(fills, P.NormalizeRow(RowOf(b.TradeAt(n).value, tag), contexts), last, b.bars[n].timestamp);
    } else {
      LaterBound(fills, last, b.bars[n].timestamp);
    }
  }

  lemma LaterBound(fills: seq<P.Fill>, last: int, next: int)
    requires StrictUpTo(fills, last) && last < next
    ensures StrictUpTo(fills, next)
  {
  }

  lemma {:induction false} ReplayReproduces(b: B.Backtest, n: nat, tag: Tag, isolate: bool,
          contexts: map<string, P.Context>)
    requires b.Valid() && n < |b.bars|
    ensures Reproduces(b, n, tag, isolate, contexts, P.ReplayAll(RunFills(b, n, tag, contexts), isolate))
  {
    hide P.ReplayFill, Reproduces, RunFills;
    if n == 0 {
      StartReproduces(b, tag, isolate, contexts);
    } else {
      ReplayReproduces(b, n - 1, tag, isolate, contexts);
      RunFillsStep(b, n, tag, contexts);
      var before := RunFills(b, n - 1, tag, contexts);
      if b.TradeAt(n).Some? {
        PrefixReplay(before, P.NormalizeRow(RowOf(b.TradeAt(n).value, tag), contexts), isolate, |before|);
        TradeReproduces(b, n, tag, isolate, contexts, P.ReplayAll(before, isolate));
      } else {
        IdleReproduces(b, n, tag, isolate, contexts, P.ReplayAll(before, isolate));
      }
    }
  }

  lemma StartReproduces(b: B.Backtest, tag: Tag, isolate: bool, contexts: map<string, P.Context>)
    requires b.Valid()
    ensures Reproduces(b, 0, tag, isolate, contexts, P.ReplayAll(RunFills(b, 0, tag, contexts), isolate))
  {
  }

  // Handing the run's trade log to the analytics layer, in any order, gives back the engine's open
  // quantity and average entry, and a realised P&L that explains the engine's cash to the cent.
  lemma AnalyticsAgreesWithEngine(b: B.Backtest, tag: Tag, isolate: bool, contexts: map<string, P.Context>,
          rows: seq<P.RawFill>)
    requires b.Valid() && IncreasingTimes(b)
    requires multiset(rows) == multiset(TradeLog(b.Trades(|b.bars| - 1), tag))
    ensures Reproduces(b, |b.bars| - 1, tag, isolate, contexts, P.ReplayAll(P.OrderedFills(rows, contexts), isolate))
  {
    hide P.Normalize, P.OrderedFills, P.StrictTimes, Reproduces, TradeLog, IncreasingTimes, B.StepBar;
    var n := |b.bars| - 1;
    ReplayReproduces(b, n, tag, isolate, contexts);
    RunFillsStrict(b, n, tag, contexts);
    P.OrderIrrelevant(TradeLog(b.Trades(n), tag), rows, contexts);
  }

  lemma {:induction false} TradesGrow(b: B.Backtest, m: nat, n: nat)
    requires b.Valid() && m <= n < |b.bars|
    ensures |b.Trades(m)| <= |b.Trades(n)| && b.Trades(n)[..|b.Trades(m)|] == b.Trades(m)
  {
    hide B.StepBar;
    if m < n {
      TradesGrow(b, m, n - 1);
      assert b.Trades(n)[..|b.Trades(n - 1)|] == b.Trades(n - 1);
    }
  }

  lemma {:induction false} RunFillsAre(b: B.Backtest, n: nat, tag: Tag, contexts: map<string, P.Context>)
    requires b.Valid() && n < |b.bars|
    ensures |RunFills(b, n, tag, contexts)| == |b.Trades(n)|
    ensures forall k :: 0 <= k < |b.Trades(n)| ==>
              P.Usable(RowOf(b.Trades(n)[k], tag))
              && RunFills(b, n, tag, contexts)[k] == P.NormalizeRow(RowOf(b.Trades(n)[k], tag), contexts)
  {
    if n > 0 {
      hide RunFills, P.NormalizeRow, P.Usable, B.StepBar, RowOf;
      RunFillsAre(b, n - 1, tag, contexts);
      RunFillsStep(b, n, tag, contexts);
    }
  }

  // Trade x may come before trade y in the replay of one run.
  predicate MayPrecede(x: B.Trade, y: B.Trade) {
    x.timestamp < y.timestamp || (x.timestamp == y.timestamp && !(x.side == B.Sell && y.side == B.Buy))
  }

  // Times never decrease along the log, and at one time no sale comes before a purchase.
  ghost predicate InKeyOrder(trades: seq<B.Trade>) {
    forall i, j :: 0 <= i < j < |trades| ==> MayPrecede(trades[i], trades[j])
  }

  lemma SameRunLeq(x: B.Trade, y: B.Trade, tag: Tag, contexts: map<string, P.Context>)
    requires P.Usable(RowOf(x, tag)) && P.Usable(RowOf(y, tag))
    ensures P.FillLeq(P.NormalizeRow(RowOf(x, tag), contexts), P.NormalizeRow(RowOf(y, tag), contexts))
        <==> MayPrecede(x, y)
  {
    P.TextLeqTotal(P.NormalizeRow(RowOf(x, tag), contexts).symbol, P.NormalizeRow(RowOf(y, tag), contexts).symbol);
  }

  // A run's log is replayed in its own order exactly when its trades are in key order.
  lemma LogOrderIff(b: B.Backtest, tag: Tag, contexts: map<string, P.Context>)
    requires b.Valid()
    ensures var n := |b.bars| - 1; var rows := TradeLog(b.Trades(n), tag);
      P.OrderedFills(rows, contexts) == P.Normalize(rows, contexts) <==> InKeyOrder(b.Trades(n))
  {
    hide P.Normalize, P.OrderedFills, P.FillLeq, P.NormalizeRow, RowOf, MayPrecede, P.Usable;
    var n := |b.bars| - 1;
    var fills, trades := RunFills(b, n, tag, contexts), b.Trades(n);
    P.InLogOrderIff(TradeLog(trades, tag), contexts);
    RunFillsAre(b, n, tag, contexts);
    forall i, j | 0 <= i < j < |trades| ensures P.FillLeq(fills[i], fills[j]) <==> MayPrecede(trades[i], trades[j]) {
      SameRunLeq(trades[i], trades[j], tag, contexts);
    }
  }

  // Bars at equal times are allowed as long as no sale comes before a purchase at one time.
  lemma AgreesInLogOrder(b: B.Backtest, tag: Tag, isolate: bool, contexts: map<string, P.Context>)
    requires b.Valid() && InKeyOrder(b.Trades(|b.bars| - 1))
    ensures var rows := TradeLog(b.Trades(|b.bars| - 1), tag);
      Reproduces(b, |b.bars| - 1, tag, isolate, contexts, P.ReplayAll(P.OrderedFills(rows, contexts), isolate))
  {
    hide P.Normalize, P.OrderedFills, InKeyOrder, Reproduces;
    ReplayReproduces(b, |b.bars| - 1, tag, isolate, contexts);
    LogOrderIff(b, tag, contexts);
  }

  // ----- A run whose log is not in key order -----

  // Two bars at one time: the first sells what was bought at 2 for 4, the second buys back at 8.
  function EqualTimesRun(): B.Backtest {
    var bar := (time: int, price: real) => B.Bar(time, price, price, price, price);
    B.Backtest(B.Settings(1000.0, 1.0, 0.0, 0.0, None, None, None),
               [bar(0, 2.0), bar(1, 2.0), bar(2, 4.0), bar(2, 8.0)], [1.0, 0.0, 1.0, 1.0],
               [B.NoManager, B.NoManager, B.NoManager, B.NoManager])
  }

  const FIRST := B.Trade(1, B.Buy, 500.0, 2.0, 0.0, B.Signal, 0.0, 500.0, 1000.0)
  const SECOND := B.Trade(2, B.Sell, 500.0, 4.0, 0.0, B.Signal, 2000.0, 0.0, 2000.0)
  const THIRD := B.Trade(2, B.Buy, 250.0, 8.0, 0.0, B.Signal, 0.0, 250.0, 2000.0)

  lemma EqualTimesFirst()
    ensures var b := EqualTimesRun();
      B.StepBar(b.cfg, b.bars[1], 1.0, B.NoManager, B.Account(1000.0, 0.0, None, None))
      == B.Step(B.Account(0.0, 500.0, Some(2.0), Some(2.0)), Some(FIRST), false)
  {
    var b := EqualTimesRun();
    assert B.DeltaShares(b.cfg, b.bars[1], 1.0, B.NoManager, B.Account(1000.0, 0.0, None, None)) == 500.0;
    hide B.DeltaShares;
  }

  lemma EqualTimesSecond()
    ensures var b := EqualTimesRun();
      B.StepBar(b.cfg, b.bars[2], 0.0, B.NoManager, B.Account(0.0, 500.0, Some(2.0), Some(2.0)))
      == B.Step(B.Account(2000.0, 0.0, None, None), Some(SECOND), false)
  {
    var b := EqualTimesRun();
    assert B.DeltaShares(b.cfg, b.bars[2], 0.0, B.NoManager, B.Account(0.0, 500.0, Some(2.0), Some(4.0))) == -500.0;
    hide B.DeltaShares;
  }

  lemma EqualTimesThird()
    ensures var b := EqualTimesRun();
      B.StepBar(b.cfg, b.bars[3], 1.0, B.NoManager, B.Account(2000.0, 0.0, None, None))
      == B.Step(B.Account(0.0, 250.0, Some(8.0), Some(8.0)), Some(THIRD), false)
  {
    var b := EqualTimesRun();
    assert B.DeltaShares(b.cfg, b.bars[3], 1.0, B.NoManager, B.Account(2000.0, 0.0, None, None)) == 250.0;
    hide B.DeltaShares;
  }

  lemma EqualTimesTrades()
    ensures var b := EqualTimesRun();
      b.Valid() && b.At(3).shares == 250.0 && b.At(3).entry == Some(8.0) && b.Trades(3) == [FIRST, SECOND, THIRD]
  {
    hide B.StepBar;
    var b := EqualTimesRun();
    B.OpeningBar(b);
    EqualTimesFirst();
    B.BarExtends(b, 1);
    EqualTimesSecond();
    B.BarExtends(b, 2);
    EqualTimesThird();
    B.BarExtends(b, 3);
  }

  lemma SaleReplayedLast(x: P.Fill, y: P.Fill, z: P.Fill, isolate: bool)
    requires P.KeyOf(x, isolate) == P.KeyOf(y, isolate) == P.KeyOf(z, isolate)
    requires x.side == P.Buy && x.quantity == 500.0 && x.price == 2.0 && z.side == P.Buy && z.quantity == 250.0
        && z.price == 8.0
    requires y.side == P.Sell && y.quantity == 500.0
    ensures P.ReplayAll([x, z, y], isolate).PositionOf(P.KeyOf(x, isolate)).avgPrice == 4.0
  {
    hide P.ReplayAll, P.ReplayFill;
    P.ReplayThree(x, z, y, isolate);
    var start := P.Replay(map[], []);
    var one := P.ReplayFill(start, x, isolate);
    var two := P.ReplayFill(one, z, isolate);
    ReplayFillFacts(start, x, isolate);
    ReplayFillFacts(one, z, isolate);
    ReplayFillFacts(two, y, isolate);
    AverageFromNothing(0.0, 500.0, 2.0);
    CancelMul(WeightedAverage(500.0, 2.0, 250.0, 8.0), 4.0, 750.0);
  }

  // The engine holds 250 at 8, but the replay of its log holds them at 4.
  lemma EqualTimesMisreplayed(tag: Tag, isolate: bool, contexts: map<string, P.Context>)
    ensures var b := EqualTimesRun(); var rows := TradeLog(b.Trades(3), tag);
      && b.Valid() && !InKeyOrder(b.Trades(3))
      && !Reproduces(b, 3, tag, isolate, contexts, P.ReplayAll(P.OrderedFills(rows, contexts), isolate))
  {
    var b := EqualTimesRun();
    EqualTimesTrades();
    hide B.Backtest.At, B.Backtest.Trades, P.ReplayAll, P.Normalize, StableSort, P.FillLeq;
    var t := b.Trades(3);
    var x, y, z := RowOf(t[0], tag), RowOf(t[1], tag), RowOf(t[2], tag);
    assert TradeLog(t, tag) == [x, y, z];
    P.OneByOne(x, y, z, contexts);
    var f, g, h := P.NormalizeRow(x, contexts), P.NormalizeRow(y, contexts), P.NormalizeRow(z, contexts);
    P.SaleGoesLast(f, g, h);
    SaleReplayedLast(f, g, h, isolate);
    FiledUnderRunKey(t[0], tag, isolate, contexts);
    assert !MayPrecede(t[1], t[2]);
  }
}
