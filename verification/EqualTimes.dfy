/** What becomes of a log in which one sale comes before a purchase of the same time: it is replayed after it. */
module EqualTimes {
  import opened Prelude
  import opened Sorting
  import P = PerformanceLayer
  import B = BacktestEngine
  import D = BacktestProperties
  import R = BacktestReplay
  import E = PaperExecutor
  import S = PaperSessions
  import L = PaperReplay

  // ----- Sorting one pair -----

  // The two lists differ by the order of the pair at m.
  ghost predicate Swapped<T>(a: seq<T>, c: seq<T>, m: nat) {
    && |a| == |c| && m + 1 < |a| && c[m] == a[m + 1] && c[m + 1] == a[m]
    && forall k :: 0 <= k < |a| && k != m && k != m + 1 ==> c[k] == a[k]
  }

  // When exchanging one pair puts a list in order, that is what sorting does.
  lemma {:induction false} SortSwaps<T(!new)>(a: seq<T>, c: seq<T>, m: nat, n: nat, leq: (T, T) -> bool)
    requires TotalPreorder(leq) && Swapped(a, c, m) && Sorted(c, leq) && !leq(a[m], a[m + 1]) && m + 2 <= n <= |a|
    ensures StableSort(a[..n], leq) == c[..n]
  {
    hide TotalPreorder, Sorted, StableSort;
    if n == m + 2 {
      SortPair(a, c, m, leq);
    } else {
      SortSwaps(a, c, m, n - 1, leq);
      SortLast(a, c, n, leq);
    }
  }

  lemma SortPair<T(!new)>(a: seq<T>, c: seq<T>, m: nat, leq: (T, T) -> bool)
    requires TotalPreorder(leq) && Swapped(a, c, m) && Sorted(c, leq) && !leq(a[m], a[m + 1])
    ensures StableSort(a[..m + 2], leq) == c[..m + 2]
  {
    hide TotalPreorder, Sorted, StableSort, Insert;
    FirstSorted(a, c, m, leq);
    SortKeepsIff(a[..m + 1], leq);
    PairEnds(a, c, m);
    SortOfLast(a[..m + 1], a[m + 1], leq);
    InsertBeforeLast(c[..m], c[m + 1], c[m], leq);
  }

  lemma PairEnds<T>(a: seq<T>, c: seq<T>, m: nat)
    requires Swapped(a, c, m)
    ensures a[..m + 1] == c[..m] + [c[m + 1]] && a[..m + 2] == a[..m + 1] + [a[m + 1]]
    ensures c[..m + 2] == c[..m] + [c[m]] + [c[m + 1]]
  {
  }

  lemma SortOfLast<T>(s: seq<T>, x: T, leq: (T, T) -> bool)
    ensures StableSort(s + [x], leq) == Insert(StableSort(s, leq), x, leq)
  {
    assert (s + [x])[..|s|] == s;
  }

  lemma FirstSorted<T(!new)>(a: seq<T>, c: seq<T>, m: nat, leq: (T, T) -> bool)
    requires Swapped(a, c, m) && Sorted(c, leq)
    ensures Sorted(a[..m + 1], leq) && (c[..m] != [] ==> leq(c[..m][m - 1], c[m]))
  {
    forall i, j | 0 <= i < j < m + 1 ensures leq(a[i], a[j]) {
      assert leq(c[i], if j == m then c[m + 1] else c[j]);
    }
  }

  lemma SortLast<T(!new)>(a: seq<T>, c: seq<T>, n: nat, leq: (T, T) -> bool)
    requires 1 < n <= |a| == |c| && a[n - 1] == c[n - 1] && Sorted(c, leq)
    requires StableSort(a[..n - 1], leq) == c[..n - 1]
    ensures StableSort(a[..n], leq) == c[..n]
  {
    assert leq(c[n - 2], c[n - 1]);
    assert a[..n][..n - 1] == a[..n - 1];
    assert c[..n] == c[..n - 1] + [c[n - 1]];
  }

  lemma InsertBeforeLast<T>(s: seq<T>, last: T, x: T, leq: (T, T) -> bool)
    requires !leq(last, x) && (s != [] ==> leq(s[|s| - 1], x))
    ensures Insert(s + [last], x, leq) == s + [x] + [last]
  {
    assert (s + [last])[..|s|] == s;
  }

  // ----- One position, fill by fill -----

  // What the replay keeps of one position: quantity, average price, and the P&L realised so far.
  datatype Running = Running(quantity: real, avgPrice: real, pnl: real)

  const NOTHING := Running(0.0, 0.0, 0.0)

  function Apply(r: Running, f: P.Fill): Running {
    if f.side == P.Buy then
      var next := r.quantity + f.quantity;
      r.(quantity := next,
         avgPrice := if next > EPSILON then WeightedAverage(r.quantity, r.avgPrice, f.quantity, f.price) else 0.0)
    else if r.quantity <= EPSILON then r
    else
      var sold := Min(f.quantity, r.quantity);
      var pnl := r.pnl + Gain(f.price, r.avgPrice, sold);
      if r.quantity - sold <= EPSILON then Running(0.0, 0.0, pnl) else Running(r.quantity - sold, r.avgPrice, pnl)
  }

  // Whose position: a strategy and a symbol.
  type Owner = (string, string)

  predicate Owns(o: Owner, f: P.Fill) {
    f.strategy == o.0 && f.symbol == o.1
  }

  // The owner's position after the first n fills.
  function Roll(fills: seq<P.Fill>, o: Owner, n: nat): Running
    requires n <= |fills|
  {
    if n == 0 then NOTHING
    else if Owns(o, fills[n - 1]) then Apply(Roll(fills, o, n - 1), fills[n - 1])
    else Roll(fills, o, n - 1)
  }

  ghost predicate OfRun(fills: seq<P.Fill>, isolate: bool, run: Option<string>) {
    isolate ==> forall k :: 0 <= k < |fills| ==> fills[k].runId == run
  }

  // The replay holds that position, and has realised its P&L.
  lemma {:induction false} ReplayIsRoll(fills: seq<P.Fill>, isolate: bool, run: Option<string>, o: Owner, n: nat)
    requires n <= |fills| && OfRun(fills, isolate, run)
    requires forall k :: 0 <= k < |fills| ==> Proper(fills[k])
    ensures var r := P.ReplayAt(fills, isolate, n); var p := r.PositionOf((o.0, o.1, if isolate then run else None));
      && Roll(fills, o, n) == Running(p.quantity, p.avgPrice, P.PnlOf(r.outcomes, o.0, o.1))
      && p.quantity >= 0.0 && (p.quantity == 0.0 ==> p == P.EMPTY)
  {
    hide WeightedAverage, Gain, P.ReplayAt, P.PnlOf;
    if n == 0 {
      NothingReplayed(fills, isolate, run, o);
    } else {
      ReplayIsRoll(fills, isolate, run, o, n - 1);
      P.ReplayOne(fills, isolate, run, n, o.0, o.1);
    }
  }

  lemma NothingReplayed(fills: seq<P.Fill>, isolate: bool, run: Option<string>, o: Owner)
    ensures P.ReplayAt(fills, isolate, 0).PositionOf((o.0, o.1, if isolate then run else None)) == P.EMPTY
    ensures P.PnlOf(P.ReplayAt(fills, isolate, 0).outcomes, o.0, o.1) == 0.0
  {
  }

  ghost predicate Proper(f: P.Fill) {
    f.side in {P.Buy, P.Sell} && f.quantity > 0.0 && f.price > 0.0
  }

  // The fill leaves nothing or more than EPSILON, so no remainder is zeroed.
  ghost predicate LeavesNoDust(r: Running, f: P.Fill) {
    var left := if f.side == P.Buy then r.quantity + f.quantity else r.quantity - Min(f.quantity, r.quantity);
    left == 0.0 || left > EPSILON
  }

  // Two histories of one position that hold the same quantity and have explained the same cash.
  ghost predicate SameCash(x: Running, y: Running) {
    && x.quantity == y.quantity && (x.quantity == 0.0 || x.quantity > EPSILON)
    && x.pnl - y.pnl == x.quantity * (x.avgPrice - y.avgPrice)
    && (x.quantity == 0.0 ==> x.avgPrice == y.avgPrice)
  }

  lemma AveragesApart(q: real, x: real, y: real, more: real, price: real)
    requires q >= 0.0 && more > 0.0
    ensures var u, v := WeightedAverage(q, x, more, price), WeightedAverage(q, y, more, price);
      (q + more) * (u - v) == q * (x - y) && (u == v <==> q == 0.0 || x == y)
  {
    var total, u, v := q + more, WeightedAverage(q, x, more, price), WeightedAverage(q, y, more, price);
    DivMul(q * x + more * price, total);
    DivMul(q * y + more * price, total);
    assert total * (u - v) == q * (x - y);
    Product(total, u - v);
    Product(q, x - y);
  }

  lemma Product(x: real, y: real)
    ensures x * y == 0.0 <==> x == 0.0 || y == 0.0
  {
  }

  // The same fill keeps the two together, apart until the position is flat.
  lemma FillKeepsSameCash(x: Running, y: Running, f: P.Fill)
    requires SameCash(x, y) && Proper(f) && LeavesNoDust(x, f)
    ensures SameCash(Apply(x, f), Apply(y, f))
    ensures Apply(x, f) == Apply(y, f) <==> x == y || Apply(x, f).quantity == 0.0
  {
    hide WeightedAverage;
    if f.side == P.Buy {
      AveragesApart(x.quantity, x.avgPrice, y.avgPrice, f.quantity, f.price);
    } else if x.quantity > EPSILON {
      var sold := Min(f.quantity, x.quantity);
      GainsApart(f.price, x.avgPrice, y.avgPrice, x.quantity, sold);
    }
  }

  lemma GainsApart(price: real, x: real, y: real, quantity: real, sold: real)
    ensures Gain(price, x, sold) - Gain(price, y, sold) + quantity * (x - y) == (quantity - sold) * (x - y)
  {
  }

  // A covered sale and a purchase, in either order: the same quantity and the same explained cash, and
  // the same average only if the purchase is made at the average price.
  lemma PairSameCash(r: Running, sale: P.Fill, purchase: P.Fill)
    requires Proper(sale) && sale.side == P.Sell && Proper(purchase) && purchase.side == P.Buy
    requires r.quantity > EPSILON && sale.quantity <= r.quantity
    requires LeavesNoDust(r, sale) && LeavesNoDust(Apply(r, sale), purchase)
    ensures var x, y := Apply(Apply(r, sale), purchase), Apply(Apply(r, purchase), sale);
      SameCash(x, y) && (x == y <==> purchase.price == r.avgPrice)
  {
    hide WeightedAverage;
    var x, y := Apply(Apply(r, sale), purchase), Apply(Apply(r, purchase), sale);
    PairArithmetic(r.quantity, r.avgPrice, sale.quantity, sale.price, purchase.quantity, purchase.price,
        Apply(r, sale).avgPrice, x.avgPrice, y.avgPrice);
  }

  lemma PairArithmetic(q: real, avg: real, sold: real, soldAt: real, more: real, price: real, left: real, x: real,
          y: real)
    requires 0.0 < sold <= q && more > 0.0 && (left == avg || q == sold)
    requires x == WeightedAverage(q - sold, left, more, price) && y == WeightedAverage(q, avg, more, price)
    ensures Gain(soldAt, avg, sold) - Gain(soldAt, y, sold) == (q - sold + more) * (x - y)
    ensures x == y <==> price == avg
  {
    assert (q - sold) * left == (q - sold) * avg;
    var u := (q - sold + more) * x;
    assert u == (q - sold) * avg + more * price;
    assert (q + more) * y == q * avg + more * price;
    assert (q - sold + more) * (x - y) == sold * (y - avg);
    Product(q - sold + more, x - y);
    Product(sold, y - avg);
    assert (q + more) * (y - avg) == more * (price - avg);
    Product(q + more, y - avg);
    Product(more, price - avg);
  }

  ghost predicate NoDust(fills: seq<P.Fill>, o: Owner) {
    forall k :: 0 <= k < |fills| ==>
      Proper(fills[k]) && (Owns(o, fills[k]) ==> LeavesNoDust(Roll(fills, o, k), fills[k]))
  }

  lemma RollNotDust(fills: seq<P.Fill>, o: Owner, n: nat)
    requires NoDust(fills, o) && n <= |fills|
    ensures Roll(fills, o, n).quantity == 0.0 || Roll(fills, o, n).quantity > EPSILON
  {
    if n > 0 {
      assert Owns(o, fills[n - 1]) ==> LeavesNoDust(Roll(fills, o, n - 1), fills[n - 1]);
      RollNotDust(fills, o, n - 1);
    }
  }

  lemma {:induction false} SamePrefix(a: seq<P.Fill>, c: seq<P.Fill>, o: Owner, n: nat)
    requires n <= |a| && n <= |c| && forall k :: 0 <= k < n ==> a[k] == c[k]
    ensures Roll(a, o, n) == Roll(c, o, n)
  {
    if n > 0 {
      SamePrefix(a, c, o, n - 1);
    }
  }

  // The pair is a sale covered by what is held, followed by a purchase.
  ghost predicate SaleThenPurchase(a: seq<P.Fill>, o: Owner, m: nat)
    requires m + 1 < |a|
  {
    Owns(o, a[m]) && Owns(o, a[m + 1]) &&
    a[m].side == P.Sell && a[m + 1].side == P.Buy && a[m].quantity <= Roll(a, o, m).quantity
  }

  // Nothing was held at some moment between the two.
  ghost predicate FlatSince(a: seq<P.Fill>, o: Owner, from: nat, n: nat)
    requires n <= |a|
  {
    exists k :: from <= k <= n && Roll(a, o, k).quantity == 0.0
  }

  // With the pair exchanged, the position and its P&L come out the same exactly when the purchase was
  // made at the average price, or the position has been flat since.
  lemma {:induction false} ExchangeIff(a: seq<P.Fill>, c: seq<P.Fill>, o: Owner, m: nat, n: nat)
    requires Swapped(a, c, m) && m + 2 <= n <= |a| && NoDust(a, o) && SaleThenPurchase(a, o, m)
    ensures SameCash(Roll(a, o, n), Roll(c, o, n))
    ensures Roll(a, o, n) == Roll(c, o, n)
            <==> a[m + 1].price == Roll(a, o, m).avgPrice || FlatSince(a, o, m + 2, n)
  {
    hide *;
    if n == m + 2 {
      SwappedFacts(a, c, m);
      SamePrefix(a, c, o, m);
      ExchangePair(a, c, o, m);
      BoughtIsHeld(a, o, m);
      FlatAt(a, o, n);
    } else {
      ExchangeIff(a, c, o, m, n - 1);
      FillOfNoDust(a, o, n - 1);
      SwappedLater(a, c, m, n - 1);
      if Owns(o, a[n - 1]) {
        FillKeepsSameCash(Roll(a, o, n - 1), Roll(c, o, n - 1), a[n - 1]);
      }
      RollStep(a, o, n);
      RollStep(c, o, n);
      FlatStep(a, o, m + 2, n);
    }
  }

  lemma SwappedFacts(a: seq<P.Fill>, c: seq<P.Fill>, m: nat)
    requires Swapped(a, c, m)
    ensures |a| == |c| && forall k :: 0 <= k < m ==> a[k] == c[k]
  {
  }

  lemma SwappedLater(a: seq<P.Fill>, c: seq<P.Fill>, m: nat, k: nat)
    requires Swapped(a, c, m) && m + 2 <= k < |a|
    ensures k < |c| && c[k] == a[k]
  {
  }

  lemma FillOfNoDust(a: seq<P.Fill>, o: Owner, k: nat)
    requires NoDust(a, o) && k < |a|
    ensures Proper(a[k]) && (Owns(o, a[k]) ==> LeavesNoDust(Roll(a, o, k), a[k]))
  {
  }

  lemma RollStep(a: seq<P.Fill>, o: Owner, n: nat)
    requires 0 < n <= |a|
    ensures Roll(a, o, n) == if Owns(o, a[n - 1]) then Apply(Roll(a, o, n - 1), a[n - 1]) else Roll(a, o, n - 1)
  {
  }

  lemma FlatAt(a: seq<P.Fill>, o: Owner, n: nat)
    requires n <= |a|
    ensures FlatSince(a, o, n, n) <==> Roll(a, o, n).quantity == 0.0
  {
    hide Roll;
  }

  lemma FlatStep(a: seq<P.Fill>, o: Owner, from: nat, n: nat)
    requires from < n <= |a|
    ensures FlatSince(a, o, from, n) <==> FlatSince(a, o, from, n - 1) || Roll(a, o, n).quantity == 0.0
    ensures Roll(a, o, n - 1).quantity == 0.0 ==> FlatSince(a, o, from, n - 1)
  {
    hide Roll;
  }

  lemma ExchangePair(a: seq<P.Fill>, c: seq<P.Fill>, o: Owner, m: nat)
    requires Swapped(a, c, m) && NoDust(a, o) && SaleThenPurchase(a, o, m) && Roll(a, o, m) == Roll(c, o, m)
    ensures SameCash(Roll(a, o, m + 2), Roll(c, o, m + 2))
    ensures Roll(a, o, m + 2) == Roll(c, o, m + 2) <==> a[m + 1].price == Roll(a, o, m).avgPrice
  {
    hide SameCash, Apply, LeavesNoDust;
    assert Proper(a[m]) && LeavesNoDust(Roll(a, o, m), a[m]);
    assert Proper(a[m + 1]) && LeavesNoDust(Roll(a, o, m + 1), a[m + 1]);
    RollNotDust(a, o, m);
    PairSameCash(Roll(a, o, m), a[m], a[m + 1]);
    assert Roll(a, o, m + 1) == Apply(Roll(a, o, m), a[m]);
    assert Roll(c, o, m + 1) == Apply(Roll(c, o, m), c[m]);
  }

  lemma BoughtIsHeld(a: seq<P.Fill>, o: Owner, m: nat)
    requires m + 1 < |a| && NoDust(a, o) && SaleThenPurchase(a, o, m)
    ensures Roll(a, o, m + 2).quantity > 0.0
  {
    assert Proper(a[m + 1]);
    RollNotDust(a, o, m + 1);
  }

  // ----- Backtests -----

  function Exchanged<T>(s: seq<T>, m: nat): seq<T>
    requires m + 1 < |s|
  {
    s[m := s[m + 1]][m + 1 := s[m]]
  }

  lemma ExchangedSwaps<T>(s: seq<T>, m: nat)
    requires m + 1 < |s|
    ensures Swapped(s, Exchanged(s, m), m)
  {
  }

  // Bar i sells and bar j, the next to trade, buys at the same or an earlier time; but for these two
  // trades the log is in key order.
  ghost predicate OnePairOutOfOrder(b: B.Backtest, i: nat, j: nat)
    requires b.Valid()
  {
    && 0 < i < j < |b.bars| && b.SellAt(i) && b.BuyAt(j) && (forall k :: i < k < j ==> b.TradeAt(k).None?)
    && b.bars[j].timestamp <= b.bars[i].timestamp
    && var trades, m := b.Trades(|b.bars| - 1), |b.Trades(i - 1)|;
    && m + 1 < |trades| && R.InKeyOrder(Exchanged(trades, m))
  }

  function OwnerOf(tag: R.Tag, contexts: map<string, P.Context>): Owner {
    var key := R.RunKey(tag, contexts, false);
    (key.0, key.1)
  }

  // The fills of a run: all of one position, each with its trade's side, quantity and price.
  lemma FillsOfRun(b: B.Backtest, n: nat, tag: R.Tag, contexts: map<string, P.Context>)
    requires b.Valid() && n < |b.bars|
    ensures var fills, trades := R.RunFills(b, n, tag, contexts), b.Trades(n);
      && |fills| == |trades|
      && (forall k :: 0 <= k < |fills| ==>
            && Proper(fills[k]) && Owns(OwnerOf(tag, contexts), fills[k])
            && fills[k].runId == R.RunKey(tag, contexts, true).2
            && fills[k].side == (if trades[k].side == B.Buy then P.Buy else P.Sell)
            && fills[k].quantity == trades[k].quantity && fills[k].price == trades[k].fillPrice)
  {
    hide R.RunFills, B.Backtest.Trades;
    R.RunFillsAre(b, n, tag, contexts);
  }

  lemma EarlierFills(b: B.Backtest, k: nat, n: nat, tag: R.Tag, contexts: map<string, P.Context>)
    requires b.Valid() && k <= n < |b.bars|
    ensures |b.Trades(k)| == |R.RunFills(b, k, tag, contexts)| <= |R.RunFills(b, n, tag, contexts)|
    ensures var early, all := R.RunFills(b, k, tag, contexts), R.RunFills(b, n, tag, contexts);
      forall q :: 0 <= q < |early| ==> all[q] == early[q]
  {
    hide R.RunFills, B.Backtest.Trades, P.NormalizeRow, R.RowOf;
    R.RunFillsAre(b, k, tag, contexts);
    R.RunFillsAre(b, n, tag, contexts);
    R.TradesGrow(b, k, n);
    forall q | 0 <= q < |b.Trades(k)| ensures b.Trades(n)[q] == b.Trades(k)[q] {
      assert b.Trades(n)[..|b.Trades(k)|][q] == b.Trades(n)[q];
    }
  }

  // After bar k the fills made so far roll up to the engine's account.
  lemma AccountIsRoll(b: B.Backtest, k: nat, n: nat, tag: R.Tag, contexts: map<string, P.Context>)
    requires b.Valid() && k <= n < |b.bars|
    ensures var fills := R.RunFills(b, n, tag, contexts);
      && |b.Trades(k)| <= |fills|
      && var r := Roll(fills, OwnerOf(tag, contexts), |b.Trades(k)|);
      r.quantity == b.At(k).shares && r.avgPrice == b.At(k).entry.GetOr(0.0)
  {
    hide R.RunFills, B.Backtest.Trades, B.Backtest.At, Roll, Proper, Owns;
    var early, o := R.RunFills(b, k, tag, contexts), OwnerOf(tag, contexts);
    EarlierFills(b, k, n, tag, contexts);
    SamePrefix(early, R.RunFills(b, n, tag, contexts), o, |early|);
    FillsOfRun(b, k, tag, contexts);
    ReplayIsRoll(early, true, R.RunKey(tag, contexts, true).2, o, |early|);
    R.ReplayReproduces(b, k, tag, true, contexts);
    D.LoopInvariant(b, k);
  }

  // The bar of trade q.
  lemma {:induction false} BarOf(b: B.Backtest, n: nat, q: nat) returns (k: nat)
    requires b.Valid() && n < |b.bars| && q < |b.Trades(n)|
    ensures 0 < k <= n && b.TradeAt(k).Some? && |b.Trades(k - 1)| == q && |b.Trades(k)| == q + 1
    ensures b.Trades(n)[q] == b.TradeAt(k).value
  {
    hide B.StepBar;
    if q < |b.Trades(n - 1)| {
      k := BarOf(b, n - 1, q);
    } else {
      k := n;
    }
  }

  ghost predicate ZeroesNoDust(b: B.Backtest)
    requires b.Valid()
  {
    forall k :: 0 <= k < |b.bars| ==> D.Dust(b, k) == 0.0
  }

  lemma RunLeavesNoDust(b: B.Backtest, k: nat)
    requires b.Valid() && 0 < k < |b.bars| && b.TradeAt(k).Some? && D.Dust(b, k) == 0.0
    ensures var t, shares := b.TradeAt(k).value, b.At(k - 1).shares;
      var left := if t.side == B.Buy then shares + t.quantity else shares - Min(t.quantity, shares);
      (left == 0.0 || left > EPSILON) && (t.side == B.Sell ==> t.quantity <= shares)
  {
    hide B.StepBar, D.SellReference, B.BuyPrice, B.SellPrice;
    D.KindAt(b, k);
  }

  lemma RunNoDust(b: B.Backtest, tag: R.Tag, contexts: map<string, P.Context>)
    requires b.Valid() && ZeroesNoDust(b)
    ensures NoDust(R.RunFills(b, |b.bars| - 1, tag, contexts), OwnerOf(tag, contexts))
  {
    hide R.RunFills, B.Backtest.Trades, B.Backtest.At, B.Backtest.TradeAt, Roll, Owns, D.Dust;
    var n, o := |b.bars| - 1, OwnerOf(tag, contexts);
    var fills := R.RunFills(b, n, tag, contexts);
    FillsOfRun(b, n, tag, contexts);
    forall q | 0 <= q < |fills| ensures Proper(fills[q]) && LeavesNoDust(Roll(fills, o, q), fills[q]) {
      var k := BarOf(b, n, q);
      AccountIsRoll(b, k - 1, n, tag, contexts);
      RunLeavesNoDust(b, k);
    }
  }

  // When every fill is the owner's, so is all of the P&L.
  lemma {:induction false} AllPnlIsOwned(fills: seq<P.Fill>, isolate: bool, o: Owner, n: nat)
    requires n <= |fills| && forall k :: 0 <= k < |fills| ==> Owns(o, fills[k])
    ensures var outcomes := P.ReplayAt(fills, isolate, n).outcomes;
      R.TotalPnl(outcomes) == P.PnlOf(outcomes, o.0, o.1)
  {
    if n > 0 {
      AllPnlIsOwned(fills, isolate, o, n - 1);
      P.ReplayOne(fills, isolate, fills[n - 1].runId, n, o.0, o.1);
      R.ReplayFillFacts(P.ReplayAt(fills, isolate, n - 1), fills[n - 1], isolate);
      hide P.ApplyFill, P.PnlOf, R.TotalPnl, P.ReplayFill;
    }
  }

  // Fills of a run in any order reproduce its books exactly when they roll up to what they do in log order.
  lemma ReproducesIffSameRoll(b: B.Backtest, tag: R.Tag, isolate: bool, contexts: map<string, P.Context>,
          c: seq<P.Fill>)
    requires b.Valid() && forall k :: 0 <= k < |c| ==> c[k] in R.RunFills(b, |b.bars| - 1, tag, contexts)
    ensures var n, a, o := |b.bars| - 1, R.RunFills(b, |b.bars| - 1, tag, contexts), OwnerOf(tag, contexts);
      R.Reproduces(b, n, tag, isolate, contexts, P.ReplayAll(c, isolate)) <==> Roll(c, o, |c|) == Roll(a, o, |a|)
  {
    hide R.RunFills, B.Backtest.Trades, B.Backtest.At, Roll, Proper, Owns, P.ReplayAt, R.TotalPnl, P.PnlOf;
    var n, a, o, run := |b.bars| - 1, R.RunFills(b, |b.bars| - 1, tag, contexts), OwnerOf(tag, contexts),
        R.RunKey(tag, contexts, true).2;
    FillsOfRun(b, n, tag, contexts);
    ReplayIsRoll(a, isolate, run, o, |a|);
    ReplayIsRoll(c, isolate, run, o, |c|);
    AllPnlIsOwned(a, isolate, o, |a|);
    AllPnlIsOwned(c, isolate, o, |c|);
    R.ReplayReproduces(b, n, tag, isolate, contexts);
    D.LoopInvariant(b, n);
  }

  // Nothing is held at some bar from j on.
  ghost predicate FlatAfter(b: B.Backtest, j: nat)
    requires b.Valid()
  {
    exists k :: j <= k < |b.bars| && b.At(k).shares == 0.0
  }

  lemma FlatSinceBar(b: B.Backtest, j: nat, tag: R.Tag, contexts: map<string, P.Context>)
    requires b.Valid() && j < |b.bars|
    ensures var a := R.RunFills(b, |b.bars| - 1, tag, contexts);
      && |b.Trades(j)| <= |a|
      && (FlatSince(a, OwnerOf(tag, contexts), |b.Trades(j)|, |a|) <==> FlatAfter(b, j))
  {
    hide R.RunFills, B.Backtest.Trades, B.Backtest.At, B.Backtest.TradeAt, Roll;
    var n, o := |b.bars| - 1, OwnerOf(tag, contexts);
    var a := R.RunFills(b, n, tag, contexts);
    EarlierFills(b, n, n, tag, contexts);
    AccountIsRoll(b, j, n, tag, contexts);
    if FlatSince(a, o, |b.Trades(j)|, |a|) {
      var q :| |b.Trades(j)| <= q <= |a| && Roll(a, o, q).quantity == 0.0;
      if q > |b.Trades(j)| {
        var k := BarOf(b, n, q - 1);
        if k < j {
          R.TradesGrow(b, k, j);
        }
        AccountIsRoll(b, k, n, tag, contexts);
        assert b.At(k).shares == 0.0;
      }
    }
    if FlatAfter(b, j) {
      var k :| j <= k <= n && b.At(k).shares == 0.0;
      R.TradesGrow(b, j, k);
      AccountIsRoll(b, k, n, tag, contexts);
      assert Roll(a, o, |b.Trades(k)|).quantity == 0.0;
    }
  }

  // A run whose log has one sale before a purchase at the same time, and is in key order otherwise: its
  // replay agrees with the engine exactly when the purchase was filled at the average entry of what was
  // sold, or nothing has been held at some later bar.
  lemma EngineAgreesIff(b: B.Backtest, i: nat, j: nat, tag: R.Tag, isolate: bool, contexts: map<string, P.Context>)
    requires b.Valid() && OnePairOutOfOrder(b, i, j) && ZeroesNoDust(b)
    ensures var n := |b.bars| - 1; var rows := R.TradeLog(b.Trades(n), tag);
      R.Reproduces(b, n, tag, isolate, contexts, P.ReplayAll(P.OrderedFills(rows, contexts), isolate))
      <==> b.At(i - 1).entry == Some(b.TradeAt(j).value.fillPrice)
           || FlatAfter(b, j)
  {
    hide R.RunFills, B.Backtest.Trades, B.Backtest.At, B.Backtest.TradeAt, Roll, Owns, ZeroesNoDust, P.OrderedFills,
        R.InKeyOrder, FlatSince, FlatAfter, NoDust, R.Reproduces;
    var n, m, o := |b.bars| - 1, |b.Trades(i - 1)|, OwnerOf(tag, contexts);
    var a := R.RunFills(b, n, tag, contexts);
    var c := PairTrades(b, i, j, tag, contexts);
    PairPrices(b, i, j, tag, contexts);
    ExchangeIff(a, c, o, m, |a|);
    FlatSinceBar(b, j, tag, contexts);
    ReproducesIffSameRoll(b, tag, isolate, contexts, c);
    AccountIsRoll(b, i - 1, n, tag, contexts);
  }

  // c is the log a with the pair at m, a covered sale and a purchase, exchanged.
  ghost predicate PairInLog(a: seq<P.Fill>, c: seq<P.Fill>, o: Owner, m: nat) {
    && m + 2 <= |a| && Swapped(a, c, m) && NoDust(a, o) && SaleThenPurchase(a, o, m)
    && forall k :: 0 <= k < |c| ==> c[k] in a
  }

  // The two trades in the log, and the order in which the log is replayed.
  lemma PairTrades(b: B.Backtest, i: nat, j: nat, tag: R.Tag, contexts: map<string, P.Context>)
    returns (c: seq<P.Fill>)
    requires b.Valid() && OnePairOutOfOrder(b, i, j) && ZeroesNoDust(b)
    ensures |b.Trades(j)| == |b.Trades(i - 1)| + 2
    ensures PairInLog(R.RunFills(b, |b.bars| - 1, tag, contexts), c, OwnerOf(tag, contexts), |b.Trades(i - 1)|)
    ensures c == P.OrderedFills(R.TradeLog(b.Trades(|b.bars| - 1), tag), contexts)
  {
    hide R.RunFills, B.Backtest.Trades, B.Backtest.At, B.Backtest.TradeAt, Roll, Owns, Proper, NoDust, R.InKeyOrder,
        StableSort, P.FillLeq, ZeroesNoDust, D.Dust;
    var n, m, o := |b.bars| - 1, |b.Trades(i - 1)|, OwnerOf(tag, contexts);
    var a := R.RunFills(b, n, tag, contexts);
    PairIndices(b, i, j);
    FillsOfRun(b, n, tag, contexts);
    RunNoDust(b, tag, contexts);
    AccountIsRoll(b, i - 1, n, tag, contexts);
    SoldIsHeld(b, i);
    c := Exchanged(a, m);
    ExchangedSwaps(a, m);
    ExchangedSorts(b, i, j, tag, contexts);
  }

  // The price of the purchase, and the average that was sold.
  lemma PairPrices(b: B.Backtest, i: nat, j: nat, tag: R.Tag, contexts: map<string, P.Context>)
    requires b.Valid() && OnePairOutOfOrder(b, i, j)
    ensures var m, a := |b.Trades(i - 1)|, R.RunFills(b, |b.bars| - 1, tag, contexts);
      m + 1 < |a| && a[m + 1].price == b.TradeAt(j).value.fillPrice && b.At(i - 1).entry.Some?
  {
    hide R.RunFills, B.Backtest.Trades, B.Backtest.At, B.Backtest.TradeAt, Owns, Proper, R.InKeyOrder;
    PairIndices(b, i, j);
    FillsOfRun(b, |b.bars| - 1, tag, contexts);
    SoldIsHeld(b, i);
  }

  lemma SoldIsHeld(b: B.Backtest, i: nat)
    requires b.Valid() && 0 < i < |b.bars| && b.SellAt(i)
    ensures b.TradeAt(i).value.quantity <= b.At(i - 1).shares && b.At(i - 1).entry.Some?
  {
    hide B.StepBar, D.SellReference, B.BuyPrice, B.SellPrice;
    D.KindAt(b, i);
  }

  lemma {:induction false} IdleTrades(b: B.Backtest, i: nat, j: nat)
    requires b.Valid() && i <= j < |b.bars| && forall k :: i < k <= j ==> b.TradeAt(k).None?
    ensures b.Trades(j) == b.Trades(i)
  {
    hide B.StepBar;
    if i < j {
      IdleTrades(b, i, j - 1);
      assert b.TradeAt(j).None?;
    }
  }

  lemma PairIndices(b: B.Backtest, i: nat, j: nat)
    requires b.Valid() && OnePairOutOfOrder(b, i, j)
    ensures var trades, m := b.Trades(|b.bars| - 1), |b.Trades(i - 1)|;
      && |b.Trades(j)| == m + 2 <= |trades|
      && trades[m] == b.TradeAt(i).value && trades[m + 1] == b.TradeAt(j).value
      && !R.MayPrecede(trades[m], trades[m + 1])
  {
    hide B.StepBar, D.SellReference, R.InKeyOrder;
    var trades, m := b.Trades(|b.bars| - 1), |b.Trades(i - 1)|;
    IdleTrades(b, i, j - 1);
    assert b.Trades(j) == b.Trades(i - 1) + [b.TradeAt(i).value] + [b.TradeAt(j).value];
    R.TradesGrow(b, j, |b.bars| - 1);
    assert trades[m] == trades[..m + 2][m] && trades[m + 1] == trades[..m + 2][m + 1];
    D.KindAt(b, i);
    D.KindAt(b, j);
  }

  lemma ExchangedSorts(b: B.Backtest, i: nat, j: nat, tag: R.Tag, contexts: map<string, P.Context>)
    requires b.Valid() && OnePairOutOfOrder(b, i, j)
    ensures var n, m := |b.bars| - 1, |b.Trades(i - 1)|; var a := R.RunFills(b, n, tag, contexts);
      m + 1 < |a| && P.OrderedFills(R.TradeLog(b.Trades(n), tag), contexts) == Exchanged(a, m)
  {
    hide R.RunFills, B.Backtest.Trades, StableSort, P.FillLeq, R.MayPrecede, P.NormalizeRow, R.RowOf, P.Usable,
        TotalPreorder;
    var n, m := |b.bars| - 1, |b.Trades(i - 1)|;
    var a, trades := R.RunFills(b, n, tag, contexts), b.Trades(n);
    PairIndices(b, i, j);
    R.RunFillsAre(b, n, tag, contexts);
    var c, exchanged := Exchanged(a, m), Exchanged(trades, m);
    ExchangedSwaps(a, m);
    forall k | 0 <= k < |c| ensures P.Usable(R.RowOf(exchanged[k], tag))
        && c[k] == P.NormalizeRow(R.RowOf(exchanged[k], tag), contexts) {
    }
    forall k, l | 0 <= k < l < |c| ensures P.FillLeq(c[k], c[l]) {
      R.SameRunLeq(exchanged[k], exchanged[l], tag, contexts);
    }
    R.SameRunLeq(trades[m], trades[m + 1], tag, contexts);
    P.FillLeqIsOrder();
    SortSwaps(a, c, m, |a|, P.FillLeq);
    assert a[..|a|] == a && c[..|c|] == c;
    RunFillsAreNormalized(b, n, tag, contexts);
  }

  lemma RunFillsAreNormalized(b: B.Backtest, n: nat, tag: R.Tag, contexts: map<string, P.Context>)
    requires b.Valid() && n < |b.bars|
    ensures P.OrderedFills(R.TradeLog(b.Trades(n), tag), contexts)
         == StableSort(R.RunFills(b, n, tag, contexts), P.FillLeq)
  {
  }

  // ----- Paper sessions -----

  // A pair that does not concern this owner twice can be exchanged freely.
  lemma {:induction false} ExchangeElsewhere(a: seq<P.Fill>, c: seq<P.Fill>, o: Owner, m: nat, n: nat)
    requires Swapped(a, c, m) && m + 2 <= n <= |a| && !(Owns(o, a[m]) && Owns(o, a[m + 1]))
    ensures Roll(a, o, n) == Roll(c, o, n)
  {
    hide Apply;
    if n == m + 2 {
      SamePrefix(a, c, o, m);
      assert Roll(a, o, m + 1) == if Owns(o, a[m]) then Apply(Roll(a, o, m), a[m]) else Roll(a, o, m);
      assert Roll(c, o, m + 1) == if Owns(o, c[m]) then Apply(Roll(c, o, m), c[m]) else Roll(c, o, m);
    } else {
      ExchangeElsewhere(a, c, o, m, n - 1);
    }
  }

  // Fills m and m + 1 of the log are a sale and a purchase at the same or an earlier time, and but for
  // these two the log is in the order of the sort key. A sale of the same symbol is covered.
  ghost predicate OneFillOutOfOrder(log: seq<E.Fill>, ex: L.Export, contexts: map<string, P.Context>, m: nat)
    requires |log| <= |ex.runs| && forall k :: 0 <= k < |log| ==> log[k].symbol in ex.strategyOf
  {
    var a := P.Normalize(L.ExportLog(log, ex), contexts);
    && m + 1 < |log| == |a|
    && log[m].side == E.Sell && log[m + 1].side == E.Buy && log[m + 1].timestamp <= log[m].timestamp
    && Sorted(Exchanged(a, m), P.FillLeq)
    && (log[m].symbol == log[m + 1].symbol ==>
          log[m].quantity <= L.LogPosition(log, log[m].symbol, m).quantity)
  }

  function SymbolOwner(ex: L.Export, symbol: string): Owner
    requires symbol in ex.strategyOf
  {
    (ex.strategyOf[symbol], symbol)
  }

  // The exported fills: those of a symbol are its owner's, each with its fill's side, quantity and price.
  lemma FillsOfLog(log: seq<E.Fill>, ex: L.Export, contexts: map<string, P.Context>, symbol: string)
    requires L.Exportable(log, ex) && symbol in ex.strategyOf
    ensures var a := P.Normalize(L.ExportLog(log, ex), contexts);
      && |a| == |log| && OfRun(a, ex.isolate, ex.run)
      && forall k :: 0 <= k < |log| ==>
           && Proper(a[k]) && (Owns(SymbolOwner(ex, symbol), a[k]) <==> log[k].symbol == symbol)
           && a[k].side == (if log[k].side == E.Buy then P.Buy else P.Sell)
           && a[k].timestamp == log[k].timestamp
           && a[k].quantity == log[k].quantity && a[k].price == log[k].price
  {
    hide P.Normalize;
    L.ExportNormalizes(log, ex, contexts);
  }

  // The fills made so far roll up to the live position.
  lemma LiveIsRoll(log: seq<E.Fill>, ex: L.Export, contexts: map<string, P.Context>, symbol: string, k: nat)
    requires L.Exportable(log, ex) && symbol in ex.strategyOf && L.DustFree(log, |log|) && k <= |log|
    ensures var a := P.Normalize(L.ExportLog(log, ex), contexts);
      && |a| == |log|
      && var p := L.LogPosition(log, symbol, k);
      Roll(a, SymbolOwner(ex, symbol), k) == Running(p.quantity, p.avgPrice, p.realizedPnl)
  {
    hide P.Normalize, L.LogPosition, L.DustFree, P.ReplayAt, P.PnlOf, Roll, Proper, Owns, L.ExportLog;
    var a := P.Normalize(L.ExportLog(log, ex), contexts);
    FillsOfLog(log, ex, contexts, symbol);
    L.ReplayExactIffDustFree(log, ex, contexts, |log|);
    assert L.MatchesAt(log, a, ex, symbol, k);
    ReplayIsRoll(a, ex.isolate, ex.run, SymbolOwner(ex, symbol), k);
  }

  lemma LiveLeavesNoDust(log: seq<E.Fill>, symbol: string, k: nat)
    requires k < |log| && log[k].symbol == symbol && L.DustFree(log, |log|)
    requires forall i :: 0 <= i < |log| ==> L.ProperFill(log[i])
    ensures var q, f := L.LogPosition(log, symbol, k).quantity, log[k];
      var left := if f.side == E.Buy then q + f.quantity else q - Min(f.quantity, q);
      left == 0.0 || left > EPSILON
  {
    hide Gain, WeightedAverage;
    L.LogHoldable(log, symbol, k);
    assert L.NotDust(L.LogPosition(log, symbol, k + 1));
  }

  lemma LogNoDust(log: seq<E.Fill>, ex: L.Export, contexts: map<string, P.Context>, symbol: string)
    requires L.Exportable(log, ex) && symbol in ex.strategyOf && L.DustFree(log, |log|)
    ensures NoDust(P.Normalize(L.ExportLog(log, ex), contexts), SymbolOwner(ex, symbol))
  {
    hide P.Normalize, L.LogPosition, L.DustFree, L.ExportLog, Roll, Proper, Owns;
    var a, o := P.Normalize(L.ExportLog(log, ex), contexts), SymbolOwner(ex, symbol);
    FillsOfLog(log, ex, contexts, symbol);
    forall k | 0 <= k < |a| && Owns(o, a[k]) ensures LeavesNoDust(Roll(a, o, k), a[k]) {
      LiveIsRoll(log, ex, contexts, symbol, k);
      LiveLeavesNoDust(log, symbol, k);
    }
  }

  // Nothing of the symbol is held after some fill from the given one on.
  ghost predicate LogFlatSince(log: seq<E.Fill>, symbol: string, from: nat) {
    exists k :: from <= k <= |log| && L.LogPosition(log, symbol, k).quantity == 0.0
  }

  lemma LogFlatIff(log: seq<E.Fill>, ex: L.Export, contexts: map<string, P.Context>, symbol: string, from: nat)
    requires L.Exportable(log, ex) && symbol in ex.strategyOf && L.DustFree(log, |log|)
    ensures var a := P.Normalize(L.ExportLog(log, ex), contexts);
      |a| == |log| && (FlatSince(a, SymbolOwner(ex, symbol), from, |a|) <==> LogFlatSince(log, symbol, from))
  {
    hide P.Normalize, L.LogPosition, L.DustFree, L.ExportLog, Roll;
    var a, o := P.Normalize(L.ExportLog(log, ex), contexts), SymbolOwner(ex, symbol);
    FillsOfLog(log, ex, contexts, symbol);
    forall k | 0 <= k <= |log| ensures Roll(a, o, k).quantity == L.LogPosition(log, symbol, k).quantity {
      LiveIsRoll(log, ex, contexts, symbol, k);
    }
  }

  lemma PairIsReplayedSwapped(log: seq<E.Fill>, ex: L.Export, contexts: map<string, P.Context>, m: nat)
    requires L.Exportable(log, ex) && OneFillOutOfOrder(log, ex, contexts, m)
    ensures var rows := L.ExportLog(log, ex); var a := P.Normalize(rows, contexts);
      P.OrderedFills(rows, contexts) == Exchanged(a, m) && Swapped(a, Exchanged(a, m), m)
  {
    hide P.Normalize, StableSort, L.ExportLog, TotalPreorder, Sorted, L.LogPosition;
    var a := P.Normalize(L.ExportLog(log, ex), contexts);
    FillsOfLog(log, ex, contexts, log[m].symbol);
    ExchangedSwaps(a, m);
    P.FillLeqIsOrder();
    assert !P.FillLeq(a[m], a[m + 1]);
    SortSwaps(a, Exchanged(a, m), m, |a|, P.FillLeq);
    assert a[..|a|] == a;
    hide P.FillLeq;
  }

  // A replay has the live quantity, average and P&L of a symbol exactly when its fills roll up to them.
  lemma MatchesIffSameRoll(run: S.Session, ex: L.Export, contexts: map<string, P.Context>, symbol: string)
    requires run.Valid() && symbol in ex.strategyOf && L.ReplayableLog(run.At(|run.events|).fills, ex)
    requires var fills := P.OrderedFills(L.ExportLog(run.At(|run.events|).fills, ex), contexts);
      OfRun(fills, ex.isolate, ex.run) && forall k :: 0 <= k < |fills| ==> Proper(fills[k])
    ensures var log := run.At(|run.events|).fills; var rows, o := L.ExportLog(log, ex), SymbolOwner(ex, symbol);
      var a, c := P.Normalize(rows, contexts), P.OrderedFills(rows, contexts);
      L.ReplayMatches(run.At(|run.events|), ex, contexts, rows, symbol) <==> Roll(c, o, |c|) == Roll(a, o, |a|)
  {
    hide P.Normalize, L.LogPosition, L.DustFree, L.ExportLog, Roll, P.OrderedFills, P.ReplayAt, P.PnlOf,
        S.Session.At, Proper;
    var log, o := run.At(|run.events|).fills, SymbolOwner(ex, symbol);
    var c := P.OrderedFills(L.ExportLog(log, ex), contexts);
    L.LogIsProper(run, |run.events|);
    LiveIsRoll(log, ex, contexts, symbol, |log|);
    L.LedgerIsFoldOfLog(run, |run.events|, symbol);
    ReplayIsRoll(c, ex.isolate, ex.run, o, |c|);
  }

  // A session whose log has one sale before a purchase at the same time, and is in key order otherwise:
  // its replay agrees with the ledger on a symbol exactly when the two fills are not both of that symbol,
  // or the purchase was made at the average price of what was sold, or nothing has been held since.
  lemma SessionAgreesIff(run: S.Session, ex: L.Export, contexts: map<string, P.Context>, symbol: string, m: nat)
    requires run.Valid() && symbol in ex.strategyOf && L.ReplayableLog(run.At(|run.events|).fills, ex)
    requires OneFillOutOfOrder(run.At(|run.events|).fills, ex, contexts, m)
    ensures var log := run.At(|run.events|).fills;
      L.ReplayMatches(run.At(|run.events|), ex, contexts, L.ExportLog(log, ex), symbol)
      <==> log[m].symbol != symbol || log[m + 1].symbol != symbol
           || log[m + 1].price == L.LogPosition(log, symbol, m).avgPrice
           || LogFlatSince(log, symbol, m + 2)
  {
    hide P.Normalize, L.LogPosition, L.DustFree, L.ExportLog, Roll, P.OrderedFills, L.ReplayMatches, S.Session.At,
        Proper, NoDust, FlatSince, LogFlatSince, Sorted, Owns;
    var log, o := run.At(|run.events|).fills, SymbolOwner(ex, symbol);
    var a := P.Normalize(L.ExportLog(log, ex), contexts);
    L.LogIsProper(run, |run.events|);
    FillsOfLog(log, ex, contexts, symbol);
    PairIsReplayedSwapped(log, ex, contexts, m);
    var c := Exchanged(a, m);
    MatchesIffSameRoll(run, ex, contexts, symbol);
    if log[m].symbol == symbol == log[m + 1].symbol {
      LogNoDust(log, ex, contexts, symbol);
      LiveIsRoll(log, ex, contexts, symbol, m);
      LogFlatIff(log, ex, contexts, symbol, m + 2);
      ExchangeIff(a, c, o, m, |a|);
    } else {
      ExchangeElsewhere(a, c, o, m, |a|);
    }
  }
}
