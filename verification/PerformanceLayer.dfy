/** Rebuilding closed trades from a fill log, as in src/analytics/performance_layer.py. */
module PerformanceLayer {
  import opened Prelude
  import opened Sorting

  datatype Side = Buy | Sell | Unknown

  // One row of the stored fill log, before validation. Missing text is "".
  datatype RawFill = RawFill(
    timestamp: Option<int>, side: Side, quantity: real, price: real,
    symbol: string, strategy: string, runId: Option<string>)

  datatype Context = Context(strategy: string, timeframe: string, regime: string)

  datatype Fill = Fill(
    timestamp: int, side: Side, quantity: real, price: real,
    symbol: string, strategy: string, runId: Option<string>, timeframe: string, regime: string)

  datatype Outcome = Outcome(
    strategy: string, symbol: string, timeframe: string, regime: string, runId: Option<string>,
    entryNs: int, exitNs: int, holdNs: int, pnl: real, returnPct: real)

  // ----- Normalisation -----

  function OrElse(text: string, fallback: string): string {
    if text == "" then fallback else text
  }

  predicate Usable(row: RawFill) {
    row.timestamp.Some? && row.side != Unknown && row.quantity > 0.0 && row.price > 0.0
  }

  function NormalizeRow(row: RawFill, contexts: map<string, Context>): Fill
    requires Usable(row)
  {
    var runKey := row.runId.GetOr("");
    var context := if runKey in contexts then contexts[runKey] else Context("", "", "");
    Fill(row.timestamp.value, row.side, row.quantity, row.price, OrElse(row.symbol, "UNKNOWN"),
         OrElse(OrElse(row.strategy, context.strategy), "unknown"),
         if runKey == "" then None else Some(runKey),
         OrElse(context.timeframe, "unknown"), OrElse(context.regime, "unknown"))
  }

  function Normalize(rows: seq<RawFill>, contexts: map<string, Context>): seq<Fill> {
    if rows == [] then []
    else
      var last := rows[|rows| - 1];
      Normalize(rows[..|rows| - 1], contexts) + if Usable(last) then [NormalizeRow(last, contexts)] else []
  }

  // ----- The sort key: timestamp, buys before sells, strategy, symbol -----

  predicate TextLeq(a: string, b: string) {
    a == [] || (b != [] && (a[0] < b[0] || (a[0] == b[0] && TextLeq(a[1..], b[1..]))))
  }

  function SideRank(side: Side): int {
    if side == Buy then 0 else 1
  }

  predicate FillLeq(x: Fill, y: Fill) {
    if x.timestamp != y.timestamp then x.timestamp < y.timestamp
    else if SideRank(x.side) != SideRank(y.side) then SideRank(x.side) < SideRank(y.side)
    else if x.strategy != y.strategy then TextLeq(x.strategy, y.strategy)
    else TextLeq(x.symbol, y.symbol)
  }

  lemma {:induction false} TextLeqTotal(a: string, b: string)
    ensures TextLeq(a, b) || TextLeq(b, a)
    ensures TextLeq(a, b) && TextLeq(b, a) ==> a == b
  {
    if a != [] && b != [] {
      TextLeqTotal(a[1..], b[1..]);
      assert a == [a[0]] + a[1..] && b == [b[0]] + b[1..];
    }
  }

  lemma {:induction false} TextLeqTransitive(a: string, b: string, c: string)
    requires TextLeq(a, b) && TextLeq(b, c)
    ensures TextLeq(a, c)
  {
    if a != [] && b != [] && c != [] && a[0] == b[0] == c[0] {
      TextLeqTransitive(a[1..], b[1..], c[1..]);
    }
  }

  lemma FillLeqIsOrder()
    ensures TotalPreorder(FillLeq)
  {
    forall x: Fill, y: Fill ensures FillLeq(x, y) || FillLeq(y, x) {
      TextLeqTotal(x.strategy, y.strategy);
      TextLeqTotal(x.symbol, y.symbol);
    }
    forall x: Fill, y: Fill, z: Fill | FillLeq(x, y) && FillLeq(y, z) ensures FillLeq(x, z) {
      TextLeqTotal(x.strategy, y.strategy);
      TextLeqTotal(y.strategy, z.strategy);
      if TextLeq(x.strategy, y.strategy) && TextLeq(y.strategy, z.strategy) {
        TextLeqTransitive(x.strategy, y.strategy, z.strategy);
      }
      if TextLeq(x.symbol, y.symbol) && TextLeq(y.symbol, z.symbol) {
        TextLeqTransitive(x.symbol, y.symbol, z.symbol);
      }
    }
  }

  // Some text that comes first agrees with the other up to a place where it ends or has the lesser character.
  lemma {:induction false} TextLeqIsLexicographic(a: string, b: string)
    ensures TextLeq(a, b) <==>
              exists k :: 0 <= k <= |a| && k <= |b| && a[..k] == b[..k] && (k == |a| || (k < |b| && a[k] < b[k]))
  {
    if a != [] && b != [] && a[0] == b[0] {
      TextLeqIsLexicographic(a[1..], b[1..]);
      forall k | 1 <= k <= |a| && k <= |b| ensures a[..k] == b[..k] <==> a[1..][..k - 1] == b[1..][..k - 1] {
        assert a[..k] == [a[0]] + a[1..][..k - 1] && b[..k] == [b[0]] + b[1..][..k - 1];
      }
      if TextLeq(a, b) {
        var k :| 0 <= k <= |a[1..]| && k <= |b[1..]| && a[1..][..k] == b[1..][..k]
                 && (k == |a[1..]| || (k < |b[1..]| && a[1..][k] < b[1..][k]));
        assert a[..k + 1] == b[..k + 1];
      }
      if k :| 0 <= k <= |a| && k <= |b| && a[..k] == b[..k] && (k == |a| || (k < |b| && a[k] < b[k])) {
        assert k > 0;
        assert a[1..][..k - 1] == b[1..][..k - 1];
      }
    } else {
      assert a[..0] == b[..0];
    }
  }

  // A fill goes strictly before another by the earlier time, then a purchase before anything else, then
  // by strategy, then by symbol.
  lemma KeyComparesInOrder(x: Fill, y: Fill)
    ensures FillLeq(x, y) && !FillLeq(y, x) <==>
              || x.timestamp < y.timestamp
              || (x.timestamp == y.timestamp
                  && (|| (x.side == Buy && y.side != Buy)
                      || ((x.side == Buy <==> y.side == Buy)
                          && (|| (x.strategy != y.strategy && TextLeq(x.strategy, y.strategy))
                              || (x.strategy == y.strategy && x.symbol != y.symbol && TextLeq(x.symbol, y.symbol))))))
  {
    TextLeqTotal(x.strategy, y.strategy);
    TextLeqTotal(x.symbol, y.symbol);
  }

  // ----- Replay of one position -----

  datatype Position = Position(quantity: real, avgPrice: real, entryNs: Option<real>)

  const EMPTY := Position(0.0, 0.0, None)

  // Python's int(): towards zero.
  function Truncate(x: real): int {
    if x >= 0.0 then x.Floor else -((-x).Floor)
  }

  function ApplyBuy(p: Position, f: Fill): Position {
    var next := p.quantity + f.quantity;
    var ts := f.timestamp as real;
    Position(
      next,
      if next > EPSILON then WeightedAverage(p.quantity, p.avgPrice, f.quantity, f.price) else 0.0,
      Some(if p.entryNs.None? || next <= EPSILON then ts
           else WeightedAverage(p.quantity, p.entryNs.value, f.quantity, ts)))
  }

  function SellCloses(p: Position, f: Fill): Outcome {
    var entryTs := if p.entryNs.None? then f.timestamp else Truncate(p.entryNs.value);
    Outcome(f.strategy, f.symbol, f.timeframe, f.regime, f.runId,
            entryTs, f.timestamp, if f.timestamp >= entryTs then f.timestamp - entryTs else 0,
            Gain(f.price, p.avgPrice, Min(f.quantity, p.quantity)),
            if p.avgPrice > EPSILON then f.price / p.avgPrice - 1.0 else 0.0)
  }

  function ApplySell(p: Position, f: Fill): (Position, Option<Outcome>) {
    if p.quantity <= EPSILON then (p, None)
    else
      var remaining := p.quantity - Min(f.quantity, p.quantity);
      (if remaining <= EPSILON then EMPTY else p.(quantity := remaining), Some(SellCloses(p, f)))
  }

  function ApplyFill(p: Position, f: Fill): (Position, Option<Outcome>) {
    if f.side == Buy then (ApplyBuy(p, f), None) else ApplySell(p, f)
  }

  // ----- Replay of a log -----

  type Key = (string, string, Option<string>)

  function KeyOf(f: Fill, isolate: bool): Key {
    (f.strategy, f.symbol, if isolate then f.runId else None)
  }

  datatype Replay = Replay(positions: map<Key, Position>, outcomes: seq<Outcome>) {
    function PositionOf(key: Key): Position {
      if key in positions then positions[key] else EMPTY
    }
  }

  function ReplayFill(r: Replay, f: Fill, isolate: bool): Replay {
    var key := KeyOf(f, isolate);
    var (next, outcome) := ApplyFill(r.PositionOf(key), f);
    if f.side != Buy && outcome.None? then r
    else Replay(r.positions[key := next], r.outcomes + if outcome.Some? then [outcome.value] else [])
  }

  // The state after the first n fills.
  function ReplayAt(fills: seq<Fill>, isolate: bool, n: nat): Replay
    requires n <= |fills|
  {
    if n == 0 then Replay(map[], []) else ReplayFill(ReplayAt(fills, isolate, n - 1), fills[n - 1], isolate)
  }

  function ReplayAll(fills: seq<Fill>, isolate: bool): Replay {
    ReplayAt(fills, isolate, |fills|)
  }

  function OrderedFills(rows: seq<RawFill>, contexts: map<string, Context>): seq<Fill> {
    StableSort(Normalize(rows, contexts), FillLeq)
  }

  method NormalizeRows(rows: seq<RawFill>, contexts: map<string, Context>) returns (normalized: seq<Fill>)
    ensures normalized == Normalize(rows, contexts)
  {
    hide NormalizeRow, Usable;
    normalized := [];
    for i := 0 to |rows|
      invariant normalized == Normalize(rows[..i], contexts)
    {
      assert rows[..i + 1][..i] == rows[..i];
      if Usable(rows[i]) {
        normalized := normalized + [NormalizeRow(rows[i], contexts)];
      }
    }
    assert rows[..|rows|] == rows;
  }

  method ReplayFills(fills: seq<Fill>, isolate: bool) returns (outcomes: seq<Outcome>)
    ensures outcomes == ReplayAll(fills, isolate).outcomes
  {
    hide SellCloses, ApplyBuy;
    outcomes := [];
    var positions: map<Key, Position> := map[];
    for i := 0 to |fills|
      invariant Replay(positions, outcomes) == ReplayAt(fills, isolate, i)
    {
      var fill := fills[i];
      var key := KeyOf(fill, isolate);
      var position := if key in positions then positions[key] else EMPTY;
      if fill.side == Buy {
        positions := positions[key := ApplyBuy(position, fill)];
        continue;
      }
      if position.quantity <= EPSILON {
        continue;
      }
      outcomes := outcomes + [SellCloses(position, fill)];
      var remaining := position.quantity - Min(fill.quantity, position.quantity);
      positions := positions[key := if remaining <= EPSILON then EMPTY else position.(quantity := remaining)];
    }
  }

  // _reconstruct_outcomes: validate, sort, then replay against a dictionary of positions.
  method ReconstructOutcomes(rows: seq<RawFill>, contexts: map<string, Context>, isolate: bool)
    returns (outcomes: seq<Outcome>)
    ensures outcomes == ReplayAll(OrderedFills(rows, contexts), isolate).outcomes
  {
    if rows == [] {
      return [];
    }
    var normalized := NormalizeRows(rows, contexts);
    normalized := StableSort(normalized, FillLeq);
    outcomes := ReplayFills(normalized, isolate);
  }

  // ----- Order of the log -----

  lemma {:induction false} NormalizeAppend(a: seq<RawFill>, b: seq<RawFill>, contexts: map<string, Context>)
    ensures Normalize(a + b, contexts) == Normalize(a, contexts) + Normalize(b, contexts)
  {
    if b == [] {
      assert a + b == a;
    } else {
      assert (a + b)[..|a + b| - 1] == a + b[..|b| - 1];
      NormalizeAppend(a, b[..|b| - 1], contexts);
    }
  }

  // Row k can be normalised last.
  lemma NormalizeMoveLast(b: seq<RawFill>, k: nat, contexts: map<string, Context>)
    requires k < |b|
    ensures multiset(Normalize(b, contexts))
         == multiset(Normalize(Without(b, k), contexts)) + multiset(Normalize([b[k]], contexts))
  {
    assert b == b[..k] + [b[k]] + b[k + 1..];
    NormalizeAppend(b[..k] + [b[k]], b[k + 1..], contexts);
    NormalizeAppend(b[..k], [b[k]], contexts);
    NormalizeAppend(b[..k], b[k + 1..], contexts);
  }

  lemma {:induction false} NormalizePermutation(a: seq<RawFill>, b: seq<RawFill>, contexts: map<string, Context>)
    requires multiset(a) == multiset(b)
    ensures multiset(Normalize(a, contexts)) == multiset(Normalize(b, contexts))
    decreases |a|
  {
    hide Normalize, Without;
    if a == [] {
      assert |multiset(b)| == 0;
    } else {
      assert a[0] in multiset(b);
      var k :| 0 <= k < |b| && b[k] == a[0];
      RemoveOne(a, 0);
      RemoveOne(b, k);
      NormalizePermutation(Without(a, 0), Without(b, k), contexts);
      NormalizeMoveLast(a, 0, contexts);
      NormalizeMoveLast(b, k, contexts);
    }
  }

  ghost predicate StrictTimes(fills: seq<Fill>) {
    forall i, j :: 0 <= i < j < |fills| ==> fills[i].timestamp < fills[j].timestamp
  }

  lemma StrictTies(a: seq<Fill>)
    requires StrictTimes(a)
    ensures forall x, y :: x in a && y in a && FillLeq(x, y) && FillLeq(y, x) ==> x == y
  {
    forall x, y | x in a && y in a && FillLeq(x, y) && FillLeq(y, x) ensures x == y {
      var i :| 0 <= i < |a| && a[i] == x;
      var j :| 0 <= j < |a| && a[j] == y;
    }
  }

  lemma StrictSorted(a: seq<Fill>)
    requires StrictTimes(a)
    ensures Sorted(a, FillLeq)
  {
  }

  // When fill times are distinct, the order in which the log is handed over does not matter: it is
  // replayed in time order.
  lemma OrderIrrelevant(log: seq<RawFill>, rows: seq<RawFill>, contexts: map<string, Context>)
    requires multiset(log) == multiset(rows) && StrictTimes(Normalize(log, contexts))
    ensures OrderedFills(rows, contexts) == Normalize(log, contexts)
  {
    hide Normalize, TotalPreorder, StableSort, FillLeq, Sorted, StrictTimes;
    var a := Normalize(log, contexts);
    NormalizePermutation(log, rows, contexts);
    FillLeqIsOrder();
    StrictTies(a);
    StrictSorted(a);
    SortRestores(a, Normalize(rows, contexts), FillLeq);
  }

  // A log is replayed in the order it was written exactly when that order follows the sort key: time,
  // and at one time buys before sells, then strategy, then symbol.
  lemma InLogOrderIff(log: seq<RawFill>, contexts: map<string, Context>)
    ensures OrderedFills(log, contexts) == Normalize(log, contexts) <==> Sorted(Normalize(log, contexts), FillLeq)
  {
    FillLeqIsOrder();
    SortKeepsIff(Normalize(log, contexts), FillLeq);
  }

  function OneLot(timestamp: int, side: Side, price: real): RawFill {
    RawFill(Some(timestamp), side, 1.0, price, "S", "s", None)
  }

  lemma OneByOne(a: RawFill, b: RawFill, c: RawFill, contexts: map<string, Context>)
    requires Usable(a) && Usable(b) && Usable(c)
    ensures Normalize([a, b, c], contexts)
         == [NormalizeRow(a, contexts), NormalizeRow(b, contexts), NormalizeRow(c, contexts)]
  {
    assert [a, b, c] == [a] + [b] + [c];
    NormalizeAppend([a] + [b], [c], contexts);
    NormalizeAppend([a], [b], contexts);
  }

  lemma ReplayThree(a: Fill, b: Fill, c: Fill, isolate: bool)
    ensures ReplayAll([a, b, c], isolate)
         == ReplayFill(ReplayFill(ReplayFill(Replay(map[], []), a, isolate), b, isolate), c, isolate)
  {
    hide ReplayFill;
    var fills := [a, b, c];
    assert ReplayAt(fills, isolate, 1) == ReplayFill(Replay(map[], []), a, isolate);
    assert ReplayAt(fills, isolate, 2) == ReplayFill(ReplayAt(fills, isolate, 1), b, isolate);
  }

  // What one more fill of the only position in play does to it and to the list of outcomes.
  lemma OneMoreFill(r: Replay, f: Fill)
    ensures var key := KeyOf(f, false);
      ReplayFill(r, f, false).PositionOf(key) == ApplyFill(r.PositionOf(key), f).0
    ensures f.side == Buy ==> ReplayFill(r, f, false).outcomes == r.outcomes
    ensures f.side == Sell && r.PositionOf(KeyOf(f, false)).quantity > EPSILON ==>
              ReplayFill(r, f, false).outcomes == r.outcomes + [SellCloses(r.PositionOf(KeyOf(f, false)), f)]
  {
    hide ApplyBuy, SellCloses;
  }

  // One lot bought at 1, the second trade a sale at 2 or a purchase at 4, then the other of the two.
  lemma OneLotEach(a: Fill, b: Fill, c: Fill)
    requires a.quantity == b.quantity == c.quantity == 1.0 && a.price == 1.0
    requires KeyOf(a, false) == KeyOf(b, false) == KeyOf(c, false) && a.side == Buy
    requires (b.side == Sell && b.price == 2.0 && c.side == Buy)
        || (b.side == Buy && b.price == 4.0 && c.side == Sell && c.price == 2.0)
    ensures var outcomes := ReplayAll([a, b, c], false).outcomes;
      |outcomes| == 1 && outcomes[0].pnl == if b.side == Sell then 1.0 else -0.5
  {
    hide ReplayFill, ReplayAll;
    ReplayThree(a, b, c, false);
    var start, key := Replay(map[], []), KeyOf(a, false);
    var one := ReplayFill(start, a, false);
    var two := ReplayFill(one, b, false);
    OneMoreFill(start, a);
    OneMoreFill(one, b);
    OneMoreFill(two, c);
    AverageFromNothing(0.0, 1.0, 1.0);
    assert one.PositionOf(key).quantity == 1.0 && one.PositionOf(key).avgPrice == 1.0;
    if b.side == Buy {
      CancelMul(WeightedAverage(1.0, 1.0, 1.0, 4.0), 2.5, 2.0);
    }
  }

  lemma SaleGoesLast(a: Fill, b: Fill, c: Fill)
    requires a.timestamp < b.timestamp == c.timestamp && b.side == Sell && c.side == Buy
    ensures StableSort([a, b, c], FillLeq) == [a, c, b]
  {
    assert FillLeq(a, b) && FillLeq(a, c) && !FillLeq(b, c);
    hide FillLeq;
    assert [a, b, c][..2] == [a, b] && [a, b][..1] == [a] && [a][..0] == [];
    assert StableSort([a], FillLeq) == [a];
    assert StableSort([a, b], FillLeq) == [a, b];
    assert Insert([a], c, FillLeq) == [a, c];
  }

  // At one and the same time a sale is replayed after a purchase that was made later: sold at 2 and
  // bought back at 4, the log made a gain of 1, but its replay reports a loss of 0.5.
  lemma SameTimeReordered(contexts: map<string, Context>)
    ensures var log := [OneLot(0, Buy, 1.0), OneLot(1, Sell, 2.0), OneLot(1, Buy, 4.0)];
      var inOrder, replayed := ReplayAll(Normalize(log, contexts), false),
          ReplayAll(OrderedFills(log, contexts), false);
      && |inOrder.outcomes| == |replayed.outcomes| == 1
      && inOrder.outcomes[0].pnl == 1.0 && replayed.outcomes[0].pnl == -0.5
  {
    hide Normalize, ReplayAll, StableSort, FillLeq;
    var x, y, z := OneLot(0, Buy, 1.0), OneLot(1, Sell, 2.0), OneLot(1, Buy, 4.0);
    var a, b, c := NormalizeRow(x, contexts), NormalizeRow(y, contexts), NormalizeRow(z, contexts);
    OneByOne(x, y, z, contexts);
    SaleGoesLast(a, b, c);
    OneLotEach(a, b, c);
    OneLotEach(a, c, b);
  }

  // ----- Outcomes per position -----

  // Realised P&L of one position over a list of outcomes.
  function PnlOf(outcomes: seq<Outcome>, strategy: string, symbol: string): real {
    if outcomes == [] then 0.0
    else
      var last := outcomes[|outcomes| - 1];
      PnlOf(outcomes[..|outcomes| - 1], strategy, symbol)
      + if last.strategy == strategy && last.symbol == symbol then last.pnl else 0.0
  }

  // The effect of one fill on one position. When positions are isolated by run, it is a fill of the
  // run in question.
  lemma ReplayOne(fills: seq<Fill>, isolate: bool, run: Option<string>, n: nat, strategy: string, symbol: string)
    requires 0 < n <= |fills| && (isolate ==> fills[n - 1].runId == run)
    ensures var f, before, after := fills[n - 1], ReplayAt(fills, isolate, n - 1), ReplayAt(fills, isolate, n);
      var key := (strategy, symbol, if isolate then run else None);
      if f.strategy == strategy && f.symbol == symbol then
        var (p, outcome) := ApplyFill(before.PositionOf(key), f);
        && after.PositionOf(key) == p
        && PnlOf(after.outcomes, strategy, symbol)
           == PnlOf(before.outcomes, strategy, symbol) + if outcome.Some? then outcome.value.pnl else 0.0
      else
        && after.PositionOf(key) == before.PositionOf(key)
        && PnlOf(after.outcomes, strategy, symbol) == PnlOf(before.outcomes, strategy, symbol)
  {
    hide ApplyBuy;
    var f, before, after := fills[n - 1], ReplayAt(fills, isolate, n - 1), ReplayAt(fills, isolate, n);
    var (p, outcome) := ApplyFill(before.PositionOf(KeyOf(f, isolate)), f);
    if outcome.Some? {
      assert after.outcomes[..|before.outcomes|] == before.outcomes;
    } else {
      assert before.outcomes + [] == before.outcomes;
    }
  }

  // ----- Holding times -----

  ghost predicate EntryTimesBounded(r: Replay, now: int) {
    forall key :: key in r.positions ==>
      var p := r.positions[key];
      p.quantity >= 0.0 && (p.entryNs.Some? ==> p.entryNs.value <= now as real)
  }

  lemma TruncateBelow(x: real, n: int)
    requires x <= n as real
    ensures Truncate(x) <= n
  {
  }

  // A buy averages its own time in, so the entry time stays in the past.
  lemma BuyKeepsEntryPast(p: Position, f: Fill)
    requires p.quantity >= 0.0 && f.quantity > 0.0 && (p.entryNs.Some? ==> p.entryNs.value <= f.timestamp as real)
    ensures ApplyBuy(p, f).quantity >= 0.0 && ApplyBuy(p, f).entryNs.Some?
    ensures ApplyBuy(p, f).entryNs.value <= f.timestamp as real
  {
    var ts := f.timestamp as real;
    if p.entryNs.Some? && p.quantity + f.quantity > EPSILON {
      AverageBetween(p.quantity, p.entryNs.value, f.quantity, ts,
          WeightedAverage(p.quantity, p.entryNs.value, f.quantity, ts));
    }
  }

  // The averaged entry time never lies after the exit, so no holding time is ever clamped.
  lemma {:induction false} HoldsAreExact(fills: seq<Fill>, isolate: bool, n: nat)
    requires n <= |fills| && Sorted(fills, FillLeq) && (forall k :: 0 <= k < |fills| ==> fills[k].quantity > 0.0)
    ensures forall k :: 0 <= k < |ReplayAt(fills, isolate, n).outcomes| ==>
              var o := ReplayAt(fills, isolate, n).outcomes[k];
              o.entryNs <= o.exitNs && o.holdNs == o.exitNs - o.entryNs
    ensures n > 0 ==> EntryTimesBounded(ReplayAt(fills, isolate, n), fills[n - 1].timestamp)
  {
    if n > 0 {
      hide ApplyBuy;
      HoldsAreExact(fills, isolate, n - 1);
      var f, before := fills[n - 1], ReplayAt(fills, isolate, n - 1);
      assert n > 1 ==> FillLeq(fills[n - 2], fills[n - 1]);
      assert EntryTimesBounded(before, f.timestamp);
      var p := before.PositionOf(KeyOf(f, isolate));
      BuyKeepsEntryPast(p, f);
      if p.entryNs.Some? {
        TruncateBelow(p.entryNs.value, f.timestamp);
      }
    }
  }
}
