/** The multi-symbol paper-trading ledger of src/execution/executor.py. */
module PaperExecutor {
  import opened Prelude
  import opened Dicts

  datatype Side = Buy | Sell | Invalid

  datatype OrderType = Limit | NotLimit

  datatype Status = Submitted | Filled | Canceled | Rejected

  // The part of an order that never changes.
  datatype Ticket = Ticket(
    id: string, symbol: string, side: Side, quantity: real, price: real, timestamp: int,
    orderType: OrderType, limitPrice: Option<real>, extendedHours: bool)

  datatype Fill = Fill(
    orderId: string, symbol: string, side: Side, quantity: real, price: real, timestamp: int, notional: real)

  datatype Position = Position(quantity: real, avgPrice: real, realizedPnl: real, unrealizedPnl: real)

  const NO_POSITION := Position(0.0, 0.0, 0.0, 0.0)

  datatype Settings = Settings(
    startingCash: real, paperTradingEnabled: bool, maxNotional: real, maxOpenPositions: int, dailyLossCap: real)
  {
    predicate Valid() {
      startingCash > 0.0 && maxNotional > 0.0 && maxOpenPositions > 0 && dailyLossCap > 0.0
    }
  }

  // The risk manager's answers to one submission. Its code is not modelled, so they are inputs.
  datatype Advice = Advice(managerKilled: bool, approved: bool, reasons: set<string>, killSwitch: bool)

  datatype State = State(
    cash: real, positions: Dict<string, Position>, lastPrices: map<string, real>,
    dayStart: real, currentDay: Option<int>, peak: real, killed: bool, fills: seq<Fill>)

  // ----- Valuation -----

  function Mark(prices: map<string, real>, symbol: string, p: Position): real {
    if symbol in prices then prices[symbol] else p.avgPrice
  }

  function ValueOf(prices: map<string, real>): (string, Position) -> real {
    (symbol: string, p: Position) => p.quantity * Mark(prices, symbol, p)
  }

  ghost function Equity(s: State): real
    requires s.positions.Valid()
  {
    s.cash + Sum(s.positions, ValueOf(s.lastPrices))
  }

  // Every computed equity raises the recorded peak.
  ghost function Observe(s: State): State
    requires s.positions.Valid()
  {
    s.(peak := Max(s.peak, Equity(s)))
  }

  function ActiveFlag(symbol: string, p: Position): real {
    if p.quantity > 0.0 then 1.0 else 0.0
  }

  function RealizedOf(symbol: string, p: Position): real {
    p.realizedPnl
  }

  function UnrealizedOf(symbol: string, p: Position): real {
    p.unrealizedPnl
  }

  // ----- Fills -----

  function BuyInto(p: Position, quantity: real, price: real): Position {
    var total := p.quantity + quantity;
    var avg := if total > 0.0 then WeightedAverage(p.quantity, p.avgPrice, quantity, price) else p.avgPrice;
    Position(total, avg, p.realizedPnl, Gain(price, avg, total))
  }

  function SellFrom(p: Position, quantity: real, price: real): Position {
    var closed := Min(quantity, p.quantity);
    var left := p.quantity - closed;
    var realized := p.realizedPnl + Gain(price, p.avgPrice, closed);
    if left <= 0.0 then Position(0.0, 0.0, realized, 0.0)
    else Position(left, p.avgPrice, realized, Gain(price, p.avgPrice, left))
  }

  function CashFlow(p: Position, f: Fill): real {
    if f.side == Buy then -(f.quantity * f.price) else Min(f.quantity, p.quantity) * f.price
  }

  function FillInto(p: Position, f: Fill): Position {
    if f.side == Buy then BuyInto(p, f.quantity, f.price) else SellFrom(p, f.quantity, f.price)
  }

  function ApplyFill(s: State, f: Fill): State {
    var p := s.positions.Get(f.symbol, NO_POSITION);
    s.(cash := s.cash + CashFlow(p, f),
       positions := s.positions.Set(f.symbol, FillInto(p, f)),
       lastPrices := s.lastPrices[f.symbol := f.price])
  }

  // ----- Submission -----

  const NANOS_PER_DAY: int := 86_400_000_000_000

  function DayOf(timestamp: int): int {
    timestamp / NANOS_PER_DAY
  }

  predicate Blank(text: string) {
    forall i :: 0 <= i < |text| ==> text[i] in " \t\n\r"
  }

  // The first check a ticket fails before any state is consulted.
  function TicketProblem(t: Ticket): Option<string> {
    if Blank(t.symbol) then Some("empty_symbol")
    else if t.side == Invalid then Some("invalid_side")
    else if t.quantity <= 0.0 then Some("non_positive_quantity")
    else if t.price <= 0.0 then Some("non_positive_price")
    else if t.extendedHours && t.orderType != Limit then Some("extended_hours_requires_limit_order")
    else if t.orderType == Limit && (t.limitPrice.None? || t.limitPrice.value <= 0.0) then Some("invalid_limit_price")
    else None
  }

  ghost function AnchorDay(s: State, timestamp: int): State
    requires s.positions.Valid()
  {
    if s.currentDay == Some(DayOf(timestamp)) then s
    else Observe(s).(currentDay := Some(DayOf(timestamp)), dayStart := Equity(s))
  }

  function BrokerFill(t: Ticket): Fill {
    Fill(t.id, t.symbol, t.side, t.quantity, t.price, t.timestamp, t.quantity * t.price)
  }

  ghost function ExceedsOpenPositions(cfg: Settings, s: State, t: Ticket): bool
    requires s.positions.Valid()
  {
    && t.side == Buy
    && s.positions.Get(t.symbol, NO_POSITION).quantity == 0.0
    && Sum(s.positions, ActiveFlag) >= cfg.maxOpenPositions as real
  }

  datatype Reply = Accepted(fill: Fill) | Refused(reasons: set<string>)

  datatype Submission = Submission(state: State, reply: Reply)

  ghost function Book(cfg: Settings, s: State, t: Ticket): State
    requires s.positions.Valid()
  {
    SetValid(s.positions, t.symbol, FillInto(s.positions.Get(t.symbol, NO_POSITION), BrokerFill(t)));
    var filled := ApplyFill(s, BrokerFill(t)).(fills := s.fills + [BrokerFill(t)]);
    Observe(filled).(killed := s.killed || Equity(filled) <= s.dayStart - cfg.dailyLossCap)
  }

  // Everything a submission does up to the broker: the state it leaves and why it is refused, if it is.
  ghost function Admit(cfg: Settings, s: State, t: Ticket, advice: Advice): (State, Option<set<string>>)
    requires s.positions.Valid()
  {
    if !cfg.paperTradingEnabled then (s, Some({"paper_trading_disabled"}))
    else if s.killed || advice.managerKilled then (s.(killed := true), Some({"kill_switch_enabled"}))
    else if TicketProblem(t).Some? then (s, Some({TicketProblem(t).value}))
    else
      var anchored := AnchorDay(s, t.timestamp);
      if t.quantity * t.price > cfg.maxNotional then (anchored, Some({"max_notional_per_trade_exceeded"}))
      else if ExceedsOpenPositions(cfg, anchored, t) then (anchored, Some({"max_open_positions_exceeded"}))
      else
        var seen := Observe(anchored);
        if !advice.approved then (seen.(killed := seen.killed || advice.killSwitch), Some(advice.reasons))
        else (seen, None)
  }

  ghost function Submit(cfg: Settings, s: State, t: Ticket, advice: Advice): Submission
    requires s.positions.Valid()
  {
    var (admitted, refusal) := Admit(cfg, s, t, advice);
    if refusal.Some? then Submission(admitted, Refused(refusal.value))
    else Submission(Book(cfg, admitted, t), Accepted(BrokerFill(t)))
  }

  // ----- Marking -----

  // The marks after the first n quoted prices: a price counts when positive and for a known symbol.
  function MarksTo(s: State, prices: Dict<string, real>, n: nat): map<string, real>
    requires prices.Valid() && n <= |prices.keys|
  {
    if n == 0 then s.lastPrices
    else
      var symbol := prices.keys[n - 1];
      var marks := MarksTo(s, prices, n - 1);
      if symbol in s.positions.entries && prices.entries[symbol] > 0.0
      then marks[symbol := prices.entries[symbol]]
      else marks
  }

  function NewMarks(s: State, prices: Dict<string, real>): map<string, real>
    requires prices.Valid()
  {
    MarksTo(s, prices, |prices.keys|)
  }

  function Remark(p: Position, mark: real): Position {
    p.(unrealizedPnl := Gain(mark, p.avgPrice, p.quantity))
  }

  function RemarkAll(positions: Dict<string, Position>, marks: map<string, real>): Dict<string, Position> {
    Dict(positions.keys,
         map k | k in positions.entries :: Remark(positions.entries[k], Mark(marks, k, positions.entries[k])))
  }

  // The book with its first n positions re-marked.
  function RemarkTo(d: Dict<string, Position>, marks: map<string, real>, n: nat): Dict<string, Position>
    requires d.Valid() && n <= |d.keys|
  {
    if n == 0 then d
    else
      var symbol := d.keys[n - 1];
      RemarkTo(d, marks, n - 1).Set(symbol, Remark(d.entries[symbol], Mark(marks, symbol, d.entries[symbol])))
  }

  lemma {:induction false} RemarkToKeys(d: Dict<string, Position>, marks: map<string, real>, n: nat)
    requires d.Valid() && n <= |d.keys|
    ensures RemarkTo(d, marks, n).keys == d.keys && RemarkTo(d, marks, n).entries.Keys == d.entries.Keys
  {
    hide Remark, Mark;
    if n > 0 {
      RemarkToKeys(d, marks, n - 1);
    }
  }

  lemma RemarkToStep(d: Dict<string, Position>, marks: map<string, real>, n: nat)
    requires d.Valid() && 0 < n <= |d.keys|
    ensures var symbol := d.keys[n - 1];
      RemarkTo(d, marks, n).entries
      == RemarkTo(d, marks, n - 1).entries[symbol := Remark(d.entries[symbol], Mark(marks, symbol, d.entries[symbol]))]
  {
    hide Remark, Mark;
  }

  lemma RemarkToStart(d: Dict<string, Position>, marks: map<string, real>)
    requires d.Valid()
    ensures RemarkTo(d, marks, 0) == d
  {
  }

  // Position j is not touched before its turn.
  lemma {:induction false} RemarkToAhead(d: Dict<string, Position>, marks: map<string, real>, n: nat, j: nat)
    requires d.Valid() && n <= j < |d.keys|
    ensures var r := RemarkTo(d, marks, n); d.keys[j] in r.entries && r.entries[d.keys[j]] == d.entries[d.keys[j]]
  {
    hide RemarkTo, Remark, Mark;
    if n == 0 {
      RemarkToStart(d, marks);
    } else {
      RemarkToStep(d, marks, n);
      RemarkToAhead(d, marks, n - 1, j);
      assert d.keys[j] != d.keys[n - 1];
    }
  }

  lemma RemarkAllAt(d: Dict<string, Position>, marks: map<string, real>, k: string)
    requires k in d.entries
    ensures k in RemarkAll(d, marks).entries
    ensures RemarkAll(d, marks).entries[k] == Remark(d.entries[k], Mark(marks, k, d.entries[k]))
  {
    hide Remark, Mark;
  }

  lemma {:induction false} RemarkToBehind(d: Dict<string, Position>, marks: map<string, real>, n: nat, j: nat)
    requires d.Valid() && j < n <= |d.keys|
    ensures var r := RemarkTo(d, marks, n);
      d.keys[j] in r.entries && d.keys[j] in RemarkAll(d, marks).entries
      && r.entries[d.keys[j]] == RemarkAll(d, marks).entries[d.keys[j]]
  {
    hide RemarkTo, RemarkAll, Remark, Mark;
    RemarkToStep(d, marks, n);
    if j < n - 1 {
      RemarkToBehind(d, marks, n - 1, j);
      assert d.keys[j] != d.keys[n - 1];
    } else {
      RemarkAllAt(d, marks, d.keys[j]);
    }
  }

  // Re-marking one position after the other re-marks them all.
  lemma RemarkToEnd(d: Dict<string, Position>, marks: map<string, real>)
    requires d.Valid()
    ensures RemarkTo(d, marks, |d.keys|) == RemarkAll(d, marks)
  {
    hide Remark, Mark;
    var r, all := RemarkTo(d, marks, |d.keys|), RemarkAll(d, marks);
    RemarkToKeys(d, marks, |d.keys|);
    forall j | 0 <= j < |d.keys| ensures r.entries[d.keys[j]] == all.entries[d.keys[j]] {
      RemarkToBehind(d, marks, |d.keys|, j);
    }
    forall k | k in d.entries ensures r.entries[k] == all.entries[k] {
      assert k in d.keys;
    }
    assert r.entries == all.entries;
  }

  // The unrealised P&L a position has once re-marked.
  function RemarkedOf(marks: map<string, real>): (string, Position) -> real {
    (symbol: string, p: Position) => Remark(p, Mark(marks, symbol, p)).unrealizedPnl
  }

  lemma RemarkedTotal(d: Dict<string, Position>, marks: map<string, real>)
    requires d.Valid()
    ensures RemarkAll(d, marks).Valid()
    ensures Sum(RemarkAll(d, marks), UnrealizedOf) == Sum(d, RemarkedOf(marks))
  {
    hide Remark, Mark;
    SumSame(d, RemarkAll(d, marks), RemarkedOf(marks), UnrealizedOf, |d.keys|);
  }

  function MarkToMarket(s: State, prices: Dict<string, real>): State
    requires prices.Valid()
  {
    var marks := NewMarks(s, prices);
    s.(lastPrices := marks, positions := RemarkAll(s.positions, marks))
  }

  // ----- Snapshots -----

  datatype Snapshot = Snapshot(cash: real, dayStart: real, peak: real, positions: Dict<string, Position>)

  // The open positions among the first n, in order.
  function OpenTo(d: Dict<string, Position>, n: nat): Dict<string, Position>
    requires d.Valid() && n <= |d.keys|
  {
    if n == 0 then Empty()
    else
      var symbol := d.keys[n - 1];
      if d.entries[symbol].quantity > 0.0 then OpenTo(d, n - 1).Set(symbol, d.entries[symbol]) else OpenTo(d, n - 1)
  }

  function TakeSnapshot(s: State): Snapshot
    requires s.positions.Valid()
  {
    Snapshot(s.cash, s.dayStart, s.peak, OpenTo(s.positions, |s.positions.keys|))
  }

  function CostMarks(d: Dict<string, Position>): map<string, real> {
    map k | k in d.entries && d.entries[k].quantity > 0.0 :: d.entries[k].avgPrice
  }

  // Restoring marks every open position at its average price. The current day is left as it was.
  function Restore(s: State, snapshot: Snapshot, kill: bool): State {
    s.(cash := snapshot.cash, dayStart := snapshot.dayStart, peak := snapshot.peak,
       positions := snapshot.positions, killed := kill,
       lastPrices := CostMarks(snapshot.positions))
  }

  // Up to the broker, a submission can only move the day anchor, the peak and the kill switch.
  lemma AdmitKeeps(cfg: Settings, s: State, t: Ticket, advice: Advice)
    requires s.positions.Valid()
    ensures var (a, refusal) := Admit(cfg, s, t, advice);
      && a == s.(dayStart := a.dayStart, currentDay := a.currentDay, peak := a.peak, killed := a.killed)
      && (s.killed ==> a == s && refusal.Some?)
  {
    hide Equity;
  }

  // Booking a fill logs exactly that fill and leaves the day anchor alone.
  lemma BookKeeps(cfg: Settings, s: State, t: Ticket)
    requires s.positions.Valid()
    ensures var b := Book(cfg, s, t);
      && b.fills == s.fills + [BrokerFill(t)]
      && b.dayStart == s.dayStart && b.currentDay == s.currentDay
      && b.positions.Valid()
      && (s.killed ==> b.killed)
  {
    hide Equity;
    SetValid(s.positions, t.symbol, FillInto(s.positions.Get(t.symbol, NO_POSITION), BrokerFill(t)));
  }

  // ----- The executor -----

  class Order {
    const ticket: Ticket
    var status: Status
    var reasons: set<string>

    constructor (t: Ticket)
      ensures ticket == t && status == Submitted && reasons == {}
    {
      ticket, status, reasons := t, Submitted, {};
    }
  }

  ghost predicate Answered(orders: seq<Order>)
    reads orders
  {
    forall o :: o in orders ==> o.status == Filled || o.status == Rejected
  }

  class PaperTradingExecutor {
    const cfg: Settings
    var cash: real
    var submittedOrders: seq<Order>
    var filledOrders: seq<Fill>
    var canceledOrders: seq<Order>
    var rejectedOrders: seq<Order>
    var positions: Dict<string, Position>
    var dayStartEquity: real
    var currentDay: Option<int>
    var peakEquity: real
    var lastPrices: map<string, real>
    var killSwitchEnabled: bool

    ghost function Model(): State
      reads this
    {
      State(cash, positions, lastPrices, dayStartEquity, currentDay, peakEquity, killSwitchEnabled, filledOrders)
    }

    // Every submitted order was answered at once, by a fill or by a rejection, so none can still be canceled.
    ghost predicate Valid()
      reads this, submittedOrders
    {
      && cfg.Valid()
      && positions.Valid()
      && |submittedOrders| == |filledOrders| + |rejectedOrders|
      && canceledOrders == []
      && Answered(submittedOrders)
    }

    constructor (cfg: Settings)
      requires cfg.Valid()
      ensures Valid() && this.cfg == cfg
      ensures Model() == State(cfg.startingCash, Empty(), map[], cfg.startingCash, None, cfg.startingCash, false, [])
    {
      this.cfg := cfg;
      cash, dayStartEquity, peakEquity := cfg.startingCash, cfg.startingCash, cfg.startingCash;
      submittedOrders, canceledOrders, rejectedOrders, filledOrders := [], [], [], [];
      positions, lastPrices := Empty(), map[];
      currentDay, killSwitchEnabled := None, false;
    }

    method CurrentEquity() returns (equity: real)
      requires positions.Valid()
      modifies this`peakEquity
      ensures equity == old(Equity(Model())) && Model() == old(Observe(Model()))
    {
      var value := 0.0;
      for i := 0 to |positions.keys|
        invariant value == SumTo(positions, ValueOf(lastPrices), i)
      {
        var symbol := positions.keys[i];
        var position := positions.entries[symbol];
        value := value + position.quantity * (if symbol in lastPrices then lastPrices[symbol] else position.avgPrice);
      }
      equity := cash + value;
      peakEquity := Max(peakEquity, equity);
    }

    method ActivePositions() returns (n: nat)
      requires positions.Valid()
      ensures n as real == Sum(positions, ActiveFlag)
    {
      n := 0;
      for i := 0 to |positions.keys|
        invariant n as real == SumTo(positions, ActiveFlag, i)
      {
        if positions.entries[positions.keys[i]].quantity > 0.0 {
          n := n + 1;
        }
      }
    }

    method RealizedPnl() returns (total: real)
      requires positions.Valid()
      ensures total == Sum(positions, RealizedOf)
    {
      total := 0.0;
      for i := 0 to |positions.keys|
        invariant total == SumTo(positions, RealizedOf, i)
      {
        total := total + positions.entries[positions.keys[i]].realizedPnl;
      }
    }

    method UnrealizedPnl() returns (total: real)
      requires positions.Valid()
      ensures total == Sum(positions, UnrealizedOf)
    {
      total := 0.0;
      for i := 0 to |positions.keys|
        invariant total == SumTo(positions, UnrealizedOf, i)
      {
        total := total + positions.entries[positions.keys[i]].unrealizedPnl;
      }
    }

    method UpdateDayAnchor(timestamp: int)
      requires positions.Valid()
      modifies this`currentDay, this`dayStartEquity, this`peakEquity
      ensures Model() == old(AnchorDay(Model(), timestamp))
    {
      if currentDay != Some(DayOf(timestamp)) {
        currentDay := Some(DayOf(timestamp));
        var equity := CurrentEquity();
        dayStartEquity := equity;
      }
    }

    method AddTo(position: Position, fill: Fill) returns (next: Position)
      ensures next == BuyInto(position, fill.quantity, fill.price)
    {
      hide WeightedAverage, Gain;
      var totalQuantity := position.quantity + fill.quantity;
      next := position;
      if totalQuantity > 0.0 {
        next := next.(avgPrice := WeightedAverage(position.quantity, position.avgPrice, fill.quantity, fill.price));
      }
      next := next.(quantity := totalQuantity);
      next := next.(unrealizedPnl := Gain(fill.price, next.avgPrice, next.quantity));
    }

    method TakeFrom(position: Position, fill: Fill) returns (next: Position)
      ensures next == SellFrom(position, fill.quantity, fill.price)
    {
      var closeQuantity := Min(fill.quantity, position.quantity);
      next := position.(realizedPnl := position.realizedPnl + Gain(fill.price, position.avgPrice, closeQuantity));
      next := next.(quantity := position.quantity - closeQuantity);
      if next.quantity <= 0.0 {
        next := next.(quantity := 0.0, avgPrice := 0.0);
      }
      next := next.(unrealizedPnl := Gain(fill.price, next.avgPrice, next.quantity));
    }

    method Apply(fill: Fill)
      requires positions.Valid()
      modifies this`cash, this`positions, this`lastPrices
      ensures Model() == old(ApplyFill(Model(), fill)) && positions.Valid()
    {
      hide BuyInto, SellFrom, Dict.Valid, WeightedAverage, Gain;
      lastPrices := lastPrices[fill.symbol := fill.price];
      var position := positions.Get(fill.symbol, NO_POSITION);
      SetValid(positions, fill.symbol, FillInto(position, fill));
      if fill.side == Buy {
        cash := cash - fill.quantity * fill.price;
        position := AddTo(position, fill);
      } else {
        cash := cash + Min(fill.quantity, position.quantity) * fill.price;
        position := TakeFrom(position, fill);
      }
      positions := positions.Set(fill.symbol, position);
    }

    method Reject(order: Order, reasons: set<string>)
      modifies this`rejectedOrders, order
      ensures order.status == Rejected && order.reasons == reasons
      ensures rejectedOrders == old(rejectedOrders) + [order]
    {
      order.status := Rejected;
      order.reasons := reasons;
      rejectedOrders := rejectedOrders + [order];
    }

    method CheckOrder(t: Ticket, advice: Advice) returns (refusal: Option<set<string>>)
      requires cfg.Valid() && positions.Valid()
      modifies this`killSwitchEnabled, this`currentDay, this`dayStartEquity, this`peakEquity
      ensures (Model(), refusal) == old(Admit(cfg, Model(), t, advice))
    {
      hide Equity, TicketProblem, ActiveFlag;
      if !cfg.paperTradingEnabled {
        return Some({"paper_trading_disabled"});
      }
      if killSwitchEnabled || advice.managerKilled {
        killSwitchEnabled := true;
        return Some({"kill_switch_enabled"});
      }
      var problem := TicketProblem(t);
      if problem.Some? {
        return Some({problem.value});
      }

      UpdateDayAnchor(t.timestamp);
      if t.quantity * t.price > cfg.maxNotional {
        return Some({"max_notional_per_trade_exceeded"});
      }
      if t.side == Buy {
        var active := ActivePositions();
        var isNew := positions.Get(t.symbol, NO_POSITION).quantity == 0.0;
        if isNew && active >= cfg.maxOpenPositions {
          return Some({"max_open_positions_exceeded"});
        }
      }

      var shown := CurrentEquity();
      if !advice.approved {
        if advice.killSwitch {
          killSwitchEnabled := true;
        }
        return Some(advice.reasons);
      }
      return None;
    }

    method FillOrder(t: Ticket)
      requires cfg.Valid() && positions.Valid()
      modifies this`cash, this`positions, this`lastPrices, this`peakEquity, this`filledOrders, this`killSwitchEnabled
      ensures Model() == old(Book(cfg, Model(), t)) && positions.Valid()
      ensures |filledOrders| == |old(filledOrders)| + 1
    {
      hide ApplyFill, Equity;
      var fill := BrokerFill(t);
      Apply(fill);
      filledOrders := filledOrders + [fill];
      var equity := CurrentEquity();
      if equity <= dayStartEquity - cfg.dailyLossCap {
        killSwitchEnabled := true;
      }
    }

    method SubmitOrder(order: Order, advice: Advice)
      requires Valid()
      modifies this, order
      ensures Valid()
      ensures submittedOrders == old(submittedOrders) + [order]
      ensures var r := old(Submit(cfg, Model(), order.ticket, advice));
        && Model() == r.state
        && match r.reply
           case Accepted(_) => order.status == Filled && rejectedOrders == old(rejectedOrders)
           case Refused(reasons) =>
             order.status == Rejected && order.reasons == reasons && rejectedOrders == old(rejectedOrders) + [order]
    {
      hide Admit, Book, Dict.Valid, Settings.Valid, BrokerFill, Sum, Observe, Equity;
      submittedOrders := submittedOrders + [order];
      var refusal := CheckOrder(order.ticket, advice);
      if refusal.Some? {
        Reject(order, refusal.value);
      } else {
        FillOrder(order.ticket);
        order.status := Filled;
      }
      assert forall o :: o in old(submittedOrders) && o != order ==> o.status == old(o.status);
    }

    // Cancels the first submitted order with this id that still waits. After SubmitOrder none ever
    // waits (see Valid), so on a valid executor the answer is always null.
    method CancelOrder(orderId: string) returns (canceled: Order?)
      modifies this`canceledOrders, submittedOrders
      ensures canceled == null <==>
                forall o :: o in submittedOrders ==> !(o.ticket.id == orderId && old(o.status) == Submitted)
      ensures canceled == null ==> unchanged(this) && unchanged(submittedOrders)
      ensures canceled != null ==>
                && canceled in submittedOrders && canceled.ticket.id == orderId
                && old(canceled.status) == Submitted && canceled.status == Canceled
                && canceledOrders == old(canceledOrders) + [canceled]
                && forall o :: o in submittedOrders && o != canceled ==> o.status == old(o.status)
      ensures old(Valid()) ==> canceled == null && Valid()
    {
      for i := 0 to |submittedOrders|
        invariant unchanged(this) && unchanged(submittedOrders)
        invariant forall k :: 0 <= k < i ==>
                    !(submittedOrders[k].ticket.id == orderId && submittedOrders[k].status == Submitted)
      {
        var order := submittedOrders[i];
        if order.ticket.id == orderId && order.status == Submitted {
          order.status := Canceled;
          canceledOrders := canceledOrders + [order];
          return order;
        }
      }
      return null;
    }

    method RecordMarks(prices: Dict<string, real>)
      requires prices.Valid()
      modifies this`lastPrices
      ensures lastPrices == old(NewMarks(Model(), prices))
    {
      ghost var before := Model();
      for i := 0 to |prices.keys|
        invariant lastPrices == MarksTo(before, prices, i)
      {
        var symbol := prices.keys[i];
        if symbol in positions.entries && prices.entries[symbol] > 0.0 {
          lastPrices := lastPrices[symbol := prices.entries[symbol]];
        }
      }
    }

    method RemarkPositions() returns (total: real)
      requires positions.Valid()
      modifies this`positions
      ensures positions == old(RemarkAll(positions, lastPrices))
      ensures positions.Valid() && total == Sum(positions, UnrealizedOf)
    {
      hide Remark, Mark, RemarkAll, Dict.Set;
      total := 0.0;
      ghost var before := positions;
      for i := 0 to |positions.keys|
        invariant positions == RemarkTo(before, lastPrices, i) && positions.keys == before.keys
        invariant total == SumTo(before, RemarkedOf(lastPrices), i)
      {
        RemarkToKeys(before, lastPrices, i);
        RemarkToAhead(before, lastPrices, i, i);
        var symbol := positions.keys[i];
        var position := positions.entries[symbol];
        position := Remark(position, Mark(lastPrices, symbol, position));
        positions := positions.Set(symbol, position);
        RemarkToKeys(before, lastPrices, i + 1);
        total := total + position.unrealizedPnl;
      }
      RemarkToEnd(before, lastPrices);
      RemarkedTotal(before, lastPrices);
    }

    method MarkPositions(prices: Dict<string, real>) returns (total: real)
      requires Valid() && prices.Valid()
      modifies this`lastPrices, this`positions
      ensures Valid() && Model() == old(MarkToMarket(Model(), prices))
      ensures total == Sum(positions, UnrealizedOf)
    {
      hide NewMarks;
      RecordMarks(prices);
      total := RemarkPositions();
    }

    method SnapshotState() returns (snapshot: Snapshot)
      requires positions.Valid()
      ensures snapshot == TakeSnapshot(Model())
    {
      var open: Dict<string, Position> := Empty();
      for i := 0 to |positions.keys|
        invariant open == OpenTo(positions, i)
      {
        var symbol := positions.keys[i];
        if positions.entries[symbol].quantity > 0.0 {
          open := open.Set(symbol, positions.entries[symbol]);
        }
      }
      snapshot := Snapshot(cash, dayStartEquity, peakEquity, open);
    }

    method RestoreState(snapshot: Snapshot, kill: bool)
      requires Valid() && snapshot.positions.Valid()
      modifies this`cash, this`dayStartEquity, this`peakEquity, this`positions, this`lastPrices, this`killSwitchEnabled
      ensures Valid() && Model() == old(Restore(Model(), snapshot, kill))
    {
      cash, dayStartEquity, peakEquity := snapshot.cash, snapshot.dayStart, snapshot.peak;
      positions := snapshot.positions;
      lastPrices := CostMarks(positions);
      killSwitchEnabled := kill;
    }
  }
}
