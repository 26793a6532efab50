/** What every session of the paper executor keeps, over all orders, marks, queries and cancellations. */
module PaperSessions {
  import opened Prelude
  import opened Dicts
  import opened PaperExecutor

  datatype Event =
    | Place(ticket: Ticket, advice: Advice) | Quote(prices: Dict<string, real>) | AskEquity | Cancel(id: string)
  {
    ghost predicate Valid() {
      Quote? ==> prices.Valid()
    }
  }

  ghost function Next(cfg: Settings, s: State, e: Event): State
    requires s.positions.Valid() && e.Valid()
  {
    match e
    case Place(t, advice) => Submit(cfg, s, t, advice).state
    case Quote(prices) => MarkToMarket(s, prices)
    case AskEquity => Observe(s)
    case Cancel(_) => s
  }

  lemma NextValid(cfg: Settings, s: State, e: Event)
    requires s.positions.Valid() && e.Valid()
    ensures Next(cfg, s, e).positions.Valid()
  {
    hide Equity, FillInto, ApplyFill;
    if e.Place? {
      AdmitKeeps(cfg, s, e.ticket, e.advice);
      BookKeeps(cfg, Admit(cfg, s, e.ticket, e.advice).0, e.ticket);
      hide Admit, Book;
    }
  }

  datatype Session = Session(cfg: Settings, events: seq<Event>) {
    ghost predicate Valid() {
      cfg.Valid() && forall i :: 0 <= i < |events| ==> events[i].Valid()
    }

    // The state after the first n events of a fresh executor.
    ghost function At(n: nat): (s: State)
      requires Valid() && n <= |events|
      ensures s.positions.Valid()
    {
      if n == 0 then State(cfg.startingCash, Empty(), map[], cfg.startingCash, None, cfg.startingCash, false, [])
      else
        NextValid(cfg, At(n - 1), events[n - 1]);
        Next(cfg, At(n - 1), events[n - 1])
    }
  }

  // ----- Soundness of the books -----

  ghost predicate SoundPosition(marks: map<string, real>, symbol: string, p: Position) {
    && p.quantity >= 0.0 && p.avgPrice >= 0.0
    && (p.quantity == 0.0 ==> p.avgPrice == 0.0)
    && symbol in marks && marks[symbol] > 0.0
    && p.unrealizedPnl == Gain(marks[symbol], p.avgPrice, p.quantity)
  }

  ghost predicate Sound(s: State) {
    && s.positions.Valid()
    && s.lastPrices.Keys == s.positions.entries.Keys
    && forall k :: k in s.positions.entries ==> SoundPosition(s.lastPrices, k, s.positions.entries[k])
  }

  function BasisOf(symbol: string, p: Position): real {
    p.quantity * p.avgPrice
  }

  // Cash plus cost basis is the starting cash plus everything realised.
  ghost predicate Accounted(cfg: Settings, s: State)
    requires s.positions.Valid()
  {
    s.cash + Sum(s.positions, BasisOf) == cfg.startingCash + Sum(s.positions, RealizedOf)
  }

  ghost predicate Holdable(p: Position) {
    p.quantity >= 0.0 && p.avgPrice >= 0.0 && (p.quantity == 0.0 ==> p.avgPrice == 0.0)
  }

  // A fill moves money between cash, cost basis and realised P&L without creating any, and is worth
  // exactly nothing at its own price.
  lemma FillConserves(p: Position, f: Fill)
    requires Holdable(p) && f.quantity > 0.0 && f.price > 0.0
    ensures var q := FillInto(p, f);
      && Holdable(q)
      && CashFlow(p, f) + BasisOf(f.symbol, q) - BasisOf(f.symbol, p) == q.realizedPnl - p.realizedPnl
      && CashFlow(p, f) + q.quantity * f.price == p.quantity * f.price
      && q.unrealizedPnl == Gain(f.price, q.avgPrice, q.quantity)
  {
    if f.side == Buy {
      BuyConserves(p, f.quantity, f.price);
    } else {
      SellConserves(p, f.quantity, f.price);
    }
  }

  lemma BuyConserves(p: Position, quantity: real, price: real)
    requires Holdable(p) && quantity > 0.0 && price > 0.0
    ensures var q := BuyInto(p, quantity, price);
      && Holdable(q) && q.quantity > 0.0 && q.realizedPnl == p.realizedPnl
      && q.quantity * q.avgPrice == p.quantity * p.avgPrice + quantity * price
      && q.unrealizedPnl == Gain(price, q.avgPrice, q.quantity)
  {
    hide Gain;
    var avg := WeightedAverage(p.quantity, p.avgPrice, quantity, price);
    AverageBetween(p.quantity, p.avgPrice, quantity, price, avg);
  }

  lemma SellConserves(p: Position, quantity: real, price: real)
    requires Holdable(p) && quantity > 0.0 && price > 0.0
    ensures var q := SellFrom(p, quantity, price); var closed := Min(quantity, p.quantity);
      && Holdable(q) && q.quantity == p.quantity - closed
      && closed * price + q.quantity * q.avgPrice - p.quantity * p.avgPrice == q.realizedPnl - p.realizedPnl
      && q.unrealizedPnl == Gain(price, q.avgPrice, q.quantity)
  {
    var closed := Min(quantity, p.quantity);
    assert p.quantity * p.avgPrice == closed * p.avgPrice + (p.quantity - closed) * p.avgPrice;
  }

  lemma FillKeepsBooks(cfg: Settings, s: State, f: Fill)
    requires Sound(s) && Accounted(cfg, s) && f.quantity > 0.0 && f.price > 0.0
    ensures Sound(ApplyFill(s, f)) && Accounted(cfg, ApplyFill(s, f))
  {
    hide FillInto, CashFlow, BasisOf, Gain;
    var p := s.positions.Get(f.symbol, NO_POSITION);
    SoundHoldable(s, f.symbol);
    NoPositionIsEmpty();
    FillConserves(p, f);
    SumSet(s.positions, f.symbol, FillInto(p, f), BasisOf);
    SumSet(s.positions, f.symbol, FillInto(p, f), RealizedOf);
  }

  lemma NoPositionIsEmpty()
    ensures Holdable(NO_POSITION)
    ensures forall k :: BasisOf(k, NO_POSITION) == 0.0 == RealizedOf(k, NO_POSITION)
  {
  }

  // Re-marking one symbol and replacing its position changes the book value by that symbol alone.
  lemma ValueAfterFill(d: Dict<string, Position>, marks: map<string, real>, symbol: string, q: Position, price: real)
    requires d.Valid()
    ensures d.Set(symbol, q).Valid()
    ensures Sum(d.Set(symbol, q), ValueOf(marks[symbol := price]))
         == Sum(d, ValueOf(marks)) + q.quantity * price
            - if symbol in d.entries then d.entries[symbol].quantity * Mark(marks, symbol, d.entries[symbol]) else 0.0
  {
    hide Sum, Dict.Valid;
    var f, g := ValueOf(marks), ValueOf(marks[symbol := price]);
    SumSet(d, symbol, q, g);
    forall k | k in d.entries && k != symbol ensures f(k, d.entries[k]) == g(k, d.entries[k]) {
      assert Mark(marks, k, d.entries[k]) == Mark(marks[symbol := price], k, d.entries[k]);
    }
    SumPatched(d, f, g, symbol);
  }

  // A fill at price p changes equity only by re-marking what was already held from its old mark to p.
  lemma FillMovesEquityByRemark(s: State, f: Fill)
    requires Sound(s) && f.quantity > 0.0 && f.price > 0.0
    ensures ApplyFill(s, f).positions.Valid()
    ensures var p := s.positions.Get(f.symbol, NO_POSITION);
      Equity(ApplyFill(s, f)) == Equity(s) + p.quantity * (f.price - Mark(s.lastPrices, f.symbol, p))
  {
    hide FillInto, CashFlow, Sum, ValueOf, Dict.Valid, Mark, SoundPosition;
    var p := s.positions.Get(f.symbol, NO_POSITION);
    SoundHoldable(s, f.symbol);
    FillConserves(p, f);
    ValueAfterFill(s.positions, s.lastPrices, f.symbol, FillInto(p, f), f.price);
    MulDiff(p.quantity, f.price, Mark(s.lastPrices, f.symbol, p));
  }

  lemma SoundHoldable(s: State, symbol: string)
    requires Sound(s)
    ensures Holdable(s.positions.Get(symbol, NO_POSITION))
  {
    var p := s.positions.Get(symbol, NO_POSITION);
    assert p == NO_POSITION || SoundPosition(s.lastPrices, symbol, p);
  }

  lemma MulDiff(q: real, x: real, y: real)
    ensures q * (x - y) == q * x - q * y
  {
  }

  // ----- Marks -----

  lemma {:induction false} MarksStaySound(s: State, prices: Dict<string, real>, n: nat)
    requires Sound(s) && prices.Valid() && n <= |prices.keys|
    ensures MarksTo(s, prices, n).Keys == s.lastPrices.Keys
    ensures forall k :: k in MarksTo(s, prices, n) ==> MarksTo(s, prices, n)[k] > 0.0
  {
    if n > 0 {
      MarksStaySound(s, prices, n - 1);
    } else {
      forall k | k in s.lastPrices ensures s.lastPrices[k] > 0.0 {
        assert SoundPosition(s.lastPrices, k, s.positions.entries[k]);
      }
    }
  }

  lemma MarkKeepsSound(s: State, prices: Dict<string, real>)
    requires Sound(s) && prices.Valid()
    ensures Sound(MarkToMarket(s, prices))
  {
    hide Gain, NewMarks;
    MarksStaySoundAll(s, prices);
    var t := MarkToMarket(s, prices);
    forall k | k in t.positions.entries ensures SoundPosition(t.lastPrices, k, t.positions.entries[k]) {
      assert SoundPosition(s.lastPrices, k, s.positions.entries[k]);
    }
  }

  lemma MarkKeepsBooks(cfg: Settings, s: State, prices: Dict<string, real>)
    requires Sound(s) && Accounted(cfg, s) && prices.Valid()
    ensures Sound(MarkToMarket(s, prices)) && Accounted(cfg, MarkToMarket(s, prices))
    ensures Sum(MarkToMarket(s, prices).positions, ActiveFlag) == Sum(s.positions, ActiveFlag)
  {
    hide Gain, NewMarks, SoundPosition, Mark, Dict.Valid;
    MarkKeepsSound(s, prices);
    var t := MarkToMarket(s, prices);
    SumSame(s.positions, t.positions, BasisOf, BasisOf, |s.positions.keys|);
    SumSame(s.positions, t.positions, RealizedOf, RealizedOf, |s.positions.keys|);
    SumSame(s.positions, t.positions, ActiveFlag, ActiveFlag, |s.positions.keys|);
  }

  lemma MarksStaySoundAll(s: State, prices: Dict<string, real>)
    requires Sound(s) && prices.Valid()
    ensures NewMarks(s, prices).Keys == s.lastPrices.Keys
    ensures forall k :: k in NewMarks(s, prices) ==> NewMarks(s, prices)[k] > 0.0
  {
    MarksStaySound(s, prices, |prices.keys|);
  }

  // ----- Reachable states -----

  ghost predicate Good(cfg: Settings, s: State) {
    && Sound(s)
    && Accounted(cfg, s)
    && Sum(s.positions, ActiveFlag) <= cfg.maxOpenPositions as real
    && s.peak >= s.dayStart
  }

  // The number of symbols with a positive quantity among the first n.
  function HeldTo(d: Dict<string, Position>, n: nat): nat
    requires d.Valid() && n <= |d.keys|
  {
    if n == 0 then 0 else HeldTo(d, n - 1) + if d.entries[d.keys[n - 1]].quantity > 0.0 then 1 else 0
  }

  lemma {:induction false} FlagsCount(d: Dict<string, Position>, n: nat)
    requires d.Valid() && n <= |d.keys|
    ensures SumTo(d, ActiveFlag, n) == HeldTo(d, n) as real
  {
    if n > 0 {
      FlagsCount(d, n - 1);
    }
  }

  lemma FillActive(p: Position, f: Fill)
    requires Holdable(p) && f.quantity > 0.0
    ensures f.side != Buy && FillInto(p, f).quantity > 0.0 ==> p.quantity > 0.0
  {
    hide WeightedAverage, Gain;
  }

  lemma CapKept(d: Dict<string, Position>, symbol: string, q: Position, max: int)
    requires d.Valid() && Sum(d, ActiveFlag) <= max as real
    requires var p := d.Get(symbol, NO_POSITION);
      q.quantity > 0.0 && p.quantity <= 0.0 ==> Sum(d, ActiveFlag) < max as real
    ensures d.Set(symbol, q).Valid() && Sum(d.Set(symbol, q), ActiveFlag) <= max as real
  {
    hide Dict.Valid, Sum;
    SumSet(d, symbol, q, ActiveFlag);
    if Sum(d, ActiveFlag) < max as real {
      RoomForOne(d, max);
    }
  }

  lemma RoomForOne(d: Dict<string, Position>, max: int)
    requires d.Valid() && Sum(d, ActiveFlag) < max as real
    ensures Sum(d, ActiveFlag) + 1.0 <= max as real
  {
    FlagsCount(d, |d.keys|);
    hide SumTo, HeldTo, Dict.Valid;
    var count := HeldTo(d, |d.keys|);
    assert count < max;
  }

  lemma FillRespectsCap(cfg: Settings, s: State, t: Ticket)
    requires Good(cfg, s) && !ExceedsOpenPositions(cfg, s, t) && TicketProblem(t).None?
    ensures Sum(ApplyFill(s, BrokerFill(t)).positions, ActiveFlag) <= cfg.maxOpenPositions as real
  {
    hide FillInto, CashFlow, SoundPosition, Dict.Valid, Sum, Blank, Accounted;
    var p, f := s.positions.Get(t.symbol, NO_POSITION), BrokerFill(t);
    SoundHoldable(s, t.symbol);
    FillActive(p, f);
    CapKept(s.positions, t.symbol, FillInto(p, f), cfg.maxOpenPositions);
  }

  lemma AdmittedTicket(cfg: Settings, s: State, t: Ticket, advice: Advice)
    requires s.positions.Valid() && Admit(cfg, s, t, advice).1.None?
    ensures TicketProblem(t).None? && t.quantity * t.price <= cfg.maxNotional
    ensures !s.killed && advice.approved && !advice.managerKilled && cfg.paperTradingEnabled
    ensures !ExceedsOpenPositions(cfg, s, t)
  {
    hide Equity, TicketProblem;
  }

  lemma BookKeepsGood(cfg: Settings, s: State, t: Ticket)
    requires Good(cfg, s) && TicketProblem(t).None? && !ExceedsOpenPositions(cfg, s, t)
    ensures Good(cfg, Book(cfg, s, t))
  {
    hide Equity, SoundPosition, Dict.Valid, BasisOf, RealizedOf, ActiveFlag, CashFlow, FillInto;
    FillKeepsBooks(cfg, s, BrokerFill(t));
    FillRespectsCap(cfg, s, t);
    SoundIgnoresLog(ApplyFill(s, BrokerFill(t)), Book(cfg, s, t));
  }

  lemma SoundIgnoresLog(s: State, t: State)
    requires Sound(s) && s.positions == t.positions && s.lastPrices == t.lastPrices
    ensures Sound(t)
  {
  }

  lemma AdmitKeepsGood(cfg: Settings, s: State, t: Ticket, advice: Advice)
    requires Good(cfg, s)
    ensures Good(cfg, Admit(cfg, s, t, advice).0)
  {
    hide Equity, SoundPosition, Dict.Valid, TicketProblem;
    AdmitKeeps(cfg, s, t, advice);
    SoundIgnoresLog(s, Admit(cfg, s, t, advice).0);
  }

  lemma NextKeepsGood(cfg: Settings, s: State, e: Event)
    requires Good(cfg, s) && e.Valid()
    ensures Good(cfg, Next(cfg, s, e))
  {
    match e
    case Place(t, advice) =>
      AdmitKeepsGood(cfg, s, t, advice);
      var (a, refusal) := Admit(cfg, s, t, advice);
      AdmitKeeps(cfg, s, t, advice);
      if refusal.None? {
        AdmittedTicket(cfg, s, t, advice);
        hide Admit, Equity, TicketProblem;
        BookKeepsGood(cfg, a, t);
      }
    case Quote(prices) =>
      MarkKeepsBooks(cfg, s, prices);
    case AskEquity =>
      SoundIgnoresLog(s, Observe(s));
    case Cancel(_) =>
  }

  lemma {:induction false} AlwaysGood(run: Session, n: nat)
    requires run.Valid() && n <= |run.events|
    ensures Good(run.cfg, run.At(n))
  {
    hide Next, Good;
    if n == 0 {
      FreshIsGood(run);
    } else {
      AlwaysGood(run, n - 1);
      NextKeepsGood(run.cfg, run.At(n - 1), run.events[n - 1]);
    }
  }

  lemma FreshIsGood(run: Session)
    requires run.Valid()
    ensures Good(run.cfg, run.At(0))
  {
  }

  // In every reachable state the books balance, and equity is the starting cash plus the realised
  // and unrealised P&L that the executor itself reports.
  lemma BooksBalance(run: Session, n: nat)
    requires run.Valid() && n <= |run.events|
    ensures var s := run.At(n);
      && s.cash + Sum(s.positions, BasisOf) == run.cfg.startingCash + Sum(s.positions, RealizedOf)
      && Equity(s) == run.cfg.startingCash + Sum(s.positions, RealizedOf) + Sum(s.positions, UnrealizedOf)
  {
    AlwaysGood(run, n);
    EquitySplits(run.At(n));
  }

  lemma EquitySplits(s: State)
    requires Sound(s)
    ensures Equity(s) == s.cash + Sum(s.positions, BasisOf) + Sum(s.positions, UnrealizedOf)
  {
    hide Gain, Mark;
    forall k | k in s.positions.entries
      ensures ValueOf(s.lastPrices)(k, s.positions.entries[k])
           == BasisOf(k, s.positions.entries[k]) + UnrealizedOf(k, s.positions.entries[k])
    {
      assert SoundPosition(s.lastPrices, k, s.positions.entries[k]);
      ValueSplits(s.lastPrices, k, s.positions.entries[k]);
    }
    SumAdds(s.positions, ValueOf(s.lastPrices), BasisOf, UnrealizedOf, |s.positions.keys|);
  }

  lemma ValueSplits(marks: map<string, real>, symbol: string, p: Position)
    requires symbol in marks
    ensures p.quantity * Mark(marks, symbol, p) == BasisOf(symbol, p) + Gain(marks[symbol], p.avgPrice, p.quantity)
  {
  }

  // ----- Safety -----

  // Never more symbols held than the configured maximum.
  lemma OpenPositionsBounded(run: Session, n: nat)
    requires run.Valid() && n <= |run.events|
    ensures Sum(run.At(n).positions, ActiveFlag) <= run.cfg.maxOpenPositions as real
    ensures forall k :: k in run.At(n).positions.entries ==> run.At(n).positions.entries[k].quantity >= 0.0
  {
    AlwaysGood(run, n);
    forall k | k in run.At(n).positions.entries ensures run.At(n).positions.entries[k].quantity >= 0.0 {
      assert SoundPosition(run.At(n).lastPrices, k, run.At(n).positions.entries[k]);
    }
  }

  // Cash, fills, anchors, quantities, averages and realised P&L of the two states are the same.
  ghost predicate SameBooks(s: State, t: State) {
    && t.cash == s.cash && t.fills == s.fills && t.dayStart == s.dayStart && t.currentDay == s.currentDay
    && t.positions.keys == s.positions.keys && t.positions.entries.Keys == s.positions.entries.Keys
    && forall k :: k in s.positions.entries ==>
         t.positions.entries[k] == s.positions.entries[k].(unrealizedPnl := t.positions.entries[k].unrealizedPnl)
  }

  lemma KilledStep(cfg: Settings, s: State, e: Event)
    requires s.positions.Valid() && e.Valid() && s.killed
    ensures Next(cfg, s, e).killed && SameBooks(s, Next(cfg, s, e))
  {
    hide NewMarks, Equity;
    if e.Place? {
      AdmitKeeps(cfg, s, e.ticket, e.advice);
      hide Admit, Book;
    }
  }

  lemma SameBooksTransitive(s: State, t: State, u: State)
    requires SameBooks(s, t) && SameBooks(t, u)
    ensures SameBooks(s, u)
  {
  }

  // Once the kill switch is on it stays on and the books are frozen, whatever is submitted.
  lemma {:induction false} KilledIsFrozen(run: Session, m: nat, n: nat)
    requires run.Valid() && m <= n <= |run.events| && run.At(m).killed
    ensures run.At(n).killed && SameBooks(run.At(m), run.At(n))
  {
    hide Next, SameBooks, Event.Valid, Session.At;
    if m == n {
      SameBooksReflexive(run.At(m));
    } else {
      KilledIsFrozen(run, m, n - 1);
      Unfold(run, n);
      KilledStep(run.cfg, run.At(n - 1), run.events[n - 1]);
      SameBooksTransitive(run.At(m), run.At(n - 1), run.At(n));
    }
  }

  lemma SameBooksReflexive(s: State)
    ensures SameBooks(s, s)
  {
  }

  lemma Unfold(run: Session, n: nat)
    requires run.Valid() && 0 < n <= |run.events|
    ensures run.At(n) == Next(run.cfg, run.At(n - 1), run.events[n - 1])
  {
  }

  // A fill that leaves equity at or below the day's start minus the loss cap turns the switch on.
  lemma LossCapKills(run: Session, n: nat)
    requires run.Valid() && 0 < n <= |run.events| && run.events[n - 1].Place?
    requires var e := run.events[n - 1]; Submit(run.cfg, run.At(n - 1), e.ticket, e.advice).reply.Accepted?
    ensures Equity(run.At(n)) <= run.At(n).dayStart - run.cfg.dailyLossCap ==> run.At(n).killed
    ensures run.At(n).killed ==> Equity(run.At(n)) <= run.At(n).dayStart - run.cfg.dailyLossCap
  {
    var s, e := run.At(n - 1), run.events[n - 1];
    AdmitKeeps(run.cfg, s, e.ticket, e.advice);
    AdmittedTicket(run.cfg, s, e.ticket, e.advice);
    AdmitNeverKillsWhatItAdmits(run.cfg, s, e.ticket, e.advice);
    hide Admit, ApplyFill, Sum;
  }

  lemma AdmitNeverKillsWhatItAdmits(cfg: Settings, s: State, t: Ticket, advice: Advice)
    requires s.positions.Valid() && Admit(cfg, s, t, advice).1.None?
    ensures !Admit(cfg, s, t, advice).0.killed
  {
    hide Equity, TicketProblem;
  }

  // A submission that gets as far as computing equity: for the first order of a day, or for the risk
  // manager, whatever the manager then answers.
  ghost predicate ComputesEquity(cfg: Settings, s: State, t: Ticket, advice: Advice)
    requires s.positions.Valid()
  {
    && cfg.paperTradingEnabled && !s.killed && !advice.managerKilled && TicketProblem(t).None?
    && (s.currentDay != Some(DayOf(t.timestamp))
        || (t.quantity * t.price <= cfg.maxNotional && !ExceedsOpenPositions(cfg, s, t)))
  }

  // The peak never falls; it only ever moves to an equity that was just computed, and it bounds every
  // equity that is computed: before each order that gets that far, after every fill and at every query.
  lemma PeakBoundsEquity(run: Session, n: nat)
    requires run.Valid() && 0 < n <= |run.events|
    ensures var s, t, e := run.At(n - 1), run.At(n), run.events[n - 1];
      && t.peak >= s.peak && t.peak >= t.dayStart
      && (t.peak == s.peak || t.peak == Equity(s) || t.peak == Equity(t))
      && (e.AskEquity? ==> t.peak >= Equity(t))
      && (e.Place? && ComputesEquity(run.cfg, s, e.ticket, e.advice) ==> t.peak >= Equity(s))
      && (e.Place? && t.fills != s.fills ==> t.peak >= Equity(t) && t.peak >= Equity(s))
  {
    AlwaysGood(run, n);
    var s, e := run.At(n - 1), run.events[n - 1];
    hide ComputesEquity;
    if e.Place? {
      AdmitPeak(run.cfg, s, e.ticket, e.advice);
      AdmitKeeps(run.cfg, s, e.ticket, e.advice);
      hide Admit, ApplyFill, Sum;
    }
    hide NewMarks, Sum;
  }

  lemma AdmitPeak(cfg: Settings, s: State, t: Ticket, advice: Advice)
    requires s.positions.Valid()
    ensures var (a, refusal) := Admit(cfg, s, t, advice);
      && a.peak >= s.peak
      && (a.peak == s.peak || a.peak == Equity(s))
      && (refusal.None? || ComputesEquity(cfg, s, t, advice) ==> a.peak >= Equity(s))
  {
    hide Sum, TicketProblem;
  }

  // ----- Cash -----

  // Event n is a purchase that was accepted.
  ghost predicate Purchase(run: Session, n: nat)
    requires run.Valid() && n < |run.events|
  {
    var e := run.events[n];
    e.Place? && e.ticket.side == Buy && Submit(run.cfg, run.At(n), e.ticket, e.advice).reply.Accepted?
  }

  function CostOf(t: Ticket): real {
    t.quantity * t.price
  }

  lemma FillMovesCash(p: Position, t: Ticket)
    requires Holdable(p) && TicketProblem(t).None?
    ensures var flow := CashFlow(p, BrokerFill(t)); if t.side == Buy then flow == -CostOf(t) else flow >= 0.0
  {
    if t.side != Buy {
      MulNonNeg(Min(t.quantity, p.quantity), t.price);
    }
  }

  // Only an accepted purchase takes cash, and it takes exactly its cost, without asking whether it is there.
  lemma CashStep(run: Session, n: nat)
    requires run.Valid() && n < |run.events|
    ensures if Purchase(run, n) then run.At(n + 1).cash == run.At(n).cash - CostOf(run.events[n].ticket)
            else run.At(n + 1).cash >= run.At(n).cash
  {
    AlwaysGood(run, n);
    Unfold(run, n + 1);
    var s, e := run.At(n), run.events[n];
    hide Session.At, CostOf, CashFlow, FillInto, TicketProblem, NewMarks, RemarkAll, Sound, Accounted, Equity;
    if e.Place? {
      AdmitKeeps(run.cfg, s, e.ticket, e.advice);
      if Admit(run.cfg, s, e.ticket, e.advice).1.None? {
        AdmittedTicket(run.cfg, s, e.ticket, e.advice);
        SoundHoldable(s, e.ticket.symbol);
        FillMovesCash(s.positions.Get(e.ticket.symbol, NO_POSITION), e.ticket);
      }
      hide Admit;
    }
  }

  // The executor never checks its cash: it stays non-negative exactly when every accepted purchase
  // costs no more than the cash before it.
  lemma {:induction false} CashNonNegativeIff(run: Session, n: nat)
    requires run.Valid() && n <= |run.events|
    ensures (forall k :: 0 <= k <= n ==> run.At(k).cash >= 0.0)
            <==> forall k :: 0 <= k < n && Purchase(run, k) ==> CostOf(run.events[k].ticket) <= run.At(k).cash
  {
    hide Session.At, Purchase, CostOf;
    if n == 0 {
      FreshCash(run);
    } else {
      CashNonNegativeIff(run, n - 1);
      CashStep(run, n - 1);
    }
  }

  lemma FreshCash(run: Session)
    requires run.Valid()
    ensures run.At(0).cash > 0.0
  {
  }
}
