/** Which paper orders are filled, which reason a refused one is given, and what a submission leaves behind. */
module PaperAcceptance {
  import opened Prelude
  import opened Dicts
  import opened PaperExecutor
  import opened PaperSessions

  ghost predicate Holds(s: State, symbol: string) {
    symbol in s.positions.entries && s.positions.entries[symbol].quantity != 0.0
  }

  const CONDITIONS := 11

  // The conditions of a submission, in the order in which they are asked.
  ghost predicate Condition(cfg: Settings, s: State, t: Ticket, advice: Advice, k: nat)
    requires s.positions.Valid()
  {
    match k
    case 0 => cfg.paperTradingEnabled
    case 1 => !s.killed && !advice.managerKilled
    case 2 => exists i :: 0 <= i < |t.symbol| && t.symbol[i] !in {' ', '\t', '\n', '\r'}
    case 3 => t.side == Buy || t.side == Sell
    case 4 => t.quantity > 0.0
    case 5 => t.price > 0.0
    case 6 => t.extendedHours ==> t.orderType == Limit
    case 7 => t.orderType == Limit ==> t.limitPrice.Some? && t.limitPrice.value > 0.0
    case 8 => t.quantity * t.price <= cfg.maxNotional
    case 9 => t.side == Buy && !Holds(s, t.symbol) ==> HeldTo(s.positions, |s.positions.keys|) < cfg.maxOpenPositions
    case 10 => advice.approved
    case _ => true
  }

  // What is reported when condition k is the first that fails.
  function Reasons(advice: Advice, k: nat): set<string> {
    match k
    case 0 => {"paper_trading_disabled"}
    case 1 => {"kill_switch_enabled"}
    case 2 => {"empty_symbol"}
    case 3 => {"invalid_side"}
    case 4 => {"non_positive_quantity"}
    case 5 => {"non_positive_price"}
    case 6 => {"extended_hours_requires_limit_order"}
    case 7 => {"invalid_limit_price"}
    case 8 => {"max_notional_per_trade_exceeded"}
    case 9 => {"max_open_positions_exceeded"}
    case _ => advice.reasons
  }

  // The first k conditions hold.
  ghost predicate Passes(cfg: Settings, s: State, t: Ticket, advice: Advice, k: nat)
    requires s.positions.Valid()
  {
    forall j :: 0 <= j < k ==> Condition(cfg, s, t, advice, j)
  }

  lemma {:induction false} PassesMore(cfg: Settings, s: State, t: Ticket, advice: Advice, k: nat)
    requires s.positions.Valid()
    ensures Passes(cfg, s, t, advice, 0)
    ensures Passes(cfg, s, t, advice, k + 1) <==> Passes(cfg, s, t, advice, k) && Condition(cfg, s, t, advice, k)
  {
    hide Condition;
  }

  lemma SymbolGiven(symbol: string)
    ensures !Blank(symbol) <==> exists i :: 0 <= i < |symbol| && symbol[i] !in {' ', '\t', '\n', '\r'}
  {
    assert forall c: char :: c in " \t\n\r" <==> c in {' ', '\t', '\n', '\r'};
  }

  lemma CapReached(cfg: Settings, s: State, t: Ticket)
    requires s.positions.Valid()
    ensures ExceedsOpenPositions(cfg, s, t)
        <==> t.side == Buy && !Holds(s, t.symbol) && HeldTo(s.positions, |s.positions.keys|) >= cfg.maxOpenPositions
  {
    FlagsCount(s.positions, |s.positions.keys|);
  }

  // The checks on the ticket alone are conditions 2 to 7.
  lemma TicketConditions(cfg: Settings, s: State, t: Ticket, advice: Advice)
    requires s.positions.Valid() && Passes(cfg, s, t, advice, 2)
    ensures TicketProblem(t).None? <==> Passes(cfg, s, t, advice, 8)
    ensures forall k: nat :: 2 <= k < 8 && Passes(cfg, s, t, advice, k) && !Condition(cfg, s, t, advice, k) ==>
              TicketProblem(t).Some? && {TicketProblem(t).value} == Reasons(advice, k)
  {
    SymbolGiven(t.symbol);
    var c := k => k >= 0 && Condition(cfg, s, t, advice, k);
    assert Passes(cfg, s, t, advice, 8) <==> c(2) && c(3) && c(4) && c(5) && c(6) && c(7);
  }

  lemma PassesDown(cfg: Settings, s: State, t: Ticket, advice: Advice, k: nat, m: nat)
    requires s.positions.Valid() && k <= m && Passes(cfg, s, t, advice, m)
    ensures Passes(cfg, s, t, advice, k)
  {
  }

  lemma AnchorKeepsBook(s: State, timestamp: int)
    requires s.positions.Valid()
    ensures var a := AnchorDay(s, timestamp);
      && a == s.(dayStart := a.dayStart, currentDay := a.currentDay, peak := a.peak)
      && a.currentDay == Some(timestamp / 86_400_000_000_000)
      && a.dayStart == if s.currentDay == a.currentDay then s.dayStart else Equity(s)
  {
    hide Equity;
  }

  // The first condition that fails is condition k.
  ghost predicate FailsAt(cfg: Settings, s: State, t: Ticket, advice: Advice, k: nat)
    requires s.positions.Valid()
  {
    k < CONDITIONS && Passes(cfg, s, t, advice, k) && !Condition(cfg, s, t, advice, k)
  }

  lemma {:induction false} PassesOrFails(cfg: Settings, s: State, t: Ticket, advice: Advice, n: nat) returns (k: nat)
    requires s.positions.Valid() && n <= CONDITIONS
    ensures k <= n
    ensures if k == n then Passes(cfg, s, t, advice, n) else FailsAt(cfg, s, t, advice, k)
  {
    hide Condition, Passes;
    PassesMore(cfg, s, t, advice, n);
    if n == 0 {
      k := 0;
    } else {
      PassesMore(cfg, s, t, advice, n - 1);
      k := PassesOrFails(cfg, s, t, advice, n - 1);
      if k == n - 1 && Condition(cfg, s, t, advice, k) {
        k := n;
      }
    }
  }

  lemma SwitchConditions(cfg: Settings, s: State, t: Ticket, advice: Advice)
    requires s.positions.Valid()
    ensures FailsAt(cfg, s, t, advice, 0) ==> Admit(cfg, s, t, advice) == (s, Some({"paper_trading_disabled"}))
    ensures FailsAt(cfg, s, t, advice, 1) ==>
              Admit(cfg, s, t, advice) == (s.(killed := true), Some({"kill_switch_enabled"}))
    ensures Passes(cfg, s, t, advice, 2) <==> cfg.paperTradingEnabled && !s.killed && !advice.managerKilled
  {
    hide TicketProblem, Equity;
    assert Passes(cfg, s, t, advice, 2) <==> Condition(cfg, s, t, advice, 0) && Condition(cfg, s, t, advice, 1);
  }

  // What a submission up to the broker comes to, by the first condition that fails.
  ghost predicate AdmitsTo(cfg: Settings, s: State, t: Ticket, advice: Advice, k: nat, r: (State, Option<set<string>>))
    requires s.positions.Valid()
  {
    && (r.1 == if k < CONDITIONS then Some(Reasons(advice, k)) else None)
    && (r.0.killed <==> s.killed || k == 1 || (k == 10 && advice.killSwitch))
    && (if k < 8 then r.0 == s.(killed := r.0.killed)
        else
          && r.0.currentDay == Some(t.timestamp / 86_400_000_000_000)
          && r.0.dayStart == (if s.currentDay == r.0.currentDay then s.dayStart else Equity(s)))
  }

  lemma AdmitBy(cfg: Settings, s: State, t: Ticket, advice: Advice, k: nat)
    requires s.positions.Valid()
    requires FailsAt(cfg, s, t, advice, k) || (k == CONDITIONS && Passes(cfg, s, t, advice, k))
    ensures AdmitsTo(cfg, s, t, advice, k, Admit(cfg, s, t, advice))
  {
    SwitchConditions(cfg, s, t, advice);
    if k >= 2 {
      PassesDown(cfg, s, t, advice, 2, k);
      TicketConditions(cfg, s, t, advice);
      if k >= 8 {
        PassesDown(cfg, s, t, advice, 8, k);
        AnchorKeepsBook(s, t.timestamp);
        CapReached(cfg, AnchorDay(s, t.timestamp), t);
        LastConditions(cfg, s, t, advice, k);
        hide TicketProblem, AnchorDay, Equity, ExceedsOpenPositions, Passes, HeldTo;
      } else {
        hide TicketProblem, AnchorDay, Equity, ExceedsOpenPositions, Condition;
      }
    }
  }

  lemma LastConditions(cfg: Settings, s: State, t: Ticket, advice: Advice, k: nat)
    requires s.positions.Valid() && 8 <= k <= CONDITIONS
    requires FailsAt(cfg, s, t, advice, k) || (k == CONDITIONS && Passes(cfg, s, t, advice, k))
    ensures k > 8 ==> Condition(cfg, s, t, advice, 8)
    ensures k > 9 ==> Condition(cfg, s, t, advice, 9)
    ensures k > 10 ==> Condition(cfg, s, t, advice, 10)
    ensures k < CONDITIONS ==> !Condition(cfg, s, t, advice, k)
  {
    hide Condition;
  }

  // An order is filled exactly when all eleven conditions hold, and then at its own price.
  lemma AcceptedIff(cfg: Settings, s: State, t: Ticket, advice: Advice)
    requires s.positions.Valid()
    ensures var r := Submit(cfg, s, t, advice);
      && (r.reply.Accepted? <==> forall k :: 0 <= k < CONDITIONS ==> Condition(cfg, s, t, advice, k))
      && (r.reply.Accepted? ==>
            && r.reply.fill == Fill(t.id, t.symbol, t.side, t.quantity, t.price, t.timestamp, t.quantity * t.price)
            && r.state.fills == s.fills + [r.reply.fill])
  {
    hide Condition, Admit, Book, Reasons;
    var k := PassesOrFails(cfg, s, t, advice, CONDITIONS);
    AdmitBy(cfg, s, t, advice, k);
    AdmitKeeps(cfg, s, t, advice);
    BookKeeps(cfg, Admit(cfg, s, t, advice).0, t);
  }

  // A refused order is given the reason of the first condition that fails.
  lemma FirstReason(cfg: Settings, s: State, t: Ticket, advice: Advice, k: nat)
    requires s.positions.Valid() && FailsAt(cfg, s, t, advice, k)
    ensures Submit(cfg, s, t, advice).reply == Refused(Reasons(advice, k))
  {
    hide Condition, Admit, Book, Passes;
    AdmitBy(cfg, s, t, advice, k);
  }

  // What a submission leaves: a refusal touches no cash, position or fill; the kill switch is turned on
  // by a killed manager, by a manager's veto that asks for it, or by a fill at the loss cap, and by
  // nothing else; the day is anchored from condition 8 on.
  lemma SubmissionLeaves(cfg: Settings, s: State, t: Ticket, advice: Advice, k: nat)
    requires s.positions.Valid()
    requires FailsAt(cfg, s, t, advice, k) || (k == CONDITIONS && Passes(cfg, s, t, advice, k))
    ensures var u := Submit(cfg, s, t, advice).state;
      && u.positions.Valid()
      && (k < CONDITIONS ==>
            u == s.(dayStart := u.dayStart, currentDay := u.currentDay, peak := u.peak, killed := u.killed))
      && (u.killed <==> s.killed || k == 1 || (k == 10 && advice.killSwitch)
                        || (k == CONDITIONS && Equity(u) <= u.dayStart - cfg.dailyLossCap))
      && (if k < 8 then u.currentDay == s.currentDay && u.dayStart == s.dayStart && u.peak == s.peak
          else
            && u.currentDay == Some(t.timestamp / 86_400_000_000_000)
            && u.dayStart == (if s.currentDay == u.currentDay then s.dayStart else Equity(s)))
  {
    hide Condition, Admit, Passes, Reasons;
    AdmitBy(cfg, s, t, advice, k);
    AdmitKeeps(cfg, s, t, advice);
    if k == CONDITIONS {
      BookSwitch(cfg, Admit(cfg, s, t, advice).0, t);
    }
    hide Book;
  }

  lemma BookSwitch(cfg: Settings, a: State, t: Ticket)
    requires a.positions.Valid()
    ensures var u := Book(cfg, a, t);
      && u.positions.Valid() && u.dayStart == a.dayStart && u.currentDay == a.currentDay
      && (u.killed <==> a.killed || Equity(u) <= a.dayStart - cfg.dailyLossCap)
  {
    BookKeeps(cfg, a, t);
    hide ApplyFill, Sum;
  }
}
