/** The analytics replay of a paper session's fill log against the live ledger of the session. */
module PaperReplay {
  import opened Prelude
  import opened Dicts
  import E = PaperExecutor
  import opened PaperSessions
  import P = PerformanceLayer
  import opened Sorting

  // ----- The ledger as a fold of its own fill log -----

  function Strip(p: E.Position): E.Position {
    p.(unrealizedPnl := 0.0)
  }

  // The position in one symbol after the first n fills, without its mark.
  function LogPosition(log: seq<E.Fill>, symbol: string, n: nat): E.Position
    requires n <= |log|
  {
    if n == 0 then E.NO_POSITION
    else if log[n - 1].symbol == symbol then Strip(E.FillInto(LogPosition(log, symbol, n - 1), log[n - 1]))
    else LogPosition(log, symbol, n - 1)
  }

  lemma {:induction false} LogPrefix(log: seq<E.Fill>, f: E.Fill, symbol: string, n: nat)
    requires n <= |log|
    ensures LogPosition(log + [f], symbol, n) == LogPosition(log, symbol, n)
  {
    if n > 0 {
      LogPrefix(log, f, symbol, n - 1);
    }
  }

  ghost predicate LedgerIs(s: E.State, symbol: string) {
    Strip(s.positions.Get(symbol, E.NO_POSITION)) == LogPosition(s.fills, symbol, |s.fills|)
  }

  lemma StripCommutes(p: E.Position, f: E.Fill)
    ensures Strip(E.FillInto(p, f)) == Strip(E.FillInto(Strip(p), f))
  {
    hide WeightedAverage, Gain;
  }

  lemma BookExtendsLog(cfg: E.Settings, s: E.State, t: E.Ticket, symbol: string)
    requires s.positions.Valid() && LedgerIs(s, symbol)
    ensures LedgerIs(E.Book(cfg, s, t), symbol)
  {
    hide E.Equity, E.FillInto, E.CashFlow;
    LogPrefix(s.fills, E.BrokerFill(t), symbol, |s.fills|);
    StripCommutes(s.positions.Get(symbol, E.NO_POSITION), E.BrokerFill(t));
  }

  lemma NextKeepsLedger(cfg: E.Settings, s: E.State, e: Event, symbol: string)
    requires s.positions.Valid() && e.Valid() && LedgerIs(s, symbol)
    ensures LedgerIs(Next(cfg, s, e), symbol)
  {
    hide E.NewMarks, E.Equity, LogPosition, E.Mark, Gain;
    if e.Place? {
      E.AdmitKeeps(cfg, s, e.ticket, e.advice);
      BookExtendsLog(cfg, E.Admit(cfg, s, e.ticket, e.advice).0, e.ticket, symbol);
      hide E.Admit, E.Book;
    }
  }

  // Quantities, averages and realised P&L change by logged fills only: the ledger is the fold of the log.
  lemma {:induction false} LedgerIsFoldOfLog(run: Session, n: nat, symbol: string)
    requires run.Valid() && n <= |run.events|
    ensures LedgerIs(run.At(n), symbol)
  {
    hide LedgerIs, Session.At, Next, Event.Valid;
    if n == 0 {
      FreshLedger(run, symbol);
    } else {
      LedgerIsFoldOfLog(run, n - 1, symbol);
      Unfold(run, n);
      NextKeepsLedger(run.cfg, run.At(n - 1), run.events[n - 1], symbol);
    }
  }

  lemma FreshLedger(run: Session, symbol: string)
    requires run.Valid()
    ensures LedgerIs(run.At(0), symbol)
  {
  }

  // Every logged fill came from an admitted order.
  ghost predicate ProperFill(f: E.Fill) {
    f.side != E.Invalid && f.quantity > 0.0 && f.price > 0.0 && f.symbol != ""
  }

  lemma {:induction false} LogIsProper(run: Session, n: nat)
    requires run.Valid() && n <= |run.events|
    ensures forall k :: 0 <= k < |run.At(n).fills| ==> ProperFill(run.At(n).fills[k])
  {
    hide Session.At, Next, Event.Valid, ProperFill;
    if n == 0 {
      FreshLog(run);
    } else {
      LogIsProper(run, n - 1);
      Unfold(run, n);
      NextLogsProperly(run.cfg, run.At(n - 1), run.events[n - 1]);
    }
  }

  lemma FreshLog(run: Session)
    requires run.Valid()
    ensures run.At(0).fills == []
  {
  }

  lemma NextLogsProperly(cfg: E.Settings, s: E.State, e: Event)
    requires s.positions.Valid() && e.Valid() && forall k :: 0 <= k < |s.fills| ==> ProperFill(s.fills[k])
    ensures forall k :: 0 <= k < |Next(cfg, s, e).fills| ==> ProperFill(Next(cfg, s, e).fills[k])
  {
    if e.Place? {
      E.AdmitKeeps(cfg, s, e.ticket, e.advice);
      var (a, refusal) := E.Admit(cfg, s, e.ticket, e.advice);
      if refusal.None? {
        AdmittedTicket(cfg, s, e.ticket, e.advice);
        E.BookKeeps(cfg, a, e.ticket);
      }
      hide E.Admit, E.Book;
    }
    hide E.NewMarks, E.Equity;
  }

  // ----- Exporting the log -----

  // How a session's fills are stored: the strategy that trades each symbol and the run id of each
  // fill; and how they are replayed: pooled, with any run ids, or with positions isolated by run.
  datatype Export = Export(strategyOf: map<string, string>, runs: seq<Option<string>>, isolate: bool,
      run: Option<string>) {
    function KeyOf(symbol: string): P.Key
      requires symbol in strategyOf
    {
      (strategyOf[symbol], symbol, if isolate then run else None)
    }
  }

  // A missing and an empty run id are the same.
  function RunOf(runId: Option<string>): Option<string> {
    if runId.GetOr("") == "" then None else runId
  }

  function RowOf(f: E.Fill, ex: Export, k: nat): P.RawFill
    requires f.symbol in ex.strategyOf && k < |ex.runs|
  {
    P.RawFill(Some(f.timestamp), if f.side == E.Buy then P.Buy else P.Sell, f.quantity, f.price,
              f.symbol, ex.strategyOf[f.symbol], ex.runs[k])
  }

  // Every fill has a strategy and a run id, and an isolated replay is of one run.
  ghost predicate Exportable(log: seq<E.Fill>, ex: Export) {
    && (forall k :: 0 <= k < |log| ==> ProperFill(log[k]) && log[k].symbol in ex.strategyOf)
    && (forall s :: s in ex.strategyOf ==> ex.strategyOf[s] != "")
    && |ex.runs| == |log|
    && (ex.isolate ==> forall k :: 0 <= k < |log| ==> RunOf(ex.runs[k]) == ex.run)
  }

  function ExportLog(log: seq<E.Fill>, ex: Export): seq<P.RawFill>
    requires |log| <= |ex.runs| && forall k :: 0 <= k < |log| ==> log[k].symbol in ex.strategyOf
  {
    seq(|log|, k requires 0 <= k < |log| => RowOf(log[k], ex, k))
  }

  lemma {:induction false} ExportNormalizes(log: seq<E.Fill>, ex: Export, contexts: map<string, P.Context>)
    requires |log| <= |ex.runs|
    requires forall k :: 0 <= k < |log| ==> ProperFill(log[k]) && log[k].symbol in ex.strategyOf
    ensures var fills := P.Normalize(ExportLog(log, ex), contexts);
      && |fills| == |log|
      && forall k :: 0 <= k < |log| ==>
           P.Usable(RowOf(log[k], ex, k)) && fills[k] == P.NormalizeRow(RowOf(log[k], ex, k), contexts)
  {
    hide P.NormalizeRow;
    if log != [] {
      var front := log[..|log| - 1];
      ExportNormalizes(front, ex, contexts);
      assert ExportLog(log, ex)[..|log| - 1] == ExportLog(front, ex);
    }
  }

  // ----- Replay and ledger, fill by fill -----

  // The replayed position and P&L of a symbol equal those of the live ledger.
  ghost predicate Matches(live: E.Position, p: P.Position, pnl: real) {
    p.quantity == live.quantity && p.avgPrice == live.avgPrice && pnl == live.realizedPnl
  }

  ghost predicate MatchesAt(log: seq<E.Fill>, fills: seq<P.Fill>, ex: Export, symbol: string, n: nat)
    requires n <= |log| == |fills| && symbol in ex.strategyOf
  {
    var r := P.ReplayAt(fills, ex.isolate, n);
    Matches(LogPosition(log, symbol, n), r.PositionOf(ex.KeyOf(symbol)),
        P.PnlOf(r.outcomes, ex.strategyOf[symbol], symbol))
  }

  ghost predicate NotDust(p: E.Position) {
    p.quantity == 0.0 || p.quantity > EPSILON
  }

  // No live quantity is ever left strictly between zero and EPSILON.
  ghost predicate DustFree(log: seq<E.Fill>, n: nat)
    requires n <= |log|
  {
    forall symbol, k :: 0 <= k <= n ==> NotDust(LogPosition(log, symbol, k))
  }

  lemma {:induction false} LogHoldable(log: seq<E.Fill>, symbol: string, n: nat)
    requires n <= |log| && forall k :: 0 <= k < |log| ==> ProperFill(log[k])
    ensures Holdable(LogPosition(log, symbol, n))
  {
    if n > 0 {
      LogHoldable(log, symbol, n - 1);
      if log[n - 1].symbol == symbol {
        FillConserves(LogPosition(log, symbol, n - 1), log[n - 1]);
      }
    }
  }

  // One fill keeps the two positions equal exactly when it leaves no dust behind.
  lemma FillMatches(live: E.Position, p: P.Position, pnl: real, g: E.Fill, f: P.Fill)
    requires ProperFill(g) && Holdable(live) && NotDust(live) && Matches(live, p, pnl)
    requires f.side == (if g.side == E.Buy then P.Buy else P.Sell) && f.quantity == g.quantity && f.price == g.price
    ensures var (q, outcome) := P.ApplyFill(p, f);
      Matches(E.FillInto(live, g), q, pnl + if outcome.Some? then outcome.value.pnl else 0.0)
      <==> NotDust(E.FillInto(live, g))
  {
    hide Gain, WeightedAverage;
    if g.side == E.Buy {
      AverageFromNothing(live.avgPrice, g.quantity, g.price);
    } else if live.quantity == 0.0 {
      GainOfNothing(g.price, live.avgPrice);
    }
  }

  lemma GainOfNothing(price: real, cost: real)
    ensures Gain(price, cost, 0.0) == 0.0
  {
  }

  // The step at fill n of the two replays of one exported log.
  lemma StepMatches(log: seq<E.Fill>, ex: Export, contexts: map<string, P.Context>, symbol: string, n: nat)
    requires Exportable(log, ex) && symbol in ex.strategyOf && 0 < n <= |log|
    requires |P.Normalize(ExportLog(log, ex), contexts)| == |log|
    requires NotDust(LogPosition(log, symbol, n - 1))
    requires MatchesAt(log, P.Normalize(ExportLog(log, ex), contexts), ex, symbol, n - 1)
    ensures MatchesAt(log, P.Normalize(ExportLog(log, ex), contexts), ex, symbol, n)
        <==> NotDust(LogPosition(log, symbol, n))
  {
    hide P.ApplyFill, E.FillInto, P.ReplayAt, P.PnlOf, P.Normalize;
    ExportNormalizes(log, ex, contexts);
    var fills := P.Normalize(ExportLog(log, ex), contexts);
    var g, f := log[n - 1], fills[n - 1];
    P.ReplayOne(fills, ex.isolate, ex.run, n, ex.strategyOf[symbol], symbol);
    LogHoldable(log, symbol, n - 1);
    if g.symbol == symbol {
      var r := P.ReplayAt(fills, ex.isolate, n - 1);
      FillMatches(LogPosition(log, symbol, n - 1), r.PositionOf(ex.KeyOf(symbol)),
                  P.PnlOf(r.outcomes, ex.strategyOf[symbol], symbol), g, f);
    }
  }

  // The replay agrees with the ledger after each of the first n fills, symbol by symbol.
  ghost predicate AgreesThroughout(log: seq<E.Fill>, ex: Export, contexts: map<string, P.Context>, n: nat)
    requires |log| <= |ex.runs| && forall k :: 0 <= k < |log| ==> log[k].symbol in ex.strategyOf
    requires n <= |log| == |P.Normalize(ExportLog(log, ex), contexts)|
  {
    forall symbol, k :: symbol in ex.strategyOf && 0 <= k <= n ==>
      MatchesAt(log, P.Normalize(ExportLog(log, ex), contexts), ex, symbol, k)
  }

  lemma {:induction false} UntradedSymbol(log: seq<E.Fill>, symbol: string, n: nat)
    requires n <= |log| && forall k :: 0 <= k < |log| ==> log[k].symbol != symbol
    ensures LogPosition(log, symbol, n) == E.NO_POSITION
  {
    if n > 0 {
      UntradedSymbol(log, symbol, n - 1);
    }
  }

  lemma DustFreeStep(log: seq<E.Fill>, ex: Export, n: nat)
    requires Exportable(log, ex) && 0 < n <= |log| && DustFree(log, n - 1)
    requires forall symbol :: symbol in ex.strategyOf ==> NotDust(LogPosition(log, symbol, n))
    ensures DustFree(log, n)
  {
    forall symbol, k | 0 <= k <= n ensures NotDust(LogPosition(log, symbol, k)) {
      if symbol !in ex.strategyOf {
        UntradedSymbol(log, symbol, k);
      }
    }
  }

  // The replay reproduces the live ledger after every fill exactly when no sale or purchase ever
  // leaves a quantity that the replay would treat as dust.
  lemma {:induction false} ReplayExactIffDustFree(log: seq<E.Fill>, ex: Export, contexts: map<string, P.Context>,
          n: nat)
    requires Exportable(log, ex) && n <= |log|
    ensures |P.Normalize(ExportLog(log, ex), contexts)| == |log|
    ensures AgreesThroughout(log, ex, contexts, n) <==> DustFree(log, n)
  {
    hide P.Normalize, NotDust, ProperFill, MatchesAt;
    ExportNormalizes(log, ex, contexts);
    if n == 0 {
      StartMatches(log, ex, contexts);
    } else {
      ReplayExactIffDustFree(log, ex, contexts, n - 1);
      var fills := P.Normalize(ExportLog(log, ex), contexts);
      if DustFree(log, n - 1) {
        forall symbol | symbol in ex.strategyOf
          ensures MatchesAt(log, fills, ex, symbol, n) <==> NotDust(LogPosition(log, symbol, n))
        {
          StepMatches(log, ex, contexts, symbol, n);
        }
        if AgreesThroughout(log, ex, contexts, n) {
          DustFreeStep(log, ex, n);
        }
      }
    }
  }

  lemma StartMatches(log: seq<E.Fill>, ex: Export, contexts: map<string, P.Context>)
    requires Exportable(log, ex) && |P.Normalize(ExportLog(log, ex), contexts)| == |log|
    ensures AgreesThroughout(log, ex, contexts, 0) && DustFree(log, 0)
  {
    hide P.Normalize;
  }

  // ----- Whole sessions -----

  ghost predicate StrictFillTimes(log: seq<E.Fill>) {
    forall i, j :: 0 <= i < j < |log| ==> log[i].timestamp < log[j].timestamp
  }

  // What every session's fill log offers to the replay.
  ghost predicate ReplayableLog(log: seq<E.Fill>, ex: Export) {
    && (forall k :: 0 <= k < |log| ==> log[k].symbol in ex.strategyOf)
    && (forall s :: s in ex.strategyOf ==> ex.strategyOf[s] != "")
    && |ex.runs| == |log|
    && (ex.isolate ==> forall k :: 0 <= k < |log| ==> RunOf(ex.runs[k]) == ex.run)
    && DustFree(log, |log|)
  }

  // The replay of these rows has the live quantity, average and realised P&L of a symbol.
  ghost predicate ReplayMatches(s: E.State, ex: Export, contexts: map<string, P.Context>, rows: seq<P.RawFill>,
          symbol: string)
    requires symbol in ex.strategyOf
  {
    var r := P.ReplayAll(P.OrderedFills(rows, contexts), ex.isolate);
    Matches(s.positions.Get(symbol, E.NO_POSITION), r.PositionOf(ex.KeyOf(symbol)),
        P.PnlOf(r.outcomes, ex.strategyOf[symbol], symbol))
  }

  lemma ReplayOfSession(run: Session, ex: Export, contexts: map<string, P.Context>, rows: seq<P.RawFill>,
          symbol: string)
    requires run.Valid() && symbol in ex.strategyOf && ReplayableLog(run.At(|run.events|).fills, ex)
    requires P.OrderedFills(rows, contexts) == P.Normalize(ExportLog(run.At(|run.events|).fills, ex), contexts)
    ensures ReplayMatches(run.At(|run.events|), ex, contexts, rows, symbol)
  {
    hide P.Normalize, ProperFill, NotDust, LogPosition;
    var log := run.At(|run.events|).fills;
    LogIsProper(run, |run.events|);
    ReplayExactIffDustFree(log, ex, contexts, |log|);
    LedgerIsFoldOfLog(run, |run.events|, symbol);
    assert MatchesAt(log, P.Normalize(ExportLog(log, ex), contexts), ex, symbol, |log|);
  }

  // A session's fills, stored and handed over in any order, replay to the live quantity, average and
  // realised P&L of every traded symbol, over-sized sells and sells on flat symbols included; pooled
  // over any run ids, or isolated when the session is one run.
  lemma ReplayReproducesSession(run: Session, ex: Export, contexts: map<string, P.Context>, rows: seq<P.RawFill>,
          symbol: string)
    requires run.Valid() && symbol in ex.strategyOf && ReplayableLog(run.At(|run.events|).fills, ex)
    requires StrictFillTimes(run.At(|run.events|).fills)
    requires multiset(rows) == multiset(ExportLog(run.At(|run.events|).fills, ex))
    ensures ReplayMatches(run.At(|run.events|), ex, contexts, rows, symbol)
  {
    hide P.Normalize, ProperFill, DustFree, ReplayMatches;
    var log := run.At(|run.events|).fills;
    LogIsProper(run, |run.events|);
    ExportNormalizes(log, ex, contexts);
    P.OrderIrrelevant(ExportLog(log, ex), rows, contexts);
    ReplayOfSession(run, ex, contexts, rows, symbol);
  }

  // Fills at equal times are reproduced too, as long as the log follows the replay's sort key.
  lemma ReplayReproducesInLogOrder(run: Session, ex: Export, contexts: map<string, P.Context>, symbol: string)
    requires run.Valid() && symbol in ex.strategyOf && ReplayableLog(run.At(|run.events|).fills, ex)
    requires Sorted(P.Normalize(ExportLog(run.At(|run.events|).fills, ex), contexts), P.FillLeq)
    ensures ReplayMatches(run.At(|run.events|), ex, contexts, ExportLog(run.At(|run.events|).fills, ex), symbol)
  {
    hide P.Normalize, Sorted, DustFree, ReplayMatches;
    var rows := ExportLog(run.At(|run.events|).fills, ex);
    P.InLogOrderIff(rows, contexts);
    ReplayOfSession(run, ex, contexts, rows, symbol);
  }

  ghost predicate IsLots(quantity: real, lot: real, k: int) {
    quantity == lot * k as real
  }

  ghost predicate InLots(quantity: real, lot: real) {
    exists k :: IsLots(quantity, lot, k)
  }

  lemma LotDifference(x: real, y: real, lot: real)
    requires InLots(x, lot) && InLots(y, lot)
    ensures InLots(x + y, lot) && InLots(x - y, lot)
  {
    var i :| IsLots(x, lot, i);
    var j :| IsLots(y, lot, j);
    assert IsLots(x + y, lot, i + j);
    assert IsLots(x - y, lot, i - j);
  }

  lemma {:induction false} LotsNeverDust(log: seq<E.Fill>, lot: real, symbol: string, n: nat)
    requires lot > EPSILON && n <= |log|
    requires forall k :: 0 <= k < |log| ==> ProperFill(log[k]) && InLots(log[k].quantity, lot)
    ensures InLots(LogPosition(log, symbol, n).quantity, lot) && NotDust(LogPosition(log, symbol, n))
  {
    LogHoldable(log, symbol, n);
    if n == 0 {
      assert IsLots(E.NO_POSITION.quantity, lot, 0);
    } else {
      LotsNeverDust(log, lot, symbol, n - 1);
      var p, f := LogPosition(log, symbol, n - 1), log[n - 1];
      LotDifference(p.quantity, f.quantity, lot);
      LotDifference(p.quantity, p.quantity, lot);
    }
    var k :| IsLots(LogPosition(log, symbol, n).quantity, lot, k);
    if k > 0 {
      MulMono(1.0, k as real, lot);
    } else if k < 0 {
      MulPos(-(k as real), lot);
    }
  }

  // Trading in lots larger than EPSILON is one way to be dust-free.
  lemma LotsAreDustFree(log: seq<E.Fill>, lot: real)
    requires lot > EPSILON
    requires forall k :: 0 <= k < |log| ==> ProperFill(log[k]) && InLots(log[k].quantity, lot)
    ensures DustFree(log, |log|)
  {
    forall symbol, k | 0 <= k <= |log| ensures NotDust(LogPosition(log, symbol, k)) {
      LotsNeverDust(log, lot, symbol, k);
    }
  }
}
