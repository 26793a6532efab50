/** What becomes of a relative-value trade: it holds a YES token that the monitor neither values, sells nor pays out. */
module PolyBuyLow {
  import opened Prelude
  import opened PolyPositions
  import opened Opportunities
  import opened PolyExecutor
  import opened PolyMonitor
  import opened PolyRuns
  import opened PolyPayoff

  // The monitor acted on a record as it stood in the ledger at this or an earlier time.
  ghost predicate TakenFromLedger(d: Desk, n: nat, m: nat, j: nat)
    requires n < |d.actions| && d.actions[n].Observe?
  {
    m <= n && j < |d.At(m).book.records| && d.actions[n].snapshot == d.At(m).book.records[j]
  }

  ghost predicate HonestSnapshots(d: Desk) {
    forall n :: 0 <= n < |d.actions| && d.actions[n].Observe? ==> exists m: nat, j: nat :: TakenFromLedger(d, n, m, j)
  }

  lemma HonestSnapshot(d: Desk, n: nat) returns (m: nat, j: nat)
    requires HonestSnapshots(d) && n < |d.actions| && d.actions[n].Observe?
    ensures TakenFromLedger(d, n, m, j)
  {
    m, j :| TakenFromLedger(d, n, m, j);
  }

  // The two are states of one trade: same legs, tokens and cost.
  predicate SameTrade(p: PositionRecord, r: PositionRecord) {
    p.id == r.id && p.legs == r.legs && p.yesToken == r.yesToken && p.noToken == r.noToken && p.sizeUsdc == r.sizeUsdc
  }

  // A snapshot with a record's id is a snapshot of that record.
  lemma SnapshotOfRecord(d: Desk, n: nat, i: nat)
    requires d.Valid() && HonestSnapshots(d) && n < |d.actions| && d.actions[n].Observe?
    requires i < |d.At(n).book.records| && d.actions[n].snapshot.id == d.At(n).book.records[i].id
    ensures SameTrade(d.actions[n].snapshot, d.At(n).book.records[i])
  {
    hide Desk.At, BookOk;
    var m, j := HonestSnapshot(d, n);
    TerminalIsForever(d, m, n);
    AlwaysOk(d, n);
    OkIsUnique(d.At(n).book);
    assert RecordProgressed(d.At(m).book.records[j], d.At(n).book.records[j]);
    assert i == j;
  }

  // How one monitor step may change a BUY_LOW record.
  ghost predicate BuyLowMove(r: PositionRecord, s: PositionRecord) {
    && (s.status == Closed ==> r.status == Closed)
    && (s.pnl == r.pnl || (s.status == Resolved && s.pnl == Some(Round4(-r.sizeUsdc))))
  }

  lemma BuyLowTransition(b: Book, i: nat, status: Status, patch: Patch)
    requires UniqueIds(b) && i < |b.records| && status != Closed
    requires patch.Settlement? ==> status == Resolved && patch.pnl == Round4(-b.records[i].sizeUsdc)
    ensures var c := Transition(b, b.records[i].id, status, patch).0;
      i < |c.records| && BuyLowMove(b.records[i], c.records[i])
  {
    hide Round4;
    UniqueFirst(b, i);
  }

  // Without a token to sell, closing only moves the record to closing.
  lemma BuyLowClose(cfg: Config, script: Script, w: World, i: nat, p: PositionRecord, bids: Option<(real, real)>,
          now: int)
    requires UniqueIds(w.book) && i < |w.book.records| && p.id == w.book.records[i].id && p.legs == BuyLow
    ensures var c := ClosePosition(cfg, script, w, p, bids, now).0.book;
      i < |c.records| && BuyLowMove(w.book.records[i], c.records[i])
  {
    hide Transition, CloseWith, Round4;
    BuyLowTransition(w.book, i, Closing, NoPatch);
  }

  lemma BuyLowResolution(b: Book, i: nat, p: PositionRecord, detail: MarketDetail, now: int)
    requires UniqueIds(b) && i < |b.records| && p.id == b.records[i].id && p.legs == BuyLow
        && p.sizeUsdc == b.records[i].sizeUsdc
    ensures var c := CheckResolution(b, p, detail, now).0; i < |c.records| && BuyLowMove(b.records[i], c.records[i])
  {
    hide Transition, Round4, HeldContracts;
    if detail.resolved {
      BuyLowTransition(b, i, Resolved,
        Settlement(Round4(ResolutionPnl(p, detail.winner)), if detail.winner == OtherOutcome then 0.0 else 1.0, now));
    } else if EndTime(p, detail).Some? {
      BuyLowTransition(b, i, Stale, EndDate(EndTime(p, detail).value));
    }
  }

  lemma BuyLowMoves(r: PositionRecord, s: PositionRecord, t: PositionRecord)
    requires BuyLowMove(r, s) && BuyLowMove(s, t) && r.sizeUsdc == s.sizeUsdc && RecordProgressed(s, t)
    ensures BuyLowMove(r, t)
  {
  }

  lemma BuyLowMonitored(cfg: Config, script: Script, w: World, i: nat, p: PositionRecord, t: Tick)
    requires BookOk(w.book) && i < |w.book.records|
    requires p.id == w.book.records[i].id && p.legs == BuyLow && p.sizeUsdc == w.book.records[i].sizeUsdc
    ensures var u := MonitorOne(cfg, script, w, p, t);
      i < |u.book.records| && BuyLowMove(w.book.records[i], u.book.records[i])
  {
    hide ClosePosition, CheckResolution, ReasonToClose, ComputeUnrealized, RecordUnrealized, Round4, RecordOk,
        FollowsTable;
    if p.status == Closing {
      BuyLowClose(cfg, script, w, i, p, t.closeBids, t.now);
    } else {
      var (pnl, pct) := ComputeUnrealized(p, t.yesBid.GetOr(0.0), t.noBid.GetOr(0.0));
      var updated := World(RecordUnrealized(w.book, p.id, Round4(pnl), Round4(pct)), w.venue);
      UnrealizedMonitors(w, p.id, Round4(pnl), Round4(pct));
      UnrealizedMoves(w.book, i, Round4(pnl), Round4(pct));
      var r, s := w.book.records[i], updated.book.records[i];
      var checked := updated;
      if t.detail.Some? {
        checked := World(CheckResolution(updated.book, p, t.detail.value, t.now).0, updated.venue);
        BuyLowResolution(updated.book, i, p, t.detail.value, t.now);
        ResolutionMonitors(updated, p, t.detail.value, t.now);
        assert RecordProgressed(s, checked.book.records[i]);
        BuyLowMoves(r, s, checked.book.records[i]);
      }
      var q := checked.book.records[i];
      var closed := ClosePosition(cfg, script, checked, p, t.closeBids, t.now).0;
      BuyLowClose(cfg, script, checked, i, p, t.closeBids, t.now);
      CloseMonitors(cfg, script, checked, p, t.closeBids, t.now);
      assert RecordProgressed(q, closed.book.records[i]);
      BuyLowMoves(r, q, closed.book.records[i]);
    }
  }

  lemma UnrealizedMoves(b: Book, i: nat, pnl: real, pct: real)
    requires UniqueIds(b) && i < |b.records|
    ensures var c := RecordUnrealized(b, b.records[i].id, pnl, pct);
      && i < |c.records| && c.records[i].id == b.records[i].id && c.records[i].sizeUsdc == b.records[i].sizeUsdc
      && c.records[i].status == b.records[i].status && c.records[i].pnl == b.records[i].pnl
  {
    UniqueFirst(b, i);
  }

  // One action of a run, for a BUY_LOW record already on the books.
  lemma BuyLowStep(d: Desk, n: nat, i: nat)
    requires d.Valid() && HonestSnapshots(d) && n < |d.actions|
    requires i < |d.At(n).book.records| && d.At(n).book.records[i].legs == BuyLow
    ensures i < |d.At(n + 1).book.records| && BuyLowMove(d.At(n).book.records[i], d.At(n + 1).book.records[i])
  {
    hide Execute, MonitorOne, BookOk, ActiveCount, BuyLowMove;
    AlwaysOk(d, n);
    var w, a := d.At(n), d.actions[n];
    BuyLowStays(w.book.records[i]);
    if a.Call? {
      ExecuteOutcome(d.cfg, d.script, a.paused, w, a.opp, a.env);
    } else if a.snapshot.id == w.book.records[i].id {
      SnapshotOfRecord(d, n, i);
      BuyLowMonitored(d.cfg, d.script, w, i, a.snapshot, a.tick);
    } else {
      MonitorTouchesOne(d.cfg, d.script, w, a.snapshot, a.tick);
    }
  }

  lemma BuyLowStays(r: PositionRecord)
    ensures BuyLowMove(r, r)
  {
  }

  // A record new at action n carries no P&L yet.
  lemma NewRecordIsFresh(d: Desk, n: nat, i: nat)
    requires d.Valid() && n < |d.actions| && |d.At(n).book.records| <= i < |d.At(n + 1).book.records|
    ensures d.At(n + 1).book.records[i].pnl == None && d.At(n + 1).book.records[i].status in {Open, Unhedged}
  {
    hide Execute, MonitorOne, BookOk, ActiveCount;
    AlwaysOk(d, n);
    var w, a := d.At(n), d.actions[n];
    if a.Call? {
      ExecuteOutcome(d.cfg, d.script, a.paused, w, a.opp, a.env);
    } else {
      MonitorTouchesOne(d.cfg, d.script, w, a.snapshot, a.tick);
    }
  }

  // In every run in which the monitor acts on records it loaded, however long ago, a BUY_LOW position
  // is never closed, and the only P&L ever recorded for it is the loss of its whole cost, whichever
  // outcome wins.
  lemma {:induction false} BuyLowOnlyLoses(d: Desk, n: nat, i: nat)
    requires d.Valid() && HonestSnapshots(d) && n <= |d.actions|
    requires i < |d.At(n).book.records| && d.At(n).book.records[i].legs == BuyLow
    ensures var r := d.At(n).book.records[i];
      r.status != Closed && (r.pnl.Some? ==> r.status == Resolved && r.pnl.value == Round4(-r.sizeUsdc))
  {
    hide Next, Round4, HonestSnapshots;
    if n > 0 {
      if i < |d.At(n - 1).book.records| {
        TerminalIsForever(d, n - 1, n);
        assert RecordProgressed(d.At(n - 1).book.records[i], d.At(n).book.records[i]);
        BuyLowOnlyLoses(d, n - 1, i);
        BuyLowStep(d, n - 1, i);
      } else {
        NewRecordIsFresh(d, n - 1, i);
      }
    }
  }
}
