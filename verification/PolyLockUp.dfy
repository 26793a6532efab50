/** Which positions the monitor can still bring to an end, and exactly when the others lock the desk up. */
module PolyLockUp {
  import opened Prelude
  import opened PolyPositions
  import opened Opportunities
  import opened PolyExecutor
  import opened PolyMonitor
  import opened PolyRuns
  import opened PolyPayoff
  import opened PolyClosing
  import opened PolySales
  import opened PolyBuyLow

  // ----- Positions out of reach -----

  // The monitor finds a token of this record to sell.
  predicate HasToken(r: PositionRecord) {
    (r.legs in {Yes, YesAndNo} && r.yesToken != "") || (r.legs in {No, YesAndNo} && r.noToken != "")
  }

  lemma HasTokenIff(r: PositionRecord, bids: (real, real))
    ensures HasToken(r) <==> TokensToSell(r, bids) != []
  {
  }

  // Waiting to be sold, with nothing the monitor would sell.
  predicate Stuck(cfg: Config, r: PositionRecord) {
    r.status in {Closing, Unhedged} && (cfg.dryRun || !HasToken(r))
  }

  // ----- One step -----

  // Closing a position ends it only by moving it to closed.
  lemma CloseEndsByClosing(cfg: Config, script: Script, w: World, p: PositionRecord, bids: Option<(real, real)>,
          now: int)
    requires StatusOf(w.book, p.id).Some?
    ensures var s := StatusOf(ClosePosition(cfg, script, w, p, bids, now).0.book, p.id);
      && s.Some?
      && (!Active(StatusOf(w.book, p.id).value) ==> s == StatusOf(w.book, p.id))
      && (Active(StatusOf(w.book, p.id).value) && s.value != Closed ==> Active(s.value))
  {
    hide SellTo, Transition, ContractsPerLeg, HeldContracts, Round4, Round6, TokensToSell, StatusOf;
    TransitionStatus(w.book, p.id, Closing, NoPatch);
    var marked := if p.status != Closing then World(Transition(w.book, p.id, Closing, NoPatch).0, w.venue) else w;
    if !cfg.dryRun && bids.Some? {
      var tokens := TokensToSell(p, bids.value);
      var (v, proceeds, all) := SellTo(cfg, script, marked.venue, tokens, ContractsPerLeg(p, |tokens|), |tokens|);
      var exit := proceeds / Max(HeldContracts(p, 1.0), 0.000000001);
      TransitionStatus(marked.book, p.id, Closed, Settlement(Round4(proceeds - p.sizeUsdc), Round6(exit), now));
    }
  }

  // The step ends a position: its market is found resolved or past its end while it is open, or it
  // is sold and closed.
  ghost predicate Ends(cfg: Config, script: Script, w: World, u: World, p: PositionRecord, t: Tick) {
    || (StatusOf(w.book, p.id) == Some(Open) && p.status != Closing && (FoundResolved(t) || GoesStale(p, t)))
    || ClosesRecord(cfg, script, w, u, p, t)
  }

  // Exactly when a monitor step on any snapshot of an active record takes it off the active ones.
  lemma EndsIff(cfg: Config, script: Script, w: World, p: PositionRecord, t: Tick)
    requires StatusOf(w.book, p.id).Some? && Active(StatusOf(w.book, p.id).value)
    ensures var u := MonitorOne(cfg, script, w, p, t);
      && StatusOf(u.book, p.id).Some?
      && (!Active(StatusOf(u.book, p.id).value) <==> Ends(cfg, script, w, u, p, t))
  {
    hide ClosePosition, MonitorOne, BeforeClosing, StatusOf, ComputeUnrealized, ReasonToClose, GoesStale, TokensToSell,
        ReadableAcceptances;
    ClosedIff(cfg, script, w, p, t);
    StepFromClosing(cfg, script, w, p, t);
    var before := BeforeClosing(w, p, t);
    if p.status != Closing && FoundResolved(t) {
      ResolvedStatus(w, p, t);
    } else {
      StatusBeforeClosing(w, p, t);
      CloseEndsByClosing(cfg, script, before, p, t.closeBids, t.now);
    }
  }

  // ----- What may happen next -----

  // What may happen next on this book: a call at quoted prices, or a monitor step on a state of the
  // record it names, however old.
  ghost predicate Allowed(b: Book, a: Action) {
    if a.Call? then a.opp.PricesQuoted()
    else forall i :: 0 <= i < |b.records| && b.records[i].id == a.snapshot.id ==> SameTrade(a.snapshot, b.records[i])
  }

  // A monitor step leaves a stuck record stuck.
  lemma StuckStep(cfg: Config, script: Script, w: World, a: Action, i: nat)
    requires WorldOk(cfg, w) && Allowed(w.book, a) && a.Observe? && i < |w.book.records|
        && Stuck(cfg, w.book.records[i])
    ensures var u := Next(cfg, script, w, a).0; i < |u.book.records| && Stuck(cfg, u.book.records[i])
  {
    hide MonitorOne, BookOk, StatusOf, ActiveCount, TriesToSell, CanBook, ReadableAcceptances, Bought, TotalUsdc;
    var r, u := w.book.records[i], MonitorOne(cfg, script, w, a.snapshot, a.tick);
    ObserveKeepsWorld(cfg, script, w, a);
    assert RecordProgressed(r, u.book.records[i]);
    OkIsUnique(w.book);
    OkIsUnique(u.book);
    if a.snapshot.id == r.id {
      StatusAt(w.book, i);
      StatusAt(u.book, i);
      EndsIff(cfg, script, w, a.snapshot, a.tick);
      NoSaleOfStuck(cfg, a.snapshot, r, a.tick);
    } else {
      MonitorTouchesOne(cfg, script, w, a.snapshot, a.tick);
    }
  }

  lemma NoSaleOfStuck(cfg: Config, p: PositionRecord, r: PositionRecord, t: Tick)
    requires SameTrade(p, r) && Stuck(cfg, r)
    ensures !TriesToSell(cfg, p, t)
  {
    if t.closeBids.Some? {
      HasTokenIff(p, t.closeBids.value);
    }
    hide ReasonToClose, ComputeUnrealized;
  }

  lemma CallStep(cfg: Config, script: Script, w: World, a: Action)
    requires cfg.Valid() && WorldOk(cfg, w) && Allowed(w.book, a) && a.Call?
    ensures var u := Next(cfg, script, w, a).0;
      WorldOk(cfg, u) && |w.book.records| <= |u.book.records| && u.book.records[..|w.book.records|] == w.book.records
  {
    hide Execute, BookOk, ActiveCount, TotalUsdc, Bought, Progressed;
    CallKeepsWorld(cfg, script, w, a);
    ExecuteOutcome(cfg, script, a.paused, w, a.opp, a.env);
  }

  lemma StuckAlways(cfg: Config, script: Script, w: World, a: Action, i: nat)
    requires cfg.Valid() && WorldOk(cfg, w) && Allowed(w.book, a) && i < |w.book.records|
        && Stuck(cfg, w.book.records[i])
    ensures var u := Next(cfg, script, w, a).0; i < |u.book.records| && Stuck(cfg, u.book.records[i])
  {
    hide Next, WorldOk, Stuck, Allowed;
    if a.Call? {
      CallStep(cfg, script, w, a);
      assert Next(cfg, script, w, a).0.book.records[i] == w.book.records[i];
    } else {
      StuckStep(cfg, script, w, a, i);
    }
  }

  lemma StepKeepsWorld(cfg: Config, script: Script, w: World, a: Action)
    requires cfg.Valid() && WorldOk(cfg, w) && Allowed(w.book, a)
    ensures WorldOk(cfg, Next(cfg, script, w, a).0)
  {
    hide Next, WorldOk;
    if a.Call? {
      CallStep(cfg, script, w, a);
    } else {
      ObserveKeepsWorld(cfg, script, w, a);
    }
  }

  // ----- One record -----

  // After some of these actions record i is no longer active.
  ghost predicate EndsLater(cfg: Config, script: Script, w: World, actions: seq<Action>, i: nat)
    requires i < |w.book.records|
    decreases |actions|
  {
    !Active(w.book.records[i].status)
    || (actions != [] && Allowed(w.book, actions[0])
        && var u := Next(cfg, script, w, actions[0]).0;
        i < |u.book.records| && EndsLater(cfg, script, u, actions[1..], i))
  }

  lemma {:induction false} StuckNeverEnds(cfg: Config, script: Script, w: World, actions: seq<Action>, i: nat)
    requires cfg.Valid() && WorldOk(cfg, w) && i < |w.book.records| && Stuck(cfg, w.book.records[i])
    ensures !EndsLater(cfg, script, w, actions, i)
    decreases |actions|
  {
    hide Next, WorldOk, Allowed;
    if actions != [] && Allowed(w.book, actions[0]) {
      StepKeepsWorld(cfg, script, w, actions[0]);
      StuckAlways(cfg, script, w, actions[0], i);
      StuckNeverEnds(cfg, script, Next(cfg, script, w, actions[0]).0, actions[1..], i);
    }
  }

  // What ends a record that is not stuck: the resolution of its market while it is open, and otherwise
  // a sale after the maximum holding time.
  function EndingTick(cfg: Config, r: PositionRecord): Tick {
    var late := r.openedAt + cfg.maxHoldHours * 3600;
    if r.status == Open then Tick(None, None, Some(MarketDetail(true, YesWon, NotSupplied)), None, late)
    else Tick(None, None, None, Some((0.0, 0.0)), late)
  }

  // A venue that accepts everything.
  const OBLIGING: Script := (attempt: nat) => Accept(Missing)

  lemma {:induction false} ObligingSells(cfg: Config, v: Venue, tokens: seq<(string, real)>, contracts: real, n: nat)
    requires n <= |tokens|
    ensures SellTo(cfg, OBLIGING, v, tokens, contracts, n).2
  {
    if n > 0 {
      ObligingSells(cfg, v, tokens, contracts, n - 1);
      hide LegUsdc, FillPrice;
    }
  }

  lemma NonStuckEnds(cfg: Config, w: World, i: nat)
    requires cfg.Valid() && WorldOk(cfg, w) && i < |w.book.records|
    requires Active(w.book.records[i].status) && !Stuck(cfg, w.book.records[i])
    ensures var r := w.book.records[i];
      var u := MonitorOne(cfg, OBLIGING, w, r, EndingTick(cfg, r));
      && i < |u.book.records| && !Active(u.book.records[i].status)
      && Allowed(w.book, Observe(r, EndingTick(cfg, r)))
  {
    hide MonitorOne, BookOk, StatusOf, ActiveCount, Bought, TotalUsdc;
    OkIsUnique(w.book);
    var r := w.book.records[i];
    var t := EndingTick(cfg, r);
    StatusAt(w.book, i);
    if r.status == Open {
      MonitorResolves(cfg, OBLIGING, w, i, t);
    } else {
      HasTokenIff(r, (0.0, 0.0));
      var tokens := TokensToSell(r, (0.0, 0.0));
      StepFromClosing(cfg, OBLIGING, w, r, t);
      CloseSells(cfg, OBLIGING, BeforeClosing(w, r, t), r, (0.0, 0.0), t.now);
      StatusBeforeClosing(w, r, t);
      ObligingSells(cfg, BeforeClosing(w, r, t).venue, tokens, ContractsPerLeg(r, |tokens|), |tokens|);
      MonitorTouchesOne(cfg, OBLIGING, w, r, t);
      MonitorOneMonitors(cfg, OBLIGING, w, r, t);
      hide BeforeClosing, SellTo, TokensToSell, ContractsPerLeg, ClosePosition, ComputeUnrealized;
      OkIsUnique(MonitorOne(cfg, OBLIGING, w, r, t).book);
      StatusAt(MonitorOne(cfg, OBLIGING, w, r, t).book, i);
    }
  }

  // Some venue and some continuation take record i off the active ones.
  ghost predicate CanEnd(cfg: Config, w: World, i: nat)
    requires i < |w.book.records|
  {
    exists script, actions :: EndsLater(cfg, script, w, actions, i)
  }

  // In every reachable state an active record can still be ended exactly when it is open, or trading
  // is live and the monitor finds a token of it to sell.
  lemma CanEndIff(d: Desk, n: nat, i: nat)
    requires d.Valid() && n <= |d.actions| && i < |d.At(n).book.records| && Active(d.At(n).book.records[i].status)
    ensures var r := d.At(n).book.records[i];
      CanEnd(d.cfg, d.At(n), i) <==> r.status == Open || (!d.cfg.dryRun && HasToken(r))
  {
    hide Desk.At, WorldOk, EndsLater;
    var w := d.At(n);
    AlwaysOk(d, n);
    if Stuck(d.cfg, w.book.records[i]) {
      forall script, actions ensures !EndsLater(d.cfg, script, w, actions, i) {
        StuckNeverEnds(d.cfg, script, w, actions, i);
      }
    } else {
      EndsAtOnce(d.cfg, w, i);
    }
  }

  lemma EndsAtOnce(cfg: Config, w: World, i: nat)
    requires cfg.Valid() && WorldOk(cfg, w) && i < |w.book.records|
    requires Active(w.book.records[i].status) && !Stuck(cfg, w.book.records[i])
    ensures CanEnd(cfg, w, i)
  {
    hide MonitorOne, WorldOk, Allowed;
    var r := w.book.records[i];
    NonStuckEnds(cfg, w, i);
    var actions := [Observe(r, EndingTick(cfg, r))];
    assert EndsLater(cfg, OBLIGING, Next(cfg, OBLIGING, w, actions[0]).0, actions[1..], i);
    assert EndsLater(cfg, OBLIGING, w, actions, i);
  }

  // ----- The whole desk -----

  function StuckCount(cfg: Config, records: seq<PositionRecord>): nat {
    if records == [] then 0
    else StuckCount(cfg, records[..|records| - 1]) + if Stuck(cfg, records[|records| - 1]) then 1 else 0
  }

  lemma {:induction false} StuckAreActive(cfg: Config, records: seq<PositionRecord>)
    ensures StuckCount(cfg, records) <= ActiveCount(records)
  {
    if records != [] {
      StuckAreActive(cfg, records[..|records| - 1]);
    }
  }

  lemma {:induction false} StuckCountMonotone(cfg: Config, a: seq<PositionRecord>, b: seq<PositionRecord>)
    requires |a| <= |b| && forall i :: 0 <= i < |a| && Stuck(cfg, a[i]) ==> Stuck(cfg, b[i])
    ensures StuckCount(cfg, a) <= StuckCount(cfg, b)
    decreases |b|
  {
    hide Stuck;
    if |a| < |b| {
      StuckCountMonotone(cfg, a, b[..|b| - 1]);
    } else if a != [] {
      StuckCountMonotone(cfg, a[..|a| - 1], b[..|b| - 1]);
    }
  }

  // When the stuck records do not account for all active ones, some active record is not stuck.
  lemma {:induction false} SomeNotStuck(cfg: Config, records: seq<PositionRecord>) returns (i: nat)
    requires StuckCount(cfg, records) < ActiveCount(records)
    ensures i < |records| && Active(records[i].status) && !Stuck(cfg, records[i])
  {
    i := |records| - 1;
    if !Active(records[i].status) || Stuck(cfg, records[i]) {
      i := SomeNotStuck(cfg, records[..i]);
    }
  }

  // Ending a record that is not stuck frees one slot.
  lemma {:induction false} EndingFreesSlot(cfg: Config, a: seq<PositionRecord>, b: seq<PositionRecord>, i: nat)
    requires |a| == |b| && i < |a| && forall k :: 0 <= k < |a| && k != i ==> b[k] == a[k]
    requires Active(a[i].status) && !Stuck(cfg, a[i]) && !Active(b[i].status)
    ensures ActiveCount(b) == ActiveCount(a) - 1 && StuckCount(cfg, b) == StuckCount(cfg, a)
  {
    if i < |a| - 1 {
      EndingFreesSlot(cfg, a[..|a| - 1], b[..|b| - 1], i);
    } else {
      assert a[..i] == b[..i];
    }
  }

  // Along these actions some call adds a record.
  ghost predicate TradesLater(cfg: Config, script: Script, w: World, actions: seq<Action>)
    decreases |actions|
  {
    && actions != [] && Allowed(w.book, actions[0])
    && var u := Next(cfg, script, w, actions[0]).0;
    (actions[0].Call? && |u.book.records| > |w.book.records|) || TradesLater(cfg, script, u, actions[1..])
  }

  lemma CountOfStuck(cfg: Config, script: Script, w: World, a: Action)
    requires cfg.Valid() && WorldOk(cfg, w) && Allowed(w.book, a)
    ensures StuckCount(cfg, w.book.records) <= StuckCount(cfg, Next(cfg, script, w, a).0.book.records)
  {
    hide Next, WorldOk, Allowed, Stuck;
    var u := Next(cfg, script, w, a).0;
    if a.Call? {
      CallStep(cfg, script, w, a);
    } else {
      ObserveKeepsWorld(cfg, script, w, a);
    }
    forall i | 0 <= i < |w.book.records| && Stuck(cfg, w.book.records[i]) ensures Stuck(cfg, u.book.records[i]) {
      StuckAlways(cfg, script, w, a, i);
    }
    StuckCountMonotone(cfg, w.book.records, u.book.records);
  }

  // A call on a desk whose slots are all taken is refused and changes nothing.
  lemma FullDeskRefuses(cfg: Config, script: Script, w: World, a: Action)
    requires ActiveCount(w.book.records) >= cfg.maxPositions && a.Call?
    ensures var (u, ending) := Next(cfg, script, w, a); u == w && ending.Some? && ending.value.Refused?
  {
    hide ActiveCount, DailyPnl, TwoLegs, Correlated, Carry;
  }

  lemma {:induction false} LockedNeverTrades(cfg: Config, script: Script, w: World, actions: seq<Action>)
    requires cfg.Valid() && WorldOk(cfg, w) && StuckCount(cfg, w.book.records) >= cfg.maxPositions
    ensures !TradesLater(cfg, script, w, actions)
    decreases |actions|
  {
    hide Next, WorldOk, Allowed, StuckCount, ActiveCount;
    if actions != [] && Allowed(w.book, actions[0]) {
      var a := actions[0];
      StuckAreActive(cfg, w.book.records);
      StepKeepsWorld(cfg, script, w, a);
      CountOfStuck(cfg, script, w, a);
      if a.Call? {
        FullDeskRefuses(cfg, script, w, a);
      }
      LockedNeverTrades(cfg, script, Next(cfg, script, w, a).0, actions[1..]);
    }
  }

  lemma {:induction false} DryRunNeverTrades(cfg: Config, script: Script, w: World, actions: seq<Action>)
    requires cfg.dryRun && cfg.Valid() && WorldOk(cfg, w)
    ensures !TradesLater(cfg, script, w, actions)
    decreases |actions|
  {
    hide MonitorOne, WorldOk, Allowed, TwoLegs, Correlated, Carry;
    if actions != [] && Allowed(w.book, actions[0]) {
      StepKeepsWorld(cfg, script, w, actions[0]);
      DryRunNeverTrades(cfg, script, Next(cfg, script, w, actions[0]).0, actions[1..]);
    }
  }

  // ----- How a desk with a slot left trades -----

  // A day on which no record was opened, and on which there is therefore no loss yet.
  function NewDay(records: seq<PositionRecord>): int {
    if records == [] then 0
    else
      var day := records[|records| - 1].openedAt / SECONDS_PER_DAY + 1;
      if NewDay(records[..|records| - 1]) > day then NewDay(records[..|records| - 1]) else day
  }

  lemma {:induction false} NoLossOnNewDay(records: seq<PositionRecord>, today: int)
    requires today >= NewDay(records)
    ensures DailyPnl(records, today) == 0.0
  {
    if records != [] {
      NoLossOnNewDay(records[..|records| - 1], today);
    }
  }

  function NewTrade(cfg: Config, records: seq<PositionRecord>): Action {
    Call(false,
         Opportunity(CorrelatedMarkets, cfg.minEdgePct, High, "c", "low", "", "high", 0.5, 0.5, cfg.minVolume24h),
         Surroundings(None, 0.0, true, true, NewDay(records) * SECONDS_PER_DAY))
  }

  lemma FreeSlotTrades(cfg: Config, w: World)
    requires cfg.Valid() && !cfg.dryRun && ActiveCount(w.book.records) < cfg.maxPositions
    ensures var a := NewTrade(cfg, w.book.records);
      Allowed(w.book, a) && |Next(cfg, OBLIGING, w, a).0.book.records| > |w.book.records|
  {
    var a := NewTrade(cfg, w.book.records);
    NoLossOnNewDay(w.book.records, NewDay(w.book.records));
    assert a.env.Today() == NewDay(w.book.records);
    hide ActiveCount, DailyPnl, NewDay;
  }

  // Ends records that are not stuck until a slot is free, and then trades.
  lemma {:induction false} TradesAgain(cfg: Config, w: World) returns (actions: seq<Action>)
    requires cfg.Valid() && !cfg.dryRun && WorldOk(cfg, w) && StuckCount(cfg, w.book.records) < cfg.maxPositions
    ensures TradesLater(cfg, OBLIGING, w, actions)
    decreases ActiveCount(w.book.records)
  {
    hide Next, WorldOk, Allowed, StuckCount, ActiveCount;
    if ActiveCount(w.book.records) < cfg.maxPositions {
      FreeSlotTrades(cfg, w);
      actions := [NewTrade(cfg, w.book.records)];
    } else {
      var i := SomeNotStuck(cfg, w.book.records);
      var a := Observe(w.book.records[i], EndingTick(cfg, w.book.records[i]));
      EndingStep(cfg, w, i);
      var rest := TradesAgain(cfg, Next(cfg, OBLIGING, w, a).0);
      actions := [a] + rest;
      assert actions[1..] == rest;
    }
  }

  lemma EndingStep(cfg: Config, w: World, i: nat)
    requires cfg.Valid() && WorldOk(cfg, w) && i < |w.book.records|
    requires Active(w.book.records[i].status) && !Stuck(cfg, w.book.records[i])
    ensures var a := Observe(w.book.records[i], EndingTick(cfg, w.book.records[i]));
      var u := Next(cfg, OBLIGING, w, a).0;
      && Allowed(w.book, a) && WorldOk(cfg, u)
      && ActiveCount(u.book.records) < ActiveCount(w.book.records)
      && StuckCount(cfg, u.book.records) == StuckCount(cfg, w.book.records)
  {
    hide MonitorOne, BookOk, Stuck, StuckCount, ActiveCount, Bought, TotalUsdc;
    var r := w.book.records[i];
    var a := Observe(r, EndingTick(cfg, r));
    NonStuckEnds(cfg, w, i);
    ObserveKeepsWorld(cfg, OBLIGING, w, a);
    MonitorTouchesOne(cfg, OBLIGING, w, r, a.tick);
    OkIsUnique(w.book);
    EndingFreesSlot(cfg, w.book.records, Next(cfg, OBLIGING, w, a).0.book.records, i);
  }

  // Some venue and some continuation bring another trade.
  ghost predicate CanTradeAgain(cfg: Config, w: World) {
    exists script, actions :: TradesLater(cfg, script, w, actions)
  }

  // In every reachable state a desk can still trade exactly when trading is live and its stuck records
  // leave a slot of the position cap.
  lemma DeskTradesAgainIff(d: Desk, n: nat)
    requires d.Valid() && n <= |d.actions|
    ensures CanTradeAgain(d.cfg, d.At(n))
            <==> !d.cfg.dryRun && StuckCount(d.cfg, d.At(n).book.records) < d.cfg.maxPositions
  {
    hide Desk.At, WorldOk, StuckCount, TradesLater;
    var w := d.At(n);
    AlwaysOk(d, n);
    if !d.cfg.dryRun && StuckCount(d.cfg, w.book.records) < d.cfg.maxPositions {
      var actions := TradesAgain(d.cfg, w);
    } else {
      forall script, actions ensures !TradesLater(d.cfg, script, w, actions) {
        if d.cfg.dryRun {
          DryRunNeverTrades(d.cfg, script, w, actions);
        } else {
          LockedNeverTrades(d.cfg, script, w, actions);
        }
      }
    }
  }

  // ----- The same within one run -----

  // Monitor steps on records loaded from the ledger, however long ago, are allowed.
  lemma HonestIsAllowed(d: Desk, n: nat)
    requires d.Valid() && HonestSnapshots(d) && n < |d.actions|
    ensures Allowed(d.At(n).book, d.actions[n])
  {
    hide Desk.At, HonestSnapshots;
    if d.actions[n].Observe? {
      forall i | 0 <= i < |d.At(n).book.records| && d.At(n).book.records[i].id == d.actions[n].snapshot.id
        ensures SameTrade(d.actions[n].snapshot, d.At(n).book.records[i])
      {
        SnapshotOfRecord(d, n, i);
      }
    }
  }

  // A closing or unhedged record without a token to sell stays so, and keeps its slot, for ever.
  lemma {:induction false} StuckIsForever(d: Desk, m: nat, n: nat, i: nat)
    requires d.Valid() && HonestSnapshots(d) && m <= n <= |d.actions|
    requires i < |d.At(m).book.records| && Stuck(d.cfg, d.At(m).book.records[i])
    ensures i < |d.At(n).book.records| && Stuck(d.cfg, d.At(n).book.records[i])
  {
    hide Next, WorldOk, Stuck, Allowed, HonestSnapshots;
    if m < n {
      StuckIsForever(d, m, n - 1, i);
      AlwaysOk(d, n - 1);
      HonestIsAllowed(d, n - 1);
      StuckAlways(d.cfg, d.script, d.At(n - 1), d.actions[n - 1], i);
    }
  }

  // As soon as the stuck positions fill the position cap, the desk never trades again: no later call
  // adds a record or buys anything.
  lemma DeskLocksUp(d: Desk, m: nat, n: nat)
    requires d.Valid() && HonestSnapshots(d) && m <= n < |d.actions|
    requires StuckCount(d.cfg, d.At(m).book.records) >= d.cfg.maxPositions && d.actions[n].Call?
    ensures d.At(n + 1) == d.At(n) && d.EndingOf(n).Some? && d.EndingOf(n).value.Refused?
  {
    hide StuckCount, Stuck, HonestSnapshots, ActiveCount, Next;
    TerminalIsForever(d, m, n);
    forall i | 0 <= i < |d.At(m).book.records| && Stuck(d.cfg, d.At(m).book.records[i])
      ensures Stuck(d.cfg, d.At(n).book.records[i])
    {
      StuckIsForever(d, m, n, i);
    }
    StuckCountMonotone(d.cfg, d.At(m).book.records, d.At(n).book.records);
    StuckAreActive(d.cfg, d.At(n).book.records);
    FullDeskRefuses(d.cfg, d.script, d.At(n), d.actions[n]);
  }
}
