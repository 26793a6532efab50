/** What the monitor sells, and exactly when a sale is not booked as a close. */
module PolySales {
  import opened Prelude
  import opened PolyPositions
  import opened Opportunities
  import opened PolyExecutor
  import opened PolyMonitor
  import opened PolyRuns
  import opened PolyPayoff
  import opened PolyOrders
  import opened PolyClosing

  // ----- The venue's answers -----

  // How many attempts from `from` up to `to` the venue accepts, and how many of those replies can be read.
  function Acceptances(script: Script, from: nat, to: nat): nat {
    if to <= from then 0 else Acceptances(script, from, to - 1) + if script(to - 1).Accept? then 1 else 0
  }

  function ReadableAcceptances(script: Script, from: nat, to: nat): nat {
    if to <= from then 0
    else
      ReadableAcceptances(script, from, to - 1)
      + if script(to - 1).Accept? && !script(to - 1).price.Unparsable? then 1 else 0
  }

  lemma {:induction false} AcceptancesSplit(script: Script, a: nat, b: nat, c: nat)
    requires a <= b <= c
    ensures Acceptances(script, a, c) == Acceptances(script, a, b) + Acceptances(script, b, c)
    ensures ReadableAcceptances(script, a, c) == ReadableAcceptances(script, a, b) + ReadableAcceptances(script, b, c)
  {
    if b < c {
      AcceptancesSplit(script, a, b, c - 1);
    }
  }

  predicate Readable(reply: Option<ReplyPrice>) {
    reply.Some? && !reply.value.Unparsable?
  }

  lemma {:induction false} PostCounts(script: Script, v: Venue, leg: Leg, tries: nat)
    ensures var (reply, after) := Post(script, v, leg, tries);
      && v.cursor <= after.cursor
      && Acceptances(script, v.cursor, after.cursor) == (if reply.Some? then 1 else 0)
      && ReadableAcceptances(script, v.cursor, after.cursor) == (if Readable(reply) then 1 else 0)
    decreases tries
  {
    if tries > 0 {
      var next := Venue(v.cursor + 1, v.accepted);
      if script(v.cursor).Transient? {
        PostCounts(script, next, leg, tries - 1);
        AcceptancesSplit(script, v.cursor, next.cursor, Post(script, next, leg, tries - 1).1.cursor);
      }
    }
  }

  lemma PlaceCounts(cfg: Config, script: Script, v: Venue, leg: Leg)
    ensures var (reply, after) := PlaceOrder(cfg, script, v, leg);
      && v.cursor <= after.cursor
      && Acceptances(script, v.cursor, after.cursor) == (if reply.Some? then 1 else 0)
      && ReadableAcceptances(script, v.cursor, after.cursor) == (if Readable(reply) then 1 else 0)
  {
    PostCounts(script, v, leg, cfg.maxRetries + 1);
  }

  // A sale gets one leg accepted per acceptance, and fills when there is a readable one for every token.
  lemma {:induction false} SaleCounts(cfg: Config, script: Script, v: Venue, tokens: seq<(string, real)>,
          contracts: real, n: nat)
    requires n <= |tokens|
    ensures var (after, proceeds, all) := SellTo(cfg, script, v, tokens, contracts, n);
      && v.cursor <= after.cursor
      && |after.accepted| == |v.accepted| + Acceptances(script, v.cursor, after.cursor)
      && ReadableAcceptances(script, v.cursor, after.cursor) <= n
      && (all <==> ReadableAcceptances(script, v.cursor, after.cursor) == n)
  {
    hide PlaceOrder, SellLeg, LegUsdc, Acceptances, ReadableAcceptances;
    if n == 0 {
      NoAttempts(script, v.cursor);
    } else {
      SaleCounts(cfg, script, v, tokens, contracts, n - 1);
      var (before, proceeds, all) := SellTo(cfg, script, v, tokens, contracts, n - 1);
      var leg := SellLeg(tokens[n - 1].0, contracts, tokens[n - 1].1);
      PlaceCounts(cfg, script, before, leg);
      PlaceAccepts(cfg, script, before, leg);
      AcceptancesSplit(script, v.cursor, before.cursor, PlaceOrder(cfg, script, before, leg).1.cursor);
    }
  }

  lemma NoAttempts(script: Script, at: nat)
    ensures Acceptances(script, at, at) == 0 == ReadableAcceptances(script, at, at)
  {
  }

  // ----- Statuses -----

  function StatusOf(b: Book, id: nat): Option<Status> {
    var k := FirstFrom(b.records, id, 0);
    if k == |b.records| then None else Some(b.records[k].status)
  }

  lemma {:induction false} SameIdsFirst(a: seq<PositionRecord>, b: seq<PositionRecord>, id: nat, i: nat)
    requires |a| == |b| && i <= |a| && forall k :: 0 <= k < |a| ==> a[k].id == b[k].id
    ensures FirstFrom(a, id, i) == FirstFrom(b, id, i)
    decreases |a| - i
  {
    if i < |a| && a[i].id != id {
      SameIdsFirst(a, b, id, i + 1);
    }
  }

  lemma TransitionStatus(b: Book, id: nat, status: Status, patch: Patch)
    ensures StatusOf(Transition(b, id, status, patch).0, id)
         == var s := StatusOf(b, id); if s.Some? && status in ValidNext(s.value) then Some(status) else s
  {
    SameIdsFirst(b.records, Transition(b, id, status, patch).0.records, id, 0);
  }

  lemma UnrealizedStatus(b: Book, id: nat, pnl: real, pct: real)
    ensures StatusOf(RecordUnrealized(b, id, pnl, pct), id) == StatusOf(b, id)
  {
    SameIdsFirst(b.records, RecordUnrealized(b, id, pnl, pct).records, id, 0);
  }

  lemma StatusAt(b: Book, i: nat)
    requires UniqueIds(b) && i < |b.records|
    ensures StatusOf(b, b.records[i].id) == Some(b.records[i].status)
  {
    UniqueFirst(b, i);
  }

  // ----- One monitor step -----

  predicate FoundResolved(t: Tick) {
    t.detail.Some? && t.detail.value.resolved
  }

  // The step moves an open record to stale.
  ghost predicate GoesStale(p: PositionRecord, t: Tick) {
    t.detail.Some? && !t.detail.value.resolved && PastEnd(p, t.detail.value, t.now)
  }

  // A bid that could not be fetched counts as zero.
  ghost predicate Due(cfg: Config, p: PositionRecord, t: Tick) {
    DueToClose(cfg, p, t.yesBid.GetOr(0.0), t.noBid.GetOr(0.0), t.now)
  }

  // The step reaches the sale of the snapshot's tokens.
  ghost predicate TriesToSell(cfg: Config, p: PositionRecord, t: Tick) {
    && !cfg.dryRun && t.closeBids.Some? && TokensToSell(p, t.closeBids.value) != []
    && (p.status == Closing || (!FoundResolved(t) && Due(cfg, p, t)))
  }

  // The ledger will let the record move on to closed once everything is sold. The record may have
  // moved since the snapshot, or move to stale in this very step.
  ghost predicate CanBook(b: Book, p: PositionRecord, t: Tick) {
    var s := StatusOf(b, p.id);
    s == Some(Closing) || s == Some(Unhedged) || (s == Some(Open) && p.status != Closing && !GoesStale(p, t))
  }

  ghost predicate Booked(w: World, u: World, id: nat) {
    StatusOf(w.book, id) != Some(Closed) && StatusOf(u.book, id) == Some(Closed)
  }

  // The part of ClosePosition that follows the move to closing.
  lemma CloseSells(cfg: Config, script: Script, w: World, p: PositionRecord, bids: (real, real), now: int)
    requires !cfg.dryRun && TokensToSell(p, bids) != []
    ensures var tokens := TokensToSell(p, bids); var u := ClosePosition(cfg, script, w, p, Some(bids), now).0;
      var (v, proceeds, all) := SellTo(cfg, script, w.venue, tokens, ContractsPerLeg(p, |tokens|), |tokens|);
      && u.venue == v
      && (StatusOf(u.book, p.id) == Some(Closed) <==>
            StatusOf(w.book, p.id) == Some(Closed)
            || (all && (StatusOf(w.book, p.id) in {Some(Closing), Some(Unhedged)}
                        || (StatusOf(w.book, p.id) == Some(Open) && p.status != Closing))))
  {
    hide SellTo, Transition, ContractsPerLeg, HeldContracts, Round4, Round6, TokensToSell, StatusOf;
    TransitionStatus(w.book, p.id, Closing, NoPatch);
    var marked := if p.status != Closing then World(Transition(w.book, p.id, Closing, NoPatch).0, w.venue) else w;
    var tokens := TokensToSell(p, bids);
    var (v, proceeds, all) := SellTo(cfg, script, marked.venue, tokens, ContractsPerLeg(p, |tokens|), |tokens|);
    var exit := proceeds / Max(HeldContracts(p, 1.0), 0.000000001);
    TransitionStatus(marked.book, p.id, Closed, Settlement(Round4(proceeds - p.sizeUsdc), Round6(exit), now));
  }

  // Without a sale the venue is untouched and no record is closed.
  lemma NoSale(cfg: Config, script: Script, w: World, p: PositionRecord, bids: Option<(real, real)>, now: int)
    requires cfg.dryRun || bids.None? || TokensToSell(p, bids.value) == []
    ensures var u := ClosePosition(cfg, script, w, p, bids, now).0;
      u.venue == w.venue && (StatusOf(u.book, p.id) == Some(Closed) <==> StatusOf(w.book, p.id) == Some(Closed))
  {
    hide Transition, StatusOf, TokensToSell;
    TransitionStatus(w.book, p.id, Closing, NoPatch);
  }

  // The ledger as the step finds it when it comes to closing.
  function BeforeClosing(w: World, p: PositionRecord, t: Tick): World {
    if p.status == Closing then w
    else
      var (pnl, pct) := ComputeUnrealized(p, t.yesBid.GetOr(0.0), t.noBid.GetOr(0.0));
      var updated := RecordUnrealized(w.book, p.id, Round4(pnl), Round4(pct));
      World(if t.detail.Some? then CheckResolution(updated, p, t.detail.value, t.now).0 else updated, w.venue)
  }

  lemma StatusBeforeClosing(w: World, p: PositionRecord, t: Tick)
    requires p.status == Closing || !FoundResolved(t)
    ensures StatusOf(BeforeClosing(w, p, t).book, p.id)
         == if p.status != Closing && GoesStale(p, t) && StatusOf(w.book, p.id) == Some(Open)
            then Some(Stale)
            else StatusOf(w.book, p.id)
  {
    hide ComputeUnrealized, Round4, Transition, StatusOf, RecordUnrealized, PastEnd;
    if t.detail.Some? {
      PastEndIff(p, t.detail.value, t.now);
    }
    if p.status != Closing {
      var (pnl, pct) := ComputeUnrealized(p, t.yesBid.GetOr(0.0), t.noBid.GetOr(0.0));
      var updated := RecordUnrealized(w.book, p.id, Round4(pnl), Round4(pct));
      UnrealizedStatus(w.book, p.id, Round4(pnl), Round4(pct));
      if GoesStale(p, t) {
        TransitionStatus(updated, p.id, Stale, EndDate(EndTime(p, t.detail.value).value));
      }
    }
  }

  lemma ResolvedStatus(w: World, p: PositionRecord, t: Tick)
    requires p.status != Closing && FoundResolved(t)
    ensures var s := StatusOf(w.book, p.id);
      StatusOf(BeforeClosing(w, p, t).book, p.id) == if s == Some(Open) then Some(Resolved) else s
  {
    hide ComputeUnrealized, Round4, Transition, StatusOf, RecordUnrealized, ResolutionPnl;
    var (pnl, pct) := ComputeUnrealized(p, t.yesBid.GetOr(0.0), t.noBid.GetOr(0.0));
    UnrealizedStatus(w.book, p.id, Round4(pnl), Round4(pct));
    var winner := t.detail.value.winner;
    TransitionStatus(RecordUnrealized(w.book, p.id, Round4(pnl), Round4(pct)), p.id, Resolved,
                     Settlement(Round4(ResolutionPnl(p, winner)), if winner == OtherOutcome then 0.0 else 1.0, t.now));
  }

  lemma ResolvedNeverCloses(w: World, p: PositionRecord, t: Tick)
    requires p.status != Closing && FoundResolved(t)
    ensures StatusOf(BeforeClosing(w, p, t).book, p.id) == Some(Closed) <==> StatusOf(w.book, p.id) == Some(Closed)
  {
    hide BeforeClosing, StatusOf;
    ResolvedStatus(w, p, t);
  }

  lemma StepFromClosing(cfg: Config, script: Script, w: World, p: PositionRecord, t: Tick)
    ensures MonitorOne(cfg, script, w, p, t)
      == if p.status == Closing || (!FoundResolved(t) && Due(cfg, p, t))
         then ClosePosition(cfg, script, BeforeClosing(w, p, t), p, t.closeBids, t.now).0
         else BeforeClosing(w, p, t)
  {
    ReasonIff(cfg, p, t.yesBid.GetOr(0.0), t.noBid.GetOr(0.0), t.now);
    hide ClosePosition, ComputeUnrealized, RecordUnrealized, ReasonToClose, Round4, Transition, ResolutionPnl,
        DueToClose;
  }

  // Exactly when a monitor step closes a record: it tries to sell, the ledger lets the record be
  // closed, and the venue accepts every token with a price that can be read.
  ghost predicate ClosesRecord(cfg: Config, script: Script, w: World, u: World, p: PositionRecord, t: Tick) {
    && TriesToSell(cfg, p, t)
    && CanBook(w.book, p, t)
    && ReadableAcceptances(script, w.venue.cursor, u.venue.cursor) == |TokensToSell(p, t.closeBids.value)|
  }

  // Exactly when a monitor step sells something that is not booked: it tries to sell, the venue
  // accepts at least one of its attempts, and either some token gets no readable acceptance or the
  // ledger does not let the record be closed.
  ghost predicate SellsUnbooked(cfg: Config, script: Script, w: World, u: World, p: PositionRecord, t: Tick) {
    && TriesToSell(cfg, p, t)
    && Acceptances(script, w.venue.cursor, u.venue.cursor) > 0
    && !ClosesRecord(cfg, script, w, u, p, t)
  }

  // A monitor step on any snapshot and any ledger: which records it closes, and what it sells unbooked.
  lemma ClosedIff(cfg: Config, script: Script, w: World, p: PositionRecord, t: Tick)
    ensures var u := MonitorOne(cfg, script, w, p, t);
      && (StatusOf(u.book, p.id) == Some(Closed) <==>
            StatusOf(w.book, p.id) == Some(Closed) || ClosesRecord(cfg, script, w, u, p, t))
      && |u.venue.accepted| == |w.venue.accepted| + Acceptances(script, w.venue.cursor, u.venue.cursor)
      && (!TriesToSell(cfg, p, t) ==> u.venue == w.venue)
  {
    hide ClosePosition, ComputeUnrealized, Due, TokensToSell, SellTo, StatusOf, BeforeClosing, MonitorOne,
         ContractsPerLeg,
         Acceptances, ReadableAcceptances, GoesStale;
    StepFromClosing(cfg, script, w, p, t);
    BeforeClosingVenue(w, p, t);
    var before := BeforeClosing(w, p, t);
    NoAttempts(script, w.venue.cursor);
    if p.status != Closing && FoundResolved(t) {
      ResolvedNeverCloses(w, p, t);
    } else {
      StatusBeforeClosing(w, p, t);
    }
    if TriesToSell(cfg, p, t) {
      var tokens := TokensToSell(p, t.closeBids.value);
      CloseSells(cfg, script, before, p, t.closeBids.value, t.now);
      SaleCounts(cfg, script, before.venue, tokens, ContractsPerLeg(p, |tokens|), |tokens|);
    } else if cfg.dryRun || t.closeBids.None? || TokensToSell(p, t.closeBids.value) == [] {
      NoSale(cfg, script, before, p, t.closeBids, t.now);
    }
  }

  lemma UnbookedSaleIff(cfg: Config, script: Script, w: World, p: PositionRecord, t: Tick)
    ensures var u := MonitorOne(cfg, script, w, p, t);
      && |u.venue.accepted| >= |w.venue.accepted|
      && (|u.venue.accepted| > |w.venue.accepted| && !Booked(w, u, p.id) <==> SellsUnbooked(cfg, script, w, u, p, t))
  {
    hide MonitorOne, TriesToSell, StatusOf, Acceptances, ReadableAcceptances;
    ClosedIff(cfg, script, w, p, t);
  }

  lemma BeforeClosingVenue(w: World, p: PositionRecord, t: Tick)
    ensures BeforeClosing(w, p, t).venue == w.venue
  {
  }

  // ----- What the step leaves behind -----

  // A live step on an open or unhedged record whose market is not found resolved goes on to closing
  // exactly when it is due, unless the same step finds an open record past its end, which becomes stale.
  lemma GoesOnToClosing(cfg: Config, script: Script, w: World, p: PositionRecord, t: Tick)
    requires !cfg.dryRun && p.status in {Open, Unhedged} && StatusOf(w.book, p.id) == Some(p.status)
        && !FoundResolved(t)
    ensures var s := StatusOf(MonitorOne(cfg, script, w, p, t).book, p.id);
      && (s in {Some(Closing), Some(Closed)} <==> Due(cfg, p, t) && !(p.status == Open && GoesStale(p, t)))
      && (s == Some(Stale) <==> p.status == Open && GoesStale(p, t))
      && (s in {Some(Closing), Some(Closed), Some(Stale), Some(p.status)})
  {
    hide MonitorOne, ClosePosition, BeforeClosing, StatusOf, Due, GoesStale;
    StepFromClosing(cfg, script, w, p, t);
    StatusBeforeClosing(w, p, t);
    StatusAfterClosing(cfg, script, BeforeClosing(w, p, t), p, t.closeBids, t.now);
  }

  lemma StatusAfterClosing(cfg: Config, script: Script, w: World, p: PositionRecord, bids: Option<(real, real)>,
          now: int)
    requires !cfg.dryRun && p.status != Closing
    ensures var s, before := StatusOf(ClosePosition(cfg, script, w, p, bids, now).0.book, p.id), StatusOf(w.book, p.id);
      && (before in {Some(Open), Some(Unhedged), Some(Closing)} ==> s in {Some(Closing), Some(Closed)})
      && (before == Some(Stale) ==> s == before)
  {
    hide SellTo, Transition, ContractsPerLeg, HeldContracts, Round4, Round6, TokensToSell, StatusOf;
    TransitionStatus(w.book, p.id, Closing, NoPatch);
    var marked := World(Transition(w.book, p.id, Closing, NoPatch).0, w.venue);
    if bids.Some? {
      var tokens := TokensToSell(p, bids.value);
      var (v, proceeds, all) := SellTo(cfg, script, marked.venue, tokens, ContractsPerLeg(p, |tokens|), |tokens|);
      var exit := proceeds / Max(HeldContracts(p, 1.0), 0.000000001);
      TransitionStatus(marked.book, p.id, Closed, Settlement(Round4(proceeds - p.sizeUsdc), Round6(exit), now));
    }
  }

  // In a dry run a step sells nothing and closes nothing: it only settles an open record whose market is
  // found resolved, or marks it stale past its end.
  lemma DryRunOnlyWatches(cfg: Config, script: Script, w: World, p: PositionRecord, t: Tick)
    requires cfg.dryRun
    ensures var u, s := MonitorOne(cfg, script, w, p, t), StatusOf(w.book, p.id);
      && u.venue == w.venue
      && StatusOf(u.book, p.id)
         == if s == Some(Open) && p.status != Closing && FoundResolved(t) then Some(Resolved)
            else if s == Some(Open) && p.status != Closing && GoesStale(p, t) then Some(Stale) else s
  {
    hide MonitorOne, BeforeClosing, StatusOf, Due, GoesStale;
    StepFromClosing(cfg, script, w, p, t);
    BeforeClosingVenue(w, p, t);
    if p.status != Closing && FoundResolved(t) {
      ResolvedStatus(w, p, t);
      ResolvedIsNotStale(p, t);
    } else {
      StatusBeforeClosing(w, p, t);
    }
  }

  lemma ResolvedIsNotStale(p: PositionRecord, t: Tick)
    ensures !(FoundResolved(t) && GoesStale(p, t))
  {
  }

  // The marks of every record are the same.
  ghost predicate SameMarks(b: Book, c: Book) {
    && |b.records| == |c.records|
    && forall i :: 0 <= i < |b.records| ==>
         c.records[i].unrealizedPnl == b.records[i].unrealizedPnl
         && c.records[i].unrealizedPct == b.records[i].unrealizedPct
  }

  lemma TransitionKeepsMarks(b: Book, id: nat, status: Status, patch: Patch)
    ensures SameMarks(b, Transition(b, id, status, patch).0)
  {
  }

  lemma CloseKeepsMarks(cfg: Config, script: Script, w: World, p: PositionRecord, bids: Option<(real, real)>, now: int)
    ensures SameMarks(w.book, ClosePosition(cfg, script, w, p, bids, now).0.book)
  {
    hide SellTo, Transition, ContractsPerLeg, HeldContracts, Round4, Round6, TokensToSell;
    TransitionKeepsMarks(w.book, p.id, Closing, NoPatch);
    var marked := if p.status != Closing then World(Transition(w.book, p.id, Closing, NoPatch).0, w.venue) else w;
    if !cfg.dryRun && bids.Some? {
      var tokens := TokensToSell(p, bids.value);
      var (v, proceeds, all) := SellTo(cfg, script, marked.venue, tokens, ContractsPerLeg(p, |tokens|), |tokens|);
      var exit := proceeds / Max(HeldContracts(p, 1.0), 0.000000001);
      TransitionKeepsMarks(marked.book, p.id, Closed, Settlement(Round4(proceeds - p.sizeUsdc), Round6(exit), now));
    }
  }

  lemma BeforeClosingMarks(w: World, i: nat, p: PositionRecord, t: Tick)
    requires UniqueIds(w.book) && i < |w.book.records| && w.book.records[i].id == p.id && p.status != Closing
    ensures var b := BeforeClosing(w, p, t).book; var yesBid, noBid := t.yesBid.GetOr(0.0), t.noBid.GetOr(0.0);
      && i < |b.records|
      && b.records[i].unrealizedPnl == Some(Round4(MarkedGain(p, yesBid, noBid)))
      && b.records[i].unrealizedPct == Some(Round4(MarkedPct(p, yesBid, noBid)))
  {
    hide ComputeUnrealized, Round4, Transition, MarkedGain, MarkedPct, ResolutionPnl;
    var yesBid, noBid := t.yesBid.GetOr(0.0), t.noBid.GetOr(0.0);
    MarksAre(p, yesBid, noBid);
    UniqueFirst(w.book, i);
    var updated := RecordUnrealized(w.book, p.id, Round4(MarkedGain(p, yesBid, noBid)),
        Round4(MarkedPct(p, yesBid, noBid)));
    if t.detail.Some? {
      var detail := t.detail.value;
      TransitionKeepsMarks(updated, p.id, Resolved,
        Settlement(Round4(ResolutionPnl(p, detail.winner)), if detail.winner == OtherOutcome then 0.0 else 1.0, t.now));
      if EndTime(p, detail).Some? {
        TransitionKeepsMarks(updated, p.id, Stale, EndDate(EndTime(p, detail).value));
      }
    }
  }

  // Every step on a record that is not closing writes its marks at the bids of the step, rounded.
  lemma StepRecordsMarks(cfg: Config, script: Script, w: World, i: nat, p: PositionRecord, t: Tick)
    requires UniqueIds(w.book) && i < |w.book.records| && w.book.records[i].id == p.id && p.status != Closing
    ensures var b := MonitorOne(cfg, script, w, p, t).book;
      var yesBid, noBid := t.yesBid.GetOr(0.0), t.noBid.GetOr(0.0);
      && i < |b.records|
      && b.records[i].unrealizedPnl == Some(Round4(MarkedGain(p, yesBid, noBid)))
      && b.records[i].unrealizedPct == Some(Round4(MarkedPct(p, yesBid, noBid)))
  {
    hide MonitorOne, ClosePosition, BeforeClosing, Due, Round4, MarkedGain, MarkedPct;
    StepFromClosing(cfg, script, w, p, t);
    BeforeClosingMarks(w, i, p, t);
    CloseKeepsMarks(cfg, script, BeforeClosing(w, p, t), p, t.closeBids, t.now);
  }

  // ----- What a sale orders and brings -----

  // One cent below the bid, and never below one cent.
  function AskedPrice(bid: real): real {
    if bid > 0.02 then bid - 0.01 else 0.01
  }

  function SaleLeg(token: string, quantity: real, bid: real): Leg {
    Leg(Sell, token, quantity * AskedPrice(bid), AskedPrice(bid))
  }

  // The same quantity of each token.
  function SaleLegs(tokens: seq<(string, real)>, quantity: real): seq<Leg> {
    seq(|tokens|, k requires 0 <= k < |tokens| => SaleLeg(tokens[k].0, quantity, tokens[k].1))
  }

  function Total(xs: seq<real>): real {
    if xs == [] then 0.0 else Total(xs[..|xs| - 1]) + xs[|xs| - 1]
  }

  // What the same quantity of each token brings at these prices.
  function Brought(quantity: real, paid: seq<real>): real {
    quantity * Total(paid)
  }

  // The venue accepted an order at this limit and answered with this price to pay.
  ghost predicate Answered(cfg: Config, script: Script, limit: real, paid: real) {
    exists from, at :: AcceptedAt(cfg, script, from, at, limit, Some(paid))
  }

  lemma AskedLeg(token: string, quantity: real, bid: real)
    ensures SellLeg(token, quantity, bid) == SaleLeg(token, quantity, bid)
    ensures SaleLeg(token, quantity, bid).price == AskedPrice(bid)
  {
    assert SellPrice(bid) == AskedPrice(bid);
  }

  // A sale that fills on every token has ordered each of them, and brings the sum of what the venue paid.
  lemma {:induction false} SaleFills(cfg: Config, script: Script, v: Venue, tokens: seq<(string, real)>, quantity: real,
          n: nat) returns (paid: seq<real>)
    requires n <= |tokens| && SellTo(cfg, script, v, tokens, quantity, n).2
    ensures |paid| == n && forall k :: 0 <= k < n ==> Answered(cfg, script, AskedPrice(tokens[k].1), paid[k])
    ensures var (after, proceeds, _) := SellTo(cfg, script, v, tokens, quantity, n);
      after.accepted == v.accepted + SaleLegs(tokens[..n], quantity) && proceeds == Brought(quantity, paid)
  {
    hide PlaceOrder, SellLeg, LegUsdc, AcceptedAt, AskedPrice, SaleLeg;
    if n == 0 {
      paid := [];
      assert v.accepted + SaleLegs(tokens[..0], quantity) == v.accepted;
    } else {
      SellingOne(cfg, script, v, tokens, quantity, n);
      paid := SaleFills(cfg, script, v, tokens, quantity, n - 1);
      var (before, proceeds, _) := SellTo(cfg, script, v, tokens, quantity, n - 1);
      var leg := SellLeg(tokens[n - 1].0, quantity, tokens[n - 1].1);
      AskedLeg(tokens[n - 1].0, quantity, tokens[n - 1].1);
      PlacedIff(cfg, script, before, leg);
      var (reply, after) := PlaceOrder(cfg, script, before, leg);
      var got := FillPrice(reply.value, leg.price);
      assert Answered(cfg, script, leg.price, got);
      SaleTotal(quantity, paid, got);
      SaleLegsStep(tokens, quantity, n);
      paid := paid + [got];
    }
  }

  lemma SaleLegsStep(tokens: seq<(string, real)>, quantity: real, n: nat)
    requires 0 < n <= |tokens|
    ensures SaleLegs(tokens[..n], quantity)
         == SaleLegs(tokens[..n - 1], quantity) + [SaleLeg(tokens[n - 1].0, quantity, tokens[n - 1].1)]
  {
    hide SaleLeg;
  }

  lemma SaleTotal(quantity: real, paid: seq<real>, got: real)
    ensures Brought(quantity, paid + [got]) == Brought(quantity, paid) + LegUsdc(quantity, got)
  {
    assert (paid + [got])[..|paid|] == paid;
  }

  // The venue after these orders, one after the other, whatever becomes of each.
  function OrderEach(cfg: Config, script: Script, v: Venue, legs: seq<Leg>): Venue {
    if legs == [] then v
    else PlaceOrder(cfg, script, OrderEach(cfg, script, v, legs[..|legs| - 1]), legs[|legs| - 1]).1
  }

  // A sale tries every token, also after one that did not fill.
  lemma {:induction false} SaleTriesEach(cfg: Config, script: Script, v: Venue, tokens: seq<(string, real)>,
          quantity: real, n: nat)
    requires n <= |tokens|
    ensures SellTo(cfg, script, v, tokens, quantity, n).0 == OrderEach(cfg, script, v, SaleLegs(tokens[..n], quantity))
  {
    hide PlaceOrder, SellLeg, LegUsdc, SaleLeg, SaleLegs;
    if n == 0 {
      NothingOrdered(cfg, script, v, quantity);
      assert tokens[..0] == [];
    } else {
      SaleTriesEach(cfg, script, v, tokens, quantity, n - 1);
      SaleLegsStep(tokens, quantity, n);
      AskedLeg(tokens[n - 1].0, quantity, tokens[n - 1].1);
      var legs := SaleLegs(tokens[..n], quantity);
      assert legs[..|legs| - 1] == SaleLegs(tokens[..n - 1], quantity);
    }
  }

  lemma NothingOrdered(cfg: Config, script: Script, v: Venue, quantity: real)
    ensures OrderEach(cfg, script, v, SaleLegs([], quantity)) == v
  {
  }

  // What a sale spreads over the tokens: the contracts on record, or what the cost buys at the entry price.
  function WholeHolding(p: PositionRecord): real {
    if p.contracts > 0.0 || p.entryPrice <= 0.0 then p.contracts else p.sizeUsdc / p.entryPrice
  }

  lemma SpreadEvenly(p: PositionRecord, tokens: nat)
    requires tokens > 0
    ensures ContractsPerLeg(p, tokens) * tokens as real == WholeHolding(p) == HeldContracts(p, 1.0)
  {
    DivMul(HeldContracts(p, 1.0), tokens as real);
  }

  // What closing has ordered, and what it has recorded about it.
  ghost predicate ClosedFor(cfg: Config, script: Script, w: World, u: World, i: nat, p: PositionRecord,
          bids: (real, real), now: int, quantity: real, paid: seq<real>) {
    var tokens := TokensToSell(p, bids);
    && tokens != [] && quantity * |tokens| as real == WholeHolding(p)
    && |paid| == |tokens| && (forall k :: 0 <= k < |tokens| ==> Answered(cfg, script, AskedPrice(tokens[k].1), paid[k]))
    && u.venue.accepted == w.venue.accepted + SaleLegs(tokens, quantity)
    && i < |u.book.records|
    && var r := u.book.records[i];
    && r.pnl == Some(Round4(Brought(quantity, paid) - p.sizeUsdc))
    && r.exitPrice == Some(Round6(Brought(quantity, paid) / Max(WholeHolding(p), 0.000000001)))
    && r.closedAt == Some(now)
  }

  lemma CloseDetails(cfg: Config, script: Script, w: World, i: nat, p: PositionRecord, bids: Option<(real, real)>,
          now: int) returns (quantity: real, paid: seq<real>)
    requires UniqueIds(w.book) && i < |w.book.records| && w.book.records[i].id == p.id
        && w.book.records[i].status != Closed
    requires StatusOf(ClosePosition(cfg, script, w, p, bids, now).0.book, p.id) == Some(Closed)
    ensures bids.Some?
    ensures ClosedFor(cfg, script, w, ClosePosition(cfg, script, w, p, bids, now).0, i, p, bids.value, now, quantity,
                      paid)
  {
    hide SellTo, Transition, ContractsPerLeg, HeldContracts, Round4, Round6, TokensToSell, StatusOf, WholeHolding,
        SaleLegs, Brought, Answered, AskedPrice, UniqueIds;
    StatusAt(w.book, i);
    if cfg.dryRun || bids.None? || TokensToSell(p, bids.value) == [] {
      NoSale(cfg, script, w, p, bids, now);
      assert false;
      quantity, paid := 0.0, [];
    } else {
      var tokens := TokensToSell(p, bids.value);
      CloseSells(cfg, script, w, p, bids.value, now);
      TransitionProgresses(w.book, p.id, Closing, NoPatch);
      var marked := if p.status != Closing then World(Transition(w.book, p.id, Closing, NoPatch).0, w.venue) else w;
      quantity := ContractsPerLeg(p, |tokens|);
      SpreadEvenly(p, |tokens|);
      paid := SaleFills(cfg, script, w.venue, tokens, quantity, |tokens|);
      assert tokens[..|tokens|] == tokens;
      var proceeds := SellTo(cfg, script, marked.venue, tokens, quantity, |tokens|).1;
      var exit := proceeds / Max(HeldContracts(p, 1.0), 0.000000001);
      MarkedClosing(w, i, p);
      SettledBy(marked.book, i, p.id, Settlement(Round4(proceeds - p.sizeUsdc), Round6(exit), now));
    }
  }

  lemma BeforeClosingKeeps(w: World, i: nat, p: PositionRecord, t: Tick)
    requires UniqueIds(w.book) && i < |w.book.records| && w.book.records[i].id == p.id
    ensures var b := BeforeClosing(w, p, t).book; UniqueIds(b) && i < |b.records| && b.records[i].id == p.id
  {
    hide ComputeUnrealized, Round4, Transition, RecordUnrealized, ResolutionPnl, EndTime;
    if p.status != Closing {
      var (pnl, pct) := ComputeUnrealized(p, t.yesBid.GetOr(0.0), t.noBid.GetOr(0.0));
      var updated := RecordUnrealized(w.book, p.id, Round4(pnl), Round4(pct));
      UnrealizedProgresses(w.book, p.id, Round4(pnl), Round4(pct));
      assert RecordProgressed(w.book.records[i], updated.records[i]);
      if t.detail.Some? {
        var detail := t.detail.value;
        var won := Settlement(Round4(ResolutionPnl(p, detail.winner)),
            if detail.winner == OtherOutcome then 0.0 else 1.0, t.now);
        TransitionProgresses(updated, p.id, Resolved, won);
        assert RecordProgressed(updated.records[i], Transition(updated, p.id, Resolved, won).0.records[i]);
        if EndTime(p, detail).Some? {
          var end := EndDate(EndTime(p, detail).value);
          TransitionProgresses(updated, p.id, Stale, end);
          assert RecordProgressed(updated.records[i], Transition(updated, p.id, Stale, end).0.records[i]);
        }
      }
    }
  }

  // Whenever a step of the monitor closes a record, it has ordered the same quantity of each of its
  // tokens, spreading its whole holding, one cent below the bid; and the P&L, exit price and time on
  // record are those of what the venue paid.
  lemma StepCloses(cfg: Config, script: Script, w: World, i: nat, p: PositionRecord, t: Tick)
    returns (quantity: real, paid: seq<real>)
    requires UniqueIds(w.book) && i < |w.book.records| && w.book.records[i].id == p.id
        && w.book.records[i].status != Closed
    requires StatusOf(MonitorOne(cfg, script, w, p, t).book, p.id) == Some(Closed)
    ensures t.closeBids.Some?
    ensures ClosedFor(cfg, script, w, MonitorOne(cfg, script, w, p, t), i, p, t.closeBids.value, t.now, quantity, paid)
  {
    hide MonitorOne, ClosePosition, BeforeClosing, StatusOf, Due, GoesStale, ClosedFor, UniqueIds;
    var before := BeforeClosing(w, p, t);
    StepFromClosing(cfg, script, w, p, t);
    BeforeClosingKeeps(w, i, p, t);
    BeforeClosingVenue(w, p, t);
    StatusAt(w.book, i);
    StatusAt(before.book, i);
    if p.status != Closing && FoundResolved(t) {
      ResolvedNeverCloses(w, p, t);
    } else {
      StatusBeforeClosing(w, p, t);
    }
    quantity, paid := CloseDetails(cfg, script, before, i, p, t.closeBids, t.now);
    ClosedFromBefore(cfg, script, w, before, MonitorOne(cfg, script, w, p, t), i, p, t, quantity, paid);
  }

  lemma ClosedFromBefore(cfg: Config, script: Script, w: World, before: World, u: World, i: nat, p: PositionRecord,
          t: Tick, quantity: real, paid: seq<real>)
    requires before.venue == w.venue && t.closeBids.Some?
    requires ClosedFor(cfg, script, before, u, i, p, t.closeBids.value, t.now, quantity, paid)
    ensures ClosedFor(cfg, script, w, u, i, p, t.closeBids.value, t.now, quantity, paid)
  {
    hide TokensToSell, WholeHolding, Answered, SaleLegs, Round4, Round6, Brought;
  }

  lemma MarkedClosing(w: World, i: nat, p: PositionRecord)
    requires UniqueIds(w.book) && i < |w.book.records| && w.book.records[i].id == p.id
        && w.book.records[i].status != Closed
    ensures var b := Transition(w.book, p.id, Closing, NoPatch).0;
      UniqueIds(b) && i < |b.records| && b.records[i].id == p.id && b.records[i].status != Closed
  {
    UniqueFirst(w.book, i);
  }

  lemma SettledBy(b: Book, i: nat, id: nat, patch: Patch)
    requires UniqueIds(b) && i < |b.records| && b.records[i].id == id && patch.Settlement?
    requires StatusOf(Transition(b, id, Closed, patch).0, id) == Some(Closed) && b.records[i].status != Closed
    ensures var c := Transition(b, id, Closed, patch).0;
      && i < |c.records| && c.records[i].pnl == Some(patch.pnl) && c.records[i].exitPrice == Some(patch.exitPrice)
      && c.records[i].closedAt == Some(patch.closedAt)
  {
    UniqueFirst(b, i);
    TransitionStatus(b, id, Closed, patch);
  }

  // ----- Whole monitor passes -----

  // The pass over the ledger's own records, up to the n-th.
  function PassTo(cfg: Config, script: Script, w: World, ticks: seq<Tick>, n: nat): World
    requires n <= |w.book.records| == |ticks|
  {
    MonitorTo(cfg, script, w, w.book.records, ticks, n)
  }

  // What the pass makes of record i: its own step, on the record as it was, or nothing.
  ghost predicate InTurn(cfg: Config, script: Script, w: World, ticks: seq<Tick>, n: nat, i: nat)
    requires n <= |w.book.records| == |ticks|
  {
    var r, u := w.book.records, PassTo(cfg, script, w, ticks, n);
    && i < |r| == |u.book.records| && u.book.records[i].id == r[i].id
    && if n <= i || !Active(r[i].status) then u.book.records[i] == r[i]
       else
         var before := PassTo(cfg, script, w, ticks, i);
         && BookOk(before.book) && i < |before.book.records| && before.book.records[i] == r[i]
         && var after := MonitorOne(cfg, script, before, r[i], ticks[i]);
         i < |after.book.records| && u.book.records[i] == after.book.records[i]
  }

  // Each record is left to its own turn: the steps on the others do not touch it.
  lemma {:induction false} PassInTurn(cfg: Config, script: Script, w: World, ticks: seq<Tick>, n: nat, i: nat)
    requires n <= |w.book.records| == |ticks| && BookOk(w.book) && i < |w.book.records|
    ensures BookOk(PassTo(cfg, script, w, ticks, n).book) && InTurn(cfg, script, w, ticks, n, i)
  {
    hide MonitorOne, BookOk;
    if n > 0 {
      PassInTurn(cfg, script, w, ticks, n - 1, i);
      var records, before := w.book.records, PassTo(cfg, script, w, ticks, n - 1);
      if Active(records[n - 1].status) {
        MonitorOneMonitors(cfg, script, before, records[n - 1], ticks[n - 1]);
        MonitorTouchesOne(cfg, script, before, records[n - 1], ticks[n - 1]);
        OkIsUnique(w.book);
        if i == n - 1 {
          PassInTurn(cfg, script, w, ticks, i, i);
        }
      }
    }
  }

  // One pass settles every open record whose market is found resolved, marks every open and unhedged
  // one at its own bids, and leaves finished records alone.
  lemma PassVisitsAll(cfg: Config, script: Script, w: World, ticks: seq<Tick>, i: nat)
    requires |w.book.records| == |ticks| && BookOk(w.book) && i < |w.book.records|
    ensures var u := PassTo(cfg, script, w, ticks, |ticks|); i < |u.book.records|
    ensures var r, t, s := w.book.records[i], ticks[i], PassTo(cfg, script, w, ticks, |ticks|).book.records[i];
      var yesBid, noBid := t.yesBid.GetOr(0.0), t.noBid.GetOr(0.0);
      && (!Active(r.status) ==> s == r)
      && (r.status == Open && FoundResolved(t) ==>
            s.status == Resolved && s.pnl == Some(Round4(ResolutionPnl(r, t.detail.value.winner))))
      && (r.status in {Open, Unhedged} ==>
            && s.unrealizedPnl == Some(Round4(MarkedGain(r, yesBid, noBid)))
            && s.unrealizedPct == Some(Round4(MarkedPct(r, yesBid, noBid))))
  {
    hide MonitorOne, BookOk, PassTo, MarkedGain, MarkedPct, ResolutionPnl, Round4;
    PassInTurn(cfg, script, w, ticks, |ticks|, i);
    if Active(w.book.records[i].status) {
      var before, r := PassTo(cfg, script, w, ticks, i), w.book.records[i];
      OkIsUnique(before.book);
      if r.status != Closing {
        StepRecordsMarks(cfg, script, before, i, r, ticks[i]);
      }
      if r.status == Open && FoundResolved(ticks[i]) {
        MonitorResolves(cfg, script, before, i, ticks[i]);
      }
    }
  }

  // ----- Whole runs -----

  // Sell legs accepted in the first n actions by monitor steps that did not close their record.
  ghost function UnbookedLegs(d: Desk, n: nat): int
    requires n <= |d.actions|
  {
    if n == 0 then 0
    else
      var w, u, a := d.At(n - 1), d.At(n), d.actions[n - 1];
      UnbookedLegs(d, n - 1)
      + if a.Observe? && !Booked(w, u, a.snapshot.id) then |u.venue.accepted| - |w.venue.accepted| else 0
  }

  ghost predicate UnbookedSale(d: Desk, k: nat)
    requires k < |d.actions|
  {
    d.actions[k].Observe?
        && SellsUnbooked(d.cfg, d.script, d.At(k), d.At(k + 1), d.actions[k].snapshot, d.actions[k].tick)
  }

  // Every leg the monitor sells belongs to a close on record if and only if no step is such a sale.
  lemma {:induction false} NothingSoldOffTheBooksIff(d: Desk, n: nat)
    requires n <= |d.actions|
    ensures UnbookedLegs(d, n) >= 0
    ensures UnbookedLegs(d, n) == 0 <==> forall k :: 0 <= k < n ==> !UnbookedSale(d, k)
  {
    hide Booked, SellsUnbooked, Execute, MonitorOne;
    if n > 0 {
      NothingSoldOffTheBooksIff(d, n - 1);
      var a := d.actions[n - 1];
      if a.Observe? {
        UnbookedSaleIff(d.cfg, d.script, d.At(n - 1), a.snapshot, a.tick);
        assert UnbookedSale(d, n - 1) <==> SellsUnbooked(d.cfg, d.script, d.At(n - 1), d.At(n), a.snapshot, a.tick);
      }
    }
  }
}
