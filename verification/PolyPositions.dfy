/** The Polymarket positions ledger and its status machine, as in src/polymarket/positions.py. */
module PolyPositions {
  import opened Prelude

  datatype Status = Open | Closing | Unhedged | Closed | Resolved | Stale

  // The statuses that may follow each status.
  function ValidNext(s: Status): set<Status> {
    match s
    case Open => {Closing, Resolved, Stale}
    case Closing => {Closed, Closing}
    case Unhedged => {Closing, Closed}
    case Closed => {}
    case Resolved => {}
    case Stale => {}
  }

  predicate Active(s: Status) {
    s in {Open, Unhedged, Closing}
  }

  predicate Final(s: Status) {
    s in {Closed, Resolved}
  }

  datatype Strategy = OrderbookSpread | CorrelatedMarkets | Underround | ResolutionCarry | OtherStrategy

  datatype Legs = Yes | No | YesAndNo | BuyLow

  datatype PositionRecord = PositionRecord(
    id: nat, conditionId: string, strategy: Strategy, legs: Legs, entryPrice: real, sizeUsdc: real,
    openedAt: int, status: Status, pnl: Option<real>, yesToken: string, noToken: string,
    endDate: Option<int>, exitPrice: Option<real>, closedAt: Option<int>,
    unrealizedPnl: Option<real>, unrealizedPct: Option<real>, contracts: real)

  // The extra fields a transition writes beside the status.
  datatype Patch = NoPatch | EndDate(date: int) | Settlement(pnl: real, exitPrice: real, closedAt: int)

  function ApplyPatch(r: PositionRecord, patch: Patch): PositionRecord {
    match patch
    case NoPatch => r
    case EndDate(date) => r.(endDate := Some(date))
    case Settlement(pnl, exitPrice, closedAt) =>
      r.(pnl := Some(pnl), exitPrice := Some(exitPrice), closedAt := Some(closedAt))
  }

  // One line of the ledger's log: a record was added or moved to this status.
  datatype LogLine = LogLine(id: nat, status: Status)

  datatype Book = Book(records: seq<PositionRecord>, log: seq<LogLine>, nextId: nat)

  // The first record with this id, counting from i; the number of records if there is none.
  function FirstFrom(records: seq<PositionRecord>, id: nat, i: nat): (k: nat)
    requires i <= |records|
    ensures i <= k <= |records|
    ensures k < |records| ==> records[k].id == id
    ensures forall j :: i <= j < k ==> records[j].id != id
    decreases |records| - i
  {
    if i == |records| || records[i].id == id then i else FirstFrom(records, id, i + 1)
  }

  function Add(b: Book, r: PositionRecord): Book {
    Book(b.records + [r], b.log + [LogLine(r.id, r.status)], b.nextId + 1)
  }

  function Transition(b: Book, id: nat, status: Status, patch: Patch): (Book, bool) {
    var k := FirstFrom(b.records, id, 0);
    if k == |b.records| || status !in ValidNext(b.records[k].status) then (b, false)
    else
      (b.(records := b.records[k := ApplyPatch(b.records[k].(status := status), patch)],
          log := b.log + [LogLine(id, status)]), true)
  }

  // Writes the latest unrealised P&L; unlike a transition, this is not validated.
  function RecordUnrealized(b: Book, id: nat, pnl: real, pct: real): Book {
    var k := FirstFrom(b.records, id, 0);
    if k == |b.records| then b
    else b.(records := b.records[k := b.records[k].(unrealizedPnl := Some(pnl), unrealizedPct := Some(pct))])
  }

  function ActiveCount(records: seq<PositionRecord>): nat {
    if records == [] then 0
    else ActiveCount(records[..|records| - 1]) + if Active(records[|records| - 1].status) then 1 else 0
  }

  const SECONDS_PER_DAY: int := 86_400

  // Realised P&L of the finished positions that were opened today.
  function DailyPnl(records: seq<PositionRecord>, today: int): real {
    if records == [] then 0.0
    else
      var last := records[|records| - 1];
      DailyPnl(records[..|records| - 1], today)
      + if Final(last.status) && last.openedAt / SECONDS_PER_DAY == today then last.pnl.GetOr(0.0) else 0.0
  }

  class PositionsLedger {
    var records: seq<PositionRecord>
    var log: seq<LogLine>
    var nextId: nat

    ghost function Contents(): Book
      reads this
    {
      Book(records, log, nextId)
    }

    constructor ()
      ensures Contents() == Book([], [], 0)
    {
      records, log, nextId := [], [], 0;
    }

    method AddRecord(r: PositionRecord)
      modifies this
      ensures Contents() == old(Add(Contents(), r))
    {
      records := records + [r];
      log := log + [LogLine(r.id, r.status)];
      nextId := nextId + 1;
    }

    method FindRecord(id: nat) returns (k: nat)
      ensures k == FirstFrom(records, id, 0)
    {
      k := 0;
      while k < |records| && records[k].id != id
        invariant k <= |records|
        invariant FirstFrom(records, id, 0) == FirstFrom(records, id, k)
      {
        k := k + 1;
      }
    }

    method Move(id: nat, status: Status, patch: Patch) returns (ok: bool)
      modifies this
      ensures (Contents(), ok) == old(Transition(Contents(), id, status, patch))
    {
      var k := FindRecord(id);
      if k == |records| {
        return false;
      }
      var target := records[k];
      if status !in ValidNext(target.status) {
        return false;
      }
      target := target.(status := status);
      records := records[k := ApplyPatch(target, patch)];
      log := log + [LogLine(id, status)];
      return true;
    }

    method UpdateUnrealized(id: nat, pnl: real, pct: real)
      modifies this
      ensures Contents() == old(RecordUnrealized(Contents(), id, pnl, pct))
    {
      var k := FindRecord(id);
      if k < |records| {
        records := records[k := records[k].(unrealizedPnl := Some(pnl), unrealizedPct := Some(pct))];
      }
    }

    method OpenCount() returns (n: nat)
      ensures n == ActiveCount(records)
    {
      n := 0;
      for i := 0 to |records|
        invariant n == ActiveCount(records[..i])
      {
        assert records[..i + 1][..i] == records[..i];
        if Active(records[i].status) {
          n := n + 1;
        }
      }
      assert records[..|records|] == records;
    }

    method TodaysPnl(today: int) returns (total: real)
      ensures total == DailyPnl(records, today)
    {
      total := 0.0;
      for i := 0 to |records|
        invariant total == DailyPnl(records[..i], today)
      {
        assert records[..i + 1][..i] == records[..i];
        if Final(records[i].status) && records[i].openedAt / SECONDS_PER_DAY == today && records[i].pnl.Some? {
          total := total + records[i].pnl.value;
        }
      }
      assert records[..|records|] == records;
    }
  }

  // ----- What the operations keep -----

  ghost predicate UniqueIds(b: Book) {
    && (forall i :: 0 <= i < |b.records| ==> b.records[i].id < b.nextId)
    && forall i, j :: 0 <= i < j < |b.records| ==> b.records[i].id != b.records[j].id
  }

  // The second book holds the same records, possibly in later states of their lives.
  ghost predicate Progressed(b: Book, c: Book) {
    && |b.records| <= |c.records|
    && forall i :: 0 <= i < |b.records| ==> RecordProgressed(b.records[i], c.records[i])
  }

  // A record keeps its identity, tokens and cost, and never opens again; once terminal it also keeps
  // status, P&L, exit and closing time.
  ghost predicate RecordProgressed(r: PositionRecord, s: PositionRecord) {
    && s.id == r.id && s.sizeUsdc == r.sizeUsdc && s.contracts == r.contracts && s.legs == r.legs
    && s.entryPrice == r.entryPrice && s.openedAt == r.openedAt
    && s.yesToken == r.yesToken && s.noToken == r.noToken
    && (Active(s.status) ==> Active(r.status))
    && (s.status == Open ==> r.status == Open)
    && (!Active(r.status) ==>
          s.status == r.status && s.pnl == r.pnl && s.exitPrice == r.exitPrice && s.closedAt == r.closedAt)
  }

  lemma ProgressedTransitive(b: Book, c: Book, d: Book)
    requires Progressed(b, c) && Progressed(c, d)
    ensures Progressed(b, d)
  {
    forall i | 0 <= i < |b.records| ensures RecordProgressed(b.records[i], d.records[i]) {
      assert RecordProgressed(b.records[i], c.records[i]) && RecordProgressed(c.records[i], d.records[i]);
    }
  }

  lemma TransitionProgresses(b: Book, id: nat, status: Status, patch: Patch)
    ensures Progressed(b, Transition(b, id, status, patch).0)
    ensures UniqueIds(b) ==> UniqueIds(Transition(b, id, status, patch).0)
  {
  }

  lemma UnrealizedProgresses(b: Book, id: nat, pnl: real, pct: real)
    ensures Progressed(b, RecordUnrealized(b, id, pnl, pct))
    ensures UniqueIds(b) ==> UniqueIds(RecordUnrealized(b, id, pnl, pct))
  {
  }

  lemma {:induction false} ActiveCountMonotone(a: seq<PositionRecord>, b: seq<PositionRecord>)
    requires |a| == |b| && forall i :: 0 <= i < |a| ==> (Active(b[i].status) ==> Active(a[i].status))
    ensures ActiveCount(b) <= ActiveCount(a)
  {
    if a != [] {
      ActiveCountMonotone(a[..|a| - 1], b[..|b| - 1]);
    }
  }

  // ----- Life cycles -----

  // A status history that follows the transition table from one of the two initial statuses.
  ghost predicate FollowsTable(h: seq<Status>) {
    && h != [] && h[0] in {Open, Unhedged}
    && forall i :: 0 <= i < |h| - 1 ==> h[i + 1] in ValidNext(h[i])
  }

  function Repeat(s: Status, k: nat): seq<Status> {
    seq(k, _ => s)
  }

  // open (closing+ closed? | resolved | stale)?  or  unhedged (closing+ closed? | closed)?
  ghost predicate LifeCycle(h: seq<Status>) {
    || h == [Open] || h == [Unhedged]
    || h == [Open, Resolved] || h == [Open, Stale] || h == [Unhedged, Closed]
    || exists first, k: nat :: ClosingCycle(h, first, k)
  }

  ghost predicate ClosingCycle(h: seq<Status>, first: Status, k: nat) {
    && first in {Open, Unhedged} && k >= 1
    && (h == [first] + Repeat(Closing, k) || h == [first] + Repeat(Closing, k) + [Closed])
  }

  // The transition table admits exactly these life cycles.
  lemma {:induction false} TableIsLifeCycle(h: seq<Status>)
    ensures FollowsTable(h) <==> LifeCycle(h)
  {
    if FollowsTable(h) {
      TableGivesLifeCycle(h);
    }
    if LifeCycle(h) && !(|h| <= 2 && FollowsTable(h)) {
      var first, k: nat :| ClosingCycle(h, first, k);
      assert forall i :: 1 <= i <= k ==> h[i] == Closing;
    }
  }

  lemma {:induction false} TableGivesLifeCycle(h: seq<Status>)
    requires FollowsTable(h)
    ensures LifeCycle(h)
  {
    if |h| > 1 {
      var front, last := h[..|h| - 1], h[|h| - 1];
      assert h == front + [last];
      assert last in ValidNext(h[|h| - 2]);
      TableGivesLifeCycle(front);
      if exists first, k: nat :: ClosingCycle(front, first, k) {
        var first, k: nat :| ClosingCycle(front, first, k);
        if last == Closing {
          assert Repeat(Closing, k + 1) == Repeat(Closing, k) + [Closing];
          assert ClosingCycle(h, first, k + 1);
        } else {
          assert ClosingCycle(h, first, k);
        }
      } else if last == Closing {
        assert Repeat(Closing, 1) == [Closing];
        assert ClosingCycle(h, front[0], 1);
      }
    }
  }

  function FinalCount(h: seq<Status>): nat {
    if h == [] then 0 else FinalCount(h[..|h| - 1]) + if Final(h[|h| - 1]) then 1 else 0
  }

  // A life is finalised at most once, and only by its last status.
  lemma {:induction false} FinalisedAtMostOnce(h: seq<Status>)
    requires FollowsTable(h)
    ensures FinalCount(h) == if Final(h[|h| - 1]) then 1 else 0
  {
    if |h| > 1 {
      assert h[|h| - 1] in ValidNext(h[|h| - 2]);
      FinalisedAtMostOnce(h[..|h| - 1]);
    }
  }
}
