/** Saving and restoring the paper executor: what survives, what is lost, and how equity comes back. */
module PaperRestore {
  import opened Prelude
  import opened Dicts
  import opened PaperExecutor
  import opened PaperSessions

  lemma {:induction false} OpenToMember(d: Dict<string, Position>, n: nat, k: string)
    requires d.Valid() && n <= |d.keys|
    ensures k in OpenTo(d, n).entries <==> k in d.keys[..n] && d.entries[k].quantity > 0.0
    ensures k in OpenTo(d, n).entries ==> OpenTo(d, n).entries[k] == d.entries[k]
  {
    if n > 0 {
      OpenToMember(d, n - 1, k);
      assert d.keys[..n] == d.keys[..n - 1] + [d.keys[n - 1]];
    }
  }

  lemma {:induction false} OpenToValid(d: Dict<string, Position>, n: nat)
    requires d.Valid() && n <= |d.keys|
    ensures OpenTo(d, n).Valid()
  {
    if n > 0 {
      OpenToValid(d, n - 1);
      SetValid(OpenTo(d, n - 1), d.keys[n - 1], d.entries[d.keys[n - 1]]);
      hide Dict.Set;
    }
  }

  lemma OpenToFacts(d: Dict<string, Position>, n: nat)
    requires d.Valid() && n <= |d.keys|
    ensures var o := OpenTo(d, n);
      && o.Valid()
      && (forall k :: k in o.entries <==> k in d.keys[..n] && d.entries[k].quantity > 0.0)
      && (forall k :: k in o.entries ==> o.entries[k] == d.entries[k])
  {
    hide OpenTo;
    OpenToValid(d, n);
    forall k: string
      ensures k in OpenTo(d, n).entries <==> k in d.keys[..n] && d.entries[k].quantity > 0.0
      ensures k in OpenTo(d, n).entries ==> OpenTo(d, n).entries[k] == d.entries[k]
    {
      OpenToMember(d, n, k);
    }
  }

  lemma OpenToStep(d: Dict<string, Position>, n: nat)
    requires d.Valid() && 0 < n <= |d.keys|
    ensures var k := d.keys[n - 1];
      && k !in OpenTo(d, n - 1).entries && OpenTo(d, n - 1).Valid()
      && OpenTo(d, n) == if d.entries[k].quantity > 0.0 then OpenTo(d, n - 1).Set(k, d.entries[k]) else OpenTo(d, n - 1)
  {
    OpenToMember(d, n - 1, d.keys[n - 1]);
    OpenToValid(d, n - 1);
    hide Dict.Set;
  }

  // A summand that vanishes on flat positions sums to the same total over the open ones.
  lemma {:induction false} OpenSum(d: Dict<string, Position>, f: (string, Position) -> real, n: nat)
    requires d.Valid() && n <= |d.keys|
    requires forall k :: k in d.entries && d.entries[k].quantity <= 0.0 ==> f(k, d.entries[k]) == 0.0
    ensures OpenTo(d, n).Valid() && Sum(OpenTo(d, n), f) == SumTo(d, f, n)
  {
    if n > 0 {
      hide OpenTo, Sum, Dict.Set;
      OpenSum(d, f, n - 1);
      OpenToStep(d, n);
      SumSet(OpenTo(d, n - 1), d.keys[n - 1], d.entries[d.keys[n - 1]], f);
    }
  }

  function FlatRealizedOf(symbol: string, p: Position): real {
    if p.quantity > 0.0 then 0.0 else p.realizedPnl
  }

  function OpenRealizedOf(symbol: string, p: Position): real {
    if p.quantity > 0.0 then p.realizedPnl else 0.0
  }

  // What a restored executor still knows: cash, anchors, and every open position. What it forgets:
  // the closed symbols and, with them, their realised P&L.
  lemma RestoreKeepsOpenBooks(s: State, t: State, kill: bool)
    requires Sound(s)
    ensures var r := Restore(t, TakeSnapshot(s), kill);
      && r.positions.Valid()
      && r.cash == s.cash && r.dayStart == s.dayStart && r.peak == s.peak && r.killed == kill
      && r.currentDay == t.currentDay
      && (forall k :: k in r.positions.entries <==> k in s.positions.entries && s.positions.entries[k].quantity > 0.0)
      && (forall k :: k in r.positions.entries ==> r.positions.entries[k] == s.positions.entries[k])
      && Sum(r.positions, RealizedOf) == Sum(s.positions, RealizedOf) - Sum(s.positions, FlatRealizedOf)
  {
    var d, n := s.positions, |s.positions.keys|;
    OpenToFacts(d, n);
    assert d.keys[..n] == d.keys;
    OpenSum(d, OpenRealizedOf, n);
    SumSame(OpenTo(d, n), OpenTo(d, n), OpenRealizedOf, RealizedOf, |OpenTo(d, n).keys|);
    SumAdds(d, RealizedOf, OpenRealizedOf, FlatRealizedOf, n);
  }

  // Right after a restore every position is worth its cost, so equity is cash plus cost basis.
  lemma RestoredEquityIsCost(s: State, t: State, kill: bool)
    requires Sound(s)
    ensures var r := Restore(t, TakeSnapshot(s), kill);
      r.positions.Valid() && Equity(r) == s.cash + Sum(s.positions, BasisOf)
  {
    RestoreKeepsOpenBooks(s, t, kill);
    var r := Restore(t, TakeSnapshot(s), kill);
    SumSame(r.positions, r.positions, ValueOf(r.lastPrices), BasisOf, |r.positions.keys|);
    FlatBasis(s);
    OpenSum(s.positions, BasisOf, |s.positions.keys|);
  }

  // The first order after a restore re-anchors the day unless the executor already stood on that
  // day: the saved day-start equity, and with it the loss so far that the cap is measured from,
  // survives exactly when it is that day or the saved equity at cost happens to equal it.
  lemma RestoredAnchorKeptIff(s: State, t: State, kill: bool, timestamp: int)
    requires Sound(s)
    ensures var r := Restore(t, TakeSnapshot(s), kill);
      && r.positions.Valid()
      && (AnchorDay(r, timestamp).dayStart == s.dayStart
          <==> t.currentDay == Some(DayOf(timestamp)) || s.cash + Sum(s.positions, BasisOf) == s.dayStart)
  {
    RestoreKeepsOpenBooks(s, t, kill);
    RestoredEquityIsCost(s, t, kill);
    hide Restore, TakeSnapshot, Sum, Dict.Valid, Sound;
  }

  lemma FlatBasis(s: State)
    requires Sound(s)
    ensures forall k :: k in s.positions.entries && s.positions.entries[k].quantity <= 0.0 ==>
              BasisOf(k, s.positions.entries[k]) == 0.0 == ValueOf(s.lastPrices)(k, s.positions.entries[k])
  {
    forall k | k in s.positions.entries && s.positions.entries[k].quantity <= 0.0
      ensures BasisOf(k, s.positions.entries[k]) == 0.0 == ValueOf(s.lastPrices)(k, s.positions.entries[k])
    {
      assert SoundPosition(s.lastPrices, k, s.positions.entries[k]);
    }
  }

  lemma {:induction false} MarksLookup(s: State, prices: Dict<string, real>, n: nat, k: string)
    requires prices.Valid() && n <= |prices.keys| && k in s.positions.entries
    ensures k in prices.keys[..n] && prices.entries[k] > 0.0 ==>
              k in MarksTo(s, prices, n) && MarksTo(s, prices, n)[k] == prices.entries[k]
  {
    if n > 0 {
      MarksLookup(s, prices, n - 1, k);
      assert prices.keys[..n] == prices.keys[..n - 1] + [prices.keys[n - 1]];
    }
  }

  // Quoting the earlier marks once brings the earlier equity back exactly.
  lemma RemarkRestoresEquity(s: State, t: State, kill: bool, prices: Dict<string, real>)
    requires Sound(s) && prices.Valid() && prices.entries == s.lastPrices
    ensures var r := Restore(t, TakeSnapshot(s), kill);
      MarkToMarket(r, prices).positions.Valid() && Equity(MarkToMarket(r, prices)) == Equity(s)
  {
    RestoreKeepsOpenBooks(s, t, kill);
    var r := Restore(t, TakeSnapshot(s), kill);
    var u := MarkToMarket(r, prices);
    forall k | k in r.positions.entries
      ensures ValueOf(u.lastPrices)(k, u.positions.entries[k]) == ValueOf(s.lastPrices)(k, r.positions.entries[k])
    {
      OldMarkReturns(s, r, prices, k);
    }
    hide Restore, TakeSnapshot, NewMarks, ValueOf, SoundPosition;
    SumSame(r.positions, u.positions, ValueOf(s.lastPrices), ValueOf(u.lastPrices), |r.positions.keys|);
    FlatBasis(s);
    OpenSum(s.positions, ValueOf(s.lastPrices), |s.positions.keys|);
    SnapshotPositions(s, t, kill);
  }

  lemma SnapshotPositions(s: State, t: State, kill: bool)
    requires s.positions.Valid()
    ensures Restore(t, TakeSnapshot(s), kill).positions == OpenTo(s.positions, |s.positions.keys|)
    ensures Restore(t, TakeSnapshot(s), kill).cash == s.cash
  {
  }

  lemma OldMarkReturns(s: State, r: State, prices: Dict<string, real>, k: string)
    requires Sound(s) && prices.Valid() && prices.entries == s.lastPrices
    requires k in r.positions.entries && k in s.positions.entries && r.positions.entries[k] == s.positions.entries[k]
    ensures var u := MarkToMarket(r, prices);
      ValueOf(u.lastPrices)(k, u.positions.entries[k]) == ValueOf(s.lastPrices)(k, r.positions.entries[k])
  {
    assert SoundPosition(s.lastPrices, k, s.positions.entries[k]);
    assert prices.keys[..|prices.keys|] == prices.keys;
    MarksLookup(r, prices, |prices.keys|, k);
    hide Gain, Restore;
  }

  // Restoring a reachable state: the identity between cash, basis and realised P&L survives exactly
  // when the closed symbols had realised nothing in total.
  lemma RestoreKeepsAccountsIff(run: Session, n: nat, t: State, kill: bool)
    requires run.Valid() && n <= |run.events|
    ensures var s := run.At(n); var r := Restore(t, TakeSnapshot(s), kill);
      && r.positions.Valid()
      && (Accounted(run.cfg, r) <==> Sum(s.positions, FlatRealizedOf) == 0.0)
  {
    var s := run.At(n);
    AlwaysGood(run, n);
    RestoreKeepsOpenBooks(s, t, kill);
    FlatBasis(s);
    OpenSum(s.positions, BasisOf, |s.positions.keys|);
  }
}
