/** Detecting mispriced markets from order books, as in src/polymarket/opportunities.py. */
module Opportunities {
  import opened Prelude
  import opened Dicts
  import opened Sorting
  import opened PolyPositions

  datatype Confidence = Low | Medium | High | UnknownConfidence

  datatype Opportunity = Opportunity(
    strategy: Strategy, edgePct: real, confidence: Confidence, conditionId: string,
    yesToken: string, noToken: string, yesToken2: string, entryYes: real, entryNo: real, volume24h: real)
  {
    // Quoted order-book prices are never negative.
    predicate PricesQuoted() {
      entryYes >= 0.0 && entryNo >= 0.0
    }
  }

  datatype Quote = Quote(bestBid: real, bestAsk: real)

  datatype Orderbook = Orderbook(
    question: string, conditionId: string, yesToken: string, noToken: string, volume24h: real, yes: Quote, no: Quote)

  // ----- Order-book spreads -----

  // The riskless edge, in percent, of buying one share of each outcome.
  function SpreadEdge(ob: Orderbook, feePct: real): real {
    (1.0 - feePct - (ob.yes.bestAsk + ob.no.bestAsk)) * 100.0
  }

  function SpreadOpportunity(ob: Orderbook, feePct: real): Opportunity {
    var edge := SpreadEdge(ob, feePct);
    Opportunity(OrderbookSpread, Round4(edge), if edge >= 3.0 then High else Medium, ob.conditionId,
                ob.yesToken, ob.noToken, "", ob.yes.bestAsk, ob.no.bestAsk, ob.volume24h)
  }

  // detect_orderbook_spread: exactly the books whose edge reaches the minimum, in order.
  method DetectSpreads(books: seq<Orderbook>, feePct: real, minEdgePct: real) returns (found: seq<Opportunity>)
    ensures found == SpreadsAmong(books, feePct, minEdgePct)
  {
    found := [];
    for i := 0 to |books|
      invariant found == SpreadsAmong(books[..i], feePct, minEdgePct)
    {
      assert books[..i + 1][..i] == books[..i];
      if SpreadEdge(books[i], feePct) >= minEdgePct {
        found := found + [SpreadOpportunity(books[i], feePct)];
      }
    }
    assert books[..|books|] == books;
  }

  function SpreadsAmong(books: seq<Orderbook>, feePct: real, minEdgePct: real): seq<Opportunity> {
    if books == [] then []
    else
      var last := books[|books| - 1];
      SpreadsAmong(books[..|books| - 1], feePct, minEdgePct)
      + if SpreadEdge(last, feePct) >= minEdgePct then [SpreadOpportunity(last, feePct)] else []
  }

  // Books are judged one by one, and reported in their order.
  lemma {:induction false} SpreadsInOrder(a: seq<Orderbook>, b: seq<Orderbook>, feePct: real, minEdgePct: real)
    ensures SpreadsAmong(a + b, feePct, minEdgePct)
         == SpreadsAmong(a, feePct, minEdgePct) + SpreadsAmong(b, feePct, minEdgePct)
  {
    hide SpreadEdge, SpreadOpportunity;
    if b == [] {
      assert a + b == a;
    } else {
      assert (a + b)[..|a + b| - 1] == a + b[..|b| - 1];
      SpreadsInOrder(a, b[..|b| - 1], feePct, minEdgePct);
    }
  }

  // One share of each outcome at the asks, and the fee, leave at least the minimum edge of one dollar, and
  // the opportunity says so: both tokens of the book, each at its ask.
  ghost predicate SpreadQuoted(ob: Orderbook, feePct: real, minEdgePct: real, opp: Opportunity) {
    var edge := 100.0 - 100.0 * feePct - 100.0 * ob.yes.bestAsk - 100.0 * ob.no.bestAsk;
    && edge >= minEdgePct
    && opp.strategy == OrderbookSpread && opp.edgePct == Round4(edge)
    && opp.confidence == (if edge < 3.0 then Medium else High)
    && opp.conditionId == ob.conditionId && opp.volume24h == ob.volume24h
    && opp.yesToken == ob.yesToken && opp.entryYes == ob.yes.bestAsk
    && opp.noToken == ob.noToken && opp.entryNo == ob.no.bestAsk && opp.yesToken2 == ""
  }

  lemma SpreadQuotedIff(ob: Orderbook, feePct: real, minEdgePct: real, opp: Opportunity)
    ensures SpreadQuoted(ob, feePct, minEdgePct, opp)
        <==> SpreadEdge(ob, feePct) >= minEdgePct && opp == SpreadOpportunity(ob, feePct)
  {
    assert SpreadEdge(ob, feePct) == 100.0 - 100.0 * feePct - 100.0 * ob.yes.bestAsk - 100.0 * ob.no.bestAsk;
    hide SpreadEdge, Round4;
  }

  // An opportunity is flagged exactly when it quotes some book that leaves the minimum edge.
  lemma {:induction false} FlaggedSpreads(books: seq<Orderbook>, feePct: real, minEdgePct: real, opp: Opportunity)
    ensures opp in SpreadsAmong(books, feePct, minEdgePct) <==>
              exists ob :: ob in books && SpreadQuoted(ob, feePct, minEdgePct, opp)
  {
    hide SpreadQuoted, SpreadEdge, SpreadOpportunity;
    if books != [] {
      var last := books[|books| - 1];
      FlaggedSpreads(books[..|books| - 1], feePct, minEdgePct, opp);
      SpreadQuotedIff(last, feePct, minEdgePct, opp);
      assert books == books[..|books| - 1] + [last];
    }
  }

  // ----- Dominance violations -----

  // What the question says: nothing comparable, or "above this many dollars" on some topic. The
  // text patterns that decide this are a parameter.
  datatype Reading = NotComparable | Above(usd: real, topic: string)

  datatype Candidate = Candidate(threshold: real, topic: string, book: Orderbook)

  function Mid(c: Candidate): real {
    (c.book.yes.bestBid + c.book.yes.bestAsk) / 2.0
  }

  function Candidates(books: seq<Orderbook>, read: string -> Reading): seq<Candidate> {
    if books == [] then []
    else
      var last := books[|books| - 1];
      Candidates(books[..|books| - 1], read)
      + match read(last.question)
        case NotComparable => []
        case Above(usd, topic) => [Candidate(usd, topic, last)]
  }

  type Groups = Dict<string, seq<Candidate>>

  // Candidates by topic, each group in order of arrival.
  function GroupTo(candidates: seq<Candidate>, n: nat): Groups
    requires n <= |candidates|
  {
    if n == 0 then Empty()
    else
      var c, groups := candidates[n - 1], GroupTo(candidates, n - 1);
      groups.Set(c.topic, groups.Get(c.topic, []) + [c])
  }

  predicate ThresholdLeq(a: Candidate, b: Candidate) {
    a.threshold <= b.threshold
  }

  function Rise(a: Candidate, b: Candidate): real {
    Mid(b) - Mid(a)
  }

  // The market with the higher threshold is priced above the lower one by at least the minimum edge.
  predicate Violation(lower: Candidate, higher: Candidate, minEdgePct: real) {
    Rise(lower, higher) > 0.0 && Rise(lower, higher) * 100.0 >= minEdgePct
  }

  function PairOpportunity(lower: Candidate, higher: Candidate): Opportunity {
    Opportunity(CorrelatedMarkets, Round4(Rise(lower, higher) * 100.0), High, lower.book.conditionId,
                lower.book.yesToken, "", higher.book.yesToken, lower.book.yes.bestAsk, higher.book.yes.bestBid,
                Min(lower.book.volume24h, higher.book.volume24h))
  }

  // The violations among the first n adjacent pairs of a sorted group.
  function PairsTo(group: seq<Candidate>, minEdgePct: real, n: nat): seq<Opportunity>
    requires n == 0 || n < |group|
  {
    if n == 0 then []
    else
      PairsTo(group, minEdgePct, n - 1)
      + if Violation(group[n - 1], group[n], minEdgePct) then [PairOpportunity(group[n - 1], group[n])] else []
  }

  function GroupViolations(group: seq<Candidate>, minEdgePct: real): seq<Opportunity> {
    var sorted := StableSort(group, ThresholdLeq);
    if |sorted| < 2 then [] else PairsTo(sorted, minEdgePct, |sorted| - 1)
  }

  function ViolationsTo(groups: Groups, minEdgePct: real, n: nat): seq<Opportunity>
    requires n <= |groups.keys| && forall k :: k in groups.keys ==> k in groups.entries
  {
    if n == 0 then []
    else ViolationsTo(groups, minEdgePct, n - 1) + GroupViolations(groups.entries[groups.keys[n - 1]], minEdgePct)
  }

  lemma {:induction false} GroupsValid(candidates: seq<Candidate>, n: nat)
    requires n <= |candidates|
    ensures GroupTo(candidates, n).Valid()
  {
    if n > 0 {
      GroupsValid(candidates, n - 1);
      var c, groups := candidates[n - 1], GroupTo(candidates, n - 1);
      SetValid(groups, c.topic, groups.Get(c.topic, []) + [c]);
      hide Dict.Set, Dict.Get, Dict.Valid;
    }
  }

  method CollectCandidates(books: seq<Orderbook>, read: string -> Reading) returns (candidates: seq<Candidate>)
    ensures candidates == Candidates(books, read)
  {
    candidates := [];
    for i := 0 to |books|
      invariant candidates == Candidates(books[..i], read)
    {
      assert books[..i + 1][..i] == books[..i];
      match read(books[i].question) {
        case NotComparable =>
        case Above(usd, topic) =>
          candidates := candidates + [Candidate(usd, topic, books[i])];
      }
    }
    assert books[..|books|] == books;
  }

  method AdjacentViolations(unsorted: seq<Candidate>, minEdgePct: real) returns (found: seq<Opportunity>)
    ensures found == GroupViolations(unsorted, minEdgePct)
  {
    found := [];
    SortContents(unsorted, ThresholdLeq);
    assert |multiset(unsorted)| == |multiset(StableSort(unsorted, ThresholdLeq))|;
    if |unsorted| < 2 {
      return;
    }
    var group := StableSort(unsorted, ThresholdLeq);
    for i := 0 to |group| - 1
      invariant found == PairsTo(group, minEdgePct, i)
    {
      var lower, higher := group[i], group[i + 1];
      if Mid(higher) > Mid(lower) {
        if (Mid(higher) - Mid(lower)) * 100.0 >= minEdgePct {
          found := found + [PairOpportunity(lower, higher)];
        }
      }
    }
  }

  function Detect(books: seq<Orderbook>, read: string -> Reading, minEdgePct: real): seq<Opportunity> {
    var candidates := Candidates(books, read);
    GroupsValid(candidates, |candidates|);
    var groups := GroupTo(candidates, |candidates|);
    ViolationsTo(groups, minEdgePct, |groups.keys|)
  }

  // detect_correlated_markets: collect, group by topic, sort each group, check adjacent pairs.
  method DetectViolations(books: seq<Orderbook>, read: string -> Reading,
          minEdgePct: real) returns (found: seq<Opportunity>)
    ensures found == Detect(books, read, minEdgePct)
  {
    var candidates := CollectCandidates(books, read);
    var groups: Groups := Empty();
    for i := 0 to |candidates|
      invariant groups == GroupTo(candidates, i)
    {
      var c := candidates[i];
      groups := groups.Set(c.topic, groups.Get(c.topic, []) + [c]);
    }
    GroupsValid(candidates, |candidates|);
    found := [];
    for i := 0 to |groups.keys|
      invariant found == ViolationsTo(groups, minEdgePct, i)
    {
      var more := AdjacentViolations(groups.entries[groups.keys[i]], minEdgePct);
      found := found + more;
    }
  }
}
