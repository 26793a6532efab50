/** What checking adjacent thresholds only says about all pairs of markets on one topic. */
module Dominance {
  import opened Prelude
  import opened Dicts
  import opened Sorting
  import opened PolyPositions
  import opened Opportunities

  lemma {:induction false} PairsExactly(group: seq<Candidate>, minEdgePct: real, n: nat, opp: Opportunity)
    requires n == 0 || n < |group|
    ensures opp in PairsTo(group, minEdgePct, n) <==>
              exists i :: 0 <= i < n && Violation(group[i], group[i + 1], minEdgePct)
                  && opp == PairOpportunity(group[i], group[i + 1])
  {
    if n > 0 {
      PairsExactly(group, minEdgePct, n - 1, opp);
    }
  }

  lemma {:induction false} QuietPairs(group: seq<Candidate>, minEdgePct: real, n: nat)
    requires n == 0 || n < |group|
    ensures PairsTo(group, minEdgePct, n) == [] <==>
              forall i :: 0 <= i < n ==> !Violation(group[i], group[i + 1], minEdgePct)
  {
    if n > 0 {
      QuietPairs(group, minEdgePct, n - 1);
    }
  }

  // Rises telescope: if no adjacent pair between i and j rises by a step, the whole rise is below
  // the number of steps times the step.
  lemma {:induction false} RisesAddUp(group: seq<Candidate>, step: real, i: nat, j: nat)
    requires i < j < |group| && forall k :: i <= k < j ==> Rise(group[k], group[k + 1]) < step
    ensures Rise(group[i], group[j]) < (j - i) as real * step
  {
    if i + 1 < j {
      RisesAddUp(group, step, i, j - 1);
      assert (j - i) as real * step == (j - 1 - i) as real * step + step;
    }
  }

  lemma {:induction false} NeverRises(group: seq<Candidate>, i: nat, j: nat)
    requires i <= j < |group| && forall k :: i <= k < j ==> Rise(group[k], group[k + 1]) <= 0.0
    ensures Rise(group[i], group[j]) <= 0.0
  {
    if i < j {
      NeverRises(group, i, j - 1);
    }
  }

  lemma QuietStep(lower: Candidate, higher: Candidate, minEdgePct: real)
    requires !Violation(lower, higher, minEdgePct)
    ensures Rise(lower, higher) < minEdgePct / 100.0 || Rise(lower, higher) <= 0.0
  {
  }

  // A sorted group without a flagged pair: at a positive minimum edge any two of its markets can
  // still violate dominance, but only by less than one edge per step; at a minimum edge of zero or
  // below there is no violation at all.
  lemma QuietGroupBound(group: seq<Candidate>, minEdgePct: real, i: nat, j: nat)
    requires i < j < |group| && PairsTo(group, minEdgePct, |group| - 1) == []
    ensures minEdgePct > 0.0 ==> Rise(group[i], group[j]) < (j - i) as real * (minEdgePct / 100.0)
    ensures minEdgePct <= 0.0 ==> Rise(group[i], group[j]) <= 0.0
  {
    hide PairsTo, Rise, Violation;
    QuietPairs(group, minEdgePct, |group| - 1);
    forall k | i <= k < j
      ensures Rise(group[k], group[k + 1]) < minEdgePct / 100.0 || Rise(group[k], group[k + 1]) <= 0.0
    {
      QuietStep(group[k], group[k + 1], minEdgePct);
    }
    if minEdgePct > 0.0 {
      RisesAddUp(group, minEdgePct / 100.0, i, j);
    } else {
      NeverRises(group, i, j);
    }
  }

  lemma SomeStepRises(group: seq<Candidate>, step: real, i: nat, j: nat)
    requires i < j < |group| && Rise(group[i], group[j]) >= (j - i) as real * step
    ensures exists k :: i <= k < j && Rise(group[k], group[k + 1]) >= step
  {
    if !(exists k :: i <= k < j && Rise(group[k], group[k + 1]) >= step) {
      RisesAddUp(group, step, i, j);
    }
  }

  lemma RiseViolates(lower: Candidate, higher: Candidate, minEdgePct: real)
    requires minEdgePct > 0.0 && Rise(lower, higher) >= minEdgePct / 100.0
    ensures Violation(lower, higher, minEdgePct)
  {
  }

  // Conversely, a pair that far apart forces a flag somewhere between its two markets.
  lemma BigRiseIsFlagged(group: seq<Candidate>, minEdgePct: real, i: nat, j: nat)
    requires i < j < |group| && minEdgePct > 0.0 && Rise(group[i], group[j]) >= (j - i) as real * (minEdgePct / 100.0)
    ensures exists k :: i <= k < j && Violation(group[k], group[k + 1], minEdgePct)
                        && PairOpportunity(group[k], group[k + 1]) in PairsTo(group, minEdgePct, |group| - 1)
  {
    hide PairsTo, Rise;
    SomeStepRises(group, minEdgePct / 100.0, i, j);
    var k :| i <= k < j && Rise(group[k], group[k + 1]) >= minEdgePct / 100.0;
    RiseViolates(group[k], group[k + 1], minEdgePct);
    PairsExactly(group, minEdgePct, |group| - 1, PairOpportunity(group[k], group[k + 1]));
  }

  // Adjacent checking misses violations: three markets a step of 1% apart, at a minimum edge of 1.5%.
  lemma OuterPairMissed(book: Orderbook)
    ensures var at := (mid: real) => book.(yes := Quote(mid, mid));
      var group := [Candidate(1.0, "t", at(0.50)), Candidate(2.0, "t", at(0.51)), Candidate(3.0, "t", at(0.52))];
      Violation(group[0], group[2], 1.5) && PairsTo(group, 1.5, 2) == []
  {
    var at := (mid: real) => book.(yes := Quote(mid, mid));
    var group := [Candidate(1.0, "t", at(0.50)), Candidate(2.0, "t", at(0.51)), Candidate(3.0, "t", at(0.52))];
    assert PairsTo(group, 1.5, 1) == [];
  }

  // ----- The bound is sharp -----

  // n markets on one topic whose mid prices rise by the same step.
  function EvenGroup(n: nat, step: real, book: Orderbook): seq<Candidate> {
    seq(n, k requires 0 <= k < n => Candidate(k as real, "t", book.(yes := Quote(k as real * step, k as real * step))))
  }

  lemma EvenRise(n: nat, step: real, book: Orderbook, i: nat, j: nat)
    requires i <= j < n
    ensures Rise(EvenGroup(n, step, book)[i], EvenGroup(n, step, book)[j]) == (j - i) as real * step
  {
    var x, y := i as real, j as real;
    assert y * step - x * step == (y - x) * step;
  }

  lemma EvenGroupIsQuiet(n: nat, step: real, book: Orderbook, minEdgePct: real)
    requires n >= 1 && step < minEdgePct / 100.0
    ensures Sorted(EvenGroup(n, step, book), ThresholdLeq) && PairsTo(EvenGroup(n, step, book), minEdgePct, n - 1) == []
  {
    hide PairsTo, Rise;
    var group := EvenGroup(n, step, book);
    forall i | 0 <= i < n - 1 ensures !Violation(group[i], group[i + 1], minEdgePct) {
      EvenRise(n, step, book, i, i + 1);
    }
    QuietPairs(group, minEdgePct, n - 1);
  }

  // Every rise below (n - 1) edges is hidden by some quiet group of n markets, so no smaller bound
  // than that of QuietGroupBound holds.
  lemma QuietBoundIsSharp(n: nat, minEdgePct: real, rise: real, book: Orderbook) returns (group: seq<Candidate>)
    requires n >= 2 && minEdgePct > 0.0 && 0.0 < rise < (n - 1) as real * (minEdgePct / 100.0)
    ensures |group| == n && Sorted(group, ThresholdLeq) && PairsTo(group, minEdgePct, n - 1) == []
    ensures Rise(group[0], group[n - 1]) == rise
  {
    hide PairsTo, Rise;
    var steps := (n - 1) as real;
    var step := rise / steps;
    DivMul(rise, steps);
    if step >= minEdgePct / 100.0 {
      MulMono(minEdgePct / 100.0, step, steps);
    }
    group := EvenGroup(n, step, book);
    EvenGroupIsQuiet(n, step, book, minEdgePct);
    EvenRise(n, step, book, 0, n - 1);
  }

  // A sorted group of n markets without a report that hides a violation between two of them.
  ghost predicate Hides(group: seq<Candidate>, n: nat, minEdgePct: real, i: nat, j: nat) {
    && |group| == n && Sorted(group, ThresholdLeq) && i < j < n
    && PairsTo(group, minEdgePct, n - 1) == [] && Violation(group[i], group[j], minEdgePct)
  }

  lemma NothingHidden(group: seq<Candidate>, n: nat, minEdgePct: real, i: nat, j: nat)
    requires Hides(group, n, minEdgePct, i, j)
    ensures n >= 3 && minEdgePct > 0.0
  {
    hide PairsTo, Rise;
    QuietGroupBound(group, minEdgePct, i, j);
    QuietPairs(group, minEdgePct, n - 1);
  }

  lemma BelowTwoSteps(n: nat, minEdgePct: real)
    requires n >= 3 && minEdgePct > 0.0
    ensures 0.0 < 1.5 * (minEdgePct / 100.0) < (n - 1) as real * (minEdgePct / 100.0)
  {
    var steps, edge := (n - 1) as real, minEdgePct / 100.0;
    MulNonNeg(steps - 2.0, edge);
    assert (steps - 2.0) * edge == steps * edge - 2.0 * edge;
  }

  // A group of at least three markets that hides a rise of one and a half edges.
  lemma SomethingHidden(n: nat, minEdgePct: real, book: Orderbook) returns (group: seq<Candidate>)
    requires n >= 3 && minEdgePct > 0.0
    ensures Hides(group, n, minEdgePct, 0, n - 1)
  {
    hide PairsTo, Rise, Violation, Sorted;
    BelowTwoSteps(n, minEdgePct);
    group := QuietBoundIsSharp(n, minEdgePct, 1.5 * (minEdgePct / 100.0), book);
    RiseViolates(group[0], group[n - 1], minEdgePct);
  }

  // Adjacent checking can miss a violation among n markets exactly when there are at least three of
  // them and the minimum edge is positive.
  lemma AdjacentMissesIff(n: nat, minEdgePct: real, book: Orderbook)
    ensures (exists group: seq<Candidate>, i: nat, j: nat :: Hides(group, n, minEdgePct, i, j))
            <==> n >= 3 && minEdgePct > 0.0
  {
    hide Hides;
    if group: seq<Candidate>, i: nat, j: nat :| Hides(group, n, minEdgePct, i, j) {
      NothingHidden(group, n, minEdgePct, i, j);
    }
    if n >= 3 && minEdgePct > 0.0 {
      var group := SomethingHidden(n, minEdgePct, book);
      assert Hides(group, n, minEdgePct, 0, n - 1);
    }
  }

  // ----- From the whole scan to one pair -----

  function OfTopic(candidates: seq<Candidate>, topic: string): seq<Candidate> {
    if candidates == [] then []
    else
      var last := candidates[|candidates| - 1];
      OfTopic(candidates[..|candidates| - 1], topic) + if last.topic == topic then [last] else []
  }

  lemma OfTopicStep(candidates: seq<Candidate>, n: nat, topic: string)
    requires 0 < n <= |candidates|
    ensures OfTopic(candidates[..n], topic)
         == OfTopic(candidates[..n - 1], topic) + if candidates[n - 1].topic == topic then [candidates[n - 1]] else []
  {
    assert candidates[..n][..n - 1] == candidates[..n - 1];
  }

  // Grouping files every candidate under its own topic, in order, and nothing else.
  lemma {:induction false} GroupsAreTopics(candidates: seq<Candidate>, n: nat, topic: string)
    requires n <= |candidates|
    ensures GroupTo(candidates, n).Get(topic, []) == OfTopic(candidates[..n], topic)
    ensures topic in GroupTo(candidates, n).entries <==> OfTopic(candidates[..n], topic) != []
  {
    if n > 0 {
      hide OfTopic, Dict.Set, Dict.Get;
      GroupsAreTopics(candidates, n - 1, topic);
      OfTopicStep(candidates, n, topic);
      var c, groups := candidates[n - 1], GroupTo(candidates, n - 1);
      GetSet(groups, c.topic, groups.Get(c.topic, []) + [c], topic, []);
    }
  }

  lemma {:induction false} OfTopicMembers(candidates: seq<Candidate>, topic: string, c: Candidate)
    ensures c in OfTopic(candidates, topic) <==> c in candidates && c.topic == topic
  {
    if candidates != [] {
      OfTopicMembers(candidates[..|candidates| - 1], topic, c);
    }
  }

  lemma {:induction false} ViolationsCollect(groups: Groups, minEdgePct: real, n: nat, opp: Opportunity)
    requires groups.Valid() && n <= |groups.keys|
    ensures opp in ViolationsTo(groups, minEdgePct, n) <==>
              exists i :: 0 <= i < n && opp in GroupViolations(groups.entries[groups.keys[i]], minEdgePct)
  {
    hide GroupViolations;
    if n > 0 {
      ViolationsCollect(groups, minEdgePct, n - 1, opp);
    }
  }

  function InThresholdOrder(group: seq<Candidate>): seq<Candidate> {
    StableSort(group, ThresholdLeq)
  }

  // One topic's markets in threshold order.
  function SortedTopic(books: seq<Orderbook>, read: string -> Reading, topic: string): seq<Candidate> {
    InThresholdOrder(OfTopic(Candidates(books, read), topic))
  }

  lemma SortedTopicFacts(books: seq<Orderbook>, read: string -> Reading, topic: string)
    ensures Sorted(SortedTopic(books, read, topic), ThresholdLeq)
    ensures |SortedTopic(books, read, topic)| == |OfTopic(Candidates(books, read), topic)|
    ensures forall c :: c in SortedTopic(books, read, topic) <==> c in Candidates(books, read) && c.topic == topic
  {
    var group := OfTopic(Candidates(books, read), topic);
    assert TotalPreorder(ThresholdLeq);
    SortSorts(group, ThresholdLeq);
    SortContents(group, ThresholdLeq);
    var sorted := StableSort(group, ThresholdLeq);
    assert |multiset(sorted)| == |multiset(group)|;
    forall c ensures c in sorted <==> c in Candidates(books, read) && c.topic == topic {
      OfTopicMembers(Candidates(books, read), topic, c);
      assert c in multiset(sorted) <==> c in multiset(group);
    }
  }

  // The middle of the higher market's quotes lies above the lower market's by at least the minimum edge,
  // and the opportunity says so: buy the lower market's YES token at its best ask, against the higher
  // market's YES token at its best bid.
  ghost predicate PairQuoted(lower: Candidate, higher: Candidate, minEdgePct: real, opp: Opportunity) {
    var low, high := lower.book.yes, higher.book.yes;
    var edge := (high.bestBid + high.bestAsk - low.bestBid - low.bestAsk) * 50.0;
    && edge > 0.0 && edge >= minEdgePct
    && opp.strategy == CorrelatedMarkets && opp.edgePct == Round4(edge) && opp.confidence == High
    && opp.conditionId == lower.book.conditionId && opp.yesToken == lower.book.yesToken && opp.entryYes == low.bestAsk
    && opp.yesToken2 == higher.book.yesToken && opp.entryNo == high.bestBid && opp.noToken == ""
    && opp.volume24h <= lower.book.volume24h && opp.volume24h <= higher.book.volume24h
    && opp.volume24h in {lower.book.volume24h, higher.book.volume24h}
  }

  lemma PairQuotedIff(lower: Candidate, higher: Candidate, minEdgePct: real, opp: Opportunity)
    ensures PairQuoted(lower, higher, minEdgePct, opp)
        <==> Violation(lower, higher, minEdgePct) && opp == PairOpportunity(lower, higher)
  {
    var low, high := lower.book.yes, higher.book.yes;
    assert Rise(lower, higher) * 100.0 == (high.bestBid + high.bestAsk - low.bestBid - low.bestAsk) * 50.0;
    hide Rise, Round4;
  }

  // Two neighbours of a sorted group, reported as this opportunity.
  ghost predicate ReportedAt(group: seq<Candidate>, minEdgePct: real, i: nat, opp: Opportunity) {
    i + 1 < |group| && PairQuoted(group[i], group[i + 1], minEdgePct, opp)
  }

  // A pair of neighbours among the markets of one topic, reported as this opportunity.
  ghost predicate ReportedPair(books: seq<Orderbook>, read: string -> Reading, minEdgePct: real, topic: string, i: nat,
                               opp: Opportunity) {
    ReportedAt(SortedTopic(books, read, topic), minEdgePct, i, opp)
  }

  lemma GroupReport(group: seq<Candidate>, minEdgePct: real, opp: Opportunity)
    ensures opp in GroupViolations(group, minEdgePct) <==>
              exists i: nat :: ReportedAt(InThresholdOrder(group), minEdgePct, i, opp)
  {
    hide PairsTo, Violation, PairOpportunity, PairQuoted;
    var sorted := InThresholdOrder(group);
    forall i | 0 <= i < |sorted| - 1
      ensures PairQuoted(sorted[i], sorted[i + 1], minEdgePct, opp)
          <==> Violation(sorted[i], sorted[i + 1], minEdgePct) && opp == PairOpportunity(sorted[i], sorted[i + 1])
    {
      PairQuotedIff(sorted[i], sorted[i + 1], minEdgePct, opp);
    }
    if |sorted| >= 2 {
      PairsExactly(sorted, minEdgePct, |sorted| - 1, opp);
      if opp in PairsTo(sorted, minEdgePct, |sorted| - 1) {
        var i :| 0 <= i < |sorted| - 1 && Violation(sorted[i], sorted[i + 1], minEdgePct)
                 && opp == PairOpportunity(sorted[i], sorted[i + 1]);
        assert ReportedAt(sorted, minEdgePct, i, opp);
      }
      if i: nat :| ReportedAt(sorted, minEdgePct, i, opp) {
        assert 0 <= i < |sorted| - 1 && Violation(sorted[i], sorted[i + 1], minEdgePct);
      }
    }
  }

  // The report of one topic.
  lemma TopicReport(books: seq<Orderbook>, read: string -> Reading, minEdgePct: real, topic: string, opp: Opportunity)
    ensures opp in GroupViolations(OfTopic(Candidates(books, read), topic), minEdgePct) <==>
              exists i: nat :: ReportedPair(books, read, minEdgePct, topic, i, opp)
  {
    hide GroupViolations, ReportedAt, Candidates, OfTopic, InThresholdOrder;
    var sorted := SortedTopic(books, read, topic);
    GroupReport(OfTopic(Candidates(books, read), topic), minEdgePct, opp);
    if i: nat :| ReportedAt(sorted, minEdgePct, i, opp) {
      assert ReportedPair(books, read, minEdgePct, topic, i, opp);
    }
    if i: nat :| ReportedPair(books, read, minEdgePct, topic, i, opp) {
      assert ReportedAt(sorted, minEdgePct, i, opp);
    }
  }

  // The dictionary of groups holds exactly the non-empty topics.
  lemma GroupsFacts(candidates: seq<Candidate>)
    ensures var groups := GroupTo(candidates, |candidates|);
      && groups.Valid()
      && (forall k :: k in groups.entries ==> groups.entries[k] == OfTopic(candidates, k))
      && (forall k :: OfTopic(candidates, k) != [] ==> k in groups.entries)
  {
    hide GroupTo, OfTopic;
    var groups := GroupTo(candidates, |candidates|);
    GroupsValid(candidates, |candidates|);
    assert candidates[..|candidates|] == candidates;
    forall k: string
      ensures k in groups.entries ==> groups.entries[k] == OfTopic(candidates, k)
      ensures OfTopic(candidates, k) != [] ==> k in groups.entries
    {
      GroupsAreTopics(candidates, |candidates|, k);
    }
  }

  // The whole report is the union of the topics' reports.
  lemma ScanHasTopic(books: seq<Orderbook>, read: string -> Reading, minEdgePct: real, opp: Opportunity)
    requires opp in Detect(books, read, minEdgePct)
    ensures exists topic :: opp in GroupViolations(OfTopic(Candidates(books, read), topic), minEdgePct)
  {
    hide GroupViolations, OfTopic, Candidates, GroupTo, ViolationsTo;
    var candidates := Candidates(books, read);
    var groups := GroupTo(candidates, |candidates|);
    GroupsFacts(candidates);
    ViolationsCollect(groups, minEdgePct, |groups.keys|, opp);
    var i :| 0 <= i < |groups.keys| && opp in GroupViolations(groups.entries[groups.keys[i]], minEdgePct);
    assert opp in GroupViolations(OfTopic(candidates, groups.keys[i]), minEdgePct);
  }

  lemma TopicInScan(books: seq<Orderbook>, read: string -> Reading, minEdgePct: real, topic: string, opp: Opportunity)
    requires opp in GroupViolations(OfTopic(Candidates(books, read), topic), minEdgePct)
    ensures opp in Detect(books, read, minEdgePct)
  {
    hide GroupViolations, OfTopic, Candidates, GroupTo, ViolationsTo;
    var candidates := Candidates(books, read);
    var groups := GroupTo(candidates, |candidates|);
    GroupsFacts(candidates);
    NothingReportsNothing(minEdgePct);
    var k :| 0 <= k < |groups.keys| && groups.keys[k] == topic;
    assert opp in GroupViolations(groups.entries[groups.keys[k]], minEdgePct);
    ViolationsCollect(groups, minEdgePct, |groups.keys|, opp);
  }

  lemma NothingReportsNothing(minEdgePct: real)
    ensures GroupViolations([], minEdgePct) == []
  {
  }

  // The candidates are the books whose questions name a threshold, with their thresholds and topics.
  lemma {:induction false} CandidatesAre(books: seq<Orderbook>, read: string -> Reading, c: Candidate)
    ensures c in Candidates(books, read) <==> c.book in books && read(c.book.question) == Above(c.threshold, c.topic)
  {
    if books != [] {
      CandidatesAre(books[..|books| - 1], read, c);
      assert books == books[..|books| - 1] + [books[|books| - 1]];
    }
  }

  // Exactly the adjacent violations of each topic are reported: both markets of a reported pair are
  // on one topic, next to each other in threshold order, and priced apart by at least the minimum edge.
  lemma ReportedExactly(books: seq<Orderbook>, read: string -> Reading, minEdgePct: real, opp: Opportunity)
    ensures opp in Detect(books, read, minEdgePct) <==>
              exists topic: string, i: nat :: ReportedPair(books, read, minEdgePct, topic, i, opp)
  {
    hide Detect, GroupViolations, ReportedPair;
    if opp in Detect(books, read, minEdgePct) {
      ScanHasTopic(books, read, minEdgePct, opp);
      var topic :| opp in GroupViolations(OfTopic(Candidates(books, read), topic), minEdgePct);
      TopicReport(books, read, minEdgePct, topic, opp);
      var i: nat :| ReportedPair(books, read, minEdgePct, topic, i, opp);
    }
    if topic: string, i: nat :| ReportedPair(books, read, minEdgePct, topic, i, opp) {
      TopicReport(books, read, minEdgePct, topic, opp);
      TopicInScan(books, read, minEdgePct, topic, opp);
    }
  }

  lemma QuietTopic(books: seq<Orderbook>, read: string -> Reading, minEdgePct: real, topic: string)
    requires Detect(books, read, minEdgePct) == []
    ensures GroupViolations(OfTopic(Candidates(books, read), topic), minEdgePct) == []
  {
    hide GroupViolations, Detect;
    var report := GroupViolations(OfTopic(Candidates(books, read), topic), minEdgePct);
    if report != [] {
      TopicInScan(books, read, minEdgePct, topic, report[0]);
    }
  }

  // A scan that reports nothing bounds every pair on every topic by their distance in threshold
  // order; at a minimum edge of zero or below no price rises with the threshold at all.
  lemma QuietScanByDistance(books: seq<Orderbook>, read: string -> Reading, minEdgePct: real, topic: string, i: nat,
          j: nat)
    requires Detect(books, read, minEdgePct) == [] && i < j < |SortedTopic(books, read, topic)|
    ensures var group := SortedTopic(books, read, topic);
      && (minEdgePct > 0.0 ==> Rise(group[i], group[j]) < (j - i) as real * (minEdgePct / 100.0))
      && (minEdgePct <= 0.0 ==> Rise(group[i], group[j]) <= 0.0)
  {
    hide Detect, Candidates, OfTopic, StableSort, PairsTo, Rise;
    QuietTopic(books, read, minEdgePct, topic);
    QuietGroupBound(SortedTopic(books, read, topic), minEdgePct, i, j);
  }

  // For any two candidates of a topic: the market with the higher threshold is priced above the other
  // by less than (markets - 1) edges, and not at all when the minimum edge is zero or below.
  lemma QuietScanBoundsAllPairs(books: seq<Orderbook>, read: string -> Reading, minEdgePct: real, a: Candidate,
          b: Candidate)
    requires Detect(books, read, minEdgePct) == []
    requires a in Candidates(books, read) && b in Candidates(books, read) && a.topic == b.topic
        && a.threshold < b.threshold
    ensures minEdgePct > 0.0
        ==> Rise(a, b) < (|OfTopic(Candidates(books, read), a.topic)| - 1) as real * (minEdgePct / 100.0)
    ensures minEdgePct <= 0.0 ==> Rise(a, b) <= 0.0
  {
    hide Detect, Candidates, OfTopic, StableSort, Rise;
    SortedTopicFacts(books, read, a.topic);
    var group := SortedTopic(books, read, a.topic);
    var i, j := PlacesInOrder(group, a, b);
    QuietScanByDistance(books, read, minEdgePct, a.topic, i, j);
    if minEdgePct > 0.0 {
      MulMono((j - i) as real, (|group| - 1) as real, minEdgePct / 100.0);
    }
  }

  lemma PlacesInOrder(group: seq<Candidate>, a: Candidate, b: Candidate) returns (i: nat, j: nat)
    requires Sorted(group, ThresholdLeq) && a in group && b in group && a.threshold < b.threshold
    ensures i < j < |group| && group[i] == a && group[j] == b
  {
    i :| 0 <= i < |group| && group[i] == a;
    j :| 0 <= j < |group| && group[j] == b;
  }
}
