/** The retrying, range-aware market-data cache of src/data/loaders.py. */
module RangeCache {
  import opened Prelude
  import opened Sorting

  datatype Values = Values(open: real, high: real, low: real, close: real, volume: real)

  // A provider row; None stands for a timestamp or a number that cannot be read.
  datatype RawRow = RawRow(time: Option<int>, values: Option<Values>)

  datatype Row = Row(time: int, values: Values)

  type Frame = seq<Row>

  // ----- Normalisation -----

  function Readable(raw: seq<RawRow>): seq<Row> {
    if raw == [] then []
    else
      var last := raw[|raw| - 1];
      Readable(raw[..|raw| - 1])
      + if last.time.Some? && last.values.Some? then [Row(last.time.value, last.values.value)] else []
  }

  function WithoutTime(rows: seq<Row>, time: int): seq<Row> {
    if rows == [] then []
    else WithoutTime(rows[..|rows| - 1], time) + if rows[|rows| - 1].time != time then [rows[|rows| - 1]] else []
  }

  // Of several rows with one timestamp, keeps the last.
  function KeepLast(rows: seq<Row>): seq<Row> {
    if rows == [] then []
    else WithoutTime(KeepLast(rows[..|rows| - 1]), rows[|rows| - 1].time) + [rows[|rows| - 1]]
  }

  predicate TimeLeq(a: Row, b: Row) {
    a.time <= b.time
  }

  // None when no row is readable, which the loader treats as an error.
  function Normalize(raw: seq<RawRow>): Option<Frame> {
    if Readable(raw) == [] then None else Some(StableSort(KeepLast(Readable(raw)), TimeLeq))
  }

  // ----- Ranges -----

  predicate Within(time: int, start: Option<int>, end: Option<int>) {
    (start.Some? ==> time >= start.value) && (end.Some? ==> time <= end.value)
  }

  function Slice(frame: Frame, start: Option<int>, end: Option<int>): Frame {
    if frame == [] then []
    else
      var last := frame[|frame| - 1];
      Slice(frame[..|frame| - 1], start, end) + if Within(last.time, start, end) then [last] else []
  }

  // The cached frame starts no later and ends no earlier than the request, where it has bounds.
  predicate Covers(frame: Frame, start: Option<int>, end: Option<int>) {
    && frame != []
    && (start.Some? ==> frame[0].time <= start.value)
    && (end.Some? ==> frame[|frame| - 1].time >= end.value)
  }

  // ----- Loading -----

  datatype Answer = Fails | Returns(rows: seq<RawRow>)

  // One call of load, with what the provider would answer at each attempt.
  datatype Request = Request(start: Option<int>, end: Option<int>, forceRefresh: bool, answers: seq<Answer>)

  // The frame to store and the frame to return, if this answer is usable for the request.
  function Accept(answer: Answer, start: Option<int>, end: Option<int>): Option<Frame> {
    if answer.Fails? || Normalize(answer.rows).None? || Slice(Normalize(answer.rows).value, start, end) == [] then None
    else Normalize(answer.rows)
  }

  // The first usable answer from attempt i on.
  function Fetch(answers: seq<Answer>, start: Option<int>, end: Option<int>, i: nat): Option<Frame>
    requires i <= |answers|
    decreases |answers| - i
  {
    if i == |answers| then None
    else if Accept(answers[i], start, end).Some? then Accept(answers[i], start, end)
    else Fetch(answers, start, end, i + 1)
  }

  predicate Hit(cache: Option<Frame>, req: Request) {
    !req.forceRefresh && cache.Some? && Covers(cache.value, req.start, req.end)
        && Slice(cache.value, req.start, req.end) != []
  }

  // The returned frame, if any, and the cache afterwards.
  function Load(cache: Option<Frame>, req: Request): (Option<Frame>, Option<Frame>) {
    if Hit(cache, req) then (Some(Slice(cache.value, req.start, req.end)), cache)
    else
      match Fetch(req.answers, req.start, req.end, 0)
      case None => (None, cache)
      case Some(frame) => (Some(Slice(frame, req.start, req.end)), Some(frame))
  }

  class HistoricalDataLoader {
    var cache: map<string, Frame>

    constructor ()
      ensures cache == map[]
    {
      cache := map[];
    }

    ghost function Cached(path: string): Option<Frame>
      reads this
    {
      if path in cache then Some(cache[path]) else None
    }

    // Serves from the cache when it covers the request, else retries the provider and overwrites the
    // cache with what it normalised. Other cache files are untouched.
    method LoadRange(path: string, req: Request) returns (frame: Option<Frame>)
      modifies this
      ensures (frame, Cached(path)) == old(Load(Cached(path), req))
      ensures forall other :: other != path ==> Cached(other) == old(Cached(other))
    {
      hide Slice, Covers;
      if !req.forceRefresh && path in cache {
        var sliced := Slice(cache[path], req.start, req.end);
        if Covers(cache[path], req.start, req.end) && sliced != [] {
          return Some(sliced);
        }
      }
      for attempt := 0 to |req.answers|
        invariant cache == old(cache)
        invariant Fetch(req.answers, req.start, req.end, 0) == Fetch(req.answers, req.start, req.end, attempt)
      {
        var answer := req.answers[attempt];
        if answer.Returns? {
          var normalized := Normalize(answer.rows);
          if normalized.Some? {
            var sliced := Slice(normalized.value, req.start, req.end);
            if sliced != [] {
              cache := cache[path := normalized.value];
              return Some(sliced);
            }
          }
        }
      }
      return None;
    }
  }

  // ----- Strictly ordered frames -----

  ghost predicate Strict(frame: Frame) {
    forall i, j :: 0 <= i < j < |frame| ==> frame[i].time < frame[j].time
  }

  // Two strictly ordered frames with the same rows are the same frame.
  lemma {:induction false} StrictUnique(a: Frame, b: Frame)
    requires Strict(a) && Strict(b) && forall r :: r in a <==> r in b
    ensures a == b
  {
    if b != [] {
      SharesRow(a, b);
    }
    if a != [] {
      assert a[0] in b;
      assert b[0] in a;
      assert a[0] == b[0];
      SameTails(a, b);
      StrictUnique(a[1..], b[1..]);
      assert a == [a[0]] + a[1..] && b == [b[0]] + b[1..];
    }
  }

  lemma SharesRow(a: Frame, b: Frame)
    requires b != [] && forall r :: r in a <==> r in b
    ensures a != []
  {
    assert b[0] in a;
  }

  lemma SameTails(a: Frame, b: Frame)
    requires Strict(a) && Strict(b) && a != [] && b != [] && a[0] == b[0] && forall r :: r in a <==> r in b
    ensures forall r :: r in a[1..] <==> r in b[1..]
  {
    forall r ensures r in a[1..] <==> r in a && r != a[0] {
      assert a == [a[0]] + a[1..];
    }
    forall r ensures r in b[1..] <==> r in b && r != b[0] {
      assert b == [b[0]] + b[1..];
    }
  }

  lemma {:induction false} SliceMembers(frame: Frame, start: Option<int>, end: Option<int>, r: Row)
    ensures r in Slice(frame, start, end) <==> r in frame && Within(r.time, start, end)
  {
    if frame != [] {
      SliceMembers(frame[..|frame| - 1], start, end, r);
      assert frame == frame[..|frame| - 1] + [frame[|frame| - 1]];
    }
  }

  lemma {:induction false} SliceStrict(frame: Frame, start: Option<int>, end: Option<int>)
    requires Strict(frame)
    ensures Strict(Slice(frame, start, end))
  {
    if frame != [] {
      var front := frame[..|frame| - 1];
      SliceStrict(front, start, end);
      forall i | 0 <= i < |Slice(front, start, end)|
        ensures Slice(front, start, end)[i].time < frame[|frame| - 1].time
      {
        SliceMembers(front, start, end, Slice(front, start, end)[i]);
      }
    }
  }

  lemma {:induction false} WithoutTimeMembers(rows: seq<Row>, time: int, r: Row)
    ensures r in WithoutTime(rows, time) <==> r in rows && r.time != time
  {
    if rows != [] {
      WithoutTimeMembers(rows[..|rows| - 1], time, r);
      assert rows == rows[..|rows| - 1] + [rows[|rows| - 1]];
    }
  }

  ghost predicate DistinctTimes(rows: seq<Row>) {
    forall i, j :: 0 <= i < j < |rows| ==> rows[i].time != rows[j].time
  }

  lemma {:induction false} WithoutTimeDistinct(rows: seq<Row>, time: int)
    requires DistinctTimes(rows)
    ensures DistinctTimes(WithoutTime(rows, time))
  {
    if rows != [] {
      var front, last := rows[..|rows| - 1], rows[|rows| - 1];
      WithoutTimeDistinct(front, time);
      forall i | 0 <= i < |WithoutTime(front, time)| ensures WithoutTime(front, time)[i].time != last.time {
        WithoutTimeMembers(front, time, WithoutTime(front, time)[i]);
      }
    }
  }

  lemma {:induction false} KeepLastDistinct(rows: seq<Row>)
    ensures DistinctTimes(KeepLast(rows))
  {
    if rows != [] {
      var kept, last := KeepLast(rows[..|rows| - 1]), rows[|rows| - 1];
      KeepLastDistinct(rows[..|rows| - 1]);
      WithoutTimeDistinct(kept, last.time);
      forall i | 0 <= i < |WithoutTime(kept, last.time)| ensures WithoutTime(kept, last.time)[i].time != last.time {
        WithoutTimeMembers(kept, last.time, WithoutTime(kept, last.time)[i]);
      }
    }
  }

  lemma KeepLastStep(rows: seq<Row>, r: Row)
    requires rows != []
    ensures var last := rows[|rows| - 1];
      r in KeepLast(rows) <==> r == last || (r in KeepLast(rows[..|rows| - 1]) && r.time != last.time)
  {
    WithoutTimeMembers(KeepLast(rows[..|rows| - 1]), rows[|rows| - 1].time, r);
  }

  // The row that the last occurrence of its timestamp holds.
  ghost predicate LastOfItsTime(rows: seq<Row>, r: Row, i: nat) {
    i < |rows| && rows[i] == r && forall j :: i < j < |rows| ==> rows[j].time != r.time
  }

  lemma LastOfItsTimeStep(rows: seq<Row>, r: Row)
    requires rows != []
    ensures var front, last := rows[..|rows| - 1], rows[|rows| - 1];
      (exists i: nat :: LastOfItsTime(rows, r, i))
      <==> r == last || ((exists i: nat :: LastOfItsTime(front, r, i)) && r.time != last.time)
  {
    var front, last := rows[..|rows| - 1], rows[|rows| - 1];
    if r == last {
      assert LastOfItsTime(rows, r, |rows| - 1);
    }
    if i: nat :| LastOfItsTime(front, r, i) && r.time != last.time {
      assert LastOfItsTime(rows, r, i);
    }
    if i: nat :| LastOfItsTime(rows, r, i) && r != last {
      assert LastOfItsTime(front, r, i);
    }
  }

  lemma {:induction false} KeepLastKeepsLast(rows: seq<Row>, r: Row)
    ensures r in KeepLast(rows) <==> exists i: nat :: LastOfItsTime(rows, r, i)
  {
    if rows != [] {
      hide LastOfItsTime, KeepLast;
      KeepLastKeepsLast(rows[..|rows| - 1], r);
      KeepLastStep(rows, r);
      LastOfItsTimeStep(rows, r);
    }
  }

  lemma SortedRows(rows: seq<Row>)
    requires DistinctTimes(rows)
    ensures Strict(StableSort(rows, TimeLeq))
    ensures forall r :: r in StableSort(rows, TimeLeq) <==> r in rows
  {
    assert TotalPreorder(TimeLeq);
    SortSorts(rows, TimeLeq);
    SortContents(rows, TimeLeq);
    var sorted := StableSort(rows, TimeLeq);
    forall r ensures r in sorted <==> r in rows {
      assert r in multiset(sorted) <==> r in multiset(rows);
    }
    forall i, j | 0 <= i < j < |sorted| ensures sorted[i].time < sorted[j].time {
      assert TimeLeq(sorted[i], sorted[j]);
      if sorted[i].time == sorted[j].time {
        SameTimeSameRow(rows, sorted[i], sorted[j]);
        OnceEach(rows, sorted[i]);
        AtLeastTwice(sorted, i, j);
      }
    }
  }

  lemma SameTimeSameRow(rows: seq<Row>, x: Row, y: Row)
    requires DistinctTimes(rows) && x in rows && y in rows && x.time == y.time
    ensures x == y
  {
    var k :| 0 <= k < |rows| && rows[k] == x;
    var l :| 0 <= l < |rows| && rows[l] == y;
    assert k == l;
  }

  lemma OnceEach(rows: seq<Row>, x: Row)
    requires DistinctTimes(rows)
    ensures multiset(rows)[x] <= 1
  {
    if x in rows {
      var k :| 0 <= k < |rows| && rows[k] == x;
      assert rows == rows[..k] + [x] + rows[k + 1..];
      assert x !in rows[..k];
      assert x !in rows[k + 1..];
    }
  }

  lemma AtLeastTwice(rows: seq<Row>, i: nat, j: nat)
    requires i < j < |rows| && rows[i] == rows[j]
    ensures multiset(rows)[rows[i]] >= 2
  {
    assert rows == rows[..i] + [rows[i]] + rows[i + 1..j] + [rows[j]] + rows[j + 1..];
  }

  // A normalised frame is strictly increasing in time and holds exactly the rows that are readable
  // and the last of their timestamp.
  lemma NormalizeMeans(raw: seq<RawRow>, r: Row)
    requires Normalize(raw).Some?
    ensures Strict(Normalize(raw).value)
    ensures r in Normalize(raw).value <==> exists i: nat :: LastOfItsTime(Readable(raw), r, i)
  {
    hide KeepLast, StableSort, LastOfItsTime;
    KeepLastDistinct(Readable(raw));
    SortedMember(KeepLast(Readable(raw)), r);
    KeepLastKeepsLast(Readable(raw), r);
    assert r in KeepLast(Readable(raw)) <==> exists i: nat :: LastOfItsTime(Readable(raw), r, i);
    assert r in Normalize(raw).value <==> r in KeepLast(Readable(raw));
  }

  lemma SortedMember(rows: seq<Row>, r: Row)
    requires DistinctTimes(rows)
    ensures Strict(StableSort(rows, TimeLeq))
    ensures r in StableSort(rows, TimeLeq) <==> r in rows
  {
    SortedRows(rows);
  }

  // ----- One fixed series -----

  // Dropping earlier duplicates and cutting to a range can be done in either order.
  lemma {:induction false} KeepLastOfSlice(rows: seq<Row>, start: Option<int>, end: Option<int>, r: Row)
    ensures r in KeepLast(Slice(rows, start, end)) <==> r in KeepLast(rows) && Within(r.time, start, end)
  {
    if rows != [] {
      var front, last := rows[..|rows| - 1], rows[|rows| - 1];
      KeepLastOfSlice(front, start, end, r);
      KeepLastStep(rows, r);
      if Within(last.time, start, end) {
        assert Slice(rows, start, end) == Slice(front, start, end) + [last];
        assert Slice(rows, start, end)[..|Slice(front, start, end)|] == Slice(front, start, end);
        KeepLastStep(Slice(rows, start, end), r);
      } else {
        assert Slice(rows, start, end) == Slice(front, start, end);
      }
    }
  }

  // Normalising only the rows of a range, or normalising everything and then slicing, is the same.
  lemma NormalizeCommutesWithSlice(raw: seq<RawRow>, part: seq<RawRow>, start: Option<int>, end: Option<int>)
    requires Normalize(raw).Some? && Normalize(part).Some?
    requires Readable(part) == Slice(Readable(raw), start, end)
    ensures Normalize(part).value == Slice(Normalize(raw).value, start, end)
  {
    hide KeepLast, StableSort, Readable;
    KeepLastDistinct(Readable(part));
    KeepLastDistinct(Readable(raw));
    SortedRows(KeepLast(Readable(part)));
    SortedRows(KeepLast(Readable(raw)));
    SliceStrict(Normalize(raw).value, start, end);
    forall r ensures r in Normalize(part).value <==> r in Slice(Normalize(raw).value, start, end) {
      KeepLastOfSlice(Readable(raw), start, end, r);
      SliceMembers(Normalize(raw).value, start, end, r);
    }
    StrictUnique(Normalize(part).value, Slice(Normalize(raw).value, start, end));
  }

  function AsRaw(frame: Frame): seq<RawRow> {
    seq(|frame|, i requires 0 <= i < |frame| => RawRow(Some(frame[i].time), Some(frame[i].values)))
  }

  lemma {:induction false} AsRawReadable(frame: Frame)
    ensures Readable(AsRaw(frame)) == frame
  {
    if frame != [] {
      AsRawReadable(frame[..|frame| - 1]);
      assert AsRaw(frame)[..|frame| - 1] == AsRaw(frame[..|frame| - 1]);
    }
  }

  // Normalising a normalised frame changes nothing.
  lemma NormalizeIdempotent(raw: seq<RawRow>)
    requires Normalize(raw).Some?
    ensures Normalize(AsRaw(Normalize(raw).value)) == Normalize(raw)
  {
    hide KeepLast, StableSort, Readable;
    var frame := Normalize(raw).value;
    KeepLastDistinct(Readable(raw));
    SortedRows(KeepLast(Readable(raw)));
    AsRawReadable(frame);
    NormalNonEmpty(raw);
    KeepLastDistinct(frame);
    SortedRows(KeepLast(frame));
    forall r ensures r in StableSort(KeepLast(frame), TimeLeq) <==> r in frame {
      StrictKeepsAll(frame, r);
    }
    StrictUnique(StableSort(KeepLast(frame), TimeLeq), frame);
  }

  lemma NormalNonEmpty(raw: seq<RawRow>)
    requires Normalize(raw).Some?
    ensures Normalize(raw).value != []
  {
    var rows := Readable(raw);
    KeepLastStep(rows, rows[|rows| - 1]);
    SortContents(KeepLast(rows), TimeLeq);
    assert rows[|rows| - 1] in multiset(KeepLast(rows));
    assert rows[|rows| - 1] in multiset(StableSort(KeepLast(rows), TimeLeq));
  }

  lemma {:induction false} StrictKeepsAll(frame: Frame, r: Row)
    requires Strict(frame)
    ensures r in KeepLast(frame) <==> r in frame
  {
    if frame != [] {
      hide KeepLast;
      StrictKeepsAll(frame[..|frame| - 1], r);
      KeepLastStep(frame, r);
      LastIsLatest(frame, r);
    }
  }

  lemma LastIsLatest(frame: Frame, r: Row)
    requires Strict(frame) && frame != []
    ensures r in frame <==> r == frame[|frame| - 1] || r in frame[..|frame| - 1]
    ensures r in frame[..|frame| - 1] ==> r.time != frame[|frame| - 1].time
  {
    assert frame == frame[..|frame| - 1] + [frame[|frame| - 1]];
  }

  // ----- Coherence -----

  // A provider for one fixed series answers a request with failure, with rows none of which can be
  // read, or with the readable rows of the requested range.
  ghost predicate Honest(series: seq<RawRow>, start: Option<int>, end: Option<int>, a: Answer) {
    a.Returns? ==> Readable(a.rows) == [] || Readable(a.rows) == Slice(Readable(series), start, end)
  }

  ghost predicate HonestRequest(series: seq<RawRow>, req: Request) {
    forall i :: 0 <= i < |req.answers| ==> Honest(series, req.start, req.end, req.answers[i])
  }

  // The cached frame is a contiguous, non-empty range of the normalised series.
  ghost predicate IsRange(series: Frame, frame: Frame, lo: Option<int>, hi: Option<int>) {
    frame != [] && frame == Slice(series, lo, hi)
  }

  ghost predicate Coherent(series: seq<RawRow>, cache: Option<Frame>) {
    cache.Some? ==> Normalize(series).Some? && exists lo, hi :: IsRange(Normalize(series).value, cache.value, lo, hi)
  }

  lemma {:induction false} SliceTwice(frame: Frame, start: Option<int>, end: Option<int>)
    ensures Slice(Slice(frame, start, end), start, end) == Slice(frame, start, end)
  {
    if frame != [] {
      var front, last := frame[..|frame| - 1], frame[|frame| - 1];
      SliceTwice(front, start, end);
      if Within(last.time, start, end) {
        var cut := Slice(front, start, end) + [last];
        assert Slice(frame, start, end) == cut;
        assert cut[..|cut| - 1] == Slice(front, start, end);
      } else {
        assert Slice(frame, start, end) == Slice(front, start, end);
      }
    }
  }

  lemma SliceOfSomething(frame: Frame, start: Option<int>, end: Option<int>)
    ensures Slice(frame, start, end) != [] ==> frame != []
  {
  }

  lemma AcceptedIsRange(series: seq<RawRow>, req: Request, a: Answer)
    requires Honest(series, req.start, req.end, a) && Accept(a, req.start, req.end).Some?
    ensures Normalize(series).Some?
    ensures Accept(a, req.start, req.end).value == Slice(Normalize(series).value, req.start, req.end)
    ensures Accept(a, req.start, req.end).value != []
  {
    hide StableSort, KeepLast;
    SliceOfSomething(Readable(series), req.start, req.end);
    NormalNonEmpty(a.rows);
    NormalizeCommutesWithSlice(series, a.rows, req.start, req.end);
  }

  lemma {:induction false} FetchIsRange(series: seq<RawRow>, req: Request, i: nat)
    requires i <= |req.answers| && HonestRequest(series, req) && Fetch(req.answers, req.start, req.end, i).Some?
    ensures Normalize(series).Some?
    ensures Fetch(req.answers, req.start, req.end, i).value == Slice(Normalize(series).value, req.start, req.end)
    ensures Fetch(req.answers, req.start, req.end, i).value != []
    decreases |req.answers| - i
  {
    hide Accept, Normalize;
    assert Honest(series, req.start, req.end, req.answers[i]);
    if Accept(req.answers[i], req.start, req.end).Some? {
      AcceptedIsRange(series, req, req.answers[i]);
    } else {
      FetchIsRange(series, req, i + 1);
    }
  }

  // Every load keeps the cache a contiguous range of the series.
  lemma LoadKeepsCoherence(series: seq<RawRow>, cache: Option<Frame>, req: Request)
    requires Coherent(series, cache) && HonestRequest(series, req)
    ensures Coherent(series, Load(cache, req).1)
  {
    hide Slice, Normalize, Covers;
    if !Hit(cache, req) && Fetch(req.answers, req.start, req.end, 0).Some? {
      FetchIsRange(series, req, 0);
      assert IsRange(Normalize(series).value, Fetch(req.answers, req.start, req.end, 0).value, req.start, req.end);
    }
  }

  // What a cache hit returns is the series cut to the bounds, exactly when the request bounds the
  // series wherever the cache does: an open end must not reach past what the cache holds.
  lemma HitExactIff(series: Frame, frame: Frame, lo: Option<int>, hi: Option<int>, start: Option<int>, end: Option<int>)
    requires Strict(series) && IsRange(series, frame, lo, hi) && Covers(frame, start, end)
        && Slice(frame, start, end) != []
    ensures Slice(frame, start, end) == Slice(series, start, end)
            <==> ((start.None? ==> forall r :: r in series ==> r.time >= frame[0].time)
                  && (end.None? ==> forall r :: r in series ==> r.time <= frame[|frame| - 1].time))
  {
    hide Slice;
    HitRows(series, frame, lo, hi);
    SliceStrict(series, lo, hi);
    SliceStrict(frame, start, end);
    SliceStrict(series, start, end);
    var x := Slice(frame, start, end)[0];
    SliceMembers(frame, start, end, x);
    if Slice(frame, start, end) == Slice(series, start, end) {
      forall r | r in series && start.None? ensures r.time >= frame[0].time {
        SliceMembers(series, start, end, r);
        SliceMembers(frame, start, end, r);
      }
      forall r | r in series && end.None? ensures r.time <= frame[|frame| - 1].time {
        SliceMembers(series, start, end, r);
        SliceMembers(frame, start, end, r);
      }
    }
    if (start.None? ==> forall r :: r in series ==> r.time >= frame[0].time)
      && (end.None? ==> forall r :: r in series ==> r.time <= frame[|frame| - 1].time)
    {
      forall r ensures r in Slice(frame, start, end) <==> r in Slice(series, start, end) {
        SliceMembers(frame, start, end, r);
        SliceMembers(series, start, end, r);
      }
      StrictUnique(Slice(frame, start, end), Slice(series, start, end));
    }
  }

  // A contiguous range holds exactly the series' rows between its first and its last.
  lemma HitRows(series: Frame, frame: Frame, lo: Option<int>, hi: Option<int>)
    requires Strict(series) && IsRange(series, frame, lo, hi)
    ensures forall r :: r in frame <==> r in series && frame[0].time <= r.time <= frame[|frame| - 1].time
  {
    hide Slice;
    SliceStrict(series, lo, hi);
    SliceMembers(series, lo, hi, frame[0]);
    SliceMembers(series, lo, hi, frame[|frame| - 1]);
    forall r ensures r in frame <==> r in series && frame[0].time <= r.time <= frame[|frame| - 1].time {
      SliceMembers(series, lo, hi, r);
      if r in frame {
        var i :| 0 <= i < |frame| && frame[i] == r;
      }
    }
  }

  lemma NormalizeStrict(raw: seq<RawRow>)
    requires Normalize(raw).Some?
    ensures Strict(Normalize(raw).value)
  {
    KeepLastDistinct(Readable(raw));
    SortedRows(KeepLast(Readable(raw)));
  }

  // A successful load with both bounds returns the series cut to the bounds, from the cache or not.
  lemma BoundedLoadIsExact(series: seq<RawRow>, cache: Option<Frame>, req: Request)
    requires Coherent(series, cache) && HonestRequest(series, req) && Load(cache, req).0.Some?
    requires Hit(cache, req) ==> req.start.Some? && req.end.Some?
    ensures Normalize(series).Some?
    ensures Load(cache, req).0.value == Slice(Normalize(series).value, req.start, req.end)
    ensures Load(cache, req).0.value != []
  {
    hide Slice, Normalize, Covers;
    if Hit(cache, req) {
      var lo, hi :| IsRange(Normalize(series).value, cache.value, lo, hi);
      NormalizeStrict(series);
      HitExactIff(Normalize(series).value, cache.value, lo, hi, req.start, req.end);
    } else {
      FetchIsRange(series, req, 0);
      SliceTwice(Normalize(series).value, req.start, req.end);
    }
  }

  // ----- When a load succeeds -----

  predicate InRange(time: int, start: Option<int>, end: Option<int>) {
    (start.None? || start.value <= time) && (end.None? || time <= end.value)
  }

  // Slicing keeps exactly the rows between the bounds, both included, in their order.
  lemma {:induction false} SliceIs(frame: Frame, start: Option<int>, end: Option<int>)
    ensures forall r :: r in Slice(frame, start, end) <==> r in frame && InRange(r.time, start, end)
    ensures Strict(frame) ==> Strict(Slice(frame, start, end))
  {
    forall r ensures r in Slice(frame, start, end) <==> r in frame && InRange(r.time, start, end) {
      SliceMembers(frame, start, end, r);
    }
    if Strict(frame) {
      SliceStrict(frame, start, end);
    }
  }

  // Some row of the answer can be read and lies between the bounds.
  ghost predicate Useful(a: Answer, start: Option<int>, end: Option<int>) {
    a.Returns? && exists k :: 0 <= k < |a.rows| && a.rows[k].time.Some? && a.rows[k].values.Some?
                              && InRange(a.rows[k].time.value, start, end)
  }

  lemma {:induction false} ReadableAre(raw: seq<RawRow>, r: Row)
    ensures r in Readable(raw) <==>
              exists k :: 0 <= k < |raw| && raw[k].time == Some(r.time) && raw[k].values == Some(r.values)
  {
    if raw != [] {
      ReadableAre(raw[..|raw| - 1], r);
    }
  }

  ghost predicate HasTime(rows: seq<Row>, time: int) {
    exists r :: r in rows && r.time == time
  }

  lemma HasTimeStep(rows: seq<Row>, time: int)
    requires rows != []
    ensures HasTime(rows, time) <==> HasTime(rows[..|rows| - 1], time) || rows[|rows| - 1].time == time
  {
    assert rows == rows[..|rows| - 1] + [rows[|rows| - 1]];
    assert rows[|rows| - 1] in rows;
  }

  lemma KeepLastTimeStep(rows: seq<Row>, time: int)
    requires rows != []
    ensures HasTime(KeepLast(rows), time)
        <==> HasTime(KeepLast(rows[..|rows| - 1]), time) || rows[|rows| - 1].time == time
  {
    hide KeepLast;
    var front, last := rows[..|rows| - 1], rows[|rows| - 1];
    KeepLastStep(rows, last);
    if HasTime(KeepLast(front), time) && time != last.time {
      var r :| r in KeepLast(front) && r.time == time;
      KeepLastStep(rows, r);
    }
    if HasTime(KeepLast(rows), time) {
      var r :| r in KeepLast(rows) && r.time == time;
      KeepLastStep(rows, r);
    }
  }

  // Every readable time has a row in the normalised frame.
  lemma {:induction false} KeepLastKeepsTimes(rows: seq<Row>, time: int)
    ensures HasTime(KeepLast(rows), time) <==> HasTime(rows, time)
  {
    if rows != [] {
      hide KeepLast, HasTime;
      KeepLastKeepsTimes(rows[..|rows| - 1], time);
      HasTimeStep(rows, time);
      KeepLastTimeStep(rows, time);
    }
  }

  lemma UsefulIff(a: Answer, start: Option<int>, end: Option<int>)
    ensures Accept(a, start, end).Some? <==> Useful(a, start, end)
    ensures Accept(a, start, end).Some? ==> a.Returns? && Accept(a, start, end) == Normalize(a.rows)
  {
    hide StableSort, KeepLast, Slice, Readable;
    if a.Returns? && Normalize(a.rows).Some? {
      var rows, frame := Readable(a.rows), Normalize(a.rows).value;
      KeepLastDistinct(rows);
      SortedRows(KeepLast(rows));
      SliceIs(frame, start, end);
      if Slice(frame, start, end) != [] {
        var r := Slice(frame, start, end)[0];
        assert r in KeepLast(rows);
        KeepLastKeepsTimes(rows, r.time);
        var q :| q in rows && q.time == r.time;
        ReadableAre(a.rows, q);
      }
      if Useful(a, start, end) {
        var k :| 0 <= k < |a.rows| && a.rows[k].time.Some? && a.rows[k].values.Some?
                 && InRange(a.rows[k].time.value, start, end);
        var q := Row(a.rows[k].time.value, a.rows[k].values.value);
        ReadableAre(a.rows, q);
        KeepLastKeepsTimes(rows, q.time);
        var r :| r in KeepLast(rows) && r.time == q.time;
        assert r in Slice(frame, start, end);
      }
    } else if Useful(a, start, end) {
      var k :| 0 <= k < |a.rows| && a.rows[k].time.Some? && a.rows[k].values.Some?;
      ReadableAre(a.rows, Row(a.rows[k].time.value, a.rows[k].values.value));
    }
  }

  // The answer at attempt i is the first useful one from attempt `from` on.
  ghost predicate FirstUseful(req: Request, from: nat, i: nat) {
    && from <= i < |req.answers| && Useful(req.answers[i], req.start, req.end)
    && forall j :: from <= j < i ==> !Useful(req.answers[j], req.start, req.end)
  }

  lemma {:induction false} FetchIsFirst(req: Request, from: nat) returns (i: nat)
    requires from <= |req.answers|
    ensures var fetched := Fetch(req.answers, req.start, req.end, from);
      if fetched.None? then forall j :: from <= j < |req.answers| ==> !Useful(req.answers[j], req.start, req.end)
      else FirstUseful(req, from, i) && fetched == Normalize(req.answers[i].rows)
    decreases |req.answers| - from
  {
    hide Accept, Useful, Normalize;
    i := from;
    if from < |req.answers| {
      UsefulIff(req.answers[from], req.start, req.end);
      if Accept(req.answers[from], req.start, req.end).None? {
        i := FetchIsFirst(req, from + 1);
      }
    }
  }

  // The cache holds rows from no later than the start to no earlier than the end, and some between them.
  ghost predicate Serves(cache: Option<Frame>, req: Request) {
    && cache.Some? && cache.value != []
    && (req.start.None? || cache.value[0].time <= req.start.value)
    && (req.end.None? || req.end.value <= cache.value[|cache.value| - 1].time)
    && exists r :: r in cache.value && InRange(r.time, req.start, req.end)
  }

  lemma HitIff(cache: Option<Frame>, req: Request)
    ensures Hit(cache, req) <==> !req.forceRefresh && Serves(cache, req)
  {
    hide Slice;
    if cache.Some? {
      SliceIs(cache.value, req.start, req.end);
      var cut := Slice(cache.value, req.start, req.end);
      assert cut != [] <==> exists r :: r in cut by {
        assert cut != [] ==> cut[0] in cut;
      }
    }
  }

  // A load is answered from the cache when that serves the request and no refresh is forced; otherwise
  // from the first useful answer of the provider, which becomes the cache; and it fails, leaving the
  // cache alone, when there is none. So it succeeds exactly in the first two cases.
  lemma LoadIs(cache: Option<Frame>, req: Request) returns (i: nat)
    ensures var (frame, after) := Load(cache, req);
      if !req.forceRefresh && Serves(cache, req) then
        frame == Some(Slice(cache.value, req.start, req.end)) && after == cache
      else if exists j :: 0 <= j < |req.answers| && Useful(req.answers[j], req.start, req.end) then
        && FirstUseful(req, 0, i) && Normalize(req.answers[i].rows).Some?
        && after == Normalize(req.answers[i].rows) && frame == Some(Slice(after.value, req.start, req.end))
      else frame == None && after == cache
  {
    hide Normalize, Slice, Useful, Serves, Hit, Fetch;
    HitIff(cache, req);
    i := FetchIsFirst(req, 0);
  }

  // ----- Whole histories of loads -----

  // The cache after the first n loads, starting from an empty one.
  function CacheAfter(reqs: seq<Request>, n: nat): Option<Frame>
    requires n <= |reqs|
  {
    if n == 0 then None else Load(CacheAfter(reqs, n - 1), reqs[n - 1]).1
  }

  lemma {:induction false} AlwaysCoherent(series: seq<RawRow>, reqs: seq<Request>, n: nat)
    requires n <= |reqs| && forall i :: 0 <= i < |reqs| ==> HonestRequest(series, reqs[i])
    ensures Coherent(series, CacheAfter(reqs, n))
  {
    hide Load;
    if n > 0 {
      AlwaysCoherent(series, reqs, n - 1);
      LoadKeepsCoherence(series, CacheAfter(reqs, n - 1), reqs[n - 1]);
    }
  }

  // After any history of hits, misses, failures and forced refreshes, a load with both bounds that
  // succeeds returns exactly the normalised series cut to those bounds.
  lemma CacheIsTransparent(series: seq<RawRow>, reqs: seq<Request>, n: nat)
    requires n < |reqs| && forall i :: 0 <= i < |reqs| ==> HonestRequest(series, reqs[i])
    requires reqs[n].start.Some? && reqs[n].end.Some? && Load(CacheAfter(reqs, n), reqs[n]).0.Some?
    ensures Normalize(series).Some?
    ensures Load(CacheAfter(reqs, n), reqs[n]).0.value == Slice(Normalize(series).value, reqs[n].start, reqs[n].end)
  {
    hide Load, Normalize, Slice;
    AlwaysCoherent(series, reqs, n);
    BoundedLoadIsExact(series, CacheAfter(reqs, n), reqs[n]);
  }

  lemma ReadableOne(v: Values)
    ensures Readable([RawRow(Some(1), Some(v))]) == [Row(1, v)]
  {
    assert [RawRow(Some(1), Some(v))][..0] == [];
  }

  lemma SliceOne(v: Values, end: Option<int>)
    requires end.Some? ==> end.value >= 1
    ensures Slice([Row(1, v)], Some(1), end) == [Row(1, v)]
  {
    assert [Row(1, v)][..0] == [];
  }

  lemma OneRow(v: Values)
    ensures Normalize([RawRow(Some(1), Some(v))]) == Some([Row(1, v)])
  {
    ReadableOne(v);
    var rows := [Row(1, v)];
    assert rows[..0] == [];
    assert KeepLast(rows) == rows;
    assert StableSort(rows, TimeLeq) == rows;
  }

  lemma TwoRows(v: Values)
    ensures Readable([RawRow(Some(1), Some(v)), RawRow(Some(2), Some(v))]) == [Row(1, v), Row(2, v)]
    ensures Slice([Row(1, v), Row(2, v)], Some(1), Some(1)) == [Row(1, v)]
  {
    var raw, rows := [RawRow(Some(1), Some(v)), RawRow(Some(2), Some(v))], [Row(1, v), Row(2, v)];
    ReadableOne(v);
    SliceOne(v, Some(1));
    assert raw[..1] == [RawRow(Some(1), Some(v))] && rows[..1] == [Row(1, v)];
  }

  // An open-ended request can be served short: after loading up to time 1, a request with no end
  // is answered from the cache without the series' row at time 2.
  lemma OpenEndServedShort(v: Values)
    ensures var series := [RawRow(Some(1), Some(v)), RawRow(Some(2), Some(v))];
      var first := Request(Some(1), Some(1), false, [Returns([RawRow(Some(1), Some(v))])]);
      var second := Request(Some(1), None, false, []);
      && HonestRequest(series, first) && HonestRequest(series, second)
      && Load(Load(None, first).1, second).0 == Some([Row(1, v)])
      && Row(2, v) in Readable(series)
  {
    hide Slice, Normalize, Readable;
    OneRow(v);
    TwoRows(v);
    ReadableOne(v);
    SliceOne(v, Some(1));
    SliceOne(v, None);
    var first := Request(Some(1), Some(1), false, [Returns([RawRow(Some(1), Some(v))])]);
    assert Accept(first.answers[0], Some(1), Some(1)) == Some([Row(1, v)]);
  }
}
