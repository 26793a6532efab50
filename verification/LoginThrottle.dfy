/** The brute-force protection of src/auth/service.py: a counting window and a block period. */
module LoginThrottle {
  import opened Prelude

  // Times and durations are whole microseconds.
  datatype Settings = Settings(maxAttempts: int, window: int, block: int) {
    predicate Valid() {
      maxAttempts > 0 && window > 0 && block > 0
    }
  }

  // The stored counters of one identifier and address.
  datatype Row = Row(failures: nat, windowStart: int, blockedUntil: Option<int>)

  datatype Key = Key(identifier: string, ip: string)

  predicate Blocked(row: Option<Row>, now: int) {
    row.Some? && row.value.blockedUntil.Some? && row.value.blockedUntil.value > now
  }

  function RecordFailure(cfg: Settings, row: Option<Row>, now: int): Row {
    var renew := row.None? || row.value.windowStart + cfg.window < now;
    var failures := if renew then 1 else row.value.failures + 1;
    Row(failures, if renew then now else row.value.windowStart,
        if failures >= cfg.maxAttempts then Some(now + cfg.block) else None)
  }

  datatype Answer = RateLimited | Denied | Granted

  // One login for this row: `check` is the clock when the block is tested, `record` when a failure
  // is written, and `correct` whether the user exists, is active and gave the right password.
  function Login(cfg: Settings, row: Option<Row>, check: int, record: int, correct: bool): (Option<Row>, Answer) {
    if Blocked(row, check) then (row, RateLimited)
    else if correct then (None, Granted)
    else (Some(RecordFailure(cfg, row, record)), Denied)
  }

  function Lookup(rows: map<Key, Row>, key: Key): Option<Row> {
    if key in rows then Some(rows[key]) else None
  }

  class AuthService {
    const cfg: Settings
    var attempts: map<Key, Row>

    constructor (cfg: Settings)
      ensures this.cfg == cfg && attempts == map[]
    {
      this.cfg, attempts := cfg, map[];
    }

    method AssertNotBlocked(key: Key, now: int) returns (blocked: bool)
      ensures blocked == Blocked(Lookup(attempts, key), now)
    {
      if key !in attempts || attempts[key].blockedUntil.None? {
        return false;
      }
      return attempts[key].blockedUntil.value > now;
    }

    method RecordLoginFailure(key: Key, now: int)
      modifies this
      ensures attempts == old(attempts[key := RecordFailure(cfg, Lookup(attempts, key), now)])
    {
      var failures: nat, windowStart := 1, now;
      if key in attempts && attempts[key].windowStart + cfg.window >= now {
        failures := attempts[key].failures + 1;
        windowStart := attempts[key].windowStart;
      }
      var blockedUntil: Option<int> := None;
      if failures >= cfg.maxAttempts {
        blockedUntil := Some(now + cfg.block);
      }
      attempts := attempts[key := Row(failures, windowStart, blockedUntil)];
    }

    method TryLogin(key: Key, check: int, record: int, correct: bool) returns (answer: Answer)
      modifies this
      ensures (Lookup(attempts, key), answer) == old(Login(cfg, Lookup(attempts, key), check, record, correct))
      ensures forall other :: other != key ==> Lookup(attempts, other) == old(Lookup(attempts, other))
    {
      var blocked := AssertNotBlocked(key, check);
      if blocked {
        return RateLimited;
      }
      if !correct {
        RecordLoginFailure(key, record);
        return Denied;
      }
      attempts := attempts - {key};
      return Granted;
    }
  }

  // ----- Histories of attempts -----

  datatype Attempt = Attempt(key: Key, check: int, record: int, correct: bool)

  datatype History = History(cfg: Settings, attempts: seq<Attempt>) {

    // Attempts run one after another on a clock that never goes back.
    ghost predicate Valid() {
      && cfg.Valid()
      && (forall i :: 0 <= i < |attempts| ==> attempts[i].check <= attempts[i].record)
      && forall i, j :: 0 <= i < j < |attempts| ==> attempts[i].record <= attempts[j].check
    }

    // The row of one key after the first n attempts, whoever made them.
    function RowOf(key: Key, n: nat): Option<Row>
      requires n <= |attempts|
    {
      if n == 0 then None
      else
        var a := attempts[n - 1];
        if a.key == key then Login(cfg, RowOf(key, n - 1), a.check, a.record, a.correct).0 else RowOf(key, n - 1)
    }

    function AnswerTo(n: nat): Answer
      requires n < |attempts|
    {
      var a := attempts[n];
      Login(cfg, RowOf(a.key, n), a.check, a.record, a.correct).1
    }

    // Attempt n was a failure of this key that got past the block.
    predicate DeniedAt(key: Key, n: nat)
      requires n < |attempts|
    {
      attempts[n].key == key && AnswerTo(n) == Denied
    }

    // Unblocked failures of a key among the first n attempts.
    function Failures(key: Key, n: nat): nat
      requires n <= |attempts|
    {
      if n == 0 then 0 else Failures(key, n - 1) + if DeniedAt(key, n - 1) then 1 else 0
    }

    ghost predicate NeverGranted(key: Key, n: nat)
      requires n <= |attempts|
    {
      forall i :: 0 <= i < n && attempts[i].key == key ==> AnswerTo(i) != Granted
    }
  }

  // The most unblocked failures one counting window can hold.
  function WindowCapacity(cfg: Settings): int
    requires cfg.Valid()
  {
    cfg.maxAttempts + cfg.window / cfg.block
  }

  // What a row says about its window, given the time of the last failure in it: past the allowed
  // attempts, each further failure came at least one block after the one before.
  ghost predicate RowOk(cfg: Settings, row: Row, last: int) {
    && row.failures >= 1
    && row.windowStart <= last <= row.windowStart + cfg.window
    && row.blockedUntil == (if row.failures >= cfg.maxAttempts then Some(last + cfg.block) else None)
    && (row.failures > cfg.maxAttempts ==> row.windowStart + (row.failures - cfg.maxAttempts) * cfg.block <= last)
  }

  lemma RecordKeepsRow(cfg: Settings, row: Row, last: int, check: int, record: int)
    requires cfg.Valid() && RowOk(cfg, row, last) && last <= check <= record && !Blocked(Some(row), check)
    ensures RowOk(cfg, RecordFailure(cfg, Some(row), record), record)
  {
    if row.failures >= cfg.maxAttempts {
      var extra := row.failures - cfg.maxAttempts;
      assert (extra + 1) * cfg.block == extra * cfg.block + cfg.block;
    }
  }

  lemma RowWithinCapacity(cfg: Settings, row: Row, last: int)
    requires cfg.Valid() && RowOk(cfg, row, last)
    ensures row.failures <= WindowCapacity(cfg)
  {
    if row.failures > cfg.maxAttempts {
      QuotientBound(row.failures - cfg.maxAttempts, cfg.block, cfg.window);
    }
  }

  lemma QuotientBound(k: int, d: int, n: int)
    requires d > 0 && k * d <= n
    ensures k <= n / d
  {
    if n / d + 1 <= k {
      MulIntMono(n / d + 1, k, d);
    }
  }

  lemma MulIntMono(x: int, y: int, d: int)
    requires x <= y && d >= 0
    ensures x * d <= y * d
  {
  }

  // The time of the last unblocked failure of a key among the first n attempts.
  function LastFailure(h: History, key: Key, n: nat): Option<int>
    requires n <= |h.attempts|
  {
    if n == 0 then None
    else if h.DeniedAt(key, n - 1) then Some(h.attempts[n - 1].record) else LastFailure(h, key, n - 1)
  }

  function FirstFailure(h: History, key: Key, n: nat): Option<int>
    requires n <= |h.attempts|
  {
    if n == 0 then None
    else if FirstFailure(h, key, n - 1).Some? then FirstFailure(h, key, n - 1)
    else if h.DeniedAt(key, n - 1) then Some(h.attempts[n - 1].record) else None
  }

  lemma {:induction false} LastFailureIsPast(h: History, key: Key, n: nat)
    requires h.Valid() && n <= |h.attempts| && LastFailure(h, key, n).Some?
    ensures FirstFailure(h, key, n).Some?
    ensures n < |h.attempts| ==> LastFailure(h, key, n).value <= h.attempts[n].check
  {
    if !h.DeniedAt(key, n - 1) {
      LastFailureIsPast(h, key, n - 1);
    }
  }

  // Everything known about a key that was never granted access: its row describes the present
  // window, and every earlier window was full at most.
  ghost predicate Tracked(h: History, key: Key, n: nat)
    requires h.Valid() && n <= |h.attempts|
  {
    var row, last, first := h.RowOf(key, n), LastFailure(h, key, n), FirstFailure(h, key, n);
    && (row.Some? <==> last.Some?) && (row.Some? <==> first.Some?)
    && (row.None? ==> h.Failures(key, n) == 0)
    && (row.Some? ==>
          && RowOk(h.cfg, row.value, last.value)
          && first.value <= row.value.windowStart
          && h.Failures(key, n)
             <= (row.value.windowStart - first.value) / h.cfg.window * WindowCapacity(h.cfg) + row.value.failures)
  }

  lemma NewWindow(start: int, next: int, window: int, capacity: int)
    requires window > 0 && start + window < next && capacity >= 0 && start >= 0
    ensures (start / window + 1) * capacity <= next / window * capacity
    ensures start / window * capacity + capacity == (start / window + 1) * capacity
  {
    QuotientBound(start / window + 1, window, next);
    MulIntMono(start / window + 1, next / window, capacity);
  }

  lemma TrackFailure(h: History, key: Key, n: nat)
    requires h.Valid() && 0 < n <= |h.attempts| && Tracked(h, key, n - 1) && h.DeniedAt(key, n - 1)
    ensures Tracked(h, key, n)
  {
    hide WindowCapacity;
    CapacityPositive(h.cfg);
    var a, before := h.attempts[n - 1], h.RowOf(key, n - 1);
    if before.Some? {
      var row, last := before.value, LastFailure(h, key, n - 1).value;
      var first := FirstFailure(h, key, n - 1).value;
      LastFailureIsPast(h, key, n - 1);
      RecordKeepsRow(h.cfg, row, last, a.check, a.record);
      RowWithinCapacity(h.cfg, row, last);
      if row.windowStart + h.cfg.window < a.record {
        NewWindow(row.windowStart - first, a.record - first, h.cfg.window, WindowCapacity(h.cfg));
      }
    }
  }

  lemma CapacityPositive(cfg: Settings)
    requires cfg.Valid()
    ensures WindowCapacity(cfg) >= 1
  {
    QuotientBound(0, cfg.block, cfg.window);
  }

  lemma {:induction false} AlwaysTracked(h: History, key: Key, n: nat)
    requires h.Valid() && n <= |h.attempts| && h.NeverGranted(key, n)
    ensures Tracked(h, key, n)
  {
    if n > 0 {
      AlwaysTracked(h, key, n - 1);
      if h.DeniedAt(key, n - 1) {
        TrackFailure(h, key, n);
      } else {
        assert h.attempts[n - 1].key == key ==> h.AnswerTo(n - 1) != Granted;
      }
    }
  }

  // No counting window ever holds more than maxAttempts + window / block unblocked failures.
  lemma WindowBound(h: History, key: Key, n: nat)
    requires h.Valid() && n <= |h.attempts| && h.NeverGranted(key, n) && h.RowOf(key, n).Some?
    ensures h.RowOf(key, n).value.failures <= h.cfg.maxAttempts + h.cfg.window / h.cfg.block
  {
    AlwaysTracked(h, key, n);
    RowWithinCapacity(h.cfg, h.RowOf(key, n).value, LastFailure(h, key, n).value);
  }

  lemma SpanArithmetic(failures: int, inRow: int, elapsed: int, span: int, window: int, capacity: int)
    requires window > 0 && capacity >= 0 && 0 <= elapsed <= span
    requires failures <= elapsed / window * capacity + inRow && inRow <= capacity
    ensures failures <= (span / window + 1) * capacity
  {
    QuotientBound(elapsed / window, window, span);
    MulIntMono(elapsed / window, span / window, capacity);
    assert (span / window + 1) * capacity == span / window * capacity + capacity;
  }

  // Over a span of time from the first failure, with attempts on other keys interleaved at will, the
  // unblocked failures number at most (span / window + 1) times what one window can hold.
  lemma SpanBound(h: History, key: Key, n: nat, span: int)
    requires h.Valid() && n <= |h.attempts| && h.NeverGranted(key, n) && LastFailure(h, key, n).Some?
    requires FirstFailure(h, key, n).Some? && LastFailure(h, key, n).value <= FirstFailure(h, key, n).value + span
    ensures h.Failures(key, n) <= (span / h.cfg.window + 1) * WindowCapacity(h.cfg)
  {
    hide WindowCapacity;
    AlwaysTracked(h, key, n);
    CapacityPositive(h.cfg);
    var row, first := h.RowOf(key, n).value, FirstFailure(h, key, n).value;
    RowWithinCapacity(h.cfg, row, LastFailure(h, key, n).value);
    SpanArithmetic(h.Failures(key, n), row.failures, row.windowStart - first, span, h.cfg.window,
        WindowCapacity(h.cfg));
  }

  // ----- The window bound is attained -----

  // maxAttempts failures at once, then one more at the end of each block.
  function FastTime(cfg: Settings, i: nat): int {
    if i < cfg.maxAttempts then 0 else (i - cfg.maxAttempts + 1) * cfg.block
  }

  function FastestAttack(cfg: Settings, key: Key, n: nat): History {
    History(cfg, seq(n, i requires 0 <= i < n => Attempt(key, FastTime(cfg, i), FastTime(cfg, i), false)))
  }

  lemma FastTimeStep(cfg: Settings, i: nat)
    requires cfg.Valid()
    ensures i + 1 > cfg.maxAttempts ==> FastTime(cfg, i + 1) == FastTime(cfg, i) + cfg.block
    ensures i + 1 == cfg.maxAttempts ==> FastTime(cfg, i) == 0 && FastTime(cfg, i + 1) == cfg.block
    ensures FastTime(cfg, i) <= FastTime(cfg, i + 1)
  {
    if i + 1 > cfg.maxAttempts {
      assert (i + 1 - cfg.maxAttempts + 1) * cfg.block == (i - cfg.maxAttempts + 1) * cfg.block + cfg.block;
    }
  }

  lemma FastTimeWithinWindow(cfg: Settings, i: nat)
    requires cfg.Valid() && i < WindowCapacity(cfg)
    ensures 0 <= FastTime(cfg, i) <= cfg.window
  {
    if i >= cfg.maxAttempts {
      var k := i - cfg.maxAttempts + 1;
      MulIntMono(0, k, cfg.block);
      MulIntMono(k, cfg.window / cfg.block, cfg.block);
    }
  }

  lemma {:induction false} FastTimeMonotone(cfg: Settings, i: nat, j: nat)
    requires cfg.Valid() && i <= j
    ensures FastTime(cfg, i) <= FastTime(cfg, j)
  {
    if i < j {
      FastTimeMonotone(cfg, i, j - 1);
      FastTimeStep(cfg, j - 1);
    }
  }

  // The row after n of these failures.
  function FastRow(cfg: Settings, n: nat): Option<Row> {
    if n == 0 then None
    else Some(Row(n, 0, if n >= cfg.maxAttempts then Some(FastTime(cfg, n - 1) + cfg.block) else None))
  }

  lemma FastStep(cfg: Settings, n: nat)
    requires cfg.Valid() && n < WindowCapacity(cfg)
    ensures Login(cfg, FastRow(cfg, n), FastTime(cfg, n), FastTime(cfg, n), false) == (FastRow(cfg, n + 1), Denied)
  {
    hide FastTime;
    FastTimeWithinWindow(cfg, n);
    FastTimeStart(cfg);
    if n > 0 {
      FastTimeStep(cfg, n - 1);
    }
  }

  lemma FastTimeStart(cfg: Settings)
    requires cfg.Valid()
    ensures FastTime(cfg, 0) == 0
  {
  }

  lemma {:induction false} FastestAttackRuns(cfg: Settings, key: Key, total: nat, n: nat)
    requires cfg.Valid() && n <= total <= WindowCapacity(cfg)
    ensures var h := FastestAttack(cfg, key, total);
      h.Failures(key, n) == n && h.RowOf(key, n) == FastRow(cfg, n) && h.NeverGranted(key, n)
  {
    hide FastTime, FastRow, Login, WindowCapacity, FastestAttack;
    FastestAttackIs(cfg, key, total);
    if n == 0 {
      FastRowEmpty(cfg);
    } else {
      FastestAttackRuns(cfg, key, total, n - 1);
      FastStep(cfg, n - 1);
    }
  }

  lemma FastestAttackIs(cfg: Settings, key: Key, total: nat)
    ensures var h := FastestAttack(cfg, key, total);
      && h.cfg == cfg && |h.attempts| == total
      && forall i :: 0 <= i < total ==> h.attempts[i] == Attempt(key, FastTime(cfg, i), FastTime(cfg, i), false)
  {
  }

  lemma FastRowEmpty(cfg: Settings)
    ensures FastRow(cfg, 0) == None
  {
  }

  // For all settings there is an attack that gets exactly maxAttempts + window / block guesses into
  // one window, so no smaller bound holds.
  lemma WindowBoundAttained(cfg: Settings, key: Key)
    requires cfg.Valid()
    ensures WindowCapacity(cfg) >= 0
    ensures var n := WindowCapacity(cfg); var h := FastestAttack(cfg, key, n);
      && h.Valid() && h.NeverGranted(key, n) && h.Failures(key, n) == n
      && h.RowOf(key, n).Some? && h.RowOf(key, n).value.failures == cfg.maxAttempts + cfg.window / cfg.block
  {
    CapacityPositive(cfg);
    var n := WindowCapacity(cfg);
    var h := FastestAttack(cfg, key, n);
    forall i, j | 0 <= i < j < n ensures h.attempts[i].record <= h.attempts[j].check {
      FastTimeMonotone(cfg, i, j);
    }
    FastestAttackRuns(cfg, key, n, n);
  }

  // ----- After a login -----

  // How attempt n is answered: refused while the row's block lies ahead, granted on the right password
  // otherwise, and denied on a wrong one.
  lemma AnswerIs(h: History, n: nat)
    requires n < |h.attempts|
    ensures var a, row := h.attempts[n], h.RowOf(h.attempts[n].key, n);
      var blocked := row.Some? && row.value.blockedUntil.Some? && a.check < row.value.blockedUntil.value;
      && (h.AnswerTo(n) == RateLimited <==> blocked)
      && (h.AnswerTo(n) == Granted <==> !blocked && a.correct)
      && (h.AnswerTo(n) == Denied <==> !blocked && !a.correct)
      && (h.AnswerTo(n) == RateLimited ==> h.RowOf(a.key, n + 1) == row)
      && (h.AnswerTo(n) == Granted ==> h.RowOf(a.key, n + 1) == None)
  {
    hide History.RowOf, RecordFailure;
    RowStep(h, h.attempts[n].key, n);
  }

  lemma RowStep(h: History, key: Key, n: nat)
    requires n < |h.attempts|
    ensures var a := h.attempts[n];
      h.RowOf(key, n + 1)
      == if a.key == key then Login(h.cfg, h.RowOf(key, n), a.check, a.record, a.correct).0 else h.RowOf(key, n)
  {
  }

  // The attempts from number g on, as a history of their own.
  function From(h: History, g: nat): History
    requires g <= |h.attempts|
  {
    History(h.cfg, h.attempts[g..])
  }

  // After a granted login the counters of the key are those of a history that starts there.
  lemma {:induction false} GrantStartsAfresh(h: History, key: Key, g: nat, n: nat)
    requires g < n <= |h.attempts| && h.attempts[g].key == key && h.AnswerTo(g) == Granted
    ensures h.RowOf(key, n) == From(h, g + 1).RowOf(key, n - g - 1)
  {
    hide Login;
    if n == g + 1 {
      AnswerIs(h, g);
    } else {
      GrantStartsAfresh(h, key, g, n - 1);
      RowStep(h, key, n - 1);
      RowStep(From(h, g + 1), key, n - g - 2);
      assert From(h, g + 1).attempts[n - g - 2] == h.attempts[n - 1];
    }
  }

  lemma FromIsValid(h: History, g: nat)
    requires h.Valid() && g <= |h.attempts|
    ensures From(h, g).Valid()
  {
  }

  // The last login granted to the key among the first n attempts, if there is one.
  function LastGrant(h: History, key: Key, n: nat): (g: Option<nat>)
    requires n <= |h.attempts|
    ensures g.Some? ==> g.value < n && h.attempts[g.value].key == key && h.AnswerTo(g.value) == Granted
    ensures forall i :: (if g.Some? then g.value + 1 else 0) <= i < n && h.attempts[i].key == key ==>
                          h.AnswerTo(i) != Granted
  {
    if n == 0 then None
    else if h.attempts[n - 1].key == key && h.AnswerTo(n - 1) == Granted then Some(n - 1)
    else LastGrant(h, key, n - 1)
  }

  lemma {:induction false} AnswersSinceGrant(h: History, key: Key, g: nat, i: nat)
    requires g < i < |h.attempts| && h.attempts[g].key == key && h.AnswerTo(g) == Granted && h.attempts[i].key == key
    ensures From(h, g + 1).AnswerTo(i - g - 1) == h.AnswerTo(i)
  {
    GrantStartsAfresh(h, key, g, i);
    hide Login, History.RowOf;
    assert From(h, g + 1).attempts[i - g - 1] == h.attempts[i];
  }

  // So whatever logins were granted before, no counting window ever holds more unblocked failures.
  lemma WindowBoundAlways(h: History, key: Key, n: nat)
    requires h.Valid() && n <= |h.attempts| && h.RowOf(key, n).Some?
    ensures h.RowOf(key, n).value.failures <= h.cfg.maxAttempts + h.cfg.window / h.cfg.block
  {
    hide History.RowOf, History.AnswerTo;
    var last := LastGrant(h, key, n);
    if last.None? {
      WindowBound(h, key, n);
    } else {
      var g := last.value;
      var later := From(h, g + 1);
      FromIsValid(h, g + 1);
      GrantStartsAfresh(h, key, g, n);
      forall i | 0 <= i < n - g - 1 && later.attempts[i].key == key ensures later.AnswerTo(i) != Granted {
        AnswersSinceGrant(h, key, g, i + g + 1);
      }
      WindowBound(later, key, n - g - 1);
    }
  }
}
