/** The login limiter of the control server: a failure record per key, with a window,
    a cooldown and an attempt limit. Times are milliseconds of one clock. */
module LoginLimiter {
  import opened Wrappers

  datatype Config = Config(window: int, cooldown: int, maxAttempts: int)

  /** The bounds that buildAuthRuntime imposes. */
  predicate ConfigOk(c: Config) {
    && 1_000 <= c.window <= 60 * 60 * 1000
    && 1_000 <= c.cooldown <= 60 * 60 * 1000
    && 2 <= c.maxAttempts <= 20
  }

  datatype Failures = Failures(count: nat, windowStart: int, blockedUntil: int)

  datatype Outcome = Limited(retryAfter: int) | Refused | Accepted

  // ----- one key, as functions

  function RetryAfter(f: Option<Failures>, now: int): int {
    if f.Some? && f.value.blockedUntil > now then f.value.blockedUntil - now else 0
  }

  /** The record that a check at `now` leaves: it drops one whose window and cooldown are over. */
  function Cleaned(c: Config, f: Option<Failures>, now: int): Option<Failures> {
    if f.Some? && f.value.blockedUntil <= now && now - f.value.windowStart >= c.window then None else f
  }

  function Recorded(c: Config, f: Option<Failures>, now: int): Failures {
    var s := if f.None? || now - f.value.windowStart >= c.window then Failures(0, now, 0) else f.value;
    Failures(s.count + 1, s.windowStart, if s.count + 1 >= c.maxAttempts then now + c.cooldown else s.blockedUntil)
  }

  /** A whole login attempt that no other attempt on the key overlaps. */
  function Attempt(c: Config, f: Option<Failures>, now: int, correct: bool): (Option<Failures>, Outcome) {
    var wait := RetryAfter(f, now);
    if wait > 0 then (f, Limited(wait))
    else if correct then (None, Accepted)
    else (Some(Recorded(c, Cleaned(c, f, now), now)), Refused)
  }

  /** What one attempt answers and leaves. A blocked key is told how long it has to wait; a
      right password clears the record; a wrong one is counted in the window that is running,
      or begins one, and at the limit it blocks the key for a cooldown. */
  lemma AttemptExactly(c: Config, f: Option<Failures>, now: int, correct: bool)
    ensures var (after, outcome) := Attempt(c, f, now, correct);
            var blocked := f.Some? && now < f.value.blockedUntil;
            var counted := f.Some? && now - f.value.windowStart < c.window;
            && (blocked ==> outcome == Limited(f.value.blockedUntil - now) && after == f)
            && (!blocked && correct ==> outcome == Accepted && after == None)
            && (!blocked && !correct ==> outcome == Refused && after.Some?)
            && (outcome == Refused ==>
                  var r := after.value;
                  && r.windowStart == (if counted then f.value.windowStart else now)
                  && r.count == (if counted then f.value.count + 1 else 1)
                  && (r.count >= c.maxAttempts ==> r.blockedUntil == now + c.cooldown)
                  && (r.count < c.maxAttempts ==>
                        r.blockedUntil == if counted then f.value.blockedUntil else 0))
  {
  }

  // ----- the map of records

  class Limiter {
    const config: Config
    var failures: map<string, Failures>

    constructor (config: Config)
      ensures this.config == config && failures == map[]
    {
      this.config := config;
      failures := map[];
    }

    ghost function At(key: string): Option<Failures>
      reads this
    {
      if key in failures then Some(failures[key]) else None
    }

    /** loginRetryAfter */
    method Check(key: string, now: int) returns (wait: int)
      modifies this
      ensures wait == RetryAfter(old(At(key)), now)
      ensures At(key) == Cleaned(config, old(At(key)), now)
      ensures forall k | k != key :: At(k) == old(At(k))
    {
      if key !in failures { return 0; }
      var state := failures[key];
      if state.blockedUntil > now { return state.blockedUntil - now; }
      if now - state.windowStart >= config.window && state.blockedUntil <= now {
        failures := failures - {key};
      }
      wait := 0;
    }

    /** recordLoginFailure */
    method Record(key: string, now: int)
      modifies this
      ensures At(key) == Some(Recorded(config, old(At(key)), now))
      ensures forall k | k != key :: At(k) == old(At(k))
    {
      var state := if key !in failures || now - failures[key].windowStart >= config.window
                   then Failures(0, now, 0) else failures[key];
      state := state.(count := state.count + 1);
      if state.count >= config.maxAttempts {
        state := state.(blockedUntil := now + config.cooldown);
      }
      failures := failures[key := state];
    }

    /** handleLogin up to the verification of the password, which it awaits: the answer
        when it is limited, otherwise the attempt goes on with the time it began at. */
    method BeginLogin(key: string, now: int) returns (limited: Option<int>)
      modifies this
      ensures limited == if RetryAfter(old(At(key)), now) > 0 then Some(RetryAfter(old(At(key)), now)) else None
      ensures At(key) == Cleaned(config, old(At(key)), now)
      ensures forall k | k != key :: At(k) == old(At(k))
    {
      var wait := Check(key, now);
      limited := if wait > 0 then Some(wait) else None;
    }

    /** handleLogin from the verification on: the failure is recorded at the time the
        attempt began. */
    method FinishLogin(key: string, started: int, correct: bool)
      modifies this
      ensures At(key) == if correct then None else Some(Recorded(config, old(At(key)), started))
      ensures forall k | k != key :: At(k) == old(At(k))
    {
      if correct {
        failures := failures - {key};
      } else {
        Record(key, started);
      }
    }

    /** A whole login during whose verification nothing else happens to the key. */
    method Login(key: string, now: int, correct: bool) returns (outcome: Outcome)
      modifies this
      ensures (At(key), outcome) == Attempt(config, old(At(key)), now, correct)
      ensures forall k | k != key :: At(k) == old(At(k))
    {
      var limited := BeginLogin(key, now);
      if limited.Some? { return Limited(limited.value); }
      FinishLogin(key, now, correct);
      outcome := if correct then Accepted else Refused;
    }
  }

  // ----- the removal of old records changes no answer

  function Kept(c: Config, f: Option<Failures>, now: int, correct: bool): (Option<Failures>, Outcome) {
    var wait := RetryAfter(f, now);
    if wait > 0 then (f, Limited(wait))
    else if correct then (None, Accepted)
    else (Some(Recorded(c, f, now)), Refused)
  }

  datatype Try = Try(now: int, correct: bool)

  predicate Ordered(tries: seq<Try>) {
    forall i, j | 0 <= i < j < |tries| :: tries[i].now <= tries[j].now
  }

  function Answers(c: Config, f: Option<Failures>, tries: seq<Try>): seq<Outcome>
    decreases |tries|
  {
    if tries == [] then []
    else
      var (f', outcome) := Attempt(c, f, tries[0].now, tries[0].correct);
      [outcome] + Answers(c, f', tries[1..])
  }

  function AnswersWithoutCleanup(c: Config, f: Option<Failures>, tries: seq<Try>): seq<Outcome>
    decreases |tries|
  {
    if tries == [] then []
    else
      var (f', outcome) := Kept(c, f, tries[0].now, tries[0].correct);
      [outcome] + AnswersWithoutCleanup(c, f', tries[1..])
  }

  lemma {:induction false} CleanupChangesNoAnswer(c: Config, f: Option<Failures>, tries: seq<Try>)
    requires Ordered(tries)
    ensures Answers(c, f, tries) == AnswersWithoutCleanup(c, f, tries)
    decreases |tries|
  {
    if tries != [] {
      var t := tries[0];
      assert Recorded(c, Cleaned(c, f, t.now), t.now) == Recorded(c, f, t.now);
      CleanupChangesNoAnswer(c, Attempt(c, f, t.now, t.correct).0, tries[1..]);
    }
  }

  /** Even checks alone, made at any later time, never change what an attempt answers. */
  lemma ChecksChangeNoAnswer(c: Config, f: Option<Failures>, check: int, now: int, correct: bool)
    requires check <= now
    ensures Attempt(c, Cleaned(c, f, check), now, correct) == Attempt(c, f, now, correct)
  {
  }

  // ----- arithmetic

  function Times(b: int, k: int): int {
    b * k
  }

  lemma TimesMonotone(b: int, x: int, y: int)
    requires b >= 0 && x <= y
    ensures Times(b, x) <= Times(b, y)
    ensures Times(b, x + 1) == Times(b, x) + b && Times(b, 1) == b && Times(b, 0) == 0
  {
    assert b * (y - x) >= 0;
  }

  lemma Quotient(k: int, x: int, d: int)
    requires d > 0 && Times(d, k) <= x
    ensures k <= x / d
  {
    var q := x / d;
    assert x == d * q + x % d;
    Cancel(d, k, q + 1);
  }

  lemma Cancel(d: int, x: int, y: int)
    requires d > 0 && Times(d, x) < Times(d, y)
    ensures x < y
  {
  }

  lemma QuotientMonotone(x: int, y: int, d: int)
    requires d > 0 && x <= y
    ensures x / d <= y / d
    ensures d * (x / d) <= x
  {
    var q := x / d;
    assert x == d * q + x % d;
    Quotient(q, y, d);
  }

  // ----- the bound on wrong passwords

  /** How many passwords can be refused within one window: the limit, and then one more
      for each cooldown that ends before the window does. */
  function Bound(c: Config): int
    requires ConfigOk(c)
  {
    c.maxAttempts + (c.window + c.cooldown - 1) / c.cooldown - 1
  }

  lemma BoundIsPositive(c: Config)
    requires ConfigOk(c)
    ensures Bound(c) >= c.maxAttempts >= 2
  {
    Quotient(1, c.window + c.cooldown - 1, c.cooldown);
  }

  /** The record after wrong attempts on one key at these times, none overlapping another. */
  function Last(c: Config, times: seq<int>): Option<Failures> {
    if times == [] then None
    else Attempt(c, Last(c, times[..|times| - 1]), times[|times| - 1], false).0
  }

  /** The times at which a password was verified and refused. */
  function Refusals(c: Config, times: seq<int>): seq<int> {
    if times == [] then []
    else
      var before, now := times[..|times| - 1], times[|times| - 1];
      Refusals(c, before) + if Attempt(c, Last(c, before), now, false).1.Refused? then [now] else []
  }

  predicate Clock(times: seq<int>) {
    (forall i | 0 <= i < |times| :: 0 <= times[i]) && forall i, j | 0 <= i < j < |times| :: times[i] <= times[j]
  }

  function CountIn(s: seq<int>, low: int, high: int): nat {
    if s == [] then 0
    else CountIn(s[..|s| - 1], low, high) + if low <= s[|s| - 1] <= high then 1 else 0
  }

  lemma {:induction false} CountNone(s: seq<int>, low: int, high: int)
    requires forall i | 0 <= i < |s| :: !(low <= s[i] <= high)
    ensures CountIn(s, low, high) == 0
  {
    if s != [] { CountNone(s[..|s| - 1], low, high); }
  }

  /** What the record says about the past: its window is the last one, it counts exactly
      the refusals in it, and each refusal beyond the limit pushed the next one a cooldown further. */
  ghost predicate Agrees(c: Config, times: seq<int>)
    requires ConfigOk(c)
  {
    var refusals := Refusals(c, times);
    match Last(c, times)
    case None => times == []
    case Some(f) =>
      && times != [] && 0 <= f.windowStart <= times[|times| - 1]
      && f.count == CountIn(refusals, f.windowStart, f.windowStart + c.window - 1)
      && 1 <= f.count <= Bound(c)
      && (forall i | 0 <= i < |refusals| :: refusals[i] < f.windowStart + c.window)
      && (if f.count < c.maxAttempts then f.blockedUntil == 0
          else f.blockedUntil >= f.windowStart + Times(c.cooldown, f.count - c.maxAttempts + 1))
  }

  lemma CountFits(c: Config, f: Failures, now: int)
    requires ConfigOk(c) && f.count >= c.maxAttempts
    requires f.blockedUntil >= f.windowStart + Times(c.cooldown, f.count - c.maxAttempts + 1)
    requires f.blockedUntil <= now < f.windowStart + c.window
    ensures f.count + 1 <= Bound(c)
    ensures now + c.cooldown >= f.windowStart + Times(c.cooldown, f.count + 1 - c.maxAttempts + 1)
  {
    var k := f.count - c.maxAttempts + 1;
    TimesMonotone(c.cooldown, k, k + 1);
    assert Times(c.cooldown, k + 1) <= c.window + c.cooldown - 1;
    Quotient(k + 1, c.window + c.cooldown - 1, c.cooldown);
  }

  lemma {:induction false} RecordAgrees(c: Config, times: seq<int>)
    requires ConfigOk(c) && Clock(times)
    ensures Agrees(c, times)
  {
    hide Bound, Times;
    if times != [] {
      var before, now := times[..|times| - 1], times[|times| - 1];
      RecordAgrees(c, before);
      RecordStep(c, before, now);
      assert before + [now] == times;
    }
  }

  lemma AppendRefusal(c: Config, before: seq<int>, now: int)
    ensures Last(c, before + [now]) == Attempt(c, Last(c, before), now, false).0
    ensures Refusals(c, before + [now]) ==
            if Attempt(c, Last(c, before), now, false).1.Refused? then Refusals(c, before) + [now]
                else Refusals(c, before)
  {
    assert (before + [now])[..|before|] == before;
  }

  lemma CountAppend(s: seq<int>, x: int, low: int, high: int)
    ensures CountIn(s + [x], low, high) == CountIn(s, low, high) + if low <= x <= high then 1 else 0
  {
    assert (s + [x])[..|s|] == s;
  }

  lemma RecordStep(c: Config, before: seq<int>, now: int)
    requires ConfigOk(c) && Agrees(c, before) && Clock(before + [now])
    ensures Agrees(c, before + [now])
  {
    hide Bound, Times, CountIn, Last, Refusals;
    BoundIsPositive(c);
    AppendRefusal(c, before, now);
    assert 0 <= (before + [now])[|before|] == now;
    assert before != [] ==> (before + [now])[|before| - 1] == before[|before| - 1] <= (before + [now])[|before|];
    var f, refusals := Last(c, before), Refusals(c, before);
    if f.Some? && f.value.blockedUntil > now {
    } else if f.None? || now >= f.value.windowStart + c.window {
      if before == [] { NoRefusals(c); }
      CountNone(refusals, now, now + c.window - 1);
      CountAppend(refusals, now, now, now + c.window - 1);
      assert Last(c, before + [now]) == Some(Failures(1, now, 0));
    } else {
      CountAppend(refusals, now, f.value.windowStart, f.value.windowStart + c.window - 1);
      TimesMonotone(c.cooldown, 1, 1);
      if f.value.count >= c.maxAttempts { CountFits(c, f.value, now); }
    }
  }

  lemma NoRefusals(c: Config)
    ensures Last(c, []) == None && Refusals(c, []) == []
  {
  }

  /** At most `maxAttempts + ceil(window / cooldown) - 1` refusals in one window: the
      record counts them all and never exceeds the bound. */
  lemma WindowBound(c: Config, times: seq<int>)
    requires ConfigOk(c) && Clock(times) && times != []
    ensures Last(c, times).Some?
    ensures var f := Last(c, times).value;
            CountIn(Refusals(c, times), f.windowStart, f.windowStart + c.window - 1) == f.count <= Bound(c)
  {
    hide Bound, Times, CountIn, Last, Refusals;
    RecordAgrees(c, times);
  }

  /** The window bound is reached: with a window of three cooldowns and two free
      attempts, four passwords are refused within one window. */
  lemma WindowBoundIsReached()
    ensures var c := Config(3_000, 1_000, 2);
            ConfigOk(c) && Clock([0, 0, 1_000, 2_000])
                && Last(c, [0, 0, 1_000, 2_000]) == Some(Failures(Bound(c), 0, 3_000))
  {
    hide Last, Refusals;
    var c := Config(3_000, 1_000, 2);
    NoRefusals(c);
    AppendRefusal(c, [], 0);
    AppendRefusal(c, [0], 0);
    AppendRefusal(c, [0, 0], 1_000);
    AppendRefusal(c, [0, 0, 1_000], 2_000);
    assert [] + [0] == [0] && [0] + [0] == [0, 0] && [0, 0] + [1_000] == [0, 0, 1_000];
    assert [0, 0, 1_000] + [2_000] == [0, 0, 1_000, 2_000];
  }

  /** Refusals seen in an interval, against the windows that can have met it: the one
      that was open when the interval began, and those that began a window apart since. */
  ghost predicate Within(c: Config, f: Option<Failures>, n: nat, a: int, length: nat)
    requires ConfigOk(c)
  {
    match f
    case None => n == 0
    case Some(f) =>
      if f.windowStart <= a then n <= f.count
      else if f.windowStart <= a + length then n <= Times(Bound(c), (f.windowStart - a) / c.window + 1) + f.count
      else n <= Times(Bound(c), length / c.window + 2)
  }

  lemma IntervalStep(c: Config, before: seq<int>, now: int, a: int, length: nat)
    requires ConfigOk(c) && Clock(before + [now]) && Agrees(c, before)
    requires Within(c, Last(c, before), CountIn(Refusals(c, before), a, a + length), a, length)
    ensures Within(c, Last(c, before + [now]), CountIn(Refusals(c, before + [now]), a, a + length), a, length)
  {
    hide Bound, Times, CountIn, Last, Refusals;
    BoundIsPositive(c);
    AppendRefusal(c, before, now);
    var f, refusals := Last(c, before), Refusals(c, before);
    CountAppend(refusals, now, a, a + length);
    var n := CountIn(refusals, a, a + length);
    if f.Some? && f.value.blockedUntil > now {
    } else if f.None? || now >= f.value.windowStart + c.window {
      if f.None? { NoRefusals(c); }
      NewWindow(c, if f.Some? then f.value else Failures(0, now - c.window, 0), refusals, now, a, length);
      assert Last(c, before + [now]) == Some(Failures(1, now, 0));
    } else {
      assert 0 <= (before + [now])[|before|] == now;
      assert (before + [now])[|before| - 1] == before[|before| - 1] <= (before + [now])[|before|];
      assert Last(c, before + [now]).value.windowStart == f.value.windowStart <= now;
    }
  }

  /** A new window opens a whole window after the previous one did. */
  lemma NewWindow(c: Config, f: Failures, refusals: seq<int>, now: int, a: int, length: nat)
    requires ConfigOk(c) && now >= f.windowStart + c.window && f.count <= Bound(c)
    requires forall i | 0 <= i < |refusals| :: refusals[i] < f.windowStart + c.window
    requires var n := CountIn(refusals, a, a + length); n == 0 || Within(c, Some(f), n, a, length)
    ensures var n := CountIn(refusals, a, a + length);
            if now <= a then n == 0
            else if now <= a + length then n <= Times(Bound(c), (now - a) / c.window + 1)
            else n <= Times(Bound(c), length / c.window + 2)
  {
    hide Bound, Times, CountIn;
    BoundIsPositive(c);
    var n := CountIn(refusals, a, a + length);
    if now <= a {
      CountNone(refusals, a, a + length);
    } else if n == 0 || f.windowStart <= a {
      Positive(c, now - a);
      Positive(c, length);
    } else if now <= a + length {
      Apart(c, f.windowStart - a, now - a);
    } else if f.windowStart <= a + length {
      AtMost(c, f.windowStart - a, length);
    }
  }

  lemma Positive(c: Config, x: int)
    requires ConfigOk(c) && 0 <= x
    ensures Times(Bound(c), x / c.window + 1) >= Bound(c) >= 0
    ensures Times(Bound(c), x / c.window + 2) >= Bound(c)
  {
    BoundIsPositive(c);
    QuotientMonotone(0, x, c.window);
    TimesMonotone(Bound(c), 1, x / c.window + 1);
    TimesMonotone(Bound(c), 1, x / c.window + 2);
  }

  lemma Apart(c: Config, from: int, to: int)
    requires ConfigOk(c) && 0 <= from && from + c.window <= to
    ensures Times(Bound(c), from / c.window + 1) + Bound(c) <= Times(Bound(c), to / c.window + 1)
  {
    BoundIsPositive(c);
    QuotientMonotone(from, to, c.window);
    TimesMonotone(c.window, from / c.window, from / c.window);
    Quotient(from / c.window + 1, to, c.window);
    TimesMonotone(Bound(c), from / c.window + 1, from / c.window + 2);
    TimesMonotone(Bound(c), from / c.window + 2, to / c.window + 1);
  }

  lemma AtMost(c: Config, from: int, length: int)
    requires ConfigOk(c) && 0 <= from <= length
    ensures Times(Bound(c), from / c.window + 1) + Bound(c) <= Times(Bound(c), length / c.window + 2)
  {
    BoundIsPositive(c);
    QuotientMonotone(from, length, c.window);
    TimesMonotone(Bound(c), from / c.window + 1, from / c.window + 2);
    TimesMonotone(Bound(c), from / c.window + 2, length / c.window + 2);
  }

  lemma {:induction false} IntervalWithin(c: Config, times: seq<int>, a: int, length: nat)
    requires ConfigOk(c) && Clock(times)
    ensures Within(c, Last(c, times), CountIn(Refusals(c, times), a, a + length), a, length)
  {
    if times != [] {
      var before, now := times[..|times| - 1], times[|times| - 1];
      assert times == before + [now];
      IntervalWithin(c, before, a, length);
      RecordAgrees(c, before);
      IntervalStep(c, before, now, a, length);
    }
  }

  /** In any interval of length L, at most (floor(L / window) + 2) times the window bound
      of wrong passwords are verified, whatever attempts are made. */
  lemma IntervalBound(c: Config, times: seq<int>, a: int, length: nat)
    requires ConfigOk(c) && Clock(times)
    ensures CountIn(Refusals(c, times), a, a + length) <= Bound(c) * (length / c.window + 2)
  {
    IntervalWithin(c, times, a, length);
    RecordAgrees(c, times);
    assert Times(Bound(c), length / c.window + 2) == Bound(c) * (length / c.window + 2);
    AnyWindow(c, Last(c, times), CountIn(Refusals(c, times), a, a + length), a, length);
  }

  lemma AnyWindow(c: Config, f: Option<Failures>, n: nat, a: int, length: nat)
    requires ConfigOk(c) && Within(c, f, n, a, length) && (f.Some? ==> f.value.count <= Bound(c))
    ensures n <= Times(Bound(c), length / c.window + 2)
  {
    hide Bound, Times;
    Positive(c, length);
    if f.Some? && a < f.value.windowStart <= a + length { AtMost(c, f.value.windowStart - a, length); }
  }
}
