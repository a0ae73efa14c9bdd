/** Login attempts on one key that overlap: `handleLogin` checks the limiter, awaits the
    verification of the password and then records the failure, at the time it began. Other
    attempts on the key begin and finish in between. */
module LoginOverlap {
  import opened LoginLimiter
  import opened Wrappers

  /** `flying` are the beginnings of the attempts whose password is being verified, oldest
      first; `counted` are the beginnings of the attempts that the record counts; `clock`
      is the time of the last request. */
  datatype State = State(record: Option<Failures>, flying: seq<int>, counted: seq<int>, clock: int)

  /** An attempt begins, or the x-th of those in flight gets its answer. */
  datatype Event = Begin(now: int) | Finish(x: nat, correct: bool)

  function Began(c: Config, s: State, now: int): State {
    if RetryAfter(s.record, now) > 0 then s.(clock := now)
    else
      var record := Cleaned(c, s.record, now);
      State(record, s.flying + [now], if record.None? then [] else s.counted, now)
  }

  predicate OpensWindow(c: Config, f: Option<Failures>, started: int) {
    f.None? || started - f.value.windowStart >= c.window
  }

  function Finished(c: Config, s: State, x: nat, correct: bool): State
    requires x < |s.flying|
  {
    var started := s.flying[x];
    var flying := s.flying[..x] + s.flying[x + 1..];
    if correct then State(None, flying, [], s.clock)
    else
      State(Some(Recorded(c, s.record, started)), flying,
            if OpensWindow(c, s.record, started) then [started] else s.counted + [started], s.clock)
  }

  /** What the beginning of an attempt leaves: one more in flight, unless the key is blocked. */
  lemma BeganExactly(c: Config, s: State, now: int)
    ensures var t := Began(c, s, now);
            var blocked := s.record.Some? && now < s.record.value.blockedUntil;
            && t.clock == now
            && (blocked ==> t.flying == s.flying && t.record == s.record && t.counted == s.counted)
            && (!blocked ==> t.flying == s.flying + [now])
            && (!blocked ==>
                  t.record == if s.record.Some? && now - s.record.value.windowStart < c.window then s.record else None)
            && (t.record == s.record && s.record.Some? ==> t.counted == s.counted)
            && (t.record.None? ==> t.counted == [])
  {
  }

  /** What the answer to an attempt leaves: one less in flight; no record, if the password was
      right; and else a record that counts the attempt in its window, or begins a window with
      it, and at the limit blocks until a cooldown after the attempt began. */
  lemma FinishedExactly(c: Config, s: State, x: nat, correct: bool)
    requires x < |s.flying|
    ensures var (t, started) := (Finished(c, s, x, correct), s.flying[x]);
            var running := s.record.Some? && started - s.record.value.windowStart < c.window;
            && t.clock == s.clock && t.flying == s.flying[..x] + s.flying[x + 1..]
            && (correct ==> t.record == None && t.counted == [])
            && (!correct ==> t.record.Some?)
            && (!correct && running ==>
                  && t.record.value.windowStart == s.record.value.windowStart
                  && t.record.value.count == s.record.value.count + 1 && t.counted == s.counted + [started])
            && (!correct && !running ==>
                  t.record.value.windowStart == started && t.record.value.count == 1 && t.counted == [started])
            && (!correct && t.record.value.count >= c.maxAttempts ==>
                  t.record.value.blockedUntil == started + c.cooldown)
            && (!correct && t.record.value.count < c.maxAttempts ==>
                  t.record.value.blockedUntil == if running then s.record.value.blockedUntil else 0)
  {
  }

  /** The clock does not go back, and only attempts in flight finish. */
  predicate Possible(s: State, e: Event) {
    match e
    case Begin(now) => now >= s.clock
    case Finish(x, _) => x < |s.flying|
  }

  function Step(c: Config, s: State, e: Event): State
    requires Possible(s, e)
  {
    match e
    case Begin(now) => Began(c, s, now)
    case Finish(x, correct) => Finished(c, s, x, correct)
  }

  /** The states of a run, in which impossible events do nothing. */
  function Exec(c: Config, s: State, events: seq<Event>): State
    decreases |events|
  {
    if events == [] then s
    else Exec(c, if Possible(s, events[0]) then Step(c, s, events[0]) else s, events[1..])
  }

  lemma {:induction false} ExecConcat(c: Config, s: State, first: seq<Event>, second: seq<Event>)
    ensures Exec(c, s, first + second) == Exec(c, Exec(c, s, first), second)
    decreases |first|
  {
    if first == [] {
      assert first + second == second;
    } else {
      assert (first + second)[1..] == first[1..] + second;
      ExecConcat(c, if Possible(s, first[0]) then Step(c, s, first[0]) else s, first[1..], second);
    }
  }

  function Start(now: int): State {
    State(None, [], [], now)
  }

  // ----- at most k attempts in flight, answered in the order of their beginnings

  /** No more than k attempts are in flight, and the oldest one finishes first. */
  predicate InOrder(k: nat, s: State, e: Event) {
    match e
    case Begin(_) => |s.flying| < k
    case Finish(x, _) => x == 0
  }

  predicate AlwaysInOrder(c: Config, k: nat, s: State, events: seq<Event>)
    decreases |events|
  {
    events != [] ==>
      && (Possible(s, events[0]) ==> InOrder(k, s, events[0]))
      && AlwaysInOrder(c, k, if Possible(s, events[0]) then Step(c, s, events[0]) else s, events[1..])
  }

  predicate Sorted(s: seq<int>) {
    forall i, j | 0 <= i < j < |s| :: s[i] <= s[j]
  }

  /** From the limit on, an attempt began a cooldown after the one k places before it: at
      most k - 1 of those in between were still in flight when it was checked. */
  predicate Chained(c: Config, k: nat, s: seq<int>)
    requires k >= 1
  {
    forall j | c.maxAttempts - 1 + k <= j < |s| && j - k >= 0 :: s[j] >= s[j - k] + c.cooldown
  }

  /** The record counts the attempts of its window and is blocked for a cooldown from the
      last of them, once there are enough. */
  predicate RecordOk(c: Config, s: State) {
    match s.record
    case None => s.counted == []
    case Some(f) =>
      && s.counted != [] && f.count == |s.counted| && f.windowStart == s.counted[0]
      && s.counted[|s.counted| - 1] < f.windowStart + c.window
      && f.blockedUntil == if f.count >= c.maxAttempts then s.counted[|s.counted| - 1] + c.cooldown else 0
  }

  predicate TimesOk(c: Config, k: nat, all: seq<int>, clock: int)
    requires k >= 1
  {
    0 <= clock && (forall i | 0 <= i < |all| :: 0 <= all[i] <= clock) && Sorted(all) && Chained(c, k, all)
  }

  predicate Inv(c: Config, k: nat, s: State)
    requires k >= 1
  {
    RecordOk(c, s) && |s.flying| <= k && TimesOk(c, k, s.counted + s.flying, s.clock)
  }

  lemma Extend(c: Config, k: nat, all: seq<int>, clock: int, now: int)
    requires k >= 1 && TimesOk(c, k, all, clock) && now >= clock
    requires |all| >= k && |all| >= c.maxAttempts - 1 + k ==> now >= all[|all| - k] + c.cooldown
    ensures TimesOk(c, k, all + [now], now)
  {
  }

  /** Attempts in flight that outlive the record are too few to be chained. */
  lemma Tail(c: Config, k: nat, a: seq<int>, b: seq<int>, clock: int)
    requires ConfigOk(c) && k >= 1 && TimesOk(c, k, a + b, clock) && |b| <= k
    ensures TimesOk(c, k, b, clock)
  {
    assert forall i | 0 <= i < |b| :: b[i] == (a + b)[|a| + i];
  }

  /** A check that passes comes a cooldown after the last of enough failures, and so after
      each of the counted ones. */
  lemma PassedCheck(c: Config, k: nat, s: State, now: int)
    requires ConfigOk(c) && k >= 1 && Inv(c, k, s) && |s.flying| < k && RetryAfter(s.record, now) == 0
    ensures var all := s.counted + s.flying;
            |all| >= k && |all| >= c.maxAttempts - 1 + k ==> now >= all[|all| - k] + c.cooldown
  {
    var all := s.counted + s.flying;
    if |all| >= c.maxAttempts - 1 + k {
      var i, last := |all| - k, |s.counted| - 1;
      assert i <= last && all[i] == s.counted[i] && all[last] == s.counted[last];
      assert all[i] <= all[last];
    }
  }

  lemma BeginInv(c: Config, k: nat, s: State, now: int)
    requires ConfigOk(c) && k >= 1 && Inv(c, k, s) && now >= s.clock && |s.flying| < k
    ensures Inv(c, k, Began(c, s, now))
  {
    if RetryAfter(s.record, now) == 0 {
      PassedCheck(c, k, s, now);
      hide TimesOk, ConfigOk;
      if Cleaned(c, s.record, now).Some? {
        Extend(c, k, s.counted + s.flying, s.clock, now);
        assert s.counted + (s.flying + [now]) == s.counted + s.flying + [now];
      } else {
        Tail(c, k, s.counted, s.flying, s.clock);
        assert c.maxAttempts >= 2 by { AtLeastTwo(c); }
        Extend(c, k, s.flying, s.clock, now);
        assert [] + (s.flying + [now]) == s.flying + [now];
      }
    }
  }

  lemma AtLeastTwo(c: Config)
    requires ConfigOk(c)
    ensures c.maxAttempts >= 2
  {
  }

  lemma FinishInv(c: Config, k: nat, s: State, correct: bool)
    requires ConfigOk(c) && k >= 1 && Inv(c, k, s) && s.flying != []
    ensures Inv(c, k, Finished(c, s, 0, correct))
  {
    var started, rest := s.flying[0], s.flying[1..];
    StartedLate(c, k, s);
    AtLeastTwo(c);
    hide TimesOk, ConfigOk;
    assert s.flying[..0] + rest == rest && s.flying == [started] + rest;
    assert s.counted + s.flying == s.counted + [started] + rest;
    if correct {
      Tail(c, k, s.counted + [started], rest, s.clock);
      assert [] + rest == rest;
    } else if OpensWindow(c, s.record, started) {
      Tail(c, k, s.counted, s.flying, s.clock);
    }
  }

  lemma StartedLate(c: Config, k: nat, s: State)
    requires ConfigOk(c) && k >= 1 && Inv(c, k, s) && s.flying != []
    ensures 0 <= s.flying[0] && (s.counted != [] ==> s.counted[|s.counted| - 1] <= s.flying[0])
    ensures c.window > 0
  {
    var all := s.counted + s.flying;
    assert all[|s.counted|] == s.flying[0];
    if s.counted != [] { assert all[|s.counted| - 1] == s.counted[|s.counted| - 1]; }
  }

  lemma {:induction false} RunInv(c: Config, k: nat, s: State, events: seq<Event>)
    requires ConfigOk(c) && k >= 1 && Inv(c, k, s) && AlwaysInOrder(c, k, s, events)
    ensures Inv(c, k, Exec(c, s, events))
    decreases |events|
  {
    hide Inv, Began, Finished;
    if events != [] {
      var e := events[0];
      if Possible(s, e) {
        if e.Begin? { BeginInv(c, k, s, e.now); } else { FinishInv(c, k, s, e.correct); }
        RunInv(c, k, Step(c, s, e), events[1..]);
      } else {
        RunInv(c, k, s, events[1..]);
      }
    }
  }

  // ----- the bound

  /** The limit, and then k more for each cooldown that begins in the window. */
  function OverlapBound(c: Config, k: nat): int
    requires ConfigOk(c)
  {
    c.maxAttempts + Times(k, (c.window + c.cooldown - 1) / c.cooldown) - 1
  }

  lemma {:induction false} ChainGrows(c: Config, k: nat, s: seq<int>, m: nat)
    requires ConfigOk(c) && k >= 1 && Sorted(s) && Chained(c, k, s)
    requires c.maxAttempts - 1 + Times(k, m) < |s|
    ensures 0 <= Times(k, m) && s[c.maxAttempts - 1 + Times(k, m)] >= s[0] + Times(c.cooldown, m)
  {
    if m == 0 {
      assert Times(k, 0) == 0 && Times(c.cooldown, 0) == 0;
    } else {
      TimesMonotone(k, 0, m - 1);
      TimesMonotone(k, m - 1, m);
      TimesMonotone(c.cooldown, m - 1, m);
      assert Times(k, m) == Times(k, m - 1) + k;
      hide Times;
      ChainGrows(c, k, s, m - 1);
      assert s[c.maxAttempts - 1 + Times(k, m)] >= s[c.maxAttempts - 1 + Times(k, m) - k] + c.cooldown;
    }
  }

  lemma CountedBound(c: Config, k: nat, s: State)
    requires ConfigOk(c) && k >= 1 && Inv(c, k, s) && s.record.Some?
    ensures s.record.value.count <= OverlapBound(c, k)
  {
    var m := (c.window + c.cooldown - 1) / c.cooldown;
    FullCooldowns(c);
    CountedChain(c, k, s);
    hide Times, TimesOk;
    var i := c.maxAttempts - 1 + Times(k, m);
    if i < |s.counted| {
      assert forall j | 0 <= j < |s.counted| :: s.counted[j] <= s.counted[|s.counted| - 1];
      ChainGrows(c, k, s.counted, m);
    }
  }

  /** However attempts overlap, if at most k are in flight and they are answered in the
      order of their beginnings, at most `maxAttempts + k * ceil(window / cooldown) - 1`
      failures are recorded in one window; for k = 1 this is the bound of attempts that
      do not overlap. */
  lemma OverlapWindowBound(c: Config, k: nat, now: int, events: seq<Event>)
    requires ConfigOk(c) && k >= 1 && now >= 0 && AlwaysInOrder(c, k, Start(now), events)
    ensures var f := Exec(c, Start(now), events).record;
            f.Some? ==> f.value.count <= OverlapBound(c, k)
    ensures OverlapBound(c, 1) == Bound(c)
  {
    RunInv(c, k, Start(now), events);
    var s := Exec(c, Start(now), events);
    if s.record.Some? { CountedBound(c, k, s); }
    assert Times(1, (c.window + c.cooldown - 1) / c.cooldown) == (c.window + c.cooldown - 1) / c.cooldown;
  }

  lemma FullCooldowns(c: Config)
    requires ConfigOk(c)
    ensures var m := (c.window + c.cooldown - 1) / c.cooldown;
            m >= 0 && Times(c.cooldown, m) >= c.window
  {
    var x, d := c.window + c.cooldown - 1, c.cooldown;
    assert x == d * (x / d) + x % d;
  }

  lemma CountedChain(c: Config, k: nat, s: State)
    requires k >= 1 && Inv(c, k, s)
    ensures Sorted(s.counted) && Chained(c, k, s.counted)
  {
    var all := s.counted + s.flying;
    assert forall i | 0 <= i < |s.counted| :: s.counted[i] == all[i];
  }

  // ----- the bound is reached

  function Begins(n: nat, now: int): seq<Event> {
    seq(n, i => Begin(now))
  }

  function Finishes(n: nat): seq<Event> {
    seq(n, i => Finish(0, false))
  }

  function Nows(n: nat, now: int): seq<int> {
    seq(n, i => now)
  }

  function Counting(c: Config, n: nat, now: int): Option<Failures> {
    if n == 0 then None else Some(Failures(n, now, if n >= c.maxAttempts then now + c.cooldown else 0))
  }

  /** n failures counted and p attempts in flight, all of them begun at one moment. */
  function Crowd(c: Config, n: nat, p: nat, now: int): State {
    State(Counting(c, n, now), Nows(p, now), Nows(n, now), now)
  }

  lemma {:induction false} CrowdBegins(c: Config, k: nat, n: nat, p: nat, b: nat, now: int)
    requires ConfigOk(c) && now >= 0 && n < c.maxAttempts && p + b <= k
    ensures AlwaysInOrder(c, k, Crowd(c, n, p, now), Begins(b, now))
    ensures Exec(c, Crowd(c, n, p, now), Begins(b, now)) == Crowd(c, n, p + b, now)
    decreases b
  {
    if b > 0 {
      var s := Crowd(c, n, p, now);
      assert Nows(p, now) + [now] == Nows(p + 1, now);
      assert Step(c, s, Begin(now)) == Crowd(c, n, p + 1, now);
      assert Begins(b, now)[1..] == Begins(b - 1, now);
      CrowdBegins(c, k, n, p + 1, b - 1, now);
    }
  }

  lemma {:induction false} CrowdFinishes(c: Config, k: nat, n: nat, p: nat, now: int)
    requires ConfigOk(c) && now >= 0
    ensures AlwaysInOrder(c, k, Crowd(c, n, p, now), Finishes(p))
    ensures Exec(c, Crowd(c, n, p, now), Finishes(p)) == Crowd(c, n + p, 0, now)
    decreases p
  {
    if p > 0 {
      var s := Crowd(c, n, p, now);
      assert Nows(p, now)[..0] + Nows(p, now)[1..] == Nows(p - 1, now);
      assert Nows(n, now) + [now] == Nows(n + 1, now);
      assert Step(c, s, Finish(0, false)) == Crowd(c, n + 1, p - 1, now);
      assert Finishes(p)[1..] == Finishes(p - 1);
      CrowdFinishes(c, k, n + 1, p - 1, now);
    }
  }

  /** Attempts made one by one, each answered before the next. */
  function Singles(n: nat, now: int): seq<Event> {
    if n == 0 then [] else Singles(n - 1, now) + (Begins(1, now) + Finishes(1))
  }

  lemma OrderConcat(c: Config, k: nat, s: State, first: seq<Event>, second: seq<Event>)
    requires AlwaysInOrder(c, k, s, first) && AlwaysInOrder(c, k, Exec(c, s, first), second)
    ensures AlwaysInOrder(c, k, s, first + second)
    decreases |first|
  {
    if first == [] {
      assert first + second == second;
    } else {
      assert (first + second)[1..] == first[1..] + second;
      OrderConcat(c, k, if Possible(s, first[0]) then Step(c, s, first[0]) else s, first[1..], second);
    }
  }

  lemma CrowdRound(c: Config, k: nat, n: nat, b: nat, now: int)
    requires ConfigOk(c) && now >= 0 && n < c.maxAttempts && b <= k
    ensures AlwaysInOrder(c, k, Crowd(c, n, 0, now), Begins(b, now) + Finishes(b))
    ensures Exec(c, Crowd(c, n, 0, now), Begins(b, now) + Finishes(b)) == Crowd(c, n + b, 0, now)
  {
    hide Exec, AlwaysInOrder, Crowd;
    CrowdBegins(c, k, n, 0, b, now);
    CrowdFinishes(c, k, n, b, now);
    ExecConcat(c, Crowd(c, n, 0, now), Begins(b, now), Finishes(b));
    OrderConcat(c, k, Crowd(c, n, 0, now), Begins(b, now), Finishes(b));
  }

  lemma {:induction false} CrowdSingles(c: Config, k: nat, n: nat, now: int)
    requires ConfigOk(c) && now >= 0 && n <= c.maxAttempts && k >= 1
    ensures AlwaysInOrder(c, k, Crowd(c, 0, 0, now), Singles(n, now))
    ensures Exec(c, Crowd(c, 0, 0, now), Singles(n, now)) == Crowd(c, n, 0, now)
  {
    if n > 0 {
      hide Crowd, Begins, Finishes;
      var round := Begins(1, now) + Finishes(1);
      CrowdSingles(c, k, n - 1, now);
      CrowdRound(c, k, n - 1, 1, now);
      ExecConcat(c, Crowd(c, 0, 0, now), Singles(n - 1, now), round);
      OrderConcat(c, k, Crowd(c, 0, 0, now), Singles(n - 1, now), round);
    }
  }

  /** One attempt short of the limit, k attempts that begin together all pass the check
      and are all verified, whatever the limit is. So no bound holds that does not depend
      on the attempts in flight, and when the window is no longer than the cooldown the
      bound above is reached for every k. */
  lemma OverlapBoundIsReached(c: Config, k: nat, now: int)
    requires ConfigOk(c) && k >= 1 && now >= 0
    ensures var events := Singles(c.maxAttempts - 1, now) + (Begins(k, now) + Finishes(k));
            && AlwaysInOrder(c, k, Start(now), events)
            && Exec(c, Start(now), events).record.Some?
            && Exec(c, Start(now), events).record.value.count == c.maxAttempts - 1 + k
    ensures c.window <= c.cooldown ==> OverlapBound(c, k) == c.maxAttempts - 1 + k
  {
    var n := c.maxAttempts - 1;
    assert Crowd(c, 0, 0, now) == Start(now);
    CrowdSingles(c, k, n, now);
    CrowdRound(c, k, n, k, now);
    ExecConcat(c, Start(now), Singles(n, now), Begins(k, now) + Finishes(k));
    OrderConcat(c, k, Start(now), Singles(n, now), Begins(k, now) + Finishes(k));
    if c.window <= c.cooldown {
      OneCooldown(c);
      assert Times(k, 1) == k;
    }
  }

  lemma OneCooldown(c: Config)
    requires ConfigOk(c) && c.window <= c.cooldown
    ensures (c.window + c.cooldown - 1) / c.cooldown == 1
  {
    var x, d := c.window + c.cooldown - 1, c.cooldown;
    var q := x / d;
    assert x == d * q + x % d;
    Quotient(1, x, d);
    Cancel(d, q, 2);
  }

  // ----- the block can be lifted early

  /** Recording a failure moves the end of a block back exactly when it opens a new window,
      or when the attempt began before the last one counted. */
  lemma BlockMovesBack(c: Config, s: State, x: nat)
    requires ConfigOk(c) && x < |s.flying| && s.record.Some? && RecordOk(c, s)
    requires s.record.value.blockedUntil > 0 && s.record.value.count >= c.maxAttempts
    ensures Finished(c, s, x, false).record.value.blockedUntil < s.record.value.blockedUntil <==>
              OpensWindow(c, s.record, s.flying[x]) || s.flying[x] < s.counted[|s.counted| - 1]
  {
  }

  /** In the order of beginnings only a new window moves it back: within a window the block
      only grows. */
  lemma InOrderNeverUnblocks(c: Config, k: nat, s: State)
    requires ConfigOk(c) && k >= 1 && Inv(c, k, s) && s.flying != [] && s.record.Some?
    requires !OpensWindow(c, s.record, s.flying[0])
    ensures Finished(c, s, 0, false).record.value.blockedUntil >= s.record.value.blockedUntil
  {
    var all := s.counted + s.flying;
    assert all[|s.counted| - 1] == s.counted[|s.counted| - 1] && all[|s.counted|] == s.flying[0];
  }

  /** Out of that order it does move back: the first attempt is answered last, and the
      block that would have lasted until 100 000 is over at 60 000. */
  const LATE: seq<Event> :=
    [Begin(0), Begin(40_000), Begin(40_000), Finish(1, false), Finish(1, false), Finish(0, false)]

  lemma LateAnswerUnblocks()
    ensures var c := Config(60_000, 60_000, 2);
            ConfigOk(c)
            && Exec(c, Start(0), LATE[..5]).record == Some(Failures(2, 40_000, 100_000))
            && Exec(c, Start(0), LATE).record == Some(Failures(3, 40_000, 60_000))
            && RetryAfter(Exec(c, Start(0), LATE[..5]).record, 60_001) == 39_999
            && RetryAfter(Exec(c, Start(0), LATE).record, 60_001) == 0
  {
    var c := Config(60_000, 60_000, 2);
    var s0 := State(None, [0, 40_000, 40_000], [], 40_000);
    assert Exec(c, Start(0), LATE[..5]) == Exec(c, s0, [Finish(1, false), Finish(1, false)]) by {
      ThreeBegin(c, [Finish(1, false), Finish(1, false)]);
      assert LATE[..5] == [Begin(0), Begin(40_000), Begin(40_000)] + [Finish(1, false), Finish(1, false)];
    }
    assert Exec(c, Start(0), LATE) == Exec(c, s0, [Finish(1, false), Finish(1, false), Finish(0, false)]) by {
      ThreeBegin(c, [Finish(1, false), Finish(1, false), Finish(0, false)]);
      assert LATE == [Begin(0), Begin(40_000), Begin(40_000)] + [Finish(1, false), Finish(1, false), Finish(0, false)];
    }
    LateFinishes(c);
  }

  lemma ThreeBegin(c: Config, rest: seq<Event>)
    requires c == Config(60_000, 60_000, 2)
    ensures Exec(c, Start(0), [Begin(0), Begin(40_000), Begin(40_000)] + rest)
            == Exec(c, State(None, [0, 40_000, 40_000], [], 40_000), rest)
  {
    var e := [Begin(0), Begin(40_000), Begin(40_000)] + rest;
    var s1, s2 := State(None, [0], [], 0), State(None, [0, 40_000], [], 40_000);
    assert e[1..] == [Begin(40_000), Begin(40_000)] + rest && e[1..][1..] == [Begin(40_000)] + rest
        && e[1..][1..][1..] == rest;
    assert Step(c, Start(0), Begin(0)) == s1;
    assert Exec(c, Start(0), e) == Exec(c, s1, e[1..]);
    assert Step(c, s1, Begin(40_000)) == s2;
    assert Exec(c, s1, e[1..]) == Exec(c, s2, e[1..][1..]);
    assert Step(c, s2, Begin(40_000)) == State(None, [0, 40_000, 40_000], [], 40_000);
  }

  lemma LateFinishes(c: Config)
    requires c == Config(60_000, 60_000, 2)
    ensures var s := State(None, [0, 40_000, 40_000], [], 40_000);
            && Exec(c, s, [Finish(1, false), Finish(1, false)]).record == Some(Failures(2, 40_000, 100_000))
            && Exec(c, s, [Finish(1, false), Finish(1, false), Finish(0, false)]).record
                == Some(Failures(3, 40_000, 60_000))
  {
    var s := State(None, [0, 40_000, 40_000], [], 40_000);
    var s1 := State(Some(Failures(1, 40_000, 0)), [0, 40_000], [40_000], 40_000);
    var s2 := State(Some(Failures(2, 40_000, 100_000)), [0], [40_000, 40_000], 40_000);
    assert Step(c, s, Finish(1, false)) == s1;
    assert Step(c, s1, Finish(1, false)) == s2;
    assert [Finish(1, false), Finish(1, false)][1..] == [Finish(1, false)];
    assert [Finish(1, false)][1..] == [];
    assert Exec(c, s, [Finish(1, false), Finish(1, false)]) == s2;
    ExecConcat(c, s, [Finish(1, false), Finish(1, false)], [Finish(0, false)]);
    assert [Finish(1, false), Finish(1, false)] + [Finish(0, false)]
        == [Finish(1, false), Finish(1, false), Finish(0, false)];
    assert [Finish(0, false)][1..] == [];
    assert Exec(c, s2, [Finish(0, false)]) == Step(c, s2, Finish(0, false));
  }

  /** Removing an old record at a check changes what a later record says exactly when the
      attempt in flight began inside the window that was removed. */
  lemma CleanupForgets(c: Config, f: Failures, check: int, started: int)
    requires ConfigOk(c) && f.count >= 1
    ensures Recorded(c, Cleaned(c, Some(f), check), started) == Recorded(c, Some(f), started) <==>
              !(f.blockedUntil <= check && check - f.windowStart >= c.window && started - f.windowStart < c.window)
  {
  }
}
