/** How many passwords are refused in an interval of any length when attempts on one key
    overlap: at most k in flight, answered in the order of their beginnings. A check may
    remove a record under attempts in flight, so the windows of successive records can
    overlap; what is counted is the attempts that began in a span of time. */
module LoginInterval {
  import opened LoginLimiter
  import opened LoginOverlap
  import opened Wrappers

  /** The beginning of the attempt that an event refuses, if it does. */
  function RefusedBy(s: State, e: Event): seq<int> {
    if e.Finish? && Possible(s, e) && !e.correct then [s.flying[e.x]] else []
  }

  function Next(c: Config, s: State, e: Event): State {
    if Possible(s, e) then Step(c, s, e) else s
  }

  /** The beginnings of all attempts that a run refuses, in the order of their answers. */
  function Refusals(c: Config, s: State, events: seq<Event>): seq<int>
    decreases |events|
  {
    if events == [] then []
    else RefusedBy(s, events[0]) + Refusals(c, Next(c, s, events[0]), events[1..])
  }

  predicate NoneCorrect(events: seq<Event>) {
    forall i | 0 <= i < |events| :: events[i].Finish? ==> !events[i].correct
  }

  // ----- counting

  lemma {:induction false} CountConcat(a: seq<int>, b: seq<int>, low: int, high: int)
    ensures CountIn(a + b, low, high) == CountIn(a, low, high) + CountIn(b, low, high)
  {
    if b == [] {
      assert a + b == a;
    } else {
      var n := |b| - 1;
      CountConcat(a, b[..n], low, high);
      assert (a + b)[..|a + b| - 1] == a + b[..n];
    }
  }

  lemma CountOne(x: int, low: int, high: int)
    ensures CountIn([x], low, high) == if low <= x <= high then 1 else 0
  {
    assert [x][..0] == [];
  }

  lemma {:induction false} CountAtMost(s: seq<int>, low: int, high: int)
    ensures CountIn(s, low, high) <= |s|
  {
    if s != [] { CountAtMost(s[..|s| - 1], low, high); }
  }

  /** Adjoining spans add up. */
  lemma {:induction false} CountSplit(s: seq<int>, low: int, middle: int, high: int)
    requires low <= middle <= high + 1
    ensures CountIn(s, low, high) == CountIn(s, low, middle - 1) + CountIn(s, middle, high)
  {
    if s != [] { CountSplit(s[..|s| - 1], low, middle, high); }
  }

  lemma {:induction false} CountWider(s: seq<int>, low: int, high: int, higher: int)
    requires high <= higher
    ensures CountIn(s, low, high) <= CountIn(s, low, higher)
  {
    if s != [] { CountWider(s[..|s| - 1], low, high, higher); }
  }

  // ----- one span as long as a window

  function InSpan(c: Config, x: int, s: seq<int>): nat {
    CountIn(s, x, x + c.window - 1)
  }

  /** At most two records can count attempts of one span, and beside them the attempts in
      flight when the second record was removed. */
  function SpanBound(c: Config, k: nat): int
    requires ConfigOk(c)
  {
    2 * OverlapBound(c, k) + k - 1
  }

  /** The attempts of the span were all counted by the present record. */
  predicate FirstRecord(c: Config, x: int, s: State, refused: seq<int>) {
    InSpan(c, x, refused) <= |s.counted|
  }

  /** Some were counted by one earlier record, and the present one began in the span. */
  predicate SecondRecord(c: Config, k: nat, x: int, s: State, refused: seq<int>)
    requires ConfigOk(c)
  {
    && InSpan(c, x, refused) <= OverlapBound(c, k) + |s.counted|
    && (s.counted != [] ==> s.counted[0] >= x)
  }

  /** The span is over: only attempts in flight can still add to it. */
  predicate SpanOver(c: Config, k: nat, x: int, s: State, refused: seq<int>)
    requires ConfigOk(c)
  {
    s.clock >= x + c.window && InSpan(c, x, refused) + InSpan(c, x, s.flying) <= SpanBound(c, k)
  }

  predicate SpanOk(c: Config, k: nat, x: int, s: State, refused: seq<int>)
    requires ConfigOk(c)
  {
    FirstRecord(c, x, s, refused) || SecondRecord(c, k, x, s, refused) || SpanOver(c, k, x, s, refused)
  }

  predicate HistoryOk(s: State, refused: seq<int>) {
    Sorted(refused + s.flying) && forall i | 0 <= i < |refused| :: refused[i] <= s.clock
  }

  lemma Counted(c: Config, k: nat, s: State)
    requires ConfigOk(c) && k >= 1 && Inv(c, k, s)
    ensures |s.counted| <= OverlapBound(c, k) && OverlapBound(c, k) >= 1
  {
    var m := (c.window + c.cooldown - 1) / c.cooldown;
    FullCooldowns(c);
    TimesMonotone(k, 0, m);
    if s.record.Some? { CountedBound(c, k, s); }
  }

  /** When a check removes a record, its window is over. */
  lemma RemovedIsOver(c: Config, k: nat, x: int, s: State, refused: seq<int>, now: int)
    requires ConfigOk(c) && k >= 1 && Inv(c, k, s) && now >= s.clock && |s.flying| < k
    requires RetryAfter(s.record, now) == 0 && s.record.Some? && Cleaned(c, s.record, now).None?
    requires FirstRecord(c, x, s, refused) || SecondRecord(c, k, x, s, refused)
    requires InSpan(c, x, s.flying + [now]) <= if now >= x + c.window then |s.flying| else |s.flying| + 1
    ensures SpanOk(c, k, x, Began(c, s, now), refused)
  {
    hide InSpan, TimesOk, OverlapBound, ConfigOk;
    Counted(c, k, s);
    var s' := Began(c, s, now);
    if s.counted[0] >= x {
      assert SpanOver(c, k, x, s', refused);
    } else {
      assert SecondRecord(c, k, x, s', refused);
    }
  }

  lemma BeginSpan(c: Config, k: nat, x: int, s: State, refused: seq<int>, now: int)
    requires ConfigOk(c) && k >= 1 && Inv(c, k, s) && now >= s.clock && |s.flying| < k
    requires SpanOk(c, k, x, s, refused)
    ensures SpanOk(c, k, x, Began(c, s, now), refused)
  {
    CountConcat(s.flying, [now], x, x + c.window - 1);
    CountOne(now, x, x + c.window - 1);
    CountAtMost(s.flying, x, x + c.window - 1);
    if SpanOver(c, k, x, s, refused) {
      assert SpanOver(c, k, x, Began(c, s, now), refused);
    } else if RetryAfter(s.record, now) == 0 && s.record.Some? && Cleaned(c, s.record, now).None? {
      RemovedIsOver(c, k, x, s, refused, now);
    } else {
      hide CountIn, OverlapBound, TimesOk, ConfigOk;
      assert Began(c, s, now).counted == s.counted;
    }
  }

  /** The attempt that is answered next began no earlier than those refused before. */
  lemma NextIsLast(c: Config, x: int, s: State, refused: seq<int>)
    requires s.flying != [] && HistoryOk(s, refused)
    ensures InSpan(c, x, refused) > 0 ==> s.flying[0] >= x
    ensures s.flying[0] >= x + c.window ==> InSpan(c, x, s.flying) == 0
  {
    var all, q := refused + s.flying, s.flying[0];
    assert all[|refused|] == q;
    assert forall i | 0 <= i < |refused| :: refused[i] == all[i] <= q;
    assert forall i | 0 <= i < |s.flying| :: s.flying[i] == all[|refused| + i];
    if q < x { CountNone(refused, x, x + c.window - 1); }
    if q >= x + c.window { CountNone(s.flying, x, x + c.window - 1); }
  }

  lemma FinishSpan(c: Config, k: nat, x: int, s: State, refused: seq<int>)
    requires ConfigOk(c) && k >= 1 && Inv(c, k, s) && s.flying != []
    requires SpanOk(c, k, x, s, refused) && HistoryOk(s, refused)
    ensures SpanOk(c, k, x, Finished(c, s, 0, false), refused + [s.flying[0]])
  {
    var q, s' := s.flying[0], Finished(c, s, 0, false);
    var low, high := x, x + c.window - 1;
    Counted(c, k, s);
    NextIsLast(c, x, s, refused);
    CountConcat(refused, [q], low, high);
    CountOne(q, low, high);
    assert s.flying[..0] + s.flying[1..] == s.flying[1..] && s.flying == [q] + s.flying[1..];
    CountConcat([q], s.flying[1..], low, high);
    assert 0 <= q <= s.clock by { assert (s.counted + s.flying)[|s.counted|] == q; }
    FinishCases(c, k, x, s, refused, s');
  }

  lemma FinishCases(c: Config, k: nat, x: int, s: State, refused: seq<int>, s': State)
    requires ConfigOk(c) && k >= 1 && s.flying != [] && s' == Finished(c, s, 0, false)
    requires RecordOk(c, s) && SpanOk(c, k, x, s, refused)
    requires |s.counted| <= OverlapBound(c, k) && OverlapBound(c, k) >= 1
    requires var q := s.flying[0];
             && q <= s.clock
             && (InSpan(c, x, refused) > 0 ==> q >= x)
             && (q >= x + c.window ==> InSpan(c, x, s.flying) == 0)
             && InSpan(c, x, refused + [q]) == InSpan(c, x, refused) + (if x <= q < x + c.window then 1 else 0)
             && InSpan(c, x, s.flying) == InSpan(c, x, s'.flying) + (if x <= q < x + c.window then 1 else 0)
    ensures SpanOk(c, k, x, s', refused + [s.flying[0]])
  {
    hide InSpan, OverlapBound, ConfigOk;
    var q, before, after := s.flying[0], InSpan(c, x, refused), InSpan(c, x, refused + [s.flying[0]]);
    if SpanOver(c, k, x, s, refused) {
      assert SpanOver(c, k, x, s', refused + [q]);
    } else if !OpensWindow(c, s.record, q) {
      assert |s'.counted| == |s.counted| + 1 && s'.counted[0] == s.counted[0];
      if FirstRecord(c, x, s, refused) {
        assert FirstRecord(c, x, s', refused + [q]);
      } else {
        assert SecondRecord(c, k, x, s', refused + [q]);
      }
    } else if before == 0 {
      assert FirstRecord(c, x, s', refused + [q]);
    } else if s.record.None? || s.counted[0] < x {
      assert SecondRecord(c, k, x, s', refused + [q]);
    }
  }

  lemma HistoryStep(c: Config, s: State, refused: seq<int>, e: Event)
    requires HistoryOk(s, refused) && Possible(s, e) && (e.Finish? ==> e.x == 0 && !e.correct)
    requires forall i | 0 <= i < |s.flying| :: s.flying[i] <= s.clock
    ensures HistoryOk(Step(c, s, e), refused + RefusedBy(s, e))
  {
    var s' := Step(c, s, e);
    match e
    case Begin(now) =>
      assert refused + [] == refused;
      assert refused + (s.flying + [now]) == refused + s.flying + [now];
      assert forall i | 0 <= i < |s.flying| :: (refused + s.flying)[|refused| + i] == s.flying[i];
    case Finish(x, correct) =>
      assert s.flying[..0] + s.flying[1..] == s.flying[1..];
      assert refused + [s.flying[0]] + s.flying[1..] == refused + s.flying;
  }

  lemma {:induction false} SpanRun(c: Config, k: nat, x: int, s: State, refused: seq<int>, events: seq<Event>)
    requires ConfigOk(c) && k >= 1 && Inv(c, k, s) && AlwaysInOrder(c, k, s, events) && NoneCorrect(events)
    requires SpanOk(c, k, x, s, refused) && HistoryOk(s, refused)
    ensures var t := Exec(c, s, events);
            Inv(c, k, t) && SpanOk(c, k, x, t, refused + Refusals(c, s, events))
    decreases |events|
  {
    hide Inv, SpanOk, HistoryOk, Step, RefusedBy, Possible, InOrder;
    if events == [] {
      assert refused + [] == refused;
    } else {
      NextOk(c, k, x, s, refused, events[0]);
      RefusalsStep(c, s, refused, events);
      SpanRun(c, k, x, Next(c, s, events[0]), refused + RefusedBy(s, events[0]), events[1..]);
    }
  }

  lemma RefusalsStep(c: Config, s: State, refused: seq<int>, events: seq<Event>)
    requires events != []
    ensures refused + Refusals(c, s, events)
            == refused + RefusedBy(s, events[0]) + Refusals(c, Next(c, s, events[0]), events[1..])
  {
    hide Next, RefusedBy;
  }

  lemma NextOk(c: Config, k: nat, x: int, s: State, refused: seq<int>, e: Event)
    requires ConfigOk(c) && k >= 1 && Inv(c, k, s)
    requires (Possible(s, e) ==> InOrder(k, s, e)) && (e.Finish? ==> !e.correct)
    requires SpanOk(c, k, x, s, refused) && HistoryOk(s, refused)
    ensures var t, more := Next(c, s, e), refused + RefusedBy(s, e);
            Inv(c, k, t) && SpanOk(c, k, x, t, more) && HistoryOk(t, more)
  {
    if Possible(s, e) {
      InFlightIsPast(c, k, s);
      HistoryStep(c, s, refused, e);
      StepSpan(c, k, x, s, refused, e);
    } else {
      assert refused + RefusedBy(s, e) == refused;
    }
  }

  lemma InFlightIsPast(c: Config, k: nat, s: State)
    requires k >= 1 && Inv(c, k, s)
    ensures forall i | 0 <= i < |s.flying| :: s.flying[i] <= s.clock
  {
    assert forall i | 0 <= i < |s.flying| :: s.flying[i] == (s.counted + s.flying)[|s.counted| + i];
  }

  lemma StepSpan(c: Config, k: nat, x: int, s: State, refused: seq<int>, e: Event)
    requires ConfigOk(c) && k >= 1 && Inv(c, k, s) && Possible(s, e) && InOrder(k, s, e)
    requires e.Finish? ==> !e.correct
    requires SpanOk(c, k, x, s, refused) && HistoryOk(s, refused)
    ensures Inv(c, k, Step(c, s, e)) && SpanOk(c, k, x, Step(c, s, e), refused + RefusedBy(s, e))
  {
    hide Inv, SpanOk, Began, Finished, HistoryOk;
    if e.Begin? {
      BeginInv(c, k, s, e.now);
      BeginSpan(c, k, x, s, refused, e.now);
      assert refused + [] == refused;
    } else {
      FinishInv(c, k, s, false);
      FinishSpan(c, k, x, s, refused);
    }
  }

  /** At most `2 * OverlapBound + k - 1` attempts that began in one span as long as a window
      are refused, wherever the span lies. */
  lemma SpanIsBounded(c: Config, k: nat, now: int, events: seq<Event>, x: int)
    requires ConfigOk(c) && k >= 1 && now >= 0
    requires AlwaysInOrder(c, k, Start(now), events) && NoneCorrect(events)
    ensures InSpan(c, x, Refusals(c, Start(now), events)) <= SpanBound(c, k)
  {
    var t, refused := Exec(c, Start(now), events), Refusals(c, Start(now), events);
    SpanRun(c, k, x, Start(now), [], events);
    assert [] + refused == refused;
    Counted(c, k, t);
  }

  /** In any interval of length L, at most floor(L / window) + 1 times as many. */
  lemma {:induction false} OverlapIntervalBound(c: Config, k: nat, now: int, events: seq<Event>, a: int, length: nat)
    requires ConfigOk(c) && k >= 1 && now >= 0
    requires AlwaysInOrder(c, k, Start(now), events) && NoneCorrect(events)
    ensures CountIn(Refusals(c, Start(now), events), a, a + length) <= Times(SpanBound(c, k), length / c.window + 1)
    decreases length
  {
    hide SpanBound, AlwaysInOrder, NoneCorrect, CountIn, Times, Refusals;
    var refused, b := Refusals(c, Start(now), events), SpanBound(c, k);
    assert c.window > 0;
    SpanIsBounded(c, k, now, events, a);
    if length < c.window {
      CountWider(refused, a, a + length, a + c.window - 1);
      NoWholeWindow(length, c.window);
      BoundAgain(b, 0);
    } else {
      CountSplit(refused, a, a + c.window, a + length);
      OverlapIntervalBound(c, k, now, events, a + c.window, length - c.window);
      OneWindowLess(length, c.window);
      BoundAgain(b, length / c.window);
    }
  }

  lemma NoWholeWindow(x: int, d: int)
    requires 0 <= x < d
    ensures x / d == 0
  {
  }

  lemma OneWindowLess(x: int, d: int)
    requires 0 < d <= x
    ensures (x - d) / d + 1 == x / d
  {
    var q, p := x / d, (x - d) / d;
    assert x == d * q + x % d && x - d == d * p + (x - d) % d;
    assert Times(d, q - 1) == d * q - d && Times(d, p + 1) == d * p + d;
    Cancel(d, q - 1, p + 1);
    Cancel(d, p, q);
  }

  lemma BoundAgain(b: int, n: int)
    ensures Times(b, n + 1) == Times(b, n) + b && Times(b, 0) == 0
  {
  }
}
