/** The audit log of an author job: `ensureAppliedCheckpoint` appends the fact that a
    proposal was applied, by a bounded retry loop over compare-and-set on the job
    version. Any number of callers, of other appends and of changes of the job
    interleave between store calls. */
module AuditLog {
  datatype Fact = Applied(proposal: string, revision: int) | Other(kind: string)

  /** The job record and its checkpoints. Every change of either raises the version, and
      a job is never removed. */
  datatype Store = Store(created: bool, version: nat, terminal: bool, log: seq<Fact>)

  const MAX_ATTEMPTS := 4

  /** Why a call returns false. */
  datatype Why = Missing | Rejected | Ended | Busy

  datatype Pc =
    | Reading
    | HasJob(version: nat, terminal: bool)
    | HasLog(seen: bool)
    | Deciding(version: nat, terminal: bool, seen: bool)
    | Logged
    | Failed(why: Why)

  /** One call; `started` is the version at its first store call, recorded for the progress
      property. */
  datatype Caller = Caller(fact: Fact, attempt: nat, pc: Pc, started: nat)

  datatype State = State(store: Store, callers: map<nat, Caller>)

  /** appendCheckpoint: `accepted` says whether the store finds the fact and the time valid. */
  datatype Append = Updated | VersionConflict | InvalidTransition | InvalidRequest

  function AppendTo(s: Store, expected: nat, f: Fact, accepted: bool): (Store, Append) {
    if !accepted || !s.created then (s, InvalidRequest)
    else if s.version != expected then (s, VersionConflict)
    else if s.terminal then (s, InvalidTransition)
    else (s.(version := s.version + 1, log := s.log + [f]), Updated)
  }

  /** One store call of `ensureAppliedCheckpoint`. The two reads are started together, so
      either may reach the store first; `jobFirst` says which one does. */
  function Call(s: Store, c: Caller, accepted: bool, jobFirst: bool): (Store, Caller) {
    match c.pc
    case Reading =>
      if c.attempt >= MAX_ATTEMPTS then (s, c.(pc := Failed(Busy)))
      else if !s.created then (s, c.(pc := Failed(Missing)))
      else
        (s, c.(pc := if jobFirst then HasJob(s.version, s.terminal) else HasLog(c.fact in s.log),
               started := if c.attempt == 0 then s.version else c.started))
    case HasJob(version, terminal) => (s, c.(pc := Deciding(version, terminal, c.fact in s.log)))
    case HasLog(seen) => (s, c.(pc := Deciding(s.version, s.terminal, seen)))
    case Deciding(version, terminal, seen) =>
      if seen then (s, c.(pc := Logged))
      else if terminal then (s, c.(pc := Failed(Ended)))
      else
        var (s', result) := AppendTo(s, version, c.fact, accepted);
        (s', match result
             case Updated => c.(pc := Logged)
             case VersionConflict => c.(attempt := c.attempt + 1, pc := Reading)
             case InvalidTransition => c.(pc := Failed(Ended))
             case InvalidRequest => c.(pc := Failed(Rejected)))
    case Logged => (s, c)
    case Failed(_) => (s, c)
  }

  /** A step of a caller; an append of somebody else, who holds the version `expected` and
      does not look at the log; or a change of the job, which may log facts of other kinds
      and may end it. */
  datatype Event =
    | Advance(caller: nat, accepted: bool)
    | Append(expected: nat, fact: Fact)
    | Change(kinds: seq<string>, ends: bool)

  function Others(kinds: seq<string>): (facts: seq<Fact>)
    ensures |facts| == |kinds|
  {
    seq(|kinds|, i requires 0 <= i < |kinds| => Other(kinds[i]))
  }

  function Step(s: State, e: Event, jobFirst: bool): State {
    match e
    case Advance(i, accepted) =>
      if i !in s.callers then s
      else var (store, c) := Call(s.store, s.callers[i], accepted, jobFirst); State(store, s.callers[i := c])
    case Append(expected, fact) => s.(store := AppendTo(s.store, expected, fact, true).0)
    case Change(kinds, ends) =>
      if !s.store.created then s
      else
        s.(store := s.store.(
          version := s.store.version + 1,
          terminal := s.store.terminal || ends,
          log := s.store.log + Others(kinds)))
  }

  function Exec(s: State, events: seq<Event>, jobFirst: bool): State
    decreases |events|
  {
    if events == [] then s else Exec(Step(s, events[0], jobFirst), events[1..], jobFirst)
  }

  ghost predicate Init(s: State) {
    && (forall f | f in s.store.log :: f.Other?)
    && forall i | i in s.callers ::
         s.callers[i].fact.Applied? && s.callers[i].attempt == 0 && s.callers[i].pc == Reading
             && s.callers[i].started == s.store.version
  }

  // ----- counting

  function Count(log: seq<Fact>, f: Fact): nat {
    if log == [] then 0 else Count(log[..|log| - 1], f) + if log[|log| - 1] == f then 1 else 0
  }

  lemma CountAppend(log: seq<Fact>, g: Fact, f: Fact)
    ensures Count(log + [g], f) == Count(log, f) + if g == f then 1 else 0
  {
    assert (log + [g])[..|log|] == log;
  }

  lemma {:induction false} CountZero(log: seq<Fact>, f: Fact)
    ensures Count(log, f) == 0 <==> f !in log
  {
    if log != [] {
      CountZero(log[..|log| - 1], f);
      assert log == log[..|log| - 1] + [log[|log| - 1]];
    }
  }

  lemma {:induction false} CountOthers(log: seq<Fact>, kinds: seq<string>, f: Fact)
    requires f.Applied?
    ensures Count(log + Others(kinds), f) == Count(log, f)
  {
    if kinds == [] {
      assert log + Others(kinds) == log;
    } else {
      hide Count, Others;
      var n := |kinds| - 1;
      CountOthers(log, kinds[..n], f);
      CountAppend(log + Others(kinds[..n]), Other(kinds[n]), f);
      OneMoreOther(log, kinds);
    }
  }

  lemma OneMoreOther(log: seq<Fact>, kinds: seq<string>)
    requires kinds != []
    ensures var n := |kinds| - 1;
            log + Others(kinds) == log + Others(kinds[..n]) + [Other(kinds[n])]
  {
    var n := |kinds| - 1;
    assert Others(kinds) == Others(kinds[..n]) + [Other(kinds[n])];
  }

  lemma {:induction false} CountGrows(log: seq<Fact>, more: seq<Fact>, f: Fact)
    requires log <= more
    ensures Count(log, f) <= Count(more, f)
    decreases |more|
  {
    if log != more {
      var n := |more| - 1;
      CountGrows(log, more[..n], f);
    }
  }

  // ----- what every caller may rely on

  /** A caller that read the job first knows the log as long as the version it saw is
      current: its fact was absent then and still is. */
  ghost predicate CallerOk(s: Store, c: Caller) {
    && c.fact.Applied? && c.started <= s.version && c.attempt <= MAX_ATTEMPTS
    && !c.pc.HasLog?
    && (c.pc.HasJob? ==> c.pc.version <= s.version && (c.pc.version == s.version ==> c.pc.terminal == s.terminal))
    && (c.pc.Deciding? ==>
          && c.pc.version <= s.version
          && (c.pc.seen ==> c.fact in s.log)
          && (!c.pc.seen && c.pc.version == s.version ==> c.fact !in s.log && c.pc.terminal == s.terminal))
    && (c.pc.Logged? ==> c.fact in s.log)
    && (c.pc.HasJob? || c.pc.Deciding? ==>
          && s.created && c.attempt < MAX_ATTEMPTS && c.pc.version >= c.started + c.attempt
              && (c.pc.terminal ==> s.terminal))
    && (c.pc.Reading? ==> s.version >= c.started + c.attempt)
    && (c.pc.Failed? ==> FailureOk(s, c))
  }

  ghost predicate FailureOk(s: Store, c: Caller)
    requires c.pc.Failed?
  {
    match c.pc.why
    case Missing => !s.created
    case Ended => s.terminal
    case Busy => s.version >= c.started + MAX_ATTEMPTS
    case Rejected => true
  }

  ghost predicate CallersOk(s: State) {
    forall i | i in s.callers :: CallerOk(s.store, s.callers[i])
  }

  lemma InitOk(s: State)
    requires Init(s)
    ensures CallersOk(s) && Unique(s.store.log)
  {
    forall f: Fact | f.Applied? ensures Count(s.store.log, f) <= 1 { CountZero(s.store.log, f); }
  }

  /** The store only moves forward: what is logged stays logged, and any change is a new version. */
  ghost predicate Forward(s: Store, s': Store) {
    && s.created == s'.created && s.version <= s'.version && s.log <= s'.log && (s.terminal ==> s'.terminal)
    && (s.version == s'.version ==> s' == s)
  }

  lemma CallerStable(s: Store, s': Store, c: Caller)
    requires CallerOk(s, c) && Forward(s, s')
    ensures CallerOk(s', c)
  {
    assert c.fact in s.log ==> c.fact in s'.log;
  }

  lemma CallOk(s: Store, c: Caller, accepted: bool)
    requires CallerOk(s, c)
    ensures var (s', c') := Call(s, c, accepted, true);
            Forward(s, s') && CallerOk(s', c')
  {
  }

  /** Every store call of any caller, every other append and every change of the job moves
      the log forward and leaves every caller right about it. */
  lemma StepOk(s: State, e: Event)
    requires CallersOk(s)
    ensures CallersOk(Step(s, e, true)) && Forward(s.store, Step(s, e, true).store)
  {
    var s' := Step(s, e, true);
    assert Forward(s.store, s'.store) by {
      if e.Advance? && e.caller in s.callers { CallOk(s.store, s.callers[e.caller], e.accepted); }
    }
    forall j | j in s'.callers ensures CallerOk(s'.store, s'.callers[j]) {
      hide CallerOk, Forward;
      if e.Advance? && j == e.caller {
        CallOk(s.store, s.callers[j], e.accepted);
      } else {
        CallerStable(s.store, s'.store, s.callers[j]);
      }
    }
  }

  lemma {:induction false} ExecOk(s: State, events: seq<Event>)
    requires CallersOk(s)
    ensures CallersOk(Exec(s, events, true)) && Forward(s.store, Exec(s, events, true).store)
    decreases |events|
  {
    hide CallersOk, Step;
    if events != [] {
      StepOk(s, events[0]);
      ExecOk(Step(s, events[0], true), events[1..]);
    }
  }

  // ----- each applied fact is logged at most once

  ghost predicate Unique(log: seq<Fact>) {
    forall f: Fact | f.Applied? :: Count(log, f) <= 1
  }

  /** An append of somebody else that succeeds finds no such fact in the log. */
  predicate Careful(s: State, e: Event) {
    e.Append? && e.fact.Applied? && AppendTo(s.store, e.expected, e.fact, true).1.Updated? ==> e.fact !in s.store.log
  }

  lemma UniqueAppend(log: seq<Fact>, f: Fact)
    requires Unique(log)
    ensures Unique(log + [f]) <==> (f.Applied? ==> f !in log)
  {
    forall g: Fact ensures Count(log + [f], g) == Count(log, g) + if f == g then 1 else 0 { CountAppend(log, f, g); }
    CountZero(log, f);
  }

  lemma UniqueOthers(log: seq<Fact>, kinds: seq<string>)
    requires Unique(log)
    ensures Unique(log + Others(kinds))
  {
    forall f: Fact | f.Applied? ensures Count(log + Others(kinds), f) <= 1 { CountOthers(log, kinds, f); }
  }

  /** A step keeps each applied fact unique exactly when it is careful: the callers always
      are, and so is every change of the job. */
  lemma StepUnique(s: State, e: Event)
    requires CallersOk(s) && Unique(s.store.log)
    ensures Unique(Step(s, e, true).store.log) <==> Careful(s, e)
  {
    hide Unique;
    match e
    case Advance(i, accepted) =>
      if i in s.callers {
        assert CallerOk(s.store, s.callers[i]);
        UniqueAppend(s.store.log, s.callers[i].fact);
      }
    case Append(expected, fact) => UniqueAppend(s.store.log, fact);
    case Change(kinds, ends) => UniqueOthers(s.store.log, kinds);
  }

  predicate AlwaysCareful(s: State, events: seq<Event>)
    decreases |events|
  {
    events != [] ==> Careful(s, events[0]) && AlwaysCareful(Step(s, events[0], true), events[1..])
  }

  /** Over every run the log holds each applied fact at most once if and only if each
      append that did not look was of a fact that was not there. */
  lemma {:induction false} AtMostOnceExactly(s: State, events: seq<Event>)
    requires CallersOk(s) && Unique(s.store.log)
    ensures Unique(Exec(s, events, true).store.log) <==> AlwaysCareful(s, events)
    decreases |events|
  {
    hide CallersOk, Unique, Step, Careful, Forward;
    if events != [] {
      var t := Step(s, events[0], true);
      StepOk(s, events[0]);
      StepUnique(s, events[0]);
      if Careful(s, events[0]) {
        AtMostOnceExactly(t, events[1..]);
      } else {
        ExecOk(t, events[1..]);
        TwiceForGood(t.store, Exec(t, events[1..], true).store);
      }
    }
  }

  lemma TwiceForGood(s: Store, s': Store)
    requires Forward(s, s') && !Unique(s.log)
    ensures !Unique(s'.log)
  {
    var f: Fact :| f.Applied? && Count(s.log, f) > 1;
    CountGrows(s.log, s'.log, f);
  }

  /** In particular, callers alone never log a fact twice, however many run at once. */
  lemma CallersAloneAreSafe(s: State, events: seq<Event>)
    requires Init(s) && forall i | 0 <= i < |events| :: !events[i].Append?
    ensures Unique(Exec(s, events, true).store.log)
  {
    InitOk(s);
    NoAppends(s, events);
    AtMostOnceExactly(s, events);
  }

  lemma {:induction false} NoAppends(s: State, events: seq<Event>)
    requires forall i | 0 <= i < |events| :: !events[i].Append?
    ensures AlwaysCareful(s, events)
    decreases |events|
  {
    if events != [] { NoAppends(Step(s, events[0], true), events[1..]); }
  }

  /** A call that returned true left its fact in the log for good; exactly once, if no
      other append ever repeats a fact. */
  lemma TrueMeansLogged(s: State, i: nat, events: seq<Event>)
    requires CallersOk(s) && i in s.callers && s.callers[i].pc.Logged?
    ensures Count(Exec(s, events, true).store.log, s.callers[i].fact) >= 1
    ensures Unique(s.store.log) && AlwaysCareful(s, events)
        ==> Count(Exec(s, events, true).store.log, s.callers[i].fact) == 1
  {
    var s' := Exec(s, events, true);
    assert CallerOk(s.store, s.callers[i]);
    ExecOk(s, events);
    CountZero(s'.store.log, s.callers[i].fact);
    assert s.callers[i].fact in s'.store.log;
    if Unique(s.store.log) { AtMostOnceExactly(s, events); }
  }

  /** A call returns false only because the job does not exist, because it has ended,
      because others changed it at least four times since the first store call of this call,
      or because the store
      rejected the fact or the time as malformed. */
  lemma FalseMeans(s: State, i: nat)
    requires CallersOk(s) && i in s.callers && s.callers[i].pc.Failed?
    ensures match s.callers[i].pc.why
            case Missing => !s.store.created
            case Ended => s.store.terminal
            case Busy => s.store.version >= s.callers[i].started + MAX_ATTEMPTS
            case Rejected => true
  {
    assert CallerOk(s.store, s.callers[i]);
  }

  predicate HasEnded(c: Caller) {
    c.pc.Logged? || c.pc.Failed?
  }

  /** Store calls left to a call of `ensureAppliedCheckpoint`. */
  function CallsLeft(c: Caller): nat {
    if HasEnded(c) then 0
    else
      (if c.attempt < MAX_ATTEMPTS then 3 * (MAX_ATTEMPTS - c.attempt) else 0) +
      (if c.pc.Reading? then 3 else if c.pc.Deciding? then 1 else 2)
  }

  /** No call waits for another one: each of its store calls brings it closer to its end,
      which it reaches after fifteen of them at most. */
  lemma EveryCallEnds(s: Store, c: Caller, accepted: bool, jobFirst: bool)
    requires !HasEnded(c) && (c.attempt < MAX_ATTEMPTS || c.pc.Reading?)
    ensures CallsLeft(Call(s, c, accepted, jobFirst).1) < CallsLeft(c) <= 15
  {
  }

  // ----- when a call succeeds

  /** How often it is the turn of a caller. */
  function Turns(i: nat, events: seq<Event>): nat {
    if events == [] then 0 else (if IsTurn(i, events[0]) then 1 else 0) + Turns(i, events[1..])
  }

  predicate IsTurn(i: nat, e: Event) {
    e.Advance? && e.caller == i
  }

  /** The store finds the fact and the time of this caller well formed whenever it looks. */
  predicate AlwaysAccepted(i: nat, events: seq<Event>) {
    forall k | 0 <= k < |events| && IsTurn(i, events[k]) :: events[k].accepted
  }

  /** A call whose fact and time are well formed is never rejected: a version conflict is
      tried again, and any other end has a cause in the job. */
  lemma {:induction false} WellFormedIsNotRejected(s: State, i: nat, events: seq<Event>)
    requires CallersOk(s) && i in s.callers && s.callers[i].pc != Failed(Rejected) && AlwaysAccepted(i, events)
    ensures i in Exec(s, events, true).callers && Exec(s, events, true).callers[i].pc != Failed(Rejected)
    decreases |events|
  {
    if events != [] {
      var e := events[0];
      StepOk(s, e);
      if IsTurn(i, e) {
        assert e.accepted;
        NotRejected(s.store, s.callers[i]);
      }
      hide CallersOk, Call;
      WellFormedIsNotRejected(Step(s, e, true), i, events[1..]);
    }
  }

  lemma NotRejected(s: Store, c: Caller)
    requires CallerOk(s, c) && c.pc != Failed(Rejected)
    ensures Call(s, c, true, true).1.pc != Failed(Rejected)
  {
  }

  lemma {:induction false} TurnsEndTheCall(s: State, i: nat, events: seq<Event>)
    requires CallersOk(s) && i in s.callers && Turns(i, events) >= CallsLeft(s.callers[i])
    ensures i in Exec(s, events, true).callers && HasEnded(Exec(s, events, true).callers[i])
    decreases |events|
  {
    var c := s.callers[i];
    if events != [] {
      var e := events[0];
      StepOk(s, e);
      assert CallerOk(s.store, c);
      if IsTurn(i, e) { CallProgress(s.store, c, e.accepted); }
      hide CallersOk, Call, CallsLeft, CallerOk;
      TurnsEndTheCall(Step(s, e, true), i, events[1..]);
    }
  }

  lemma CallProgress(s: Store, c: Caller, accepted: bool)
    requires CallerOk(s, c)
    ensures var left := CallsLeft(Call(s, c, accepted, true).1); left < CallsLeft(c) || left == 0 == CallsLeft(c)
  {
    if !HasEnded(c) { EveryCallEnds(s, c, accepted, true); }
  }

  /** The first version that a call sees is no older than its beginning, and the call keeps
      its fact. */
  predicate Since(c: Caller, version: nat, f: Fact) {
    c.fact == f && (c.started >= version || (c.attempt == 0 && c.pc.Reading?))
  }

  lemma {:induction false} SinceBeginning(s: State, i: nat, events: seq<Event>, version: nat, f: Fact)
    requires CallersOk(s) && i in s.callers && Since(s.callers[i], version, f)
    requires s.store.version >= version && s.store.created
    ensures i in Exec(s, events, true).callers && Since(Exec(s, events, true).callers[i], version, f)
    decreases |events|
  {
    if events != [] {
      StepOk(s, events[0]);
      SinceStep(s, events[0], i, version, f);
      hide CallersOk, Step, Since;
      SinceBeginning(Step(s, events[0], true), i, events[1..], version, f);
    }
  }

  lemma SinceStep(s: State, e: Event, i: nat, version: nat, f: Fact)
    requires CallersOk(s) && i in s.callers && Since(s.callers[i], version, f)
    requires s.store.version >= version && s.store.created
    ensures i in Step(s, e, true).callers && Since(Step(s, e, true).callers[i], version, f)
  {
    assert CallerOk(s.store, s.callers[i]);
  }

  /** A call that begins on a job that is there, and is given its fifteen store calls, logs
      its fact, unless the job has ended or was changed at least four times meanwhile: losing
      to others up to three times never fails a call. */
  lemma CallSucceeds(s: State, i: nat, events: seq<Event>)
    requires CallersOk(s) && s.store.created && i in s.callers
    requires s.callers[i].pc == Reading && s.callers[i].attempt == 0
    requires AlwaysAccepted(i, events) && Turns(i, events) >= 15
    requires !Exec(s, events, true).store.terminal && Exec(s, events, true).store.version < s.store.version + 4
    ensures var t := Exec(s, events, true);
            && i in t.callers && t.callers[i].fact == s.callers[i].fact && t.callers[i].pc == Logged
            && s.callers[i].fact in t.store.log
  {
    var t := Exec(s, events, true);
    ExecOk(s, events);
    TurnsEndTheCall(s, i, events);
    WellFormedIsNotRejected(s, i, events);
    SinceBeginning(s, i, events, s.store.version, s.callers[i].fact);
    if t.callers[i].pc.Failed? { FalseMeans(t, i); }
    assert CallerOk(t.store, t.callers[i]);
  }

  /** What the compare-and-set append answers and leaves. */
  lemma AppendExactly(s: Store, expected: nat, f: Fact, accepted: bool)
    ensures var (s', result) := AppendTo(s, expected, f, accepted);
            && (result == Updated <==> accepted && s.created && s.version == expected && !s.terminal)
            && (result == InvalidRequest <==> !accepted || !s.created)
            && (result == VersionConflict <==> accepted && s.created && s.version != expected)
            && (if result == Updated then
                  && s'.log == s.log + [f] && s'.version == s.version + 1
                  && s'.created == s.created && s'.terminal == s.terminal
                else s' == s)
  {
    assert s == Store(s.created, s.version, s.terminal, s.log);
  }

  // ----- both conditions are needed

  /** Two callers of one fact, when the log is read before the job: the first reads the
      log, the second runs to its end, and the first goes on with the new version. */
  function Race(f: Fact, v: nat, step: nat): State {
    var c := Caller(f, 0, Reading, v);
    var read := c.(pc := HasLog(false));
    match step
    case 0 => State(Store(true, v, false, []), map[1 := c, 2 := c])
    case 1 => State(Store(true, v, false, []), map[1 := read, 2 := c])
    case 2 => State(Store(true, v, false, []), map[1 := read, 2 := read])
    case 3 => State(Store(true, v, false, []), map[1 := read, 2 := c.(pc := Deciding(v, false, false))])
    case 4 => State(Store(true, v + 1, false, [f]), map[1 := read, 2 := c.(pc := Logged)])
    case 5 => State(Store(true, v + 1, false, [f]),
        map[1 := c.(pc := Deciding(v + 1, false, false)), 2 := c.(pc := Logged)])
    case _ => State(Store(true, v + 2, false, [f, f]), map[1 := c.(pc := Logged), 2 := c.(pc := Logged)])
  }

  const RACE :=
    [Advance(1, true), Advance(2, true), Advance(2, true), Advance(2, true), Advance(1, true), Advance(1, true)]

  lemma RaceStep(f: Fact, v: nat, step: nat)
    requires step < 6
    ensures Step(Race(f, v, step), RACE[step], false) == Race(f, v, step + 1)
  {
  }

  lemma {:induction false} RaceRuns(f: Fact, v: nat, step: nat)
    requires step <= 6
    ensures Exec(Race(f, v, step), RACE[step..], false) == Race(f, v, 6)
    decreases 6 - step
  {
    if step < 6 {
      RaceStep(f, v, step);
      RaceRuns(f, v, step + 1);
      assert RACE[step..][1..] == RACE[step + 1..];
    }
  }

  /** Reading the job before the log is needed: otherwise one fact can be logged twice. */
  lemma LogFirstLogsTwice(f: Fact, v: nat)
    requires f.Applied?
    ensures Init(Race(f, v, 0)) && Exec(Race(f, v, 0), RACE, false).store.log == [f, f] && Count([f, f], f) == 2
  {
    RaceRuns(f, v, 0);
    assert RACE[0..] == RACE;
    CountAppend([], f, f);
    CountAppend([f], f, f);
    assert [] + [f] == [f] && [f] + [f] == [f, f];
  }

  /** One caller runs to its end, and then the segment runner appends the same fact at the
      version it holds. */
  function Repeat(f: Fact, v: nat, step: nat): State {
    var c := Caller(f, 0, Reading, v);
    match step
    case 0 => State(Store(true, v, false, []), map[1 := c])
    case 1 => State(Store(true, v, false, []), map[1 := c.(pc := HasJob(v, false))])
    case 2 => State(Store(true, v, false, []), map[1 := c.(pc := Deciding(v, false, false))])
    case 3 => State(Store(true, v + 1, false, [f]), map[1 := c.(pc := Logged)])
    case _ => State(Store(true, v + 2, false, [f, f]), map[1 := c.(pc := Logged)])
  }

  function RepeatEvents(f: Fact, v: nat): seq<Event> {
    [Advance(1, true), Advance(1, true), Advance(1, true), Append(v + 1, f)]
  }

  lemma RepeatStep(f: Fact, v: nat, step: nat)
    requires step < 4
    ensures Step(Repeat(f, v, step), RepeatEvents(f, v)[step], true) == Repeat(f, v, step + 1)
  {
  }

  lemma {:induction false} RepeatRuns(f: Fact, v: nat, step: nat)
    requires step <= 4
    ensures Exec(Repeat(f, v, step), RepeatEvents(f, v)[step..], true) == Repeat(f, v, 4)
    decreases 4 - step
  {
    if step < 4 {
      RepeatStep(f, v, step);
      RepeatRuns(f, v, step + 1);
      assert RepeatEvents(f, v)[step..][1..] == RepeatEvents(f, v)[step + 1..];
    }
  }

  /** Looking at the log is needed: a blind append after one call logs the fact twice. */
  lemma BlindAppendLogsTwice(f: Fact, v: nat)
    requires f.Applied?
    ensures Init(Repeat(f, v, 0)) && Exec(Repeat(f, v, 0), RepeatEvents(f, v), true).store.log == [f, f]
    ensures !AlwaysCareful(Repeat(f, v, 0), RepeatEvents(f, v))
  {
    RepeatRuns(f, v, 0);
    assert RepeatEvents(f, v)[0..] == RepeatEvents(f, v);
    CountAppend([], f, f);
    CountAppend([f], f, f);
    assert [] + [f] == [f] && [f] + [f] == [f, f];
    InitOk(Repeat(f, v, 0));
    AtMostOnceExactly(Repeat(f, v, 0), RepeatEvents(f, v));
  }
}
