/** The account lease, and the author sessions it gates. Opening a session takes a
    snapshot of the lease and then awaits the transport; a turn and the closing of a
    session look at the lease and then await it. Each is cut at its await, and the lease
    may change in between. */
module CodexLease {
  import opened Wrappers

  datatype Lease = Lease(generation: nat, accountKey: Option<string>)

  class CodexAccountLease {
    var generation: nat
    var accountKey: Option<string>

    constructor ()
      ensures Snapshot() == Lease(0, None)
    {
      generation, accountKey := 0, None;
    }

    function Snapshot(): Lease
      reads this
    {
      Lease(generation, accountKey)
    }

    method Activate(key: string) returns (view: Lease)
      modifies this
      ensures view == Snapshot() == Lease(old(generation) + 1, Some(key))
    {
      generation := generation + 1;
      accountKey := Some(key);
      view := Snapshot();
    }

    method Invalidate() returns (view: Lease)
      modifies this
      ensures view == Snapshot() == Lease(old(generation) + 1, None)
    {
      generation := generation + 1;
      accountKey := None;
      view := Snapshot();
    }
  }

  /** A session remembers the lease it was opened under; a backend without a lease
      reader remembers none. */
  datatype Session = Session(seen: Option<Lease>)

  /** What the transport makes of a turn. */
  datatype Reply = TransportError | BadOutput | ForbiddenActivity | Output(text: string)

  datatype TurnResult = TurnOk(text: string) | TurnFailed | InvalidResponse

  /** runTurn from the reply of the transport on: the lease is not looked at again. */
  function AnswerTo(reply: Reply): TurnResult {
    match reply
    case TransportError => TurnFailed
    case BadOutput => InvalidResponse
    case ForbiddenActivity => InvalidResponse
    case Output(text) => TurnOk(text)
  }

  /** `gated` says whether the backend was given a lease reader at all. The openings,
      turns and closings that await the transport are kept with what they hold; `answers`
      are the results of the turns that were answered. */
  datatype State = State(
    gated: bool,
    lease: Lease,
    sessions: map<nat, Session>,
    ordinal: nat,
    openings: map<nat, Option<Lease>>,
    turns: map<nat, nat>,
    closings: map<nat, nat>,
    answers: map<nat, TurnResult>)

  datatype Event =
    | Activate(key: string)
    | Invalidate
    | BeginOpen(call: nat)
    | FinishOpen(call: nat, started: bool)
    | BeginTurn(turn: nat, session: nat)
    | FinishTurn(turn: nat, reply: Reply)
    | BeginClose(call: nat, session: nat)
    | FinishClose(call: nat, released: bool)

  predicate ChangesLease(e: Event) {
    e.Activate? || e.Invalidate?
  }

  function Step(s: State, e: Event): State {
    match e
    case Activate(key) => s.(lease := Lease(s.lease.generation + 1, Some(key)))
    case Invalidate => s.(lease := Lease(s.lease.generation + 1, None))
    case BeginOpen(call) =>
      if call in s.openings || (s.gated && s.lease.accountKey.None?) then s
      else s.(openings := s.openings[call := if s.gated then Some(s.lease) else None])
    case FinishOpen(call, started) =>
      if call !in s.openings then s
      else
        var p := s.(openings := s.openings - {call});
        if !started then p
        else p.(ordinal := s.ordinal + 1, sessions := s.sessions[s.ordinal + 1 := Session(s.openings[call])])
    case BeginTurn(turn, r) =>
      if turn in s.turns || turn in s.answers || !Usable(s, r) then s else s.(turns := s.turns[turn := r])
    case FinishTurn(turn, reply) =>
      if turn !in s.turns then s
      else s.(turns := s.turns - {turn}, answers := s.answers[turn := AnswerTo(reply)])
    case BeginClose(call, r) =>
      if call in s.closings || !Usable(s, r) then s else s.(closings := s.closings[call := r])
    case FinishClose(call, released) =>
      if call !in s.closings then s
      else
        var p := s.(closings := s.closings - {call});
        if released then p.(sessions := s.sessions - {s.closings[call]}) else p
  }

  function Exec(s: State, events: seq<Event>): State
    decreases |events|
  {
    if events == [] then s else Exec(Step(s, events[0]), events[1..])
  }

  /** #ownedSession, for a handle of this backend. */
  predicate Usable(s: State, r: nat) {
    r in s.sessions &&
    (s.sessions[r].seen.Some? ==>
       s.lease.accountKey.Some? && s.lease.generation == s.sessions[r].seen.value.generation
       && s.lease.accountKey == s.sessions[r].seen.value.accountKey)
  }

  /** A snapshot is one of a past or present lease, and was authenticated. */
  predicate SnapshotOk(lease: Lease, seen: Lease) {
    seen.accountKey.Some? && seen.generation <= lease.generation
        && (seen.generation == lease.generation ==> seen == lease)
  }

  ghost predicate Inv(s: State) {
    && (forall r | r in s.sessions :: r <= s.ordinal) && (forall c | c in s.closings :: s.closings[c] <= s.ordinal)
    && (forall r | r in s.sessions && s.sessions[r].seen.Some? :: SnapshotOk(s.lease, s.sessions[r].seen.value))
    && (forall c | c in s.openings && s.openings[c].Some? :: SnapshotOk(s.lease, s.openings[c].value))
    && (s.gated ==> forall r | r in s.sessions :: s.sessions[r].seen.Some?)
    && (s.gated ==> forall c | c in s.openings :: s.openings[c].Some?)
  }

  lemma StepInv(s: State, e: Event)
    requires Inv(s)
    ensures Inv(Step(s, e)) && Step(s, e).lease.generation >= s.lease.generation
  {
    hide Step, Inv;
    if ChangesLease(e) {
      ChangeInv(s, e);
    } else if e.BeginOpen? || e.FinishOpen? {
      OpenInv(s, e);
    } else if e.BeginTurn? || e.FinishTurn? {
      TurnInv(s, e);
    } else {
      CloseInv(s, e);
    }
  }

  lemma TurnInv(s: State, e: Event)
    requires Inv(s) && (e.BeginTurn? || e.FinishTurn?)
    ensures Inv(Step(s, e)) && Step(s, e).lease == s.lease
  {
    hide SnapshotOk, Usable;
  }

  lemma CloseInv(s: State, e: Event)
    requires Inv(s) && (e.BeginClose? || e.FinishClose?)
    ensures Inv(Step(s, e)) && Step(s, e).lease == s.lease
  {
    hide SnapshotOk;
    if e.BeginClose? {
      assert Usable(s, e.session) ==> e.session in s.sessions;
    }
    hide Usable;
  }

  lemma ChangeInv(s: State, e: Event)
    requires Inv(s) && ChangesLease(e)
    ensures Inv(Step(s, e)) && Step(s, e).lease.generation == s.lease.generation + 1
  {
  }

  lemma OpenInv(s: State, e: Event)
    requires Inv(s) && (e.BeginOpen? || e.FinishOpen?)
    ensures Inv(Step(s, e)) && Step(s, e).lease == s.lease
  {
    if e.BeginOpen? && s.lease.accountKey.Some? { assert SnapshotOk(s.lease, s.lease); }
    hide SnapshotOk;
  }

  lemma {:induction false} ExecInv(s: State, events: seq<Event>)
    requires Inv(s)
    ensures Inv(Exec(s, events)) && Exec(s, events).lease.generation >= s.lease.generation
    decreases |events|
  {
    hide Step, Inv;
    if events != [] {
      StepInv(s, events[0]);
      ExecInv(Step(s, events[0]), events[1..]);
    }
  }

  /** A session opened under a lease is usable exactly while that generation is current:
      the two other comparisons the code makes follow from it. */
  lemma UsableMeansCurrent(s: State, r: nat)
    requires Inv(s) && s.gated && r in s.sessions
    ensures s.sessions[r].seen.Some?
    ensures Usable(s, r) <==> s.sessions[r].seen.value.generation == s.lease.generation
  {
  }

  /** After any activation or invalidation, no session whose snapshot was taken before it
      is ever usable again: not when it was still being opened at that moment, and not
      when the same account comes back. */
  lemma ChangedLeaseEndsSessions(s: State, change: Event, events: seq<Event>, r: nat)
    requires Inv(s) && ChangesLease(change)
    requires var s' := Exec(Step(s, change), events);
             r in s'.sessions && s'.sessions[r].seen.Some? && s'.sessions[r].seen.value.generation <= s.lease.generation
    ensures !Usable(Exec(Step(s, change), events), r)
  {
    ExecInv(s, [change]);
    assert [change][1..] == [];
    ExecInv(Step(s, change), events);
  }

  /** An opening that began before a change of the lease ends in a session that is dead on arrival. */
  lemma LateOpeningIsDead(s: State, call: nat, change: Event, events: seq<Event>)
    requires Inv(s) && s.gated && call in s.openings && ChangesLease(change)
    requires call in Exec(Step(s, change), events).openings
    requires Exec(Step(s, change), events).openings[call] == s.openings[call]
    ensures var s' := Step(Exec(Step(s, change), events), FinishOpen(call, true));
            s'.ordinal in s'.sessions && !Usable(s', s'.ordinal)
  {
    assert Inv(Step(s, change));
    ExecInv(Step(s, change), events);
  }

  predicate Changed(events: seq<Event>) {
    exists i | 0 <= i < |events| :: ChangesLease(events[i])
  }

  /** An activation and an invalidation begin a new generation, with the key of the account
      and with none; nothing else touches the lease. */
  lemma LeaseStep(s: State, e: Event)
    ensures var t := Step(s, e);
            && t.gated == s.gated
            && (if ChangesLease(e) then t.lease.generation == s.lease.generation + 1 else t.lease == s.lease)
            && (e.Activate? ==> t.lease.accountKey == Some(e.key)) && (e.Invalidate? ==> t.lease.accountKey == None)
  {
    hide Usable;
  }

  lemma {:induction false} OpeningWaits(s: State, call: nat, events: seq<Event>)
    requires Inv(s) && call in s.openings
    requires forall i | 0 <= i < |events| && events[i].FinishOpen? :: events[i].call != call
    ensures var t := Exec(s, events);
            && call in t.openings && t.openings[call] == s.openings[call]
            && (if Changed(events) then t.lease.generation > s.lease.generation else t.lease == s.lease)
    decreases |events|
  {
    hide Inv, ChangesLease;
    if events != [] {
      var e, rest := events[0], events[1..];
      assert forall i | 0 <= i < |rest| :: rest[i] == events[i + 1];
      StepInv(s, e);
      LeaseStep(s, e);
      OpeningStep(s, e, call);
      hide Step;
      OpeningWaits(Step(s, e), call, rest);
      ChangedAtOnceOrLater(events);
      if Changed(rest) { ExecInv(Step(s, e), rest); }
    }
  }

  lemma OpeningStep(s: State, e: Event, call: nat)
    requires call in s.openings && (e.FinishOpen? ==> e.call != call)
    ensures call in Step(s, e).openings && Step(s, e).openings[call] == s.openings[call]
  {
    hide Usable;
    if !e.BeginOpen? && !e.FinishOpen? { assert Step(s, e).openings == s.openings; }
  }

  lemma ChangedAtOnceOrLater(events: seq<Event>)
    requires events != []
    ensures Changed(events) <==> ChangesLease(events[0]) || Changed(events[1..])
  {
    hide ChangesLease;
    var rest := events[1..];
    assert forall i | 0 <= i < |rest| :: rest[i] == events[i + 1];
    if Changed(rest) {
      var i :| 0 <= i < |rest| && ChangesLease(rest[i]);
      assert ChangesLease(events[i + 1]);
    }
  }

  /** An opening that began under an authenticated lease ends in a new session that remembers
      that lease; it is usable exactly when the lease was not changed in between. */
  lemma OpeningSucceedsExactly(s: State, call: nat, events: seq<Event>)
    requires Inv(s) && s.gated && s.lease.accountKey.Some? && call !in s.openings
    requires forall i | 0 <= i < |events| && events[i].FinishOpen? :: events[i].call != call
    ensures var t := Exec(Step(s, BeginOpen(call)), events);
            var u := Step(t, FinishOpen(call, true));
            && u.ordinal == t.ordinal + 1 && u.ordinal !in t.sessions && u.ordinal in u.sessions
            && u.sessions[u.ordinal] == Session(Some(s.lease)) && call !in u.openings
            && (forall r | r in t.sessions :: r in u.sessions && u.sessions[r] == t.sessions[r])
            && (Usable(u, u.ordinal) <==> !Changed(events))
  {
    var b := Step(s, BeginOpen(call));
    StepInv(s, BeginOpen(call));
    OpeningWaits(b, call, events);
    ExecInv(b, events);
    assert b.openings[call] == Some(s.lease) && b.lease == s.lease;
    hide Changed, Exec;
  }

  /** Without an account nothing is opened; without a lease reader every session is usable. */
  lemma WithoutAccountOrLease(s: State, call: nat, r: nat)
    ensures s.gated && s.lease.accountKey.None? ==> Step(s, BeginOpen(call)) == s
    ensures !s.gated && call !in s.openings ==> Step(s, BeginOpen(call)) == s.(openings := s.openings[call := None])
    ensures r in s.sessions && s.sessions[r].seen.None? ==> Usable(s, r)
  {
  }

  // ----- turns that the lease leaves behind

  predicate Answers(events: seq<Event>, turn: nat) {
    exists i | 0 <= i < |events| :: events[i].FinishTurn? && events[i].turn == turn
  }

  /** A turn in flight, of a session that had been issued when it began. */
  predicate Awaiting(s: State, turn: nat, r: nat) {
    turn in s.turns && s.turns[turn] == r && turn !in s.answers
  }

  /** What a step leaves of a session that was issued. */
  lemma IssuedStep(s: State, e: Event, r: nat)
    requires r <= s.ordinal
    ensures var t := Step(s, e);
            r <= t.ordinal && (r in t.sessions ==> r in s.sessions && t.sessions[r] == s.sessions[r])
  {
    hide Usable;
  }

  /** A session that still stands is usable exactly when it was before and the step does
      not change the lease; one that is gone does not come back. */
  lemma UsableStep(s: State, e: Event, r: nat)
    requires Inv(s) && s.gated && r <= s.ordinal
    ensures Step(s, e).gated && r <= Step(s, e).ordinal
    ensures r !in s.sessions ==> r !in Step(s, e).sessions
    ensures r in Step(s, e).sessions ==> (Usable(Step(s, e), r) <==> Usable(s, r) && !ChangesLease(e))
  {
    IssuedStep(s, e, r);
    LeaseStep(s, e);
    hide Step;
    if r in s.sessions { assert SnapshotOk(s.lease, s.sessions[r].seen.value); }
  }

  lemma AwaitingStep(s: State, e: Event, turn: nat, r: nat)
    requires Awaiting(s, turn, r) && !(e.FinishTurn? && e.turn == turn)
    ensures Awaiting(Step(s, e), turn, r)
  {
  }

  lemma {:induction false} OvertakenTurn(s: State, turn: nat, r: nat, events: seq<Event>)
    requires Inv(s) && s.gated && r <= s.ordinal && Awaiting(s, turn, r) && !Answers(events, turn)
    ensures var t := Exec(s, events);
            && Awaiting(t, turn, r)
            && (r in t.sessions ==> (Usable(t, r) <==> Usable(s, r) && !Changed(events)))
            && (r !in s.sessions ==> r !in t.sessions)
    decreases |events|
  {
    hide Step, Inv, Usable, Awaiting, ChangesLease;
    if events != [] {
      var e, rest := events[0], events[1..];
      assert forall i | 0 <= i < |rest| :: rest[i] == events[i + 1];
      StepInv(s, e);
      AwaitingStep(s, e, turn, r);
      UsableStep(s, e, r);
      OvertakenTurn(Step(s, e), turn, r, rest);
      ChangedAtOnceOrLater(events);
    }
  }

  /** The lease is looked at when a turn begins and not again when the transport answers.
      Whatever happens to a turn that began, until the transport replies to it: it is still
      waiting then, and the reply alone decides its answer, so a good one is returned as
      ok. Its session, if it still stands, is usable then exactly when no activation and no
      invalidation came in between. */
  lemma TurnOutlivesLease(s: State, turn: nat, r: nat, events: seq<Event>, reply: Reply)
    requires Inv(s) && s.gated && Usable(s, r) && turn !in s.turns && turn !in s.answers
    requires !Answers(events, turn)
    ensures var t := Exec(Step(s, BeginTurn(turn, r)), events);
            var u := Step(t, FinishTurn(turn, reply));
            && turn in t.turns && turn !in t.answers
            && turn in u.answers
            && (reply.Output? ==> u.answers[turn] == TurnOk(reply.text))
            && (reply.TransportError? ==> u.answers[turn] == TurnFailed)
            && (reply.BadOutput? || reply.ForbiddenActivity? ==> u.answers[turn] == InvalidResponse)
            && (r in t.sessions ==> (Usable(t, r) <==> !Changed(events)))
            && (Changed(events) ==> !Usable(t, r))
  {
    var b := Step(s, BeginTurn(turn, r));
    StepInv(s, BeginTurn(turn, r));
    SameSessions(s, b, r);
    OvertakenTurn(b, turn, r, events);
  }

  lemma SameSessions(s: State, t: State, r: nat)
    requires t.sessions == s.sessions && t.lease == s.lease
    ensures Usable(s, r) == Usable(t, r)
  {
  }

  // ----- sessions that the lease leaves behind

  /** The lease has moved on from a session, and no closing of it is in flight. */
  predicate LeftBehind(s: State, r: nat) {
    && r in s.sessions && r <= s.ordinal && s.sessions[r].seen.Some?
    && s.sessions[r].seen.value.generation < s.lease.generation
    && forall c | c in s.closings :: s.closings[c] != r
  }

  lemma LeftBehindStep(s: State, e: Event, r: nat)
    requires Inv(s) && LeftBehind(s, r)
    ensures LeftBehind(Step(s, e), r)
  {
    IssuedStep(s, e, r);
    LeaseStep(s, e);
    hide Inv;
  }

  /** Closing a session goes through the same test, so a session that the lease left behind
      can no longer be closed: its entry, and the thread behind it, stay for good. */
  lemma {:induction false} LeftBehindForGood(s: State, r: nat, events: seq<Event>, call: nat)
    requires Inv(s) && LeftBehind(s, r)
    ensures var t := Exec(s, events);
            r in t.sessions && !Usable(t, r) && Step(t, BeginClose(call, r)) == t
    decreases |events|
  {
    if events != [] {
      hide Step, Inv, LeftBehind, Usable;
      StepInv(s, events[0]);
      LeftBehindStep(s, events[0], r);
      LeftBehindForGood(Step(s, events[0]), r, events[1..], call);
    }
  }

  /** A change of the lease leaves behind exactly the sessions with no closing in flight:
      a closing that began before the change still removes its session. */
  lemma ChangeLeavesBehind(s: State, change: Event, r: nat)
    requires Inv(s) && s.gated && r in s.sessions && ChangesLease(change)
    ensures LeftBehind(Step(s, change), r) <==> forall c | c in s.closings :: s.closings[c] != r
    ensures forall c | c in s.closings && s.closings[c] == r ::
              r !in Step(Step(s, change), FinishClose(c, true)).sessions
  {
    assert SnapshotOk(s.lease, s.sessions[r].seen.value);
  }

  /** The session table of the author backend, which shares the lease object with the
      account controller. */
  class CodexAppServerAgentBackend {
    const lease: CodexAccountLease?
    var sessions: map<nat, Session>
    var ordinal: nat
    var openings: map<nat, Option<Lease>>
    ghost var turns: map<nat, nat>
    ghost var closings: map<nat, nat>
    ghost var answers: map<nat, TurnResult>

    ghost function Now(): State
      reads this, lease
    {
      State(lease != null, if lease != null then lease.Snapshot() else Lease(0, None),
            sessions, ordinal, openings, turns, closings, answers)
    }

    constructor (lease: CodexAccountLease?)
      ensures this.lease == lease && Inv(Now())
      ensures sessions == map[] && openings == map[] && turns == map[] && closings == map[] && answers == map[]
    {
      this.lease := lease;
      sessions, ordinal, openings, turns, closings, answers := map[], 0, map[], map[], map[], map[];
    }

    /** openSession up to the first await. */
    method BeginOpen(call: nat) returns (begun: bool)
      requires call !in openings
      modifies this
      ensures Now() == Step(old(Now()), Event.BeginOpen(call)) && begun == (call in openings)
    {
      if lease != null && lease.accountKey.None? { return false; }
      openings := openings[call := if lease != null then Some(lease.Snapshot()) else None];
      begun := true;
    }

    /** openSession from the reply of the transport on. */
    method FinishOpen(call: nat, started: bool) returns (session: Option<nat>)
      requires call in openings
      modifies this
      ensures Now() == Step(old(Now()), Event.FinishOpen(call, started))
      ensures session == if started then Some(ordinal) else None
    {
      var seen := openings[call];
      openings := openings - {call};
      if !started { return None; }
      ordinal := ordinal + 1;
      sessions := sessions[ordinal := Session(seen)];
      session := Some(ordinal);
    }

    /** #ownedSession */
    method OwnedSession(r: nat) returns (owned: bool)
      ensures owned == Usable(Now(), r)
    {
      if r !in sessions { return false; }
      if sessions[r].seen.None? || lease == null { return sessions[r].seen.None?; }
      var view, seen := lease.Snapshot(), sessions[r].seen.value;
      owned := view.accountKey.Some? && view.generation == seen.generation && view.accountKey == seen.accountKey;
    }

    /** runTurn up to the await of the transport. */
    method BeginTurn(ghost turn: nat, r: nat) returns (begun: bool)
      requires turn !in turns && turn !in answers
      modifies this
      ensures Now() == Step(old(Now()), Event.BeginTurn(turn, r)) && begun == Usable(old(Now()), r)
    {
      begun := OwnedSession(r);
      if begun { turns := turns[turn := r]; }
    }

    /** runTurn from the reply of the transport on. */
    method FinishTurn(ghost turn: nat, reply: Reply) returns (result: TurnResult)
      requires turn in turns
      modifies this
      ensures Now() == Step(old(Now()), Event.FinishTurn(turn, reply)) && result == answers[turn]
    {
      result := if reply.Output? then TurnOk(reply.text) else if reply.TransportError? then TurnFailed
          else InvalidResponse;
      turns, answers := turns - {turn}, answers[turn := result];
    }

    /** closeSession up to the await of the transport. */
    method BeginClose(ghost call: nat, r: nat) returns (begun: bool)
      requires call !in closings
      modifies this
      ensures Now() == Step(old(Now()), Event.BeginClose(call, r)) && begun == Usable(old(Now()), r)
    {
      begun := OwnedSession(r);
      if begun { closings := closings[call := r]; }
    }

    /** closeSession from the reply of the transport on. */
    method FinishClose(ghost call: nat, r: nat, released: bool)
      requires call in closings && closings[call] == r
      modifies this
      ensures Now() == Step(old(Now()), Event.FinishClose(call, released))
    {
      if released { sessions := sessions - {r}; }
      closings := closings - {call};
    }
  }
}
