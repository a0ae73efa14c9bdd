/** The author model backend: a table of sessions with expiry, a busy flag and an abort
    signal, under reconfiguration. `runTurn` awaits the provider once, so it is cut in
    two: BeginTurn up to the call, FinishTurn from the reply on. Between the two any
    other call may run. A session object outlives its removal from the table, because a
    turn in flight still holds it; a session is named by the number in its reference. */
module ModelBackend {
  import opened Numbers
  import opened Strings
  import opened Wrappers

  const MAX_ACTIVE_SESSIONS := 8

  datatype Session = Session(expires: int, aborted: bool, busy: bool)

  /** A turn waiting for its provider: what it was sent with, and what happened since. */
  datatype Turn = Turn(session: nat, provider: nat, model: string, timedOut: bool, cancelled: bool)

  datatype State = State(provider: Option<nat>, model: string, ordinal: nat,
                         objects: map<nat, Session>, table: set<nat>, turns: map<nat, Turn>, nextTurn: nat)

  datatype Error = InvalidResponse | Aborted | Timeout | AuthRequired | RateLimited | SessionExpired | BackendError

  datatype Result<T> = Ok(value: T) | Err(error: Error)

  /** The parts of a request that decide its fate: `valid` stands for the validators of
      the profile, the messages and the output budget. */
  datatype Request = Request(valid: bool, cancelled: bool, deadline: int)

  datatype ProviderError = ProviderAborted | ProviderTimeout | ProviderInvalidResponse | ProviderOther

  /** A reply of the provider; `usable` says that the output is a bounded JSON object. */
  datatype Reply = Output(usable: bool) | Failure(httpStatus: Option<int>, code: ProviderError) | Thrown

  predicate InTime(deadline: int, now: int) {
    0 <= deadline <= MAX_SAFE_INTEGER && deadline > now
  }

  function MapFailure(httpStatus: Option<int>, code: ProviderError): Error {
    if httpStatus == Some(401) || httpStatus == Some(403) then AuthRequired
    else if httpStatus == Some(429) then RateLimited
    else match code
      case ProviderAborted => Aborted
      case ProviderTimeout => Timeout
      case ProviderInvalidResponse => InvalidResponse
      case ProviderOther => BackendError
  }

  // ----- the calls, as functions of the state

  function AbortIn(objects: map<nat, Session>, refs: set<nat>): map<nat, Session> {
    map r | r in objects :: if r in refs then objects[r].(aborted := true) else objects[r]
  }

  lemma AbortNone(objects: map<nat, Session>)
    ensures AbortIn(objects, {}) == objects
  {
  }

  lemma AbortMore(objects: map<nat, Session>, refs: set<nat>, r: nat)
    requires r in objects
    ensures AbortIn(objects, refs).Keys == objects.Keys
    ensures AbortIn(objects, refs + {r}) == AbortIn(objects, refs)[r := AbortIn(objects, refs)[r].(aborted := true)]
    ensures r !in refs ==> AbortIn(objects, refs)[r] == objects[r]
  {
  }

  function Expired(s: State, now: int): set<nat> {
    set r | r in s.table && r in s.objects && s.objects[r].expires <= now
  }

  function Configured(s: State, provider: Option<nat>, model: string): (State, bool) {
    if provider.Some? && (model == "" || Utf16Length(model) > 200) then (s, false)
    else (s.(objects := AbortIn(s.objects, s.table), table := {}, provider := provider, model := model), true)
  }

  /** The sweep with which openSession drops expired sessions. */
  function Purged(s: State, now: int): State {
    s.(objects := AbortIn(s.objects, Expired(s, now)), table := s.table - Expired(s, now))
  }

  /** A new session under the next ordinal. */
  function Inserted(s: State, deadline: int): State {
    var r := s.ordinal + 1;
    s.(ordinal := r, objects := s.objects[r := Session(deadline, false, false)], table := s.table + {r})
  }

  function Opened(s: State, q: Request, now: int): (State, Result<nat>) {
    if !q.valid then (s, Err(InvalidResponse))
    else if q.cancelled then (s, Err(Aborted))
    else if !InTime(q.deadline, now) then (s, Err(Timeout))
    else if s.provider.None? then (s, Err(AuthRequired))
    else
      var p := Purged(s, now);
      if |p.table| >= MAX_ACTIVE_SESSIONS then (p, Err(RateLimited))
      else (Inserted(p, q.deadline), Ok(p.ordinal + 1))
  }

  function Begun(s: State, r: nat, q: Request, now: int): (State, Result<nat>) {
    if r !in s.table || r !in s.objects || s.provider.None? then (s, Err(SessionExpired))
    else
      var session := s.objects[r];
      if session.busy then (s, Err(RateLimited))
      else if !q.valid then (s, Err(InvalidResponse))
      else if q.cancelled then (s, Err(Aborted))
      else if !InTime(q.deadline, now) || session.expires <= now then (s, Err(Timeout))
      else
        (s.(objects := s.objects[r := session.(busy := true)],
            turns := s.turns[s.nextTurn := Turn(r, s.provider.value, s.model, false, false)],
            nextTurn := s.nextTurn + 1), Ok(s.nextTurn))
  }

  /** What a turn returns when its provider answers. */
  function TurnResult(session: Session, t: Turn, reply: Reply): Result<()> {
    if reply.Thrown? then
      if session.aborted || t.cancelled then Err(Aborted) else if t.timedOut then Err(Timeout) else Err(BackendError)
    else if session.aborted then Err(Aborted)
    else if t.timedOut then Err(Timeout)
    else if t.cancelled then Err(Aborted)
    else if reply.Failure? then Err(MapFailure(reply.httpStatus, reply.code))
    else if !reply.usable then Err(InvalidResponse)
    else Ok(())
  }

  function Finished(s: State, turn: nat, reply: Reply): (State, Result<()>)
    requires turn in s.turns && s.turns[turn].session in s.objects
  {
    var t := s.turns[turn];
    var session := s.objects[t.session];
    (s.(objects := s.objects[t.session := session.(busy := false)], turns := s.turns - {turn}),
        TurnResult(session, t, reply))
  }

  function Closed(s: State, r: nat, q: Request, now: int): (State, Result<()>) {
    if q.cancelled then (s, Err(Aborted))
    else if !InTime(q.deadline, now) then (s, Err(Timeout))
    else if r !in s.table || r !in s.objects then (s, Err(SessionExpired))
    else (s.(objects := s.objects[r := s.objects[r].(aborted := true)], table := s.table - {r}), Ok(()))
  }

  // ----- the invariant

  ghost predicate InFlight(s: State, r: nat) {
    exists t :: t in s.turns && s.turns[t].session == r
  }

  ghost predicate Inv(s: State) {
    && s.table <= s.objects.Keys && |s.table| <= MAX_ACTIVE_SESSIONS
    && (forall r | r in s.objects :: 1 <= r <= s.ordinal && (s.objects[r].aborted <==> r !in s.table))
    && (s.provider.None? ==> s.table == {})
    && (forall t | t in s.turns :: t < s.nextTurn && TurnOk(s, s.turns[t]))
    && (forall t, u | t in s.turns && u in s.turns && t != u :: s.turns[t].session != s.turns[u].session)
    && (forall r | r in s.objects && s.objects[r].busy :: InFlight(s, r))
  }

  /** A turn keeps its session busy, and as long as that session is in the table the
      provider and model it was sent with are the configured ones. */
  ghost predicate TurnOk(s: State, t: Turn) {
    && t.session in s.objects && s.objects[t.session].busy
    && (t.session in s.table ==> s.provider == Some(t.provider) && s.model == t.model)
  }

  // ----- the backend object

  class ModelAgentBackend {
    var provider: Option<nat>
    var model: string
    var ordinal: nat
    var objects: map<nat, Session>
    var table: set<nat>
    var turns: map<nat, Turn>
    var nextTurn: nat

    ghost function Now(): State
      reads this
    {
      State(provider, model, ordinal, objects, table, turns, nextTurn)
    }

    constructor ()
      ensures Inv(Now()) && Now() == State(None, "", 0, map[], {}, map[], 0)
    {
      provider, model, ordinal, objects, table, turns, nextTurn := None, "", 0, map[], {}, map[], 0;
    }

    /** The loop with which `configure` aborts the sessions of the table. */
    method AbortSessions()
      requires table <= objects.Keys
      modifies this`objects
      ensures objects == AbortIn(old(objects), table)
    {
      hide AbortIn;
      AbortNone(objects);
      var pending := table;
      assert table - pending == {};
      while pending != {}
        invariant pending <= table
        invariant objects.Keys == old(objects).Keys
        invariant objects == AbortIn(old(objects), table - pending)
      {
        var r :| r in pending;
        AbortMore(old(objects), table - pending, r);
        assert table - (pending - {r}) == table - pending + {r};
        objects := objects[r := objects[r].(aborted := true)];
        pending := pending - {r};
      }
      assert table - pending == table;
    }

    /** Rotation or disconnection aborts every session and empties the table. */
    method Configure(newProvider: Option<nat>, newModel: string) returns (accepted: bool)
      requires Inv(Now())
      modifies this
      ensures (Now(), accepted) == Configured(old(Now()), newProvider, newModel)
      ensures Inv(Now())
    {
      ConfigureInv(Now(), newProvider, newModel);
      assert table <= objects.Keys;
      hide Inv, AbortIn, Utf16Length;
      if newProvider.Some? && (newModel == "" || Utf16Length(newModel) > 200) { return false; }
      AbortSessions();
      table := {};
      provider, model := newProvider, newModel;
      accepted := true;
    }

    method Purge(now: int)
      requires table <= objects.Keys
      modifies this
      ensures Now() == Purged(old(Now()), now)
    {
      ghost var gone := Expired(Now(), now);
      var pending := table;
      while pending != {}
        invariant pending <= table <= old(table) <= old(objects).Keys
        invariant table == old(table) - (gone - pending)
        invariant objects == AbortIn(old(objects), gone - pending)
        invariant Now() == old(Now()).(objects := objects, table := table)
      {
        var r :| r in pending;
        if objects[r].expires <= now {
          objects := objects[r := objects[r].(aborted := true)];
          table := table - {r};
        }
        pending := pending - {r};
        assert objects == AbortIn(old(objects), gone - pending);
      }
      assert gone - pending == gone;
    }

    method OpenSession(q: Request, now: int) returns (result: Result<nat>)
      requires Inv(Now())
      modifies this
      ensures (Now(), result) == Opened(old(Now()), q, now)
      ensures Inv(Now())
    {
      OpenInv(Now(), q, now);
      if !q.valid { return Err(InvalidResponse); }
      if q.cancelled { return Err(Aborted); }
      if !InTime(q.deadline, now) { return Err(Timeout); }
      if provider.None? { return Err(AuthRequired); }
      Purge(now);
      if |table| >= MAX_ACTIVE_SESSIONS { return Err(RateLimited); }
      ordinal := ordinal + 1;
      objects := objects[ordinal := Session(q.deadline, false, false)];
      table := table + {ordinal};
      result := Ok(ordinal);
    }

    /** runTurn up to the provider call. */
    method BeginTurn(r: nat, q: Request, now: int) returns (result: Result<nat>)
      requires Inv(Now())
      modifies this
      ensures (Now(), result) == Begun(old(Now()), r, q, now)
      ensures Inv(Now())
    {
      BeginInv(Now(), r, q, now);
      if r !in table || provider.None? { return Err(SessionExpired); }
      var session := objects[r];
      if session.busy { return Err(RateLimited); }
      if !q.valid { return Err(InvalidResponse); }
      if q.cancelled { return Err(Aborted); }
      if !InTime(q.deadline, now) || session.expires <= now { return Err(Timeout); }
      objects := objects[r := session.(busy := true)];
      turns := turns[nextTurn := Turn(r, provider.value, model, false, false)];
      nextTurn := nextTurn + 1;
      result := Ok(nextTurn - 1);
    }

    /** The deadline timer of a turn, or the caller's abort signal. */
    method Interrupt(turn: nat, timedOut: bool)
      requires Inv(Now()) && turn in turns
      modifies this
      ensures Now() == Interrupted(old(Now()), turn, timedOut)
      ensures Inv(Now())
    {
      InterruptInv(Now(), turn, timedOut);
      turns := turns[turn := if timedOut then turns[turn].(timedOut := true) else turns[turn].(cancelled := true)];
    }

    /** runTurn from the reply of the provider on. */
    method FinishTurn(turn: nat, reply: Reply) returns (result: Result<()>)
      requires Inv(Now()) && turn in turns
      modifies this
      ensures (Now(), result) == Finished(old(Now()), turn, reply)
      ensures Inv(Now())
    {
      FinishInv(Now(), turn, reply);
      var t := turns[turn];
      result := TurnResult(objects[t.session], t, reply);
      objects := objects[t.session := objects[t.session].(busy := false)];
      turns := turns - {turn};
    }

    method CloseSession(r: nat, q: Request, now: int) returns (result: Result<()>)
      requires Inv(Now())
      modifies this
      ensures (Now(), result) == Closed(old(Now()), r, q, now)
      ensures Inv(Now())
    {
      CloseInv(Now(), r, q, now);
      if q.cancelled { return Err(Aborted); }
      if !InTime(q.deadline, now) { return Err(Timeout); }
      if r !in table { return Err(SessionExpired); }
      objects := objects[r := objects[r].(aborted := true)];
      table := table - {r};
      result := Ok(());
    }
  }

  function Interrupted(s: State, turn: nat, timedOut: bool): State
    requires turn in s.turns
  {
    s.(turns := s.turns[turn := if timedOut then s.turns[turn].(timedOut := true)
        else s.turns[turn].(cancelled := true)])
  }

  // ----- every call keeps the invariant

  lemma ConfigureInv(s: State, provider: Option<nat>, model: string)
    requires Inv(s)
    ensures Inv(Configured(s, provider, model).0)
  {
    var s' := Configured(s, provider, model).0;
    forall r | r in s'.objects && s'.objects[r].busy ensures InFlight(s', r) { assert InFlight(s, r); }
  }

  lemma PurgeInv(s: State, now: int)
    requires Inv(s)
    ensures Inv(Purged(s, now))
  {
    var s' := Purged(s, now);
    Shrinks(s'.table, s.table);
    forall t | t in s'.turns ensures TurnOk(s', s'.turns[t]) { assert TurnOk(s, s.turns[t]); }
    forall r | r in s'.objects && s'.objects[r].busy ensures InFlight(s', r) { assert InFlight(s, r); }
  }

  lemma OpenInv(s: State, q: Request, now: int)
    requires Inv(s)
    ensures Inv(Opened(s, q, now).0)
  {
    hide Inv, Purged, Inserted;
    PurgeInv(s, now);
    var p := Purged(s, now);
    if |p.table| < MAX_ACTIVE_SESSIONS && s.provider.Some? {
      assert p.provider == s.provider by { PurgeKeepsProvider(s, now); }
      InsertInv(p, q.deadline);
    }
  }

  lemma PurgeKeepsProvider(s: State, now: int)
    ensures Purged(s, now).provider == s.provider
  {
  }

  lemma InsertInv(p: State, deadline: int)
    requires Inv(p) && |p.table| < MAX_ACTIVE_SESSIONS && p.provider.Some?
    ensures Inv(Inserted(p, deadline))
  {
    hide InFlight;
    var s' := Inserted(p, deadline);
    forall t | t in s'.turns ensures TurnOk(s', s'.turns[t]) { assert TurnOk(p, p.turns[t]); }
    forall r | r in s'.objects && s'.objects[r].busy ensures InFlight(s', r) { SameTurns(p, s', r); }
  }

  lemma SameTurns(s: State, s': State, r: nat)
    requires InFlight(s, r) && s'.turns == s.turns
    ensures InFlight(s', r)
  {
  }

  lemma Shrinks(a: set<nat>, b: set<nat>)
    requires a <= b
    ensures |a| <= |b|
  {
    if a != b { assert |b - a| + |a| == |b| by { assert b == (b - a) + a; } }
  }

  lemma BeginInv(s: State, r: nat, q: Request, now: int)
    requires Inv(s)
    ensures Inv(Begun(s, r, q, now).0)
  {
    hide InFlight, InTime;
    var s' := Begun(s, r, q, now).0;
    if s' != s {
      forall t | t in s.turns ensures s.turns[t].session != r { assert TurnOk(s, s.turns[t]); }
      forall t | t in s'.turns ensures TurnOk(s', s'.turns[t]) {
        if t in s.turns { assert TurnOk(s, s.turns[t]); }
      }
      forall x | x in s'.objects && s'.objects[x].busy ensures InFlight(s', x) { TurnsKept(s, s', s.nextTurn, x); }
    }
  }

  /** A turn that is added, or changed but for its session, leaves every other one in flight. */
  lemma TurnsKept(s: State, s': State, turn: nat, x: nat)
    requires turn in s'.turns && s'.turns == s.turns[turn := s'.turns[turn]]
    requires turn in s.turns ==> s'.turns[turn].session == s.turns[turn].session
    requires InFlight(s, x) || s'.turns[turn].session == x
    ensures InFlight(s', x)
  {
    if s'.turns[turn].session != x {
      var t :| t in s.turns && s.turns[t].session == x;
      assert t in s'.turns && s'.turns[t].session == x;
    }
  }

  lemma InterruptInv(s: State, turn: nat, timedOut: bool)
    requires Inv(s) && turn in s.turns
    ensures Inv(Interrupted(s, turn, timedOut))
  {
    hide InFlight;
    var s' := Interrupted(s, turn, timedOut);
    forall t | t in s'.turns ensures TurnOk(s', s'.turns[t]) { assert TurnOk(s, s.turns[t]); }
    forall x | x in s'.objects && s'.objects[x].busy ensures InFlight(s', x) { TurnsKept(s, s', turn, x); }
  }

  lemma FinishInv(s: State, turn: nat, reply: Reply)
    requires Inv(s) && turn in s.turns
    ensures s.turns[turn].session in s.objects && Inv(Finished(s, turn, reply).0)
  {
    assert TurnOk(s, s.turns[turn]);
    var s' := Finished(s, turn, reply).0;
    forall t | t in s'.turns ensures TurnOk(s', s'.turns[t]) { assert TurnOk(s, s.turns[t]); }
    forall x | x in s'.objects && s'.objects[x].busy ensures InFlight(s', x) {
      assert InFlight(s, x);
      var t :| t in s.turns && s.turns[t].session == x;
      assert t in s'.turns && s'.turns[t].session == x;
    }
  }

  lemma CloseInv(s: State, r: nat, q: Request, now: int)
    requires Inv(s)
    ensures Inv(Closed(s, r, q, now).0)
  {
    hide InFlight;
    var s' := Closed(s, r, q, now).0;
    Shrinks(s.table - {r}, s.table);
    forall t | t in s'.turns ensures TurnOk(s', s'.turns[t]) { assert TurnOk(s, s.turns[t]); }
    forall x | x in s'.objects && s'.objects[x].busy ensures InFlight(s', x) { SameTurns(s, s', x); }
  }

  // ----- runs

  datatype Event =
    | Configure(provider: Option<nat>, model: string)
    | Open(request: Request, now: int)
    | Begin(session: nat, request: Request, now: int)
    | Interrupt(turn: nat, timedOut: bool)
    | Finish(turn: nat, reply: Reply)
    | Close(session: nat, request: Request, now: int)

  ghost function Step(s: State, e: Event): State
    requires Inv(s)
  {
    match e
    case Configure(provider, model) => Configured(s, provider, model).0
    case Open(q, now) => Opened(s, q, now).0
    case Begin(r, q, now) => Begun(s, r, q, now).0
    case Interrupt(turn, timedOut) => if turn in s.turns then Interrupted(s, turn, timedOut) else s
    case Finish(turn, reply) => if turn in s.turns then FinishInv(s, turn, reply); Finished(s, turn, reply).0 else s
    case Close(r, q, now) => Closed(s, r, q, now).0
  }

  lemma StepInv(s: State, e: Event)
    requires Inv(s)
    ensures Inv(Step(s, e))
  {
    match e
    case Configure(provider, model) => ConfigureInv(s, provider, model);
    case Open(q, now) => OpenInv(s, q, now);
    case Begin(r, q, now) => BeginInv(s, r, q, now);
    case Interrupt(turn, timedOut) => if turn in s.turns { InterruptInv(s, turn, timedOut); }
    case Finish(turn, reply) => if turn in s.turns { FinishInv(s, turn, reply); }
    case Close(r, q, now) => CloseInv(s, r, q, now);
  }

  ghost function Exec(s: State, events: seq<Event>): (s': State)
    requires Inv(s)
    ensures Inv(s')
    decreases |events|
  {
    if events == [] then s
    else
      StepInv(s, events[0]);
      Exec(Step(s, events[0]), events[1..])
  }

  /** A turn that returns ok belongs to a session still in the table, and was sent with
      the provider and model that are still configured. */
  lemma OkTurnIsCurrent(s: State, turn: nat, reply: Reply)
    requires Inv(s) && turn in s.turns && s.turns[turn].session in s.objects
    requires Finished(s, turn, reply).1.Ok?
    ensures var (s', t) := (Finished(s, turn, reply).0, s.turns[turn]);
            t.session in s'.table && s'.provider == Some(t.provider) && s'.model == t.model
  {
    assert TurnOk(s, s.turns[turn]);
  }

  /** A new session gets a reference that no session ever had. */
  lemma RefsAreFresh(s: State, q: Request, now: int)
    requires Inv(s) && Opened(s, q, now).1.Ok?
    ensures var (s', r) := (Opened(s, q, now).0, Opened(s, q, now).1.value);
            r == s.ordinal + 1 == s'.ordinal && r !in s.objects && r in s'.table
  {
  }

  /** A handle is expired: its session was issued and is no longer in the table. */
  predicate Gone(s: State, r: nat) {
    r <= s.ordinal && r !in s.table
  }

  lemma GoneStep(s: State, r: nat, e: Event)
    requires Inv(s) && Gone(s, r)
    ensures Gone(Step(s, e), r)
  {
    hide Inv;
  }

  lemma {:induction false} GoneForever(s: State, r: nat, events: seq<Event>)
    requires Inv(s) && Gone(s, r)
    ensures Gone(Exec(s, events), r)
    decreases |events|
  {
    if events != [] {
      StepInv(s, events[0]);
      GoneStep(s, r, events[0]);
      GoneForever(Step(s, events[0]), r, events[1..]);
    }
  }

  /** An expired handle stays expired, whatever is opened, configured or closed later. */
  lemma ExpiredStaysExpired(s: State, r: nat, events: seq<Event>, q: Request, now: int)
    requires Inv(s) && Gone(s, r)
    ensures Begun(Exec(s, events), r, q, now).1 == Err(SessionExpired)
  {
    GoneForever(s, r, events);
  }

  /** What was issued keeps the deadline it was opened with. */
  predicate Issued(s: State, r: nat, expires: int) {
    r <= s.ordinal && r in s.objects && s.objects[r].expires == expires
  }

  lemma IssuedStep(s: State, r: nat, expires: int, e: Event)
    requires Inv(s) && Issued(s, r, expires)
    ensures Issued(Step(s, e), r, expires)
  {
    hide Inv;
  }

  lemma {:induction false} IssuedForever(s: State, r: nat, expires: int, events: seq<Event>)
    requires Inv(s) && Issued(s, r, expires)
    ensures Issued(Exec(s, events), r, expires)
    decreases |events|
  {
    hide Inv, Issued;
    if events != [] {
      StepInv(s, events[0]);
      IssuedStep(s, r, expires, events[0]);
      IssuedForever(Step(s, events[0]), r, expires, events[1..]);
    }
  }

  /** A session whose deadline has passed begins no turn any more, whether it was swept
      from the table or still stands in it, and whatever happened since; a turn of it that
      is still in flight is not affected. */
  lemma PastDeadlineIsDead(s: State, r: nat, events: seq<Event>, q: Request, now: int)
    requires Inv(s) && r in s.objects && s.objects[r].expires <= now
    ensures var s' := Exec(s, events);
            && Begun(s', r, q, now).0 == s' && Begun(s', r, q, now).1.Err?
            && (r in s'.table && q.valid && !q.cancelled && !s'.objects[r].busy
                ==> Begun(s', r, q, now).1 == Err(Timeout))
  {
    IssuedForever(s, r, s.objects[r].expires, events);
  }

  /** The error means exactly that the session is not in the table: a session in the
      table always has a provider. A handle that was refused can become usable later
      only if its number had not been issued yet. */
  lemma ExpiredExactly(s: State, r: nat, q: Request, now: int)
    requires Inv(s)
    ensures Begun(s, r, q, now).1 == Err(SessionExpired) <==> r !in s.table
    ensures r !in s.table && !Gone(s, r) <==> r > s.ordinal
  {
    assert forall x | x in s.table :: x in s.objects;
  }

  /** For instance, the first handle is refused before the first session is opened. */
  lemma UnissuedHandleBecomesUsable(model: string)
    requires 1 <= Utf16Length(model) <= 200
    ensures var q := Request(true, false, 10);
            var s := Configured(State(None, "", 0, map[], {}, map[], 0), Some(1), model).0;
            && Begun(s, 1, q, 0).1 == Err(SessionExpired)
            && Opened(s, q, 0).1 == Ok(1)
            && Begun(Opened(s, q, 0).0, 1, q, 0).1.Ok?
  {
  }

  /** While a turn is in flight its session takes no other, and a session that looks
      busy has a turn that will free it. */
  lemma OneTurnPerSession(s: State, r: nat, q: Request, now: int)
    requires Inv(s) && r in s.table && r in s.objects
    ensures InFlight(s, r) <==> s.objects[r].busy
    ensures InFlight(s, r) ==> Begun(s, r, q, now) == (s, Err(RateLimited))
  {
    forall t | t in s.turns && s.turns[t].session == r ensures s.objects[r].busy { assert TurnOk(s, s.turns[t]); }
  }

  // ----- what each call answers and leaves

  /** The session of a turn is still open, and neither its timer nor its signal went off. */
  predicate Undisturbed(s: State, t: Turn) {
    t.session in s.table && !t.timedOut && !t.cancelled
  }

  /** What a turn answers. A closed session comes first; a turn that was also cancelled is
      timed out unless its provider threw. The reply counts only in an undisturbed turn, where
      a usable output is the one success. */
  lemma TurnAnswers(s: State, turn: nat, reply: Reply)
    requires Inv(s) && turn in s.turns && s.turns[turn].session in s.objects
    ensures var (t, result) := (s.turns[turn], Finished(s, turn, reply).1);
            var heard := Undisturbed(s, t);
            var plain := reply.Failure? && reply.httpStatus !in {Some(401), Some(403), Some(429)};
            && (result == Ok(()) <==> heard && reply == Output(true))
            && (result == Err(AuthRequired) <==>
                  heard && reply.Failure? && reply.httpStatus in {Some(401), Some(403)})
            && (result == Err(RateLimited) <==> heard && reply.Failure? && reply.httpStatus == Some(429))
            && (result == Err(InvalidResponse) <==>
                  heard && (reply == Output(false) || (plain && reply.code == ProviderInvalidResponse)))
            && (result == Err(BackendError) <==> heard && (reply.Thrown? || (plain && reply.code == ProviderOther)))
            && (result == Err(Timeout) <==>
                  || (t.session in s.table && t.timedOut && !(reply.Thrown? && t.cancelled))
                  || (heard && plain && reply.code == ProviderTimeout))
            && (result == Err(Aborted) <==>
                  || t.session !in s.table || (t.cancelled && (reply.Thrown? || !t.timedOut))
                  || (heard && plain && reply.code == ProviderAborted))
            && result != Err(SessionExpired)
  {
    var t := s.turns[turn];
    assert s.objects[t.session].aborted <==> t.session !in s.table;
    hide Inv;
  }

  /** A finished turn frees its session, and changes nothing else. */
  lemma TurnLeaves(s: State, turn: nat, reply: Reply)
    requires Inv(s) && turn in s.turns && s.turns[turn].session in s.objects
    ensures var (s', r) := (Finished(s, turn, reply).0, s.turns[turn].session);
            && s'.turns.Keys == s.turns.Keys - {turn}
            && (forall t | t in s'.turns :: s'.turns[t] == s.turns[t])
            && s'.objects.Keys == s.objects.Keys && !s'.objects[r].busy
            && s'.objects[r].expires == s.objects[r].expires && s'.objects[r].aborted == s.objects[r].aborted
            && (forall x | x in s.objects && x != r :: s'.objects[x] == s.objects[x])
            && s'.table == s.table && s'.provider == s.provider && s'.model == s.model
            && s'.ordinal == s.ordinal && s'.nextTurn == s.nextTurn
            && !InFlight(s', r)
  {
    var s' := Finished(s, turn, reply).0;
    forall t | t in s'.turns ensures s'.turns[t].session != s.turns[turn].session {}
  }

  /** The sessions of the table whose deadline has not passed. */
  function Live(s: State, now: int): set<nat> {
    set r | r in s.table && r in s.objects && now < s.objects[r].expires
  }

  /** When a session opens: with a provider, in time, and beside fewer than eight live ones.
      The sweep before it closes exactly the others; the new session lives to its deadline. */
  lemma OpenExactly(s: State, q: Request, now: int)
    requires Inv(s)
    ensures var (s', result) := Opened(s, q, now);
            var ready := q.valid && !q.cancelled && now < q.deadline && 0 <= q.deadline <= MAX_SAFE_INTEGER;
            && (result.Ok? <==> ready && s.provider.Some? && |Live(s, now)| < 8)
            && (result == Err(InvalidResponse) <==> !q.valid)
            && (result == Err(Aborted) <==> q.valid && q.cancelled)
            && (result == Err(Timeout) <==> q.valid && !q.cancelled && !ready)
            && (result == Err(AuthRequired) <==> ready && s.provider.None?)
            && (result == Err(RateLimited) <==> ready && s.provider.Some? && |Live(s, now)| >= 8)
            && (result.Err? && result.error != RateLimited ==> s' == s)
  {
    SweepLeavesLive(s, now);
    hide Inv, Purged, Inserted;
  }

  lemma SweepLeavesLive(s: State, now: int)
    requires Inv(s)
    ensures Purged(s, now).table == Live(s, now)
  {
  }

  /** The sweep aborts the sessions of the table that are not live, and no other. */
  lemma SweepLeaves(s: State, now: int)
    requires Inv(s)
    ensures var p := Purged(s, now);
            && p.table == Live(s, now) && p.objects.Keys == s.objects.Keys
            && (forall r | r in s.objects && (r in Live(s, now) || r !in s.table) :: p.objects[r] == s.objects[r])
            && (forall r | r in s.table && r !in Live(s, now) ::
                  p.objects[r] == Session(s.objects[r].expires, true, s.objects[r].busy))
            && p == s.(objects := p.objects, table := p.table)
  {
    SweepLeavesLive(s, now);
    assert s.table <= s.objects.Keys;
    hide Inv;
  }

  /** What opening leaves: the live sessions as they were, the new one among them, and those
      that were swept aborted. */
  lemma OpenLeaves(s: State, q: Request, now: int)
    requires Inv(s) && Opened(s, q, now).1.Ok?
    ensures var (s', added) := (Opened(s, q, now).0, Opened(s, q, now).1.value);
            && added !in s.objects && s'.table == Live(s, now) + {added} && s'.objects.Keys == s.objects.Keys + {added}
            && s'.objects[added] == Session(q.deadline, false, false)
            && (forall r | r in s.objects && (r in Live(s, now) || r !in s.table) :: s'.objects[r] == s.objects[r])
            && (forall r | r in s.table && r !in Live(s, now) ::
                  r in s.objects && s'.objects[r] == Session(s.objects[r].expires, true, s.objects[r].busy))
            && s'.turns == s.turns && s'.provider == s.provider && s'.model == s.model && s'.nextTurn == s.nextTurn
  {
    var p, added: nat := Purged(s, now), s.ordinal + 1;
    SweepLeaves(s, now);
    assert added !in s.objects && s.table <= s.objects.Keys;
    assert Opened(s, q, now) == (Inserted(p, q.deadline), Ok(added));
    hide Inv, Purged, Live, Opened, Inserted;
    InsertLeaves(p, q.deadline);
  }

  lemma InsertLeaves(p: State, deadline: int)
    requires p.ordinal + 1 !in p.objects
    ensures var (s', added) := (Inserted(p, deadline), p.ordinal + 1);
            && s'.table == p.table + {added} && s'.objects.Keys == p.objects.Keys + {added}
            && s'.objects[added] == Session(deadline, false, false)
            && (forall r | r in p.objects :: s'.objects[r] == p.objects[r])
            && s'.turns == p.turns && s'.provider == p.provider && s'.model == p.model && s'.nextTurn == p.nextTurn
  {
  }

  lemma FullLeaves(s: State, q: Request, now: int)
    requires Inv(s) && Opened(s, q, now).1 == Err(RateLimited)
    ensures var s' := Opened(s, q, now).0;
            && s'.table == Live(s, now) && s'.objects.Keys == s.objects.Keys
            && (forall r | r in s.objects && (r in Live(s, now) || r !in s.table) :: s'.objects[r] == s.objects[r])
            && (forall r | r in s.table && r !in Live(s, now) ::
                  r in s.objects && s'.objects[r] == Session(s.objects[r].expires, true, s.objects[r].busy))
            && s' == s.(table := s'.table, objects := s'.objects)
  {
    SweepLeaves(s, now);
    assert s.table <= s.objects.Keys;
    hide Inv, Purged, Live;
  }

  /** When a turn begins: on an idle session of the table, before its deadline and the one of
      the request; it is sent with the configured provider and model. */
  lemma BeginExactly(s: State, r: nat, q: Request, now: int)
    requires Inv(s)
    ensures var (s', result) := Begun(s, r, q, now);
            var ready := q.valid && !q.cancelled && now < q.deadline && 0 <= q.deadline <= MAX_SAFE_INTEGER;
            && (result.Ok? <==> r in s.table && !InFlight(s, r) && ready && now < s.objects[r].expires)
            && (result == Err(RateLimited) <==> r in s.table && InFlight(s, r))
            && (result == Err(InvalidResponse) <==> r in s.table && !InFlight(s, r) && !q.valid)
            && (result == Err(Aborted) <==> r in s.table && !InFlight(s, r) && q.valid && q.cancelled)
            && (result == Err(Timeout) <==>
                  r in s.table && !InFlight(s, r) && q.valid && !q.cancelled
                      && !(ready && now < s.objects[r].expires))
            && (result.Err? ==> s' == s)
  {
    if r in s.table { OneTurnPerSession(s, r, q, now); }
    assert r in s.table ==> r in s.objects && s.provider.Some?;
    hide Inv, InFlight;
  }

  lemma BeginLeaves(s: State, r: nat, q: Request, now: int)
    requires Inv(s) && Begun(s, r, q, now).1.Ok?
    ensures var (s', turn) := (Begun(s, r, q, now).0, Begun(s, r, q, now).1.value);
            && s.provider.Some? && turn !in s.turns && s'.turns.Keys == s.turns.Keys + {turn}
            && s'.turns[turn] == Turn(r, s.provider.value, s.model, false, false)
            && (forall t | t in s.turns :: s'.turns[t] == s.turns[t])
            && r in s.objects && s'.objects.Keys == s.objects.Keys
            && s'.objects[r] == Session(s.objects[r].expires, s.objects[r].aborted, true)
            && (forall x | x in s.objects && x != r :: s'.objects[x] == s.objects[x])
            && s'.table == s.table && s'.provider == s.provider && s'.model == s.model && s'.ordinal == s.ordinal
  {
    assert s.nextTurn !in s.turns;
  }

  /** When a session closes, and what that leaves: the session aborted and out of the table;
      a turn in flight is not removed, and will answer that it was aborted. */
  lemma CloseExactly(s: State, r: nat, q: Request, now: int)
    requires Inv(s)
    ensures var (s', result) := Closed(s, r, q, now);
            var inTime := now < q.deadline && 0 <= q.deadline <= MAX_SAFE_INTEGER;
            && (result == Ok(()) <==> !q.cancelled && inTime && r in s.table)
            && (result == Err(Aborted) <==> q.cancelled)
            && (result == Err(Timeout) <==> !q.cancelled && !inTime)
            && (result == Err(SessionExpired) <==> !q.cancelled && inTime && r !in s.table)
            && (result.Err? ==> s' == s)
            && (result.Ok? ==>
                  && s'.table == s.table - {r} && s'.objects.Keys == s.objects.Keys
                  && s'.objects[r] == Session(s.objects[r].expires, true, s.objects[r].busy)
                  && (forall x | x in s.objects && x != r :: s'.objects[x] == s.objects[x])
                  && s'.turns == s.turns && s'.provider == s.provider && s'.model == s.model
                  && s'.ordinal == s.ordinal && s'.nextTurn == s.nextTurn)
  {
    assert r in s.table ==> r in s.objects;
    hide Inv;
  }

  /** When a configuration is accepted, and what that leaves: every session of the table
      aborted, so that every turn in flight will answer that it was. */
  lemma ConfigureExactly(s: State, provider: Option<nat>, model: string)
    requires Inv(s)
    ensures var (s', accepted) := Configured(s, provider, model);
            && (accepted <==> (provider.Some? ==> model != "" && Utf16Length(model) <= 200))
            && (!accepted ==> s' == s)
            && (accepted ==>
                  && s'.table == {} && s'.provider == provider && s'.model == model
                  && s'.objects.Keys == s.objects.Keys
                  && (forall r | r in s.objects ::
                        s'.objects[r] == Session(s.objects[r].expires, true, s.objects[r].busy))
                  && s'.turns == s.turns && s'.ordinal == s.ordinal && s'.nextTurn == s.nextTurn)
  {
    hide Utf16Length;
  }

  /** The timer and the signal of a turn are noted on that turn and on no other. */
  lemma InterruptExactly(s: State, turn: nat, timedOut: bool)
    requires turn in s.turns
    ensures var (s', t) := (Interrupted(s, turn, timedOut), s.turns[turn]);
            && s'.turns.Keys == s.turns.Keys
            && s'.turns[turn] == Turn(t.session, t.provider, t.model, t.timedOut || timedOut, t.cancelled || !timedOut)
            && (forall u | u in s.turns && u != turn :: s'.turns[u] == s.turns[u])
            && s'.objects == s.objects && s'.table == s.table && s'.provider == s.provider && s'.model == s.model
            && s'.ordinal == s.ordinal && s'.nextTurn == s.nextTurn
  {
    var u := s.turns[turn];
    assert u == Turn(u.session, u.provider, u.model, u.timedOut, u.cancelled);
  }
}
