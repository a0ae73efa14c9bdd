/** The operation state machine of a game session: a request claims an operation under its
    idempotency key, works while it holds a lease, and commits a turn or finishes without
    one. Any number of requests claim, renew, commit and finish in any order; a crashed
    one does nothing more, and its lease runs out. */
module RuntimeStorage {
  import opened Json
  import opened Numbers
  import opened Strings
  import opened World
  import opened Wrappers

  const MAX_LEASE_DURATION_MS := 300_000

  datatype Status = Processing | Completed | FinishedWithoutTurn

  datatype Operation = Operation(
    id: string,
    sessionId: string,
    key: string,
    requestHash: string,
    expectedRevision: int,
    status: Status,
    leaseExpires: Option<int>,
    fencing: int,
    turnId: Option<string>,
    response: Option<Json>)

  datatype Session = Session(state: WorldState, revision: int, active: Option<string>, fencing: int)

  datatype Turn = Turn(
    turnId: string,
    operationId: string,
    sessionId: string,
    before: int,
    after: int,
    stateHash: string)

  /** `byKey` finds operations by session and idempotency key, `ordinal` counts new ones. */
  datatype State = State(
    sessions: map<string, Session>,
    operations: map<string, Operation>,
    byKey: map<string, string>,
    turns: map<string, seq<Turn>>,
    ordinal: nat)

  /** The identifier of the n-th operation, and the check of what is shown to the player. */
  datatype Env = Env(newId: nat -> string, validResponse: Json -> bool)

  function OperationKey(sessionId: string, key: string): string {
    sessionId + "\0" + key
  }

  /** Identifiers hold no NUL, so the pair can be read off. */
  lemma KeysDiffer(s: string, k: string, t: string, l: string)
    requires IsId(s) && IsId(t) && OperationKey(s, k) == OperationKey(t, l)
    ensures s == t && k == l
  {
    var x, y := OperationKey(s, k), OperationKey(t, l);
    assert x[|s|] == '\0' && forall i | 0 <= i < |s| :: x[i] == s[i] != '\0';
    assert y[|t|] == '\0' && forall i | 0 <= i < |t| :: y[i] == t[i] != '\0';
    assert |s| == |t|;
    assert s == x[..|s|] && t == y[..|t|] && k == x[|s| + 1..] && l == y[|t| + 1..];
  }

  predicate IsTime(now: int) {
    0 <= now <= MAX_SAFE_INTEGER
  }

  predicate IsLease(duration: int) {
    1 <= duration <= MAX_LEASE_DURATION_MS
  }

  // ----- claiming

  datatype ClaimInput = ClaimInput(
    sessionId: string,
    key: string,
    requestHash: string,
    expectedRevision: int,
    lease: int)

  datatype ClaimResult =
    | Acquired(operation: Operation, reacquired: bool)
    | Replay(operation: Operation, response: Json)
    | StillProcessing(operation: Operation)
    | KeyReused(id: string)
    | ActionInProgress(id: string)
    | ClaimRevisionConflict(current: int)
    | ClaimSessionNotFound
    | ClaimInvalid
    | ClaimClockFailed

  predicate ValidClaim(q: ClaimInput) {
    && IsId(q.sessionId) && IsId(q.key) && IsHash(q.requestHash)
    && IsTime(q.expectedRevision) && IsLease(q.lease)
  }

  function Hold(s: State, sid: string, op: Operation): State
    requires sid in s.sessions
  {
    s.(operations := s.operations[op.id := op],
       sessions := s.sessions[sid := s.sessions[sid].(active := Some(op.id), fencing := op.fencing)])
  }

  /** A key that is known already. */
  function ClaimAgain(s: State, q: ClaimInput, now: int, op: Operation): (State, ClaimResult)
    requires q.sessionId in s.sessions
  {
    var session := s.sessions[q.sessionId];
    if op.requestHash != Lower(q.requestHash) || op.expectedRevision != q.expectedRevision then (s, KeyReused(op.id))
    else if !op.status.Processing? then
      (s, if op.response.None? then ClaimInvalid else Replay(op, op.response.value))
    else if op.leaseExpires.Some? && now < op.leaseExpires.value then (s, StillProcessing(op))
    else if session.revision != q.expectedRevision then (s, ClaimRevisionConflict(session.revision))
    else if session.active.Some? && session.active.value != op.id then (s, ActionInProgress(session.active.value))
    else if session.fencing == MAX_SAFE_INTEGER then (s, ClaimInvalid)
    else
      var held := op.(leaseExpires := Some(now + q.lease), fencing := session.fencing + 1);
      (Hold(s, q.sessionId, held), Acquired(held, true))
  }

  function ClaimNew(env: Env, s: State, q: ClaimInput, now: int): (State, ClaimResult)
    requires q.sessionId in s.sessions
  {
    var session := s.sessions[q.sessionId];
    if session.revision != q.expectedRevision then (s, ClaimRevisionConflict(session.revision))
    else if session.active.Some? then (s, ActionInProgress(session.active.value))
    else if session.fencing == MAX_SAFE_INTEGER then (s, ClaimInvalid)
    else
      var id, p := env.newId(s.ordinal), s.(ordinal := s.ordinal + 1);
      if !IsId(id) || id in s.operations then (p, ClaimInvalid)
      else
        var op := Operation(id, q.sessionId, q.key, Lower(q.requestHash), q.expectedRevision, Processing,
                            Some(now + q.lease), session.fencing + 1, None, None);
        (Hold(p, q.sessionId, op).(byKey := p.byKey[OperationKey(q.sessionId, q.key) := id]), Acquired(op, false))
  }

  function Claimed(env: Env, s: State, q: ClaimInput, now: int): (State, ClaimResult) {
    var key := OperationKey(q.sessionId, q.key);
    if !IsTime(now) then (s, ClaimClockFailed)
    else if !ValidClaim(q) || !IsSafeInteger(now + q.lease) then (s, ClaimInvalid)
    else if q.sessionId !in s.sessions then (s, ClaimSessionNotFound)
    else if key !in s.byKey then ClaimNew(env, s, q, now)
    else if s.byKey[key] !in s.operations then (s, ClaimInvalid)
    else ClaimAgain(s, q, now, s.operations[s.byKey[key]])
  }

  // ----- holding

  datatype Failure =
    | ClockFailed
    | InvalidRequest
    | SessionNotFound
    | OperationNotFound
    | NotProcessing
    | RevisionConflict(current: int)
    | NotActive
    | StaleToken
    | LeaseExpired
    | InvalidCandidate
    | InvalidTurn
    | InvalidResponse

  datatype Result = Ok(operation: Operation) | Err(failure: Failure)

  /** Who claims to hold which operation. */
  datatype Holder = Holder(sessionId: string, operationId: string, token: int)

  predicate ValidHolder(h: Holder) {
    IsId(h.sessionId) && IsId(h.operationId) && 1 <= h.token <= MAX_SAFE_INTEGER
  }

  /** The checks that a holder passes; the revision is not looked at by a renewal. */
  function Refusal(s: State, h: Holder, revision: Option<int>, now: int): Option<Failure> {
    if h.sessionId !in s.sessions then Some(SessionNotFound)
    else if h.operationId !in s.operations || s.operations[h.operationId].sessionId != h.sessionId
        then Some(OperationNotFound)
    else
      var session, op := s.sessions[h.sessionId], s.operations[h.operationId];
      if !op.status.Processing? then Some(NotProcessing)
      else if revision.Some? && (session.revision != revision.value || op.expectedRevision != revision.value)
      then Some(RevisionConflict(session.revision))
      else if session.active != Some(op.id) then Some(NotActive)
      else if op.fencing != h.token then Some(StaleToken)
      else if op.leaseExpires.None? || now >= op.leaseExpires.value then Some(LeaseExpired)
      else None
  }

  function Renewed(s: State, h: Holder, lease: int, now: int): (State, Result) {
    if !IsTime(now) then (s, Err(ClockFailed))
    else if !ValidHolder(h) || !IsLease(lease) || !IsSafeInteger(now + lease) then (s, Err(InvalidRequest))
    else
      var refusal := Refusal(s, h, None, now);
      if refusal.Some? then (s, Err(refusal.value))
      else
        var op := s.operations[h.operationId].(leaseExpires := Some(now + lease));
        (s.(operations := s.operations[h.operationId := op]), Ok(op))
  }

  /** isValidWorldState */
  predicate IsWorld(w: WorldState) {
    && IsTime(w.revision) && IsTime(w.elapsedSeconds) && ValidState(w)
    && forall i | 0 <= i < |w.resources| :: InBounds(w.resources[i])
  }

  predicate IsTurn(t: Turn, op: Operation, revision: int) {
    && IsId(t.turnId) && t.operationId == op.id && t.sessionId == op.sessionId
    && t.before == revision && t.after == revision + 1 && IsHash(t.stateHash)
  }

  predicate TurnExists(turns: seq<Turn>, turnId: string) {
    exists i | 0 <= i < |turns| :: turns[i].turnId == turnId
  }

  function TurnsOf(s: State, sessionId: string): seq<Turn> {
    if sessionId in s.turns then s.turns[sessionId] else []
  }

  datatype CommitInput = CommitInput(holder: Holder, revision: int, candidate: WorldState, turn: Turn, response: Json)

  /** What a turn leaves: the candidate state, the finished operation and the turn. */
  function WithTurn(s: State, q: CommitInput): State
    requires q.holder.sessionId in s.sessions && q.holder.operationId in s.operations
  {
    var (sid, oid) := (q.holder.sessionId, q.holder.operationId);
    var op := s.operations[oid].(
      status := Completed, leaseExpires := None, turnId := Some(q.turn.turnId), response := Some(q.response));
    var session := s.sessions[sid].(state := q.candidate, revision := q.candidate.revision, active := None);
    s.(sessions := s.sessions[sid := session],
       operations := s.operations[oid := op],
       turns := s.turns[sid := TurnsOf(s, sid) + [q.turn]])
  }

  function Committed(env: Env, s: State, q: CommitInput, now: int): (State, Result) {
    if !IsTime(now) then (s, Err(ClockFailed))
    else if !ValidHolder(q.holder) || !IsTime(q.revision) then (s, Err(InvalidRequest))
    else
      var refusal := Refusal(s, q.holder, Some(q.revision), now);
      if refusal.Some? then (s, Err(refusal.value))
      else if q.revision == MAX_SAFE_INTEGER || !IsWorld(q.candidate) || q.candidate.revision != q.revision + 1
      then (s, Err(InvalidCandidate))
      else if !IsTurn(q.turn, s.operations[q.holder.operationId], q.revision)
              || TurnExists(TurnsOf(s, q.holder.sessionId), q.turn.turnId)
      then (s, Err(InvalidTurn))
      else if !env.validResponse(q.response) then (s, Err(InvalidResponse))
      else (WithTurn(s, q), Ok(WithTurn(s, q).operations[q.holder.operationId]))
  }

  function WithoutTurn(s: State, h: Holder, response: Json): State
    requires h.sessionId in s.sessions && h.operationId in s.operations
  {
    var op := s.operations[h.operationId].(
      status := FinishedWithoutTurn, leaseExpires := None, turnId := None, response := Some(response));
    s.(sessions := s.sessions[h.sessionId := s.sessions[h.sessionId].(active := None)],
       operations := s.operations[h.operationId := op])
  }

  function Finished(env: Env, s: State, h: Holder, revision: int, response: Json, now: int): (State, Result) {
    if !IsTime(now) then (s, Err(ClockFailed))
    else if !ValidHolder(h) || !IsTime(revision) then (s, Err(InvalidRequest))
    else
      var refusal := Refusal(s, h, Some(revision), now);
      if refusal.Some? then (s, Err(refusal.value))
      else if !env.validResponse(response) then (s, Err(InvalidResponse))
      else (WithoutTurn(s, h, response), Ok(WithoutTurn(s, h, response).operations[h.operationId]))
  }

  // ----- the invariant

  /** The turns of a session follow one another, and the last one led to its revision. */
  predicate Chain(turns: seq<Turn>, revision: int) {
    && (forall i | 0 <= i < |turns| :: turns[i].after == turns[i].before + 1)
    && (forall i | 0 <= i < |turns| - 1 :: turns[i + 1].before == turns[i].after)
    && (turns != [] ==> turns[|turns| - 1].after == revision)
    && (forall i, j | 0 <= i < j < |turns| :: turns[i].turnId != turns[j].turnId)
  }

  /** The active operation of a session holds its latest token and expects its revision. */
  predicate SessionOk(s: State, sid: string)
    requires sid in s.sessions
  {
    var session := s.sessions[sid];
    && session.revision == session.state.revision && session.fencing >= 0
    && (session.active.Some? ==>
          && session.active.value in s.operations
          && var op := s.operations[session.active.value];
             && op.sessionId == sid && op.status.Processing? && op.fencing == session.fencing
             && op.expectedRevision == session.revision && op.leaseExpires.Some?)
    && sid in s.turns && Chain(s.turns[sid], session.revision)
  }

  /** An operation that is being processed is the active one of its session and has neither
      turn nor response; any other has its response. */
  predicate OperationOk(s: State, id: string)
    requires id in s.operations
  {
    var op := s.operations[id];
    && op.id == id && IsId(op.sessionId) && op.sessionId in s.sessions
    && OperationKey(op.sessionId, op.key) in s.byKey && s.byKey[OperationKey(op.sessionId, op.key)] == id
    && (op.status.Processing? <==> s.sessions[op.sessionId].active == Some(id))
    && (if op.status.Processing? then op.turnId.None? && op.response.None? else op.response.Some?)
    && op.fencing <= s.sessions[op.sessionId].fencing
  }

  /** A turn belongs to the completed operation that it names. */
  predicate TurnOk(s: State, sid: string, t: Turn) {
    && t.sessionId == sid && t.operationId in s.operations
    && var op := s.operations[t.operationId];
       op.sessionId == sid && op.status.Completed? && op.turnId == Some(t.turnId) && op.expectedRevision == t.before
  }

  ghost predicate SessionsOk(s: State) {
    forall sid | sid in s.sessions :: SessionOk(s, sid)
  }

  ghost predicate OperationsOk(s: State) {
    forall id | id in s.operations :: OperationOk(s, id)
  }

  ghost predicate TurnsOk(s: State) {
    forall sid, i | sid in s.turns && 0 <= i < |s.turns[sid]| :: TurnOk(s, sid, s.turns[sid][i])
  }

  /** A key leads to the operation that was claimed under it. */
  predicate KeyOk(s: State, k: string)
    requires k in s.byKey
  {
    s.byKey[k] in s.operations && OperationKey(s.operations[s.byKey[k]].sessionId, s.operations[s.byKey[k]].key) == k
  }

  ghost predicate KeysOk(s: State) {
    forall k | k in s.byKey :: KeyOk(s, k)
  }

  ghost predicate Inv(s: State) {
    SessionsOk(s) && OperationsOk(s) && TurnsOk(s) && KeysOk(s)
  }

  predicate SessionKept(s: State, t: State, sid: string)
    requires sid in s.sessions
  {
    sid in t.sessions && s.sessions[sid].fencing <= t.sessions[sid].fencing && TurnsOf(s, sid) <= TurnsOf(t, sid)
  }

  predicate OperationKept(s: State, t: State, id: string)
    requires id in s.operations
  {
    && id in t.operations && SameRequest(s.operations[id], t.operations[id])
    && (!s.operations[id].status.Processing? ==> t.operations[id] == s.operations[id])
  }

  /** What no step takes back: sessions with their tokens and turns, keys, the requests of
      operations, and finished operations. */
  ghost predicate Forward(s: State, t: State) {
    && (forall sid | sid in s.sessions :: SessionKept(s, t, sid))
    && (forall id | id in s.operations :: OperationKept(s, t, id))
    && (forall k | k in s.byKey :: k in t.byKey && t.byKey[k] == s.byKey[k])
  }

  predicate SameRequest(a: Operation, b: Operation) {
    && b.id == a.id && b.sessionId == a.sessionId && b.key == a.key && b.requestHash == a.requestHash
    && b.expectedRevision == a.expectedRevision
  }

  lemma SessionAt(s: State, sid: string)
    requires Inv(s) && sid in s.sessions
    ensures SessionOk(s, sid)
  {
  }

  lemma OperationAt(s: State, id: string)
    requires Inv(s) && id in s.operations
    ensures OperationOk(s, id)
  {
  }

  lemma TurnAt(s: State, sid: string, i: nat)
    requires Inv(s) && sid in s.turns && i < |s.turns[sid]|
    ensures TurnOk(s, sid, s.turns[sid][i])
  {
  }

  lemma KeyAt(s: State, k: string)
    requires Inv(s) && k in s.byKey
    ensures KeyOk(s, k)
  {
  }

  /** An operation that was being processed changes, and its session with it; turns may be
      added to the session, and nothing else of the store changes. */
  predicate Updates(s: State, t: State, op: Operation, session: Session) {
    && op.id in s.operations && s.operations[op.id].status.Processing? && SameRequest(s.operations[op.id], op)
    && op.sessionId in s.sessions && op.sessionId in t.turns
    && t.operations == s.operations[op.id := op] && t.sessions == s.sessions[op.sessionId := session]
    && t.byKey == s.byKey && t.turns == s.turns[op.sessionId := t.turns[op.sessionId]]
    && TurnsOf(s, op.sessionId) <= t.turns[op.sessionId]
    && session.fencing >= s.sessions[op.sessionId].fencing && op.fencing <= session.fencing
    && session.active == (if op.status.Processing? then Some(op.id) else None)
    && (if op.status.Processing? then
          op.turnId == s.operations[op.id].turnId && op.response == s.operations[op.id].response
        else op.response.Some?)
  }

  lemma OperationUpdated(s: State, t: State, op: Operation, session: Session, id: string)
    requires Inv(s) && Updates(s, t, op, session) && id in t.operations
    ensures OperationOk(t, id)
  {
    hide Inv, OperationKey, IsId, TurnsOf;
    OperationAt(s, op.id);
    if id != op.id { OperationAt(s, id); }
  }

  lemma TurnUpdated(s: State, t: State, op: Operation, session: Session, x: string, i: nat)
    requires Inv(s) && Updates(s, t, op, session) && x in t.turns && i < |TurnsOf(s, x)| <= |t.turns[x]|
    ensures TurnOk(t, x, t.turns[x][i])
  {
    hide Inv;
    TurnAt(s, x, i);
    assert t.turns[x][i] == TurnsOf(s, x)[i];
  }

  lemma SessionUpdated(s: State, t: State, op: Operation, session: Session, x: string)
    requires Inv(s) && Updates(s, t, op, session) && x in t.sessions && x != op.sessionId
    ensures SessionOk(t, x)
  {
    hide Inv, Chain, TurnsOf;
    SessionAt(s, x);
  }

  lemma KeyUpdated(s: State, t: State, op: Operation, session: Session, k: string)
    requires Inv(s) && Updates(s, t, op, session) && k in t.byKey
    ensures KeyOk(t, k)
  {
    hide Inv, OperationKey;
    KeyAt(s, k);
  }

  lemma UpdatedForward(s: State, t: State, op: Operation, session: Session)
    requires Updates(s, t, op, session)
    ensures Forward(s, t)
  {
    forall id | id in s.operations ensures OperationKept(s, t, id) { }
    forall sid | sid in s.sessions ensures SessionKept(s, t, sid) { }
  }

  /** The turns that were added are in order too. */
  ghost predicate NewTurnsOk(s: State, t: State, sid: string) {
    forall i | |TurnsOf(s, sid)| <= i < |TurnsOf(t, sid)| :: TurnOk(t, sid, TurnsOf(t, sid)[i])
  }

  lemma AnyTurnUpdated(s: State, t: State, op: Operation, session: Session, x: string, i: nat)
    requires Inv(s) && Updates(s, t, op, session) && NewTurnsOk(s, t, op.sessionId) && x in t.turns && i < |t.turns[x]|
    ensures TurnOk(t, x, t.turns[x][i])
  {
    hide Inv, TurnOk;
    if i < |TurnsOf(s, x)| {
      TurnUpdated(s, t, op, session, x, i);
    } else {
      assert x == op.sessionId && TurnsOf(t, x) == t.turns[x];
      assert TurnOk(t, x, TurnsOf(t, x)[i]);
    }
  }

  lemma OneOperation(s: State, t: State, op: Operation, session: Session)
    requires Inv(s) && Updates(s, t, op, session) && SessionOk(t, op.sessionId) && NewTurnsOk(s, t, op.sessionId)
    ensures Inv(t) && Forward(s, t)
  {
    UpdatedForward(s, t, op, session);
    hide Updates, OperationOk, SessionOk, KeyOk, TurnOk, Forward, NewTurnsOk, SessionsOk, OperationsOk, TurnsOk, KeysOk;
    AllOperationsUpdated(s, t, op, session);
    AllSessionsUpdated(s, t, op, session);
    AllKeysUpdated(s, t, op, session);
    AllTurnsUpdated(s, t, op, session);
  }

  lemma AllOperationsUpdated(s: State, t: State, op: Operation, session: Session)
    requires Inv(s) && Updates(s, t, op, session)
    ensures OperationsOk(t)
  {
    hide Inv, Updates, OperationOk;
    forall id | id in t.operations ensures OperationOk(t, id) { OperationUpdated(s, t, op, session, id); }
  }

  lemma AllSessionsUpdated(s: State, t: State, op: Operation, session: Session)
    requires Inv(s) && Updates(s, t, op, session) && SessionOk(t, op.sessionId)
    ensures SessionsOk(t)
  {
    hide Inv, SessionOk;
    forall x | x in t.sessions && x != op.sessionId ensures SessionOk(t, x) { SessionUpdated(s, t, op, session, x); }
  }

  lemma AllKeysUpdated(s: State, t: State, op: Operation, session: Session)
    requires Inv(s) && Updates(s, t, op, session)
    ensures KeysOk(t)
  {
    hide Inv, Updates, KeyOk;
    forall k | k in t.byKey ensures KeyOk(t, k) { KeyUpdated(s, t, op, session, k); }
  }

  lemma AllTurnsUpdated(s: State, t: State, op: Operation, session: Session)
    requires Inv(s) && Updates(s, t, op, session) && NewTurnsOk(s, t, op.sessionId)
    ensures TurnsOk(t)
  {
    hide Inv, Updates, TurnOk, NewTurnsOk;
    forall x, i | x in t.turns && 0 <= i < |t.turns[x]| ensures TurnOk(t, x, t.turns[x][i]) {
      AnyTurnUpdated(s, t, op, session, x, i);
    }
  }

  /** What a holder that passes the checks is. */
  lemma HolderIsActive(s: State, h: Holder, revision: Option<int>, now: int)
    requires Inv(s) && Refusal(s, h, revision, now).None?
    ensures h.sessionId in s.sessions && h.operationId in s.operations
    ensures var session, op := s.sessions[h.sessionId], s.operations[h.operationId];
            && op.id == h.operationId && op.sessionId == h.sessionId && op.status.Processing?
            && session.active == Some(op.id) && op.expectedRevision == session.revision
            && h.token == op.fencing == session.fencing
            && op.leaseExpires.Some? && now < op.leaseExpires.value
            && h.sessionId in s.turns && Chain(s.turns[h.sessionId], session.revision) && session.fencing >= 0
            && session.revision == session.state.revision
  {
    hide Inv, Chain;
    OperationAt(s, h.operationId);
    SessionAt(s, h.sessionId);
  }

  lemma RenewInv(s: State, h: Holder, lease: int, now: int)
    requires Inv(s)
    ensures Inv(Renewed(s, h, lease, now).0) && Forward(s, Renewed(s, h, lease, now).0)
  {
    hide Inv, Forward, Refusal, Chain, IsId;
    if Renewed(s, h, lease, now).1.Ok? {
      HolderIsActive(s, h, None, now);
      var t := Renewed(s, h, lease, now).0;
      assert t.sessions == s.sessions[h.sessionId := s.sessions[h.sessionId]];
      assert t.turns == s.turns[h.sessionId := s.turns[h.sessionId]];
      OneOperation(s, t, t.operations[h.operationId], s.sessions[h.sessionId]);
    } else {
      NothingChanged(s);
    }
  }

  lemma NothingChanged(s: State)
    requires Inv(s)
    ensures Forward(s, s)
  {
    hide Inv;
    forall id | id in s.operations ensures OperationKept(s, s, id) { }
    forall sid | sid in s.sessions ensures SessionKept(s, s, sid) { }
  }

  lemma ChainGrows(turns: seq<Turn>, revision: int, t: Turn)
    requires Chain(turns, revision) && t.before == revision && t.after == revision + 1 && !TurnExists(turns, t.turnId)
    ensures Chain(turns + [t], revision + 1)
  {
  }

  lemma CommitInv(env: Env, s: State, q: CommitInput, now: int)
    requires Inv(s)
    ensures Inv(Committed(env, s, q, now).0) && Forward(s, Committed(env, s, q, now).0)
  {
    hide Inv, Forward, Refusal, Chain, IsId, IsWorld, IsHash, TurnExists;
    if Committed(env, s, q, now).1.Ok? {
      HolderIsActive(s, q.holder, Some(q.revision), now);
      SameRevision(s, q.holder, q.revision, now);
      var sid, t := q.holder.sessionId, WithTurn(s, q);
      ChainGrows(s.turns[sid], q.revision, q.turn);
      assert t.turns[sid] == s.turns[sid] + [q.turn];
      OneOperation(s, t, t.operations[q.holder.operationId], t.sessions[sid]);
    } else {
      NothingChanged(s);
    }
  }

  lemma SameRevision(s: State, h: Holder, revision: int, now: int)
    requires Refusal(s, h, Some(revision), now).None?
    ensures h.sessionId in s.sessions && s.sessions[h.sessionId].revision == revision
  {
  }

  lemma FinishInv(env: Env, s: State, h: Holder, revision: int, response: Json, now: int)
    requires Inv(s)
    ensures var t := Finished(env, s, h, revision, response, now).0; Inv(t) && Forward(s, t)
  {
    hide Inv, Forward, Refusal, Chain, IsId;
    if Finished(env, s, h, revision, response, now).1.Ok? {
      HolderIsActive(s, h, Some(revision), now);
      var t := WithoutTurn(s, h, response);
      assert t.turns == s.turns[h.sessionId := s.turns[h.sessionId]];
      OneOperation(s, t, t.operations[h.operationId], t.sessions[h.sessionId]);
    } else {
      NothingChanged(s);
    }
  }

  /** A known key: its operation is the active one, or it is finished. */
  lemma ClaimAgainInv(s: State, q: ClaimInput, now: int, op: Operation)
    requires Inv(s) && q.sessionId in s.sessions && op.id in s.operations && s.operations[op.id] == op
        && op.sessionId == q.sessionId
    ensures var t := ClaimAgain(s, q, now, op).0; Inv(t) && Forward(s, t)
  {
    hide Inv, Forward, Chain, IsId, Lower;
    SessionAt(s, q.sessionId);
    OperationAt(s, op.id);
    var t := ClaimAgain(s, q, now, op).0;
    if ClaimAgain(s, q, now, op).1.Acquired? {
      assert t.turns == s.turns[q.sessionId := s.turns[q.sessionId]];
      OneOperation(s, t, t.operations[op.id], t.sessions[q.sessionId]);
    } else {
      NothingChanged(s);
    }
  }

  /** A new key gets a new operation, which becomes the active one of an idle session. */
  lemma ClaimNewInv(env: Env, s: State, q: ClaimInput, now: int)
    requires Inv(s) && q.sessionId in s.sessions && IsId(q.sessionId) && OperationKey(q.sessionId, q.key) !in s.byKey
    ensures var t := ClaimNew(env, s, q, now).0; Inv(t) && Forward(s, t)
  {
    hide Inv, Forward, Chain, IsId, Lower, OperationKey;
    var t := ClaimNew(env, s, q, now).0;
    if ClaimNew(env, s, q, now).1.Acquired? {
      NewOperation(s, t, ClaimNew(env, s, q, now).1.operation);
    } else {
      Counted(s, t);
    }
  }

  /** An idle session gets an operation that is new, under a key that is new. */
  predicate Adds(s: State, t: State, op: Operation) {
    && op.id !in s.operations && op.sessionId in s.sessions && IsId(op.sessionId)
    && OperationKey(op.sessionId, op.key) !in s.byKey
    && s.sessions[op.sessionId].active.None? && op.status.Processing? && op.leaseExpires.Some?
    && op.turnId.None? && op.response.None? && op.fencing == s.sessions[op.sessionId].fencing + 1
    && op.expectedRevision == s.sessions[op.sessionId].revision
    && t.operations == s.operations[op.id := op]
    && t.sessions == s.sessions[op.sessionId := s.sessions[op.sessionId].(active := Some(op.id), fencing := op.fencing)]
    && t.byKey == s.byKey[OperationKey(op.sessionId, op.key) := op.id] && t.turns == s.turns
  }

  lemma AddedForward(s: State, t: State, op: Operation)
    requires Adds(s, t, op)
    ensures Forward(s, t)
  {
    hide OperationKey, IsId;
    forall id | id in s.operations ensures OperationKept(s, t, id) { }
    forall sid | sid in s.sessions ensures SessionKept(s, t, sid) { }
  }

  lemma AddedSession(s: State, t: State, op: Operation, x: string)
    requires Inv(s) && Adds(s, t, op) && x in t.sessions
    ensures SessionOk(t, x)
  {
    hide Inv, OperationKey, IsId, Chain;
    SessionAt(s, x);
  }

  lemma AddedOperation(s: State, t: State, op: Operation, id: string)
    requires Inv(s) && Adds(s, t, op) && id in t.operations
    ensures OperationOk(t, id)
  {
    hide Inv, OperationKey, IsId;
    if id in s.operations { OperationAt(s, id); }
  }

  lemma AddedKey(s: State, t: State, op: Operation, k: string)
    requires Inv(s) && Adds(s, t, op) && k in t.byKey
    ensures KeyOk(t, k)
  {
    hide Inv, OperationKey, IsId;
    if k in s.byKey { KeyAt(s, k); }
  }

  lemma AddedTurn(s: State, t: State, op: Operation, x: string, i: nat)
    requires Inv(s) && Adds(s, t, op) && x in t.turns && i < |t.turns[x]|
    ensures TurnOk(t, x, t.turns[x][i])
  {
    hide Inv, OperationKey, IsId;
    TurnAt(s, x, i);
  }

  lemma NewOperation(s: State, t: State, op: Operation)
    requires Inv(s) && Adds(s, t, op)
    ensures Inv(t) && Forward(s, t)
  {
    AddedForward(s, t, op);
    hide Adds, Forward, OperationOk, SessionOk, KeyOk, TurnOk;
    assert SessionsOk(t) by {
      hide Inv;
      forall x | x in t.sessions ensures SessionOk(t, x) { AddedSession(s, t, op, x); }
    }
    assert OperationsOk(t) by {
      hide Inv;
      forall id | id in t.operations ensures OperationOk(t, id) { AddedOperation(s, t, op, id); }
    }
    assert KeysOk(t) by {
      hide Inv;
      forall k | k in t.byKey ensures KeyOk(t, k) { AddedKey(s, t, op, k); }
    }
    assert TurnsOk(t) by {
      hide Inv;
      forall x, i | x in t.turns && 0 <= i < |t.turns[x]|
        ensures TurnOk(t, x, t.turns[x][i])
      {
        AddedTurn(s, t, op, x, i);
      }
    }
    hide SessionsOk, OperationsOk, KeysOk, TurnsOk;
  }

  /** The count of new operations is no part of what is in order. */
  lemma Counted(s: State, t: State)
    requires Inv(s) && t == s.(ordinal := t.ordinal)
    ensures Inv(t) && Forward(s, t)
  {
    hide Inv, SessionOk, OperationOk, KeyOk, TurnOk;
    assert Forward(s, t) by { NothingChanged(s); }
    hide Forward;
    forall sid | sid in t.sessions ensures SessionOk(t, sid) { SessionAt(s, sid); SameSession(s, t, sid); }
    forall id | id in t.operations ensures OperationOk(t, id) { OperationAt(s, id); SameOperation(s, t, id); }
    forall k | k in t.byKey ensures KeyOk(t, k) { KeyAt(s, k); SameKey(s, t, k); }
    forall x, i | x in t.turns && 0 <= i < |t.turns[x]| ensures TurnOk(t, x, t.turns[x][i]) {
      TurnAt(s, x, i);
      SameTurn(s, t, x, i);
    }
    InvOf(t);
  }

  lemma InvOf(t: State)
    requires forall sid | sid in t.sessions :: SessionOk(t, sid)
    requires forall id | id in t.operations :: OperationOk(t, id)
    requires forall k | k in t.byKey :: KeyOk(t, k)
    requires forall x, i | x in t.turns && 0 <= i < |t.turns[x]| :: TurnOk(t, x, t.turns[x][i])
    ensures Inv(t)
  {
    hide SessionOk, OperationOk, KeyOk, TurnOk;
  }

  lemma SameSession(s: State, t: State, sid: string)
    requires t == s.(ordinal := t.ordinal) && sid in s.sessions && SessionOk(s, sid)
    ensures SessionOk(t, sid)
  {
  }

  lemma SameOperation(s: State, t: State, id: string)
    requires t == s.(ordinal := t.ordinal) && id in s.operations && OperationOk(s, id)
    ensures OperationOk(t, id)
  {
  }

  lemma SameKey(s: State, t: State, k: string)
    requires t == s.(ordinal := t.ordinal) && k in s.byKey && KeyOk(s, k)
    ensures KeyOk(t, k)
  {
  }

  lemma SameTurn(s: State, t: State, sid: string, i: nat)
    requires t == s.(ordinal := t.ordinal) && sid in s.turns && i < |s.turns[sid]| && TurnOk(s, sid, s.turns[sid][i])
    ensures TurnOk(t, sid, t.turns[sid][i])
  {
  }

  /** The operation found under a key is one of the session that asks. */
  lemma FoundByKey(s: State, q: ClaimInput)
    requires Inv(s) && IsId(q.sessionId) && OperationKey(q.sessionId, q.key) in s.byKey
    ensures var id := s.byKey[OperationKey(q.sessionId, q.key)];
            && id in s.operations && s.operations[id].id == id
            && s.operations[id].sessionId == q.sessionId && s.operations[id].key == q.key
  {
    var id := s.byKey[OperationKey(q.sessionId, q.key)];
    KeyAt(s, OperationKey(q.sessionId, q.key));
    OperationAt(s, id);
    hide Inv;
    KeysDiffer(s.operations[id].sessionId, s.operations[id].key, q.sessionId, q.key);
  }

  lemma ClaimInv(env: Env, s: State, q: ClaimInput, now: int)
    requires Inv(s)
    ensures Inv(Claimed(env, s, q, now).0) && Forward(s, Claimed(env, s, q, now).0)
  {
    hide Inv, Forward, ClaimNew, ClaimAgain, OperationKey, IsId, IsHash;
    NothingChanged(s);
    var key := OperationKey(q.sessionId, q.key);
    if ValidClaim(q) && q.sessionId in s.sessions {
      if key !in s.byKey {
        ClaimNewInv(env, s, q, now);
      } else {
        FoundByKey(s, q);
        ClaimAgainInv(s, q, now, s.operations[s.byKey[key]]);
      }
    }
  }

  // ----- runs

  datatype Event =
    | Claim(claim: ClaimInput, now: int)
    | Renew(holder: Holder, lease: int, now: int)
    | Commit(commit: CommitInput, now: int)
    | Finish(holder: Holder, revision: int, response: Json, now: int)

  function Step(env: Env, s: State, e: Event): State {
    match e
    case Claim(q, now) => Claimed(env, s, q, now).0
    case Renew(h, lease, now) => Renewed(s, h, lease, now).0
    case Commit(q, now) => Committed(env, s, q, now).0
    case Finish(h, revision, response, now) => Finished(env, s, h, revision, response, now).0
  }

  lemma StepInv(env: Env, s: State, e: Event)
    requires Inv(s)
    ensures Inv(Step(env, s, e)) && Forward(s, Step(env, s, e))
  {
    hide Inv, Forward, Claimed, Renewed, Committed, Finished;
    match e
    case Claim(q, now) => ClaimInv(env, s, q, now);
    case Renew(h, lease, now) => RenewInv(s, h, lease, now);
    case Commit(q, now) => CommitInv(env, s, q, now);
    case Finish(h, revision, response, now) => FinishInv(env, s, h, revision, response, now);
  }

  function Exec(env: Env, s: State, events: seq<Event>): State
    decreases |events|
  {
    if events == [] then s else Exec(env, Step(env, s, events[0]), events[1..])
  }

  lemma ForwardTransitive(a: State, b: State, c: State)
    requires Forward(a, b) && Forward(b, c)
    ensures Forward(a, c)
  {
    forall sid | sid in a.sessions ensures SessionKept(a, c, sid) {
      assert SessionKept(a, b, sid) && SessionKept(b, c, sid);
      assert TurnsOf(a, sid) <= TurnsOf(b, sid) <= TurnsOf(c, sid);
    }
    forall id | id in a.operations ensures OperationKept(a, c, id) {
      assert OperationKept(a, b, id) && OperationKept(b, c, id);
    }
  }

  lemma {:induction false} ExecInv(env: Env, s: State, events: seq<Event>)
    requires Inv(s)
    ensures Inv(Exec(env, s, events)) && Forward(s, Exec(env, s, events))
    decreases |events|
  {
    hide Inv, Forward, Step;
    if events == [] {
      NothingChanged(s);
    } else {
      var t := Step(env, s, events[0]);
      StepInv(env, s, events[0]);
      ExecInv(env, t, events[1..]);
      ForwardTransitive(s, t, Exec(env, t, events[1..]));
    }
  }

  /** Sessions without operations, as the store is filled at its start. */
  predicate Init(s: State) {
    && s.operations == map[] && s.byKey == map[] && s.turns.Keys == s.sessions.Keys
    && (forall sid | sid in s.turns :: s.turns[sid] == [])
    && forall sid | sid in s.sessions ::
         s.sessions[sid].active.None? && s.sessions[sid].fencing == 0
             && s.sessions[sid].revision == s.sessions[sid].state.revision
  }

  lemma InitInv(s: State)
    requires Init(s)
    ensures Inv(s)
  {
  }

  // ----- what holds of every run

  lemma SessionStays(s: State, t: State, sid: string)
    requires Forward(s, t) && sid in s.sessions
    ensures SessionKept(s, t, sid)
  {
  }

  lemma OperationStays(s: State, t: State, id: string)
    requires Forward(s, t) && id in s.operations
    ensures OperationKept(s, t, id)
  {
  }

  lemma {:induction false} ChainDistance(turns: seq<Turn>, revision: int, i: nat, j: nat)
    requires Chain(turns, revision) && i <= j < |turns|
    ensures turns[j].before == turns[i].before + (j - i)
    decreases j - i
  {
    if i < j { ChainDistance(turns, revision, i, j - 1); }
  }

  /** The turns of a session start from consecutive revisions: no two commits, whatever
      claims, expiries and retries they were made under, start from the same one. Each
      belongs to an operation, and so to a key, of its own. */
  lemma NoSharedRevision(env: Env, s: State, events: seq<Event>, sid: string, i: nat, j: nat)
    requires Init(s) && sid in s.sessions
    requires i < j < |TurnsOf(Exec(env, s, events), sid)|
    ensures var t := Exec(env, s, events);
            var turns := TurnsOf(t, sid);
            && sid in t.sessions
            && turns[j].before == turns[i].before + (j - i) && turns[|turns| - 1].after == t.sessions[sid].revision
            && turns[i].operationId != turns[j].operationId && turns[i].turnId != turns[j].turnId
            && turns[i].operationId in t.operations && turns[j].operationId in t.operations
            && t.operations[turns[i].operationId].key != t.operations[turns[j].operationId].key
  {
    hide Init, Exec, Forward, Inv, TurnsOf;
    InitInv(s);
    ExecInv(env, s, events);
    var t := Exec(env, s, events);
    SessionStays(s, t, sid);
    TurnsAreApart(t, sid, i, j);
  }

  lemma TurnsAreApart(t: State, sid: string, i: nat, j: nat)
    requires Inv(t) && sid in t.sessions && i < j < |TurnsOf(t, sid)|
    ensures var turns := TurnsOf(t, sid);
            && turns[j].before == turns[i].before + (j - i) && turns[|turns| - 1].after == t.sessions[sid].revision
            && turns[i].operationId != turns[j].operationId && turns[i].turnId != turns[j].turnId
            && turns[i].operationId in t.operations && turns[j].operationId in t.operations
            && t.operations[turns[i].operationId].key != t.operations[turns[j].operationId].key
  {
    hide Inv, OperationKey, IsId;
    var turns := t.turns[sid];
    SessionAt(t, sid);
    TurnAt(t, sid, i);
    TurnAt(t, sid, j);
    OperationAt(t, turns[i].operationId);
    OperationAt(t, turns[j].operationId);
    ChainDistance(turns, t.sessions[sid].revision, i, j);
  }

  /** Whoever renews, commits or finishes holds the latest token of its session, and its
      lease has not run out. */
  lemma HolderIsLatest(env: Env, s: State, q: CommitInput, h: Holder, lease: int, revision: int, response: Json,
      now: int)
    requires Inv(s)
    ensures Renewed(s, h, lease, now).1.Ok? || Finished(env, s, h, revision, response, now).1.Ok?
        ==> IsLatest(s, h, now)
    ensures Committed(env, s, q, now).1.Ok? ==> IsLatest(s, q.holder, now)
  {
    hide Inv, Refusal, IsId, IsWorld, IsHash, TurnExists;
    if Refusal(s, h, None, now).None? { HolderIsActive(s, h, None, now); }
    if Refusal(s, h, Some(revision), now).None? { HolderIsActive(s, h, Some(revision), now); }
    if Refusal(s, q.holder, Some(q.revision), now).None? { HolderIsActive(s, q.holder, Some(q.revision), now); }
  }

  predicate IsLatest(s: State, h: Holder, now: int) {
    && h.sessionId in s.sessions && h.operationId in s.operations
    && h.token == s.sessions[h.sessionId].fencing && s.sessions[h.sessionId].active == Some(h.operationId)
    && s.operations[h.operationId].leaseExpires.Some? && now < s.operations[h.operationId].leaseExpires.value
  }

  /** A token that was superseded never renews, commits or finishes anything again. */
  lemma SupersededForever(env: Env, s: State, events: seq<Event>, q: CommitInput, h: Holder, lease: int, revision: int,
                          response: Json, now: int)
    requires Inv(s) && h.sessionId in s.sessions && h.token < s.sessions[h.sessionId].fencing && q.holder == h
    ensures var t := Exec(env, s, events);
            && Renewed(t, h, lease, now).0 == t && Renewed(t, h, lease, now).1.Err?
            && Committed(env, t, q, now).0 == t && Committed(env, t, q, now).1.Err?
            && Finished(env, t, h, revision, response, now).0 == t
                && Finished(env, t, h, revision, response, now).1.Err?
  {
    hide Inv, Forward, Exec, TurnsOf, Renewed, Committed, Finished;
    ExecInv(env, s, events);
    var t := Exec(env, s, events);
    SessionStays(s, t, h.sessionId);
    HolderIsLatest(env, t, q, h, lease, revision, response, now);
    RefusedKeeps(env, t, q, h, lease, revision, response, now);
  }

  lemma RefusedKeeps(env: Env, s: State, q: CommitInput, h: Holder, lease: int, revision: int, response: Json, now: int)
    ensures Renewed(s, h, lease, now).1.Err? ==> Renewed(s, h, lease, now).0 == s
    ensures Committed(env, s, q, now).1.Err? ==> Committed(env, s, q, now).0 == s
    ensures Finished(env, s, h, revision, response, now).1.Err? ==> Finished(env, s, h, revision, response, now).0 == s
  {
    hide Refusal, IsId, IsWorld, IsHash, TurnExists, WithTurn, WithoutTurn, IsTurn;
  }

  /** Acquiring an operation supersedes every earlier token of its session. */
  lemma ClaimSupersedes(env: Env, s: State, q: ClaimInput, now: int)
    requires Inv(s) && Claimed(env, s, q, now).1.Acquired?
    ensures var (t, op) := (Claimed(env, s, q, now).0, Claimed(env, s, q, now).1.operation);
            && q.sessionId in s.sessions && q.sessionId in t.sessions
            && op.fencing == t.sessions[q.sessionId].fencing == s.sessions[q.sessionId].fencing + 1
            && t.sessions[q.sessionId].active == Some(op.id) && op.key == q.key && op.sessionId == q.sessionId
            && op.leaseExpires == Some(now + q.lease)
            && forall id | id in s.operations && s.operations[id].sessionId == q.sessionId ::
                 s.operations[id].fencing < op.fencing
  {
    hide Inv, IsHash, Lower, Chain, OperationKey, IsId;
    if OperationKey(q.sessionId, q.key) in s.byKey { FoundByKey(s, q); }
    SessionAt(s, q.sessionId);
    forall id | id in s.operations ensures OperationOk(s, id) { OperationAt(s, id); }
  }

  /** Once an operation is finished, with a turn or without, every later claim of its key
      with the same request gets the stored response and changes nothing; with another
      request the key is refused. */
  lemma ReplayForever(env: Env, s: State, events: seq<Event>, id: string, q: ClaimInput, now: int)
    requires Inv(s) && id in s.operations && !s.operations[id].status.Processing?
    requires q.sessionId == s.operations[id].sessionId && q.key == s.operations[id].key
    requires IsTime(now) && ValidClaim(q) && IsSafeInteger(now + q.lease)
    ensures var t, op := Exec(env, s, events), s.operations[id];
            && id in t.operations && t.operations[id] == op && op.response.Some?
            && Claimed(env, t, q, now) ==
               (t, if Lower(q.requestHash) == op.requestHash && q.expectedRevision == op.expectedRevision
                   then Replay(op, op.response.value) else KeyReused(id))
  {
    hide Inv, Exec, Forward, IsId, IsHash, Lower, OperationKey, ClaimNew;
    ExecInv(env, s, events);
    var t := Exec(env, s, events);
    OperationStays(s, t, id);
    OperationAt(s, id);
    OperationAt(t, id);
  }

  /** An operation that is known can always be claimed again when its lease has run out:
      no other operation can have become active, and the revision has not moved. */
  lemma ExpiredIsReclaimed(env: Env, s: State, id: string, q: ClaimInput, now: int)
    requires Inv(s) && id in s.operations && s.operations[id].status.Processing?
    requires q.sessionId == s.operations[id].sessionId && q.key == s.operations[id].key
    requires Lower(q.requestHash) == s.operations[id].requestHash
        && q.expectedRevision == s.operations[id].expectedRevision
    requires IsTime(now) && ValidClaim(q) && IsSafeInteger(now + q.lease)
    ensures var op := s.operations[id];
            q.sessionId in s.sessions &&
            match Claimed(env, s, q, now).1
            case StillProcessing(o) => o == op && op.leaseExpires.Some? && now < op.leaseExpires.value
            case Acquired(o, again) => again && o.id == id && (op.leaseExpires.Some? ==> now >= op.leaseExpires.value)
            case ClaimInvalid => s.sessions[q.sessionId].fencing == MAX_SAFE_INTEGER
            case _ => false
  {
    hide Inv, IsId, IsHash, Lower, OperationKey, Chain;
    OperationAt(s, id);
    SessionAt(s, q.sessionId);
  }

  /** Nobody claims this key, and whoever renews, commits or finishes comes after the lease. */
  predicate Idle(e: Event, op: Operation, expires: int) {
    match e
    case Claim(q, _) => !(q.sessionId == op.sessionId && q.key == op.key)
    case Renew(_, _, now) => now >= expires
    case Commit(_, now) => now >= expires
    case Finish(_, _, _, now) => now >= expires
  }

  predicate Blocked(s: State, op: Operation) {
    && op.id in s.operations && s.operations[op.id] == op && op.status.Processing?
    && op.sessionId in s.sessions && s.sessions[op.sessionId].active == Some(op.id)
  }

  lemma BlockedStep(env: Env, s: State, op: Operation, expires: int, e: Event)
    requires Inv(s) && Blocked(s, op) && op.leaseExpires == Some(expires) && Idle(e, op, expires)
    ensures Blocked(Step(env, s, e), op)
    ensures e.Claim? && e.claim.sessionId == op.sessionId ==> !Claimed(env, s, e.claim, e.now).1.Acquired?
  {
    hide Inv, IsHash, IsId, Lower, Chain, IsWorld, TurnExists, OperationKey;
    OperationAt(s, op.id);
    SessionAt(s, op.sessionId);
    match e
    case Claim(q, now) =>
      if IsId(q.sessionId) && OperationKey(q.sessionId, q.key) in s.byKey {
        FoundByKey(s, q);
        OperationAt(s, s.byKey[OperationKey(q.sessionId, q.key)]);
      }
    case Renew(h, lease, now) => if Refusal(s, h, None, now).None? { HolderIsActive(s, h, None, now); }
    case Commit(q, now) =>
      if Refusal(s, q.holder, Some(q.revision), now).None? { HolderIsActive(s, q.holder, Some(q.revision), now); }
    case Finish(h, revision, response, now) =>
      if Refusal(s, h, Some(revision), now).None? { HolderIsActive(s, h, Some(revision), now); }
  }

  /** The lease ends the hold of a request on its operation, not the hold of the operation
      on its session: after a crash no other key can be acquired in the session until the
      same key is claimed again, however long the lease has run out. */
  lemma {:induction false} AbandonedBlocks(env: Env, s: State, op: Operation, expires: int, events: seq<Event>,
      q: ClaimInput, now: int)
    requires Inv(s) && Blocked(s, op) && op.leaseExpires == Some(expires)
    requires forall i | 0 <= i < |events| :: Idle(events[i], op, expires)
    requires q.sessionId == op.sessionId && q.key != op.key
    ensures var t := Exec(env, s, events); Blocked(t, op) && !Claimed(env, t, q, now).1.Acquired?
    decreases |events|
  {
    hide Inv, Step, Blocked, Claimed;
    if events == [] {
      BlockedStep(env, s, op, expires, Claim(q, now));
    } else {
      StepInv(env, s, events[0]);
      BlockedStep(env, s, op, expires, events[0]);
      AbandonedBlocks(env, Step(env, s, events[0]), op, expires, events[1..], q, now);
    }
  }

  // ----- what each call answers and leaves

  /** What the shared checks of a holder answer, in the order of the server. The revision of
      a session and of the operation that is being processed agree, so a conflict is about
      what the caller expects; an operation that is being processed is always active. */
  lemma RefusalMeans(s: State, h: Holder, revision: Option<int>, now: int)
    requires Inv(s)
    ensures var refusal := Refusal(s, h, revision, now);
            if h.sessionId !in s.sessions then refusal == Some(SessionNotFound)
            else if h.operationId !in s.operations || s.operations[h.operationId].sessionId != h.sessionId then
              refusal == Some(OperationNotFound)
            else
              var (session, op) := (s.sessions[h.sessionId], s.operations[h.operationId]);
              if !op.status.Processing? then refusal == Some(NotProcessing)
              else if revision.Some? && op.expectedRevision != revision.value then
                refusal == Some(RevisionConflict(session.revision))
              else if session.fencing != h.token then refusal == Some(StaleToken)
              else if op.leaseExpires.None? || now >= op.leaseExpires.value then refusal == Some(LeaseExpired)
              else refusal.None?
  {
    hide Inv, Chain, OperationKey, IsId;
    if h.operationId in s.operations { OperationAt(s, h.operationId); }
    if h.sessionId in s.sessions { SessionAt(s, h.sessionId); }
  }

  lemma PassesExactly(s: State, h: Holder, revision: Option<int>, now: int)
    requires Inv(s)
    ensures Refusal(s, h, revision, now).None?
            <==> IsLatest(s, h, now) && (revision.Some? ==> s.sessions[h.sessionId].revision == revision.value)
  {
    RefusalMeans(s, h, revision, now);
    hide Inv, Chain, OperationKey, IsId, Refusal;
    if h.operationId in s.operations { OperationAt(s, h.operationId); }
    if h.sessionId in s.sessions { SessionAt(s, h.sessionId); }
  }

  /** The candidate is a world of the next revision. */
  predicate CandidateFits(q: CommitInput) {
    && q.candidate.revision == q.revision + 1 <= MAX_SAFE_INTEGER
    && 0 <= q.candidate.elapsedSeconds <= MAX_SAFE_INTEGER && ValidState(q.candidate)
    && forall r | r in q.candidate.resources :: InBounds(r)
  }

  /** The turn is new, and it is the turn of this operation from this revision to the next. */
  predicate TurnFits(s: State, q: CommitInput) {
    && IsId(q.turn.turnId) && IsHash(q.turn.stateHash)
    && q.turn.operationId == q.holder.operationId && q.turn.sessionId == q.holder.sessionId
    && q.turn.before == q.revision && q.turn.after == q.revision + 1
    && forall t | t in TurnsOf(s, q.holder.sessionId) :: t.turnId != q.turn.turnId
  }

  /** When a commit succeeds: exactly for the latest holder of its session before the end of
      its lease, at the revision of the session, with a fitting candidate and turn. */
  lemma CommitSucceedsExactly(env: Env, s: State, q: CommitInput, now: int)
    requires Inv(s)
    ensures Committed(env, s, q, now).1.Ok? <==>
              && 0 <= now <= MAX_SAFE_INTEGER && ValidHolder(q.holder) && 0 <= q.revision <= MAX_SAFE_INTEGER
              && IsLatest(s, q.holder, now) && s.sessions[q.holder.sessionId].revision == q.revision
              && CandidateFits(q) && TurnFits(s, q) && env.validResponse(q.response)
  {
    PassesExactly(s, q.holder, Some(q.revision), now);
    if 0 <= q.revision { CandidateChecked(q); }
    if IsLatest(s, q.holder, now) {
      LatestIsOwn(s, q.holder, now);
      TurnChecked(s, q, s.operations[q.holder.operationId]);
    }
    hide Inv, Refusal, IsWorld, CandidateFits, ValidHolder, TurnsOf, WithTurn, IsTurn, TurnExists, TurnFits;
  }

  lemma TurnChecked(s: State, q: CommitInput, op: Operation)
    requires op.id == q.holder.operationId && op.sessionId == q.holder.sessionId
    ensures TurnFits(s, q) <==>
              IsTurn(q.turn, op, q.revision) && !TurnExists(TurnsOf(s, q.holder.sessionId), q.turn.turnId)
  {
    hide IsId, IsHash, TurnsOf;
    var turns := TurnsOf(s, q.holder.sessionId);
    assert forall i | 0 <= i < |turns| :: turns[i] in turns;
  }

  /** What the latest holder at the right revision is refused for. */
  lemma HolderRefusedFor(env: Env, s: State, q: CommitInput, now: int)
    requires Inv(s) && IsTime(now) && ValidHolder(q.holder) && IsTime(q.revision)
    requires IsLatest(s, q.holder, now) && s.sessions[q.holder.sessionId].revision == q.revision
    ensures var result := Committed(env, s, q, now).1;
            && (result == Err(InvalidCandidate) <==> !CandidateFits(q))
            && (result == Err(InvalidTurn) <==> CandidateFits(q) && !TurnFits(s, q))
            && (result == Err(InvalidResponse) <==>
                  CandidateFits(q) && TurnFits(s, q) && !env.validResponse(q.response))
  {
    PassesExactly(s, q.holder, Some(q.revision), now);
    CandidateChecked(q);
    LatestIsOwn(s, q.holder, now);
    TurnChecked(s, q, s.operations[q.holder.operationId]);
    hide Inv, Refusal, IsWorld, CandidateFits, ValidHolder, TurnsOf, WithTurn, IsTurn, TurnExists, TurnFits, IsLatest;
  }

  lemma CandidateChecked(q: CommitInput)
    requires 0 <= q.revision
    ensures CandidateFits(q) <==>
              q.revision != MAX_SAFE_INTEGER && IsWorld(q.candidate) && q.candidate.revision == q.revision + 1
  {
    hide ValidState, InBounds;
  }

  lemma LatestIsOwn(s: State, h: Holder, now: int)
    requires Inv(s) && IsLatest(s, h, now)
    ensures s.operations[h.operationId].sessionId == h.sessionId && s.operations[h.operationId].id == h.operationId
  {
    SessionAt(s, h.sessionId);
    OperationAt(s, h.operationId);
  }

  /** What a successful commit leaves: the candidate is the state of the session, the turn is
      its last one, the operation is completed with the response, and nothing else changed. */
  lemma CommitInstalls(env: Env, s: State, q: CommitInput, now: int)
    requires Inv(s) && Committed(env, s, q, now).1.Ok?
    ensures var (t, op) := (Committed(env, s, q, now).0, Committed(env, s, q, now).1.operation);
            var (sid, oid) := (q.holder.sessionId, q.holder.operationId);
            && sid in s.sessions && sid in s.turns && oid in s.operations
            && t.sessions.Keys == s.sessions.Keys && t.operations.Keys == s.operations.Keys
            && t.turns.Keys == s.turns.Keys && t.byKey == s.byKey && t.ordinal == s.ordinal
            && t.sessions[sid].state == q.candidate && t.sessions[sid].revision == q.candidate.revision
            && t.sessions[sid].active == None && t.sessions[sid].fencing == s.sessions[sid].fencing
            && (forall x | x in s.sessions && x != sid :: t.sessions[x] == s.sessions[x])
            && t.turns[sid] == s.turns[sid] + [q.turn]
            && (forall x | x in s.turns && x != sid :: t.turns[x] == s.turns[x])
            && t.operations[oid] == op && op.status == Completed && op.response == Some(q.response)
            && op.turnId == Some(q.turn.turnId) && op.leaseExpires == None
            && op.fencing == s.operations[oid].fencing && SameRequest(s.operations[oid], op)
            && (forall x | x in s.operations && x != oid :: t.operations[x] == s.operations[x])
  {
    hide Inv, Refusal, IsId, IsHash, IsWorld, ValidHolder, IsTurn, TurnExists, OperationKey, Chain;
    HolderIsActive(s, q.holder, Some(q.revision), now);
  }

  /** When an operation finishes without a turn. */
  lemma FinishSucceedsExactly(env: Env, s: State, h: Holder, revision: int, response: Json, now: int)
    requires Inv(s)
    ensures Finished(env, s, h, revision, response, now).1.Ok? <==>
              && 0 <= now <= MAX_SAFE_INTEGER && ValidHolder(h) && 0 <= revision <= MAX_SAFE_INTEGER
              && IsLatest(s, h, now) && s.sessions[h.sessionId].revision == revision && env.validResponse(response)
  {
    PassesExactly(s, h, Some(revision), now);
    hide Inv, Refusal, IsId, ValidHolder, OperationKey, WithoutTurn;
  }

  /** What that leaves: the response is stored and the session is free again, with the state,
      the revision and the turns it had. */
  lemma FinishLeaves(env: Env, s: State, h: Holder, revision: int, response: Json, now: int)
    requires Inv(s) && Finished(env, s, h, revision, response, now).1.Ok?
    ensures var (t, op) := (Finished(env, s, h, revision, response, now).0,
                            Finished(env, s, h, revision, response, now).1.operation);
            && h.sessionId in s.sessions && h.operationId in s.operations
            && t.turns == s.turns && t.byKey == s.byKey && t.ordinal == s.ordinal
            && t.sessions.Keys == s.sessions.Keys && t.operations.Keys == s.operations.Keys
            && (forall x | x in s.sessions && x != h.sessionId :: t.sessions[x] == s.sessions[x])
            && t.sessions[h.sessionId].state == s.sessions[h.sessionId].state
            && t.sessions[h.sessionId].revision == s.sessions[h.sessionId].revision
            && t.sessions[h.sessionId].active == None
            && t.sessions[h.sessionId].fencing == s.sessions[h.sessionId].fencing
            && (forall x | x in s.operations && x != h.operationId :: t.operations[x] == s.operations[x])
            && t.operations[h.operationId] == op && op.status == FinishedWithoutTurn
            && op.response == Some(response) && op.turnId == None && op.leaseExpires == None
            && op.fencing == s.operations[h.operationId].fencing && SameRequest(s.operations[h.operationId], op)
  {
    hide Inv, Refusal, IsId, ValidHolder, OperationKey;
    HolderIsActive(s, h, Some(revision), now);
  }

  /** When a lease is renewed. */
  lemma RenewSucceedsExactly(s: State, h: Holder, lease: int, now: int)
    requires Inv(s)
    ensures Renewed(s, h, lease, now).1.Ok? <==>
              && 0 <= now && now + lease <= MAX_SAFE_INTEGER && 1 <= lease <= 300_000
              && ValidHolder(h) && IsLatest(s, h, now)
  {
    PassesExactly(s, h, None, now);
    hide Inv, Refusal, IsId, ValidHolder, OperationKey;
  }

  /** What that leaves: a new end of the lease, and everything else as before. */
  lemma RenewLeaves(s: State, h: Holder, lease: int, now: int)
    requires Inv(s) && Renewed(s, h, lease, now).1.Ok?
    ensures var (t, op) := (Renewed(s, h, lease, now).0, Renewed(s, h, lease, now).1.operation);
            && h.operationId in s.operations
            && t.sessions == s.sessions && t.turns == s.turns && t.byKey == s.byKey && t.ordinal == s.ordinal
            && t.operations.Keys == s.operations.Keys
            && (forall x | x in s.operations && x != h.operationId :: t.operations[x] == s.operations[x])
            && t.operations[h.operationId] == op && op.leaseExpires == Some(now + lease)
            && op.status == Processing && op.turnId == None && op.response == None
            && op.fencing == s.operations[h.operationId].fencing && SameRequest(s.operations[h.operationId], op)
  {
    hide Inv, Refusal, IsId, ValidHolder, OperationKey;
    HolderIsActive(s, h, None, now);
    OperationAt(s, h.operationId);
  }

  /** The same session, key, request and expected revision. */
  predicate SameClaim(q: ClaimInput, op: Operation) {
    && op.sessionId == q.sessionId && op.key == q.key && op.requestHash == Lower(q.requestHash)
    && op.expectedRevision == q.expectedRevision
  }

  /** A claim is malformed, whatever the store holds, exactly for these reasons. */
  lemma MalformedClaim(env: Env, s: State, q: ClaimInput, now: int)
    ensures Claimed(env, s, q, now).1 == ClaimClockFailed <==> !(0 <= now <= MAX_SAFE_INTEGER)
    ensures 0 <= now <= MAX_SAFE_INTEGER
            && !(&& IsId(q.sessionId) && IsId(q.key) && IsHash(q.requestHash)
                 && 0 <= q.expectedRevision <= MAX_SAFE_INTEGER && 1 <= q.lease <= 300_000
                 && now + q.lease <= MAX_SAFE_INTEGER) ==>
              Claimed(env, s, q, now) == (s, ClaimInvalid)
    ensures 0 <= now <= MAX_SAFE_INTEGER
            && IsId(q.sessionId) && IsId(q.key) && IsHash(q.requestHash)
            && 0 <= q.expectedRevision <= MAX_SAFE_INTEGER && 1 <= q.lease <= 300_000
            && now + q.lease <= MAX_SAFE_INTEGER ==>
              (Claimed(env, s, q, now).1 == ClaimSessionNotFound <==> q.sessionId !in s.sessions)
  {
    hide IsId, IsHash, Lower, OperationKey;
  }

  /** What a claim under a known key answers. */
  lemma KnownKeyAnswers(env: Env, s: State, q: ClaimInput, now: int, op: Operation)
    requires Inv(s) && op.id in s.operations && s.operations[op.id] == op
    requires op.sessionId == q.sessionId && op.key == q.key
    requires IsTime(now) && ValidClaim(q) && IsSafeInteger(now + q.lease)
    ensures q.sessionId in s.sessions
    ensures var (t, answer) := Claimed(env, s, q, now);
            var over := op.leaseExpires.Some? ==> now >= op.leaseExpires.value;
            && (answer == KeyReused(op.id) <==> !SameClaim(q, op))
            && (answer.Replay? <==> SameClaim(q, op) && !op.status.Processing?)
            && (answer.Replay? ==> answer.operation == op && Some(answer.response) == op.response)
            && (answer == StillProcessing(op) <==> SameClaim(q, op) && op.status.Processing? && !over)
            && (answer.Acquired? <==>
                  && SameClaim(q, op) && op.status.Processing? && over
                  && s.sessions[q.sessionId].fencing != MAX_SAFE_INTEGER)
            && (answer.Acquired? ==> answer.reacquired)
            && (!answer.Acquired? ==> t == s)
  {
    hide Inv, IsId, IsHash, Lower, OperationKey, Chain;
    OperationAt(s, op.id);
    SessionAt(s, q.sessionId);
  }

  /** What a claim under a new key answers. */
  lemma NewKeyAnswers(env: Env, s: State, q: ClaimInput, now: int)
    requires Inv(s) && OperationKey(q.sessionId, q.key) !in s.byKey
    requires IsTime(now) && ValidClaim(q) && IsSafeInteger(now + q.lease)
    ensures var (t, answer) := Claimed(env, s, q, now);
            && (answer.ClaimSessionNotFound? <==> q.sessionId !in s.sessions)
            && (q.sessionId in s.sessions ==>
                  var (session, id) := (s.sessions[q.sessionId], env.newId(s.ordinal));
                  var free := session.revision == q.expectedRevision && session.active.None?;
                  && (answer == ClaimRevisionConflict(session.revision) <==> session.revision != q.expectedRevision)
                  && (session.revision == q.expectedRevision && session.active.Some?
                      <==> exists holder :: session.active == Some(holder) && answer == ActionInProgress(holder))
                  && (answer.Acquired? <==>
                        free && session.fencing != MAX_SAFE_INTEGER && IsId(id) && id !in s.operations)
                  && (answer.Acquired? ==> !answer.reacquired))
  {
    hide Inv, IsId, IsHash, Lower, OperationKey, Chain;
  }

  /** What an acquired claim leaves: a lease of the length asked for, with a token one above
      the last one, on an operation that carries the request. */
  lemma ClaimAcquires(env: Env, s: State, q: ClaimInput, now: int)
    requires Inv(s) && Claimed(env, s, q, now).1.Acquired?
    ensures var (t, op) := (Claimed(env, s, q, now).0, Claimed(env, s, q, now).1.operation);
            && q.sessionId in s.sessions && t.sessions.Keys == s.sessions.Keys
            && op.id in t.operations && t.operations[op.id] == op
            && SameClaim(q, op) && op.status == Processing && op.turnId == None && op.response == None
            && op.leaseExpires == Some(now + q.lease) && op.fencing == s.sessions[q.sessionId].fencing + 1
            && t.sessions[q.sessionId].active == Some(op.id) && t.sessions[q.sessionId].fencing == op.fencing
            && t.sessions[q.sessionId].state == s.sessions[q.sessionId].state
            && t.sessions[q.sessionId].revision == s.sessions[q.sessionId].revision == q.expectedRevision
            && (forall x | x in s.sessions && x != q.sessionId :: t.sessions[x] == s.sessions[x])
            && t.operations.Keys == s.operations.Keys + {op.id}
            && (forall x | x in s.operations && x != op.id :: t.operations[x] == s.operations[x])
            && t.turns == s.turns
            && t.byKey.Keys == s.byKey.Keys + {OperationKey(q.sessionId, q.key)}
            && t.byKey[OperationKey(q.sessionId, q.key)] == op.id
            && (forall k | k in s.byKey :: t.byKey[k] == s.byKey[k])
  {
    hide Inv, IsHash, Lower, Chain, OperationKey, IsId;
    if OperationKey(q.sessionId, q.key) in s.byKey {
      FoundByKey(s, q);
      OperationAt(s, s.byKey[OperationKey(q.sessionId, q.key)]);
    }
    SessionAt(s, q.sessionId);
  }

  // ----- the history of a session

  /** The commits in a session that were answered with success, in their order. */
  function Commits(env: Env, s: State, events: seq<Event>, sid: string): seq<CommitInput>
    decreases |events|
  {
    if events == [] then []
    else
      (if events[0].Commit? && events[0].commit.holder.sessionId == sid
          && Committed(env, s, events[0].commit, events[0].now).1.Ok? then [events[0].commit] else [])
      + Commits(env, Step(env, s, events[0]), events[1..], sid)
  }

  lemma StepHistory(env: Env, s: State, e: Event, sid: string)
    requires Inv(s) && sid in s.sessions
    ensures sid in s.turns && sid in Step(env, s, e).sessions && sid in Step(env, s, e).turns
    ensures var t := Step(env, s, e);
            if e.Commit? && e.commit.holder.sessionId == sid && Committed(env, s, e.commit, e.now).1.Ok? then
              t.sessions[sid].state == e.commit.candidate && t.turns[sid] == s.turns[sid] + [e.commit.turn]
            else
              t.sessions[sid].state == s.sessions[sid].state && t.turns[sid] == s.turns[sid]
  {
    SessionAt(s, sid);
    hide Inv, Claimed, Renewed, Committed, Finished, Chain, OperationKey;
    match e
    case Claim(q, now) => ClaimHistory(env, s, q, now, sid);
    case Renew(h, lease, now) => RenewHistory(s, h, lease, now, sid);
    case Commit(q, now) => CommitHistory(env, s, q, now, sid);
    case Finish(h, revision, response, now) => FinishHistory(env, s, h, revision, response, now, sid);
  }

  lemma ClaimHistory(env: Env, s: State, q: ClaimInput, now: int, sid: string)
    requires Inv(s) && sid in s.sessions
    ensures var t := Claimed(env, s, q, now).0;
            sid in t.sessions && t.sessions[sid].state == s.sessions[sid].state && t.turns == s.turns
  {
    hide Inv, IsHash, Lower, OperationKey, IsId;
  }

  lemma RenewHistory(s: State, h: Holder, lease: int, now: int, sid: string)
    requires Inv(s) && sid in s.sessions
    ensures var t := Renewed(s, h, lease, now).0; t.sessions == s.sessions && t.turns == s.turns
  {
    hide Inv, Refusal, IsId;
  }

  lemma CommitHistory(env: Env, s: State, q: CommitInput, now: int, sid: string)
    requires Inv(s) && sid in s.sessions && sid in s.turns
    ensures var t := Committed(env, s, q, now).0;
            && sid in t.sessions && sid in t.turns
            && if Committed(env, s, q, now).1.Ok? && q.holder.sessionId == sid then
                 t.sessions[sid].state == q.candidate && t.turns[sid] == s.turns[sid] + [q.turn]
               else t.sessions[sid].state == s.sessions[sid].state && t.turns[sid] == s.turns[sid]
  {
    if Committed(env, s, q, now).1.Ok? {
      CommitInstalls(env, s, q, now);
    } else {
      RefusedKeeps(env, s, q, q.holder, 1, 0, q.response, now);
    }
  }

  lemma FinishHistory(env: Env, s: State, h: Holder, revision: int, response: Json, now: int, sid: string)
    requires Inv(s) && sid in s.sessions
    ensures var t := Finished(env, s, h, revision, response, now).0;
            sid in t.sessions && t.sessions[sid].state == s.sessions[sid].state && t.turns == s.turns
  {
    hide Inv, Refusal, IsId;
  }

  function TurnsIn(commits: seq<CommitInput>): seq<Turn> {
    if commits == [] then [] else [commits[0].turn] + TurnsIn(commits[1..])
  }

  /** Over every run: the state of a session is the candidate of its last successful commit,
      or the one it began with; its turns are those of its successful commits, in their order. */
  lemma {:induction false} StateIsLastCommit(env: Env, s: State, events: seq<Event>, sid: string)
    requires Inv(s) && sid in s.sessions
    ensures var (t, commits) := (Exec(env, s, events), Commits(env, s, events, sid));
            && sid in s.turns && sid in t.sessions && sid in t.turns
            && t.sessions[sid].state ==
               (if commits == [] then s.sessions[sid].state else commits[|commits| - 1].candidate)
            && t.turns[sid] == s.turns[sid] + TurnsIn(commits)
    decreases |events|
  {
    hide Inv, Step, Committed, SessionOk;
    SessionHasTurns(s, sid);
    if events != [] {
      var e, s1 := events[0], Step(env, s, events[0]);
      var later := Commits(env, s1, events[1..], sid);
      StepInv(env, s, e);
      StepHistory(env, s, e, sid);
      StateIsLastCommit(env, s1, events[1..], sid);
      if e.Commit? && e.commit.holder.sessionId == sid && Committed(env, s, e.commit, e.now).1.Ok? {
        OneMoreCommit(s.turns[sid], e.commit, later);
      } else {
        assert Commits(env, s, events, sid) == later;
      }
    }
  }

  lemma OneMoreCommit(turns: seq<Turn>, q: CommitInput, later: seq<CommitInput>)
    ensures turns + TurnsIn([q] + later) == turns + [q.turn] + TurnsIn(later)
  {
    assert ([q] + later)[0] == q && ([q] + later)[1..] == later;
  }

  lemma SessionHasTurns(s: State, sid: string)
    requires Inv(s) && sid in s.sessions
    ensures sid in s.turns
  {
    SessionAt(s, sid);
  }

  // ----- the store

  class MemoryRuntimeStorage {
    const env: Env
    var sessions: map<string, Session>
    var operations: map<string, Operation>
    var byKey: map<string, string>
    var turns: map<string, seq<Turn>>
    var ordinal: nat

    ghost function Now(): State
      reads this
    {
      State(sessions, operations, byKey, turns, ordinal)
    }

    constructor (env: Env, seeds: map<string, WorldState>)
      ensures this.env == env && Init(Now()) && Inv(Now()) && sessions.Keys == seeds.Keys
      ensures forall sid | sid in seeds :: sessions[sid].state == seeds[sid]
    {
      this.env := env;
      sessions := map sid | sid in seeds :: Session(seeds[sid], seeds[sid].revision, None, 0);
      turns := map sid | sid in seeds :: [];
      operations, byKey, ordinal := map[], map[], 1;
      new;
      InitInv(Now());
    }

    method ClaimOperation(q: ClaimInput, now: int) returns (result: ClaimResult)
      requires Inv(Now())
      modifies this
      ensures (Now(), result) == Claimed(env, old(Now()), q, now) && Inv(Now())
    {
      hide Inv, Forward, IsId, IsHash, OperationKey, Lower;
      ClaimInv(env, Now(), q, now);
      if !IsTime(now) { return ClaimClockFailed; }
      if !ValidClaim(q) || !IsSafeInteger(now + q.lease) { return ClaimInvalid; }
      if q.sessionId !in sessions { return ClaimSessionNotFound; }
      var key := OperationKey(q.sessionId, q.key);
      if key !in byKey {
        result := this.ClaimNewKey(q, now);
      } else if byKey[key] !in operations {
        return ClaimInvalid;
      } else {
        result := this.ClaimKnownKey(q, now, operations[byKey[key]]);
      }
    }

    method ClaimKnownKey(q: ClaimInput, now: int, existing: Operation) returns (result: ClaimResult)
      requires q.sessionId in sessions
      modifies this
      ensures (Now(), result) == ClaimAgain(old(Now()), q, now, existing)
    {
      hide Lower;
      var session := sessions[q.sessionId];
      if existing.requestHash != Lower(q.requestHash) || existing.expectedRevision != q.expectedRevision {
        return KeyReused(existing.id);
      }
      if !existing.status.Processing? {
        return if existing.response.None? then ClaimInvalid else Replay(existing, existing.response.value);
      }
      if existing.leaseExpires.Some? && now < existing.leaseExpires.value { return StillProcessing(existing); }
      if session.revision != q.expectedRevision { return ClaimRevisionConflict(session.revision); }
      if session.active.Some? && session.active.value != existing.id { return ActionInProgress(session.active.value); }
      if session.fencing == MAX_SAFE_INTEGER { return ClaimInvalid; }
      var held := existing.(leaseExpires := Some(now + q.lease), fencing := session.fencing + 1);
      sessions := sessions[q.sessionId := session.(active := Some(held.id), fencing := held.fencing)];
      operations := operations[held.id := held];
      result := Acquired(held, true);
    }

    method ClaimNewKey(q: ClaimInput, now: int) returns (result: ClaimResult)
      requires q.sessionId in sessions
      modifies this
      ensures (Now(), result) == ClaimNew(env, old(Now()), q, now)
    {
      hide Lower, IsId, OperationKey;
      var session := sessions[q.sessionId];
      if session.revision != q.expectedRevision { return ClaimRevisionConflict(session.revision); }
      if session.active.Some? { return ActionInProgress(session.active.value); }
      if session.fencing == MAX_SAFE_INTEGER { return ClaimInvalid; }
      var id := env.newId(ordinal);
      ordinal := ordinal + 1;
      if !IsId(id) || id in operations { return ClaimInvalid; }
      var op := Operation(id, q.sessionId, q.key, Lower(q.requestHash), q.expectedRevision, Processing,
                          Some(now + q.lease), session.fencing + 1, None, None);
      sessions := sessions[q.sessionId := session.(active := Some(id), fencing := op.fencing)];
      operations := operations[id := op];
      byKey := byKey[OperationKey(q.sessionId, q.key) := id];
      result := Acquired(op, false);
    }

    method RenewLease(h: Holder, lease: int, now: int) returns (result: Result)
      requires Inv(Now())
      modifies this
      ensures (Now(), result) == Renewed(old(Now()), h, lease, now) && Inv(Now())
    {
      hide Inv, Forward, IsId, Refusal;
      RenewInv(Now(), h, lease, now);
      if !IsTime(now) { return Err(ClockFailed); }
      if !ValidHolder(h) || !IsLease(lease) || !IsSafeInteger(now + lease) { return Err(InvalidRequest); }
      var refusal := Refuse(h, None, now);
      if refusal.Some? { return Err(refusal.value); }
      var op := operations[h.operationId].(leaseExpires := Some(now + lease));
      operations := operations[h.operationId := op];
      result := Ok(op);
    }

    method CommitTurn(q: CommitInput, now: int) returns (result: Result)
      requires Inv(Now())
      modifies this
      ensures (Now(), result) == Committed(env, old(Now()), q, now) && Inv(Now())
    {
      hide Inv, Forward, IsId, Refusal, IsWorld, IsTurn, TurnExists, ValidHolder, IsTime;
      CommitInv(env, Now(), q, now);
      ghost var before := Now();
      if !IsTime(now) { return Err(ClockFailed); }
      if !ValidHolder(q.holder) || !IsTime(q.revision) { return Err(InvalidRequest); }
      var refusal := Refuse(q.holder, Some(q.revision), now);
      if refusal.Some? { return Err(refusal.value); }
      if q.revision == MAX_SAFE_INTEGER || !IsWorld(q.candidate) || q.candidate.revision != q.revision + 1 {
        return Err(InvalidCandidate);
      }
      var (sid, op) := (q.holder.sessionId, operations[q.holder.operationId]);
      var previous := if sid in turns then turns[sid] else [];
      if !IsTurn(q.turn, op, q.revision) || TurnExists(previous, q.turn.turnId) { return Err(InvalidTurn); }
      if !env.validResponse(q.response) { return Err(InvalidResponse); }
      op := op.(status := Completed, leaseExpires := None, turnId := Some(q.turn.turnId), response := Some(q.response));
      var session := sessions[sid].(state := q.candidate, revision := q.candidate.revision, active := None);
      sessions := sessions[sid := session];
      operations := operations[q.holder.operationId := op];
      turns := turns[sid := previous + [q.turn]];
      assert Now() == WithTurn(before, q);
      result := Ok(op);
    }

    method FinishOperationWithoutTurn(h: Holder, revision: int, response: Json, now: int) returns (result: Result)
      requires Inv(Now())
      modifies this
      ensures (Now(), result) == Finished(env, old(Now()), h, revision, response, now) && Inv(Now())
    {
      hide Inv, Forward, IsId, Refusal, ValidHolder, IsTime;
      FinishInv(env, Now(), h, revision, response, now);
      ghost var before := Now();
      if !IsTime(now) { return Err(ClockFailed); }
      if !ValidHolder(h) || !IsTime(revision) { return Err(InvalidRequest); }
      var refusal := Refuse(h, Some(revision), now);
      if refusal.Some? { return Err(refusal.value); }
      if !env.validResponse(response) { return Err(InvalidResponse); }
      var op := operations[h.operationId].(
        status := FinishedWithoutTurn, leaseExpires := None, turnId := None, response := Some(response));
      sessions := sessions[h.sessionId := sessions[h.sessionId].(active := None)];
      operations := operations[h.operationId := op];
      assert Now() == WithoutTurn(before, h, response);
      result := Ok(op);
    }

    /** The checks that renewing, committing and finishing share. */
    method Refuse(h: Holder, revision: Option<int>, now: int) returns (refusal: Option<Failure>)
      ensures refusal == Refusal(Now(), h, revision, now)
      ensures refusal.None? ==> h.sessionId in sessions && h.operationId in operations
    {
      if h.sessionId !in sessions { return Some(SessionNotFound); }
      if h.operationId !in operations || operations[h.operationId].sessionId != h.sessionId {
        return Some(OperationNotFound);
      }
      var session, op := sessions[h.sessionId], operations[h.operationId];
      if !op.status.Processing? { return Some(NotProcessing); }
      if revision.Some? && (session.revision != revision.value || op.expectedRevision != revision.value) {
        return Some(RevisionConflict(session.revision));
      }
      if session.active != Some(op.id) { return Some(NotActive); }
      if op.fencing != h.token { return Some(StaleToken); }
      if op.leaseExpires.None? || now >= op.leaseExpires.value { return Some(LeaseExpired); }
      refusal := None;
    }
  }
}
