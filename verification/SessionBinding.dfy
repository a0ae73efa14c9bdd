/** Published sessions: the binding of a session to its project and release is written
    before the session itself, and removed again when the session cannot be created.
    The two stores share no transaction. Creators, publishers and resolvers interleave
    between any two store calls; a crashed creator takes no further step. */
module SessionBinding {
  import opened Wrappers
  import opened Strings

  datatype Release = Release(questId: string, releaseId: string, contentHash: string)

  datatype Binding = Binding(sessionId: string, projectId: string, release: Release)

  predicate IsBinding(b: Binding) {
    IsId(b.sessionId) && IsId(b.projectId) && IsId(b.release.questId) && IsId(b.release.releaseId)
        && IsHash(b.release.contentHash)
  }

  function LowerRelease(r: Release): Release {
    r.(contentHash := Lower(r.contentHash))
  }

  /** sameBinding: letter case of the hash does not matter. */
  predicate SameBinding(a: Binding, b: Binding) {
    a.sessionId == b.sessionId && a.projectId == b.projectId && LowerRelease(a.release) == LowerRelease(b.release)
  }

  // ----- the binding stores

  datatype CreateResult = Created(binding: Binding) | Replay(binding: Binding) | Conflict | InvalidRequest

  type Bindings = map<string, Binding>

  /** The SQLite table keeps the hash in lower case, the memory store keeps it as it is. */
  function Stored(lowers: bool, b: Binding): Binding {
    if lowers then b.(release := LowerRelease(b.release)) else b
  }

  function CreateIn(lowers: bool, bindings: Bindings, b: Binding): (Bindings, CreateResult) {
    if !IsBinding(b) then (bindings, InvalidRequest)
    else if b.sessionId in bindings then
      (bindings, if SameBinding(bindings[b.sessionId], b) then Replay(bindings[b.sessionId]) else Conflict)
    else (bindings[b.sessionId := Stored(lowers, b)], Created(b))
  }

  class BindingStore {
    const lowers: bool
    var bindings: Bindings

    ghost predicate Valid()
      reads this
    {
      forall id | id in bindings :: IsId(id) && IsBinding(bindings[id]) && bindings[id].sessionId == id
    }

    constructor (lowers: bool)
      ensures Valid() && bindings == map[] && this.lowers == lowers
    {
      this.lowers := lowers;
      bindings := map[];
    }

    method CreateBinding(b: Binding) returns (r: CreateResult)
      requires Valid()
      modifies this
      ensures Valid()
      ensures (bindings, r) == CreateIn(lowers, old(bindings), b)
    {
      if !IsBinding(b) { return InvalidRequest; }
      if b.sessionId in bindings {
        var existing := bindings[b.sessionId];
        return if SameBinding(existing, b) then Replay(existing) else Conflict;
      }
      LowerIdempotent(b.release.contentHash);
      bindings := bindings[b.sessionId := Stored(lowers, b)];
      r := Created(b);
    }

    method GetBinding(sessionId: string) returns (r: Option<Binding>)
      requires Valid()
      ensures r == if sessionId in bindings then Some(bindings[sessionId]) else None
    {
      if !IsId(sessionId) { return None; }
      r := if sessionId in bindings then Some(bindings[sessionId]) else None;
    }

    method RemoveBinding(sessionId: string) returns (removed: bool)
      requires Valid()
      modifies this
      ensures Valid()
      ensures removed == (sessionId in old(bindings)) && bindings == old(bindings) - {sessionId}
    {
      if !IsId(sessionId) { return false; }
      removed := sessionId in bindings;
      bindings := bindings - {sessionId};
    }
  }

  /** What creating a binding answers and leaves. A binding of the session that says the same
      is replayed, hash in either case; one that says anything else is a conflict. */
  lemma CreateAnswers(lowers: bool, bindings: Bindings, b: Binding)
    ensures var (after, result) := CreateIn(lowers, bindings, b);
            var (known, valid) := (b.sessionId in bindings, IsBinding(b));
            && (result == InvalidRequest <==> !valid)
            && (result == Created(b) <==> valid && !known)
            && (result.Replay? || result == Conflict ==> valid && known && after == bindings)
            && (result == InvalidRequest ==> after == bindings)
            && (valid && known ==>
                  var there := bindings[b.sessionId];
                  var same := && there.sessionId == b.sessionId && there.projectId == b.projectId
                              && there.release.questId == b.release.questId
                              && there.release.releaseId == b.release.releaseId
                              && Lower(there.release.contentHash) == Lower(b.release.contentHash);
                  (result == Replay(there) <==> same) && (result == Conflict <==> !same))
            && (valid && !known ==>
                  && after.Keys == bindings.Keys + {b.sessionId}
                  && (forall id | id in bindings :: after[id] == bindings[id])
                  && after[b.sessionId].sessionId == b.sessionId && after[b.sessionId].projectId == b.projectId
                  && after[b.sessionId].release.questId == b.release.questId
                  && after[b.sessionId].release.releaseId == b.release.releaseId
                  && after[b.sessionId].release.contentHash
                      == (if lowers then Lower(b.release.contentHash) else b.release.contentHash))
  {
    hide IsBinding, Lower;
  }

  /** Same sessions bound to the same releases, up to letter case of the hash. */
  ghost predicate Agree(a: Bindings, b: Bindings) {
    a.Keys == b.Keys && forall id | id in a :: SameBinding(a[id], b[id])
  }

  /** The two stores answer alike: whatever is created, looked up or removed, one agrees with the other. */
  lemma StoresAgree(a: Bindings, b: Bindings, x: Binding, y: Binding)
    requires Agree(a, b) && SameBinding(x, y)
    ensures var (a', r) := CreateIn(false, a, x);
            var (b', q) := CreateIn(true, b, y);
            && Agree(a', b') && r.Created? == q.Created? && r.Replay? == q.Replay? && r.Conflict? == q.Conflict?
            && Agree(a - {x.sessionId}, b - {x.sessionId})
  {
    LowerIdempotent(y.release.contentHash);
  }

  // ----- releases

  /** What the resolvers read of a release: `preflight` says whether the checks of the
      release authority, pure functions of the record, accept it. */
  datatype ReleaseRecord = ReleaseRecord(projectId: string, questId: string, releaseId: string,
                                         compiledContentHash: string, preflight: bool)

  datatype Server = Runtime | Authored

  datatype Key = Key(projectId: string, questId: string, releaseId: string)

  function KeyOf(r: ReleaseRecord): Key {
    Key(r.projectId, r.questId, r.releaseId)
  }

  /** materializePublishedRuntimeTemplate or resolveAuthoredScenarioRelease succeeds; the
      latter insists on a lower-case hash. */
  predicate Materializes(server: Server, r: ReleaseRecord) {
    r.preflight && (server.Authored? ==> IsLowerHash(r.compiledContentHash))
  }

  /** The release identity that a server pins: one lower-cases the hash, the other does not. */
  function Pinned(server: Server, r: ReleaseRecord): Release {
    Release(r.questId, r.releaseId, if server.Runtime? then Lower(r.compiledContentHash) else r.compiledContentHash)
  }

  function BindingFor(server: Server, sessionId: string, r: ReleaseRecord): Binding {
    Binding(sessionId, r.projectId, Pinned(server, r))
  }

  datatype Resolution =
    | Resolved(record: ReleaseRecord)
    | SessionNotFound
    | BindingNotFound
    | PinnedMismatch
    | ReleaseNotFound
    | PreflightFailed

  /** resolveSessionExecutionContext and resolveContext, on what their three reads returned. */
  function Resolve(server: Server, session: Option<Release>, binding: Option<Binding>,
      release: Option<ReleaseRecord>): Resolution {
    if session.None? then SessionNotFound
    else if binding.None? then BindingNotFound
    else if binding.value.release != session.value then PinnedMismatch
    else if release.None? then ReleaseNotFound
    else if server.Runtime? && Lower(release.value.compiledContentHash) != Lower(binding.value.release.contentHash)
        then PinnedMismatch
    else if server.Authored? && release.value.compiledContentHash != binding.value.release.contentHash
        then ReleaseNotFound
    else if !Materializes(server, release.value) then PreflightFailed
    else Resolved(release.value)
  }

  // ----- the protocol

  datatype Pc =
    | Begin
    | GotCurrent(releaseId: string)
    | Binds(record: ReleaseRecord)
    | Creates(record: ReleaseRecord)
    | RollsBack(record: ReleaseRecord)
    | Done(record: ReleaseRecord)
    | Refused

  /** The quest of a project, which has one movable current release. */
  datatype Slot = Slot(projectId: string, questId: string)

  datatype Creator = Creator(projectId: string, questId: string, sessionId: string, pc: Pc)

  /** `sessions` is the session store, which keeps hashes in lower case; `origin`
      records the release each session was created from. */
  datatype State = State(bindings: Bindings, sessions: map<string, Release>, releases: map<Key, ReleaseRecord>,
                         current: map<Slot, string>, creators: map<nat, Creator>,
                         origin: map<string, ReleaseRecord>)

  /** What the session store does when the session is not there yet. */
  datatype Outcome = Creates | Throws | Rejects

  datatype Event =
    | Advance(creator: nat, outcome: Outcome)
    | Publish(record: ReleaseRecord)
    | MovePointer(projectId: string, questId: string, releaseId: string)

  datatype Config = Config(server: Server, lowers: bool)

  function AdvanceCreator(c: Config, s: State, i: nat, outcome: Outcome): State
    requires i in s.creators
  {
    var t := s.creators[i];
    match t.pc
    case Begin =>
      var at := Slot(t.projectId, t.questId);
      s.(creators := s.creators[i := t.(pc := if at in s.current then GotCurrent(s.current[at]) else Refused)])
    case GotCurrent(releaseId) =>
      var at := Key(t.projectId, t.questId, releaseId);
      s.(creators := s.creators[i := t.(pc :=
        if at in s.releases && Materializes(c.server, s.releases[at]) && IsId(t.sessionId) then Binds(s.releases[at])
            else Refused)])
    case Binds(record) =>
      var (bindings, result) := CreateIn(c.lowers, s.bindings, BindingFor(c.server, t.sessionId, record));
      s.(bindings := bindings,
          creators := s.creators[i := t.(pc := if result.Created? then Pc.Creates(record) else Refused)])
    case Creates(record) =>
      if t.sessionId !in s.sessions && outcome.Creates? then
        s.(sessions := s.sessions[t.sessionId := LowerRelease(Pinned(c.server, record))],
           origin := s.origin[t.sessionId := record],
           creators := s.creators[i := t.(pc := Done(record))])
      else if c.server.Authored? && outcome.Throws? then
        s.(creators := s.creators[i := t.(pc := Refused)])
      else
        s.(creators := s.creators[i := t.(pc := RollsBack(record))])
    case RollsBack(_) =>
      s.(bindings := s.bindings - {t.sessionId}, creators := s.creators[i := t.(pc := Refused)])
    case Done(_) => s
    case Refused => s
  }

  function Step(c: Config, s: State, e: Event): State {
    match e
    case Advance(i, outcome) => if i in s.creators then AdvanceCreator(c, s, i, outcome) else s
    case Publish(record) => if KeyOf(record) in s.releases then s
        else s.(releases := s.releases[KeyOf(record) := record])
    case MovePointer(p, q, r) => if Key(p, q, r) in s.releases then s.(current := s.current[Slot(p, q) := r]) else s
  }

  /** A release is published once and never replaced, and publishing touches nothing else. */
  lemma PublishExactly(c: Config, s: State, record: ReleaseRecord)
    ensures var (s', key) := (Step(c, s, Publish(record)), Key(record.projectId, record.questId, record.releaseId));
            && s' == s.(releases := s'.releases) && s'.releases.Keys == s.releases.Keys + {key}
            && (forall k | k in s.releases :: s'.releases[k] == s.releases[k])
            && (key !in s.releases ==> s'.releases[key] == record)
  {
  }

  /** A pointer leads to published releases only, and moving it touches nothing else. */
  lemma MoveExactly(c: Config, s: State, p: string, q: string, r: string)
    ensures var (s', slot) := (Step(c, s, MovePointer(p, q, r)), Slot(p, q));
            if Key(p, q, r) in s.releases then
              && s' == s.(current := s'.current) && s'.current.Keys == s.current.Keys + {slot}
              && s'.current[slot] == r
              && forall x | x in s.current && x != slot :: s'.current[x] == s.current[x]
            else s' == s
  {
  }

  function Exec(c: Config, s: State, events: seq<Event>): State
    decreases |events|
  {
    if events == [] then s else Exec(c, Step(c, s, events[0]), events[1..])
  }

  ghost predicate Init(s: State) {
    && s.bindings == map[] && s.sessions == map[] && s.origin == map[] && s.releases == map[] && s.current == map[]
    && forall i | i in s.creators :: s.creators[i].pc == Begin
  }

  // ----- the invariant

  predicate Owns(t: Creator) {
    t.pc.Creates? || t.pc.RollsBack?
  }

  ghost predicate Known(c: Config, s: State, r: ReleaseRecord) {
    KeyOf(r) in s.releases && s.releases[KeyOf(r)] == r && Materializes(c.server, r)
  }

  ghost predicate Bound(c: Config, s: State, id: string, r: ReleaseRecord) {
    id in s.bindings && s.bindings[id] == Stored(c.lowers, BindingFor(c.server, id, r))
  }

  /** An existing session is bound to the release it was created from. */
  ghost predicate SessionOk(c: Config, s: State, id: string)
    requires id in s.sessions
  {
    && id in s.origin && Known(c, s, s.origin[id]) && Bound(c, s, id, s.origin[id])
    && s.sessions[id] == LowerRelease(Pinned(c.server, s.origin[id]))
  }

  /** A creator that owns a binding is the only reason the binding is there. */
  ghost predicate CreatorOk(c: Config, s: State, t: Creator) {
    && (t.pc.Binds? || Owns(t) ==> Known(c, s, t.pc.record))
    && (Owns(t) ==> Bound(c, s, t.sessionId, t.pc.record) && t.sessionId !in s.sessions)
    && (t.pc.Done? ==> t.sessionId in s.sessions && t.sessionId in s.origin && s.origin[t.sessionId] == t.pc.record)
  }

  ghost predicate Inv(c: Config, s: State) {
    && (forall k | k in s.releases :: KeyOf(s.releases[k]) == k)
    && (forall id | id in s.sessions :: SessionOk(c, s, id))
    && (forall i | i in s.creators :: CreatorOk(c, s, s.creators[i]))
    && (forall i, j | i in s.creators && j in s.creators && i != j && Owns(s.creators[i]) && Owns(s.creators[j]) ::
          s.creators[i].sessionId != s.creators[j].sessionId)
  }

  /** What a step never changes: published releases, and everything about existing sessions. */
  ghost predicate Keeps(s: State, s': State) {
    && (forall k | k in s.releases :: k in s'.releases && s'.releases[k] == s.releases[k])
    && (forall id | id in s.sessions && id in s.bindings && id in s.origin ::
          && id in s'.sessions && s'.sessions[id] == s.sessions[id]
          && id in s'.bindings && s'.bindings[id] == s.bindings[id]
          && id in s'.origin && s'.origin[id] == s.origin[id])
  }

  /** A step that leaves alone what a creator relies on leaves the creator right. */
  lemma CreatorStable(c: Config, s: State, s': State, t: Creator)
    requires CreatorOk(c, s, t)
    requires forall k | k in s.releases :: k in s'.releases && s'.releases[k] == s.releases[k]
    requires Owns(t) && t.sessionId in s.bindings ==>
               t.sessionId !in s'.sessions && t.sessionId in s'.bindings
                   && s'.bindings[t.sessionId] == s.bindings[t.sessionId]
    requires t.sessionId in s.sessions && t.sessionId in s.origin ==>
               t.sessionId in s'.sessions && t.sessionId in s'.origin && s'.origin[t.sessionId] == s.origin[t.sessionId]
    ensures CreatorOk(c, s', t)
  {
    hide Materializes, Stored, BindingFor;
  }

  lemma SessionStable(c: Config, s: State, s': State, id: string)
    requires id in s.sessions && id in s'.sessions && SessionOk(c, s, id) && Keeps(s, s')
    ensures SessionOk(c, s', id)
  {
    hide Materializes, Stored, BindingFor, LowerRelease, Pinned;
  }

  /** What a creator that owns a binding may count on. */
  lemma CreatorOwns(c: Config, s: State, i: nat)
    requires Inv(c, s) && i in s.creators
    ensures var t := s.creators[i];
            CreatorOk(c, s, t) &&
            (Owns(t) ==>
               && Known(c, s, t.pc.record) && Bound(c, s, t.sessionId, t.pc.record)
               && t.sessionId !in s.sessions)
  {
    assert CreatorOk(c, s, s.creators[i]);
  }

  lemma SessionsAreBound(c: Config, s: State, id: string)
    requires Inv(c, s) && id in s.sessions
    ensures id in s.bindings && id in s.origin
  {
    assert SessionOk(c, s, id);
  }

  /** A step of a publisher only adds releases or moves a pointer. */
  lemma PublisherInv(c: Config, s: State, e: Event)
    requires Inv(c, s) && !e.Advance?
    ensures Inv(c, Step(c, s, e)) && Keeps(s, Step(c, s, e))
  {
    hide CreatorOk, SessionOk, AdvanceCreator, Owns;
    if e.Publish? {
      if KeyOf(e.record) !in s.releases { ReleasesGrow(c, s, s.(releases := s.releases[KeyOf(e.record) := e.record])); }
    } else {
      ReleasesGrow(c, s, s.(current := s.current[Slot(e.projectId, e.questId) := e.releaseId]));
    }
  }

  lemma ReleasesGrow(c: Config, s: State, s': State)
    requires Inv(c, s)
    requires s' == s.(releases := s'.releases, current := s'.current)
    requires forall k | k in s'.releases :: KeyOf(s'.releases[k]) == k
    requires forall k | k in s.releases :: k in s'.releases && s'.releases[k] == s.releases[k]
    ensures Inv(c, s')
  {
    hide CreatorOk, SessionOk;
    forall i | i in s'.creators ensures CreatorOk(c, s', s'.creators[i]) {
      CreatorOwns(c, s, i);
      CreatorStable(c, s, s', s.creators[i]);
    }
    forall id | id in s'.sessions ensures SessionOk(c, s', id) { SessionStable(c, s, s', id); }
  }

  /** The two stores change under one identifier only, and one that no other creator owns
      and no session has, so everybody else is left as they were. */
  lemma OthersInv(c: Config, s: State, s': State, i: nat)
    requires Inv(c, s) && i in s.creators && i in s'.creators && s'.releases == s.releases
    requires s'.creators == s.creators[i := s'.creators[i]] && s'.creators[i].sessionId == s.creators[i].sessionId
    requires var id := s.creators[i].sessionId;
             && (forall k | k != id ::
                   (k in s'.bindings <==> k in s.bindings) && (k in s.bindings ==> s'.bindings[k] == s.bindings[k]))
             && (forall k | k != id ::
                   (k in s'.sessions <==> k in s.sessions) && (k in s.sessions ==> s'.sessions[k] == s.sessions[k]))
             && (forall k | k != id ::
                   (k in s'.origin <==> k in s.origin) && (k in s.origin ==> s'.origin[k] == s.origin[k]))
             && (id in s.sessions ==> s'.bindings == s.bindings && s'.sessions == s.sessions && s'.origin == s.origin)
             && ((s'.bindings == s.bindings && s'.sessions == s.sessions && s'.origin == s.origin)
                 || (forall j | j in s.creators && j != i && Owns(s.creators[j]) :: s.creators[j].sessionId != id))
    requires CreatorOk(c, s', s'.creators[i])
    requires s.creators[i].sessionId in s'.sessions && s.creators[i].sessionId !in s.sessions
        ==> SessionOk(c, s', s.creators[i].sessionId)
    requires Owns(s'.creators[i]) ==>
               forall j | j in s.creators && j != i && Owns(s.creators[j]) ::
                 s.creators[j].sessionId != s.creators[i].sessionId
    ensures Inv(c, s') && Keeps(s, s')
  {
    hide CreatorOk, SessionOk;
    forall j | j in s.creators && j != i ensures CreatorOk(c, s', s.creators[j]) {
      CreatorOwns(c, s, j);
      CreatorStable(c, s, s', s.creators[j]);
    }
    forall id | id in s.sessions ensures id in s'.sessions && SessionOk(c, s', id) { SessionStable(c, s, s', id); }
  }

  /** A creator that binds becomes the only owner: nobody else owned the identifier, and no session has it. */
  lemma BindInv(c: Config, s: State, i: nat, outcome: Outcome)
    requires Inv(c, s) && i in s.creators && s.creators[i].pc.Binds?
    ensures var s' := AdvanceCreator(c, s, i, outcome); Inv(c, s') && Keeps(s, s')
  {
    hide SessionOk, IsBinding, SameBinding, Materializes, Pinned, LowerRelease;
    var s', id := AdvanceCreator(c, s, i, outcome), s.creators[i].sessionId;
    assert CreatorOk(c, s, s.creators[i]);
    forall j | j in s.creators
      ensures Owns(s.creators[j]) ==> s.creators[j].sessionId in s.bindings
    {
      CreatorOwns(c, s, j);
    }
    if id in s.sessions { SessionsAreBound(c, s, id); }
    OthersInv(c, s, s', i);
  }

  lemma OwnersDiffer(c: Config, s: State, i: nat)
    requires Inv(c, s) && i in s.creators && Owns(s.creators[i])
    ensures forall j | j in s.creators && j != i && Owns(s.creators[j]) ::
              s.creators[j].sessionId != s.creators[i].sessionId
  {
  }

  /** The session that a creator creates is bound to the release it looked up. */
  lemma CreatedOk(c: Config, s: State, s': State, i: nat)
    requires Inv(c, s) && i in s.creators && s.creators[i].pc.Creates? && i in s'.creators
    requires var t, r := s.creators[i], s.creators[i].pc.record;
             && s'.releases == s.releases && s'.bindings == s.bindings && s'.creators[i] == t.(pc := Done(r))
             && s'.sessions == s.sessions[t.sessionId := LowerRelease(Pinned(c.server, r))]
             && s'.origin == s.origin[t.sessionId := r]
    ensures CreatorOk(c, s', s'.creators[i]) && SessionOk(c, s', s.creators[i].sessionId)
  {
    hide Inv, Materializes, Stored, BindingFor, LowerRelease, Pinned;
    CreatorOwns(c, s, i);
  }

  lemma CreateShape(c: Config, s: State, i: nat, outcome: Outcome)
    requires i in s.creators && s.creators[i].pc.Creates?
    ensures var (t, r, s') := (s.creators[i], s.creators[i].pc.record, AdvanceCreator(c, s, i, outcome));
            || s' == s.(creators := s.creators[i := t.(pc := Refused)])
            || s' == s.(creators := s.creators[i := t.(pc := RollsBack(r))])
            || s' == s.(sessions := s.sessions[t.sessionId := LowerRelease(Pinned(c.server, r))],
                        origin := s.origin[t.sessionId := r], creators := s.creators[i := t.(pc := Done(r))])
  {
    hide LowerRelease, Pinned;
  }

  lemma CreateInv(c: Config, s: State, i: nat, outcome: Outcome)
    requires Inv(c, s) && i in s.creators && s.creators[i].pc.Creates?
    ensures var s' := AdvanceCreator(c, s, i, outcome); Inv(c, s') && Keeps(s, s')
  {
    hide Inv, Keeps, Materializes, Stored, BindingFor, LowerRelease, Pinned, SessionOk;
    var t, s' := s.creators[i], AdvanceCreator(c, s, i, outcome);
    CreatorOwns(c, s, i);
    OwnersDiffer(c, s, i);
    CreateShape(c, s, i, outcome);
    hide AdvanceCreator;
    if s'.creators[i].pc.Done? { CreatedOk(c, s, s', i); }
    hide CreatorOk, Known, Bound;
    OthersInv(c, s, s', i);
  }

  /** A rollback removes the binding of no session. */
  lemma RollbackInv(c: Config, s: State, i: nat, outcome: Outcome)
    requires Inv(c, s) && i in s.creators && s.creators[i].pc.RollsBack?
    ensures var s' := AdvanceCreator(c, s, i, outcome);
            && Inv(c, s') && Keeps(s, s')
            && s'.bindings == s.bindings - {s.creators[i].sessionId} && s.creators[i].sessionId !in s'.sessions
  {
    hide Inv, Keeps, Materializes, Stored, BindingFor;
    CreatorOwns(c, s, i);
    OwnersDiffer(c, s, i);
    OthersInv(c, s, AdvanceCreator(c, s, i, outcome), i);
  }

  lemma ReleaseKnown(c: Config, s: State, k: Key)
    requires Inv(c, s) && k in s.releases && Materializes(c.server, s.releases[k])
    ensures Known(c, s, s.releases[k])
  {
  }

  lemma LookupInv(c: Config, s: State, i: nat, outcome: Outcome)
    requires Inv(c, s) && i in s.creators && !s.creators[i].pc.Binds? && !Owns(s.creators[i])
    ensures var s' := AdvanceCreator(c, s, i, outcome); Inv(c, s') && Keeps(s, s')
  {
    hide Inv, Keeps, Materializes, Stored, BindingFor, SessionOk, Known, IsId;
    var t, s' := s.creators[i], AdvanceCreator(c, s, i, outcome);
    CreatorOwns(c, s, i);
    assert s' == s.(creators := s'.creators);
    if s'.creators[i].pc.Binds? {
      ReleaseKnown(c, s, Key(t.projectId, t.questId, t.pc.releaseId));
      KnownStable(c, s, s', s'.creators[i].pc.record);
    }
    OthersInv(c, s, s', i);
  }

  lemma KnownStable(c: Config, s: State, s': State, r: ReleaseRecord)
    requires Known(c, s, r) && s'.releases == s.releases
    ensures Known(c, s', r)
  {
  }

  lemma StepInv(c: Config, s: State, e: Event)
    requires Inv(c, s)
    ensures Inv(c, Step(c, s, e)) && Keeps(s, Step(c, s, e))
  {
    hide Inv, AdvanceCreator;
    if !e.Advance? {
      PublisherInv(c, s, e);
    } else if e.creator in s.creators {
      var pc := s.creators[e.creator].pc;
      if pc.Binds? { BindInv(c, s, e.creator, e.outcome); }
      else if pc.Creates? { CreateInv(c, s, e.creator, e.outcome); }
      else if pc.RollsBack? { RollbackInv(c, s, e.creator, e.outcome); }
      else { LookupInv(c, s, e.creator, e.outcome); }
    }
  }

  /** Over every run, sessions stay bound to the release they were created from. */
  lemma {:induction false} ExecInv(c: Config, s: State, events: seq<Event>)
    requires Inv(c, s)
    ensures Inv(c, Exec(c, s, events)) && Keeps(s, Exec(c, s, events))
    decreases |events|
  {
    if events != [] {
      StepInv(c, s, events[0]);
      ExecInv(c, Step(c, s, events[0]), events[1..]);
    }
  }

  lemma InitInv(c: Config, s: State)
    requires Init(s)
    ensures Inv(c, s)
  {
  }

  function Lookup<K, V>(m: map<K, V>, k: K): Option<V> {
    if k in m then Some(m[k]) else None
  }

  /** Whatever else runs between the three reads of a resolver, an existing session
      resolves to the release it was created from: neither SESSION_BINDING_NOT_FOUND nor
      PINNED_RELEASE_MISMATCH can be answered, wherever the current pointer has moved. */
  lemma SessionsStayPinned(c: Config, s: State, id: string, first: seq<Event>, second: seq<Event>)
    requires Inv(c, s) && id in s.sessions
    ensures id in s.origin
    ensures var s1 := Exec(c, s, first);
            var s2 := Exec(c, s1, second);
            id in s1.bindings &&
            var b := s1.bindings[id];
            Resolve(c.server, Some(s.sessions[id]), Some(b),
                    Lookup(s2.releases, Key(b.projectId, b.release.questId, b.release.releaseId)))
                        == Resolved(s.origin[id])
  {
    var s1 := Exec(c, s, first);
    ExecInv(c, s, first);
    ExecInv(c, s1, second);
    assert SessionOk(c, s, id);
    hide Inv, Exec, IsLowerHash, Lower;
    PinnedResolves(c, id, s.origin[id]);
  }

  /** What is stored for a session created from a release resolves to that release. */
  lemma PinnedResolves(c: Config, id: string, r: ReleaseRecord)
    requires Materializes(c.server, r)
    ensures var b := Stored(c.lowers, BindingFor(c.server, id, r));
            && Resolve(c.server, Some(LowerRelease(Pinned(c.server, r))), Some(b), Some(r)) == Resolved(r)
            && Key(b.projectId, b.release.questId, b.release.releaseId) == KeyOf(r)
  {
    hide IsLowerHash, Lower;
    LowerIdempotent(r.compiledContentHash);
    if c.server.Authored? { LowerHash(r.compiledContentHash); }
  }

  /** A creator that reports success has created a session that resolves to the very
      release it looked up, after any further events. */
  lemma CreatedResolves(c: Config, s: State, i: nat, events: seq<Event>)
    requires Inv(c, s) && i in s.creators && s.creators[i].pc.Done?
    ensures var t := s.creators[i];
            var s' := Exec(c, s, events);
            && t.sessionId in s'.sessions && t.sessionId in s'.bindings
            && var b := s'.bindings[t.sessionId];
               Resolve(c.server, Some(s'.sessions[t.sessionId]), Some(b),
                       Lookup(s'.releases, Key(b.projectId, b.release.questId, b.release.releaseId)))
                           == Resolved(t.pc.record)
  {
    var t, s' := s.creators[i], Exec(c, s, events);
    assert CreatorOk(c, s, t) && SessionOk(c, s, t.sessionId);
    ExecInv(c, s, events);
    SessionsStayPinned(c, s', t.sessionId, [], []);
  }

  /** The session store answers session_exists to no creator: the binding it holds keeps
      every other creator and every session away from its identifier. */
  lemma NoLateCollision(c: Config, s: State, i: nat)
    requires Inv(c, s) && i in s.creators && s.creators[i].pc.Creates?
    ensures s.creators[i].sessionId !in s.sessions
  {
    CreatorOwns(c, s, i);
  }

  /** The authored server pins the hash as the release has it, while both stores of a
      SQLite deployment keep it in lower case. Its two comparisons, of the binding with the
      session and of the release with the binding, then hold exactly when the hash is in
      lower case already; its release check insists on that too, so nothing else decides
      whether the session resolves. */
  lemma AuthoredNeedsLowerCase(id: string, r: ReleaseRecord)
    requires r.preflight && IsHash(r.compiledContentHash)
    ensures var session, binding := LowerRelease(Pinned(Authored, r)), Stored(true, BindingFor(Authored, id, r));
            && binding.release == session
            && (r.compiledContentHash == binding.release.contentHash <==> IsLowerHash(r.compiledContentHash))
            && (Resolve(Authored, Some(session), Some(binding), Some(r)) == Resolved(r)
                <==> IsLowerHash(r.compiledContentHash))
  {
    if IsLowerHash(r.compiledContentHash) { LowerHash(r.compiledContentHash); }
  }

  /** If the session store could fail after it had stored the session, the rollback
      would leave a session without a binding. */
  lemma ThrowAfterCommitBreaks(c: Config, s: State, i: nat)
    requires Inv(c, s) && c.server.Runtime? && i in s.creators && s.creators[i].pc.Creates?
    ensures var t := s.creators[i];
            var stored := s.(sessions := s.sessions[t.sessionId := LowerRelease(Pinned(c.server, t.pc.record))]);
            var s' := AdvanceCreator(c, AdvanceCreator(c, stored, i, Throws), i, Throws);
            t.sessionId in s'.sessions && t.sessionId !in s'.bindings
  {
  }

  // ----- what a resolver answers

  /** Each refusal of a resolver, with its cause. */
  lemma ResolveExactly(server: Server, session: Option<Release>, binding: Option<Binding>,
      release: Option<ReleaseRecord>)
    ensures var answer := Resolve(server, session, binding, release);
            && (answer == SessionNotFound <==> session.None?)
            && (answer == BindingNotFound <==> session.Some? && binding.None?)
            && (session.Some? && binding.Some? ==>
                  var (pinned, bound) := (session.value, binding.value.release);
                  var hashes := release.Some? ==>
                    if server.Runtime? then Lower(release.value.compiledContentHash) == Lower(bound.contentHash)
                    else release.value.compiledContentHash == bound.contentHash;
                  && (answer == PinnedMismatch <==> bound != pinned || (server.Runtime? && !hashes))
                  && (answer == ReleaseNotFound <==>
                        bound == pinned && (release.None? || (server.Authored? && !hashes)))
                  && (answer == PreflightFailed <==>
                        && bound == pinned && release.Some? && hashes
                        && !(release.value.preflight
                             && (server.Authored? ==> IsLowerHash(release.value.compiledContentHash))))
                  && (answer.Resolved? ==> Some(answer.record) == release))
  {
    hide Lower, IsLowerHash;
  }

  // ----- when a creation succeeds

  /** A creator goes on with the release to which the pointer of its quest leads at that step,
      and is refused exactly when there is no pointer. */
  lemma PointerIsRead(c: Config, s: State, i: nat, outcome: Outcome)
    requires i in s.creators && s.creators[i].pc.Begin?
    ensures var (t, s') := (s.creators[i], AdvanceCreator(c, s, i, outcome));
            var slot := Slot(t.projectId, t.questId);
            && s' == s.(creators := s'.creators) && i in s'.creators
            && (slot in s.current ==> s'.creators[i] == t.(pc := GotCurrent(s.current[slot])))
            && (slot !in s.current ==> s'.creators[i] == t.(pc := Refused))
  {
  }

  function StepsLeft(pc: Pc): nat {
    if pc.GotCurrent? then 3 else if pc.Binds? then 2 else if pc.Creates? then 1 else 0
  }

  /** The creator has read the current pointer, and is about to find this release, to bind it
      or to create the session of it; its session identifier is free and its own. */
  ghost predicate Ready(c: Config, s: State, i: nat, r: ReleaseRecord) {
    && i in s.creators && Known(c, s, r) && IsBinding(BindingFor(c.server, s.creators[i].sessionId, r))
    && (forall j | j in s.creators && j != i :: s.creators[j].sessionId != s.creators[i].sessionId)
    && var t := s.creators[i];
       && (t.pc.GotCurrent? || t.pc.Binds? ==> t.sessionId !in s.bindings)
       && (t.pc.GotCurrent? || t.pc.Binds? || t.pc.Creates? ==> t.sessionId !in s.sessions)
       && ((t.pc == GotCurrent(r.releaseId) && t.projectId == r.projectId && t.questId == r.questId)
           || t.pc == Binds(r) || t.pc == Pc.Creates(r) || t.pc == Done(r))
  }

  lemma ReadyOwnStep(c: Config, s: State, i: nat, r: ReleaseRecord)
    requires Inv(c, s) && Ready(c, s, i, r)
    ensures var s' := AdvanceCreator(c, s, i, Outcome.Creates);
            && Ready(c, s', i, r)
            && (StepsLeft(s'.creators[i].pc) < StepsLeft(s.creators[i].pc)
                || StepsLeft(s'.creators[i].pc) == 0 == StepsLeft(s.creators[i].pc))
  {
    hide Inv, Materializes, Pinned, IsLowerHash, IsHash, SameBinding, Stored, LowerRelease;
  }

  lemma ReadyOtherStep(c: Config, s: State, e: Event, i: nat, r: ReleaseRecord)
    requires Inv(c, s) && Ready(c, s, i, r) && (e.Advance? ==> e.creator != i)
    ensures Ready(c, Step(c, s, e), i, r) && Step(c, s, e).creators[i] == s.creators[i]
  {
    hide Inv, Materializes, Pinned, IsBinding, BindingFor, AdvanceCreator;
    if e.Advance? && e.creator in s.creators {
      Elsewhere(c, s, e.creator, e.outcome, s.creators[i].sessionId);
    }
  }

  /** A step of a creator touches the stores under its own identifier only. */
  lemma Elsewhere(c: Config, s: State, j: nat, outcome: Outcome, id: string)
    requires j in s.creators && s.creators[j].sessionId != id
    ensures var s' := AdvanceCreator(c, s, j, outcome);
            && (id in s'.bindings <==> id in s.bindings) && (id in s'.sessions <==> id in s.sessions)
            && s'.releases == s.releases && s'.creators.Keys == s.creators.Keys
            && s'.creators[j].sessionId == s.creators[j].sessionId
            && (forall x | x in s.creators && x != j :: s'.creators[x] == s.creators[x])
  {
    OwnArguments(c, s, j, outcome);
    OwnIdentifier(c, s, j, outcome, id);
    hide AdvanceCreator;
  }

  lemma OwnIdentifier(c: Config, s: State, j: nat, outcome: Outcome, id: string)
    requires j in s.creators && s.creators[j].sessionId != id
    ensures var s' := AdvanceCreator(c, s, j, outcome);
            && (id in s'.bindings <==> id in s.bindings) && (id in s'.sessions <==> id in s.sessions)
            && s'.releases == s.releases
  {
    hide AdvanceCreator;
    var pc := s.creators[j].pc;
    if pc.Binds? {
      BindsOwnIdentifier(c, s, j, outcome, id);
    } else if pc.Creates? {
      CreatesOwnIdentifier(c, s, j, outcome, id);
    } else if pc.RollsBack? {
      RollsBackOwnIdentifier(c, s, j, outcome, id);
    } else {
      LookupChangesNothing(c, s, j, outcome);
    }
  }

  lemma BindsOwnIdentifier(c: Config, s: State, j: nat, outcome: Outcome, id: string)
    requires j in s.creators && s.creators[j].sessionId != id && s.creators[j].pc.Binds?
    ensures var s' := AdvanceCreator(c, s, j, outcome);
            && (id in s'.bindings <==> id in s.bindings) && (id in s'.sessions <==> id in s.sessions)
            && s'.releases == s.releases
  {
    hide Materializes, Pinned, IsBinding, SameBinding, Stored, LowerRelease, IsId;
  }

  lemma CreatesOwnIdentifier(c: Config, s: State, j: nat, outcome: Outcome, id: string)
    requires j in s.creators && s.creators[j].sessionId != id && s.creators[j].pc.Creates?
    ensures var s' := AdvanceCreator(c, s, j, outcome);
            && (id in s'.bindings <==> id in s.bindings) && (id in s'.sessions <==> id in s.sessions)
            && s'.releases == s.releases
  {
    hide Materializes, Pinned, IsBinding, SameBinding, Stored, LowerRelease, IsId, CreateIn;
  }

  lemma RollsBackOwnIdentifier(c: Config, s: State, j: nat, outcome: Outcome, id: string)
    requires j in s.creators && s.creators[j].sessionId != id && s.creators[j].pc.RollsBack?
    ensures var s' := AdvanceCreator(c, s, j, outcome);
            && (id in s'.bindings <==> id in s.bindings) && (id in s'.sessions <==> id in s.sessions)
            && s'.releases == s.releases
  {
    hide Materializes, Pinned, IsBinding, SameBinding, Stored, LowerRelease, IsId, CreateIn;
  }

  lemma LookupChangesNothing(c: Config, s: State, j: nat, outcome: Outcome)
    requires j in s.creators && !s.creators[j].pc.Binds? && !Owns(s.creators[j])
    ensures var s' := AdvanceCreator(c, s, j, outcome);
            s'.bindings == s.bindings && s'.sessions == s.sessions && s'.releases == s.releases
  {
    hide Materializes, Pinned, IsBinding, SameBinding, Stored, LowerRelease, IsId, CreateIn;
    var s' := AdvanceCreator(c, s, j, outcome);
    if s.creators[j].pc.Done? || s.creators[j].pc.Refused? {
      assert s' == s;
    } else {
      assert s' == s.(creators := s'.creators);
    }
  }

  /** A creator keeps its arguments, and the other creators. */
  lemma OwnArguments(c: Config, s: State, i: nat, outcome: Outcome)
    requires i in s.creators
    ensures var s' := AdvanceCreator(c, s, i, outcome);
            i in s'.creators && s'.creators == s.creators[i := s.creators[i].(pc := s'.creators[i].pc)]
  {
    hide AdvanceCreator;
    var t := s.creators[i];
    if t.pc.Binds? || t.pc.RollsBack? {
      BindingStepArguments(c, s, i, outcome);
    } else if t.pc.Creates? {
      SessionStepArguments(c, s, i, outcome);
    } else if t.pc.Begin? || t.pc.GotCurrent? {
      LookupArguments(c, s, i, outcome);
    } else {
      RestingArguments(c, s, i, outcome);
    }
  }

  lemma BindingStepArguments(c: Config, s: State, i: nat, outcome: Outcome)
    requires i in s.creators && (s.creators[i].pc.Binds? || s.creators[i].pc.RollsBack?)
    ensures var s' := AdvanceCreator(c, s, i, outcome);
            i in s'.creators && s'.creators == s.creators[i := s.creators[i].(pc := s'.creators[i].pc)]
  {
    hide CreateIn, Materializes, IsId, Pinned, LowerRelease, BindingFor;
  }

  lemma SessionStepArguments(c: Config, s: State, i: nat, outcome: Outcome)
    requires i in s.creators && s.creators[i].pc.Creates?
    ensures var s' := AdvanceCreator(c, s, i, outcome);
            i in s'.creators && s'.creators == s.creators[i := s.creators[i].(pc := s'.creators[i].pc)]
  {
    CreateShape(c, s, i, outcome);
    hide AdvanceCreator, Pinned, LowerRelease;
  }

  lemma LookupArguments(c: Config, s: State, i: nat, outcome: Outcome)
    requires i in s.creators && (s.creators[i].pc.Begin? || s.creators[i].pc.GotCurrent?)
    ensures var s' := AdvanceCreator(c, s, i, outcome);
            i in s'.creators && s'.creators == s.creators[i := s.creators[i].(pc := s'.creators[i].pc)]
  {
    hide CreateIn, Materializes, IsId, Pinned, LowerRelease, BindingFor;
  }

  lemma RestingArguments(c: Config, s: State, i: nat, outcome: Outcome)
    requires i in s.creators && (s.creators[i].pc.Done? || s.creators[i].pc.Refused?)
    ensures var s' := AdvanceCreator(c, s, i, outcome);
            i in s'.creators && s'.creators == s.creators[i := s.creators[i].(pc := s'.creators[i].pc)]
  {
    hide CreateIn, Materializes, IsId, Pinned, LowerRelease, BindingFor;
    assert s.creators == s.creators[i := s.creators[i].(pc := s.creators[i].pc)];
  }

  /** How often it is the turn of a creator. */
  function Turns(i: nat, events: seq<Event>): nat {
    if events == [] then 0
    else (if events[0].Advance? && events[0].creator == i then 1 else 0) + Turns(i, events[1..])
  }

  /** A creator that has read the pointer to a good release, under an identifier that is free
      and its own, and whose session store does not fail, is done after three steps, whatever
      the others do between them: its session exists and resolves to that release. */
  lemma {:induction false} CreationSucceeds(c: Config, s: State, i: nat, r: ReleaseRecord, events: seq<Event>)
    requires Inv(c, s) && Ready(c, s, i, r)
    requires forall k | 0 <= k < |events| && events[k].Advance? && events[k].creator == i ::
               events[k].outcome == Outcome.Creates
    requires Turns(i, events) >= StepsLeft(s.creators[i].pc)
    ensures var s' := Exec(c, s, events);
            && i in s'.creators && s'.creators[i] == s.creators[i].(pc := Done(r))
            && s.creators[i].sessionId in s'.sessions
    decreases |events|
  {
    if events == [] {
      CreatorOwns(c, s, i);
    } else {
      var e := events[0];
      StepInv(c, s, e);
      if e.Advance? && e.creator == i {
        ReadyOwnStep(c, s, i, r);
        OwnArguments(c, s, i, e.outcome);
      } else {
        ReadyOtherStep(c, s, e, i, r);
      }
      hide Inv, AdvanceCreator, Ready, StepsLeft;
      CreationSucceeds(c, Step(c, s, e), i, r, events[1..]);
    }
  }
}
