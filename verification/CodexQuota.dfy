/** The rate-limit cache of the account controller: a map from cache keys to snapshots
    and the key that is active, kept in step with reads, notifications and the lease. */
module CodexQuota {
  import opened Wrappers
  import opened PercentEncoding
  import L = CodexLease

  type Lease = L.Lease

  /** `limits` is what a notification replaces, `rest` what only a read sets. */
  datatype Quota = Quota(limits: string, rest: string, observedAt: int, cacheKey: string)

  /** The user and connection that a controller serves. */
  datatype Scope = Scope(owner: string, connection: string)

  /** `pending` are the reads that await the transport, with the lease they saw; `origin`
      is the lease generation under which the read behind the active snapshot began. */
  datatype State = State(lease: Lease, identity: Option<string>, revision: string,
                         cache: map<string, Quota>, active: Option<string>,
                         pending: map<nat, Lease>, subscribed: bool, origin: nat)

  datatype Reply = Failed | Malformed | Limits(accountId: Option<string>, limits: string, rest: string)

  datatype Event =
    | BeginRead(call: nat)
    | CompleteRead(call: nat, reply: Reply, now: int)
    | Notify(limits: Option<string>, now: int)
    | IdentityRead(account: Option<string>)
    | LoggedOut
    | Rotate(revision: string)
    | Close

  /** codexAccountCacheKey */
  function CacheKey(scope: Scope, account: string, revision: string): string {
    Joined([scope.owner, scope.connection, account, revision])
  }

  /** Different accounts, revisions, connections or users never share a cache key. */
  lemma CacheKeyInjective(s: Scope, a: string, r: string, t: Scope, b: string, q: string)
    requires CacheKey(s, a, r) == CacheKey(t, b, q)
    ensures s == t && a == b && r == q
  {
    hide Joined;
    var x, y := [s.owner, s.connection, a, r], [t.owner, t.connection, b, q];
    JoinedInjective(x, y);
    assert x[0] == y[0] && x[1] == y[1] && x[2] == y[2] && x[3] == y[3];
  }

  function Invalidated(s: State): State {
    s.(identity := None, cache := map[], active := None, lease := L.Lease.Lease(s.lease.generation + 1, None))
  }

  /** `accountKeyOf` is the digest that turns an account id into an account key. */
  function Step(scope: Scope, accountKeyOf: string -> string, s: State, e: Event): State {
    match e
    case BeginRead(call) =>
      if call in s.pending || s.lease.accountKey.None? || s.identity.None? then s
      else s.(pending := s.pending[call := s.lease])
    case CompleteRead(call, reply, now) =>
      if call !in s.pending then s
      else
        var p := s.(pending := s.pending - {call});
        if !reply.Limits? || s.pending[call].accountKey.None? then p
        else
          var account := if reply.accountId.None? then s.pending[call].accountKey.value
              else accountKeyOf(reply.accountId.value);
          var key := CacheKey(scope, account, s.revision);
          p.(cache := s.cache[key := Quota(reply.limits, reply.rest, now, key)], active := Some(key),
             origin := s.pending[call].generation)
    case Notify(limits, now) =>
      if !s.subscribed || s.active.None? || s.active.value !in s.cache || s.lease.accountKey.None? || limits.None?
          then s
      else
        var q := s.cache[s.active.value].(limits := limits.value, observedAt := now);
        s.(cache := s.cache[s.active.value := q])
    case IdentityRead(account) =>
      if account.None? then Invalidated(s)
      else s.(identity := account, cache := map[], active := None,
          lease := L.Lease.Lease(s.lease.generation + 1, account))
    case LoggedOut => Invalidated(s)
    case Rotate(revision) => if revision == s.revision then s else Invalidated(s).(revision := revision)
    case Close => Invalidated(s).(subscribed := false)
  }

  /** cachedRateLimits */
  function Cached(s: State): Option<Quota> {
    if s.active.None? then None
    else if s.active.value in s.cache then Some(s.cache[s.active.value]) else None
  }

  // ----- the cache is a single optional snapshot

  ghost predicate Inv(s: State) {
    && (s.active.Some? ==> s.active.value in s.cache && s.cache[s.active.value].cacheKey == s.active.value)
    && (s.active.Some? ==> s.origin <= s.lease.generation)
    && (forall c | c in s.pending :: s.pending[c].accountKey.Some? && s.pending[c].generation <= s.lease.generation)
  }

  predicate Invalidates(s: State, e: Event) {
    e.IdentityRead? || e.LoggedOut? || e.Close? || (e.Rotate? && e.revision != s.revision)
  }

  predicate Succeeds(s: State, e: Event) {
    e.CompleteRead? && e.call in s.pending && e.reply.Limits?
  }

  /** A valid notification replaces the limits of the snapshot, while the account is authenticated. */
  function Overlaid(s: State, limits: Option<string>, now: int): Option<Quota> {
    if limits.Some? && Cached(s).Some? && s.subscribed && s.lease.accountKey.Some?
    then Some(Cached(s).value.(limits := limits.value, observedAt := now)) else Cached(s)
  }

  /** Over the single snapshot: a successful read replaces it, a valid notification
      overlays its limits while the account is authenticated, an identity change, logout,
      rotation or close drops it, and nothing else touches it. */
  lemma CachedIsOneSnapshot(scope: Scope, accountKeyOf: string -> string, s: State, e: Event)
    requires Inv(s)
    ensures var s' := Step(scope, accountKeyOf, s, e);
            && Inv(s')
            && (Succeeds(s, e) ==> Cached(s').Some?)
            && (Succeeds(s, e) ==>
                  Cached(s').value == Quota(e.reply.limits, e.reply.rest, e.now, Cached(s').value.cacheKey))
            && (Succeeds(s, e) && s.pending[e.call].accountKey.Some? ==>
                  var own := s.pending[e.call].accountKey.value;
                  var account := if e.reply.accountId.Some? then accountKeyOf(e.reply.accountId.value) else own;
                  Cached(s').value.cacheKey == Joined([scope.owner, scope.connection, account, s.revision]))
            && (e.Notify? ==> Cached(s') == Overlaid(s, e.limits, e.now))
            && (Invalidates(s, e) ==> Cached(s').None?)
            && (!Succeeds(s, e) && !e.Notify? && !Invalidates(s, e) ==> Cached(s') == Cached(s))
  {
  }

  // ----- the reference: no map, no keys

  datatype Reading = Reading(limits: string, rest: string, observedAt: int)

  /** The controller with a single optional reading in place of its cache. */
  datatype Reference = Reference(shown: Option<Reading>, lease: Lease, identity: Option<string>, revision: string,
                                 pending: map<nat, Lease>, subscribed: bool)

  function Dropped(m: Reference): Reference {
    m.(shown := None, identity := None, lease := L.Lease.Lease(m.lease.generation + 1, None))
  }

  function ReferenceStep(m: Reference, e: Event): Reference {
    match e
    case BeginRead(call) =>
      if call in m.pending || m.lease.accountKey.None? || m.identity.None? then m
      else m.(pending := m.pending[call := m.lease])
    case CompleteRead(call, reply, now) =>
      if call !in m.pending then m
      else
        var shown := if reply.Limits? then Some(Reading(reply.limits, reply.rest, now)) else m.shown;
        m.(pending := m.pending - {call}, shown := shown)
    case Notify(limits, now) =>
      if limits.Some? && m.shown.Some? && m.subscribed && m.lease.accountKey.Some?
      then m.(shown := Some(m.shown.value.(limits := limits.value, observedAt := now))) else m
    case IdentityRead(account) =>
      if account.None? then Dropped(m)
      else m.(shown := None, identity := account, lease := L.Lease.Lease(m.lease.generation + 1, account))
    case LoggedOut => Dropped(m)
    case Rotate(revision) => if revision == m.revision then m else Dropped(m).(revision := revision)
    case Close => Dropped(m).(subscribed := false)
  }

  function ReadingOf(q: Option<Quota>): Option<Reading> {
    if q.None? then None else Some(Reading(q.value.limits, q.value.rest, q.value.observedAt))
  }

  function View(s: State): Reference {
    Reference(ReadingOf(Cached(s)), s.lease, s.identity, s.revision, s.pending, s.subscribed)
  }

  function ReferenceExec(m: Reference, events: seq<Event>): Reference
    decreases |events|
  {
    if events == [] then m else ReferenceExec(ReferenceStep(m, events[0]), events[1..])
  }

  lemma StepRefines(scope: Scope, accountKeyOf: string -> string, s: State, e: Event)
    requires Inv(s)
    ensures Inv(Step(scope, accountKeyOf, s, e))
    ensures View(Step(scope, accountKeyOf, s, e)) == ReferenceStep(View(s), e)
  {
    hide Step, ReferenceStep, Inv;
    match e
    case BeginRead(_) => ReadRefines(scope, accountKeyOf, s, e);
    case CompleteRead(_, _, _) => ReadRefines(scope, accountKeyOf, s, e);
    case Notify(_, _) => NotifyRefines(scope, accountKeyOf, s, e);
    case _ => ChangeRefines(scope, accountKeyOf, s, e);
  }

  lemma ReadRefines(scope: Scope, accountKeyOf: string -> string, s: State, e: Event)
    requires Inv(s) && (e.BeginRead? || e.CompleteRead?)
    ensures Inv(Step(scope, accountKeyOf, s, e))
    ensures View(Step(scope, accountKeyOf, s, e)) == ReferenceStep(View(s), e)
  {
    hide CacheKey;
  }

  lemma NotifyRefines(scope: Scope, accountKeyOf: string -> string, s: State, e: Event)
    requires Inv(s) && e.Notify?
    ensures Inv(Step(scope, accountKeyOf, s, e))
    ensures View(Step(scope, accountKeyOf, s, e)) == ReferenceStep(View(s), e)
  {
  }

  lemma ChangeRefines(scope: Scope, accountKeyOf: string -> string, s: State, e: Event)
    requires Inv(s) && (e.IdentityRead? || e.LoggedOut? || e.Rotate? || e.Close?)
    ensures Inv(Step(scope, accountKeyOf, s, e))
    ensures View(Step(scope, accountKeyOf, s, e)) == ReferenceStep(View(s), e)
  {
  }

  /** Over every run the cache with its keys and its active key shows what the single
      optional reading would. */
  lemma {:induction false} CacheRefinesOneReading(scope: Scope, accountKeyOf: string -> string, s: State,
      events: seq<Event>)
    requires Inv(s)
    ensures View(Exec(scope, accountKeyOf, s, events)) == ReferenceExec(View(s), events)
    decreases |events|
  {
    hide Step, ReferenceStep, Inv, View;
    if events != [] {
      StepRefines(scope, accountKeyOf, s, events[0]);
      CacheRefinesOneReading(scope, accountKeyOf, Step(scope, accountKeyOf, s, events[0]), events[1..]);
    }
  }

  /** The snapshot was read under the lease that is current now. */
  predicate Fresh(s: State) {
    Cached(s).Some? ==> s.origin == s.lease.generation && s.lease.accountKey.Some?
  }

  /** A read that completes after the lease changed: the code does not look at the lease
      again after its await. */
  predicate Late(s: State, e: Event) {
    Succeeds(s, e) && s.pending[e.call].generation != s.lease.generation
  }

  /** What non-overlapping controller calls guarantee of the lease and the reads. */
  ghost predicate Consistent(s: State) {
    && Inv(s)
    && (forall c | c in s.pending && s.pending[c].generation == s.lease.generation :: s.pending[c] == s.lease)
  }

  lemma StepConsistent(scope: Scope, accountKeyOf: string -> string, s: State, e: Event)
    requires Consistent(s)
    ensures Consistent(Step(scope, accountKeyOf, s, e))
  {
  }

  /** A step leaves the cache with nothing of an earlier lease exactly when it is not a late read. */
  lemma FreshUnlessLate(scope: Scope, accountKeyOf: string -> string, s: State, e: Event)
    requires Consistent(s) && Fresh(s)
    ensures Fresh(Step(scope, accountKeyOf, s, e)) <==> !Late(s, e)
  {
  }

  function Exec(scope: Scope, accountKeyOf: string -> string, s: State, events: seq<Event>): State
    decreases |events|
  {
    if events == [] then s else Exec(scope, accountKeyOf, Step(scope, accountKeyOf, s, events[0]), events[1..])
  }

  ghost predicate NeverLate(scope: Scope, accountKeyOf: string -> string, s: State, events: seq<Event>)
    decreases |events|
  {
    events != [] ==>
      && !Late(s, events[0])
      && NeverLate(scope, accountKeyOf, Step(scope, accountKeyOf, s, events[0]), events[1..])
  }

  /** In every run in which no read outlives its lease, as when controller calls do not
      overlap, the cache only ever shows limits read under the current lease. */
  lemma {:induction false} CacheStaysFresh(scope: Scope, accountKeyOf: string -> string, s: State, events: seq<Event>)
    requires Consistent(s) && Fresh(s) && NeverLate(scope, accountKeyOf, s, events)
    ensures Consistent(Exec(scope, accountKeyOf, s, events)) && Fresh(Exec(scope, accountKeyOf, s, events))
    decreases |events|
  {
    if events != [] {
      FreshUnlessLate(scope, accountKeyOf, s, events[0]);
      StepConsistent(scope, accountKeyOf, s, events[0]);
      CacheStaysFresh(scope, accountKeyOf, Step(scope, accountKeyOf, s, events[0]), events[1..]);
    }
  }

  /** While a read awaits its answer nothing but notifications arrives: the calls of the
      controller do not overlap. */
  ghost predicate Sequential(scope: Scope, accountKeyOf: string -> string, s: State, events: seq<Event>)
    decreases |events|
  {
    events != [] ==>
      && (s.pending != map[] ==> events[0].Notify? || events[0].CompleteRead?)
      && Sequential(scope, accountKeyOf, Step(scope, accountKeyOf, s, events[0]), events[1..])
  }

  /** Calls that do not overlap leave no read behind their lease, so the cache never shows
      limits of an earlier account, login or credential. */
  lemma SequentialStaysFresh(scope: Scope, accountKeyOf: string -> string, s: State, events: seq<Event>)
    requires Consistent(s) && Fresh(s) && Sequential(scope, accountKeyOf, s, events)
    requires forall c | c in s.pending :: s.pending[c].generation == s.lease.generation
    ensures Fresh(Exec(scope, accountKeyOf, s, events))
  {
    SequentialIsNeverLate(scope, accountKeyOf, s, events);
    CacheStaysFresh(scope, accountKeyOf, s, events);
  }

  lemma {:induction false} SequentialIsNeverLate(scope: Scope, accountKeyOf: string -> string, s: State,
      events: seq<Event>)
    requires Consistent(s) && Fresh(s) && Sequential(scope, accountKeyOf, s, events)
    requires forall c | c in s.pending :: s.pending[c].generation == s.lease.generation
    ensures NeverLate(scope, accountKeyOf, s, events)
    decreases |events|
  {
    if events != [] {
      hide CacheKey;
      FreshUnlessLate(scope, accountKeyOf, s, events[0]);
      StepConsistent(scope, accountKeyOf, s, events[0]);
      SequentialIsNeverLate(scope, accountKeyOf, Step(scope, accountKeyOf, s, events[0]), events[1..]);
    }
  }

  /** Otherwise a read that a logout overtakes puts the old limits back, and no
      notification can update them. */
  lemma LateReadOutlivesLogout(scope: Scope, accountKeyOf: string -> string, account: string, limits: string,
      later: Option<string>)
    ensures var s := State(L.Lease.Lease(1, Some(account)), Some(account), "r", map[], None, map[], true, 0);
            var read := Step(scope, accountKeyOf, s, BeginRead(1));
            var out := Step(scope, accountKeyOf, read, LoggedOut);
            var late := Step(scope, accountKeyOf, out, CompleteRead(1, Limits(None, limits, ""), 5));
            && Consistent(s) && Fresh(s) && late.lease.accountKey.None?
            && Cached(late).Some? && Cached(late).value.limits == limits
            && Step(scope, accountKeyOf, late, Notify(later, 6)) == late
  {
  }

  // ----- the controller object

  class AccountController {
    const scope: Scope
    const accountKeyOf: string -> string
    var lease: Lease
    var identity: Option<string>
    var revision: string
    var cache: map<string, Quota>
    var active: Option<string>
    var pending: map<nat, Lease>
    var subscribed: bool
    ghost var origin: nat

    ghost function Now(): State
      reads this
    {
      State(lease, identity, revision, cache, active, pending, subscribed, origin)
    }

    constructor (scope: Scope, accountKeyOf: string -> string, revision: string)
      ensures Consistent(Now()) && Fresh(Now()) && Cached(Now()).None?
      ensures this.scope == scope && this.accountKeyOf == accountKeyOf
    {
      this.scope, this.accountKeyOf, this.revision := scope, accountKeyOf, revision;
      lease, identity, cache, active, pending, subscribed, origin :=
          L.Lease.Lease(0, None), None, map[], None, map[], true, 0;
    }

    method CachedRateLimits() returns (r: Option<Quota>)
      ensures r == Cached(Now())
    {
      if active.None? { return None; }
      r := if active.value in cache then Some(cache[active.value]) else None;
    }

    method BeginReadRateLimits(call: nat) returns (begun: bool)
      requires Consistent(Now()) && call !in pending
      modifies this
      ensures Consistent(Now()) && Now() == Step(scope, accountKeyOf, old(Now()), BeginRead(call))
      ensures begun == (call in pending)
    {
      StepConsistent(scope, accountKeyOf, Now(), BeginRead(call));
      if lease.accountKey.None? || identity.None? { return false; }
      pending := pending[call := lease];
      begun := true;
    }

    method CompleteReadRateLimits(call: nat, reply: Reply, now: int) returns (r: Option<Quota>)
      requires Consistent(Now()) && call in pending
      modifies this
      ensures Consistent(Now()) && Now() == Step(scope, accountKeyOf, old(Now()), CompleteRead(call, reply, now))
      ensures r == if reply.Limits? then Cached(Now()) else None
    {
      StepConsistent(scope, accountKeyOf, Now(), CompleteRead(call, reply, now));
      var seen := pending[call];
      pending := pending - {call};
      if !reply.Limits? { return None; }
      var account := if reply.accountId.None? then seen.accountKey.value else accountKeyOf(reply.accountId.value);
      var key := CacheKey(scope, account, revision);
      var stored := Quota(reply.limits, reply.rest, now, key);
      cache := cache[key := stored];
      active := Some(key);
      origin := seen.generation;
      r := Some(stored);
    }

    method AcceptRateLimitUpdate(limits: Option<string>, now: int)
      requires Consistent(Now())
      modifies this
      ensures Consistent(Now()) && Now() == Step(scope, accountKeyOf, old(Now()), Notify(limits, now))
    {
      StepConsistent(scope, accountKeyOf, Now(), Notify(limits, now));
      if !subscribed || active.None? || active.value !in cache || lease.accountKey.None? || limits.None? { return; }
      cache := cache[active.value := cache[active.value].(limits := limits.value, observedAt := now)];
    }

    method InvalidateLocalState()
      modifies this
      ensures Now() == Invalidated(old(Now()))
    {
      identity := None;
      cache := map[];
      active := None;
      lease := L.Lease.Lease(lease.generation + 1, None);
    }

    /** #readIdentity from the reply on: only a subscription account activates the lease. */
    method FinishReadIdentity(account: Option<string>)
      requires Consistent(Now())
      modifies this
      ensures Consistent(Now()) && Now() == Step(scope, accountKeyOf, old(Now()), IdentityRead(account))
    {
      StepConsistent(scope, accountKeyOf, Now(), IdentityRead(account));
      if account.None? {
        InvalidateLocalState();
        return;
      }
      identity := account;
      cache := map[];
      active := None;
      lease := L.Lease.Lease(lease.generation + 1, account);
    }

    method RotateCredentialRevision(next: string) returns (rotated: bool)
      requires Consistent(Now())
      modifies this
      ensures Consistent(Now()) && Now() == Step(scope, accountKeyOf, old(Now()), Rotate(next))
      ensures rotated == (next != old(revision))
    {
      StepConsistent(scope, accountKeyOf, Now(), Rotate(next));
      if next == revision { return false; }
      revision := next;
      InvalidateLocalState();
      rotated := true;
    }

    method CloseController()
      requires Consistent(Now())
      modifies this
      ensures Consistent(Now()) && Now() == Step(scope, accountKeyOf, old(Now()), Close)
    {
      StepConsistent(scope, accountKeyOf, Now(), Close);
      subscribed := false;
      InvalidateLocalState();
    }
  }
}
