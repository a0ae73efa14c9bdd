/** The operator's local provider settings: a generation number, a counter of requests
    in flight and the status derived from them. `generate` awaits the provider once, so
    it is cut in two; replies arrive after any number of reconfigurations. */
module LocalAuthorProvider {
  import opened Wrappers

  datatype Status = NotConfigured | SettingsSaved | Requesting | Connected | Error

  datatype ErrorCode = AuthRequired | RateLimited | AbortedCode | TimeoutCode | InvalidResponse | BackendError | Network

  datatype Reply = Success | Failure(code: ErrorCode) | Thrown

  /** What `configure` meets: settings it refuses, a backend that throws, or neither. */
  datatype Attempt = Refused | BackendThrows | Accepted(settings: string)

  /** `calls` are the requests in flight with the generation they were started under;
      `issued` are the generations whose provider was handed to the backend. */
  datatype State = State(settings: Option<string>, status: Status, code: Option<ErrorCode>,
                         generation: nat, active: nat, calls: map<nat, nat>, issued: set<nat>)

  function Configured(s: State, a: Attempt): State {
    match a
    case Refused => s
    case BackendThrows => s
    case Accepted(settings) =>
      s.(settings := Some(settings), status := SettingsSaved, code := None, active := 0,
         generation := s.generation + 1, issued := s.issued + {s.generation + 1})
  }

  function Disconnected(s: State): State {
    s.(settings := None, status := NotConfigured, code := None, active := 0, generation := s.generation + 1)
  }

  /** The provider of generation `g` is asked; only the current one counts. */
  function Started(s: State, call: nat, g: nat): State {
    var s := s.(calls := s.calls[call := g]);
    if g == s.generation then s.(active := s.active + 1, status := Requesting, code := None) else s
  }

  function CodeOf(reply: Reply): Option<ErrorCode> {
    match reply
    case Success => None
    case Failure(code) => Some(code)
    case Thrown => Some(Network)
  }

  function Finished(s: State, call: nat, reply: Reply): State
    requires call in s.calls
  {
    var p := s.(calls := s.calls - {call});
    if s.calls[call] != s.generation then p
    else
      var left := if s.active > 0 then s.active - 1 else 0;
      p.(code := CodeOf(reply), active := left,
         status := if left > 0 then s.status else if reply.Success? then Connected else Error)
  }

  // ----- the invariant

  function Current(s: State): set<nat> {
    set c | c in s.calls && s.calls[c] == s.generation
  }

  ghost predicate Inv(s: State) {
    && s.active == |Current(s)|
    && (s.status == Requesting <==> s.active > 0)
    && (s.status == Error ==> s.code.Some?)
    && (s.status in {NotConfigured, SettingsSaved, Connected} ==> s.code.None?)
    && (s.status == NotConfigured <==> s.settings.None?)
    && (s.settings.Some? ==> s.generation in s.issued)
    && (s.settings.None? ==> s.generation !in s.issued)
    && (forall g | g in s.issued :: g <= s.generation)
    && (forall c | c in s.calls :: s.calls[c] <= s.generation)
  }

  class Provider {
    var settings: Option<string>
    var status: Status
    var code: Option<ErrorCode>
    var generation: nat
    var active: nat
    ghost var calls: map<nat, nat>
    ghost var issued: set<nat>

    ghost function Now(): State
      reads this
    {
      State(settings, status, code, generation, active, calls, issued)
    }

    constructor ()
      ensures Inv(Now()) && settings == None && status == NotConfigured
    {
      settings, status, code, generation, active := None, NotConfigured, None, 0, 0;
      calls, issued := map[], {};
    }

    method Configure(a: Attempt) returns (thrown: bool)
      requires Inv(Now())
      modifies this
      ensures Inv(Now()) && Now() == Configured(old(Now()), a)
      ensures thrown == !a.Accepted?
    {
      ConfigureInv(Now(), a);
      if a.Refused? { return true; }
      generation := generation + 1;
      if a.BackendThrows? {
        generation := generation - 1;
        return true;
      }
      issued := issued + {generation};
      settings := Some(a.settings);
      status := SettingsSaved;
      code := None;
      active := 0;
      thrown := false;
    }

    method Disconnect()
      requires Inv(Now())
      modifies this
      ensures Inv(Now()) && Now() == Disconnected(old(Now()))
    {
      DisconnectInv(Now());
      generation := generation + 1;
      settings := None;
      status := NotConfigured;
      code := None;
      active := 0;
    }

    /** generate, up to the call of the wrapped provider. */
    method Start(ghost call: nat, g: nat)
      requires Inv(Now()) && call !in calls && g in issued
      modifies this
      ensures Inv(Now()) && Now() == Started(old(Now()), call, g)
    {
      StartInv(Now(), call, g);
      if g == generation {
        active := active + 1;
        status := Requesting;
        code := None;
      }
      calls := calls[call := g];
    }

    /** generate, from the reply or the exception on. */
    method Finish(ghost call: nat, g: nat, reply: Reply)
      requires Inv(Now()) && call in calls && calls[call] == g
      modifies this
      ensures Inv(Now()) && Now() == Finished(old(Now()), call, reply)
    {
      FinishInv(Now(), call, reply);
      if g == generation {
        code := CodeOf(reply);
        active := if active > 0 then active - 1 else 0;
        if active == 0 { status := if reply.Success? then Connected else Error; }
      }
      calls := calls - {call};
    }
  }

  // ----- every call keeps the invariant

  lemma ConfigureInv(s: State, a: Attempt)
    requires Inv(s)
    ensures Inv(Configured(s, a))
  {
    if a.Accepted? { assert Current(Configured(s, a)) == {}; }
  }

  lemma DisconnectInv(s: State)
    requires Inv(s)
    ensures Inv(Disconnected(s))
  {
    assert Current(Disconnected(s)) == {};
  }

  lemma StartInv(s: State, call: nat, g: nat)
    requires Inv(s) && call !in s.calls && g in s.issued
    ensures Inv(Started(s, call, g))
  {
    var s' := Started(s, call, g);
    assert Current(s') == if g == s.generation then Current(s) + {call} else Current(s);
  }

  lemma FinishInv(s: State, call: nat, reply: Reply)
    requires Inv(s) && call in s.calls
    ensures Inv(Finished(s, call, reply))
  {
    var s' := Finished(s, call, reply);
    if s.calls[call] == s.generation {
      assert call in Current(s);
      assert Current(s') == Current(s) - {call};
    } else {
      assert Current(s') == Current(s);
    }
  }

  /** The clamp of the counter at zero is never needed: a reply that counts finds it positive. */
  lemma NeverClamps(s: State, call: nat)
    requires Inv(s) && call in s.calls && s.calls[call] == s.generation
    ensures s.active > 0
  {
    assert call in Current(s);
  }

  // ----- what each call leaves

  /** A reply to a current request sets the code of its failure, `network` where the provider
      threw; the last of them decides between connected and error, and while others are in
      flight the status stays requesting. Any other reply is only forgotten. */
  lemma FinishExactly(s: State, call: nat, reply: Reply)
    requires Inv(s) && call in s.calls
    ensures var (s', counts) := (Finished(s, call, reply), s.calls[call] == s.generation);
            && (forall c :: c in s'.calls <==> c in s.calls && c != call)
            && (forall c | c in s'.calls :: s'.calls[c] == s.calls[c])
            && s'.settings == s.settings && s'.generation == s.generation && s'.issued == s.issued
            && (!counts ==> s'.status == s.status && s'.code == s.code && s'.active == s.active)
            && (counts ==>
                  && s'.active == s.active - 1
                  && (s'.code == None <==> reply == Success)
                  && (reply.Failure? ==> s'.code == Some(reply.code))
                  && (reply.Thrown? ==> s'.code == Some(Network))
                  && (s.active > 1 ==> s'.status == Requesting)
                  && (s.active == 1 ==> s'.status == if reply == Success then Connected else Error))
  {
    if s.calls[call] == s.generation { NeverClamps(s, call); }
  }

  /** A request of the current generation is counted, shown and clears the code; another one
      is only remembered. */
  lemma StartExactly(s: State, call: nat, g: nat)
    requires Inv(s) && call !in s.calls
    ensures var s' := Started(s, call, g);
            && s'.calls.Keys == s.calls.Keys + {call} && s'.calls[call] == g
            && (forall c | c in s.calls :: s'.calls[c] == s.calls[c])
            && s'.settings == s.settings && s'.generation == s.generation && s'.issued == s.issued
            && (if g == s.generation then
                  s'.active == s.active + 1 && s'.status == Requesting && s'.code == None
                else s'.active == s.active && s'.status == s.status && s'.code == s.code)
  {
  }

  /** Accepted settings and a disconnection begin a generation in which nothing is in flight;
      settings that are refused, or that the backend throws on, change nothing. */
  lemma ConfigureExactly(s: State, a: Attempt)
    requires Inv(s)
    ensures var s' := Configured(s, a);
            && (!a.Accepted? ==> s' == s)
            && (a.Accepted? ==>
                  && s'.settings == Some(a.settings) && s'.status == SettingsSaved && s'.code == None
                  && s'.active == 0 && s'.generation == s.generation + 1 && s'.generation !in s.issued
                  && s'.issued == s.issued + {s'.generation} && s'.calls == s.calls && Current(s') == {})
    ensures var s' := Disconnected(s);
            && s'.settings == None && s'.status == NotConfigured && s'.code == None
            && s'.active == 0 && s'.generation == s.generation + 1
            && s'.issued == s.issued && s'.calls == s.calls && Current(s') == {}
  {
  }

  // ----- runs

  datatype Event =
    | Configure(attempt: Attempt)
    | Disconnect
    | Start(call: nat, generation: nat)
    | Finish(call: nat, reply: Reply)

  predicate Possible(s: State, e: Event) {
    match e
    case Start(call, g) => call !in s.calls && g in s.issued
    case Finish(call, _) => call in s.calls
    case _ => true
  }

  function Step(s: State, e: Event): State
    requires Possible(s, e)
  {
    match e
    case Configure(a) => Configured(s, a)
    case Disconnect => Disconnected(s)
    case Start(call, g) => Started(s, call, g)
    case Finish(call, reply) => Finished(s, call, reply)
  }

  /** The states of a run, in which impossible events do nothing. */
  function Exec(s: State, events: seq<Event>): State
    decreases |events|
  {
    if events == [] then s
    else Exec(if Possible(s, events[0]) then Step(s, events[0]) else s, events[1..])
  }

  /** Over every run the counter is the number of requests in flight under the current
      generation, and the status and error code tell the truth about them. */
  lemma {:induction false} ExecInv(s: State, events: seq<Event>)
    requires Inv(s)
    ensures Inv(Exec(s, events))
    decreases |events|
  {
    if events != [] {
      var e := events[0];
      if Possible(s, e) {
        match e {
          case Configure(a) => ConfigureInv(s, a);
          case Disconnect => DisconnectInv(s);
          case Start(call, g) => StartInv(s, call, g);
          case Finish(call, reply) => FinishInv(s, call, reply);
        }
        ExecInv(Step(s, e), events[1..]);
      } else {
        ExecInv(s, events[1..]);
      }
    }
  }

  /** What the status shows is untouched by requests of earlier generations. */
  function View(s: State): (Option<string>, Status, Option<ErrorCode>, nat) {
    (s.settings, s.status, s.code, s.active)
  }

  predicate Stale(s: State, e: Event) {
    match e
    case Start(_, g) => g != s.generation
    case Finish(call, _) => call in s.calls && s.calls[call] != s.generation
    case _ => false
  }

  lemma {:induction false} StaleRequestsAreInvisible(s: State, events: seq<Event>, n: nat)
    requires Inv(s) && n <= |events|
    requires forall i | 0 <= i < |events| :: events[i].Start? || events[i].Finish?
    requires forall i | 0 <= i < n ::
               Possible(Exec(s, events[..i]), events[i]) ==> Stale(Exec(s, events[..i]), events[i])
    ensures View(Exec(s, events[..n])) == View(s) && Exec(s, events[..n]).generation == s.generation
  {
    if n == 0 {
      assert events[..0] == [];
    } else {
      StaleRequestsAreInvisible(s, events, n - 1);
      ExecAppend(s, events[..n - 1], events[n - 1]);
      assert events[..n - 1] + [events[n - 1]] == events[..n];
    }
  }

  lemma {:induction false} ExecAppend(s: State, events: seq<Event>, e: Event)
    ensures var t := Exec(s, events);
            Exec(s, events + [e]) == if Possible(t, e) then Step(t, e) else t
    decreases |events|
  {
    if events == [] {
      assert (events + [e])[1..] == [];
    } else {
      var d := events[0];
      assert (events + [e])[1..] == events[1..] + [e];
      ExecAppend(if Possible(s, d) then Step(s, d) else s, events[1..], e);
    }
  }

  /** A provider that was built for a configuration that then failed must never be asked:
      its generation is handed out again, and its reply would clamp the counter. */
  lemma DiscardedProviderWouldClamp(s: State, call: nat, settings: string)
    requires Inv(s) && call !in s.calls && s.active == 0
    ensures var asked := Started(s, call, s.generation + 1);
            var t := Configured(asked, Accepted(settings));
            t.calls[call] == t.generation && t.active == 0 && Finished(t, call, Success).status == Connected
  {
  }
}
