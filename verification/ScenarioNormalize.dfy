/** The normaliser that turns an authored sidecar into a well-formed scenario, and the
    sidecar that is created once and bound at every later load. */
module ScenarioNormalize {
  import opened Json
  import opened Scenario
  import opened Strings
  import opened World
  import opened Wrappers

  const KIND := "core.authored-scenario"
  const FORMAT := "living-history.authored-scenario/1"

  /** A sidecar as it is stored: everything but the world state is unchecked JSON. */
  datatype Raw = Raw(format: Json, artifactHash: Json, questId: Json, initialState: WorldState, beats: Json)

  datatype Sidecar = Sidecar(kind: Json, data: Raw)

  // ----- one option

  function StatusOf(j: Option<Json>): Option<Status> {
    if HasText(j, "executed") then Some(Executed)
    else if HasText(j, "conditional") then Some(Conditional)
    else if HasText(j, "blocked") then Some(NotPossible)
    else None
  }

  function Elements(j: Option<Json>): Option<seq<Json>> {
    if j.Some? && j.value.JArray? then Some(j.value.elements) else None
  }

  /** normalizeTerminal, with the check of its caller: an absent terminal is none, a
      malformed one is refused. */
  function ParseTerminal(j: Option<Json>): Option<Option<Terminal>> {
    if j.None? then Some(None)
    else
      var reason, outcome := Text(Field(j.value, "reason")), Text(Field(j.value, "outcome"));
      if HasExactKeys(j.value, {"reason", "outcome"}) && reason.Some? && outcome.Some?
         && TerminalOk(Some(Terminal(reason.value, outcome.value)))
      then Some(Some(Terminal(reason.value, outcome.value))) else None
  }

  /** An optional text of bounded length. */
  function ParseText(j: Option<Json>, limit: nat): Option<Option<string>> {
    if j.None? then Some(None)
    else if Text(j).Some? && Utf16Length(Text(j).value) <= limit then Some(Text(j))
    else None
  }

  function ParseEffects(j: Option<Json>): Option<seq<Json>> {
    if Elements(j).Some? && |Elements(j).value| <= MAX_EFFECTS_PER_OPTION then Elements(j) else None
  }

  function CaseKeys(j: Json): set<string> {
    {"when", "status", "effects"} + if Field(j, "terminal").Some? then {"terminal"} else {}
  }

  /** One round of normalizeCases. */
  function ParseCase(j: Json, initial: WorldState): Option<Case> {
    var status, effects, terminal :=
        StatusOf(Field(j, "status")), ParseEffects(Field(j, "effects")), ParseTerminal(Field(j, "terminal"));
    if !HasExactKeys(j, CaseKeys(j)) || status.None? || effects.None? || terminal.None? then None
    else
      var c := Case(j.fields["when"], status.value, effects.value, terminal.value);
      if !EvaluateCondition(initial, c.when).Known? then None
      else if c.status == NotPossible && (|c.effects| > 0 || c.terminal.Some?) then None
      else Some(c)
  }

  function ParseAllCases(js: seq<Json>, initial: WorldState): Option<seq<Case>>
    ensures var r := ParseAllCases(js, initial);
            && (r.Some? <==> forall i | 0 <= i < |js| :: ParseCase(js[i], initial).Some?)
            && (r.Some? ==> |r.value| == |js|)
            && (r.Some? ==> forall i | 0 <= i < |js| :: r.value[i] == ParseCase(js[i], initial).value)
  {
    if forall i | 0 <= i < |js| :: ParseCase(js[i], initial).Some?
    then Some(seq(|js|, i requires 0 <= i < |js| => ParseCase(js[i], initial).value))
    else None
  }

  function ParseCases(j: Option<Json>, initial: WorldState): Option<seq<Case>> {
    if j.None? then Some([])
    else if Elements(j).None? || !(1 <= |Elements(j).value| <= MAX_CASES_PER_OPTION) then None
    else ParseAllCases(Elements(j).value, initial)
  }

  function ParseAdvance(j: Option<Json>): Option<int> {
    if j.Some? && j.value.JInt? && 0 <= j.value.number <= MAX_CLOCK_ADVANCE_SECONDS then Some(j.value.number) else None
  }

  /** One round of the inner loop, but for the identifiers already taken. */
  function ParseChoice(j: Json, initial: WorldState): Option<Choice> {
    var id, status, advance :=
        Id(Field(j, "id")), StatusOf(Field(j, "status")), ParseAdvance(Field(j, "clockAdvanceSeconds"));
    var effects, terminal, cases :=
        ParseEffects(Field(j, "effects")), ParseTerminal(Field(j, "terminal")), ParseCases(Field(j, "cases"), initial);
    var meaning := ParseText(Field(j, "meaning"), 2_000);
    if id.None? || status.None? || advance.None? || effects.None? || terminal.None? || cases.None? || meaning.None?
        then None
    else Some(Choice(id.value, status.value, advance.value, effects.value, terminal.value, cases.value, meaning.value))
  }

  // ----- one beat

  function ParseChoices(js: seq<Json>, initial: WorldState): Option<seq<Choice>>
    ensures var r := ParseChoices(js, initial);
            && (r.Some? <==> forall i | 0 <= i < |js| :: ParseChoice(js[i], initial).Some?)
            && (r.Some? ==> |r.value| == |js|)
            && (r.Some? ==> forall i | 0 <= i < |js| :: r.value[i] == ParseChoice(js[i], initial).value)
  {
    if forall i | 0 <= i < |js| :: ParseChoice(js[i], initial).Some?
    then Some(seq(|js|, i requires 0 <= i < |js| => ParseChoice(js[i], initial).value))
    else None
  }

  datatype BeatHead = BeatHead(id: string, title: Option<string>, options: seq<Json>)

  /** What is checked of a beat before its options are. */
  function ParseHead(j: Json): Option<BeatHead> {
    var id, title, options := Id(Field(j, "id")), ParseText(Field(j, "title"), 500), Elements(Field(j, "options"));
    if id.None? || title.None? || options.None? || !(1 <= |options.value| <= MAX_OPTIONS_PER_BEAT) then None
    else Some(BeatHead(id.value, title.value, options.value))
  }

  function ParseBeat(j: Json, initial: WorldState): Option<Beat> {
    var head := ParseHead(j);
    if head.None? then None
    else
      var options := ParseChoices(head.value.options, initial);
      if options.None? then None else Some(Beat(head.value.id, head.value.title, options.value))
  }

  function ParseAllBeats(js: seq<Json>, initial: WorldState): Option<seq<Beat>>
    ensures var r := ParseAllBeats(js, initial);
            && (r.Some? <==> forall i | 0 <= i < |js| :: ParseBeat(js[i], initial).Some?)
            && (r.Some? ==> |r.value| == |js|)
            && (r.Some? ==> forall i | 0 <= i < |js| :: r.value[i] == ParseBeat(js[i], initial).value)
  {
    if forall i | 0 <= i < |js| :: ParseBeat(js[i], initial).Some?
    then Some(seq(|js|, i requires 0 <= i < |js| => ParseBeat(js[i], initial).value))
    else None
  }

  /** The beats of a scenario: every one of them well formed by itself, no beat and no
      option identifier taken twice. */
  ghost function ParseBeats(js: seq<Json>, initial: WorldState): Option<seq<Beat>> {
    var beats := ParseAllBeats(js, initial);
    if beats.Some? && UniqueBeats(beats.value) && UniqueOptions(beats.value) then beats else None
  }

  predicate HeaderOk(raw: Raw) {
    && raw.format == JString(FORMAT)
    && raw.artifactHash.JString? && IsLowerHash(raw.artifactHash.text)
    && raw.questId.JString? && IsId(raw.questId.text)
    && raw.beats.JArray? && 1 <= |raw.beats.elements| <= MAX_BEATS
    && TryApply(raw.initialState, []).Applied? && raw.initialState.revision == 0 && raw.initialState.terminal.None?
  }

  /** normalizeScenario */
  ghost function Normalize(raw: Raw): Option<Scenario> {
    if !HeaderOk(raw) then None
    else
      var beats := ParseBeats(raw.beats.elements, raw.initialState);
      if beats.None? then None
      else Some(Scenario(raw.artifactHash.text, raw.questId.text, raw.initialState, beats.value))
  }

  // ----- the loops

  /** The loop of normalizeCases. */
  method NormalizeCases(j: Option<Json>, initial: WorldState) returns (r: Option<seq<Case>>)
    ensures r == ParseCases(j, initial)
  {
    hide ParseCase;
    if j.None? { return Some([]); }
    if Elements(j).None? || !(1 <= |Elements(j).value| <= MAX_CASES_PER_OPTION) { return None; }
    var js, cases := Elements(j).value, [];
    for i := 0 to |js|
      invariant |cases| == i
      invariant forall k | 0 <= k < i :: ParseCase(js[k], initial) == Some(cases[k])
    {
      var c := ParseCase(js[i], initial);
      if c.None? { return None; }
      cases := cases + [c.value];
    }
    assert cases == ParseAllCases(js, initial).value;
    r := Some(cases);
  }

  /** One round of the loop over the options, with the loop over the cases inside. */
  method NormalizeChoice(j: Json, initial: WorldState) returns (r: Option<Choice>)
    ensures r == ParseChoice(j, initial)
  {
    hide ParseTerminal, ParseText, ParseEffects, ParseAdvance, ParseCases, StatusOf, Id;
    var id, status, advance :=
        Id(Field(j, "id")), StatusOf(Field(j, "status")), ParseAdvance(Field(j, "clockAdvanceSeconds"));
    var effects, meaning := ParseEffects(Field(j, "effects")), ParseText(Field(j, "meaning"), 2_000);
    if id.None? || status.None? || advance.None? || effects.None? || meaning.None? { return None; }
    var terminal := ParseTerminal(Field(j, "terminal"));
    if terminal.None? { return None; }
    var cases := NormalizeCases(Field(j, "cases"), initial);
    if cases.None? { return None; }
    r := Some(Choice(id.value, status.value, advance.value, effects.value, terminal.value, cases.value, meaning.value));
  }

  /** The loop over the options of one beat; `taken` is the set of option identifiers,
      shared by all beats. */
  method NormalizeOptions(js: seq<Json>, initial: WorldState, taken: set<string>)
    returns (r: Option<seq<Choice>>, taken': set<string>)
    ensures r.Some? <==> && ParseChoices(js, initial).Some?
                         && DistinctAndFree(ParseChoices(js, initial).value, taken)
    ensures r.Some? ==> r == ParseChoices(js, initial)
    ensures r.Some? ==> forall id ::
              id in taken' <==> id in taken || exists k | 0 <= k < |r.value| :: r.value[k].id == id
  {
    hide ParseChoice;
    var options: seq<Choice> := [];
    taken' := taken;
    for i := 0 to |js|
      invariant |options| == i
      invariant forall k | 0 <= k < i :: ParseChoice(js[k], initial) == Some(options[k])
      invariant DistinctAndFree(options, taken)
      invariant forall id :: id in taken' <==> id in taken || exists k | 0 <= k < i :: options[k].id == id
    {
      var o := NormalizeChoice(js[i], initial);
      if o.None? { return None, taken'; }
      if o.value.id in taken' {
        if ParseChoices(js, initial).Some? {
          assert forall k | 0 <= k < i :: ParseChoices(js, initial).value[k] == options[k];
          assert ParseChoices(js, initial).value[i] == o.value;
        }
        return None, taken';
      }
      taken' := taken' + {o.value.id};
      options := options + [o.value];
    }
    assert options == ParseChoices(js, initial).value;
    r := Some(options);
  }

  /** No identifier twice, and none of those already taken. */
  predicate DistinctAndFree(options: seq<Choice>, taken: set<string>) {
    && (forall k | 0 <= k < |options| :: options[k].id !in taken)
    && (forall k, l | 0 <= k < l < |options| :: options[k].id != options[l].id)
  }

  ghost predicate Holds(ids: set<string>, beats: seq<Beat>) {
    forall id :: id in ids <==> exists i, k :: HasOption(beats, i, k, id)
  }

  lemma UniqueStep(beats: seq<Beat>, b: Beat, taken: set<string>)
    requires Holds(taken, beats)
    ensures UniqueOptions(beats + [b]) <==> UniqueOptions(beats) && DistinctAndFree(b.options, taken)
  {
    var all, n := beats + [b], |beats|;
    assert all[n] == b && forall i | 0 <= i < n :: all[i] == beats[i];
    assert forall i, k, id | HasOption(beats, i, k, id) :: HasOption(all, i, k, id);
    assert forall k | 0 <= k < |b.options| :: HasOption(all, n, k, b.options[k].id);
    assert forall i, k, id | HasOption(all, i, k, id) :: if i == n then b.options[k].id == id
        else HasOption(beats, i, k, id);
  }

  lemma HoldsStep(beats: seq<Beat>, b: Beat, taken: set<string>, taken': set<string>)
    requires Holds(taken, beats)
    requires forall id :: id in taken' <==> id in taken || exists k | 0 <= k < |b.options| :: b.options[k].id == id
    ensures Holds(taken', beats + [b])
  {
    var all, n := beats + [b], |beats|;
    forall id ensures id in taken' <==> exists i, k :: HasOption(all, i, k, id) {
      if id in taken {
        var i, k :| HasOption(beats, i, k, id);
        assert HasOption(all, i, k, id);
      } else if id in taken' {
        var k :| 0 <= k < |b.options| && b.options[k].id == id;
        assert HasOption(all, n, k, id);
      }
      if i, k :| HasOption(all, i, k, id) {
        if i < n { assert HasOption(beats, i, k, id); }
      }
    }
  }

  /** Beats that repeat an identifier early on repeat it for good. */
  lemma RepeatsStay(beats: seq<Beat>, i: nat)
    requires i <= |beats|
    ensures UniqueBeats(beats) ==> UniqueBeats(beats[..i])
    ensures UniqueOptions(beats) ==> UniqueOptions(beats[..i])
  {
    assert forall j, k, id | HasOption(beats[..i], j, k, id) :: HasOption(beats, j, k, id);
  }

  /** The loop over the beats, with the two sets of identifiers it fills. */
  method NormalizeBeats(js: seq<Json>, initial: WorldState) returns (r: Option<seq<Beat>>)
    ensures r == ParseBeats(js, initial)
  {
    hide ParseHead, ParseChoices, HasOption, DistinctAndFree, UniqueOptions, Holds;
    var beats: seq<Beat> := [];
    var beatIds: set<string>, optionIds: set<string> := {}, {};
    EmptyIsUnique();
    for n := 0 to |js|
      invariant |beats| == n
      invariant forall k | 0 <= k < n :: ParseBeat(js[k], initial) == Some(beats[k])
      invariant forall id :: id in beatIds <==> exists k | 0 <= k < n :: beats[k].id == id
      invariant UniqueBeats(beats) && UniqueOptions(beats) && Holds(optionIds, beats)
    {
      var head := ParseHead(js[n]);
      if head.None? { return None; }
      if head.value.id in beatIds {
        TakenBeat(js, initial, beats, head.value.id);
        return None;
      }
      beatIds := beatIds + {head.value.id};
      var options, optionIds' := NormalizeOptions(head.value.options, initial, optionIds);
      if ParseChoices(head.value.options, initial).Some? {
        var b := Beat(head.value.id, head.value.title, ParseChoices(head.value.options, initial).value);
        UniqueStep(beats, b, optionIds);
        if options.None? { TakenOption(js, initial, beats, b); }
      }
      if options.None? { return None; }
      var beat := Beat(head.value.id, head.value.title, options.value);
      HoldsStep(beats, beat, optionIds, optionIds');
      beats, optionIds := beats + [beat], optionIds';
    }
    assert ParseAllBeats(js, initial).value == beats;
    r := Some(beats);
  }

  /** normalizeScenario, with its loops. */
  method NormalizeScenario(raw: Raw) returns (r: Option<Scenario>)
    ensures r == Normalize(raw)
  {
    hide ParseBeats, IsId, IsLowerHash, TryApply;
    if !HeaderOk(raw) { return None; }
    var beats := NormalizeBeats(raw.beats.elements, raw.initialState);
    if beats.None? { return None; }
    r := Some(Scenario(raw.artifactHash.text, raw.questId.text, raw.initialState, beats.value));
  }

  lemma EmptyIsUnique()
    ensures UniqueOptions([]) && Holds({}, [])
  {
  }

  lemma TakenBeat(js: seq<Json>, initial: WorldState, beats: seq<Beat>, id: string)
    requires |beats| < |js| && forall k | 0 <= k < |beats| :: ParseBeat(js[k], initial) == Some(beats[k])
    requires ParseHead(js[|beats|]).Some? && ParseHead(js[|beats|]).value.id == id
    requires exists k | 0 <= k < |beats| :: beats[k].id == id
    ensures ParseBeats(js, initial).None?
  {
    hide ParseHead, ParseChoices, UniqueOptions;
    var all := ParseAllBeats(js, initial);
    if all.Some? {
      var k :| 0 <= k < |beats| && beats[k].id == id;
      assert all.value[k] == beats[k] && all.value[|beats|].id == id;
    }
  }

  lemma TakenOption(js: seq<Json>, initial: WorldState, beats: seq<Beat>, b: Beat)
    requires |beats| < |js| && forall k | 0 <= k < |beats| :: ParseBeat(js[k], initial) == Some(beats[k])
    requires ParseBeat(js[|beats|], initial) == Some(b) && !UniqueOptions(beats + [b])
    ensures ParseBeats(js, initial).None?
  {
    hide ParseBeat, UniqueOptions;
    var all := ParseAllBeats(js, initial);
    if all.Some? {
      assert all.value[..|beats| + 1] == beats + [b];
      RepeatsStay(all.value, |beats| + 1);
    }
  }

  // ----- normalised scenarios are the well-formed ones

  lemma ParsedCaseOk(j: Json, initial: WorldState)
    requires ParseCase(j, initial).Some?
    ensures CaseOk(ParseCase(j, initial).value, initial)
  {
    hide EvaluateCondition;
  }

  lemma ParsedChoiceOk(j: Json, initial: WorldState)
    requires ParseChoice(j, initial).Some?
    ensures ChoiceOk(ParseChoice(j, initial).value, initial)
  {
    hide ParseCase, CaseOk, IsId, StatusOf;
    var o := ParseChoice(j, initial).value;
    if Field(j, "cases").Some? {
      var js := Elements(Field(j, "cases")).value;
      forall i | 0 <= i < |js| ensures CaseOk(o.cases[i], initial) {
        ParsedCaseOk(js[i], initial);
      }
    }
  }

  lemma ParsedBeatOk(j: Json, initial: WorldState)
    requires ParseBeat(j, initial).Some?
    ensures BeatOk(ParseBeat(j, initial).value, initial)
  {
    hide ParseChoice, ChoiceOk, IsId;
    var b, head := ParseBeat(j, initial).value, ParseHead(j).value;
    forall i | 0 <= i < |b.options| ensures ChoiceOk(b.options[i], initial) {
      ParsedChoiceOk(head.options[i], initial);
    }
  }

  /** Whatever the input, a scenario that the normaliser returns is well formed. */
  lemma NormalizedIsWellFormed(raw: Raw)
    requires Normalize(raw).Some?
    ensures WellFormed(Normalize(raw).value)
  {
    hide ParseBeat, BeatOk, IsId, UniqueBeats, UniqueOptions, ApplyAll;
    var d := Normalize(raw).value;
    forall i | 0 <= i < |d.beats| ensures BeatOk(d.beats[i], d.initialState) {
      ParsedBeatOk(raw.beats.elements[i], raw.initialState);
    }
  }

  // ----- writing a scenario back

  function StatusText(s: Status): Json {
    JString(match s case Executed => "executed" case Conditional => "conditional" case NotPossible => "blocked")
  }

  function TerminalJson(t: Terminal): Json {
    JObject(map["reason" := JString(t.reason), "outcome" := JString(t.outcome)])
  }

  /** An optional property: spread into the object only when there is one. */
  function Optional(name: string, value: Option<Json>): map<string, Json> {
    if value.Some? then map[name := value.value] else map[]
  }

  function TerminalField(t: Option<Terminal>): map<string, Json> {
    Optional("terminal", if t.Some? then Some(TerminalJson(t.value)) else None)
  }

  function TextField(name: string, t: Option<string>): map<string, Json> {
    Optional(name, if t.Some? then Some(JString(t.value)) else None)
  }

  function CaseJson(c: Case): Json {
    JObject(map["when" := c.when, "status" := StatusText(c.status), "effects" := JArray(c.effects)]
        + TerminalField(c.terminal))
  }

  function CasesJson(cases: seq<Case>): Json {
    JArray(seq(|cases|, i requires 0 <= i < |cases| => CaseJson(cases[i])))
  }

  function ChoiceJson(o: Choice): Json {
    JObject(map["id" := JString(o.id), "status" := StatusText(o.status),
        "clockAdvanceSeconds" := JInt(o.clockAdvanceSeconds),
                "effects" := JArray(o.effects)]
            + TerminalField(o.terminal)
            + Optional("cases", if o.cases == [] then None else Some(CasesJson(o.cases)))
            + TextField("meaning", o.meaning))
  }

  function BeatJson(b: Beat): Json {
    JObject(map["id" := JString(b.id),
        "options" := JArray(seq(|b.options|, i requires 0 <= i < |b.options| => ChoiceJson(b.options[i])))]
            + TextField("title", b.title))
  }

  function BeatsJson(beats: seq<Beat>): Json {
    JArray(seq(|beats|, i requires 0 <= i < |beats| => BeatJson(beats[i])))
  }

  function ToRaw(d: Scenario): Raw {
    Raw(JString(FORMAT), JString(d.artifactHash), JString(d.questId), d.initialState, BeatsJson(d.beats))
  }

  lemma TerminalSurvives(t: Option<Terminal>)
    requires TerminalOk(t)
    ensures ParseTerminal(if t.Some? then Some(TerminalJson(t.value)) else None) == Some(t)
  {
    hide Utf16Length;
  }

  lemma CaseSurvives(c: Case, initial: WorldState)
    requires CaseOk(c, initial)
    ensures ParseCase(CaseJson(c), initial) == Some(c)
  {
    hide EvaluateCondition, ParseTerminal, TerminalOk, TerminalJson;
    TerminalSurvives(c.terminal);
    var j := CaseJson(c);
    assert j.fields.Keys == CaseKeys(j);
  }

  lemma CasesSurvive(o: Choice, initial: WorldState)
    requires ChoiceOk(o, initial)
    ensures ParseCases(if o.cases == [] then None else Some(CasesJson(o.cases)), initial) == Some(o.cases)
  {
    hide ParseCase, CaseOk, CaseJson, IsId, TerminalOk, Utf16Length;
    forall i | 0 <= i < |o.cases| ensures ParseCase(CaseJson(o.cases[i]), initial) == Some(o.cases[i]) {
      CaseSurvives(o.cases[i], initial);
    }
    assert ParseAllCases(CasesJson(o.cases).elements, initial).value == o.cases;
  }

  lemma ChoiceSurvives(o: Choice, initial: WorldState)
    requires ChoiceOk(o, initial)
    ensures ParseChoice(ChoiceJson(o), initial) == Some(o)
  {
    hide ParseCases, ParseTerminal, CasesJson, CaseOk, IsId, TerminalOk, TerminalJson, Utf16Length, ChoiceJson;
    TerminalSurvives(o.terminal);
    CasesSurvive(o, initial);
    ChoiceFields(o);
    OptionalFields(o);
  }

  /** The properties of a written option, read back one by one. */
  lemma ChoiceFields(o: Choice)
    ensures var j := ChoiceJson(o);
            && Field(j, "id") == Some(JString(o.id)) && Field(j, "status") == Some(StatusText(o.status))
            && Field(j, "clockAdvanceSeconds") == Some(JInt(o.clockAdvanceSeconds))
            && Field(j, "effects") == Some(JArray(o.effects))
  {
    hide TerminalJson, CasesJson, StatusText;
  }

  lemma OptionalFields(o: Choice)
    ensures var j := ChoiceJson(o);
            && Field(j, "terminal") == (if o.terminal.Some? then Some(TerminalJson(o.terminal.value)) else None)
            && Field(j, "cases") == (if o.cases == [] then None else Some(CasesJson(o.cases)))
            && Field(j, "meaning") == if o.meaning.Some? then Some(JString(o.meaning.value)) else None
  {
    hide TerminalJson, CasesJson, StatusText;
  }

  lemma BeatSurvives(b: Beat, initial: WorldState)
    requires BeatOk(b, initial)
    ensures ParseBeat(BeatJson(b), initial) == Some(b)
  {
    hide ParseChoice, ChoiceOk, ChoiceJson, IsId, Utf16Length;
    var j := BeatJson(b);
    assert Field(j, "title") == if b.title.Some? then Some(JString(b.title.value)) else None;
    forall i | 0 <= i < |b.options| ensures ParseChoice(ChoiceJson(b.options[i]), initial) == Some(b.options[i]) {
      ChoiceSurvives(b.options[i], initial);
    }
    assert Field(j, "options")
        == Some(JArray(seq(|b.options|, i requires 0 <= i < |b.options| => ChoiceJson(b.options[i]))));
    assert ParseChoices(ParseHead(j).value.options, initial).value == b.options;
  }

  /** A well-formed scenario, written back and normalised, is unchanged. */
  lemma WellFormedIsFixed(d: Scenario)
    requires WellFormed(d)
    ensures Normalize(ToRaw(d)) == Some(d)
  {
    hide ParseBeat, BeatOk, BeatJson, IsId, IsLowerHash, ValidState, UniqueBeats, UniqueOptions;
    NothingApplied(d.initialState);
    forall i | 0 <= i < |d.beats| ensures ParseBeat(BeatJson(d.beats[i]), d.initialState) == Some(d.beats[i]) {
      BeatSurvives(d.beats[i], d.initialState);
    }
    assert ParseAllBeats(ToRaw(d).beats.elements, d.initialState).value == d.beats;
  }

  /** Normalising is idempotent, and its results are exactly the well-formed scenarios. */
  lemma NormalizeIsIdempotent(raw: Raw)
    requires Normalize(raw).Some?
    ensures Normalize(ToRaw(Normalize(raw).value)) == Normalize(raw)
  {
    NormalizedIsWellFormed(raw);
    WellFormedIsFixed(Normalize(raw).value);
  }

  lemma ImageIsWellFormed(d: Scenario)
    ensures (exists raw :: Normalize(raw) == Some(d)) <==> WellFormed(d)
  {
    if WellFormed(d) { WellFormedIsFixed(d); }
    if raw :| Normalize(raw) == Some(d) { NormalizedIsWellFormed(raw); }
  }

  // ----- what is accepted, field by field

  lemma StatusExactly(j: Option<Json>, status: Status)
    ensures StatusOf(j) == Some(status) <==> j == Some(StatusText(status))
  {
  }

  lemma TerminalExactly(j: Option<Json>, t: Option<Terminal>)
    ensures ParseTerminal(j) == Some(t) <==>
              TerminalOk(t) && j == (if t.Some? then Some(TerminalJson(t.value)) else None)
  {
    TerminalSurvivesIfOk(t);
    hide Utf16Length;
    if ParseTerminal(j) == Some(t) && t.Some? { assert j.value.fields == TerminalJson(t.value).fields; }
  }

  lemma TerminalSurvivesIfOk(t: Option<Terminal>)
    ensures TerminalOk(t) ==> ParseTerminal(if t.Some? then Some(TerminalJson(t.value)) else None) == Some(t)
  {
    if TerminalOk(t) { TerminalSurvives(t); }
  }

  /** A case is accepted exactly when it is the writing of one that is well formed. */
  lemma CaseExactly(j: Json, initial: WorldState, c: Case)
    ensures ParseCase(j, initial) == Some(c) <==> CaseOk(c, initial) && j == CaseJson(c)
  {
    hide EvaluateCondition, ParseTerminal, TerminalOk, TerminalJson, StatusOf, StatusText, CaseOk;
    if CaseOk(c, initial) { CaseSurvives(c, initial); }
    if ParseCase(j, initial) == Some(c) {
      ParsedCaseOk(j, initial);
      StatusExactly(Field(j, "status"), c.status);
      TerminalExactly(Field(j, "terminal"), c.terminal);
      assert j.fields == CaseJson(c).fields;
    }
  }

  lemma CasesExactly(j: Option<Json>, initial: WorldState, cases: seq<Case>)
    ensures ParseCases(j, initial) == Some(cases) <==>
              && |cases| <= MAX_CASES_PER_OPTION && (forall i | 0 <= i < |cases| :: CaseOk(cases[i], initial))
              && j == (if cases == [] then None else Some(CasesJson(cases)))
  {
    hide ParseCase, CaseOk, CaseJson;
    if j.Some? && j.value.JArray? {
      var js := j.value.elements;
      forall i | 0 <= i < |js| && i < |cases|
        ensures ParseCase(js[i], initial) == Some(cases[i])
            <==> CaseOk(cases[i], initial) && js[i] == CaseJson(cases[i])
      {
        CaseExactly(js[i], initial, cases[i]);
      }
      if ParseCases(j, initial) == Some(cases) {
        assert js == CasesJson(cases).elements;
      } else if |js| == |cases| && ParseAllCases(js, initial).Some? {
        assert ParseAllCases(js, initial).value != cases || !(1 <= |js| <= MAX_CASES_PER_OPTION);
      }
    }
  }

  /** The properties of an option, as its author has to write them; others are ignored. */
  predicate Writes(j: Json, o: Choice) {
    && Field(j, "id") == Some(JString(o.id)) && Field(j, "status") == Some(StatusText(o.status))
    && Field(j, "clockAdvanceSeconds") == Some(JInt(o.clockAdvanceSeconds))
    && Field(j, "effects") == Some(JArray(o.effects))
    && Field(j, "terminal") == (if o.terminal.Some? then Some(TerminalJson(o.terminal.value)) else None)
    && Field(j, "cases") == (if o.cases == [] then None else Some(CasesJson(o.cases)))
    && Field(j, "meaning") == if o.meaning.Some? then Some(JString(o.meaning.value)) else None
  }

  lemma PlainFieldsExactly(j: Json, o: Choice)
    ensures Id(Field(j, "id")) == Some(o.id) <==> IsId(o.id) && Field(j, "id") == Some(JString(o.id))
    ensures ParseAdvance(Field(j, "clockAdvanceSeconds")) == Some(o.clockAdvanceSeconds) <==>
              && 0 <= o.clockAdvanceSeconds <= 31_536_000
              && Field(j, "clockAdvanceSeconds") == Some(JInt(o.clockAdvanceSeconds))
    ensures ParseEffects(Field(j, "effects")) == Some(o.effects) <==>
              |o.effects| <= 100 && Field(j, "effects") == Some(JArray(o.effects))
  {
    hide IsId;
  }

  lemma TextExactly(j: Option<Json>, limit: nat, t: Option<string>)
    ensures ParseText(j, limit) == Some(t) <==>
              (t.Some? ==> Utf16Length(t.value) <= limit) && j == if t.Some? then Some(JString(t.value)) else None
  {
    hide Utf16Length;
  }

  /** An option is accepted exactly when its properties are the writing of a well-formed one. */
  lemma ChoiceExactly(j: Json, initial: WorldState, o: Choice)
    ensures ParseChoice(j, initial) == Some(o) <==> ChoiceOk(o, initial) && Writes(j, o)
  {
    PlainFieldsExactly(j, o);
    StatusExactly(Field(j, "status"), o.status);
    TerminalExactly(Field(j, "terminal"), o.terminal);
    CasesExactly(Field(j, "cases"), initial, o.cases);
    TextExactly(Field(j, "meaning"), 2_000, o.meaning);
    hide IsId, Id, ParseAdvance, ParseEffects, StatusOf, StatusText, ParseTerminal, TerminalOk, TerminalJson,
         ParseCases, CasesJson, CaseOk, ParseText, Utf16Length, Field;
  }

  /** The properties of a beat. */
  predicate WritesBeat(j: Json, b: Beat) {
    && Field(j, "id") == Some(JString(b.id))
    && Field(j, "title") == (if b.title.Some? then Some(JString(b.title.value)) else None)
    && var options := Elements(Field(j, "options"));
       && options.Some? && |options.value| == |b.options|
       && forall k | 0 <= k < |b.options| :: Writes(options.value[k], b.options[k])
  }

  /** A beat is accepted exactly when its properties are the writing of a well-formed one. */
  lemma BeatExactly(j: Json, initial: WorldState, b: Beat)
    ensures ParseBeat(j, initial) == Some(b) <==> BeatOk(b, initial) && WritesBeat(j, b)
  {
    TextExactly(Field(j, "title"), 500, b.title);
    hide ParseChoice, ChoiceOk, Writes, IsId, Utf16Length, ParseText, Field;
    var options := Elements(Field(j, "options"));
    if options.Some? {
      forall k | 0 <= k < |options.value| && k < |b.options|
        ensures ParseChoice(options.value[k], initial) == Some(b.options[k])
            <==> ChoiceOk(b.options[k], initial) && Writes(options.value[k], b.options[k])
      {
        ChoiceExactly(options.value[k], initial, b.options[k]);
      }
      ChoicesExactly(options.value, initial, b.options);
    }
  }

  lemma ChoicesExactly(js: seq<Json>, initial: WorldState, options: seq<Choice>)
    ensures ParseChoices(js, initial) == Some(options) <==>
              |js| == |options| && forall k | 0 <= k < |js| :: ParseChoice(js[k], initial) == Some(options[k])
  {
    hide ParseChoice;
    if |js| == |options| && forall k | 0 <= k < |js| :: ParseChoice(js[k], initial) == Some(options[k]) {
      assert ParseChoices(js, initial).value == options;
    }
  }

  lemma BeatsExactly(js: seq<Json>, initial: WorldState, beats: seq<Beat>)
    ensures ParseAllBeats(js, initial) == Some(beats) <==>
              && |js| == |beats|
              && forall k | 0 <= k < |js| :: BeatOk(beats[k], initial) && WritesBeat(js[k], beats[k])
  {
    hide ParseBeat, BeatOk, WritesBeat;
    forall k | 0 <= k < |js| && k < |beats|
      ensures ParseBeat(js[k], initial) == Some(beats[k]) <==> BeatOk(beats[k], initial) && WritesBeat(js[k], beats[k])
    {
      BeatExactly(js[k], initial, beats[k]);
    }
    if |js| == |beats| && forall k | 0 <= k < |js| :: ParseBeat(js[k], initial) == Some(beats[k]) {
      assert ParseAllBeats(js, initial).value == beats;
    }
  }

  /** A sidecar is normalised to a scenario exactly when the scenario is well formed and the
      sidecar writes it: its header, and every property of every beat and option. */
  lemma NormalizeExactly(raw: Raw, d: Scenario)
    ensures Normalize(raw) == Some(d) <==>
              && WellFormed(d)
              && raw.format == JString("living-history.authored-scenario/1")
              && raw.artifactHash == JString(d.artifactHash) && raw.questId == JString(d.questId)
              && raw.initialState == d.initialState
              && raw.beats.JArray? && |raw.beats.elements| == |d.beats|
              && forall k | 0 <= k < |d.beats| :: WritesBeat(raw.beats.elements[k], d.beats[k])
  {
    if raw.beats.JArray? { BeatsExactly(raw.beats.elements, d.initialState, d.beats); }
    if Normalize(raw) == Some(d) { NormalizedIsWellFormed(raw); }
    if ValidState(d.initialState) { NothingApplied(d.initialState); }
    hide ParseAllBeats, BeatOk, WritesBeat, IsId, IsLowerHash, ValidState, UniqueBeats, UniqueOptions, ApplyAll;
  }

  // ----- the sidecar

  /** extractBeats */
  function ExtractBeats(j: Json): Json {
    if Field(j, "beats").Some? && Field(j, "beats").value.JArray? then Field(j, "beats").value else j
  }

  /** createAuthoredScenarioSidecar */
  ghost function Create(artifactHash: string, questId: string, initialState: WorldState, beats: Json): Option<Sidecar> {
    var d := Normalize(Raw(JString(FORMAT), JString(artifactHash), JString(questId), initialState,
        ExtractBeats(beats)));
    if d.None? then None else Some(Sidecar(JString(KIND), ToRaw(d.value)))
  }

  /** bindAuthoredScenarioSidecar */
  ghost function Bind(sidecar: Sidecar, artifactHash: string, questId: string): Option<Scenario> {
    if sidecar.kind != JString(KIND) then None
    else
      var d := Normalize(sidecar.data);
      if d.None? || d.value.artifactHash != artifactHash || d.value.questId != questId then None else d
  }

  /** A sidecar is created for a scenario exactly when the beats, given as a list or as an
      object that holds one, write it under this hash, quest and state. */
  lemma CreateExactly(artifactHash: string, questId: string, initialState: WorldState, beats: Json, d: Scenario)
    requires WellFormed(d)
    ensures var created := Create(artifactHash, questId, initialState, beats);
            var held := Field(beats, "beats");
            var listed := if held.Some? && held.value.JArray? then held.value else beats;
            && (created == Some(Sidecar(JString("core.authored-scenario"), ToRaw(d))) <==>
                  && d.artifactHash == artifactHash && d.questId == questId && d.initialState == initialState
                  && listed.JArray? && |listed.elements| == |d.beats|
                  && forall k | 0 <= k < |d.beats| :: WritesBeat(listed.elements[k], d.beats[k]))
            && (created.Some? ==>
                  exists x :: WellFormed(x) && created == Some(Sidecar(JString("core.authored-scenario"), ToRaw(x))))
  {
    var raw := Raw(JString(FORMAT), JString(artifactHash), JString(questId), initialState, ExtractBeats(beats));
    NormalizeExactly(raw, d);
    WellFormedIsFixed(d);
    if Normalize(raw).Some? {
      NormalizedIsWellFormed(raw);
      WellFormedIsFixed(Normalize(raw).value);
    }
    hide Normalize, WellFormed, ToRaw, WritesBeat;
  }

  /** A sidecar binds to a scenario exactly when it is of the kind, writes that scenario, and
      the scenario is of this artifact and quest. */
  lemma BindExactly(sidecar: Sidecar, artifactHash: string, questId: string, d: Scenario)
    ensures Bind(sidecar, artifactHash, questId) == Some(d) <==>
              && sidecar.kind == JString("core.authored-scenario")
              && Normalize(sidecar.data) == Some(d) && d.artifactHash == artifactHash && d.questId == questId
  {
    hide Normalize;
  }

  /** A sidecar that was created binds under its own hash and quest, to the very data it
      was created with, and under no others. */
  lemma CreatedBinds(artifactHash: string, questId: string, initialState: WorldState, beats: Json, hash: string,
      quest: string)
    requires Create(artifactHash, questId, initialState, beats).Some?
    ensures var sidecar := Create(artifactHash, questId, initialState, beats).value;
            && Bind(sidecar, hash, quest).Some? == (hash == artifactHash && quest == questId)
            && (Bind(sidecar, hash, quest).Some? ==>
                  && ToRaw(Bind(sidecar, hash, quest).value) == sidecar.data
                  && WellFormed(Bind(sidecar, hash, quest).value)
                  && Bind(sidecar, hash, quest).value.initialState == initialState)
  {
    hide ParseBeats, IsId, IsLowerHash, ApplyAll;
    var raw := Raw(JString(FORMAT), JString(artifactHash), JString(questId), initialState, ExtractBeats(beats));
    NormalizeIsIdempotent(raw);
    NormalizedIsWellFormed(raw);
  }
}
