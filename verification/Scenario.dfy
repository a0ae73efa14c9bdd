/** The authored scenario engine: beats indexed by the revision of the world, options
    resolved by their first matching case, and the runs that committed options make. */
module Scenario {
  import opened Json
  import opened Numbers
  import opened Strings
  import opened World
  import opened Wrappers

  const MAX_BEATS := 100
  const MAX_OPTIONS_PER_BEAT := 20
  const MAX_CASES_PER_OPTION := 20
  const MAX_EFFECTS_PER_OPTION := 100
  const MAX_CLOCK_ADVANCE_SECONDS := 31_536_000

  datatype Status = Executed | Conditional | NotPossible

  datatype Case = Case(when: Json, status: Status, effects: seq<Json>, terminal: Option<Terminal>)

  datatype Choice = Choice(
    id: string,
    status: Status,
    clockAdvanceSeconds: int,
    effects: seq<Json>,
    terminal: Option<Terminal>,
    cases: seq<Case>,
    meaning: Option<string>)

  datatype Beat = Beat(id: string, title: Option<string>, options: seq<Choice>)

  datatype Scenario = Scenario(artifactHash: string, questId: string, initialState: WorldState, beats: seq<Beat>)

  datatype Reason =
    | ActionTypeNotSupported
    | OptionIdRequired
    | InvalidOptionId
    | InvalidState
    | ScenarioTerminal
    | RevisionExhausted
    | BeatNotAvailable
    | OptionNotAvailable
    | CaseError(condition: ConditionFailure)
    | AuthoredBlocked
    | EffectError(effect: EffectFailure)
    | ClockOverflow

  datatype Execution =
    | Committed(optionId: string, beatId: string, status: Status, durationSeconds: int, state: WorldState)
    | Blocked(option: Option<string>, beat: Option<string>, reason: Reason)

  // ----- resolving an option

  datatype Resolved =
    | Resolved(status: Status, effects: seq<Json>, terminal: Option<Terminal>)
    | Unresolved(code: ConditionFailure)

  /** A case without a terminal of its own keeps the one of its option. */
  function FromCase(o: Choice, c: Case): Resolved {
    Resolved(c.status, c.effects, if c.terminal.Some? then c.terminal else o.terminal)
  }

  function FromOption(o: Choice): Resolved {
    Resolved(o.status, o.effects, o.terminal)
  }

  function CaseTruth(o: Choice, s: WorldState, i: nat): Truth
    requires i < |o.cases|
  {
    EvaluateCondition(s, o.cases[i].when)
  }

  /** resolveOption from its i-th case on. */
  function ResolveFrom(o: Choice, s: WorldState, i: nat): Resolved
    requires i <= |o.cases|
    decreases |o.cases| - i
  {
    if i == |o.cases| then FromOption(o)
    else
      var truth := CaseTruth(o, s, i);
      if truth.Broken? then Unresolved(truth.code)
      else if truth.value then FromCase(o, o.cases[i])
      else ResolveFrom(o, s, i + 1)
  }

  function Resolve(o: Choice, s: WorldState): Resolved {
    ResolveFrom(o, s, 0)
  }

  /** The cases before i are all known to be false. */
  predicate Passed(o: Choice, s: WorldState, i: nat)
    requires i <= |o.cases|
  {
    forall k | 0 <= k < i :: CaseTruth(o, s, k) == Known(false)
  }

  lemma {:induction false} PassedResolves(o: Choice, s: WorldState, i: nat)
    requires i <= |o.cases| && Passed(o, s, i)
    ensures Resolve(o, s) == ResolveFrom(o, s, i)
  {
    hide CaseTruth;
    if i > 0 { PassedResolves(o, s, i - 1); }
  }

  /** The outcome of an option whose cases before the i-th are false: with no case left the
      option as it is written, else what the i-th case says, where a case without a terminal
      of its own keeps the one of the option. */
  predicate Decides(o: Choice, s: WorldState, i: nat, r: Resolved)
    requires i <= |o.cases|
  {
    && Passed(o, s, i)
    && if i == |o.cases| then r.Resolved? && r.status == o.status && r.effects == o.effects && r.terminal == o.terminal
       else
         var c := o.cases[i];
         match CaseTruth(o, s, i)
         case Broken(code) => r == Unresolved(code)
         case Known(value) =>
           && value && r.Resolved? && r.status == c.status && r.effects == c.effects
           && (c.terminal.Some? ==> r.terminal == c.terminal) && (c.terminal.None? ==> r.terminal == o.terminal)
  }

  /** The first case that is not known to be false decides, and no other outcome is possible. */
  lemma FirstCaseDecides(o: Choice, s: WorldState, r: Resolved)
    ensures r == Resolve(o, s) <==> exists i | 0 <= i <= |o.cases| :: Decides(o, s, i, r)
  {
    var i := Deciding(o, s, 0);
    PassedResolves(o, s, i);
    assert Decides(o, s, i, Resolve(o, s)) by { hide EvaluateCondition; }
    if j :| 0 <= j <= |o.cases| && Decides(o, s, j, r) { PassedResolves(o, s, j); }
  }

  /** The place of that case, from the i-th on. */
  ghost function Deciding(o: Choice, s: WorldState, i: nat): (j: nat)
    requires i <= |o.cases| && Passed(o, s, i)
    ensures i <= j <= |o.cases| && Passed(o, s, j) && (j < |o.cases| ==> CaseTruth(o, s, j) != Known(false))
    decreases |o.cases| - i
  {
    if i == |o.cases| || CaseTruth(o, s, i) != Known(false) then i else Deciding(o, s, i + 1)
  }

  /** resolveOption as the loop over the cases. */
  method ResolveOption(o: Choice, s: WorldState) returns (r: Resolved)
    ensures r == Resolve(o, s)
    ensures exists i | 0 <= i <= |o.cases| :: Decides(o, s, i, r)
  {
    FirstCaseDecides(o, s, Resolve(o, s));
    hide FromCase, FromOption;
    var i := 0;
    while i < |o.cases|
      invariant 0 <= i <= |o.cases| && Passed(o, s, i)
    {
      PassedResolves(o, s, i);
      var truth := EvaluateCondition(s, o.cases[i].when);
      assert truth == CaseTruth(o, s, i);
      if truth.Broken? { return Unresolved(truth.code); }
      if truth.value { return FromCase(o, o.cases[i]); }
      i := i + 1;
    }
    PassedResolves(o, s, i);
    r := FromOption(o);
  }

  // ----- executing an option

  predicate BeatAt(d: Scenario, s: WorldState) {
    0 <= s.revision < |d.beats|
  }

  function OptionIds(options: seq<Choice>): (ids: seq<string>)
    ensures |ids| == |options|
  {
    seq(|options|, i requires 0 <= i < |options| => options[i].id)
  }

  /** The end of executeAuthoredOption, once the option is resolved. */
  function Commit(s: WorldState, beat: Beat, o: Choice, resolved: Resolved): Execution {
    if resolved.Unresolved? then Blocked(Some(o.id), Some(beat.id), CaseError(resolved.code))
    else if resolved.status == NotPossible then Blocked(Some(o.id), Some(beat.id), AuthoredBlocked)
    else
      var applied := TryApply(s, resolved.effects);
      if applied.Refused? then Blocked(Some(o.id), Some(beat.id), EffectError(applied.code))
      else if !IsSafeInteger(s.elapsedSeconds + o.clockAdvanceSeconds)
          then Blocked(Some(o.id), Some(beat.id), ClockOverflow)
      else
        Committed(o.id, beat.id, resolved.status, o.clockAdvanceSeconds,
                  applied.state.(revision := s.revision + 1,
                                 elapsedSeconds := s.elapsedSeconds + o.clockAdvanceSeconds,
                                 terminal := if resolved.terminal.Some? then resolved.terminal else s.terminal))
  }

  /** executeAuthoredOption */
  function ExecuteOption(d: Scenario, s: WorldState, optionId: string): Execution {
    if !IsId(optionId) then Blocked(None, None, InvalidOptionId)
    else if !TryApply(s, []).Applied? then Blocked(Some(optionId), None, InvalidState)
    else if s.terminal.Some? then Blocked(Some(optionId), None, ScenarioTerminal)
    else if s.revision == MAX_SAFE_INTEGER then Blocked(Some(optionId), None, RevisionExhausted)
    else if !BeatAt(d, s) then Blocked(Some(optionId), None, BeatNotAvailable)
    else
      var beat := d.beats[s.revision];
      var at := IndexOf(OptionIds(beat.options), optionId);
      if at.None? then Blocked(Some(optionId), Some(beat.id), OptionNotAvailable)
      else Commit(s, beat, beat.options[at.value], Resolve(beat.options[at.value], s))
  }

  // ----- what is shown to the player

  datatype OptionView = OptionView(id: string, status: Status, meaning: Option<string>)

  datatype BeatView = BeatView(id: string, title: Option<string>, options: seq<OptionView>)

  datatype Situation = Situation(questId: string, revision: int, elapsedSeconds: int, beat: Option<BeatView>)

  function AdvertisedStatus(o: Choice, s: WorldState): Status {
    var resolved := Resolve(o, s);
    if resolved.Resolved? then resolved.status else NotPossible
  }

  function ViewOf(o: Choice, s: WorldState): OptionView {
    OptionView(o.id, AdvertisedStatus(o, s), o.meaning)
  }

  /** authoredScenarioPublicSituation */
  function PublicSituation(d: Scenario, s: WorldState): Situation {
    Situation(
      d.questId, s.revision, s.elapsedSeconds,
      if !BeatAt(d, s) then None
      else
        var b := d.beats[s.revision];
        Some(BeatView(b.id, b.title, seq(|b.options|, i requires 0 <= i < |b.options| => ViewOf(b.options[i], s)))))
  }

  /** The public situation carries the quest, the revision and the clock of the state; the
      beat that its revision selects, if there is one; and of each option the identifier, the
      meaning and the status it would be executed with, blocked if its cases are broken. */
  lemma SituationShows(d: Scenario, s: WorldState)
    ensures var shown := PublicSituation(d, s);
            && shown.questId == d.questId && shown.revision == s.revision && shown.elapsedSeconds == s.elapsedSeconds
            && (shown.beat.Some? <==> 0 <= s.revision < |d.beats|)
            && (shown.beat.Some? ==>
                  var (b, view) := (d.beats[s.revision], shown.beat.value);
                  && view.id == b.id && view.title == b.title && |view.options| == |b.options|
                  && forall k | 0 <= k < |b.options| ::
                       && view.options[k].id == b.options[k].id && view.options[k].meaning == b.options[k].meaning
                       && (Resolve(b.options[k], s).Resolved? ==>
                             view.options[k].status == Resolve(b.options[k], s).status)
                       && (Resolve(b.options[k], s).Unresolved? ==> view.options[k].status == NotPossible))
  {
    hide ResolveFrom;
  }

  // ----- well-formed scenarios

  predicate TerminalOk(t: Option<Terminal>) {
    t.Some? ==> 1 <= Utf16Length(t.value.reason) <= 500 && 1 <= Utf16Length(t.value.outcome) <= 2_000
  }

  predicate CaseOk(c: Case, initial: WorldState) {
    && EvaluateCondition(initial, c.when).Known?
    && |c.effects| <= MAX_EFFECTS_PER_OPTION && TerminalOk(c.terminal)
    && (c.status == NotPossible ==> c.effects == [] && c.terminal.None?)
  }

  predicate ChoiceOk(o: Choice, initial: WorldState) {
    && IsId(o.id) && 0 <= o.clockAdvanceSeconds <= MAX_CLOCK_ADVANCE_SECONDS
    && |o.effects| <= MAX_EFFECTS_PER_OPTION && TerminalOk(o.terminal)
    && |o.cases| <= MAX_CASES_PER_OPTION && (forall i | 0 <= i < |o.cases| :: CaseOk(o.cases[i], initial))
    && (o.meaning.Some? ==> Utf16Length(o.meaning.value) <= 2_000)
  }

  predicate BeatOk(b: Beat, initial: WorldState) {
    && IsId(b.id) && 1 <= |b.options| <= MAX_OPTIONS_PER_BEAT
    && (forall i | 0 <= i < |b.options| :: ChoiceOk(b.options[i], initial))
    && (b.title.Some? ==> Utf16Length(b.title.value) <= 500)
  }

  predicate UniqueBeats(beats: seq<Beat>) {
    forall i, j | 0 <= i < j < |beats| :: beats[i].id != beats[j].id
  }

  /** The k-th option of the i-th beat goes by this identifier. */
  predicate HasOption(beats: seq<Beat>, i: int, k: int, id: string) {
    0 <= i < |beats| && 0 <= k < |beats[i].options| && beats[i].options[k].id == id
  }

  ghost predicate UniqueOptions(beats: seq<Beat>) {
    forall i, k, j, l, id | HasOption(beats, i, k, id) && HasOption(beats, j, l, id) :: i == j && k == l
  }

  ghost predicate WellFormed(d: Scenario) {
    && IsLowerHash(d.artifactHash) && IsId(d.questId)
    && ValidState(d.initialState) && d.initialState.revision == 0 && d.initialState.terminal.None?
    && 1 <= |d.beats| <= MAX_BEATS && (forall i | 0 <= i < |d.beats| :: BeatOk(d.beats[i], d.initialState))
    && UniqueBeats(d.beats) && UniqueOptions(d.beats)
  }

  // ----- one step

  /** The commit came from an option of the i-th beat, and took its time. */
  predicate CommitAt(d: Scenario, i: nat, e: Execution) {
    && e.Committed? && i < |d.beats| && e.beatId == d.beats[i].id && e.status != NotPossible
    && exists k :: 0 <= k < |d.beats[i].options| && HasOption(d.beats, i, k, e.optionId)
                   && e.durationSeconds == d.beats[i].options[k].clockAdvanceSeconds
  }

  /** What a commit is: the named option of the beat that the revision selects, with the
      clock and the revision moved on by it and nothing else of the cast changed. It happens
      in no terminal state. */
  lemma CommitShape(d: Scenario, s: WorldState, optionId: string)
    requires ExecuteOption(d, s, optionId).Committed?
    ensures var e := ExecuteOption(d, s, optionId);
            && s.terminal.None? && BeatAt(d, s) && ValidState(s)
            && e.optionId == optionId && CommitAt(d, s.revision, e)
            && ValidState(e.state) && SameCast(s, e.state)
            && e.state.revision == s.revision + 1
            && e.state.elapsedSeconds == s.elapsedSeconds + e.durationSeconds
  {
    hide IsId, ResolveFrom, HasOption, ValidState, SameCast, ApplyAll;
    var beat := d.beats[s.revision];
    var k := IndexOf(OptionIds(beat.options), optionId).value;
    assert HasOption(d.beats, s.revision, k, optionId) by { OptionFound(d, s.revision, k, optionId); }
    var o := beat.options[k];
    var resolved := Resolve(o, s);
    EffectsKeep(s, resolved.effects);
    StampKeeps(s, ApplyAll(s, resolved.effects).state, ExecuteOption(d, s, optionId).state);
  }

  /** The new state carries exactly what the resolved option says: every resource changed by
      the sum of its effects, every item and entity where the last effect put it, and the
      terminal of the case, or else of the option, or none. */
  lemma CommitOutcome(d: Scenario, s: WorldState, optionId: string)
    requires ExecuteOption(d, s, optionId).Committed? && BeatAt(d, s)
    ensures var e := ExecuteOption(d, s, optionId);
            exists k | 0 <= k < |d.beats[s.revision].options| ::
              var o := d.beats[s.revision].options[k];
              && o.id == optionId && Resolve(o, s).Resolved? && Resolve(o, s).status == e.status
              && e.state.terminal == Resolve(o, s).terminal
              && AddsUp(s, Resolve(o, s).effects,
                        e.state.(revision := s.revision, elapsedSeconds := s.elapsedSeconds, terminal := s.terminal))
  {
    hide IsId, ResolveFrom, HasOption, ValidState, AddsUp, ApplyAll;
    var options := d.beats[s.revision].options;
    var k := IndexOf(OptionIds(options), optionId).value;
    OptionFound(d, s.revision, k, optionId);
    var resolved := Resolve(options[k], s);
    BatchAddsUp(s, resolved.effects);
    EffectsKeep(s, resolved.effects);
    assert ExecuteOption(d, s, optionId).state.(revision := s.revision, elapsedSeconds := s.elapsedSeconds,
        terminal := s.terminal)
           == ApplyAll(s, resolved.effects).state;
  }

  lemma OptionFound(d: Scenario, i: nat, k: nat, optionId: string)
    requires i < |d.beats| && k < |d.beats[i].options| && OptionIds(d.beats[i].options)[k] == optionId
    ensures HasOption(d.beats, i, k, optionId) && d.beats[i].options[k].id == optionId
  {
  }

  /** Revision, clock and terminal do not belong to the cast. */
  lemma StampKeeps(s: WorldState, t: WorldState, u: WorldState)
    requires ValidState(t) && SameCast(s, t)
    requires u == t.(revision := u.revision, elapsedSeconds := u.elapsedSeconds, terminal := u.terminal)
    ensures ValidState(u) && SameCast(s, u)
  {
  }

  /** Whatever the state, a commit carries the status that the public situation shows for
      that option, and an option shown as blocked does not commit. */
  lemma CommitIsAdvertised(d: Scenario, s: WorldState, k: nat)
    requires WellFormed(d) && BeatAt(d, s) && k < |d.beats[s.revision].options|
    ensures var view := PublicSituation(d, s).beat.value.options[k];
            var e := ExecuteOption(d, s, view.id);
            && (e.Committed? ==> e.status == view.status && view.status != NotPossible)
            && (e.Blocked? && s.terminal.None? && ValidState(s) && s.revision < MAX_SAFE_INTEGER ==>
                  if view.status == NotPossible then e.reason.AuthoredBlocked? || e.reason.CaseError?
                  else e.reason.EffectError? || e.reason.ClockOverflow?)
  {
    hide IsId, ResolveFrom, ValidReferences, ApplyAll, UniqueBeats;
    var beat := d.beats[s.revision];
    var o := beat.options[k];
    assert BeatOk(beat, d.initialState) && ChoiceOk(o, d.initialState);
    assert OptionIds(beat.options)[k] == o.id;
    var at := IndexOf(OptionIds(beat.options), o.id);
    OptionFound(d, s.revision, k, o.id);
    OptionFound(d, s.revision, at.value, o.id);
    assert at.value == k;
    if ValidState(s) { NothingApplied(s); }
  }

  /** The state is valid and has met no terminal. */
  predicate Running(s: WorldState) {
    ValidState(s) && s.terminal.None?
  }

  /** What becomes of an option of the current beat. It commits exactly when the state is
      running, the option is shown as possible, its effects apply and its clock fits; every
      refusal has its own cause. */
  lemma OptionExactly(d: Scenario, s: WorldState, k: nat)
    requires WellFormed(d) && BeatAt(d, s) && k < |d.beats[s.revision].options|
    ensures var o := d.beats[s.revision].options[k];
            var (e, r, view) := (ExecuteOption(d, s, o.id), Resolve(o, s), PublicSituation(d, s).beat.value.options[k]);
            var possible := Running(s) && view.status != NotPossible;
            var fits := -MAX_SAFE_INTEGER <= s.elapsedSeconds + o.clockAdvanceSeconds <= MAX_SAFE_INTEGER;
            && (view.status != NotPossible ==> r.Resolved?)
            && (e.Committed? <==> possible && TryApply(s, r.effects).Applied? && fits)
            && (e.Blocked? && e.reason == ScenarioTerminal <==> ValidState(s) && s.terminal.Some?)
            && (e.Blocked? && e.reason == InvalidState <==> !ValidState(s))
            && (e.Blocked? && e.reason.CaseError? <==> Running(s) && r.Unresolved?)
            && (e.Blocked? && e.reason.CaseError? ==> r == Unresolved(e.reason.condition))
            && (e.Blocked? && e.reason == AuthoredBlocked <==> Running(s) && r.Resolved? && r.status == NotPossible)
            && (e.Blocked? && e.reason.EffectError? <==> possible && TryApply(s, r.effects).Refused?)
            && (e.Blocked? && e.reason.EffectError? ==> TryApply(s, r.effects).code == e.reason.effect)
            && (e.Blocked? && e.reason == ClockOverflow <==> possible && TryApply(s, r.effects).Applied? && !fits)
            && (e.Blocked? ==> e.option == Some(o.id))
            && (e.Blocked? && Running(s) ==> e.beat == Some(d.beats[s.revision].id))
  {
    var beat := d.beats[s.revision];
    OptionReached(d, s, k);
    assert RevisionInRange(d, s);
    hide WellFormed, ResolveFrom, ApplyAll, ValidState, IsId, IndexOf;
    if ValidState(s) { NothingApplied(s); }
  }

  predicate RevisionInRange(d: Scenario, s: WorldState) {
    0 <= s.revision < |d.beats| <= 100
  }

  lemma OptionReached(d: Scenario, s: WorldState, k: nat)
    requires WellFormed(d) && BeatAt(d, s) && k < |d.beats[s.revision].options|
    ensures var o := d.beats[s.revision].options[k];
            IsId(o.id) && IndexOf(OptionIds(d.beats[s.revision].options), o.id) == Some(k)
  {
    hide IsId, ValidReferences, UniqueBeats, CaseOk;
    var options := d.beats[s.revision].options;
    assert BeatOk(d.beats[s.revision], d.initialState) && ChoiceOk(options[k], d.initialState);
    assert OptionIds(options)[k] == options[k].id;
    var at := IndexOf(OptionIds(options), options[k].id);
    OptionFound(d, s.revision, k, options[k].id);
    OptionFound(d, s.revision, at.value, options[k].id);
  }

  /** What becomes of an identifier that names no option of the current beat. */
  lemma NoOptionExactly(d: Scenario, s: WorldState, optionId: string)
    ensures var e := ExecuteOption(d, s, optionId);
            var good := IsId(optionId) && Running(s) && s.revision != MAX_SAFE_INTEGER;
            && (e == Blocked(None, None, InvalidOptionId) <==> !IsId(optionId))
            && (e == Blocked(Some(optionId), None, InvalidState) <==> IsId(optionId) && !ValidState(s))
            && (e == Blocked(Some(optionId), None, ScenarioTerminal) <==>
                  IsId(optionId) && ValidState(s) && s.terminal.Some?)
            && (e == Blocked(Some(optionId), None, RevisionExhausted) <==>
                  IsId(optionId) && Running(s) && s.revision == MAX_SAFE_INTEGER)
            && (e == Blocked(Some(optionId), None, BeatNotAvailable) <==> good && !(0 <= s.revision < |d.beats|))
            && (e.Blocked? && e.reason == OptionNotAvailable <==>
                  && good && 0 <= s.revision < |d.beats|
                  && forall o | o in d.beats[s.revision].options :: o.id != optionId)
            && (e.Blocked? && e.reason == OptionNotAvailable ==>
                  BeatAt(d, s) && e.option == Some(optionId) && e.beat == Some(d.beats[s.revision].id))
  {
    if ValidState(s) { NothingApplied(s); }
    if BeatAt(d, s) { OptionListed(d.beats[s.revision].options, optionId); }
    hide ResolveFrom, ApplyAll, ValidState, IsId;
  }

  lemma OptionListed(options: seq<Choice>, id: string)
    ensures id in OptionIds(options) <==> exists o | o in options :: o.id == id
  {
    forall i | 0 <= i < |options| ensures OptionIds(options)[i] == options[i].id {}
    if id in OptionIds(options) {
      var i :| 0 <= i < |options| && OptionIds(options)[i] == id;
      assert options[i] in options;
    }
  }

  // ----- whole runs

  datatype Run = Run(state: WorldState, commits: seq<Execution>)

  /** Options tried one after another from the initial state; only commits change it. */
  function Play(d: Scenario, attempts: seq<string>): Run
    decreases |attempts|
  {
    if attempts == [] then Run(d.initialState, [])
    else Next(d, Play(d, attempts[..|attempts| - 1]), attempts[|attempts| - 1])
  }

  function Next(d: Scenario, r: Run, optionId: string): Run {
    var e := ExecuteOption(d, r.state, optionId);
    if e.Committed? then Run(e.state, r.commits + [e]) else r
  }

  /** The seconds that the commits of a run took together. */
  function Total(commits: seq<Execution>): int
    decreases |commits|
  {
    if commits == [] then 0
    else
      var last := commits[|commits| - 1];
      Total(commits[..|commits| - 1]) + if last.Committed? then last.durationSeconds else 0
  }

  predicate Trace(d: Scenario, r: Run) {
    && (forall i | 0 <= i < |r.commits| :: CommitAt(d, i, r.commits[i]))
    && (forall i | 0 <= i < |r.commits| - 1 :: r.commits[i].state.terminal.None?)
    && r.state == if r.commits == [] then d.initialState else r.commits[|r.commits| - 1].state
  }

  /** What every reachable run looks like. */
  predicate RunInv(d: Scenario, r: Run) {
    && ValidState(r.state) && SameCast(d.initialState, r.state)
    && r.state.revision == |r.commits| <= |d.beats|
    && r.state.elapsedSeconds == d.initialState.elapsedSeconds + Total(r.commits)
    && Trace(d, r)
  }

  lemma NextInv(d: Scenario, r: Run, optionId: string)
    requires WellFormed(d) && RunInv(d, r)
    ensures RunInv(d, Next(d, r, optionId))
  {
    hide ExecuteOption, ValidState, SameCast, WellFormed, AdvertisedStatus;
    var e := ExecuteOption(d, r.state, optionId);
    if e.Committed? {
      CommitShape(d, r.state, optionId);
      SameCastTransitive(d.initialState, r.state, e.state);
      assert (r.commits + [e])[..|r.commits|] == r.commits;
      assert CommitAt(d, |r.commits|, e);
    }
  }

  lemma {:induction false} PlayInv(d: Scenario, attempts: seq<string>)
    requires WellFormed(d)
    ensures RunInv(d, Play(d, attempts))
    decreases |attempts|
  {
    if attempts == [] {
      SameCastReflexive(d.initialState);
    } else {
      PlayInv(d, attempts[..|attempts| - 1]);
      NextInv(d, Play(d, attempts[..|attempts| - 1]), attempts[|attempts| - 1]);
    }
  }

  lemma {:induction false} TotalBounded(d: Scenario, commits: seq<Execution>)
    requires WellFormed(d)
    requires forall i | 0 <= i < |commits| :: CommitAt(d, i, commits[i])
    ensures 0 <= Total(commits) <= |commits| * MAX_CLOCK_ADVANCE_SECONDS
    decreases |commits|
  {
    hide HasOption, CaseOk, IsId, Utf16Length, UniqueOptions, ValidReferences, EvaluateCondition;
    if commits != [] {
      var n := |commits| - 1;
      TotalBounded(d, commits[..n]);
      assert CommitAt(d, n, commits[n]);
      var k :| 0 <= k < |d.beats[n].options| && HasOption(d.beats, n, k, commits[n].optionId)
               && commits[n].durationSeconds == d.beats[n].options[k].clockAdvanceSeconds;
      assert BeatOk(d.beats[n], d.initialState) && ChoiceOk(d.beats[n].options[k], d.initialState);
    }
  }

  /** Every run goes through the beats 0, 1, 2, … in order and ends within as many commits
      as there are beats; no option is executed twice; the clock is the initial one plus
      the advances of the committed options, at most a year for each. */
  lemma EveryRun(d: Scenario, attempts: seq<string>)
    requires WellFormed(d)
    ensures var r := Play(d, attempts);
            && r.state.revision == |r.commits| <= |d.beats|
            && (forall i | 0 <= i < |r.commits| :: CommitAt(d, i, r.commits[i]))
            && (forall i, j | 0 <= i < j < |r.commits| :: r.commits[i].optionId != r.commits[j].optionId)
            && (forall i, j | 0 <= i < j < |r.commits| :: r.commits[i].beatId != r.commits[j].beatId)
            && r.state.elapsedSeconds == d.initialState.elapsedSeconds + Total(r.commits)
            && 0 <= Total(r.commits) <= |r.commits| * MAX_CLOCK_ADVANCE_SECONDS
  {
    hide Play, HasOption, BeatOk, ValidState, SameCast, Total;
    PlayInv(d, attempts);
    var r := Play(d, attempts);
    TotalBounded(d, r.commits);
    forall i, j | 0 <= i < j < |r.commits| ensures r.commits[i].optionId != r.commits[j].optionId {
      assert CommitAt(d, i, r.commits[i]) && CommitAt(d, j, r.commits[j]);
    }
    forall i, j | 0 <= i < j < |r.commits| ensures r.commits[i].beatId != r.commits[j].beatId {
      assert CommitAt(d, i, r.commits[i]) && CommitAt(d, j, r.commits[j]);
    }
  }

  /** The measure `beats - revision` goes down with every commit, and with nothing else. */
  lemma CommitsUseUpBeats(d: Scenario, attempts: seq<string>, optionId: string)
    requires WellFormed(d)
    ensures var r, q := Play(d, attempts), Play(d, attempts + [optionId]);
            && 0 <= |d.beats| - q.state.revision <= |d.beats| - r.state.revision
            && (ExecuteOption(d, r.state, optionId).Committed?
                <==> |d.beats| - q.state.revision < |d.beats| - r.state.revision)
            && (ExecuteOption(d, r.state, optionId).Blocked? ==> q == r)
  {
    hide ExecuteOption, WellFormed;
    assert (attempts + [optionId])[..|attempts|] == attempts;
    PlayInv(d, attempts);
    PlayInv(d, attempts + [optionId]);
    if ExecuteOption(d, Play(d, attempts).state, optionId).Committed? {
      CommitShape(d, Play(d, attempts).state, optionId);
    }
  }

  predicate Over(d: Scenario, s: WorldState) {
    s.terminal.Some? || s.revision == |d.beats|
  }

  /** A run that met a terminal, or used up the beats, never changes again. */
  lemma {:induction false} StoppedForGood(d: Scenario, attempts: seq<string>, more: seq<string>)
    requires WellFormed(d) && Over(d, Play(d, attempts).state)
    ensures Play(d, attempts + more) == Play(d, attempts)
    decreases |more|
  {
    hide WellFormed, IsId, TryApply;
    if more == [] {
      assert attempts + more == attempts;
    } else {
      var n := |more| - 1;
      StoppedForGood(d, attempts, more[..n]);
      assert (attempts + more)[..|attempts + more| - 1] == attempts + more[..n];
      assert (attempts + more)[|attempts + more| - 1] == more[n];
      PlayInv(d, attempts);
    }
  }

  lemma {:induction false} CasesStayKnown(d: Scenario, s: WorldState, o: Choice, i: nat)
    requires ChoiceOk(o, d.initialState) && ValidState(s) && SameCast(d.initialState, s) && i <= |o.cases|
    ensures ResolveFrom(o, s, i).Resolved?
    decreases |o.cases| - i
  {
    hide SameCast, ValidState, EvaluateCondition, IsId, TerminalOk;
    if i < |o.cases| {
      assert CaseOk(o.cases[i], d.initialState);
      ConditionStaysKnown(d.initialState, s, o.cases[i].when);
      CasesStayKnown(d, s, o, i + 1);
    }
  }

  /** In every reachable state the engine is sound: no condition is broken, the state is
      valid and the revision is not exhausted. An option offered as possible either
      commits with that status or fails on an effect or the clock; and the clock fails
      only when the scenario started outside the safe integers or within a hundred
      advances of the last one. */
  lemma ReachableIsSound(d: Scenario, attempts: seq<string>, optionId: string)
    requires WellFormed(d)
    ensures var s := Play(d, attempts).state;
            var e := ExecuteOption(d, s, optionId);
            && (e.Blocked? ==> !e.reason.InvalidState? && !e.reason.CaseError? && !e.reason.RevisionExhausted?)
            && (e.Blocked? && e.reason.ClockOverflow? ==>
                  d.initialState.elapsedSeconds + MAX_BEATS * MAX_CLOCK_ADVANCE_SECONDS > MAX_SAFE_INTEGER
                  || d.initialState.elapsedSeconds < -MAX_SAFE_INTEGER)
  {
    hide Play, IsId, ResolveFrom, SameCast, ValidReferences, ApplyAll, UniqueOptions, UniqueBeats, Total, CaseOk, Trace;
    var r := Play(d, attempts);
    var s := r.state;
    PlayInv(d, attempts);
    EveryRun(d, attempts);
    assert TryApply(s, []).Applied? by { NothingApplied(s); }
    if BeatAt(d, s) && optionId in OptionIds(d.beats[s.revision].options) {
      var k := IndexOf(OptionIds(d.beats[s.revision].options), optionId).value;
      var o := d.beats[s.revision].options[k];
      assert BeatOk(d.beats[s.revision], d.initialState) && ChoiceOk(o, d.initialState);
      CasesStayKnown(d, s, o, 0);
    }
  }

  lemma NothingApplied(s: WorldState)
    requires ValidState(s)
    ensures TryApply(s, []) == Applied(s, [])
  {
  }
}
