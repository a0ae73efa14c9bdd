/** The intent catalogue of an authored scenario, and why an intent that was accepted
    against it can be executed. */
module AuthoredIntent {
  import opened Intent
  import opened Json
  import opened Numbers
  import opened Scenario
  import opened Strings
  import opened World
  import opened Wrappers

  const ACTION_TYPE := "authored.option"

  /** createAuthoredIntentCatalog */
  function Catalog(d: Scenario, s: WorldState): seq<CatalogEntry> {
    if !BeatAt(d, s) || s.terminal.Some? then []
    else
      [CatalogEntry(ACTION_TYPE, map["optionId" := StringRule(Some(OptionIds(d.beats[s.revision].options)))],
          Some([]), Some([]))]
  }

  /** executeAuthoredIntent */
  function ExecuteIntent(d: Scenario, s: WorldState, intent: ResolvedIntent): Execution {
    if intent.actionType != ACTION_TYPE then Blocked(None, None, ActionTypeNotSupported)
    else if "optionId" !in intent.args || !intent.args["optionId"].JString? then Blocked(None, None, OptionIdRequired)
    else ExecuteOption(d, s, intent.args["optionId"].text)
  }

  /** An intent without an option is refused for its type first, and then for its argument. */
  lemma FormExactly(d: Scenario, s: WorldState, intent: ResolvedIntent)
    ensures var e := ExecuteIntent(d, s, intent);
            var named := "optionId" in intent.args && intent.args["optionId"].JString?;
            && (e == Blocked(None, None, ActionTypeNotSupported) <==> intent.actionType != "authored.option")
            && (e == Blocked(None, None, OptionIdRequired) <==> intent.actionType == "authored.option" && !named)
            && (intent.actionType == "authored.option" && named ==>
                  e == ExecuteOption(d, s, intent.args["optionId"].text))
  {
    if "optionId" in intent.args && intent.args["optionId"].JString? {
      NoOptionExactly(d, s, intent.args["optionId"].text);
      NeverForm(d, s, intent.args["optionId"].text);
    }
    hide ExecuteOption, IsId, ValidState;
  }

  lemma NeverForm(d: Scenario, s: WorldState, optionId: string)
    ensures var e := ExecuteOption(d, s, optionId);
            e.Blocked? ==> e.reason != ActionTypeNotSupported && e.reason != OptionIdRequired
  {
    hide ResolveFrom, ApplyAll, ValidState, IsId, IndexOf;
  }

  /** The intent that names one option. */
  function IntentFor(optionId: string, text: string): ResolvedIntent {
    ResolvedIntent(ACTION_TYPE, [], [], map["optionId" := JString(optionId)], text)
  }

  ghost predicate Accepted(d: Scenario, s: WorldState, intent: ResolvedIntent, entities: seq<string>) {
    exists value, description ::
      ValidProposal(value, intent.sourceText, Catalog(d, s), entities) == Some(Proposal.Resolved(intent, description))
  }

  /** Whatever a model proposes, an intent accepted against the catalogue of a state names
      an option of its current beat and nothing else; and every such option can be
      proposed. */
  lemma AcceptedNamesAnOption(d: Scenario, s: WorldState, intent: ResolvedIntent, entities: seq<string>)
    requires WellFormed(d)
    ensures Accepted(d, s, intent, entities) <==>
              && BeatAt(d, s) && s.terminal.None?
              && exists k | 0 <= k < |d.beats[s.revision].options| ::
                   intent == IntentFor(d.beats[s.revision].options[k].id, intent.sourceText)
  {
    hide BeatOk, Utf16Length, IsId, ValidReferences, UniqueOptions, UniqueBeats, ValidProposal, IntentAllowed;
    if Accepted(d, s, intent, entities) {
      var value, description :| ValidProposal(value, intent.sourceText, Catalog(d, s), entities)
          == Some(Proposal.Resolved(intent, description));
      ProposalExactly(value, intent.sourceText, Catalog(d, s), entities, Proposal.Resolved(intent, description));
      AllowedNamesAnOption(d, s, intent, entities);
    }
    if BeatAt(d, s) && s.terminal.None? && exists k | 0 <= k < |d.beats[s.revision].options| ::
         intent == IntentFor(d.beats[s.revision].options[k].id, intent.sourceText) {
      var k :| 0 <= k < |d.beats[s.revision].options|
          && intent == IntentFor(d.beats[s.revision].options[k].id, intent.sourceText);
      OptionIsAllowed(d, s, k, intent.sourceText, entities);
      assert OnlyEntry(Catalog(d, s), intent.actionType, 0);
      var p := Proposal.Resolved(intent, "-");
      assert IsBounded("-", 1, 500) by { IdLength("-"); }
      ProposalExactly(ProposalJson(p), intent.sourceText, Catalog(d, s), entities, p);
    }
  }

  lemma AllowedNamesAnOption(d: Scenario, s: WorldState, intent: ResolvedIntent, entities: seq<string>)
    requires |Catalog(d, s)| >= 1 && IntentAllowed(intent, intent.sourceText, Catalog(d, s)[0], entities)
    ensures BeatAt(d, s) && s.terminal.None?
    ensures exists k | 0 <= k < |d.beats[s.revision].options| ::
              intent == IntentFor(d.beats[s.revision].options[k].id, intent.sourceText)
  {
    hide IsId, Utf16Length;
    var ids := OptionIds(d.beats[s.revision].options);
    assert "optionId" in intent.args;
    var id := intent.args["optionId"];
    assert ArgumentFits(id, StringRule(Some(ids)));
    var k :| 0 <= k < |ids| && ids[k] == id.text;
    assert intent.args == map["optionId" := JString(ids[k])];
    NoneAllowed(intent.participantIds, entities);
    NoneAllowed(intent.targetIds, entities);
    assert intent == IntentFor(d.beats[s.revision].options[k].id, intent.sourceText);
  }

  lemma NoneAllowed(ids: seq<string>, entities: seq<string>)
    ensures IdsAllowed(ids, entities, Some([])) ==> ids == []
  {
    if ids != [] { assert ids[0] in ids; }
  }

  lemma OptionIsAllowed(d: Scenario, s: WorldState, k: nat, text: string, entities: seq<string>)
    requires WellFormed(d) && BeatAt(d, s) && s.terminal.None? && k < |d.beats[s.revision].options|
    ensures IntentAllowed(IntentFor(d.beats[s.revision].options[k].id, text), text, Catalog(d, s)[0], entities)
  {
    hide BeatOk, ValidReferences, UniqueOptions, UniqueBeats, Utf16Length, IsId;
    OptionIsShort(d, s.revision, k);
    assert OptionIds(d.beats[s.revision].options)[k] == d.beats[s.revision].options[k].id;
  }

  lemma OptionIsShort(d: Scenario, i: nat, k: nat)
    requires WellFormed(d) && i < |d.beats| && k < |d.beats[i].options|
    ensures Utf16Length(d.beats[i].options[k].id) <= 200
  {
    hide ValidReferences, UniqueOptions, UniqueBeats, CaseOk;
    var o := d.beats[i].options[k];
    assert BeatOk(d.beats[i], d.initialState) && ChoiceOk(o, d.initialState);
    IdLength(o.id);
  }

  /** The catalogue of a running scenario passes the check that requests undergo. */
  lemma CatalogPasses(d: Scenario, s: WorldState)
    requires WellFormed(d)
    ensures CatalogOk(Catalog(d, s)) <==> BeatAt(d, s) && s.terminal.None?
  {
    hide ValidReferences, UniqueOptions, UniqueBeats, CaseOk;
    if BeatAt(d, s) && s.terminal.None? {
      var b := d.beats[s.revision];
      assert BeatOk(b, d.initialState);
      forall k | 0 <= k < |b.options| ensures IsBounded(OptionIds(b.options)[k], 1, 200) {
        assert ChoiceOk(b.options[k], d.initialState);
        IdLength(b.options[k].id);
      }
    }
  }

  /** From the model's reply to the committed state: in every reachable state an accepted
      intent either commits, at the status advertised for its option, or is blocked because
      that option is advertised as blocked, because an effect cannot be applied, or because
      the clock runs over. It never fails for its form. */
  lemma AcceptedIsSound(d: Scenario, attempts: seq<string>, intent: ResolvedIntent, entities: seq<string>)
    requires WellFormed(d) && Accepted(d, Play(d, attempts).state, intent, entities)
    ensures var s := Play(d, attempts).state;
            var e := ExecuteIntent(d, s, intent);
            BeatAt(d, s) && exists k | 0 <= k < |d.beats[s.revision].options| ::
              var view := PublicSituation(d, s).beat.value.options[k];
              && intent == IntentFor(view.id, intent.sourceText)
              && (e.Committed? ==> e.optionId == view.id && e.status == view.status && view.status != NotPossible)
              && (e.Blocked? && view.status == NotPossible ==> e.reason.AuthoredBlocked?)
              && (e.Blocked? && view.status != NotPossible ==> e.reason.EffectError? || e.reason.ClockOverflow?)
  {
    hide Play, ExecuteOption, WellFormed, AdvertisedStatus, Trace, SameCast, ValidReferences, Accepted;
    var s := Play(d, attempts).state;
    AcceptedNamesAnOption(d, s, intent, entities);
    var k :| 0 <= k < |d.beats[s.revision].options|
             && intent == IntentFor(d.beats[s.revision].options[k].id, intent.sourceText);
    var view := PublicSituation(d, s).beat.value.options[k];
    PlayInv(d, attempts);
    ReachableIsSound(d, attempts, view.id);
    FewBeats(d);
    CommitIsAdvertised(d, s, k);
    if ExecuteOption(d, s, view.id).Committed? { CommitShape(d, s, view.id); }
  }

  lemma FewBeats(d: Scenario)
    requires WellFormed(d)
    ensures |d.beats| < MAX_SAFE_INTEGER
  {
  }
}
