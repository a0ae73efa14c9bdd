/** What the intent interpreter lets through from a language model: proposals checked
    against a catalogue of actions. */
module Intent {
  import opened Json
  import opened Numbers
  import opened Strings
  import opened Wrappers

  datatype Rule =
    | IntegerRule(minimum: Option<int>, maximum: Option<int>)
    | StringRule(allowed: Option<seq<string>>)
    | BooleanRule

  datatype CatalogEntry = CatalogEntry(
    actionType: string,
    args: map<string, Rule>,
    participantIds: Option<seq<string>>,
    targetIds: Option<seq<string>>)

  datatype ResolvedIntent = ResolvedIntent(
    actionType: string,
    participantIds: seq<string>,
    targetIds: seq<string>,
    args: map<string, Json>,
    sourceText: string)

  datatype Proposal =
    | Resolved(intent: ResolvedIntent, description: string)
    | NeedsClarification(question: string, options: seq<string>, description: string)
    | Unsupported(explanation: string, description: string)

  predicate IsBounded(s: string, min: nat, max: nat) {
    min <= Utf16Length(s) <= max
  }

  function BoundedText(j: Option<Json>, min: nat, max: nat): Option<string> {
    if Text(j).Some? && IsBounded(Text(j).value, min, max) then Text(j) else None
  }

  // ----- identifiers

  predicate IdAllowed(j: Json, everywhere: seq<string>, here: Option<seq<string>>) {
    j.JString? && IsId(j.text) && j.text in everywhere && (here.Some? ==> j.text in here.value)
  }

  /** The identifiers of a list, if each is allowed and none occurs twice. */
  function ValidIds(js: seq<Json>, everywhere: seq<string>, here: Option<seq<string>>): Option<seq<string>> {
    if (forall i | 0 <= i < |js| :: IdAllowed(js[i], everywhere, here))
       && (forall i, j | 0 <= i < j < |js| :: js[i] != js[j])
    then Some(seq(|js|, i requires 0 <= i < |js| => js[i].text))
    else None
  }

  /** validateIds, as its loop */
  method ValidateIds(js: seq<Json>, everywhere: seq<string>, here: Option<seq<string>>) returns (r: Option<seq<string>>)
    ensures r == ValidIds(js, everywhere, here)
  {
    hide IsId;
    var result: seq<string>, seen: set<string> := [], {};
    for i := 0 to |js|
      invariant |result| == i
      invariant forall k | 0 <= k < i :: IdAllowed(js[k], everywhere, here) && result[k] == js[k].text
      invariant forall k, l | 0 <= k < l < i :: js[k] != js[l]
      invariant forall id :: id in seen <==> exists k | 0 <= k < i :: result[k] == id
    {
      if !IdAllowed(js[i], everywhere, here) { return None; }
      if js[i].text in seen { return None; }
      seen := seen + {js[i].text};
      result := result + [js[i].text];
    }
    assert result == ValidIds(js, everywhere, here).value;
    r := Some(result);
  }

  // ----- arguments

  predicate ArgumentFits(j: Json, rule: Rule) {
    match rule
    case IntegerRule(minimum, maximum) =>
      && j.JInt? && IsSafeInteger(j.number)
      && (minimum.Some? ==> minimum.value <= j.number) && (maximum.Some? ==> j.number <= maximum.value)
    case StringRule(allowed) =>
      j.JString? && Utf16Length(j.text) <= 1_000 && (allowed.Some? ==> j.text in allowed.value)
    case BooleanRule => j.JBool?
  }

  /** Arguments are accepted as a whole and unchanged, under exactly the names of the
      schema and each within its rule. */
  function ValidArgs(args: map<string, Json>, schema: map<string, Rule>): Option<map<string, Json>> {
    if args.Keys == schema.Keys && forall name | name in schema :: ArgumentFits(args[name], schema[name])
    then Some(args) else None
  }

  /** validateArgs, as its loop over the expected names; their order does not matter. */
  method ValidateArgs(args: map<string, Json>, schema: map<string, Rule>) returns (r: Option<map<string, Json>>)
    ensures r == ValidArgs(args, schema)
  {
    hide ArgumentFits;
    if args.Keys != schema.Keys { return None; }
    var result: map<string, Json>, open := map[], schema.Keys;
    while open != {}
      invariant open <= schema.Keys && result.Keys == schema.Keys - open
      invariant forall name | name in result :: ArgumentFits(args[name], schema[name]) && result[name] == args[name]
      decreases open
    {
      var name :| name in open;
      if !ArgumentFits(args[name], schema[name]) { return None; }
      result, open := result[name := args[name]], open - {name};
    }
    assert result == args;
    r := Some(result);
  }

  /** What an argument may be under each rule. */
  lemma ArgumentExactly(j: Json, rule: Rule)
    ensures rule.IntegerRule? ==>
              (ArgumentFits(j, rule) <==>
                 exists n: int ::
                   && j == JInt(n) && -MAX_SAFE_INTEGER <= n <= MAX_SAFE_INTEGER
                   && (rule.minimum.Some? ==> rule.minimum.value <= n)
                   && (rule.maximum.Some? ==> n <= rule.maximum.value))
    ensures rule.StringRule? ==>
              (ArgumentFits(j, rule) <==>
                 exists text: string ::
                   && j == JString(text) && Utf16Length(text) <= 1_000
                   && (rule.allowed.Some? ==> text in rule.allowed.value))
    ensures rule.BooleanRule? ==> (ArgumentFits(j, rule) <==> j == JBool(true) || j == JBool(false))
  {
    hide Utf16Length;
  }

  // ----- proposals

  function Matches(catalog: seq<CatalogEntry>, actionType: string): seq<CatalogEntry>
    decreases |catalog|
  {
    if catalog == [] then []
    else (if catalog[0].actionType == actionType then [catalog[0]] else []) + Matches(catalog[1..], actionType)
  }

  /** uniqueCatalogEntry */
  function UniqueEntry(catalog: seq<CatalogEntry>, actionType: string): Option<CatalogEntry> {
    var matches := Matches(catalog, actionType);
    if |matches| == 1 then Some(matches[0]) else None
  }

  /** The "resolved" branch of validateIntentProposal. */
  function ValidResolved(value: Json, text: string, catalog: seq<CatalogEntry>,
      entities: seq<string>): Option<Proposal> {
    var description, actionType :=
        BoundedText(Field(value, "normalizedDescription"), 1, 500), Text(Field(value, "actionType"));
    if !HasExactKeys(value, {"kind", "actionType", "participantIds", "targetIds", "args", "normalizedDescription"})
       || description.None? || actionType.None? then None
    else
      var entry := UniqueEntry(catalog, actionType.value);
      var participants, targets, args :=
          value.fields["participantIds"], value.fields["targetIds"], value.fields["args"];
      if entry.None? || !participants.JArray? || !targets.JArray? || !args.JObject? then None
      else
        var participantIds := ValidIds(participants.elements, entities, entry.value.participantIds);
        var targetIds := ValidIds(targets.elements, entities, entry.value.targetIds);
        var given := ValidArgs(args.fields, entry.value.args);
        if participantIds.None? || targetIds.None? || given.None? then None
        else Some(Resolved(ResolvedIntent(entry.value.actionType, participantIds.value, targetIds.value, given.value,
            text), description.value))
  }

  function OptionText(options: seq<Json>, i: nat): Option<string>
    requires i < |options|
  {
    BoundedText(Some(options[i]), 1, 200)
  }

  function ValidClarification(value: Json): Option<Proposal> {
    var question, description :=
        BoundedText(Field(value, "question"), 1, 500), BoundedText(Field(value, "normalizedDescription"), 1, 500);
    if !HasExactKeys(value, {"kind", "question", "options", "normalizedDescription"}) || question.None?
        || description.None? then None
    else
      var options := value.fields["options"];
      if !options.JArray? || !(1 <= |options.elements| <= 5) then None
      else if exists i | 0 <= i < |options.elements| :: OptionText(options.elements, i).None? then None
      else
        var n := |options.elements|;
        var texts := seq(n, i requires 0 <= i < n => OptionText(options.elements, i).value);
        Some(NeedsClarification(question.value, texts, description.value))
  }

  function ValidUnsupported(value: Json): Option<Proposal> {
    var explanation, description :=
        BoundedText(Field(value, "explanation"), 1, 1_000), BoundedText(Field(value, "normalizedDescription"), 1, 500);
    if !HasExactKeys(value, {"kind", "explanation", "normalizedDescription"}) || explanation.None?
        || description.None? then None
    else Some(Unsupported(explanation.value, description.value))
  }

  /** validateIntentProposal */
  function ValidProposal(value: Json, text: string, catalog: seq<CatalogEntry>,
      entities: seq<string>): Option<Proposal> {
    if HasText(Field(value, "kind"), "resolved") then ValidResolved(value, text, catalog, entities)
    else if HasText(Field(value, "kind"), "needs_clarification") then ValidClarification(value)
    else if HasText(Field(value, "kind"), "unsupported") then ValidUnsupported(value)
    else None
  }

  // ----- what is accepted as a proposal

  /** The one entry of its action type, at place i. */
  predicate OnlyEntry(catalog: seq<CatalogEntry>, actionType: string, i: int) {
    && 0 <= i < |catalog| && catalog[i].actionType == actionType
    && forall j | 0 <= j < |catalog| && j != i :: catalog[j].actionType != actionType
  }

  lemma {:induction false} NoMatches(catalog: seq<CatalogEntry>, actionType: string)
    ensures Matches(catalog, actionType) == [] <==>
              forall i | 0 <= i < |catalog| :: catalog[i].actionType != actionType
    decreases |catalog|
  {
    if catalog != [] {
      NoMatches(catalog[1..], actionType);
      assert forall i | 0 < i < |catalog| :: catalog[i] == catalog[1..][i - 1];
    }
  }

  /** An entry is found exactly when it is the only one of its action type. */
  lemma {:induction false} EntryExactly(catalog: seq<CatalogEntry>, actionType: string, e: CatalogEntry)
    ensures UniqueEntry(catalog, actionType) == Some(e) <==>
              exists i :: OnlyEntry(catalog, actionType, i) && catalog[i] == e
    decreases |catalog|
  {
    if catalog != [] {
      var rest := catalog[1..];
      NoMatches(rest, actionType);
      EntryExactly(rest, actionType, e);
      assert forall i | 0 < i < |catalog| :: catalog[i] == rest[i - 1];
      assert forall i | 0 <= i < |rest| :: rest[i] == catalog[i + 1];
      if catalog[0].actionType == actionType {
        assert Matches(catalog, actionType)[0] == catalog[0];
        if Matches(rest, actionType) == [] { assert OnlyEntry(catalog, actionType, 0); }
      } else {
        assert Matches(catalog, actionType) == Matches(rest, actionType);
        if i :| OnlyEntry(rest, actionType, i) { assert OnlyEntry(catalog, actionType, i + 1); }
        if i :| OnlyEntry(catalog, actionType, i) { assert OnlyEntry(rest, actionType, i - 1); }
      }
    }
  }

  function TextsJson(texts: seq<string>): (js: seq<Json>)
    ensures |js| == |texts| && forall i | 0 <= i < |js| :: js[i] == JString(texts[i])
  {
    seq(|texts|, i requires 0 <= i < |texts| => JString(texts[i]))
  }

  /** A proposal as a model has to write it. */
  function ProposalJson(p: Proposal): Json {
    match p
    case Resolved(intent, description) =>
      JObject(map["kind" := JString("resolved"), "actionType" := JString(intent.actionType),
                  "participantIds" := JArray(TextsJson(intent.participantIds)),
                  "targetIds" := JArray(TextsJson(intent.targetIds)), "args" := JObject(intent.args),
                  "normalizedDescription" := JString(description)])
    case NeedsClarification(question, options, description) =>
      JObject(map["kind" := JString("needs_clarification"), "question" := JString(question),
                  "options" := JArray(TextsJson(options)), "normalizedDescription" := JString(description)])
    case Unsupported(explanation, description) =>
      JObject(map["kind" := JString("unsupported"), "explanation" := JString(explanation),
                  "normalizedDescription" := JString(description)])
  }

  /** Different identifiers, each known to the request and to the entry. */
  predicate IdsAllowed(ids: seq<string>, everywhere: seq<string>, here: Option<seq<string>>) {
    && (forall id | id in ids :: IsId(id) && id in everywhere && (here.Some? ==> id in here.value))
    && forall i, j | 0 <= i < j < |ids| :: ids[i] != ids[j]
  }

  /** The intent stays within the entry of its action type and carries the text of the request. */
  predicate IntentAllowed(intent: ResolvedIntent, text: string, entry: CatalogEntry, entities: seq<string>) {
    && intent.sourceText == text && intent.actionType == entry.actionType
    && IdsAllowed(intent.participantIds, entities, entry.participantIds)
    && IdsAllowed(intent.targetIds, entities, entry.targetIds)
    && intent.args.Keys == entry.args.Keys
    && forall name | name in entry.args :: ArgumentFits(intent.args[name], entry.args[name])
  }

  ghost predicate ProposalAllowed(p: Proposal, text: string, catalog: seq<CatalogEntry>, entities: seq<string>) {
    && IsBounded(p.description, 1, 500)
    && match p
       case Resolved(intent, _) =>
         exists i :: OnlyEntry(catalog, intent.actionType, i) && IntentAllowed(intent, text, catalog[i], entities)
       case NeedsClarification(question, options, _) =>
         && IsBounded(question, 1, 500) && 1 <= |options| <= 5
         && forall o | o in options :: IsBounded(o, 1, 200)
       case Unsupported(explanation, _) => IsBounded(explanation, 1, 1_000)
  }

  lemma IdsExactly(js: seq<Json>, everywhere: seq<string>, here: Option<seq<string>>, ids: seq<string>)
    ensures ValidIds(js, everywhere, here) == Some(ids) <==> IdsAllowed(ids, everywhere, here) && js == TextsJson(ids)
  {
    hide IsId;
    if IdsAllowed(ids, everywhere, here) && js == TextsJson(ids) {
      assert forall i | 0 <= i < |js| :: ids[i] in ids;
      assert ValidIds(js, everywhere, here).value == ids;
    }
  }

  lemma ResolvedExactly(value: Json, text: string, catalog: seq<CatalogEntry>, entities: seq<string>, p: Proposal)
    requires HasText(Field(value, "kind"), "resolved")
    ensures ValidResolved(value, text, catalog, entities) == Some(p) <==>
              p.Resolved? && ProposalAllowed(p, text, catalog, entities) && value == ProposalJson(p)
  {
    hide IsBounded, UniqueEntry, ValidIds, IdsAllowed, ArgumentFits, TextsJson;
    if ValidResolved(value, text, catalog, entities) == Some(p) {
      var entry := UniqueEntry(catalog, Text(Field(value, "actionType")).value).value;
      EntryExactly(catalog, p.intent.actionType, entry);
      EntryIsNamed(catalog, Text(Field(value, "actionType")).value);
      IdsExactly(value.fields["participantIds"].elements, entities, entry.participantIds, p.intent.participantIds);
      IdsExactly(value.fields["targetIds"].elements, entities, entry.targetIds, p.intent.targetIds);
      assert value.fields == ProposalJson(p).fields;
    }
    if p.Resolved? && ProposalAllowed(p, text, catalog, entities) && value == ProposalJson(p) {
      var i :| OnlyEntry(catalog, p.intent.actionType, i) && IntentAllowed(p.intent, text, catalog[i], entities);
      EntryExactly(catalog, p.intent.actionType, catalog[i]);
      IdsExactly(value.fields["participantIds"].elements, entities, catalog[i].participantIds, p.intent.participantIds);
      IdsExactly(value.fields["targetIds"].elements, entities, catalog[i].targetIds, p.intent.targetIds);
    }
  }

  lemma EntryIsNamed(catalog: seq<CatalogEntry>, actionType: string)
    ensures UniqueEntry(catalog, actionType).Some? ==>
              UniqueEntry(catalog, actionType).value.actionType == actionType
  {
    if UniqueEntry(catalog, actionType).Some? {
      EntryExactly(catalog, actionType, UniqueEntry(catalog, actionType).value);
    }
  }

  lemma ClarificationExactly(value: Json, text: string, catalog: seq<CatalogEntry>, entities: seq<string>, p: Proposal)
    requires HasText(Field(value, "kind"), "needs_clarification")
    ensures ValidClarification(value) == Some(p) <==>
              p.NeedsClarification? && ProposalAllowed(p, text, catalog, entities) && value == ProposalJson(p)
  {
    hide IsBounded;
    if ValidClarification(value) == Some(p) {
      var js := value.fields["options"].elements;
      assert forall i | 0 <= i < |js| :: js[i] == JString(p.options[i]);
      assert js == TextsJson(p.options);
      assert value.fields == ProposalJson(p).fields;
    }
    if p.NeedsClarification? && ProposalAllowed(p, text, catalog, entities) && value == ProposalJson(p) {
      assert forall i | 0 <= i < |p.options| :: p.options[i] in p.options;
      assert ValidClarification(value).value.options == p.options;
    }
  }

  lemma UnsupportedExactly(value: Json, text: string, catalog: seq<CatalogEntry>, entities: seq<string>, p: Proposal)
    requires HasText(Field(value, "kind"), "unsupported")
    ensures ValidUnsupported(value) == Some(p) <==>
              p.Unsupported? && ProposalAllowed(p, text, catalog, entities) && value == ProposalJson(p)
  {
    hide IsBounded;
    if ValidUnsupported(value) == Some(p) { assert value.fields == ProposalJson(p).fields; }
  }

  /** A JSON value is let through exactly when it is the writing of an allowed proposal, and
      it is that proposal: no other field, kind, action, identifier or argument gets past. */
  lemma ProposalExactly(value: Json, text: string, catalog: seq<CatalogEntry>, entities: seq<string>, p: Proposal)
    ensures ValidProposal(value, text, catalog, entities) == Some(p) <==>
              ProposalAllowed(p, text, catalog, entities) && value == ProposalJson(p)
  {
    hide ProposalAllowed, ValidResolved, ValidClarification, ValidUnsupported;
    if HasText(Field(value, "kind"), "resolved") { ResolvedExactly(value, text, catalog, entities, p); }
    if HasText(Field(value, "kind"), "needs_clarification") {
      ClarificationExactly(value, text, catalog, entities, p);
    }
    if HasText(Field(value, "kind"), "unsupported") { UnsupportedExactly(value, text, catalog, entities, p); }
  }

  // ----- requests

  datatype Request = Request(
    text: string,
    deadlineAtMs: int,
    catalog: seq<CatalogEntry>,
    entities: seq<string>,
    dialogue: Option<seq<string>>)

  /** isArgumentRule */
  predicate RuleOk(rule: Rule) {
    match rule
    case IntegerRule(minimum, maximum) =>
      && (minimum.Some? ==> IsSafeInteger(minimum.value)) && (maximum.Some? ==> IsSafeInteger(maximum.value))
      && (minimum.Some? && maximum.Some? ==> minimum.value <= maximum.value)
    case StringRule(allowed) =>
      && (allowed.Some? ==> |allowed.value| <= 100)
      && (allowed.Some? ==> forall i | 0 <= i < |allowed.value| :: IsBounded(allowed.value[i], 1, 200))
    case BooleanRule => true
  }

  predicate EntryOk(entry: CatalogEntry) {
    IsId(entry.actionType) && forall name | name in entry.args :: IsId(name) && RuleOk(entry.args[name])
  }

  predicate CatalogOk(catalog: seq<CatalogEntry>) {
    && 1 <= |catalog| <= 100 && (forall i | 0 <= i < |catalog| :: EntryOk(catalog[i]))
    && (forall i, j | 0 <= i < j < |catalog| :: catalog[i].actionType != catalog[j].actionType)
  }

  predicate RequestOk(r: Request) {
    && IsBounded(r.text, 1, 4_000) && IsSafeInteger(r.deadlineAtMs) && r.deadlineAtMs >= 0
    && CatalogOk(r.catalog) && (forall i | 0 <= i < |r.entities| :: IsId(r.entities[i]))
    && (r.dialogue.Some? ==> |r.dialogue.value| <= 20)
    && (r.dialogue.Some? ==> forall i | 0 <= i < |r.dialogue.value| :: IsBounded(r.dialogue.value[i], 1, 1_000))
  }

  datatype ContextError =
    | TextSize
    | BadDeadline
    | CatalogSize
    | BadCatalog
    | BadArgumentSchema
    | BadEntities
    | BadDialogue

  /** What is wrong with an entry that follows these ones. */
  function EntryProblem(before: seq<CatalogEntry>, entry: CatalogEntry): Option<ContextError> {
    if !IsId(entry.actionType) || exists i | 0 <= i < |before| :: before[i].actionType == entry.actionType
        then Some(BadCatalog)
    else if exists name | name in entry.args :: !IsId(name) || !RuleOk(entry.args[name]) then Some(BadArgumentSchema)
    else None
  }

  /** The problem of the first entry that has one. */
  function CatalogProblem(catalog: seq<CatalogEntry>): Option<ContextError>
    decreases |catalog|
  {
    if catalog == [] then None
    else
      var n := |catalog| - 1;
      var before := CatalogProblem(catalog[..n]);
      if before.Some? then before else EntryProblem(catalog[..n], catalog[n])
  }

  function ContextProblem(r: Request): Option<ContextError> {
    if !IsBounded(r.text, 1, 4_000) then Some(TextSize)
    else if !IsSafeInteger(r.deadlineAtMs) || r.deadlineAtMs < 0 then Some(BadDeadline)
    else if !(1 <= |r.catalog| <= 100) then Some(CatalogSize)
    else if CatalogProblem(r.catalog).Some? then CatalogProblem(r.catalog)
    else if exists i | 0 <= i < |r.entities| :: !IsId(r.entities[i]) then Some(BadEntities)
    else if r.dialogue.Some?
            && (|r.dialogue.value| > 20
                || exists i | 0 <= i < |r.dialogue.value| :: !IsBounded(r.dialogue.value[i], 1, 1_000))
    then Some(BadDialogue)
    else None
  }

  lemma {:induction false} NoCatalogProblem(catalog: seq<CatalogEntry>)
    ensures CatalogProblem(catalog).None? <==>
              && (forall i | 0 <= i < |catalog| :: EntryOk(catalog[i]))
              && (forall i, j | 0 <= i < j < |catalog| :: catalog[i].actionType != catalog[j].actionType)
    decreases |catalog|
  {
    hide IsId, RuleOk;
    if catalog != [] {
      var n := |catalog| - 1;
      var before := catalog[..n];
      NoCatalogProblem(before);
      assert forall i | 0 <= i < n :: before[i] == catalog[i];
      assert EntryProblem(before, catalog[n]).None? <==>
               EntryOk(catalog[n]) && forall i | 0 <= i < n :: catalog[i].actionType != catalog[n].actionType;
    }
  }

  /** A request passes exactly when nothing is wrong with it. */
  lemma NoContextProblem(r: Request)
    ensures ContextProblem(r).None? <==> RequestOk(r)
  {
    hide IsId, EntryOk, CatalogProblem;
    NoCatalogProblem(r.catalog);
  }

  /** What is wrong with a request, where something is, in the order of the checks. */
  lemma ContextProblemExactly(r: Request)
    ensures var problem := ContextProblem(r);
            var early := && IsBounded(r.text, 1, 4_000) && 0 <= r.deadlineAtMs <= MAX_SAFE_INTEGER
                         && 1 <= |r.catalog| <= 100;
            && (problem == Some(TextSize) <==> !(1 <= Utf16Length(r.text) <= 4_000))
            && (problem == Some(BadDeadline) <==>
                  1 <= Utf16Length(r.text) <= 4_000 && !(0 <= r.deadlineAtMs <= MAX_SAFE_INTEGER))
            && (problem == Some(CatalogSize) <==>
                  && 1 <= Utf16Length(r.text) <= 4_000 && 0 <= r.deadlineAtMs <= MAX_SAFE_INTEGER
                  && !(1 <= |r.catalog| <= 100))
            && (problem in {Some(BadCatalog), Some(BadArgumentSchema)} <==> early && !CatalogOk(r.catalog))
            && (problem == Some(BadEntities) <==>
                  early && CatalogOk(r.catalog) && exists id | id in r.entities :: !IsId(id))
            && (problem == Some(BadDialogue) <==>
                  && early && CatalogOk(r.catalog) && (forall id | id in r.entities :: IsId(id))
                  && r.dialogue.Some?
                  && (|r.dialogue.value| > 20
                      || exists line | line in r.dialogue.value :: !(1 <= Utf16Length(line) <= 1_000)))
  {
    hide IsId, EntryOk, CatalogProblem, Utf16Length;
    NoCatalogProblem(r.catalog);
    CatalogProblemKind(r.catalog);
    assert forall i | 0 <= i < |r.entities| :: r.entities[i] in r.entities;
    if r.dialogue.Some? {
      assert forall i | 0 <= i < |r.dialogue.value| :: r.dialogue.value[i] in r.dialogue.value;
    }
  }

  /** The problem of a catalogue is that of its first bad entry: a name that is no identifier
      or is taken, before a schema that is malformed. */
  lemma {:induction false} CatalogProblemExactly(catalog: seq<CatalogEntry>)
    requires CatalogProblem(catalog).Some?
    ensures exists i | 0 <= i < |catalog| ::
              && CatalogProblem(catalog[..i]).None?
              && var entry := catalog[i];
                 var named := && IsId(entry.actionType)
                              && forall k | 0 <= k < i :: catalog[k].actionType != entry.actionType;
                 && (CatalogProblem(catalog) == Some(BadCatalog) <==> !named)
                 && (CatalogProblem(catalog) == Some(BadArgumentSchema) <==>
                       named && exists name | name in entry.args :: !IsId(name) || !RuleOk(entry.args[name]))
    decreases |catalog|
  {
    hide IsId, RuleOk;
    var n := |catalog| - 1;
    var before := catalog[..n];
    assert forall k | 0 <= k < n :: before[k] == catalog[k];
    if CatalogProblem(before).Some? {
      CatalogProblemExactly(before);
      var i :| 0 <= i < n && CatalogProblem(before[..i]).None?
               && var entry := before[i];
                  var named := && IsId(entry.actionType)
                               && forall k | 0 <= k < i :: before[k].actionType != entry.actionType;
                  && (CatalogProblem(before) == Some(BadCatalog) <==> !named)
                  && (CatalogProblem(before) == Some(BadArgumentSchema) <==>
                        named && exists name | name in entry.args :: !IsId(name) || !RuleOk(entry.args[name]));
      assert catalog[..i] == before[..i];
    }
  }

  lemma {:induction false} CatalogProblemKind(catalog: seq<CatalogEntry>)
    ensures CatalogProblem(catalog).Some? ==> CatalogProblem(catalog).value in {BadCatalog, BadArgumentSchema}
    decreases |catalog|
  {
    if catalog != [] { CatalogProblemKind(catalog[..|catalog| - 1]); }
  }

  lemma {:induction false} ProblemIsFirst(catalog: seq<CatalogEntry>, i: nat)
    requires i <= |catalog| && CatalogProblem(catalog[..i]).Some?
    ensures CatalogProblem(catalog) == CatalogProblem(catalog[..i])
    decreases |catalog|
  {
    hide EntryProblem;
    if i == |catalog| {
      assert catalog[..i] == catalog;
    } else {
      var n := |catalog| - 1;
      assert catalog[..n][..i] == catalog[..i];
      ProblemIsFirst(catalog[..n], i);
    }
  }

  /** validateInterpretRequest, with its loop over the catalogue and the set it fills. */
  method ValidateRequest(r: Request) returns (problem: Option<ContextError>)
    ensures problem == ContextProblem(r)
  {
    hide IsId, RuleOk, IsBounded, CatalogProblem;
    if !IsBounded(r.text, 1, 4_000) { return Some(TextSize); }
    if !IsSafeInteger(r.deadlineAtMs) || r.deadlineAtMs < 0 { return Some(BadDeadline); }
    if !(1 <= |r.catalog| <= 100) { return Some(CatalogSize); }
    problem := FindCatalogProblem(r.catalog);
    if problem.Some? { return; }
    if exists i | 0 <= i < |r.entities| :: !IsId(r.entities[i]) { return Some(BadEntities); }
    if r.dialogue.Some? && (|r.dialogue.value| > 20
        || exists i | 0 <= i < |r.dialogue.value| :: !IsBounded(r.dialogue.value[i], 1, 1_000)) {
      return Some(BadDialogue);
    }
  }

  method FindCatalogProblem(catalog: seq<CatalogEntry>) returns (problem: Option<ContextError>)
    ensures problem == CatalogProblem(catalog)
  {
    hide IsId, RuleOk;
    var actionTypes: set<string> := {};
    for i := 0 to |catalog|
      invariant CatalogProblem(catalog[..i]).None?
      invariant forall t :: t in actionTypes <==> exists k | 0 <= k < i :: catalog[k].actionType == t
    {
      var entry := catalog[i];
      assert catalog[..i + 1][..i] == catalog[..i];
      assert entry.actionType in actionTypes
          <==> exists k | 0 <= k < i :: catalog[..i][k].actionType == entry.actionType;
      if !IsId(entry.actionType) || entry.actionType in actionTypes {
        ProblemIsFirst(catalog, i + 1);
        return Some(BadCatalog);
      }
      actionTypes := actionTypes + {entry.actionType};
      if exists name | name in entry.args :: !IsId(name) || !RuleOk(entry.args[name]) {
        ProblemIsFirst(catalog, i + 1);
        return Some(BadArgumentSchema);
      }
    }
    assert catalog[..|catalog|] == catalog;
    problem := None;
  }

  /** In a catalogue that passes the check, every action type has its own entry. */
  lemma EntryFound(catalog: seq<CatalogEntry>, i: nat)
    requires i < |catalog|
    requires forall j, k | 0 <= j < k < |catalog| :: catalog[j].actionType != catalog[k].actionType
    ensures UniqueEntry(catalog, catalog[i].actionType) == Some(catalog[i])
  {
    EntryExactly(catalog, catalog[i].actionType, catalog[i]);
    assert OnlyEntry(catalog, catalog[i].actionType, i);
  }

  // ----- the interpreter

  datatype FailureCode = TimedOut | WasAborted | OtherFailure

  /** An answer of the provider; `meta` stands for its usage, model and request id. */
  datatype Reply =
    | Failure(retryable: bool, code: FailureCode, meta: string)
    | WrongFormat(meta: string)
    | Object(value: Json, meta: string)

  datatype Message = DeadlineExpired | Aborted | NoDecision | WrongOutputFormat | OutsideContract

  datatype Decision =
    | Decided(proposal: Proposal)
    | InvalidContext(problem: ContextError)
    | ProviderFailure(message: Message)
    | InvalidResponse(message: Message)

  /** What is kept of an attempt. */
  datatype Attempt = Attempt(number: nat, ok: bool, meta: string, error: Option<FailureCode>)

  datatype Outcome = Outcome(decision: Decision, evidence: seq<Attempt>)

  function AttemptOf(number: nat, reply: Reply): Attempt {
    Attempt(number, !reply.Failure?, reply.meta, if reply.Failure? then Some(reply.code) else None)
  }

  function EvidenceOf(replies: seq<Reply>): (evidence: seq<Attempt>)
    ensures |evidence| == |replies|
  {
    seq(|replies|, i requires 0 <= i < |replies| => AttemptOf(i + 1, replies[i]))
  }

  function FailureMessage(code: FailureCode): Message {
    match code
    case TimedOut => DeadlineExpired
    case WasAborted => Aborted
    case OtherFailure => NoDecision
  }

  function Validated(r: Request, reply: Reply): Option<Proposal> {
    if reply.Object? then ValidProposal(reply.value, r.text, r.catalog, r.entities) else None
  }

  /** The decision that a reply forces, if it does. */
  function Verdict(r: Request, reply: Reply, last: bool): Option<Decision> {
    if reply.Failure? then (if !reply.retryable || last then Some(ProviderFailure(FailureMessage(reply.code)))
        else None)
    else if Validated(r, reply).Some? then Some(Decided(Validated(r, reply).value))
    else if last then Some(InvalidResponse(if reply.WrongFormat? then WrongOutputFormat else OutsideContract))
    else None
  }

  /** When a reply decides, and what: a valid proposal always, a failure unless it may be
      tried again, and on the last attempt anything. */
  lemma VerdictExactly(r: Request, reply: Reply, last: bool)
    ensures var verdict := Verdict(r, reply, last);
            && (forall p :: verdict == Some(Decided(p)) <==>
                  reply.Object? && ValidProposal(reply.value, r.text, r.catalog, r.entities) == Some(p))
            && (verdict == Some(ProviderFailure(DeadlineExpired)) <==>
                  reply.Failure? && reply.code == TimedOut && (last || !reply.retryable))
            && (verdict == Some(ProviderFailure(Aborted)) <==>
                  reply.Failure? && reply.code == WasAborted && (last || !reply.retryable))
            && (verdict == Some(ProviderFailure(NoDecision)) <==>
                  reply.Failure? && reply.code == OtherFailure && (last || !reply.retryable))
            && (verdict == Some(InvalidResponse(WrongOutputFormat)) <==> last && reply.WrongFormat?)
            && (verdict == Some(InvalidResponse(OutsideContract)) <==>
                  && last && reply.Object?
                  && ValidProposal(reply.value, r.text, r.catalog, r.entities).None?)
            && (verdict.None? <==>
                  && !last && (reply.Failure? ==> reply.retryable)
                  && (reply.Object? ==> ValidProposal(reply.value, r.text, r.catalog, r.entities).None?))
  {
    hide ValidProposal;
  }

  /** What is kept of the calls: each under its number, in their order. */
  lemma EvidenceExactly(replies: seq<Reply>, i: nat)
    requires i < |replies|
    ensures var a := EvidenceOf(replies)[i];
            && a.number == i + 1 && a.meta == replies[i].meta && (a.ok <==> !replies[i].Failure?)
            && (a.error.Some? <==> replies[i].Failure?)
            && (replies[i].Failure? ==> a.error == Some(replies[i].code))
  {
  }

  /** interpret: `aborted` tells whether the signal has fired when each attempt starts, and
      `replies` what the provider would answer to each. A proposal that is returned passed
      validation; the second call is made only after a first answer that was a retryable
      failure or no valid proposal; the evidence is of the calls that were made. */
  method Interpret(r: Request, aborted: seq<bool>, replies: seq<Reply>) returns (o: Outcome)
    requires |aborted| == 2 && |replies| == 2
    ensures |o.evidence| <= 2 && o.evidence == EvidenceOf(replies[..|o.evidence|])
    ensures |o.evidence| == 0 <==> !RequestOk(r) || aborted[0]
    ensures |o.evidence| == 2 <==> && RequestOk(r) && !aborted[0] && !aborted[1]
                                   && Validated(r, replies[0]).None? && (replies[0].Failure? ==> replies[0].retryable)
    ensures o.decision.InvalidContext? <==> !RequestOk(r)
    ensures o.decision.InvalidContext? ==> ContextProblem(r) == Some(o.decision.problem)
    ensures forall p ::
              o.decision == Decided(p) <==> |o.evidence| >= 1 && Validated(r, replies[|o.evidence| - 1]) == Some(p)
    ensures RequestOk(r) && |o.evidence| == 0 ==> o.decision == ProviderFailure(Aborted)
    ensures |o.evidence| == 1 && Verdict(r, replies[0], false).None? ==> o.decision == ProviderFailure(Aborted)
    ensures |o.evidence| == 1 && Verdict(r, replies[0], false).Some?
        ==> Some(o.decision) == Verdict(r, replies[0], false)
    ensures |o.evidence| == 2 ==> Some(o.decision) == Verdict(r, replies[1], true)
  {
    hide ValidProposal, RequestOk, ContextProblem;
    NoContextProblem(r);
    var problem := ValidateRequest(r);
    if problem.Some? { return Outcome(InvalidContext(problem.value), []); }
    var attempts: seq<Attempt> := [];
    while |attempts| < 2
      invariant |attempts| < 2
      invariant attempts == EvidenceOf(replies[..|attempts|])
      invariant |attempts| == 1 ==> !aborted[0] && Verdict(r, replies[0], false).None?
      decreases 2 - |attempts|
    {
      var n := |attempts|;
      if aborted[n] { return Outcome(ProviderFailure(Aborted), attempts); }
      attempts := attempts + [AttemptOf(n + 1, replies[n])];
      var verdict := Verdict(r, replies[n], n == 1);
      if verdict.Some? { return Outcome(verdict.value, attempts); }
    }
    // The return after the loop is never reached.
    assert false;
  }
}
