/** The authoritative world state, the conditions read from it and the effects applied to
    it: what the scenario engine relies on. */
module World {
  import opened Json
  import opened Numbers
  import opened Strings
  import opened Wrappers

  const SCHEMA_VERSION := "1.0"
  const MAX_CONDITION_DEPTH := 32

  datatype Entity = Entity(id: string, kind: string, status: string, locationId: Option<string>)

  datatype Resource = Resource(id: string, unit: string, value: int, min: int, max: int)

  datatype Position = AtLocation(locationId: string) | HeldBy(holderId: string)

  datatype Item = Item(id: string, position: Position)

  datatype Terminal = Terminal(reason: string, outcome: string)

  datatype WorldState = WorldState(
    schemaVersion: string,
    revision: int,
    elapsedSeconds: int,
    locations: seq<string>,
    entities: seq<Entity>,
    resources: seq<Resource>,
    items: seq<Item>,
    terminal: Option<Terminal>)

  function EntityIds(entities: seq<Entity>): (ids: seq<string>)
    ensures |ids| == |entities|
  {
    seq(|entities|, i requires 0 <= i < |entities| => entities[i].id)
  }

  function ResourceIds(resources: seq<Resource>): (ids: seq<string>)
    ensures |ids| == |resources|
  {
    seq(|resources|, i requires 0 <= i < |resources| => resources[i].id)
  }

  function ItemIds(items: seq<Item>): (ids: seq<string>)
    ensures |ids| == |items|
  {
    seq(|items|, i requires 0 <= i < |items| => items[i].id)
  }

  /** findIndex by identifier. */
  function IndexOf(ids: seq<string>, id: string): (index: Option<nat>)
    ensures index.Some? ==> index.value < |ids| && ids[index.value] == id
    ensures index.None? <==> id !in ids
  {
    if ids == [] then None
    else if ids[0] == id then Some(0)
    else
      var rest := IndexOf(ids[1..], id);
      if rest.None? then None else Some(rest.value + 1)
  }

  predicate Distinct(ids: seq<string>) {
    forall i, j | 0 <= i < j < |ids| :: ids[i] != ids[j]
  }

  predicate EntityPlaced(locations: seq<string>, e: Entity) {
    e.locationId.Some? ==> e.locationId.value in locations
  }

  predicate PositionKnown(locations: seq<string>, entityIds: seq<string>, p: Position) {
    if p.AtLocation? then p.locationId in locations else p.holderId in entityIds
  }

  /** hasValidWorldStateReferences */
  predicate ValidReferences(s: WorldState) {
    && Distinct(s.locations) && Distinct(EntityIds(s.entities))
    && Distinct(ResourceIds(s.resources)) && Distinct(ItemIds(s.items))
    && (forall i | 0 <= i < |s.entities| :: EntityPlaced(s.locations, s.entities[i]))
    && (forall i | 0 <= i < |s.items| :: PositionKnown(s.locations, EntityIds(s.entities), s.items[i].position))
  }

  predicate ValidState(s: WorldState) {
    s.schemaVersion == SCHEMA_VERSION && ValidReferences(s)
  }

  predicate InBounds(r: Resource) {
    IsSafeInteger(r.value) && IsSafeInteger(r.min) && IsSafeInteger(r.max) && r.min <= r.value <= r.max
  }

  // ----- conditions

  datatype Condition =
    | ResourceAtLeast(resourceId: string, amount: int)
    | EntityAt(entityId: string, locationId: string)
    | ItemHeldBy(itemId: string, holderId: string)
    | All(conditions: seq<Condition>)
    | Any(conditions: seq<Condition>)
    | Not(condition: Condition)

  datatype ConditionFailure =
    | ConditionInvalidState
    | InvalidCondition
    | ConditionResourceNotFound
    | ConditionEntityNotFound
    | ConditionLocationNotFound
    | ConditionItemNotFound
    | ConditionHolderNotFound

  datatype Truth = Known(value: bool) | Broken(code: ConditionFailure)

  function Id(value: Option<Json>): Option<string> {
    if Text(value).Some? && IsId(Text(value).value) then Text(value) else None
  }

  /** isCondition: the condition that a JSON value describes, if it is well formed and
      nested no deeper than 32. */
  function ParseCondition(j: Json, depth: nat): Option<Condition>
    decreases MAX_CONDITION_DEPTH + 1 - depth, 0
  {
    if depth > MAX_CONDITION_DEPTH || !HasText(Field(j, "schemaVersion"), SCHEMA_VERSION) then None
    else if HasText(Field(j, "type"), "resource.atLeast") then
      var resourceId, amount := Id(Field(j, "resourceId")), Field(j, "value");
      if HasExactKeys(j, {"schemaVersion", "type", "resourceId", "value"}) && resourceId.Some?
         && amount.Some? && amount.value.JInt? && IsSafeInteger(amount.value.number)
      then Some(ResourceAtLeast(resourceId.value, amount.value.number)) else None
    else if HasText(Field(j, "type"), "entity.at") then
      var entityId, locationId := Id(Field(j, "entityId")), Id(Field(j, "locationId"));
      if HasExactKeys(j, {"schemaVersion", "type", "entityId", "locationId"}) && entityId.Some? && locationId.Some?
      then Some(EntityAt(entityId.value, locationId.value)) else None
    else if HasText(Field(j, "type"), "item.heldBy") then
      var itemId, holderId := Id(Field(j, "itemId")), Id(Field(j, "holderId"));
      if HasExactKeys(j, {"schemaVersion", "type", "itemId", "holderId"}) && itemId.Some? && holderId.Some?
      then Some(ItemHeldBy(itemId.value, holderId.value)) else None
    else if HasText(Field(j, "type"), "all") || HasText(Field(j, "type"), "any") then
      var inner := Field(j, "conditions");
      if HasExactKeys(j, {"schemaVersion", "type", "conditions"}) && inner.Some? && inner.value.JArray?
         && 1 <= |inner.value.elements| <= 64 then
        var children := ParseConditions(inner.value.elements, depth + 1);
        if children.None? then None
        else Some(if HasText(Field(j, "type"), "all") then All(children.value) else Any(children.value))
      else None
    else if HasText(Field(j, "type"), "not") then
      var inner := Field(j, "condition");
      if HasExactKeys(j, {"schemaVersion", "type", "condition"}) && inner.Some? then
        var child := ParseCondition(inner.value, depth + 1);
        if child.None? then None else Some(Not(child.value))
      else None
    else None
  }

  function ParseConditions(js: seq<Json>, depth: nat): Option<seq<Condition>>
    decreases MAX_CONDITION_DEPTH + 1 - depth, |js| + 1
  {
    if js == [] then Some([])
    else
      var first, rest := ParseCondition(js[0], depth), ParseConditions(js[1..], depth);
      if first.None? || rest.None? then None else Some([first.value] + rest.value)
  }

  // ----- what is accepted as a condition

  function Tagged(kind: string, rest: map<string, Json>): Json {
    JObject(map["schemaVersion" := JString(SCHEMA_VERSION), "type" := JString(kind)] + rest)
  }

  /** A condition as authors write it. */
  function ConditionJson(c: Condition): Json
    decreases c
  {
    match c
    case ResourceAtLeast(resourceId, amount) =>
      Tagged("resource.atLeast", map["resourceId" := JString(resourceId), "value" := JInt(amount)])
    case EntityAt(entityId, locationId) =>
      Tagged("entity.at", map["entityId" := JString(entityId), "locationId" := JString(locationId)])
    case ItemHeldBy(itemId, holderId) =>
      Tagged("item.heldBy", map["itemId" := JString(itemId), "holderId" := JString(holderId)])
    case All(conditions) => Tagged("all", map["conditions" := JArray(ConditionsJson(conditions))])
    case Any(conditions) => Tagged("any", map["conditions" := JArray(ConditionsJson(conditions))])
    case Not(condition) => Tagged("not", map["condition" := ConditionJson(condition)])
  }

  function ConditionsJson(cs: seq<Condition>): seq<Json>
    decreases cs
  {
    if cs == [] then [] else [ConditionJson(cs[0])] + ConditionsJson(cs[1..])
  }

  /** Identifiers and amounts are in range, every list has 1 to 64 children, and nothing is
      nested deeper than 32. */
  predicate Fits(c: Condition, depth: nat)
    decreases c
  {
    depth <= 32 &&
    match c
    case ResourceAtLeast(resourceId, amount) => IsId(resourceId) && IsSafeInteger(amount)
    case EntityAt(entityId, locationId) => IsId(entityId) && IsId(locationId)
    case ItemHeldBy(itemId, holderId) => IsId(itemId) && IsId(holderId)
    case All(conditions) => 1 <= |conditions| <= 64 && FitEach(conditions, depth + 1)
    case Any(conditions) => 1 <= |conditions| <= 64 && FitEach(conditions, depth + 1)
    case Not(condition) => Fits(condition, depth + 1)
  }

  predicate FitEach(cs: seq<Condition>, depth: nat)
    decreases cs
  {
    forall i | 0 <= i < |cs| :: Fits(cs[i], depth)
  }

  lemma {:induction false} WrittenParses(c: Condition, depth: nat)
    requires Fits(c, depth)
    ensures ParseCondition(ConditionJson(c), depth) == Some(c)
    decreases c
  {
    hide ParseCondition, ConditionJson, ParseConditions, ConditionsJson;
    if IsLeaf(c) {
      WrittenLeafParses(c, depth);
    } else if c.Not? {
      WrittenParses(c.condition, depth + 1);
      WrittenNotParses(c, depth);
    } else {
      EachWrittenParses(c.conditions, depth + 1);
      WrittenListParses(c, depth);
    }
  }

  lemma WrittenNotParses(c: Condition, depth: nat)
    requires c.Not? && Fits(c, depth) && ParseCondition(ConditionJson(c.condition), depth + 1) == Some(c.condition)
    ensures ParseCondition(ConditionJson(c), depth) == Some(c)
  {
    hide IsId, ParseConditions, ConditionsJson;
  }

  lemma WrittenListParses(c: Condition, depth: nat)
    requires (c.All? || c.Any?) && Fits(c, depth) && |ConditionsJson(c.conditions)| == |c.conditions|
    requires ParseConditions(ConditionsJson(c.conditions), depth + 1) == Some(c.conditions)
    ensures ParseCondition(ConditionJson(c), depth) == Some(c)
  {
    hide IsId, ParseConditions, ConditionsJson, FitEach;
  }

  predicate IsLeaf(c: Condition) {
    c.ResourceAtLeast? || c.EntityAt? || c.ItemHeldBy?
  }

  lemma WrittenLeafParses(c: Condition, depth: nat)
    requires IsLeaf(c) && Fits(c, depth)
    ensures ParseCondition(ConditionJson(c), depth) == Some(c)
  {
    hide IsId, ParseConditions, ConditionsJson;
  }

  lemma ParsedLeafIsWritten(j: Json, depth: nat)
    requires ParseCondition(j, depth).Some? && IsLeaf(ParseCondition(j, depth).value)
    ensures var c := ParseCondition(j, depth).value; Fits(c, depth) && j == ConditionJson(c)
  {
    hide IsId, ParseConditions, ConditionsJson;
    assert j.fields == ConditionJson(ParseCondition(j, depth).value).fields;
  }

  lemma {:induction false} EachWrittenParses(cs: seq<Condition>, depth: nat)
    requires FitEach(cs, depth)
    ensures |ConditionsJson(cs)| == |cs| && ParseConditions(ConditionsJson(cs), depth) == Some(cs)
    decreases cs
  {
    hide Fits, ParseCondition, ConditionJson;
    if cs != [] {
      WrittenParses(cs[0], depth);
      EachWrittenParses(cs[1..], depth);
      assert ConditionsJson(cs)[1..] == ConditionsJson(cs[1..]) && [cs[0]] + cs[1..] == cs;
    }
  }

  lemma {:induction false} ParsedIsWritten(j: Json, depth: nat)
    requires ParseCondition(j, depth).Some?
    ensures var c := ParseCondition(j, depth).value; Fits(c, depth) && j == ConditionJson(c)
    decreases MAX_CONDITION_DEPTH + 1 - depth, 0
  {
    var c := ParseCondition(j, depth).value;
    if IsLeaf(c) {
      ParsedLeafIsWritten(j, depth);
    } else {
      ParsedShape(j, depth);
      hide ParseCondition, ConditionJson, ParseConditions, ConditionsJson;
      if c.Not? {
        ParsedIsWritten(j.fields["condition"], depth + 1);
      } else {
        EachParsedIsWritten(j.fields["conditions"].elements, depth + 1);
      }
      ShapeWritten(j, c, depth);
    }
  }

  /** The outer layer of what was parsed. */
  lemma ParsedShape(j: Json, depth: nat)
    requires ParseCondition(j, depth).Some? && !IsLeaf(ParseCondition(j, depth).value)
    ensures depth <= 32
    ensures HasShape(j, ParseCondition(j, depth).value, depth)
  {
    hide IsId, ParseConditions;
    var c := ParseCondition(j, depth).value;
    if c.Not? {
      assert j.fields == Tagged("not", map["condition" := j.fields["condition"]]).fields;
    } else {
      assert j.fields
          == Tagged(if c.All? then "all" else "any", map["conditions" := j.fields["conditions"]]).fields;
    }
  }

  ghost predicate HasShape(j: Json, c: Condition, depth: nat)
    requires depth <= 32
  {
    && j.JObject? && !IsLeaf(c)
    && if c.Not? then
         && j.fields.Keys == {"schemaVersion", "type", "condition"}
         && j == Tagged("not", map["condition" := j.fields["condition"]])
         && ParseCondition(j.fields["condition"], depth + 1) == Some(c.condition)
       else
         && j.fields.Keys == {"schemaVersion", "type", "conditions"} && j.fields["conditions"].JArray?
         && j == Tagged(if c.All? then "all" else "any", map["conditions" := j.fields["conditions"]])
         && 1 <= |j.fields["conditions"].elements| <= 64
         && ParseConditions(j.fields["conditions"].elements, depth + 1) == Some(c.conditions)
  }

  lemma ShapeWritten(j: Json, c: Condition, depth: nat)
    requires depth <= 32 && HasShape(j, c, depth)
    requires if c.Not? then Fits(c.condition, depth + 1) && j.fields["condition"] == ConditionJson(c.condition)
             else
               && FitEach(c.conditions, depth + 1) && |c.conditions| == |j.fields["conditions"].elements|
               && j.fields["conditions"].elements == ConditionsJson(c.conditions)
    ensures Fits(c, depth) && j == ConditionJson(c)
  {
    hide ParseCondition, ParseConditions, ConditionsJson, FitEach, Tagged;
  }

  lemma {:induction false} EachParsedIsWritten(js: seq<Json>, depth: nat)
    requires ParseConditions(js, depth).Some?
    ensures var cs := ParseConditions(js, depth).value;
            |cs| == |js| && FitEach(cs, depth) && js == ConditionsJson(cs)
    decreases MAX_CONDITION_DEPTH + 1 - depth, |js| + 1
  {
    hide Fits, ParseCondition, ConditionJson;
    if js != [] {
      ParsedIsWritten(js[0], depth);
      EachParsedIsWritten(js[1..], depth);
    }
  }

  /** A JSON value is accepted as a condition exactly when it is the writing of one that fits,
      and it is then read as that one. */
  lemma ParseExactly(j: Json, c: Condition)
    ensures ParseCondition(j, 0) == Some(c) <==> Fits(c, 0) && j == ConditionJson(c)
  {
    hide ParseCondition, ConditionJson, Fits;
    if Fits(c, 0) { WrittenParses(c, 0); }
    if ParseCondition(j, 0) == Some(c) { ParsedIsWritten(j, 0); }
  }

  // ----- evaluating conditions

  function Combine(values: seq<bool>, all: bool): bool {
    if all then forall i | 0 <= i < |values| :: values[i] else exists i | 0 <= i < |values| :: values[i]
  }

  datatype Truths = AllKnown(values: seq<bool>) | SomeBroken(code: ConditionFailure)

  /** evaluateKnownCondition: every child is evaluated, and the first broken one decides. */
  function Evaluate(s: WorldState, c: Condition): Truth
    decreases c
  {
    match c
    case ResourceAtLeast(resourceId, amount) =>
      var at := IndexOf(ResourceIds(s.resources), resourceId);
      if at.None? then Broken(ConditionResourceNotFound)
      else if !InBounds(s.resources[at.value]) then Broken(ConditionInvalidState)
      else Known(s.resources[at.value].value >= amount)
    case EntityAt(entityId, locationId) =>
      var at := IndexOf(EntityIds(s.entities), entityId);
      if locationId !in s.locations then Broken(ConditionLocationNotFound)
      else if at.None? then Broken(ConditionEntityNotFound)
      else Known(s.entities[at.value].locationId == Some(locationId))
    case ItemHeldBy(itemId, holderId) =>
      var at := IndexOf(ItemIds(s.items), itemId);
      if at.None? then Broken(ConditionItemNotFound)
      else if holderId !in EntityIds(s.entities) then Broken(ConditionHolderNotFound)
      else Known(s.items[at.value].position == HeldBy(holderId))
    case All(conditions) =>
      var truths := EvaluateEach(s, conditions);
      if truths.SomeBroken? then Broken(truths.code) else Known(Combine(truths.values, true))
    case Any(conditions) =>
      var truths := EvaluateEach(s, conditions);
      if truths.SomeBroken? then Broken(truths.code) else Known(Combine(truths.values, false))
    case Not(condition) =>
      var truth := Evaluate(s, condition);
      if truth.Broken? then truth else Known(!truth.value)
  }

  function EvaluateEach(s: WorldState, cs: seq<Condition>): Truths
    decreases cs
  {
    if cs == [] then AllKnown([])
    else
      var first := Evaluate(s, cs[0]);
      if first.Broken? then SomeBroken(first.code)
      else
        var rest := EvaluateEach(s, cs[1..]);
        if rest.SomeBroken? then rest else AllKnown([first.value] + rest.values)
  }

  /** evaluateCondition */
  function EvaluateCondition(s: WorldState, raw: Json): Truth {
    if !ValidState(s) then Broken(ConditionInvalidState)
    else
      var c := ParseCondition(raw, 0);
      if c.None? then Broken(InvalidCondition) else Evaluate(s, c.value)
  }

  /** The children of a condition are all evaluated, and the first broken one, if there is
      any, decides: nothing is skipped because of the truth of another child. */
  lemma {:induction false} EachMeaning(s: WorldState, cs: seq<Condition>)
    ensures EvaluateEach(s, cs).AllKnown? <==> forall i | 0 <= i < |cs| :: Evaluate(s, cs[i]).Known?
    ensures EvaluateEach(s, cs).AllKnown? ==>
              && |EvaluateEach(s, cs).values| == |cs|
              && forall i | 0 <= i < |cs| :: Evaluate(s, cs[i]) == Known(EvaluateEach(s, cs).values[i])
    ensures EvaluateEach(s, cs).SomeBroken? ==>
              exists i | 0 <= i < |cs| :: Evaluate(s, cs[i]) == Broken(EvaluateEach(s, cs).code)
                                          && forall k | 0 <= k < i :: Evaluate(s, cs[k]).Known?
    decreases cs
  {
    hide Evaluate;
    if cs != [] {
      var rest := cs[1..];
      EachMeaning(s, rest);
      assert forall i | 0 <= i < |rest| :: rest[i] == cs[i + 1];
      if Evaluate(s, cs[0]).Known? {
        if EvaluateEach(s, rest).SomeBroken? {
          var i :| 0 <= i < |rest| && Evaluate(s, rest[i]) == Broken(EvaluateEach(s, rest).code)
                   && forall k | 0 <= k < i :: Evaluate(s, rest[k]).Known?;
          assert Evaluate(s, cs[i + 1]) == Broken(EvaluateEach(s, cs).code);
          forall k | 0 <= k < i + 1 ensures Evaluate(s, cs[k]).Known? {
            if k > 0 { assert Evaluate(s, rest[k - 1]).Known?; }
          }
        } else {
          forall i | 0 <= i < |cs| ensures Evaluate(s, cs[i]) == Known(EvaluateEach(s, cs).values[i]) {
            if i > 0 { assert Evaluate(s, rest[i - 1]).Known?; }
          }
        }
      }
    }
  }

  /** `all` is true exactly when every child is, and `any` exactly when some child is and all
      are known; the first broken child breaks them both. */
  lemma AllAndAny(s: WorldState, cs: seq<Condition>)
    ensures Evaluate(s, All(cs)) == Known(true) <==> forall i | 0 <= i < |cs| :: Evaluate(s, cs[i]) == Known(true)
    ensures Evaluate(s, All(cs)) == Known(false) <==>
              && (forall i | 0 <= i < |cs| :: Evaluate(s, cs[i]).Known?)
              && exists i | 0 <= i < |cs| :: Evaluate(s, cs[i]) == Known(false)
    ensures Evaluate(s, Any(cs)) == Known(true) <==>
              && (forall i | 0 <= i < |cs| :: Evaluate(s, cs[i]).Known?)
              && exists i | 0 <= i < |cs| :: Evaluate(s, cs[i]) == Known(true)
    ensures Evaluate(s, Any(cs)) == Known(false) <==> forall i | 0 <= i < |cs| :: Evaluate(s, cs[i]) == Known(false)
    ensures forall code ::
              Evaluate(s, All(cs)) == Broken(code) <==>
                exists i | 0 <= i < |cs| :: FirstBroken(s, cs, i) && Evaluate(s, cs[i]) == Broken(code)
    ensures Evaluate(s, All(cs)).Broken? || Evaluate(s, Any(cs)).Broken? ==>
              Evaluate(s, All(cs)) == Evaluate(s, Any(cs))
  {
    EachMeaning(s, cs);
    ConnectivesBranch(s, cs);
    hide Evaluate, EvaluateEach;
    var t := EvaluateEach(s, cs);
    if t.SomeBroken? {
      var i :| 0 <= i < |cs| && Evaluate(s, cs[i]) == Broken(t.code)
               && forall k | 0 <= k < i :: Evaluate(s, cs[k]).Known?;
      assert FirstBroken(s, cs, i);
    } else {
      assert forall i | 0 <= i < |cs| :: t.values[i] == Evaluate(s, cs[i]).value;
    }
  }

  lemma ConnectivesBranch(s: WorldState, cs: seq<Condition>)
    ensures var (t, all, some) := (EvaluateEach(s, cs), Evaluate(s, All(cs)), Evaluate(s, Any(cs)));
            if t.SomeBroken? then all == some == Broken(t.code)
            else
              && all.Known? && (all.value <==> forall i | 0 <= i < |t.values| :: t.values[i])
              && some.Known? && (some.value <==> exists i | 0 <= i < |t.values| :: t.values[i])
  {
  }

  predicate FirstBroken(s: WorldState, cs: seq<Condition>, i: nat)
    requires i < |cs|
  {
    Evaluate(s, cs[i]).Broken? && forall k | 0 <= k < i :: Evaluate(s, cs[k]).Known?
  }

  /** What a condition says of a state. */
  ghost predicate Says(s: WorldState, c: Condition)
    decreases c
  {
    match c
    case ResourceAtLeast(resourceId, amount) => exists r | r in s.resources :: r.id == resourceId && r.value >= amount
    case EntityAt(entityId, locationId) =>
      exists e | e in s.entities :: e.id == entityId && e.locationId == Some(locationId)
    case ItemHeldBy(itemId, holderId) => exists i | i in s.items :: i.id == itemId && i.position == HeldBy(holderId)
    case All(conditions) => forall i | 0 <= i < |conditions| :: Says(s, conditions[i])
    case Any(conditions) => exists i | 0 <= i < |conditions| :: Says(s, conditions[i])
    case Not(condition) => !Says(s, condition)
  }

  /** Everything that a condition speaks of is there, and its resources are within their bounds. */
  ghost predicate Speakable(s: WorldState, c: Condition)
    decreases c
  {
    match c
    case ResourceAtLeast(resourceId, _) => exists r | r in s.resources :: r.id == resourceId && InBounds(r)
    case EntityAt(entityId, locationId) => locationId in s.locations && exists e | e in s.entities :: e.id == entityId
    case ItemHeldBy(itemId, holderId) =>
      (exists i | i in s.items :: i.id == itemId) && exists e | e in s.entities :: e.id == holderId
    case All(conditions) => forall i | 0 <= i < |conditions| :: Speakable(s, conditions[i])
    case Any(conditions) => forall i | 0 <= i < |conditions| :: Speakable(s, conditions[i])
    case Not(condition) => Speakable(s, condition)
  }

  /** The evaluation answers what the condition says, whenever it can be said; nothing that
      is missing collapses into false. */
  lemma {:induction false} EvaluateMeans(s: WorldState, c: Condition)
    requires ValidState(s)
    ensures Evaluate(s, c) == Known(true) <==> Speakable(s, c) && Says(s, c)
    ensures Evaluate(s, c) == Known(false) <==> Speakable(s, c) && !Says(s, c)
    decreases c
  {
    match c
    case ResourceAtLeast(resourceId, amount) => ResourceMeans(s, resourceId, amount);
    case EntityAt(entityId, locationId) => EntityMeans(s, entityId, locationId);
    case ItemHeldBy(itemId, holderId) => ItemMeans(s, itemId, holderId);
    case All(conditions) =>
      EachSettled(s, conditions);
      ConnectivesSettled(s, conditions);
    case Any(conditions) =>
      EachSettled(s, conditions);
      ConnectivesSettled(s, conditions);
    case Not(condition) => EvaluateMeans(s, condition);
  }

  lemma {:induction false} EachSettled(s: WorldState, cs: seq<Condition>)
    requires ValidState(s)
    ensures forall i | 0 <= i < |cs| :: Settled(s, cs[i], Speakable(s, cs[i]), Says(s, cs[i]))
    decreases cs
  {
    hide Evaluate, Says, Speakable;
    forall i | 0 <= i < |cs| ensures Settled(s, cs[i], Speakable(s, cs[i]), Says(s, cs[i])) {
      EvaluateMeans(s, cs[i]);
    }
  }

  lemma ConnectivesSettled(s: WorldState, cs: seq<Condition>)
    requires forall i | 0 <= i < |cs| :: Settled(s, cs[i], Speakable(s, cs[i]), Says(s, cs[i]))
    ensures Settled(s, All(cs), Speakable(s, All(cs)), Says(s, All(cs)))
    ensures Settled(s, Any(cs), Speakable(s, Any(cs)), Says(s, Any(cs)))
  {
    AllAndAny(s, cs);
    hide Evaluate, FirstBroken;
  }

  predicate Settled(s: WorldState, c: Condition, speakable: bool, says: bool) {
    && (Evaluate(s, c) == Known(true) <==> speakable && says)
    && (Evaluate(s, c) == Known(false) <==> speakable && !says)
  }

  /** At least so much of a resource: a broken answer says whether there is none of that
      identifier, or one outside its bounds. */
  lemma ResourceMeans(s: WorldState, resourceId: string, amount: int)
    requires ValidState(s)
    ensures var truth := Evaluate(s, ResourceAtLeast(resourceId, amount));
            && (truth == Known(true) <==>
                  exists r | r in s.resources :: r.id == resourceId && InBounds(r) && r.value >= amount)
            && (truth == Known(false) <==>
                  exists r | r in s.resources :: r.id == resourceId && InBounds(r) && r.value < amount)
            && (truth == Broken(ConditionResourceNotFound) <==> forall r | r in s.resources :: r.id != resourceId)
            && (truth == Broken(ConditionInvalidState) <==>
                  exists r | r in s.resources :: r.id == resourceId && !InBounds(r))
    ensures Settled(s, ResourceAtLeast(resourceId, amount), Speakable(s, ResourceAtLeast(resourceId, amount)),
                    Says(s, ResourceAtLeast(resourceId, amount)))
  {
    hide InBounds;
    var at := IndexOf(ResourceIds(s.resources), resourceId);
    forall i | 0 <= i < |s.resources| && s.resources[i].id == resourceId ensures at == Some(i) {
      assert ResourceIds(s.resources)[i] == resourceId;
    }
    if at.Some? { assert s.resources[at.value] in s.resources; }
  }

  lemma EntityMeans(s: WorldState, entityId: string, locationId: string)
    requires ValidState(s)
    ensures var truth := Evaluate(s, EntityAt(entityId, locationId));
            && (truth == Known(true) <==>
                  && locationId in s.locations
                  && exists e | e in s.entities :: e.id == entityId && e.locationId == Some(locationId))
            && (truth == Known(false) <==>
                  && locationId in s.locations
                  && exists e | e in s.entities :: e.id == entityId && e.locationId != Some(locationId))
            && (truth == Broken(ConditionLocationNotFound) <==> locationId !in s.locations)
            && (truth == Broken(ConditionEntityNotFound) <==>
                  locationId in s.locations && forall e | e in s.entities :: e.id != entityId)
    ensures Settled(s, EntityAt(entityId, locationId), Speakable(s, EntityAt(entityId, locationId)),
                    Says(s, EntityAt(entityId, locationId)))
  {
    var at := IndexOf(EntityIds(s.entities), entityId);
    forall i | 0 <= i < |s.entities| && s.entities[i].id == entityId ensures at == Some(i) {
      assert EntityIds(s.entities)[i] == entityId;
    }
    if at.Some? { assert s.entities[at.value] in s.entities; }
  }

  lemma ItemMeans(s: WorldState, itemId: string, holderId: string)
    requires ValidState(s)
    ensures var truth := Evaluate(s, ItemHeldBy(itemId, holderId));
            var held := exists e | e in s.entities :: e.id == holderId;
            && (truth == Known(true) <==>
                  held && exists i | i in s.items :: i.id == itemId && i.position == HeldBy(holderId))
            && (truth == Known(false) <==>
                  held && exists i | i in s.items :: i.id == itemId && i.position != HeldBy(holderId))
            && (truth == Broken(ConditionItemNotFound) <==> forall i | i in s.items :: i.id != itemId)
            && (truth == Broken(ConditionHolderNotFound) <==>
                  !held && exists i | i in s.items :: i.id == itemId)
    ensures Settled(s, ItemHeldBy(itemId, holderId), Speakable(s, ItemHeldBy(itemId, holderId)),
                    Says(s, ItemHeldBy(itemId, holderId)))
  {
    var at := IndexOf(ItemIds(s.items), itemId);
    forall i | 0 <= i < |s.items| && s.items[i].id == itemId ensures at == Some(i) {
      assert ItemIds(s.items)[i] == itemId;
    }
    if at.Some? { assert s.items[at.value] in s.items; }
    EntityListed(s, holderId);
  }

  lemma EntityListed(s: WorldState, id: string)
    ensures id in EntityIds(s.entities) <==> exists e | e in s.entities :: e.id == id
  {
    forall i | 0 <= i < |s.entities| ensures EntityIds(s.entities)[i] == s.entities[i].id {}
    if id in EntityIds(s.entities) {
      var i :| 0 <= i < |s.entities| && EntityIds(s.entities)[i] == id;
      assert s.entities[i] in s.entities;
    }
  }

  /** A raw condition is known to be true or false exactly when the state is valid and the
      condition is the writing of one that can be said of it; a value that writes none is an
      invalid condition. */
  lemma ConditionExactly(s: WorldState, raw: Json)
    ensures var truth := EvaluateCondition(s, raw);
            var valid := s.schemaVersion == "1.0" && ValidReferences(s);
            && (forall value: bool ::
                  truth == Known(value) <==>
                    && valid
                    && exists c: Condition ::
                         Fits(c, 0) && raw == ConditionJson(c) && Speakable(s, c) && Says(s, c) == value)
            && (truth == Broken(InvalidCondition) <==>
                  valid && forall c: Condition :: !(Fits(c, 0) && raw == ConditionJson(c)))
            && (!valid ==> truth == Broken(ConditionInvalidState))
  {
    hide ParseCondition, ConditionJson, Fits, Evaluate, Says, Speakable, ValidReferences;
    forall c: Condition
      ensures ParseCondition(raw, 0) == Some(c) <==> Fits(c, 0) && raw == ConditionJson(c)
    {
      ParseExactly(raw, c);
    }
    var c := ParseCondition(raw, 0);
    if c.Some? { ParseExactly(raw, c.value); }
    if ValidState(s) && c.Some? {
      EvaluateMeans(s, c.value);
      NeverInvalid(s, c.value);
    }
  }

  lemma {:induction false} NeverInvalid(s: WorldState, c: Condition)
    ensures Evaluate(s, c) != Broken(InvalidCondition)
    decreases c
  {
    match c
    case All(cs) => EachNeverInvalid(s, cs);
    case Any(cs) => EachNeverInvalid(s, cs);
    case Not(inner) => NeverInvalid(s, inner);
    case _ =>
  }

  lemma {:induction false} EachNeverInvalid(s: WorldState, cs: seq<Condition>)
    ensures EvaluateEach(s, cs) != SomeBroken(InvalidCondition)
    decreases cs
  {
    hide Evaluate;
    if cs != [] {
      NeverInvalid(s, cs[0]);
      EachNeverInvalid(s, cs[1..]);
    }
  }

  function Negated(cs: seq<Condition>): seq<Condition> {
    seq(|cs|, i requires 0 <= i < |cs| => Not(cs[i]))
  }

  lemma {:induction false} EachNegated(s: WorldState, cs: seq<Condition>)
    ensures var t, n := EvaluateEach(s, cs), EvaluateEach(s, Negated(cs));
            if t.SomeBroken? then n == t
            else
              && n.AllKnown? && |n.values| == |t.values|
              && forall i | 0 <= i < |t.values| :: n.values[i] == !t.values[i]
    decreases cs
  {
    if cs != [] {
      assert Negated(cs)[1..] == Negated(cs[1..]);
      EachNegated(s, cs[1..]);
    }
  }

  /** Conditions obey De Morgan's law, also when one of them is broken. */
  lemma DeMorgan(s: WorldState, cs: seq<Condition>)
    ensures Evaluate(s, Not(All(cs))) == Evaluate(s, Any(Negated(cs)))
    ensures Evaluate(s, Not(Any(cs))) == Evaluate(s, All(Negated(cs)))
  {
    EachNegated(s, cs);
    hide EvaluateEach, Negated;
    var t := EvaluateEach(s, cs);
    if t.AllKnown? {
      assert forall i | 0 <= i < |t.values| :: EvaluateEach(s, Negated(cs)).values[i] == !t.values[i];
    }
  }

  // ----- effects

  datatype Effect =
    | ResourceChange(resourceId: string, delta: int)
    | ItemTransfer(itemId: string, destination: Position)
    | EntityMove(entityId: string, locationId: string)

  datatype EffectFailure =
    | EffectInvalidState
    | InvalidEffect
    | UnsupportedEffect
    | InvalidDelta
    | ResourceNotFound
    | ResourceOutOfBounds
    | ItemNotFound
    | EntityNotFound
    | HolderNotFound
    | LocationNotFound

  /** One effect on a trial state. */
  datatype EffectStep = Stepped(state: WorldState) | Failed(failure: EffectFailure)

  /** A success lists the effects it applied. A refused batch names the effect that was
      refused by its index, and its type and source where they are texts; an invalid state
      has the index -1. */
  datatype Batch =
    | Applied(state: WorldState, effects: seq<Json>)
    | Refused(code: EffectFailure, index: int, kind: Option<string>, source: Option<string>)

  function ParsePosition(j: Option<Json>): Option<Position> {
    if j.None? then None
    else if HasText(Field(j.value, "kind"), "location") then
      var id := Id(Field(j.value, "locationId"));
      if HasExactKeys(j.value, {"kind", "locationId"}) && id.Some? then Some(AtLocation(id.value)) else None
    else if HasText(Field(j.value, "kind"), "holder") then
      var id := Id(Field(j.value, "holderId"));
      if HasExactKeys(j.value, {"kind", "holderId"}) && id.Some? then Some(HeldBy(id.value)) else None
    else None
  }

  predicate IsSource(j: Option<Json>) {
    Text(j).Some? && 1 <= Utf16Length(Text(j).value) <= 200
  }

  /** isGameplayEffect */
  function ParseEffect(j: Json): Option<Effect> {
    if !HasText(Field(j, "schemaVersion"), SCHEMA_VERSION) || !IsSource(Field(j, "sourceId")) then None
    else if HasText(Field(j, "type"), "resource.change") then
      var id, delta := Id(Field(j, "resourceId")), Field(j, "delta");
      if HasExactKeys(j, {"schemaVersion", "type", "sourceId", "resourceId", "delta"}) && id.Some? && delta.Some?
          && delta.value.JInt?
      then Some(ResourceChange(id.value, delta.value.number)) else None
    else if HasText(Field(j, "type"), "item.transfer") then
      var id, destination := Id(Field(j, "itemId")), ParsePosition(Field(j, "destination"));
      if HasExactKeys(j, {"schemaVersion", "type", "sourceId", "itemId", "destination"}) && id.Some?
          && destination.Some?
      then Some(ItemTransfer(id.value, destination.value)) else None
    else if HasText(Field(j, "type"), "entity.move") then
      var id, locationId := Id(Field(j, "entityId")), Id(Field(j, "locationId"));
      if HasExactKeys(j, {"schemaVersion", "type", "sourceId", "entityId", "locationId"}) && id.Some?
          && locationId.Some?
      then Some(EntityMove(id.value, locationId.value)) else None
    else None
  }

  function ParseFailure(j: Json): EffectFailure {
    var kind := Text(Field(j, "type"));
    if kind.Some? && kind.value !in ["entity.move", "item.transfer", "resource.change"] then UnsupportedEffect
        else InvalidEffect
  }

  /** One effect on a trial copy of the state. */
  function ApplyEffect(s: WorldState, e: Effect): EffectStep {
    match e
    case ResourceChange(resourceId, delta) =>
      var at := IndexOf(ResourceIds(s.resources), resourceId);
      if !IsSafeInteger(delta) then Failed(InvalidDelta)
      else if at.None? then Failed(ResourceNotFound)
      else
        var r := s.resources[at.value];
        if !InBounds(r) then Failed(EffectInvalidState)
        else if !IsSafeInteger(r.value + delta) || r.value + delta < r.min || r.value + delta > r.max
            then Failed(ResourceOutOfBounds)
        else Stepped(s.(resources := s.resources[at.value := r.(value := r.value + delta)]))
    case ItemTransfer(itemId, destination) =>
      var at := IndexOf(ItemIds(s.items), itemId);
      if at.None? then Failed(ItemNotFound)
      else if destination.HeldBy? && destination.holderId !in EntityIds(s.entities) then Failed(HolderNotFound)
      else if destination.AtLocation? && destination.locationId !in s.locations then Failed(LocationNotFound)
      else Stepped(s.(items := s.items[at.value := s.items[at.value].(position := destination)]))
    case EntityMove(entityId, locationId) =>
      var at := IndexOf(EntityIds(s.entities), entityId);
      if at.None? then Failed(EntityNotFound)
      else if locationId !in s.locations then Failed(LocationNotFound)
      else Stepped(s.(entities := s.entities[at.value := s.entities[at.value].(locationId := Some(locationId))]))
  }

  function PositionJson(p: Position): Json {
    match p
    case AtLocation(locationId) => JObject(map["kind" := JString("location"), "locationId" := JString(locationId)])
    case HeldBy(holderId) => JObject(map["kind" := JString("holder"), "holderId" := JString(holderId)])
  }

  /** An effect as authors write it, with the source they name. */
  function EffectJson(e: Effect, source: string): Json {
    match e
    case ResourceChange(resourceId, delta) =>
      Tagged("resource.change",
             map["sourceId" := JString(source), "resourceId" := JString(resourceId), "delta" := JInt(delta)])
    case ItemTransfer(itemId, destination) =>
      Tagged("item.transfer",
             map["sourceId" := JString(source), "itemId" := JString(itemId),
                 "destination" := PositionJson(destination)])
    case EntityMove(entityId, locationId) =>
      Tagged("entity.move",
             map["sourceId" := JString(source), "entityId" := JString(entityId), "locationId" := JString(locationId)])
  }

  predicate PositionFits(p: Position) {
    if p.AtLocation? then IsId(p.locationId) else IsId(p.holderId)
  }

  predicate EffectFits(e: Effect) {
    match e
    case ResourceChange(resourceId, _) => IsId(resourceId)
    case ItemTransfer(itemId, destination) => IsId(itemId) && PositionFits(destination)
    case EntityMove(entityId, locationId) => IsId(entityId) && IsId(locationId)
  }

  lemma PositionExactly(j: Json, p: Position)
    ensures ParsePosition(Some(j)) == Some(p) <==> PositionFits(p) && j == PositionJson(p)
  {
    hide IsId;
    if ParsePosition(Some(j)) == Some(p) { assert j.fields == PositionJson(p).fields; }
  }

  lemma WrittenEffectParses(e: Effect, source: string)
    requires EffectFits(e) && 1 <= Utf16Length(source) <= 200
    ensures ParseEffect(EffectJson(e, source)) == Some(e)
  {
    if e.ItemTransfer? { WrittenTransferParses(e, source); } else { WrittenOtherParses(e, source); }
  }

  lemma WrittenTransferParses(e: Effect, source: string)
    requires EffectFits(e) && e.ItemTransfer? && 1 <= Utf16Length(source) <= 200
    ensures ParseEffect(EffectJson(e, source)) == Some(e)
  {
    hide IsId, Utf16Length, ParsePosition, PositionJson, PositionFits;
    PositionExactly(PositionJson(e.destination), e.destination);
  }

  lemma WrittenOtherParses(e: Effect, source: string)
    requires EffectFits(e) && !e.ItemTransfer? && 1 <= Utf16Length(source) <= 200
    ensures ParseEffect(EffectJson(e, source)) == Some(e)
  {
    hide IsId, Utf16Length, ParsePosition, PositionJson, PositionFits;
  }

  lemma ParsedEffectIsWritten(j: Json)
    requires ParseEffect(j).Some?
    ensures var e := ParseEffect(j).value;
            EffectFits(e) && IsSource(Field(j, "sourceId")) && j == EffectJson(e, Text(Field(j, "sourceId")).value)
  {
    hide IsId, Utf16Length, ParsePosition, PositionJson, PositionFits;
    var e := ParseEffect(j).value;
    if e.ItemTransfer? { PositionExactly(j.fields["destination"], e.destination); }
    assert j.fields == EffectJson(e, Text(Field(j, "sourceId")).value).fields;
  }

  /** A JSON value is accepted as an effect exactly when it is the writing of one. */
  lemma ParseEffectExactly(j: Json, e: Effect)
    ensures ParseEffect(j) == Some(e) <==>
              EffectFits(e) && exists source: string :: 1 <= Utf16Length(source) <= 200 && j == EffectJson(e, source)
  {
    hide ParseEffect, EffectJson, EffectFits, Utf16Length;
    if ParseEffect(j) == Some(e) { ParsedEffectIsWritten(j); }
    if EffectFits(e) && exists source: string :: 1 <= Utf16Length(source) <= 200 && j == EffectJson(e, source) {
      var source: string :| 1 <= Utf16Length(source) <= 200 && j == EffectJson(e, source);
      WrittenEffectParses(e, source);
    }
  }

  /** When a resource can change, and why it cannot. */
  lemma ChangeExactly(s: WorldState, resourceId: string, delta: int)
    requires ValidState(s)
    ensures var step := ApplyEffect(s, ResourceChange(resourceId, delta));
            && (step.Stepped? <==>
                  exists r | r in s.resources ::
                    && r.id == resourceId && InBounds(r) && IsSafeInteger(delta)
                    && r.min <= r.value + delta <= r.max)
            && (step == Failed(InvalidDelta) <==> !IsSafeInteger(delta))
            && (step == Failed(ResourceNotFound) <==>
                  IsSafeInteger(delta) && forall r | r in s.resources :: r.id != resourceId)
            && (step == Failed(EffectInvalidState) <==>
                  IsSafeInteger(delta) && exists r | r in s.resources :: r.id == resourceId && !InBounds(r))
            && (step == Failed(ResourceOutOfBounds) <==>
                  && IsSafeInteger(delta)
                  && exists r | r in s.resources ::
                       r.id == resourceId && InBounds(r) && !(r.min <= r.value + delta <= r.max))
  {
    var at := IndexOf(ResourceIds(s.resources), resourceId);
    forall i | 0 <= i < |s.resources| && s.resources[i].id == resourceId ensures at == Some(i) {
      assert ResourceIds(s.resources)[i] == resourceId;
    }
    if at.Some? { assert s.resources[at.value] in s.resources; }
  }

  /** When an item can be moved, and why it cannot. */
  lemma TransferExactly(s: WorldState, itemId: string, destination: Position)
    ensures var step := ApplyEffect(s, ItemTransfer(itemId, destination));
            var there := exists i | i in s.items :: i.id == itemId;
            var known := if destination.AtLocation? then destination.locationId in s.locations
                         else exists e | e in s.entities :: e.id == destination.holderId;
            && (step.Stepped? <==> there && known)
            && (step == Failed(ItemNotFound) <==> !there)
            && (step == Failed(HolderNotFound) <==> there && destination.HeldBy? && !known)
            && (step == Failed(LocationNotFound) <==> there && destination.AtLocation? && !known)
  {
    ItemListed(s, itemId);
    if destination.HeldBy? { EntityListed(s, destination.holderId); }
  }

  /** When an entity can be moved, and why it cannot. */
  lemma MoveExactly(s: WorldState, entityId: string, locationId: string)
    ensures var step := ApplyEffect(s, EntityMove(entityId, locationId));
            var there := exists e | e in s.entities :: e.id == entityId;
            && (step.Stepped? <==> there && locationId in s.locations)
            && (step == Failed(EntityNotFound) <==> !there)
            && (step == Failed(LocationNotFound) <==> there && locationId !in s.locations)
  {
    EntityListed(s, entityId);
  }

  lemma ItemListed(s: WorldState, id: string)
    ensures id in ItemIds(s.items) <==> exists i | i in s.items :: i.id == id
  {
    forall i | 0 <= i < |s.items| ensures ItemIds(s.items)[i] == s.items[i].id {}
    if id in ItemIds(s.items) {
      var i :| 0 <= i < |s.items| && ItemIds(s.items)[i] == id;
      assert s.items[i] in s.items;
    }
  }

  function ApplyRaw(s: WorldState, raw: Json): EffectStep {
    var e := ParseEffect(raw);
    if e.None? then Failed(ParseFailure(raw)) else ApplyEffect(s, e.value)
  }

  function RefusedAt(raw: Json, index: nat, code: EffectFailure): (b: Batch)
    ensures b.Refused? && b.index == index && b.code == code
  {
    Refused(code, index, Text(Field(raw, "type")), Text(Field(raw, "sourceId")))
  }

  /** What is no effect is unsupported when it names another type, and else invalid. */
  lemma MalformedExactly(s: WorldState, raw: Json)
    requires ValidState(s)
    ensures var (step, kind) := (ApplyRaw(s, raw), Field(raw, "type"));
            var other := Text(kind).Some? && Text(kind).value !in {"resource.change", "item.transfer", "entity.move"};
            && (step == Failed(UnsupportedEffect) <==> other)
            && (step == Failed(InvalidEffect) <==> !other && ParseEffect(raw).None?)
  {
    hide IsId, Utf16Length, ParsePosition, ValidState;
  }

  /** The effects one after another, up to the first refusal. */
  function ApplyAll(s: WorldState, effects: seq<Json>): Batch
    decreases |effects|
  {
    if effects == [] then Applied(s, [])
    else
      var n := |effects| - 1;
      var before := ApplyAll(s, effects[..n]);
      if before.Refused? then before
      else
        var last := ApplyRaw(before.state, effects[n]);
        if last.Failed? then RefusedAt(effects[n], n, last.failure)
        else Applied(last.state, before.effects + [effects[n]])
  }

  /** tryApplyEffectBatch */
  function TryApply(s: WorldState, effects: seq<Json>): Batch {
    if !ValidState(s) then Refused(EffectInvalidState, -1, None, None) else ApplyAll(s, effects)
  }

  lemma {:induction false} RefusalSticks(s: WorldState, effects: seq<Json>, i: nat)
    requires i <= |effects| && ApplyAll(s, effects[..i]).Refused?
    ensures ApplyAll(s, effects) == ApplyAll(s, effects[..i])
    decreases |effects|
  {
    hide ApplyRaw;
    if i == |effects| {
      assert effects[..i] == effects;
    } else {
      var n := |effects| - 1;
      assert effects[..n][..i] == effects[..i];
      RefusalSticks(s, effects[..n], i);
    }
  }

  /** A batch applies all of its effects, or none. */
  lemma {:induction false} AppliesAll(s: WorldState, effects: seq<Json>)
    requires ApplyAll(s, effects).Applied?
    ensures ApplyAll(s, effects).effects == effects
    decreases |effects|
  {
    hide ApplyRaw;
    if effects != [] {
      var n := |effects| - 1;
      AppliesAll(s, effects[..n]);
      assert effects == effects[..n] + [effects[n]];
    }
  }

  /** The effect that a refusal names is the first one that cannot be applied, after all
      those before it were. */
  lemma {:induction false} RefusalIsFirst(s: WorldState, effects: seq<Json>)
    requires ApplyAll(s, effects).Refused?
    ensures var b := ApplyAll(s, effects);
            && 0 <= b.index < |effects| && ApplyAll(s, effects[..b.index]).Applied?
            && ApplyRaw(ApplyAll(s, effects[..b.index]).state, effects[b.index]) == Failed(b.code)
            && b.kind == Text(Field(effects[b.index], "type")) && b.source == Text(Field(effects[b.index], "sourceId"))
    decreases |effects|
  {
    hide ApplyRaw;
    var n := |effects| - 1;
    if ApplyAll(s, effects[..n]).Refused? {
      RefusalIsFirst(s, effects[..n]);
      var i := ApplyAll(s, effects).index;
      assert effects[..n][..i] == effects[..i] && effects[..n][i] == effects[i];
    }
  }

  /** A batch is refused as a whole for its state exactly when the state is not valid. */
  lemma {:induction false} InvalidStateExactly(s: WorldState, effects: seq<Json>)
    ensures TryApply(s, effects) == Refused(EffectInvalidState, -1, None, None) <==>
              !(s.schemaVersion == "1.0" && ValidReferences(s))
  {
    hide ValidReferences, ApplyRaw;
    if ValidState(s) && ApplyAll(s, effects).Refused? { RefusalIsFirst(s, effects); }
  }

  /** The batch as the loop that applies it: a refusal leaves no state behind. */
  method ApplyBatch(s: WorldState, effects: seq<Json>) returns (r: Batch)
    ensures r == TryApply(s, effects)
  {
    hide ApplyRaw, ValidState, RefusedAt;
    if !ValidState(s) { return Refused(EffectInvalidState, -1, None, None); }
    var trial, applied: seq<Json> := s, [];
    for i := 0 to |effects|
      invariant ApplyAll(s, effects[..i]) == Applied(trial, applied)
    {
      assert effects[..i + 1][..i] == effects[..i];
      var step := ApplyRaw(trial, effects[i]);
      if step.Failed? {
        RefusalSticks(s, effects, i + 1);
        return RefusedAt(effects[i], i, step.failure);
      }
      trial, applied := step.state, applied + [effects[i]];
    }
    assert effects[..|effects|] == effects;
    r := Applied(trial, applied);
  }

  // ----- what effects keep

  /** The second state has the locations, entities, resources and items of the first, and
      every resource that was within its bounds is still within the same bounds. */
  predicate SameCast(s: WorldState, t: WorldState) {
    && t.schemaVersion == s.schemaVersion && t.locations == s.locations
    && EntityIds(t.entities) == EntityIds(s.entities)
    && ResourceIds(t.resources) == ResourceIds(s.resources)
    && ItemIds(t.items) == ItemIds(s.items)
    && (forall i | 0 <= i < |s.resources| :: SameLimits(s.resources[i], t.resources[i]))
  }

  predicate SameLimits(r: Resource, q: Resource) {
    q.unit == r.unit && q.min == r.min && q.max == r.max && (InBounds(r) ==> InBounds(q))
  }

  lemma SameCastTransitive(a: WorldState, b: WorldState, c: WorldState)
    requires SameCast(a, b) && SameCast(b, c)
    ensures SameCast(a, c)
  {
    assert |a.resources| == |ResourceIds(a.resources)| == |b.resources|;
    forall i | 0 <= i < |a.resources| ensures SameLimits(a.resources[i], c.resources[i]) {
      assert SameLimits(a.resources[i], b.resources[i]) && SameLimits(b.resources[i], c.resources[i]);
    }
  }

  /** One effect keeps the state valid and its cast, and touches neither the clock, the
      revision nor the terminal. */
  lemma EffectKeeps(s: WorldState, raw: Json)
    requires ValidState(s) && ApplyRaw(s, raw).Stepped?
    ensures var t := ApplyRaw(s, raw).state;
            && ValidState(t) && SameCast(s, t)
            && t.revision == s.revision && t.elapsedSeconds == s.elapsedSeconds && t.terminal == s.terminal
  {
    hide ValidState, SameCast, ApplyEffect, ParseEffect;
    var e := ParseEffect(raw).value;
    match e
    case ResourceChange(_, _) => ChangeKeeps(s, e);
    case ItemTransfer(_, _) => TransferKeeps(s, e);
    case EntityMove(_, _) => MoveKeeps(s, e);
  }

  lemma ChangeKeeps(s: WorldState, e: Effect)
    requires ValidState(s) && e.ResourceChange? && ApplyEffect(s, e).Stepped?
    ensures var t := ApplyEffect(s, e).state;
            && ValidState(t) && SameCast(s, t)
            && t.revision == s.revision && t.elapsedSeconds == s.elapsedSeconds && t.terminal == s.terminal
  {
    assert ResourceIds(ApplyEffect(s, e).state.resources) == ResourceIds(s.resources);
  }

  lemma TransferKeeps(s: WorldState, e: Effect)
    requires ValidState(s) && e.ItemTransfer? && ApplyEffect(s, e).Stepped?
    ensures var t := ApplyEffect(s, e).state;
            && ValidState(t) && SameCast(s, t)
            && t.revision == s.revision && t.elapsedSeconds == s.elapsedSeconds && t.terminal == s.terminal
  {
    assert ItemIds(ApplyEffect(s, e).state.items) == ItemIds(s.items);
  }

  lemma MoveKeeps(s: WorldState, e: Effect)
    requires ValidState(s) && e.EntityMove? && ApplyEffect(s, e).Stepped?
    ensures var t := ApplyEffect(s, e).state;
            && ValidState(t) && SameCast(s, t)
            && t.revision == s.revision && t.elapsedSeconds == s.elapsedSeconds && t.terminal == s.terminal
  {
    assert EntityIds(ApplyEffect(s, e).state.entities) == EntityIds(s.entities);
  }

  lemma {:induction false} EffectsKeep(s: WorldState, effects: seq<Json>)
    requires ValidState(s) && ApplyAll(s, effects).Applied?
    ensures var t := ApplyAll(s, effects).state;
            && ValidState(t) && SameCast(s, t)
            && t.revision == s.revision && t.elapsedSeconds == s.elapsedSeconds && t.terminal == s.terminal
    decreases |effects|
  {
    hide ApplyRaw, ValidState, SameCast;
    if effects == [] {
      SameCastReflexive(s);
    } else {
      var n := |effects| - 1;
      var before := ApplyAll(s, effects[..n]);
      EffectsKeep(s, effects[..n]);
      EffectKeeps(before.state, effects[n]);
      SameCastTransitive(s, before.state, ApplyAll(s, effects).state);
    }
  }

  lemma SameCastReflexive(s: WorldState)
    ensures SameCast(s, s)
  {
  }

  /** Whether a condition can be evaluated depends on the cast alone: one that is not
      broken in a state is not broken in any state with the same cast. */
  lemma {:induction false} StaysKnown(s: WorldState, t: WorldState, c: Condition)
    requires SameCast(s, t) && Evaluate(s, c).Known?
    ensures Evaluate(t, c).Known?
    decreases c
  {
    match c
    case ResourceAtLeast(resourceId, amount) =>
      var at := IndexOf(ResourceIds(s.resources), resourceId).value;
      assert SameLimits(s.resources[at], t.resources[at]);
    case EntityAt(entityId, locationId) =>
    case ItemHeldBy(itemId, holderId) =>
    case All(conditions) => AllStayKnown(s, t, conditions);
    case Any(conditions) => AllStayKnown(s, t, conditions);
    case Not(condition) => StaysKnown(s, t, condition);
  }

  lemma {:induction false} AllStayKnown(s: WorldState, t: WorldState, cs: seq<Condition>)
    requires SameCast(s, t) && EvaluateEach(s, cs).AllKnown?
    ensures EvaluateEach(t, cs).AllKnown?
    decreases cs
  {
    hide SameCast;
    if cs != [] {
      StaysKnown(s, t, cs[0]);
      AllStayKnown(s, t, cs[1..]);
    }
  }

  /** A raw condition that could be evaluated once can be evaluated in every valid state
      with the same cast. */
  lemma ConditionStaysKnown(s: WorldState, t: WorldState, raw: Json)
    requires EvaluateCondition(s, raw).Known? && ValidState(t) && SameCast(s, t)
    ensures EvaluateCondition(t, raw).Known?
  {
    hide ParseCondition, Evaluate, ValidReferences, SameCast;
    StaysKnown(s, t, ParseCondition(raw, 0).value);
  }

  // ----- what a batch adds up to

  /** The sum of the changes that a batch makes to one resource. */
  function Delta(effects: seq<Json>, id: string): int
    decreases |effects|
  {
    if effects == [] then 0
    else
      var n := |effects| - 1;
      var e := ParseEffect(effects[n]);
      Delta(effects[..n], id) + if e.Some? && e.value.ResourceChange? && e.value.resourceId == id then e.value.delta
          else 0
  }

  /** Where an item is after a batch: at its last destination, or where it was. */
  function FinalPosition(effects: seq<Json>, id: string, start: Position): Position
    decreases |effects|
  {
    if effects == [] then start
    else
      var n := |effects| - 1;
      var e := ParseEffect(effects[n]);
      if e.Some? && e.value.ItemTransfer? && e.value.itemId == id then e.value.destination
      else FinalPosition(effects[..n], id, start)
  }

  function FinalLocation(effects: seq<Json>, id: string, start: Option<string>): Option<string>
    decreases |effects|
  {
    if effects == [] then start
    else
      var n := |effects| - 1;
      var e := ParseEffect(effects[n]);
      if e.Some? && e.value.EntityMove? && e.value.entityId == id then Some(e.value.locationId)
      else FinalLocation(effects[..n], id, start)
  }

  predicate AddsUp(s: WorldState, effects: seq<Json>, t: WorldState) {
    && |t.resources| == |s.resources| && |t.items| == |s.items| && |t.entities| == |s.entities|
    && t == s.(resources := t.resources, items := t.items, entities := t.entities)
    && (forall i | 0 <= i < |s.resources| ::
          t.resources[i] == s.resources[i].(value := s.resources[i].value + Delta(effects, s.resources[i].id)))
    && (forall i | 0 <= i < |s.items| ::
          t.items[i] == s.items[i].(position := FinalPosition(effects, s.items[i].id, s.items[i].position)))
    && (forall i | 0 <= i < |s.entities| ::
          t.entities[i] == s.entities[i].(locationId := FinalLocation(effects, s.entities[i].id,
              s.entities[i].locationId)))
  }

  lemma OneMoreEffect(s: WorldState, effects: seq<Json>, t: WorldState, raw: Json)
    requires ValidState(t) && AddsUp(s, effects, t) && ApplyRaw(t, raw).Stepped?
    ensures AddsUp(s, effects + [raw], ApplyRaw(t, raw).state)
  {
    hide ParseEffect, InBounds;
    assert (effects + [raw])[..|effects|] == effects;
    var e, u := ParseEffect(raw).value, ApplyRaw(t, raw).state;
    assert Distinct(ResourceIds(t.resources)) && Distinct(ItemIds(t.items)) && Distinct(EntityIds(t.entities));
    forall i | 0 <= i < |s.resources|
      ensures u.resources[i]
          == s.resources[i].(value := s.resources[i].value + Delta(effects + [raw], s.resources[i].id))
    {
      assert ResourceIds(t.resources)[i] == s.resources[i].id;
    }
    forall i | 0 <= i < |s.items|
      ensures u.items[i] == s.items[i].(position := FinalPosition(effects + [raw], s.items[i].id, s.items[i].position))
    {
      assert ItemIds(t.items)[i] == s.items[i].id;
    }
    forall i | 0 <= i < |s.entities|
      ensures u.entities[i]
          == s.entities[i].(locationId := FinalLocation(effects + [raw], s.entities[i].id, s.entities[i].locationId))
    {
      assert EntityIds(t.entities)[i] == s.entities[i].id;
    }
  }

  /** An applied batch changes every resource by the sum of its deltas, puts every item and
      entity where its last move says, and changes nothing else. */
  lemma {:induction false} BatchAddsUp(s: WorldState, effects: seq<Json>)
    requires TryApply(s, effects).Applied?
    ensures AddsUp(s, effects, TryApply(s, effects).state)
    decreases |effects|
  {
    hide ApplyRaw, ValidReferences;
    if effects != [] {
      var n := |effects| - 1;
      BatchAddsUp(s, effects[..n]);
      EffectsKeep(s, effects[..n]);
      hide AddsUp;
      OneMoreEffect(s, effects[..n], ApplyAll(s, effects[..n]).state, effects[n]);
      assert effects[..n] + [effects[n]] == effects;
    }
  }
}
