/** The brokered reference read of the author tool loop: reserve an operation, call the
    external tool, complete the operation, and answer from what was persisted. Any
    number of callers may use the same operation id; a crashed caller takes no further
    step, and its operation stays pending. So does one whose completion is rejected. */
module ToolLoop {
  import opened Wrappers

  /** What a call of the tool comes to, and what is persisted about it. */
  datatype Outcome = Completed(output: string) | Unavailable(code: string) | InvalidResponse

  /** A reserved operation of a job; pending until it has a result. */
  datatype Operation = Operation(requestHash: string, result: Option<Outcome>)

  datatype Answer = Answered(outcome: Outcome, replay: bool) | Pending | PausedBudget | Denied

  datatype Pc =
    | Start
    | Reserved
    | Called(outcome: Outcome)
    | Returned(answer: Answer)

  /** The longest time that an operation may have taken, in milliseconds. */
  const MAX_ACTIVE_TIME_MS := 600_000

  /** `at` is the time of the server's clock when the call was made. */
  datatype Caller = Caller(operation: string, requestHash: string, at: int, pc: Pc)

  /** `calls` counts the calls of the external tool made for an operation. */
  datatype State = State(operations: map<string, Operation>, callers: map<nat, Caller>, calls: map<string, nat>)

  /** What is decided outside: why the job store refuses a new operation, if it does;
      whether the transport is there; what the tool answers; what the clock shows at the
      completion, if it can be read; and whether the rest of the completion is well formed. */
  datatype Choice = Choice(refusal: Option<Answer>, offline: bool, outcome: Outcome, now: Option<int>, wellFormed: bool)

  /** reserveOperation: an operation that exists is replayed, still pending, or reused by
      mistake; only one that does not exist can be reserved. */
  function Reserve(s: State, c: Caller, choice: Choice): (map<string, Operation>, Pc) {
    if c.operation in s.operations then
      var op := s.operations[c.operation];
      (s.operations,
       Returned(if op.requestHash != c.requestHash then Denied
                else if op.result.Some? then Answered(op.result.value, true) else Pending))
    else if choice.refusal.Some? then
      (s.operations, Returned(if choice.refusal == Some(PausedBudget) then PausedBudget else Denied))
    else (s.operations[c.operation := Operation(c.requestHash, None)], Reserved)
  }

  /** The time between the call and its completion, never negative. */
  function ActiveTime(c: Caller, choice: Choice): nat {
    var now := if choice.now.Some? then choice.now.value else c.at;
    if now > c.at then now - c.at else 0
  }

  /** validateCompleteInput */
  predicate Rejected(c: Caller, choice: Choice) {
    !choice.wellFormed || ActiveTime(c, choice) > MAX_ACTIVE_TIME_MS
  }

  /** completeOperation and the answer made from it. */
  function Complete(s: State, c: Caller, outcome: Outcome, choice: Choice): (map<string, Operation>, Pc) {
    if Rejected(c, choice) then (s.operations, Returned(Denied))
    else if c.operation !in s.operations || s.operations[c.operation].requestHash != c.requestHash
        then (s.operations, Returned(Denied))
    else if s.operations[c.operation].result.Some? then
      (s.operations, Returned(Answered(s.operations[c.operation].result.value, true)))
    else (s.operations[c.operation := Operation(c.requestHash, Some(outcome))], Returned(Answered(outcome, false)))
  }

  function CallsOf(s: State, operation: string): nat {
    if operation in s.calls then s.calls[operation] else 0
  }

  /** One step of invokeBrokeredAuthorReferenceRead. */
  function Step(s: State, i: nat, choice: Choice): State {
    if i !in s.callers then s
    else
      var c := s.callers[i];
      match c.pc
      case Start =>
        var (operations, pc) := Reserve(s, c, choice);
        s.(operations := operations, callers := s.callers[i := c.(pc := pc)])
      case Reserved =>
        if choice.offline then s.(callers := s.callers[i := c.(pc := Called(Unavailable("mcp_offline")))])
        else
          s.(calls := s.calls[c.operation := CallsOf(s, c.operation) + 1],
             callers := s.callers[i := c.(pc := Called(choice.outcome))])
      case Called(outcome) =>
        var (operations, pc) := Complete(s, c, outcome, choice);
        s.(operations := operations, callers := s.callers[i := c.(pc := pc)])
      case Returned(_) => s
  }

  predicate Holds(c: Caller) {
    c.pc.Reserved? || c.pc.Called?
  }

  /** A caller that holds an operation reserved it, and the tool was called for it no
      more than its progress says; an answer is the persisted result. */
  ghost predicate CallerOk(s: State, c: Caller) {
    && (Holds(c) ==> c.operation in s.operations && s.operations[c.operation] == Operation(c.requestHash, None))
    && (c.pc.Reserved? ==> CallsOf(s, c.operation) == 0)
    && (c.pc.Returned? && c.pc.answer.Answered? ==>
          c.operation in s.operations
              && s.operations[c.operation] == Operation(c.requestHash, Some(c.pc.answer.outcome)))
  }

  ghost predicate Inv(s: State) {
    && (forall op | op in s.calls :: s.calls[op] <= 1 && op in s.operations)
    && (forall i | i in s.callers :: CallerOk(s, s.callers[i]))
    && (forall i, j | i in s.callers && j in s.callers && i != j && Holds(s.callers[i]) && Holds(s.callers[j]) ::
          s.callers[i].operation != s.callers[j].operation)
  }

  /** Operations are never removed, keep their request, and keep a result once they have one. */
  ghost predicate Keeps(s: State, s': State) {
    forall op | op in s.operations ::
      && op in s'.operations && s'.operations[op].requestHash == s.operations[op].requestHash
      && (s.operations[op].result.Some? ==> s'.operations[op] == s.operations[op])
  }

  lemma StepKeeps(s: State, i: nat, choice: Choice)
    ensures Keeps(s, Step(s, i, choice))
  {
  }

  lemma SelfOk(s: State, i: nat, choice: Choice)
    requires Inv(s) && i in s.callers
    ensures var s' := Step(s, i, choice);
            && CallerOk(s', s'.callers[i])
            && (forall op | op in s'.calls :: s'.calls[op] <= 1 && op in s'.operations)
            && (Holds(s'.callers[i]) ==> Holds(s.callers[i]) || s.callers[i].operation !in s.operations)
  {
    assert CallerOk(s, s.callers[i]);
  }

  /** A step changes one operation at most, one that no other caller holds. */
  lemma OtherOk(s: State, i: nat, choice: Choice, j: nat)
    requires Inv(s) && i in s.callers && j in s.callers && i != j
    ensures CallerOk(Step(s, i, choice), s.callers[j])
    ensures Holds(s.callers[j]) ==> s.callers[j].operation in s.operations
  {
    assert CallerOk(s, s.callers[i]) && CallerOk(s, s.callers[j]);
    StepKeeps(s, i, choice);
  }

  lemma StepInv(s: State, i: nat, choice: Choice)
    requires Inv(s)
    ensures Inv(Step(s, i, choice)) && Keeps(s, Step(s, i, choice))
  {
    StepKeeps(s, i, choice);
    if i in s.callers {
      StepCallers(s, i, choice);
      hide Step, CallerOk, Keeps;
      SelfOk(s, i, choice);
      forall j | j in s.callers && j != i
        ensures CallerOk(Step(s, i, choice), s.callers[j])
            && (Holds(s.callers[j]) ==> s.callers[j].operation in s.operations)
      {
        OtherOk(s, i, choice, j);
      }
    }
  }

  lemma StepCallers(s: State, i: nat, choice: Choice)
    requires i in s.callers
    ensures var s' := Step(s, i, choice);
            && s'.callers == s.callers[i := s'.callers[i]] && s'.callers[i].operation == s.callers[i].operation
  {
  }

  datatype Event = Event(caller: nat, choice: Choice)

  function Exec(s: State, events: seq<Event>): State
    decreases |events|
  {
    if events == [] then s else Exec(Step(s, events[0].caller, events[0].choice), events[1..])
  }

  ghost predicate Init(s: State) {
    s.operations == map[] && s.calls == map[] && forall i | i in s.callers :: s.callers[i].pc.Start?
  }

  lemma {:induction false} ExecInv(s: State, events: seq<Event>)
    requires Inv(s)
    ensures Inv(Exec(s, events))
    decreases |events|
  {
    if events != [] {
      StepInv(s, events[0].caller, events[0].choice);
      ExecInv(Step(s, events[0].caller, events[0].choice), events[1..]);
    }
  }

  /** In every run, whatever retries, races and crashes it holds, the external tool is
      called at most once for an operation id. */
  lemma AtMostOneCall(s: State, events: seq<Event>, operation: string)
    requires Init(s)
    ensures CallsOf(Exec(s, events), operation) <= 1
  {
    ExecInv(s, events);
  }

  /** All callers of one operation that get an answer asked the same question and get
      the same outcome; only the first to complete it is told that it is not a replay. */
  lemma AnswersAgree(s: State, events: seq<Event>, i: nat, j: nat)
    requires Init(s)
    requires var s' := Exec(s, events);
             && i in s'.callers && s'.callers[i].pc.Returned? && s'.callers[i].pc.answer.Answered?
             && j in s'.callers && s'.callers[j].pc.Returned? && s'.callers[j].pc.answer.Answered?
             && s'.callers[i].operation == s'.callers[j].operation
    ensures var s' := Exec(s, events);
            && s'.callers[i].requestHash == s'.callers[j].requestHash
            && s'.callers[i].pc.answer.outcome == s'.callers[j].pc.answer.outcome
  {
    var s' := Exec(s, events);
    ExecInv(s, events);
    assert CallerOk(s', s'.callers[i]) && CallerOk(s', s'.callers[j]);
  }

  /** The caller that holds an operation is never told that somebody else completed it: its
      completion is persisted and answered, or it is rejected as malformed or as having
      taken more than ten minutes, and then denied. */
  lemma HolderCompletes(s: State, i: nat, choice: Choice)
    requires Inv(s) && i in s.callers && s.callers[i].pc.Called?
    ensures var c, s' := s.callers[i], Step(s, i, choice);
            if Rejected(c, choice) then s'.callers[i].pc == Returned(Denied) && s'.operations == s.operations
            else && s'.callers[i].pc == Returned(Answered(c.pc.outcome, false))
                 && s'.operations == s.operations[c.operation := Operation(c.requestHash, Some(c.pc.outcome))]
  {
    assert CallerOk(s, s.callers[i]);
  }

  // ----- operations that nobody completes

  /** Reserved, without a result, and held by nobody. */
  predicate Orphan(s: State, operation: string) {
    && operation in s.operations && s.operations[operation].result.None?
    && forall i | i in s.callers :: Holds(s.callers[i]) ==> s.callers[i].operation != operation
  }

  lemma OrphanStep(s: State, i: nat, choice: Choice, operation: string)
    requires Orphan(s, operation)
    ensures Orphan(Step(s, i, choice), operation)
  {
  }

  /** An operation that lost its holder stays without a result for good. */
  lemma {:induction false} OrphanForever(s: State, events: seq<Event>, operation: string)
    requires Orphan(s, operation)
    ensures Orphan(Exec(s, events), operation)
    decreases |events|
  {
    if events != [] {
      hide Step, Orphan;
      OrphanStep(s, events[0].caller, events[0].choice, operation);
      OrphanForever(Step(s, events[0].caller, events[0].choice), events[1..], operation);
    }
  }

  /** A rejected completion leaves its operation without a holder: from then on no caller
      gets an answer for it, and one that asks the same question is told that it is
      pending, for ever. */
  lemma RejectedIsPendingForever(s: State, i: nat, choice: Choice, events: seq<Event>, j: nat, next: Choice)
    requires Inv(s) && i in s.callers && s.callers[i].pc.Called? && Rejected(s.callers[i], choice)
    ensures var c, s' := s.callers[i], Exec(Step(s, i, choice), events);
            && Orphan(s', c.operation)
            && (j in s'.callers && s'.callers[j].operation == c.operation ==>
                  !(s'.callers[j].pc.Returned? && s'.callers[j].pc.answer.Answered?))
            && (j in s'.callers && s'.callers[j].operation == c.operation && s'.callers[j].pc.Start? ==>
                  Step(s', j, next).callers[j].pc
                  == Returned(if s'.callers[j].requestHash == c.requestHash then Pending else Denied))
  {
    var c, t := s.callers[i], Step(s, i, choice);
    assert CallerOk(s, c);
    StepInv(s, i, choice);
    assert Orphan(t, c.operation) by { BecomesOrphan(s, i, choice); }
    OrphanForever(t, events, c.operation);
    ExecInv(t, events);
    ExecKeeps(t, events);
    var s' := Exec(t, events);
    if j in s'.callers { assert CallerOk(s', s'.callers[j]); }
  }

  lemma BecomesOrphan(s: State, i: nat, choice: Choice)
    requires Inv(s) && i in s.callers && s.callers[i].pc.Called? && Rejected(s.callers[i], choice)
    ensures Orphan(Step(s, i, choice), s.callers[i].operation)
  {
    assert CallerOk(s, s.callers[i]);
  }

  lemma {:induction false} ExecKeeps(s: State, events: seq<Event>)
    requires Inv(s)
    ensures Keeps(s, Exec(s, events))
    decreases |events|
  {
    if events != [] {
      hide Step, Inv;
      var t := Step(s, events[0].caller, events[0].choice);
      StepInv(s, events[0].caller, events[0].choice);
      ExecKeeps(t, events[1..]);
    }
  }

  /** The same becomes of an operation whose holder has crashed: as long as it takes no
      step, nobody else completes the operation. */
  lemma {:induction false} CrashedIsPending(s: State, i: nat, events: seq<Event>)
    requires Inv(s) && i in s.callers && Holds(s.callers[i])
    requires forall k | 0 <= k < |events| :: events[k].caller != i
    ensures var s' := Exec(s, events);
            && Inv(s') && i in s'.callers && s'.callers[i] == s.callers[i]
            && s.callers[i].operation in s'.operations && s'.operations[s.callers[i].operation].result.None?
    decreases |events|
  {
    assert CallerOk(s, s.callers[i]);
    if events != [] {
      var e := events[0];
      StepInv(s, e.caller, e.choice);
      if e.caller in s.callers { StepCallers(s, e.caller, e.choice); }
      CrashedIsPending(Step(s, e.caller, e.choice), i, events[1..]);
    }
  }

  // ----- what a caller is told

  /** What the first store call of a caller answers: a new operation is reserved unless the
      store refuses it; a known one is answered from its result if it has one, pending if
      not, and denied to another request. Only a reservation changes the store. */
  lemma ReserveExactly(s: State, i: nat, choice: Choice)
    requires i in s.callers && s.callers[i].pc.Start?
    ensures var (c, s') := (s.callers[i], Step(s, i, choice));
            var (known, pc) := (c.operation in s.operations, s'.callers[i].pc);
            var mine := known && s.operations[c.operation].requestHash == c.requestHash;
            && (pc == Reserved <==> !known && choice.refusal.None?)
            && (pc == Returned(Pending) <==> mine && s.operations[c.operation].result.None?)
            && (forall o, replay ::
                  pc == Returned(Answered(o, replay)) <==>
                    mine && replay && s.operations[c.operation].result == Some(o))
            && (pc == Returned(PausedBudget) <==> !known && choice.refusal == Some(PausedBudget))
            && (pc == Returned(Denied) <==>
                  (known && !mine) || (!known && choice.refusal.Some? && choice.refusal.value != PausedBudget))
            && s'.calls == s.calls
            && (if pc == Reserved then
                  && s'.operations.Keys == s.operations.Keys + {c.operation}
                  && s'.operations[c.operation] == Operation(c.requestHash, None)
                  && (forall x | x in s.operations :: s'.operations[x] == s.operations[x])
                else s'.operations == s.operations)
  {
  }

  /** What the tool answered. */
  function ToolAnswer(choice: Choice): Outcome {
    if choice.offline then Unavailable("mcp_offline") else choice.outcome
  }

  lemma ToolCalled(s: State, i: nat, choice: Choice)
    requires Inv(s) && i in s.callers && s.callers[i].pc.Reserved?
    ensures var (c, s') := (s.callers[i], Step(s, i, choice));
            && s'.callers[i] == c.(pc := Called(ToolAnswer(choice))) && s'.operations == s.operations
            && CallsOf(s', c.operation) == (if choice.offline then 0 else 1)
            && (forall x | x != c.operation :: CallsOf(s', x) == CallsOf(s, x))
  {
    assert CallerOk(s, s.callers[i]);
  }

  /** The tool's answer is the one that is persisted and the one that the caller gets, with
      any steps of other callers between the call and its completion, unless the completion
      is malformed or comes more than ten minutes later; then it is denied. */
  lemma ToolAnswerIsPersisted(s: State, i: nat, first: Choice, events: seq<Event>, last: Choice)
    requires Inv(s) && i in s.callers && s.callers[i].pc.Reserved?
    requires forall k | 0 <= k < |events| :: events[k].caller != i
    ensures var (c, t) := (s.callers[i], Exec(Step(s, i, first), events));
            var (s', answer) := (Step(t, i, last), if first.offline then Unavailable("mcp_offline") else first.outcome);
            && i in s'.callers && c.operation in t.operations && c.operation in s'.operations
            && if last.wellFormed && (last.now.Some? ==> last.now.value - c.at <= 600_000) then
                 && s'.callers[i].pc == Returned(Answered(answer, false))
                 && s'.operations[c.operation] == Operation(c.requestHash, Some(answer))
               else s'.callers[i].pc == Returned(Denied) && s'.operations[c.operation].result.None?
  {
    var c, s1 := s.callers[i], Step(s, i, first);
    StepInv(s, i, first);
    ToolCalled(s, i, first);
    CrashedIsPending(s1, i, events);
    var t := Exec(s1, events);
    assert CallerOk(t, t.callers[i]);
    hide Inv, Exec, CallerOk;
    HolderCompletes(t, i, last);
  }

  /** A completed operation answers every later caller with the same request from its result. */
  lemma RetryReplays(s: State, events: seq<Event>, operation: string, i: nat, choice: Choice)
    requires Inv(s) && operation in s.operations && s.operations[operation].result.Some?
    ensures var t := Exec(s, events);
            i in t.callers && t.callers[i].pc.Start? && t.callers[i].operation == operation ==>
              Step(t, i, choice).callers[i].pc ==
              Returned(if t.callers[i].requestHash == s.operations[operation].requestHash
                       then Answered(s.operations[operation].result.value, true) else Denied)
  {
    ExecKeeps(s, events);
    hide Inv;
  }
}
