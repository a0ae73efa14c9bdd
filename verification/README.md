# Living History: verified protocols

A Dafny model of the concurrent protocols, bounded state machines and codecs of the story
engine's servers, with proofs of what they promise. `dafny verify dfyconfig.toml` checks the
whole project.

An asynchronous method runs without interruption between two of its awaits. It is modelled
as a state machine cut at each await, and the theorems range over every interleaving of any
number of calls; a crash is a call that takes no further step. A method that only updates
the fields of its object is a class method proved against a function of the old state, and
the theorems about runs are proved of that function. A loop that fills variables is a loop
here, with its invariants.

- `AssetStore`: the content-addressed store, one file-system call per step, with hard links
  and partial writes.
- `SessionBinding`: a published session and its binding, in two stores without a common
  transaction, and the two resolvers that read them back.
- `ModelBackend`, `LocalAuthorProvider`: author sessions and request counters under
  reconfiguration.
- `CodexLease`, `CodexQuota`: the account lease, the sessions it gates and the rate-limit
  cache beside it.
- `World`, `Scenario`, `ScenarioNormalize`: the world state with its conditions and effects,
  the authored scenario engine over it, and the normaliser.
- `Intent`, `AuthoredIntent`: what is let through from a language model, and why it can be
  executed.
- `RuntimeStorage`: the operations of a game session, with idempotency keys, leases and
  fencing tokens.
- `LoginLimiter`, `LoginOverlap`, `LoginInterval`: attempt limits, for attempts that overlap
  and that do not.
- `AuditLog`, `ActiveSegments`, `ToolLoop`: facts logged at most once, one running segment
  per job, tool calls made at most once.
- `Base64`, `PercentEncoding`, `QuotaCache`, `Paths`, `WorkspacePolicy`: codecs, and string
  keys and paths that stand for structured ones.

Where the code does not meet the plain form of a property, the condition under which it
does is proved, with an input that shows it is needed: login attempts in flight together or
answered out of order, a rate-limit read that a logout overtakes, a Codex turn that a lease
change overtakes and sessions it leaves behind, an unissued session handle, an audit writer
that does not look first, a tool answer that comes too late, an operation whose holder
crashed, a session store that fails after storing, texts with non-zero trailing bits.

Assumptions. The digest of the asset store is any function to lower-case hexadecimal
strings, and JSON printing of a valid record is undone by parsing; no freedom from collisions
is assumed, so bytes are spoken of through their digest. Creating a guest session is atomic,
and one that throws stored nothing. The job store appends by compare-and-set on the job
version, and the job is read before the log.

## Model

| member | source | states |
|---|---|---|
| AssetStore.StepInv | packages/assets/src/storage.ts:33-64 | every file-system step of any put or read keeps the disk invariant (each object has the digest it is named after; each registry record is complete, valid and has its object) and only extends what is published |
| AssetStore.PublishedForever | packages/assets/src/storage.ts:142-171 | over every interleaving, with crashes between any two calls and in the middle of a write, a published path never changes content and is never partially written |
| AssetStore.CompletedPutIsReadable | packages/assets/src/storage.ts:66-107 | once a put has returned, every read that starts later returns exactly its record and bytes of its digest and length, or an input/output error |
| AssetStore.RacingPutsAgree | packages/assets/src/storage.ts:58-63 | two puts of one id and hash that both returned stored the same record |
| AssetStore.PutFailures | packages/assets/src/storage.ts:33-64 | an accepted put fails only because another record of the same id key and hash is published, because of a digest collision of another length, for an invalid id, or by an input/output error |
| AssetStore.SmoothPut | packages/assets/src/storage.ts:142-171 | a put whose own calls meet no fault never ends in an input/output error, whatever others do |
| AssetStore.ReadFailures | packages/assets/src/storage.ts:66-107 | among any puts a read fails only with invalid arguments, a missing registry record, an input/output error, or two asset ids of one key digest; never with a missing or corrupt object |
| AssetStore.ReadReturns | packages/assets/src/storage.ts:66-107 | what read returns is a published record with bytes of the digest and length asked for |
| AssetStore.PathsAreDistinct | packages/assets/src/storage.ts:109-119 | different objects, records and temporary files have different paths |
| AssetStore.PutTerminates | packages/assets/src/storage.ts:142-171 | no put waits for another: every step brings it nearer to its end |
| AssetStore.PutEnds | packages/assets/src/storage.ts:142-171 | over every run a put that is given its steps has returned or failed, whatever lies between them |
| AssetStore.AcceptedPutReturns | packages/assets/src/storage.ts:33-64 | a put of good arguments that meets no fault returns, in any run, unless another record of its id key and hash is published or the digest has a collision of another length |
| AssetStore.PutRefusedExactly | packages/assets/src/storage.ts:33-44 | a put is refused at its beginning exactly when its record is not valid, field by field, or does not describe the bytes |
| AssetStore.SmoothRead | packages/assets/src/storage.ts:66-107 | over every run a read none of whose own steps meets a failing call never ends in an input/output error |
| AssetStore.PublishedIsRead | packages/assets/src/storage.ts:66-107 | a read of a published record that takes its three steps without a failing call, with any steps of others between them, returns that record and bytes of its digest and length |
| AssetStore.PutThenRead | packages/assets/src/storage.ts:33-107 | what a put that returned was given is what a later read returns, byte for byte if no other bytes of that length share the digest |
| AssetStore.RegistryDecides | packages/assets/src/storage.ts:66-91 | at the step that looks for the record: not found exactly when there is none, corrupt identity for the record of another id, an input/output error for a failing call, each for good |
| AssetStore.MalformedIsRefused | packages/assets/src/storage.ts:66-68 | a read is refused exactly when its id or hash has the wrong form |
| AssetStore.NothingLeftBehind | packages/assets/src/storage.ts:142-171 | in every run a put that returned, or failed for another reason than an input/output error, has left no temporary file |
| SessionBinding.BindingStore.CreateBinding | apps/server/src/published-session-binding.ts:26-37 | create-if-absent with replay, conflict and invalid answers; the whole new table |
| SessionBinding.BindingStore.GetBinding | apps/server/src/published-session-binding.ts:39-43 | looks up exactly what was bound |
| SessionBinding.BindingStore.RemoveBinding | apps/server/src/published-session-binding.ts:45-48 | removes this binding and no other, and tells whether it was there |
| SessionBinding.CreateAnswers | apps/server/src/published-session-binding.ts:26-37 | replay exactly when the binding of the session says the same, hash in either case, conflict exactly when it says anything else; what is stored, field by field |
| SessionBinding.StoresAgree | apps/server/src/published-session-binding.ts:23-149 | the memory store and the SQLite store give the same kind of answer to everything, up to letter case of hashes |
| SessionBinding.StepInv | apps/server/src/server.ts:332-371 | every step of creators, publishers and rollbacks keeps every existing session bound to the release it was created from |
| SessionBinding.ExecInv | apps/server/src/authored-runtime-server.ts:202-218 | the same over whole runs, for both servers |
| SessionBinding.RollbackInv | apps/server/src/server.ts:350-371 | a rollback removes the binding of no existing session, and no other binding |
| SessionBinding.NoLateCollision | apps/server/src/server.ts:362-366 | a creator that holds a binding never meets an existing session |
| SessionBinding.SessionsStayPinned | apps/server/src/server.ts:560-582 | whatever runs between the three reads of the resolver, an existing session resolves to the release it was created from; binding-not-found and pinned-mismatch are unreachable |
| SessionBinding.CreatedResolves | apps/server/src/published-release-resolver.ts:43-67 | a session reported as created resolves to the very release its creator looked up, after any further publishes, pointer moves, creations and rollbacks |
| SessionBinding.ResolveExactly | apps/server/src/server.ts:560-575 | each refusal of the resolvers with its exact cause |
| SessionBinding.PointerIsRead | apps/server/src/published-release-resolver.ts:43-67 | a creator goes on with the release its quest points to at that step, and is refused exactly without a pointer |
| SessionBinding.CreationSucceeds | apps/server/src/server.ts:332-371 | a creator with a good release and a free identifier of its own, whose session store does not fail, creates its session within three steps, whatever the others do |
| SessionBinding.PublishExactly | packages/control/src/release-stores.ts:34-64 | a release is published once and never replaced |
| SessionBinding.MoveExactly | packages/control/src/release-stores.ts:76-99 | the current pointer of a quest moves to published releases only |
| SessionBinding.AuthoredNeedsLowerCase | apps/server/src/authored-runtime-server.ts:309-334 | the two comparisons of the authored server, which does not lower-case the hash, hold exactly when the hash is in lower case |
| SessionBinding.ThrowAfterCommitBreaks | apps/server/src/server.ts:350-361 | if the session store could fail after storing, the rollback would leave a session without a binding |
| ModelBackend.ModelAgentBackend.Configure | packages/ai/src/model-agent-backend.ts:57-65 | replaces provider and model, aborts every session and empties the table, or refuses and changes nothing |
| ModelBackend.ModelAgentBackend.OpenSession | packages/ai/src/model-agent-backend.ts:67-79 | drops expired sessions, refuses a ninth, and issues the next reference |
| ModelBackend.ModelAgentBackend.BeginTurn | packages/ai/src/model-agent-backend.ts:81-117 | a turn starts only on a live, idle session, and is sent with the provider and model configured now |
| ModelBackend.ModelAgentBackend.FinishTurn | packages/ai/src/model-agent-backend.ts:118-154 | what a turn answers when its provider does, in the order of the checks |
| ModelBackend.ModelAgentBackend.CloseSession | packages/ai/src/model-agent-backend.ts:156-165 | aborts and removes the session |
| ModelBackend.StepInv | packages/ai/src/model-agent-backend.ts:57-165 | any call, reply, timer or signal in any order keeps the session table within eight entries, aborted exactly when removed, and each turn tied to its busy session |
| ModelBackend.OkTurnIsCurrent | packages/ai/src/model-agent-backend.ts:110-144 | a turn that returns ok belongs to a session still in the table and was sent with the provider and model still configured |
| ModelBackend.RefsAreFresh | packages/ai/src/model-agent-backend.ts:76-77 | a new session has a reference that no session ever had |
| ModelBackend.ExpiredStaysExpired | packages/ai/src/model-agent-backend.ts:82-87 | an issued handle that left the table is refused as expired for ever |
| ModelBackend.PastDeadlineIsDead | packages/ai/src/model-agent-backend.ts:87-96 | once its deadline has passed a session never begins another turn, swept or still in the table |
| ModelBackend.ExpiredExactly | packages/ai/src/model-agent-backend.ts:82-87 | session_expired is answered exactly for handles not in the table, which are the gone ones and the ones not yet issued |
| ModelBackend.UnissuedHandleBecomesUsable | packages/ai/src/model-agent-backend.ts:76-87 | a handle refused before its number was issued can become usable |
| ModelBackend.OneTurnPerSession | packages/ai/src/model-agent-backend.ts:88-108 | a session is busy exactly while one turn of it is in flight, and takes no other |
| ModelBackend.TurnAnswers | packages/ai/src/model-agent-backend.ts:118-154 | a turn answers ok exactly when its session is still open, it was neither timed out nor cancelled, and the output is usable; every error with its exact cause, over the session, the turn and the reply |
| ModelBackend.TurnLeaves | packages/ai/src/model-agent-backend.ts:149-154 | a finished turn frees its session and changes nothing else |
| ModelBackend.OpenExactly | packages/ai/src/model-agent-backend.ts:66-75 | a session opens exactly for a valid request in time, with a provider, beside fewer than eight sessions whose deadline has not passed; every refusal with its cause |
| ModelBackend.OpenLeaves | packages/ai/src/model-agent-backend.ts:72-78 | the sweep aborts and removes exactly the sessions whose deadline has passed, and the new session lives to its deadline |
| ModelBackend.BeginExactly | packages/ai/src/model-agent-backend.ts:81-97 | a turn begins exactly on an idle session of the table before both deadlines; every refusal with its cause |
| ModelBackend.BeginLeaves | packages/ai/src/model-agent-backend.ts:98-117 | a turn is sent with the configured provider and model and makes its session busy |
| ModelBackend.CloseExactly | packages/ai/src/model-agent-backend.ts:156-165 | a session of the table is aborted and removed; every refusal with its cause |
| ModelBackend.ConfigureExactly | packages/ai/src/model-agent-backend.ts:57-64 | a provider with a model name of 1 to 200 characters, or none, is accepted, and then every session is aborted and removed |
| ModelBackend.InterruptExactly | packages/ai/src/model-agent-backend.ts:100-108 | the timer and the signal of a turn are noted on that turn only |
| LocalAuthorProvider.Provider.Configure | apps/studio/src/local-author-provider.ts:45-69 | a new generation with the counter reset, or an exception that changes nothing |
| LocalAuthorProvider.Provider.Disconnect | apps/studio/src/local-author-provider.ts:71-78 | a new generation without settings |
| LocalAuthorProvider.Provider.Start | apps/studio/src/local-author-provider.ts:82-90 | a request of the current generation counts and shows as requesting, an older one does not |
| LocalAuthorProvider.Provider.Finish | apps/studio/src/local-author-provider.ts:89-105 | the last reply of the current generation decides the status and the error code |
| LocalAuthorProvider.ExecInv | apps/studio/src/local-author-provider.ts:45-107 | over every run the counter is the number of requests in flight under the current generation; requesting exactly when it is positive; connected without an error code, error with one |
| LocalAuthorProvider.NeverClamps | apps/studio/src/local-author-provider.ts:91-102 | the clamp at zero is never needed |
| LocalAuthorProvider.StaleRequestsAreInvisible | apps/studio/src/local-author-provider.ts:80-107 | requests of earlier generations change nothing that the status shows |
| LocalAuthorProvider.FinishExactly | apps/studio/src/local-author-provider.ts:89-105 | a reply to a current request sets exactly the code of its failure, network where the provider threw, and the last one decides the status |
| LocalAuthorProvider.StartExactly | apps/studio/src/local-author-provider.ts:82-90 | a current request is counted, shown and clears the code; another one changes nothing that is shown |
| LocalAuthorProvider.ConfigureExactly | apps/studio/src/local-author-provider.ts:45-78 | accepted settings and a disconnection begin a generation with nothing in flight; refused ones change nothing |
| LocalAuthorProvider.DiscardedProviderWouldClamp | apps/studio/src/local-author-provider.ts:57-64 | why a provider built for a failed configuration must never be asked |
| CodexLease.CodexAccountLease.Activate | packages/ai/src/codex-app-server-account.ts:197-202 | every activation is a new generation |
| CodexLease.CodexAccountLease.Invalidate | packages/ai/src/codex-app-server-account.ts:204-208 | every invalidation is a new generation without an account |
| CodexLease.UsableMeansCurrent | packages/ai/src/codex-app-server-backend.ts:358-366 | a session is usable exactly while the generation it saw is current |
| CodexLease.ChangedLeaseEndsSessions | packages/ai/src/codex-app-server-backend.ts:358-366 | after any activation or invalidation no session of an earlier lease is ever usable again, even when the same account returns |
| CodexLease.LateOpeningIsDead | packages/ai/src/codex-app-server-backend.ts:239-276 | an opening overtaken by a change of the lease ends in a session that is never usable |
| CodexLease.LeaseStep | packages/ai/src/codex-app-server-account.ts:197-208 | an activation carries its account key and an invalidation none, each in a new generation; nothing else touches the lease |
| CodexLease.OpeningSucceedsExactly | packages/ai/src/codex-app-server-backend.ts:239-276 | an opening that began under an authenticated lease ends in a new session that remembers that lease, usable exactly when the lease was not changed in between |
| CodexLease.WithoutAccountOrLease | packages/ai/src/codex-app-server-backend.ts:239-249 | without an account nothing is opened; without a lease reader every session is usable |
| CodexLease.TurnOutlivesLease | packages/ai/src/codex-app-server-backend.ts:278-319 | over every run, a turn that began waits until the transport replies, whatever becomes of the lease and the session, and the reply alone decides its answer; its session, if it still stands, is usable then exactly when no activation and no invalidation came in between |
| CodexLease.LeftBehindForGood | packages/ai/src/codex-app-server-backend.ts:321-335 | a session that the lease left behind, with no closing in flight, can never be closed again and stays in the table for good |
| CodexLease.ChangeLeavesBehind | packages/ai/src/codex-app-server-backend.ts:321-335 | a change of the lease leaves behind exactly the sessions with no closing in flight; a closing that began before still removes its session |
| CodexLease.CodexAppServerAgentBackend.BeginOpen | packages/ai/src/codex-app-server-backend.ts:239-249 | takes the lease snapshot before the first await |
| CodexLease.CodexAppServerAgentBackend.FinishOpen | packages/ai/src/codex-app-server-backend.ts:262-276 | stores the session under the next ordinal with the snapshot of its beginning |
| CodexLease.CodexAppServerAgentBackend.OwnedSession | packages/ai/src/codex-app-server-backend.ts:358-366 | answers exactly whether the session is usable now |
| CodexLease.CodexAppServerAgentBackend.BeginTurn | packages/ai/src/codex-app-server-backend.ts:278-284 | a turn begins exactly on a usable session |
| CodexLease.CodexAppServerAgentBackend.FinishTurn | packages/ai/src/codex-app-server-backend.ts:300-318 | the answer of a turn is the one its reply makes |
| CodexLease.CodexAppServerAgentBackend.BeginClose | packages/ai/src/codex-app-server-backend.ts:324-327 | closing begins exactly on a usable session |
| CodexLease.CodexAppServerAgentBackend.FinishClose | packages/ai/src/codex-app-server-backend.ts:332-333 | the session is removed exactly when the transport released its thread |
| CodexQuota.CacheKeyInjective | packages/ai/src/codex-app-server-account.ts:447-457 | users, connections, accounts and revisions never share a cache key |
| CodexQuota.CachedIsOneSnapshot | packages/ai/src/codex-app-server-account.ts:323-386 | a successful read replaces the snapshot, a valid notification overlays it, an identity change, logout, rotation or close drops it, nothing else touches it |
| CodexQuota.CacheRefinesOneReading | packages/ai/src/codex-app-server-account.ts:323-444 | over every run the keyed cache shows what one optional reading, without map or keys, would |
| CodexQuota.FreshUnlessLate | packages/ai/src/codex-app-server-account.ts:323-357 | a step leaves a reading of an earlier lease behind exactly when a read completes after the lease changed |
| CodexQuota.CacheStaysFresh | packages/ai/src/codex-app-server-account.ts:323-386 | in a run without such late reads the cache only ever shows a reading of the current lease |
| CodexQuota.SequentialStaysFresh | packages/ai/src/codex-app-server-account.ts:323-386 | when controller calls do not overlap, no reading of an earlier account, login or credential is ever shown |
| CodexQuota.LateReadOutlivesLogout | packages/ai/src/codex-app-server-account.ts:335-357 | a read that a logout overtakes puts the old limits back |
| CodexQuota.AccountController.CompleteReadRateLimits | packages/ai/src/codex-app-server-account.ts:335-357 | stores and activates the reading under the key of its account and the current revision |
| CodexQuota.AccountController.AcceptRateLimitUpdate | packages/ai/src/codex-app-server-account.ts:436-444 | overlays the active reading |
| CodexQuota.AccountController.FinishReadIdentity | packages/ai/src/codex-app-server-account.ts:394-434 | a subscription account activates the lease and clears the cache, anything else invalidates |
| CodexQuota.AccountController.RotateCredentialRevision | packages/ai/src/codex-app-server-account.ts:372-379 | a changed revision invalidates, the same one is refused |
| Scenario.ResolveOption | apps/server/src/authored-scenario.ts:224-243 | the first case not known to be false decides: a broken one fails, a true one gives its outcome and keeps the terminal of the option if it has none; without any the option stands |
| Scenario.FirstCaseDecides | apps/server/src/authored-scenario.ts:224-243 | the outcome of an option, in its fields: that of the first case not known to be false, and no other |
| Scenario.CommitShape | apps/server/src/authored-scenario.ts:149-189 | a commit comes from the named option of the current beat, in no terminal state, moves the revision by one and the clock by the advance, and keeps a valid state |
| Scenario.CommitOutcome | apps/server/src/authored-scenario.ts:174-189 | the new state carries exactly the effects and the terminal of the resolved option |
| Scenario.CommitIsAdvertised | apps/server/src/authored-scenario.ts:191-215 | a commit has the status the public situation shows, an option shown as blocked never commits, and one shown as possible fails only on an effect or the clock |
| Scenario.SituationShows | apps/server/src/authored-scenario.ts:191-215 | the public situation shows the revision, the clock and the beat of the state, and of each option its meaning and the status of its outcome, blocked for broken cases |
| Scenario.OptionExactly | apps/server/src/authored-scenario.ts:149-189 | an option commits exactly when the state is running, it is shown as possible, its effects apply and its clock fits; every refusal with its exact cause |
| Scenario.NoOptionExactly | apps/server/src/authored-scenario.ts:149-165 | the refusals before an option is found, each with its exact cause |
| Scenario.EveryRun | apps/server/src/authored-scenario.ts:149-222 | every run goes through the beats in order, executes no option twice, ends within as many commits as there are beats, and its clock is the initial one plus the advances, at most a year each |
| Scenario.CommitsUseUpBeats | apps/server/src/authored-scenario.ts:164-187 | the number of beats left goes down with every commit and with nothing else |
| Scenario.StoppedForGood | apps/server/src/authored-scenario.ts:156-165 | a terminal or the end of the beats stops the run for good |
| Scenario.ReachableIsSound | apps/server/src/authored-scenario.ts:149-189 | no reachable state is invalid, breaks a case condition or exhausts the revision; the clock overflows only for scenarios that start at the edge of the safe integers |
| ScenarioNormalize.NormalizeCases | apps/server/src/authored-scenario.ts:321-343 | the loop over the cases accepts and returns exactly what each of them parses to |
| ScenarioNormalize.NormalizeOptions | apps/server/src/authored-scenario.ts:284-306 | the loop over the options accepts exactly well-formed options with identifiers not taken before |
| ScenarioNormalize.NormalizeBeats | apps/server/src/authored-scenario.ts:273-311 | the loop over the beats accepts exactly well-formed beats without repeated beat or option identifiers |
| ScenarioNormalize.NormalizeScenario | apps/server/src/authored-scenario.ts:262-319 | the whole normaliser |
| ScenarioNormalize.NormalizeExactly | apps/server/src/authored-scenario.ts:262-351 | a sidecar is normalised to a scenario exactly when the scenario is well formed and the sidecar writes it, property by property |
| ScenarioNormalize.BeatExactly | apps/server/src/authored-scenario.ts:276-311 | a beat is accepted exactly when its properties write a well-formed one |
| ScenarioNormalize.ChoiceExactly | apps/server/src/authored-scenario.ts:284-306 | an option is accepted exactly when its properties write a well-formed one; other properties are ignored |
| ScenarioNormalize.CaseExactly | apps/server/src/authored-scenario.ts:321-351 | a case is accepted exactly when it is the writing of a well-formed one |
| ScenarioNormalize.NormalizedIsWellFormed | apps/server/src/authored-scenario.ts:262-351 | every scenario the normaliser returns has unique beats and options, all bounds, and conditions that can be evaluated |
| ScenarioNormalize.WellFormedIsFixed | apps/server/src/authored-scenario.ts:262-351 | a well-formed scenario written back and normalised is unchanged |
| ScenarioNormalize.NormalizeIsIdempotent | apps/server/src/authored-scenario.ts:262-351 | normalising twice is normalising once |
| ScenarioNormalize.ImageIsWellFormed | apps/server/src/authored-scenario.ts:262-351 | the results of the normaliser are exactly the well-formed scenarios |
| ScenarioNormalize.CreatedBinds | apps/server/src/authored-scenario.ts:85-113 | a created sidecar binds exactly under its own hash and quest, to the data it was created with |
| ScenarioNormalize.CreateExactly | apps/server/src/authored-scenario.ts:85-101 | a sidecar is created exactly for beats, as a list or inside an object, that write a well-formed scenario |
| ScenarioNormalize.BindExactly | apps/server/src/authored-scenario.ts:103-113 | a sidecar binds exactly when its kind, artifact and quest are right and it can be normalised |
| World.ApplyBatch | packages/core/src/effects.ts:47-152 | the loop over a batch: the complete next state with the effects applied, or a refusal that names the refused effect, and no state |
| World.AppliesAll | packages/core/src/effects.ts:131-151 | a batch that succeeds has applied all of its effects |
| World.RefusalIsFirst | packages/core/src/effects.ts:60-149 | the refused effect is the first that cannot be applied after those before it |
| World.ParseEffectExactly | packages/contracts/src/gameplay-effect.ts:39-89 | a JSON value is accepted as an effect exactly when it is the writing of one with a source |
| World.ChangeExactly | packages/core/src/effects.ts:72-100 | a resource changes exactly when it is there, within its bounds and stays within them; every refusal with its cause |
| World.TransferExactly | packages/core/src/effects.ts:101-119 | an item moves exactly when it and its destination are there; every refusal with its cause |
| World.MoveExactly | packages/core/src/effects.ts:120-129 | an entity moves exactly when it and the location are there; every refusal with its cause |
| World.MalformedExactly | packages/core/src/effects.ts:61-69 | what is no effect is unsupported exactly when it names another type |
| World.InvalidStateExactly | packages/core/src/effects.ts:47-53 | a batch is refused as a whole exactly when the state is not valid |
| World.BatchAddsUp | packages/core/src/effects.ts:47-152 | an applied batch changes each resource by the sum of its deltas, puts each item and entity where its last move says, and changes nothing else |
| World.EffectsKeep | packages/core/src/effects.ts:80-129 | effects keep the references valid, the cast and every resource within its bounds |
| World.EachMeaning | packages/core/src/conditions.ts:78-95 | all and any evaluate every child, and the first broken child decides |
| World.AllAndAny | packages/core/src/conditions.ts:78-95 | all is true exactly when every child is, any exactly when all children are known and one is true, and the first broken child decides otherwise |
| World.EvaluateMeans | packages/core/src/conditions.ts:47-101 | a condition evaluates to true exactly when everything it speaks of is there and what it says holds of the lists of the state, and to false exactly when it does not hold |
| World.ResourceMeans | packages/core/src/conditions.ts:49-61 | at least an amount: the resource of that identifier, in bounds, has it; every failure with its cause |
| World.EntityMeans | packages/core/src/conditions.ts:62-69 | an entity is at a location; every failure with its cause |
| World.ItemMeans | packages/core/src/conditions.ts:70-77 | an item is held by an entity; every failure with its cause |
| World.ConditionExactly | packages/core/src/conditions.ts:37-45 | a raw condition is known exactly in a valid state, when it is the writing of a condition that can be said of it |
| World.ParseExactly | packages/contracts/src/condition.ts:55-100 | a JSON value is accepted as a condition exactly when it is the writing of one within the bounds, and is read as that one |
| World.DeMorgan | packages/core/src/conditions.ts:78-99 | all, any and not obey De Morgan, broken conditions included |
| World.ConditionStaysKnown | packages/core/src/conditions.ts:37-45 | a condition that can be evaluated once can be in every state its scenario reaches |
| Intent.ValidateIds | packages/ai/src/intent.ts:312-323 | accepts exactly lists of allowed identifiers without repetition, unchanged |
| Intent.ValidateArgs | packages/ai/src/intent.ts:325-351 | accepts exactly arguments with the names of the schema, each within its rule, unchanged |
| Intent.ArgumentExactly | packages/ai/src/intent.ts:325-351 | what an argument may be under each rule |
| Intent.ValidateRequest | packages/ai/src/intent.ts:281-305 | the loop over the catalogue finds exactly the first problem of the request |
| Intent.NoContextProblem | packages/ai/src/intent.ts:281-305 | a request passes exactly when its text, deadline, catalogue, entities and dialogue are within their bounds and no action type occurs twice |
| Intent.EntryFound | packages/ai/src/intent.ts:307-310 | in a catalogue that passes, every action type has its own entry |
| Intent.EntryExactly | packages/ai/src/intent.ts:307-310 | an entry is found exactly when it is the only one of its action type |
| Intent.ProposalExactly | packages/ai/src/intent.ts:189-245 | a JSON value is let through exactly when it is the writing of an allowed proposal, and it is that proposal |
| Intent.ContextProblemExactly | packages/ai/src/intent.ts:281-305 | what is wrong with a request, in the order of the checks |
| Intent.CatalogProblemExactly | packages/ai/src/intent.ts:287-296 | the problem of a catalogue is that of its first bad entry |
| Intent.VerdictExactly | packages/ai/src/intent.ts:155-180 | when a reply decides, and what |
| Intent.EvidenceExactly | packages/ai/src/intent.ts:155-164 | what is kept of each call |
| Intent.Interpret | packages/ai/src/intent.ts:126-186 | at most two calls; a decision is a proposal that passed validation; the second call only after a retryable failure or an answer that is no valid proposal; the message and the evidence of every other outcome |
| AuthoredIntent.AcceptedNamesAnOption | packages/ai/src/intent.ts:189-223 | the intents accepted against the catalogue of a state are exactly those that name one option of its current beat and nothing else |
| AuthoredIntent.CatalogPasses | apps/server/src/authored-scenario.ts:115-134 | the catalogue passes the request check exactly while the scenario can go on |
| AuthoredIntent.FormExactly | apps/server/src/authored-scenario.ts:136-147 | an intent is refused for its action type first, then for its argument, and else names an option |
| AuthoredIntent.AcceptedIsSound | apps/server/src/authored-scenario.ts:136-189 | in every reachable state an accepted intent commits at its advertised status, or is blocked as advertised, by an effect or by the clock; never for its form |
| Base64.Encode | apps/server/src/draft-version-http.ts:367-380 | the loop computes the text of the bytes, four characters for each three bytes, within the import limit for any accepted archive |
| Base64.Decode | apps/server/src/draft-version-http.ts:382-404 | null exactly for texts of the wrong shape; otherwise an array holding the bytes of the text |
| Base64.DecodeEncode | apps/server/src/draft-version-http.ts:367-404 | decoding an encoding gives the bytes back |
| Base64.EncodeDecode | apps/server/src/draft-version-http.ts:367-404 | encoding a decoding gives the text back exactly when the unused trailing bits are zero |
| Base64.CanonicalIsUnique | apps/server/src/draft-version-http.ts:382-404 | two canonical texts of the same bytes are equal |
| Base64.ShiftsAreArithmetic | apps/server/src/draft-version-http.ts:374-400 | the shifts and masks are the arithmetic of the model, and no decoded byte exceeds eight bits |
| Base64.SameNumber | apps/server/src/draft-version-http.ts:374-379 | three bytes and their four sextets are the digits of one number |
| RuntimeStorage.MemoryRuntimeStorage.ClaimOperation | packages/runtime/src/memory-storage.ts:91-176 | a new key acquires an operation of an idle session at its revision; a known key is replayed, still processing, reclaimed after its lease, or refused for another request |
| RuntimeStorage.MemoryRuntimeStorage.RenewLease | packages/runtime/src/memory-storage.ts:178-195 | the holder of an unexpired lease extends it |
| RuntimeStorage.MemoryRuntimeStorage.CommitTurn | packages/runtime/src/memory-storage.ts:197-241 | the holder of an unexpired lease installs a valid next state, a new turn and the response, together, or changes nothing |
| RuntimeStorage.MemoryRuntimeStorage.FinishOperationWithoutTurn | packages/runtime/src/memory-storage.ts:243-275 | the holder of an unexpired lease stores the response and frees the session |
| RuntimeStorage.CommitSucceedsExactly | packages/runtime/src/memory-storage.ts:197-218 | a commit succeeds exactly for the latest holder of its session before the end of its lease, at the revision of the session, with a valid candidate of the next revision, a new turn between the two and a valid response |
| RuntimeStorage.CommitInstalls | packages/runtime/src/memory-storage.ts:220-241 | a successful commit makes the candidate the state of the session, appends exactly the turn, completes the operation with the response and the turn, frees the session, and leaves every other session, operation and turn as it was |
| RuntimeStorage.HolderRefusedFor | packages/runtime/src/memory-storage.ts:215-218 | what a holder in order is refused for: the candidate, the turn or the response, each exactly |
| RuntimeStorage.StateIsLastCommit | packages/runtime/src/memory-storage.ts:197-241 | over every run the state of a session is the candidate of its last successful commit, or the one it began with, and its turns are those of its successful commits in order |
| RuntimeStorage.FinishSucceedsExactly | packages/runtime/src/memory-storage.ts:243-261 | an operation finishes without a turn exactly for the latest holder at the revision, with a valid response |
| RuntimeStorage.FinishLeaves | packages/runtime/src/memory-storage.ts:263-275 | the response is stored, the session is free, and state, revision and turns are as before |
| RuntimeStorage.RenewSucceedsExactly | packages/runtime/src/memory-storage.ts:178-190 | a lease is renewed exactly for the latest holder before its end, for 1 ms to 5 minutes |
| RuntimeStorage.RenewLeaves | packages/runtime/src/memory-storage.ts:192-195 | the lease has its new end, and everything else is as before |
| RuntimeStorage.RefusalMeans | packages/runtime/src/memory-storage.ts:203-214 | which check refuses a holder, in the order of the checks; an operation in process is always active, so that refusal cannot occur |
| RuntimeStorage.MalformedClaim | packages/runtime/src/memory-storage.ts:91-99 | a claim is malformed exactly for its identifiers, hash, revision and lease, and one of an unknown session is told so |
| RuntimeStorage.KnownKeyAnswers | packages/runtime/src/memory-storage.ts:104-141 | what a claim under a known key answers: reused, replayed, still processing or acquired again, each exactly |
| RuntimeStorage.NewKeyAnswers | packages/runtime/src/memory-storage.ts:143-156 | what a claim under a new key answers, each exactly |
| RuntimeStorage.ClaimAcquires | packages/runtime/src/memory-storage.ts:130-175 | an acquired claim leaves a lease of the length asked for under a token one above the last, on an operation that carries the request, and nothing else changed |
| RuntimeStorage.KeysDiffer | packages/runtime/src/memory-storage.ts:430-432 | session and idempotency key can be read off the joined key |
| RuntimeStorage.StepInv | packages/runtime/src/memory-storage.ts:91-275 | every call, in any order and at any time, keeps an operation in process exactly the active one of its session, with its latest token and revision, and takes back no session, key, turn or finished operation |
| RuntimeStorage.NoSharedRevision | packages/runtime/src/memory-storage.ts:197-241 | over every run of claims, expiries, renewals and commits the turns of a session start from consecutive revisions, each under an operation and a key of its own |
| RuntimeStorage.HolderIsLatest | packages/runtime/src/memory-storage.ts:178-275 | whoever renews, commits or finishes holds the latest token of the session and an unexpired lease |
| RuntimeStorage.SupersededForever | packages/runtime/src/memory-storage.ts:178-275 | a superseded token never renews, commits or finishes anything again |
| RuntimeStorage.ClaimSupersedes | packages/runtime/src/memory-storage.ts:130-175 | acquiring an operation supersedes every earlier token of its session |
| RuntimeStorage.ReplayForever | packages/runtime/src/memory-storage.ts:104-118 | every later claim of a finished key gets the stored response and changes nothing, or is refused for another request |
| RuntimeStorage.ExpiredIsReclaimed | packages/runtime/src/memory-storage.ts:119-141 | a known operation can always be claimed again once its lease has run out; the conflicts tested there cannot occur |
| RuntimeStorage.AbandonedBlocks | packages/runtime/src/memory-storage.ts:143-148 | after a crash no other key can be acquired in the session until the same key is claimed again, however long the lease has run out |
| LoginLimiter.Limiter.Check | apps/server/src/control-server.ts:857-868 | the time left, and the removal of a record whose window and cooldown are over |
| LoginLimiter.Limiter.Record | apps/server/src/control-server.ts:870-878 | counts the failure in its window and blocks from the limit on |
| LoginLimiter.Limiter.BeginLogin | apps/server/src/control-server.ts:696-703 | limited before anything is verified; otherwise the attempt goes on with the time it began at |
| LoginLimiter.Limiter.FinishLogin | apps/server/src/control-server.ts:705-711 | success clears the record, a failure is recorded at the time the attempt began |
| LoginLimiter.Limiter.Login | apps/server/src/control-server.ts:696-711 | the whole attempt when nothing else happens to the key during the verification |
| LoginLimiter.AttemptExactly | apps/server/src/control-server.ts:696-711 | what an attempt answers and leaves in the record, field by field |
| LoginLimiter.CleanupChangesNoAnswer | apps/server/src/control-server.ts:863-868 | removing old records changes the answer of no sequence of attempts |
| LoginLimiter.ChecksChangeNoAnswer | apps/server/src/control-server.ts:863-868 | a check alone, made before an attempt, does not change its answer |
| LoginLimiter.WindowBound | apps/server/src/control-server.ts:870-878 | at most limit + ceil(window / cooldown) - 1 passwords are refused in one window |
| LoginLimiter.WindowBoundIsReached | apps/server/src/control-server.ts:870-878 | that bound is reached |
| LoginLimiter.IntervalBound | apps/server/src/control-server.ts:857-878 | at most floor(L / window) + 2 times as many in any interval of length L |
| LoginOverlap.RunInv | apps/server/src/control-server.ts:696-711 | with at most k attempts in flight, answered in the order of their beginnings, from the limit on each counted attempt began a cooldown after the one k places before |
| LoginOverlap.BeganExactly | apps/server/src/control-server.ts:696-703 | one more attempt is in flight exactly when the key is not blocked |
| LoginOverlap.FinishedExactly | apps/server/src/control-server.ts:705-711 | a right password clears the record; a wrong one is counted in the window of its beginning, and from the limit on blocks until a cooldown after its beginning |
| LoginOverlap.OverlapWindowBound | apps/server/src/control-server.ts:857-878 | in such runs at most limit + k * ceil(window / cooldown) - 1 failures are recorded in one window, which for k = 1 is the bound without overlap |
| LoginOverlap.OverlapBoundIsReached | apps/server/src/control-server.ts:696-711 | one attempt short of the limit, k attempts that begin together are all verified; the bound is reached for every k when the window is no longer than the cooldown |
| LoginInterval.SpanIsBounded | apps/server/src/control-server.ts:857-878 | in such runs, without success, at most twice that bound plus k - 1 of the attempts that began in any span as long as a window are refused |
| LoginInterval.OverlapIntervalBound | apps/server/src/control-server.ts:857-878 | in any interval of length L, at most floor(L / window) + 1 times as many |
| LoginOverlap.BlockMovesBack | apps/server/src/control-server.ts:870-878 | recording a failure shortens a block exactly when it opens a new window or the attempt began before the last one counted |
| LoginOverlap.InOrderNeverUnblocks | apps/server/src/control-server.ts:870-878 | in the order of beginnings a block never shortens within a window |
| LoginOverlap.LateAnswerUnblocks | apps/server/src/control-server.ts:696-711 | a run in which an attempt answered late ends a block forty seconds early |
| LoginOverlap.CleanupForgets | apps/server/src/control-server.ts:863-878 | removing an old record changes a later one exactly when the attempt in flight began inside the removed window |
| AuditLog.StepOk | apps/server/src/author-job-http.ts:546-571 | every store call of any caller, every append of another writer and every change of the job moves the log forward and leaves each caller right about it |
| AuditLog.StepUnique | apps/server/src/author-job-http.ts:546-571 | a step keeps each applied fact unique exactly when it is not a successful append of a fact that is there: callers and changes of the job always keep it |
| AuditLog.AtMostOnceExactly | apps/server/src/author-job-http.ts:546-571 | over every run the log holds each applied fact at most once if and only if every append that did not look at the log was of an absent fact |
| AuditLog.CallersAloneAreSafe | apps/server/src/author-job-http.ts:546-571 | without other appends, any number of concurrent callers log each applied fact at most once |
| AuditLog.TrueMeansLogged | apps/server/src/author-job-http.ts:558-568 | in every run a call that returned true left its fact in the log for good, and exactly once if no other append repeats a fact |
| AuditLog.FalseMeans | apps/server/src/author-job-http.ts:557-570 | a call returns false only when the job is missing, has ended, changed four times since the first store call of the call, or the store rejected the fact or the time as malformed |
| AuditLog.WellFormedIsNotRejected | apps/server/src/author-job-http.ts:563-569 | a version conflict is tried again: a call whose fact and time are well formed is never rejected |
| AuditLog.CallSucceeds | apps/server/src/author-job-http.ts:552-571 | a call on a job that is there logs its fact within fifteen store calls, unless the job ends or is changed at least four times meanwhile |
| AuditLog.AppendExactly | packages/control/src/author-agent-jobs.ts:247-266 | the append succeeds exactly at the expected version of a running job, and logs exactly the fact |
| AuditLog.EveryCallEnds | apps/server/src/author-job-http.ts:552-571 | no call waits for another: it ends after at most fifteen store calls |
| AuditLog.LogFirstLogsTwice | apps/server/src/author-job-http.ts:550-560 | if the log could be read before the job, one fact could be logged twice |
| AuditLog.BlindAppendLogsTwice | apps/server/src/author-assistant.ts:531-535 | one call followed by the append that does not look ends with the fact twice |
| ActiveSegments.Segments.Begin | apps/server/src/author-job-http.ts:492-498 | refused exactly while a segment of the job runs; a new segment is not aborted |
| ActiveSegments.Segments.End | apps/server/src/author-job-http.ts:500-503 | ends the segment of this controller only |
| ActiveSegments.Segments.Abort | apps/server/src/author-job-http.ts:505-510 | reaches exactly the running segment of the job |
| ActiveSegments.Segments.OneSegmentPerJob | apps/server/src/author-job-http.ts:482-503 | no job runs two segments |
| ToolLoop.StepInv | apps/server/src/author-tool-loop.ts:95-183 | every step of any caller keeps operations, their results and their requests once made |
| ToolLoop.AtMostOneCall | apps/server/src/author-tool-loop.ts:134-183 | whatever retries, races and crashes, the tool is called at most once for an operation id |
| ToolLoop.AnswersAgree | apps/server/src/author-tool-loop.ts:206-239 | all callers of an operation that get an answer asked the same and get the same outcome |
| ToolLoop.HolderCompletes | apps/server/src/author-tool-loop.ts:171-182 | the caller that holds an operation completes it and is answered, unless the completion is malformed or came more than ten minutes after the call; then it is denied and nothing is persisted |
| ToolLoop.ReserveExactly | apps/server/src/author-tool-loop.ts:134-150 | what a caller is told before the tool is called, each answer exactly |
| ToolLoop.ToolCalled | apps/server/src/author-tool-loop.ts:152-169 | the tool is called exactly when the transport is there, and its answer is kept |
| ToolLoop.ToolAnswerIsPersisted | apps/server/src/author-tool-loop.ts:152-182 | with any steps of others in between, the answer of the tool is the one that is persisted and the one its caller gets, unless the completion is malformed or comes more than ten minutes later |
| ToolLoop.RetryReplays | apps/server/src/author-tool-loop.ts:143-146 | a completed operation answers every later caller with the same request from its result, and denies any other |
| ToolLoop.RejectedIsPendingForever | apps/server/src/author-tool-loop.ts:173-181 | after such a rejection no caller ever gets an answer for the operation: whoever asks the same is told that it is pending |
| ToolLoop.CrashedIsPending | apps/server/src/author-tool-loop.ts:134-148 | as long as the holder of an operation takes no step, nobody else completes it |
| QuotaCache.KeysAreInjective | packages/ai/src/quota.ts:214-220 | cache keys tell connection, account and revision apart |
| QuotaCache.PrefixMeansPair | packages/ai/src/quota.ts:208-216 | the prefix test finds exactly the keys of a connection and account |
| QuotaCache.OwnersAgree | packages/ai/src/quota.ts:208-216 | no account and the empty account are one owner, and no other two are |
| QuotaCache.AgedExactly | packages/ai/src/quota.ts:203-205 | ageing makes an available metric stale and changes nothing else |
| QuotaCache.QuotaMetricCache.Set | packages/ai/src/quota.ts:191-194 | stores for this owner and changes no other |
| QuotaCache.QuotaMetricCache.Get | packages/ai/src/quota.ts:196-206 | unchanged before expiry; after it, available becomes stale and nothing else changes |
| QuotaCache.QuotaMetricCache.Invalidate | packages/ai/src/quota.ts:208-211 | removes every revision of the pair and nothing else |
| PercentEncoding.EncodeInjective | packages/ai/src/quota.ts:218-220 | percent-encoding is injective on well-formed strings |
| PercentEncoding.EncodeHasNoBar | packages/ai/src/quota.ts:218-220 | an encoded part holds no separator |
| PercentEncoding.EscapedByte | packages/ai/src/quota.ts:218-220 | every byte of an escaped character is a percent sign and two upper-case hexadecimal digits |
| PercentEncoding.PlainIsUnchanged | packages/ai/src/quota.ts:218-220 | a string is its own encoding exactly when all of its characters are unreserved |
| PercentEncoding.JoinedInjective | packages/ai/src/quota.ts:214-220 | a joined key tells all its parts |
| PercentEncoding.JoinedPrefix | packages/ai/src/quota.ts:208-216 | a joined key followed by the separator starts another exactly when its parts are the first ones of the other |
| Paths.ContainsMeansSegments | apps/builder-runner/src/workspace-policy.ts:113-115 | the string test is exactly containment of segment sequences |
| Paths.ContainsIsTransitive | apps/builder-runner/src/workspace-policy.ts:113-115 | containment is transitive |
| Paths.JoinSplit | apps/builder-runner/src/workspace-policy.ts:107-110 | joining the segments gives the path back |
| Paths.SegmentsHoldNoSlash | apps/builder-runner/src/workspace-policy.ts:107 | segments are what lies between the slashes |
| WorkspacePolicy.AuthorizedMeansInside | apps/builder-runner/src/workspace-policy.ts:70-77 | a path is authorised exactly when it is canonical and extends an allowed path segment by segment; it never climbs out or enters Git metadata |
| WorkspacePolicy.AuthorizedIsRelative | apps/builder-runner/src/workspace-policy.ts:102-106 | no absolute path, drive, backslash or NUL is ever authorised |
| WorkspacePolicy.RefusedPaths | apps/builder-runner/src/workspace-policy.ts:70-77 | a path is refused as malformed exactly when it is not canonical, and as outside exactly when it extends no allowed path |
| WorkspacePolicy.CreatePolicyExactly | apps/builder-runner/src/workspace-policy.ts:41-47 | a policy is built exactly from two lists of 1 to 64 canonical paths of which every writable one extends a readable one |
| WorkspacePolicy.PolicyGrants | apps/builder-runner/src/workspace-policy.ts:65-77 | a built policy grants writing exactly below the writable paths it was given, and reading exactly below the readable ones, and keeps the base commit |
| WorkspacePolicy.WriteImpliesRead | apps/builder-runner/src/workspace-policy.ts:41-47 | in every policy that was built, permission to write implies permission to read |
| WorkspacePolicy.Workspace.ApplyBoundedPatch | apps/builder-runner/src/bounded-patch-job.ts:35-67 | nothing is written unless every path is authorised, else the error of the first refused path; otherwise the operations in order, up to a failing write; then the tree and the base commit are checked with the patch in place, and the evidence is of these operations |
| Strings.SortedInOrder | apps/builder-runner/src/bounded-patch-job.ts:53 | the changed paths are in the order of their code units, each as often as it was written |
| Strings.AtMostAntisymmetric | apps/builder-runner/src/bounded-patch-job.ts:53 | the order of code units is antisymmetric |
| Strings.UnitsInjective | apps/builder-runner/src/bounded-patch-job.ts:53 | different strings have different code units, so the sorted list is determined |
| WorkspacePolicy.LastWriteWins | apps/builder-runner/src/bounded-patch-job.ts:49-51 | the last operation on a path decides its content |
| WorkspacePolicy.RefusalNamesFirst | apps/builder-runner/src/bounded-patch-job.ts:40-43 | the refusal of a patch is that of its first operation that may not be made |
| WorkspacePolicy.OutsideUnchanged | apps/builder-runner/src/bounded-patch-job.ts:40-51 | however much of an authorised patch is applied, every file outside the writable paths is unchanged |

## Left out

- HTTP routing, headers, cookies, cross-origin checks, static files and all rendering: plumbing.
- SQLite, SHA-256, JSON printing and parsing, regular-expression engines, Git and deployment: a map with atomic operations, functions, an inverse pair, plain predicates, and nothing.
- Flushing to disk: a published file is taken to survive; power loss after a link is not modelled. Reading a whole file is one step, and creating directories is none.
- The object and the record of a put are steps over values of a file system, not over a class: the interleaving of many callers is the point there. The same holds for the creators of sessions, the callers of the audit log and those of the tool loop.
- LoginInterval.OverlapIntervalBound: for attempts that are answered in the order of their beginnings, and not shown to be reached; LoginOverlap.LateAnswerUnblocks is a run out of that order.
- The login key: one string; how it is made from the remote address and the user name is not modelled.
- The login flow of the account controller (start, complete, cancel): only its effect on the identity, the cache and the lease; transport errors and request identifiers are reduced to the cases the state depends on.
- The Codex turn: its output checks are one case of the reply, and the interruption of its thread is not modelled.
- Validators of profiles, messages, output budgets, asset manifests and rate limits: one flag or parameter each. Trimming a model name before its length is checked is left to the caller.
- The broker pin and the job budget of the tool loop: one refusal that the environment chooses. The reference tool itself is taken to make one external call.
- The SQLite runtime storage and the reading calls of the memory one; the check of public responses is a parameter, and the release of a session, which never changes, is left out.
- The full author segment, the release build pipeline and the preflight of a release: calls into stores that hold the logic; preflight is a flag of the release.
- The other checks of a builder policy (repository, root, branch, commands): they are independent of paths.
- ScenarioNormalize.NormalizeScenario: the world state of a raw sidecar is typed, and the keys of the two outer objects are fixed; the server checks no more of the state than its version and references, and would throw on anything else. A property set to undefined counts as absent.
- World.EachMeaning: the loops over the children of a condition are a recursion over them, as the evaluation itself is.
- World.ApplyBatch: numbers in a world state are integers of any size, as its schema says.
- ModelBackend.OkTurnIsCurrent: an abort of the provider is a reply that the environment may choose at any time; that an aborted provider does reply is not claimed.
