# Agent session core: a verified model

A Dafny model of the stateful core of the agent-session backend: the event pump that turns a
backend's event stream into frames for the relay, the task manager that builds and kills agents,
the runtime token service, the agent registry, and four smaller components they rest on. `dafny
verify dfyconfig.toml` checks all of it.

## How it is put together

Each component comes as a specification on its plain history or on values, a class or method that
works the way the source does (mutable fields, loops, tables scanned in an arbitrary order) and is
proved against that specification, and theorems about every run.

- `SessionEvents`, `CatalogOptions`, `PumpHistory`, `EventPump`, `PumpRuns`: the session event pump
- `SessionAnchor`: the persisted resume anchor, mode and model
- `EnvTemplate`: the `${env:NAME}` expander
- `TaskTypes`, `TaskProtocol`, `TaskRuns`, `TaskTokens`: the task manager as concurrent calls over write-once slots, and their tokens
- `TaskManager`, `RuntimeEnv`, `RuntimeTokens`, `ActiveLeases`: the task manager with its token service and leases, calls not overlapping
- `AgentRows`, `AgentRegistry`, `RegistryRuns`, `SortedIds`: the agent registry
- `AgentTypes`, `AgentRuntime`: shared enumerations; the Finished state under racing finish and error calls
- `SkillReference`: the skill reference codec

`PumpHistory` never mentions an accumulator: a turn is the events since the latest one that ended a
turn, a call is open if the latest of its lifecycle events is a call, and so on. `EventPump.Pump`
has the source's six accumulators; its invariant is that they say the same as the history, and that
the frames sent are a run of the specification. Everything in `PumpRuns` is about all runs.

`TaskProtocol` splits each call into the steps between which others may run: checking capabilities,
removing a slot, revoking tokens, reading its cell, fetching or inserting a slot, entering the cell, the build ending,
draining, and a caller giving up. A schedule is any legal sequence of such steps.

## What the proofs brought to light

- Output for a call that is not open leaves its row running after the turn has ended
  (`crates/tjuaeui-ai-agent/src/session_agent.rs:1874-1892`), against the intent stated at 1837-1844.
  `PumpRuns.RunningAfterTurnExactly` says exactly when, `PumpRuns.StrayOutputStaysRunning` gives an input.
- `kill` and `clear` do not wait for a build in flight; its agent answers its caller, lives on outside the
  map, and the manager never asks it to die (`TaskRuns.KillDoesNotWait`). An agent is asked to die exactly
  if it was there when its slot's remover looked (`TaskRuns.AskedToDieExactly`).
- Overlapping calls can be handed an agent that does not satisfy their request
  (`TaskRuns.OverlapIgnoresCapabilities`), exactly if another call's build for less completed on the slot
  after the check (`TaskRuns.CapableExactly`).
- A refresh that overlaps a reload can leave a reason without a row or a row without its reason
  (`RegistryRuns.RefreshOrphansReason`, `RegistryRuns.RefreshDropsReason`); when, is
  `RegistryRuns.OverlappingRefreshExactly`.
- A handshake can cache an unavailable row without a reason (`RegistryRuns.HandshakeHidesReason`); when, is
  `RegistryRuns.HandshakeExplainsExactly`.
- A recheck overwrites guidance and the opposite timestamp in the table but not in the cache
  (`RegistryRuns.RecheckForgetsInTable`); when, is `RegistryRuns.RecheckAgreesExactly`.
- An agent can be handed out with a runtime token that is already revoked
  (`TaskTokens.KillRevokesUnderBuild`); exactly when, is `TaskTokens.ReturnedTokenExactly`.
- A reload between the two writes of a hydrate can lose its reason, and a refresh between the two writes of a
  reload can leave an available row with a reason (`RegistryRuns.SplitHydrateDropsReason`,
  `RegistryRuns.RefreshContradictsReload`); when, are `RegistryRuns.SplitHydrateExactly` and
  `RegistryRuns.SplitStoreExactly`.
- A confirmed mode or model switch is stored so that the next open uses it
  (`crates/tjuaeui-ai-agent/src/session_agent.rs:2267-2268`), but it is only loaded together with an anchor:
  after a dead anchor was cleared the next open asks for what the configuration says
  (`SessionAnchor.ClearedAnchorHidesMode`). `SessionAnchor.ModeKeptExactly` and
  `SessionAnchor.ModelKeptExactly` say exactly when the switch reaches the next open.
- The head of `registry.rs` (lines 7-8) and the comment on `decode_row` say that the startup hydrate
  projects availability from stored snapshots without probing; `hydrate` probes
  (`crates/tjuaeui-ai-agent/src/registry.rs:255-259`). The model follows the code;
  `RegistryRuns.HydrateOverrulesSnapshot` is a row on which it matters and `AgentRows.HydrateAgreesExactly`
  says when it does not.
- `emit_finish` and `emit_error_data` are documented as atomic; the status update and the broadcast are two
  steps. A reset between them lets one turn see two broadcasts (`AgentRuntime.TwoBroadcastsInOneTurn`), and
  only that does (`AgentRuntime.SecondBroadcastIsLate`, `AgentRuntime.OneOwnBroadcastPerTurn`).

## Assumptions

- Tokens are 64 hex digits never handed out before, and the token hash is injective.
- Each call of the token service and of the lease registry is one atomic step; the lease clock does
  not run backwards.
- Factory results, probe results, PATH lookups, kill results, clocks and the dispatch result of a send are parameters.
- Repository writes succeed; the tables are maps.
- A clear collects the mapped conversations in one step, when it begins.
- Tool rows are upserted by call id, so a row's status is that of the latest frame for its call; frames with
  a blank call id are not persisted.
- Every frame reaches the persistence. The relay stops listening at Finish, so output that arrives between two
  turns is not persisted after all; what is said of rows applies to output that arrives while a turn is relayed.
- In `TaskTokens` a conversation belongs to one user, and all its tokens have the team scopes and generation.

## Model

| member | source | states |
|---|---|---|
| `PumpRuns.BoundariesConserved` | crates/tjuaeui-ai-agent/src/session_agent.rs:2135-2194 | Over every run, Finish, Error and SegmentBreak frames together are as many as TurnResult and Detached events |
| `PumpRuns.SegmentBreakExactly` | crates/tjuaeui-ai-agent/src/session_agent.rs:2018-2042 | A SegmentBreak is sent exactly for a clean, uncancelled TurnResult arriving while some subagent's latest update is non-terminal, and is then the whole answer |
| `PumpRuns.CanceledExactly` | crates/tjuaeui-ai-agent/src/session_agent.rs:2058-2090 | In every step, one Canceled frame per call id whose latest ToolCall/ToolResult of the turn is a ToolCall if the step ends the turn, and none otherwise |
| `PumpRuns.CanceledFirst` | crates/tjuaeui-ai-agent/src/session_agent.rs:2069-2090 | Within a step every Canceled frame precedes the Finish or Error |
| `PumpRuns.NamesExactly` | crates/tjuaeui-ai-agent/src/session_agent.rs:2378-2389 | Every tool frame of every run, including live output and cancellations, carries the name given by the turn's latest ToolCall for its id, empty if there was none |
| `PumpRuns.OutputExactly` | crates/tjuaeui-ai-agent/src/session_agent.rs:1874-1892 | A ToolOutputDelta is answered by one Running frame with all of that call's output of the turn, in order |
| `PumpRuns.OpenImpliesVisible` | crates/tjuaeui-ai-agent/src/session_agent.rs:2105-2120 | An open call implies that the turn showed something, so a blank turn cancels nothing |
| `PumpRuns.VisibleMeansDisplayed` | crates/tjuaeui-ai-agent/src/session_agent.rs:2398-2410 | A turn's events count as visible output exactly when a user-visible frame was sent for one of them |
| `PumpRuns.TipExactly` | crates/tjuaeui-ai-agent/src/session_agent.rs:2096-2113 | A coded tip is sent exactly for a turn-ending, non-error, uncancelled TurnResult of a turn that showed nothing; the step then sends that outcome's tip and the Finish, and nothing else |
| `PumpRuns.CrashExactly` | crates/tjuaeui-ai-agent/src/session_agent.rs:2539-2577 | A Detached is answered by an Error exactly when no turn-ending TurnResult came since the latest TurnStarted (or the beginning) and the exit is not a clean zero |
| `PumpRuns.ErrorExactly` | crates/tjuaeui-ai-agent/src/session_agent.rs:2510-2537 | A TurnResult is answered by an Error exactly if it is an error, was not cancelled and its text has a character that is not white space; the Error carries the text |
| `PumpRuns.CrashReport` | crates/tjuaeui-ai-agent/src/session_agent.rs:2556-2572 | The Error of a crash carries the exit and, unless it is blank, the summary |
| `PumpRuns.ResultExactly` | crates/tjuaeui-ai-agent/src/session_agent.rs:2492-2508 | A ToolResult is answered by one frame with its outcome, its remembered name and its joined text, if there is any |
| `PumpRuns.CrashAfterLaunchResult` | crates/tjuaeui-ai-agent/src/session_agent.rs:2038-2057 | If every result since the latest start was a suppressed launch result, an unclean exit is still reported as an Error |
| `PumpRuns.RowDuringTurn` | crates/tjuaeui-ai-agent/src/session_agent.rs:1872-1892 | While a turn is open, the persisted status of a call with a non-blank id follows its latest event |
| `PumpRuns.RunningAfterTurnExactly` | crates/tjuaeui-ai-agent/src/session_agent.rs:1837-1844 | After a turn's end a call the turn mentioned still shows Running exactly when its id is not blank and the turn's last word on it was output that arrived while no call of that id was open |
| `PumpRuns.StrayOutputStaysRunning` | crates/tjuaeui-ai-agent/src/session_agent.rs:1874-1892 | A concrete four-event run whose tool row stays Running after a clean Finish |
| `PumpRuns.AnyRun` | crates/tjuaeui-ai-agent/src/session_agent.rs:1860-2196 | The pump has an answer for every event sequence, so the statements about runs are not empty |
| `EventPump.Pump.constructor` | crates/tjuaeui-ai-agent/src/session_agent.rs:1816-1859 | The initial accumulators agree with the empty history |
| `EventPump.Pump.Handle` | crates/tjuaeui-ai-agent/src/session_agent.rs:1860-2195 | One loop iteration keeps the six accumulators and the session id equal to what the plain event history says, and extends the frame log by an answer the history calls for |
| `EventPump.Pump.AppendOutput` | crates/tjuaeui-ai-agent/src/session_agent.rs:1874-1892 | Live output: accumulate, mark the turn visible, send the cumulative text under the remembered name; nothing else moves |
| `EventPump.Pump.PublishCatalog` | crates/tjuaeui-ai-agent/src/session_agent.rs:1903-2011 | A catalog update moves no accumulator and sends a frame with every non-empty option unless modes and models are both empty, and a command frame unless there are no commands |
| `CatalogOptions.CurrentEfforts` | crates/tjuaeui-ai-agent/src/session_agent.rs:61-74 | The efforts of the current model if it is in the catalog, else of all models together |
| `CatalogOptions.UnionExactly` | crates/tjuaeui-ai-agent/src/session_agent.rs:65-73 | That union holds every effort some model advertises, once |
| `CatalogOptions.CurrentModelWins` | crates/tjuaeui-ai-agent/src/session_agent.rs:62-64 | The first model with the current id decides the efforts |
| `CatalogOptions.UnknownModelOffersAll` | crates/tjuaeui-ai-agent/src/session_agent.rs:65-73 | Without a known current model every effort is offered, once |
| `CatalogOptions.OfferedExactly` | crates/tjuaeui-ai-agent/src/session_agent.rs:1909-1978 | Which options are offered, with which selection and which values |
| `CatalogOptions.OptionsExactly` | crates/tjuaeui-ai-agent/src/session_agent.rs:1909-1978 | There is an option to send exactly if there are modes or models: efforts come with models only |
| `EventPump.Pump.TrackSubagent` | crates/tjuaeui-ai-agent/src/session_agent.rs:2018-2032 | A non-terminal update adds the subagent to the in-flight set, a terminal one removes it, nothing else touches the set |
| `EventPump.Pump.DrainOpenTools` | crates/tjuaeui-ai-agent/src/session_agent.rs:2074-2090 | In whatever order the table yields entries, every open call is cancelled exactly once under its own name and the table is empty afterwards |
| `EventPump.Pump.TurnBoundary` | crates/tjuaeui-ai-agent/src/session_agent.rs:2052-2127 | The status match: what each event resets, learns and sends, and the tip it leaves pending |
| `EventPump.Pump.StampToolName` | crates/tjuaeui-ai-agent/src/session_agent.rs:2378-2389 | A nameless tool frame gets the remembered name, a named one is remembered |
| `EventPump.Pump.ForwardOne` | crates/tjuaeui-ai-agent/src/session_agent.rs:2135-2193 | One translated frame: stamped, preceded by the pending tip if it is a Finish, replaced by a SegmentBreak if suppressed, given the session id otherwise |
| `EventPump.SessionOfExtend` | crates/tjuaeui-ai-agent/src/session_agent.rs:2018-2057 | In-flight set, result flag and session id are determined by the latest update per subagent, the latest start and the latest binding; no terminal clears the in-flight set and a suppressed result changes nothing |
| `EventPump.TurnOfExtend` | crates/tjuaeui-ai-agent/src/session_agent.rs:2061-2068 | The per-turn tables are determined by the latest call per id, the concatenated deltas and the latest lifecycle event per id; a delta opens no call |
| `EventPump.AnswerIsOwed` | crates/tjuaeui-ai-agent/src/session_agent.rs:1874-2194 | Every answer computed from the accumulators is the answer defined on the plain history |
| `SessionEvents.Translate` | crates/tjuaeui-ai-agent/src/session_agent.rs:2453-2731 | At most one frame per event; a Finish or Error exactly for TurnResult and Detached |
| `SessionEvents.EmptyTurnTip` | crates/tjuaeui-ai-agent/src/session_agent.rs:2419-2447 | Every outcome but a cancellation has a coded tip, informational exactly for a normal ending |
| `SessionEvents.EmptyTurnTipCode` | crates/tjuaeui-ai-agent/src/session_agent.rs:2419-2447 | Refusals, token and turn limits have codes of their own, every other ending the general one |
| `SessionEvents.ResultTextExtend` | crates/tjuaeui-ai-agent/src/session_agent.rs:2735-2746 | Texts are joined by line breaks, none before the first; other parts are left out |
| `Common.BlankExactly` | crates/tjuaeui-ai-agent/src/session_agent.rs:2526-2526 | A text trims to nothing exactly if every character is Unicode white space |
| `SessionAnchor.AnchoredExactly` | crates/tjuaeui-ai-agent/src/session_agent.rs:2210-2266 | The resume anchor is an id exactly when that id was the last one bound (or was there initially) and nothing later bound another or cleared it |
| `SessionAnchor.StoredExactly` | crates/tjuaeui-ai-agent/src/session_agent.rs:2247-2275 | A stored anchor, mode or model is a value exactly when that was the last one written (or was there initially) and nothing later wrote the column |
| `SessionAnchor.HarmlessEvents` | crates/tjuaeui-ai-agent/src/session_agent.rs:2221-2258 | Cancelled and clean results, process exits and BackendBound without an id change nothing that is stored |
| `SessionAnchor.FailedTurnExactly` | crates/tjuaeui-ai-agent/src/session_agent.rs:2210-2229 | A failed turn clears the anchor exactly if it was not cancelled and its text says that the session is lost, and else leaves it |
| `SessionAnchor.UnrecoverableExactly` | crates/tjuaeui-session/src/state.rs:363-377 | A text says so exactly if it contains one of four phrases |
| `SessionAnchor.DispatchExactly` | crates/tjuaeui-ai-agent/src/session_agent.rs:946-975 | A dispatch clears the anchor exactly if the session was not found, and else leaves it |
| `SessionAnchor.ModeKeptExactly` | crates/tjuaeui-ai-agent/src/session_agent.rs:1111-1116 | The next open asks for the last chosen mode, in the backend's own name, exactly if it has such a name and either the anchor was kept or the configured mode has the same name; said of the plain history |
| `SessionAnchor.ModelKeptExactly` | crates/tjuaeui-ai-agent/src/session_agent.rs:1117-1120 | The next open asks for the last chosen model exactly if it is not empty and either the anchor was kept or the configured model is the same |
| `SessionAnchor.ClearedAnchorHidesMode` | crates/tjuaeui-conversation/src/session_context.rs:316-329 | A three-step history after which a mode is stored but the next open asks for none |
| `SessionAnchor.SessionStore.PersistSideEffects` | crates/tjuaeui-ai-agent/src/session_agent.rs:2236-2282 | The stored anchor, mode and model keep agreeing with the history over every observed event |
| `SessionAnchor.SessionStore.SaveRuntimeState` | crates/tjuaeui-db/src/repository/sqlite_acp_session.rs:126-177 | A partial update: absent values leave the stored ones, a missing row stays missing |
| `SessionAnchor.SessionStore.AfterDispatch` | crates/tjuaeui-ai-agent/src/session_agent.rs:940-975 | They do over every dispatch; SessionNotFound clears the anchor |
| `SessionAnchor.SessionStore.UpdateSessionId` | crates/tjuaeui-db/src/repository/sqlite_acp_session.rs:68-88 | Writing or clearing the id of a conversation without a row changes nothing |
| `SessionAnchor.SessionStore.Open` | crates/tjuaeui-ai-agent/src/session_agent.rs:1087-1122 | The next open is Resume with the anchor the history calls for, Fresh if there is none; mode and model are the stored ones if there is an anchor, else the configured ones, the mode normalised and empty values dropped |
| `EnvTemplate.Expand` | crates/tjuaeui-ai-agent/src/session_agent.rs:1505-1526 | The scanning loop returns the substitution of the input's template, None if it has none or a lookup fails; it ends because the rest shrinks |
| `EnvTemplate.ReferenceExactly` | crates/tjuaeui-ai-agent/src/session_agent.rs:1509-1519 | A reference expands to the variable's value exactly if its name consists of ASCII letters, digits and underscores and does not begin with a digit; any other name gives None |
| `EnvTemplate.OpenReference` | crates/tjuaeui-ai-agent/src/session_agent.rs:1512-1513 | A reference that is not closed gives None |
| `EnvTemplate.PlainText` | crates/tjuaeui-ai-agent/src/session_agent.rs:1523-1525 | Text in which no reference begins is left as it is |
| `EnvTemplate.ExpandsTemplates` | crates/tjuaeui-ai-agent/src/session_agent.rs:1505-1526 | For every well-formed template, expanding its printed text substitutes the looked-up values, and gives None exactly when some name's lookup does |
| `EnvTemplate.ExpandsOnlyTemplates` | crates/tjuaeui-ai-agent/src/session_agent.rs:1505-1526 | Whatever expands is the printed text of exactly one well-formed template; looked-up values are never scanned |
| `EnvTemplate.ParsePrint` | crates/tjuaeui-ai-agent/src/session_agent.rs:1509-1515 | Every well-formed template is recovered from its printed text |
| `EnvTemplate.PrintParse` | crates/tjuaeui-ai-agent/src/session_agent.rs:1509-1515 | Every text that parses is a well-formed template's printed text |
| `TaskProtocol.StepKeeps` | crates/tjuaeui-ai-agent/src/task_manager.rs:161-280 | Every atomic step of every call keeps the protocol invariant |
| `TaskProtocol.ScheduleKeeps` | crates/tjuaeui-ai-agent/src/task_manager.rs:161-280 | The invariant holds after every interleaving |
| `TaskRuns.OneBuildPerSlot` | crates/tjuaeui-ai-agent/src/task_manager.rs:189-201 | At any time at most one call runs the factory for a slot |
| `TaskRuns.CellIsWriteOnce` | crates/tjuaeui-ai-agent/src/task_manager.rs:189-201 | Once a slot holds an agent it holds that agent forever |
| `TaskRuns.SameAgent` | crates/tjuaeui-ai-agent/src/task_manager.rs:177-202 | Two callers that succeed, at whatever times, get the same agent exactly if they waited on the same slot |
| `TaskRuns.RemovedStaysOut` | crates/tjuaeui-ai-agent/src/task_manager.rs:205-280 | A slot that is out of the map never returns to it |
| `TaskRuns.AskedToDieOnce` | crates/tjuaeui-ai-agent/src/task_manager.rs:205-280 | No agent is asked to die twice by the manager |
| `TaskRuns.PermitsNeverLeak` | crates/tjuaeui-ai-agent/src/task_manager.rs:189-201 | After every schedule, a slot's permit is held by a call that is building on it |
| `TaskRuns.NeverStuck` | crates/tjuaeui-ai-agent/src/task_manager.rs:161-280 | A call that has not returned can take a step, or waits for one build of another call after which, however it ends, it can |
| `TaskTokens.ReturnedTokenExactly` | crates/tjuaeui-ai-agent/src/task_manager.rs:125-203 | In every interleaving, the agent a team call gets was started with the token its builder was last issued, and that token is the conversation's live one exactly if the conversation was not revoked since that issue |
| `TaskTokens.LiveSince` | crates/tjuaeui-ai-agent/src/runtime_token.rs:75-106 | A live token stays live exactly until its conversation is revoked, and never comes back |
| `TaskTokens.HoldsLatest` | crates/tjuaeui-conversation/src/service.rs:3041-3057 | A team call holds the token of its latest issue, which was its conversation's live one then |
| `TaskTokens.RebuildCarriesNewToken` | crates/tjuaeui-ai-agent/src/task_manager.rs:174-175 | An agent a rebuilding call builds itself carries a token issued after the call revoked the old one |
| `TaskTokens.KillRevokesUnderBuild` | crates/tjuaeui-ai-agent/src/task_manager.rs:205-224 | A concrete schedule: a kill revokes the token a build was started with and the caller gets the agent |
| `TaskRuns.WaitResolves` | crates/tjuaeui-ai-agent/src/task_manager.rs:226-265 | At the moment a kill_and_wait that removed a slot resolves, the slot is out of the map and either its agent was asked to die or it holds no agent and no build is running on it |
| `TaskRuns.RemoverRemoves` | crates/tjuaeui-ai-agent/src/task_manager.rs:205-280 | When a kill, kill_and_wait or clear is through, the slot each of its conversations had when it began is out of the map, and the agent it had then was asked to die, or another call that removed the slot is about to ask |
| `TaskRuns.ClearEmpties` | crates/tjuaeui-ai-agent/src/task_manager.rs:267-280 | A clear that is through has taken out of the map everything that was in it when it began |
| `TaskRuns.SlotIsReused` | crates/tjuaeui-ai-agent/src/task_manager.rs:166-202 | A get_or_build_task that finds its conversation's slot empty or with a capable agent answers from that slot, unless it fails or somebody else removes it |
| `TaskRuns.FailsExactly` | crates/tjuaeui-ai-agent/src/task_manager.rs:161-203 | A get_or_build_task ends without an agent exactly if its factory or its kill failed or its caller gave up |
| `TaskTypes.SatisfiesExactly` | crates/tjuaeui-ai-agent/src/types.rs:103-110 | A version is enough for itself and every lower one, any version for no version, and no version for none |
| `TaskRuns.CapableExactly` | crates/tjuaeui-ai-agent/src/task_manager.rs:161-203 | In every interleaving, the agent a get_or_build_task returns satisfies its request exactly if no other call's build for insufficient capabilities completed on its slot after its capability check |
| `TaskRuns.CapableUnlessOverlapped` | crates/tjuaeui-ai-agent/src/task_manager.rs:166-202 | In particular it satisfies the request unless another call on the same conversation completed a build after the check; other conversations do not matter |
| `TaskRuns.BuiltOnce` | crates/tjuaeui-ai-agent/src/task_manager.rs:189-201 | Every agent was built on its slot by one call, for the capabilities that call asked for |
| `TaskRuns.AskedToDieExactly` | crates/tjuaeui-ai-agent/src/task_manager.rs:219-221 | An agent of a removed slot is asked to die exactly if it was in the cell when the remover read it for the last time: at once for kill, clear and the kill before a rebuild, after the build in flight for kill_and_wait |
| `TaskRuns.LateAgentsAreNeverKilled` | crates/tjuaeui-ai-agent/src/task_manager.rs:205-280 | Once the remover of a slot is done with it, nobody ever asks an agent of that slot to die that was not asked by then |
| `TaskRuns.KillDoesNotWait` | crates/tjuaeui-ai-agent/src/task_manager.rs:267-280 | Concrete schedules, one for kill and one for clear: the call returns during a build, whose agent then answers its caller and stays alive outside the map |
| `TaskRuns.OverlapIgnoresCapabilities` | crates/tjuaeui-ai-agent/src/task_manager.rs:166-202 | A concrete schedule: overlapping callers can get an agent built for a less demanding request |
| `TaskManager.WorkerTaskManager.Kill` | crates/tjuaeui-ai-agent/src/task_manager.rs:205-224 | Removes exactly that conversation, revokes its tokens only if it had a slot, asks its agent to die if there is one, fails exactly when that fails |
| `TaskManager.WorkerTaskManager.RefreshRuntimeToken` | crates/tjuaeui-ai-agent/src/task_manager.rs:125-150 | Only a team task with a token service gets a token; it replaces every earlier entry |
| `TaskManager.WorkerTaskManager.GetOrBuildTask` | crates/tjuaeui-ai-agent/src/task_manager.rs:161-203 | Without overlap: the answer is stored and capable enough, the factory runs exactly when it has to, and on a team rebuild it sees exactly one runtime token and every other variable as it was; the token validates for both team scopes, is never used before unless the options name another conversation with a live token that covers it, and every earlier token of the conversation is unknown; without a rebuild no token changes |
| `TaskManager.RevokeThenIssue` | crates/tjuaeui-ai-agent/src/runtime_token.rs:86-105 | After revoking a conversation and later issuing it an unused token, that token validates and every earlier one is unknown, whatever calls on other conversations come in between and afterwards |
| `TaskManager.RevokedForGood` | crates/tjuaeui-ai-agent/src/runtime_token.rs:170-173 | Tokens of a revoked conversation stay unknown whatever calls follow, as long as it is issued new tokens only |
| `RuntimeEnv.ReplacedOnce` | crates/tjuaeui-ai-agent/src/task_manager.rs:142-149 | Replacing a variable leaves exactly one entry for it and every other variable's entries as they were |
| `RuntimeEnv.ContextExactly` | crates/tjuaeui-ai-agent/src/types.rs:55-86 | Each context variable has its given value once, or no entry; every other variable is untouched |
| `RuntimeEnv.ContextByName` | crates/tjuaeui-ai-agent/src/types.rs:91-96 | The five context variables by their names |
| `RuntimeEnv.ApplyConversationRuntimeContext` | crates/tjuaeui-ai-agent/src/types.rs:47-88 | Stamping the context does that, sets the capability to version 2 and changes nothing else |
| `TaskManager.WorkerTaskManager.CollectIdle` | crates/tjuaeui-ai-agent/src/task_manager.rs:286-330 | Exactly the initialised ACP tasks with status None or Finished, idle at the scan's clock reading for strictly longer than the threshold and without a lease, in a map that is never pruned, expiring after the later reading at which it was asked for; each once |
| `RuntimeTokens.RuntimeTokenService.OneLivePerPair` | crates/tjuaeui-ai-agent/src/runtime_token.rs:75-106 | Two stored tokens of the same user and conversation are the same, so a scan does not depend on table order |
| `RuntimeTokens.RuntimeTokenService.ExistingToken` | crates/tjuaeui-ai-agent/src/runtime_token.rs:108-131 | In whatever order the table is scanned, the result is the pair's live token if that covers the request, else None |
| `RuntimeTokens.RuntimeTokenService.Issue` | crates/tjuaeui-ai-agent/src/runtime_token.rs:75-106 | Reuses the live token that covers the request, else replaces it; the table stays equal to the history's live tokens |
| `RuntimeTokens.RuntimeTokenService.Validate` | crates/tjuaeui-ai-agent/src/runtime_token.rs:133-163 | Accepts exactly the token returned by the pair's latest issue, not revoked since, with matching scope and generation; each error exactly when it applies |
| `RuntimeTokens.RuntimeTokenService.InvalidateConversation` | crates/tjuaeui-ai-agent/src/runtime_token.rs:165-168 | Revokes by user and conversation and keeps the table equal to the history |
| `RuntimeTokens.RuntimeTokenService.InvalidateConversationId` | crates/tjuaeui-ai-agent/src/runtime_token.rs:170-173 | Revokes by conversation and keeps the table equal to the history |
| `RuntimeTokens.RuntimeTokenService.InvalidateGeneration` | crates/tjuaeui-ai-agent/src/runtime_token.rs:175-180 | Revokes by conversation and generation and keeps the table equal to the history |
| `RuntimeTokens.LiveExtend` | crates/tjuaeui-ai-agent/src/runtime_token.rs:75-180 | How one more call changes a pair's live token |
| `RuntimeTokens.InvalidationExactly` | crates/tjuaeui-ai-agent/src/runtime_token.rs:165-180 | What each of the three invalidations takes away, and that it takes nothing else |
| `RuntimeTokens.CoversExactly` | crates/tjuaeui-ai-agent/src/runtime_token.rs:116-121 | A live token is good enough exactly if its generation is the one asked for and it has all the scopes |
| `RuntimeTokens.ReplaceKeeps` | crates/tjuaeui-ai-agent/src/runtime_token.rs:90-105 | Dropping the pair's tokens and inserting an unused one keeps table and history equal |
| `ActiveLeases.ActiveLeaseRegistry.Renew` | crates/tjuaeui-ai-agent/src/active_lease.rs:24-28 | Sets the saturated expiry and keeps the pruned map consistent with the never-pruned one |
| `ActiveLeases.ActiveLeaseRegistry.RenewMany` | crates/tjuaeui-ai-agent/src/active_lease.rs:30-38 | Counts every listed id, repeated ones too, and gives exactly those the new expiry |
| `ActiveLeases.RenewedExactly` | crates/tjuaeui-ai-agent/src/active_lease.rs:30-38 | A lookup after a renewal: the new expiry for listed ids, the old lease for others |
| `ActiveLeases.Saturate` | crates/tjuaeui-ai-agent/src/active_lease.rs:25-25 | The nearest representable number |
| `ActiveLeases.ActiveLeaseRegistry.ActiveUntil` | crates/tjuaeui-ai-agent/src/active_lease.rs:40-48 | With a clock that does not run backwards, answers as a map that is never pruned would |
| `RegistryRuns.RunConsistent` | crates/tjuaeui-ai-agent/src/registry.rs:193-224 | Over every run of hydrate, refresh, reload, handshake, recheck and foreign writes: a stored reason belongs to a cached unavailable row and a resolved command to an available one |
| `RegistryRuns.MissingAfterHydrate` | crates/tjuaeui-ai-agent/src/registry.rs:1088-1094 | From a hydrate on, while handshakes only reach cached rows, every unavailable row has a reason and is reported Missing |
| `RegistryRuns.RunExplained` | crates/tjuaeui-ai-agent/src/registry.rs:193-224 | The same from any state in which it holds |
| `RegistryRuns.HandshakeExplainsExactly` | crates/tjuaeui-ai-agent/src/registry.rs:193-215 | A handshake leaves an unavailable row without a reason exactly when it is the one to cache a row whose stored snapshot gives none |
| `RegistryRuns.RememberedExactly` | crates/tjuaeui-ai-agent/src/registry.rs:874-899 | Exactly which rows the stored snapshot calls unavailable without a reason |
| `RegistryRuns.OverlappingRefreshExactly` | crates/tjuaeui-ai-agent/src/registry.rs:354-392 | A refresh that read the cache at one state of a run and commits at a later one keeps the caches consistent exactly if no row that got a reason was dropped by the operations in between, and explained exactly if every row they added is available |
| `RegistryRuns.RefreshOrphansReason` | crates/tjuaeui-ai-agent/src/registry.rs:380-392 | A run in which a deleted row is reloaded during a refresh and a reason without a row remains |
| `RegistryRuns.RefreshDropsReason` | crates/tjuaeui-ai-agent/src/registry.rs:380-392 | A run in which a new row is reloaded during a refresh and loses the reason it got |
| `RegistryRuns.HandshakeHidesReason` | crates/tjuaeui-ai-agent/src/registry.rs:193-215 | A run from a hydrate in which a handshake caches an unavailable row without a reason, reported Unchecked |
| `RegistryRuns.SplitHydrateExactly` | crates/tjuaeui-ai-agent/src/registry.rs:278-280 | If operations run between a hydrate's replacing the cache and its replacing the reasons, the caches are consistent exactly if every row it gave a reason is cached and unavailable by then, and explained exactly if it gave a reason to every row that is |
| `RegistryRuns.SplitHydrateDropsReason` | crates/tjuaeui-ai-agent/src/registry.rs:278-280 | A run in which a reload between those writes loses its reason |
| `RegistryRuns.SplitStoreExactly` | crates/tjuaeui-ai-agent/src/registry.rs:417-418 | If operations run between the two writes of a reload or handshake, the caches are consistent exactly if no reason turned up meanwhile for a row that is available |
| `RegistryRuns.RefreshContradictsReload` | crates/tjuaeui-ai-agent/src/registry.rs:417-418 | A run in which a refresh between those writes leaves an available row with a reason |
| `RegistryRuns.SplitDropConsistent` | crates/tjuaeui-ai-agent/src/registry.rs:402-411 | If operations run between the two removals of a reload, the caches are consistent |
| `RegistryRuns.HydrateDetermined` | crates/tjuaeui-ai-agent/src/registry.rs:255-281 | For fixed probe results hydrate has one outcome, whatever the completion order |
| `RegistryRuns.SlowRowIsRequeued` | crates/tjuaeui-ai-agent/src/registry.rs:293-341 | After a recheck that timed out or exceeded the threshold, the next hydrate queues the still resolvable row again and comes out the same whatever an inline probe of it would say, whatever but rechecks and foreign writes happened in between |
| `AgentRows.InlineProbeMattersExactly` | crates/tjuaeui-ai-agent/src/registry.rs:813-861 | A row's verdict depends on the version probe exactly for available builtin rows with a command and without slow history |
| `RegistryRuns.SettleWrites` | crates/tjuaeui-db/src/repository/sqlite_agent_metadata.rs:484-523 | A recheck rewrites the stored snapshot of exactly the pending rows, every column of it |
| `RegistryRuns.SnapshotSurvives` | crates/tjuaeui-ai-agent/src/registry.rs:396-420 | Hydrate, refresh, reload and handshake leave stored snapshots alone |
| `RegistryRuns.HydrateExplains` | crates/tjuaeui-ai-agent/src/registry.rs:813-861 | After a hydrate the caches are consistent and every unavailable row has a reason |
| `RegistryRuns.RefreshExplains` | crates/tjuaeui-ai-agent/src/registry.rs:354-392 | After a refresh they are too |
| `AgentRows.ResolveExactly` | crates/tjuaeui-ai-agent/src/registry.rs:1397-1438 | A row resolves exactly if it is enabled, names a program and everything it needs is on the PATH, and then to that program; otherwise there is a reason |
| `AgentRows.ReasonExactly` | crates/tjuaeui-ai-agent/src/registry.rs:1397-1438 | The reason names something that is missing, and nothing looked for before it is |
| `AgentRows.InlineProbeExactly` | crates/tjuaeui-ai-agent/src/registry.rs:830-861 | What each outcome of an inline probe does to availability, snapshot, reason, recheck list and status |
| `AgentRows.UnprobedExactly` | crates/tjuaeui-ai-agent/src/registry.rs:813-828 | A row that is not probed inline keeps its snapshot, and is queued exactly if only its slow history kept it from being probed |
| `AgentRows.SnapshotSaysExactly` | crates/tjuaeui-ai-agent/src/registry.rs:874-927 | What the stored snapshot alone calls available |
| `AgentRows.ReasonIsRemembered` | crates/tjuaeui-ai-agent/src/registry.rs:929-960 | A reason recorded under its code is given back by the stored snapshot, a missing command under the name of the recorded binary |
| `AgentRows.NamelessReason` | crates/tjuaeui-ai-agent/src/registry.rs:944-957 | What is remembered for the codes that name nothing |
| `AgentRows.StatusExactly` | crates/tjuaeui-ai-agent/src/registry.rs:1088-1106 | Which management status a row is shown with |
| `RegistryRuns.HydrateCaches` | crates/tjuaeui-ai-agent/src/registry.rs:248-281 | A hydrate caches exactly the decodable rows; which of them are available and which are queued |
| `RegistryRuns.RefreshKeepsRows` | crates/tjuaeui-ai-agent/src/registry.rs:354-392 | A refresh keeps every cached row, changes only whether and where it was found, and finds it exactly if it is installed and not refuted |
| `AgentRows.ProbedExactly` | crates/tjuaeui-ai-agent/src/registry.rs:791-861 | A hydrate makes a row available exactly if it needs no program or everything it needs is on the PATH, and no inline probe proves it unusable |
| `AgentRows.HydrateAgreesExactly` | crates/tjuaeui-ai-agent/src/registry.rs:255-259 | A hydrate and the stored snapshot agree on an enabled row with a program exactly if it is installed and not refuted just when it was checked before and not found missing |
| `RegistryRuns.HydrateOverrulesSnapshot` | crates/tjuaeui-ai-agent/src/registry.rs:255-259 | A row on which they differ |
| `AgentRows.ReprobedCoherent` | crates/tjuaeui-ai-agent/src/registry.rs:791-861 | A located and probed row is available exactly if it has no reason, and only an available one resolves or waits for a recheck |
| `RegistryRuns.RecheckAgreesExactly` | crates/tjuaeui-ai-agent/src/registry.rs:293-341 | After a recheck, cache and table hold the same snapshot of a pending row exactly if the cache held no guidance for it and no timestamp of the opposite outcome |
| `RegistryRuns.RecheckShows` | crates/tjuaeui-ai-agent/src/registry.rs:299-339 | After a recheck, table and cache record its outcome for every pending row, with the timestamp of that outcome, and the row is shown online or offline accordingly |
| `RegistryRuns.RecheckLeavesOthers` | crates/tjuaeui-ai-agent/src/registry.rs:294-298 | A row that was not pending keeps its snapshot |
| `AgentRows.RecheckIsRemembered` | crates/tjuaeui-ai-agent/src/registry.rs:874-927 | The snapshot a recheck stored says missing exactly if the program was not found, else online or offline as found |
| `AgentRows.FailureTexts` | crates/tjuaeui-ai-agent/src/cli_probe.rs:37-64 | Codes and texts under which a failed probe is recorded |
| `RegistryRuns.RecheckForgetsInTable` | crates/tjuaeui-ai-agent/src/registry.rs:315-339 | A run in which they differ: a failing recheck of a row that was online once |
| `AgentRows.SlowRecheckIsRemembered` | crates/tjuaeui-ai-agent/src/registry.rs:803-811 | A recheck is slow history exactly if it timed out or exceeded the threshold |
| `AgentRows.OnlyStartupIsSlow` | crates/tjuaeui-ai-agent/src/registry.rs:803-811 | The latency of a check that was not run at startup counts for nothing |
| `AgentRegistry.Registry.Collect` | crates/tjuaeui-ai-agent/src/registry.rs:255-274 | In whatever order probes complete, the cache, the reasons and the sorted recheck list are functions of the verdicts |
| `AgentRegistry.Registry.Hydrate` | crates/tjuaeui-ai-agent/src/registry.rs:248-281 | Reload: every decodable row located and probed, caches and recheck list replaced |
| `AgentRegistry.Registry.RefreshAvailability` | crates/tjuaeui-ai-agent/src/registry.rs:354-392 | Availability and resolved command of every cached row recomputed, snapshots untouched, reasons and recheck list replaced |
| `AgentRegistry.Registry.ReloadOne` | crates/tjuaeui-ai-agent/src/registry.rs:396-420 | One row relocated, or dropped with its reason if it is gone or cannot be decoded |
| `AgentRegistry.Registry.ApplyHandshake` | crates/tjuaeui-ai-agent/src/registry.rs:153-224 | The payload is stored; a cached row keeps its availability, command and reason |
| `AgentRegistry.Registry.RunSlowProbeRecheck` | crates/tjuaeui-ai-agent/src/registry.rs:293-341 | Every pending row settled in the table and in the cache, list emptied |
| `SortedIds.SortedUnique` | crates/tjuaeui-ai-agent/src/registry.rs:273-273 | There is only one sorted list of a given set of ids |
| `SortedIds.LessExactly` | crates/tjuaeui-ai-agent/src/registry.rs:273-273 | The order is lexicographic |
| `AgentRuntime.FinishedPersists` | crates/tjuaeui-ai-agent/src/agent_runtime.rs:88-95 | From the moment the status is Finished it stays so until a reset |
| `AgentRuntime.OneWinPerTurn` | crates/tjuaeui-ai-agent/src/agent_runtime.rs:111-149 | Between two finish or error calls that won there is a reset |
| `AgentRuntime.BroadcastsWithinWins` | crates/tjuaeui-ai-agent/src/agent_runtime.rs:111-149 | In every interleaving of locked updates and later broadcasts, broadcasts never outnumber wins |
| `AgentRuntime.InOwnTurnExactly` | crates/tjuaeui-ai-agent/src/agent_runtime.rs:109-126 | A broadcast lands in the turn its call finished exactly if no reset comes between the locked update and the broadcast |
| `AgentRuntime.SecondBroadcastIsLate` | crates/tjuaeui-ai-agent/src/agent_runtime.rs:111-149 | If two broadcasts have no reset between them, a reset came between one of their wins and the first of them |
| `AgentRuntime.OneOwnBroadcastPerTurn` | crates/tjuaeui-ai-agent/src/agent_runtime.rs:111-149 | At most one broadcast per turn belongs to a call that finished that turn |
| `AgentRuntime.TwoBroadcastsInOneTurn` | crates/tjuaeui-ai-agent/src/agent_runtime.rs:109-126 | A concrete interleaving in which one turn sees two broadcasts, the second left over from the turn before |
| `AgentRuntime.AgentRuntime.TransitionTo` | crates/tjuaeui-ai-agent/src/agent_runtime.rs:88-95 | A transition out of Finished is ignored, any other is made |
| `AgentRuntime.AgentRuntime.ResetForNewTurn` | crates/tjuaeui-ai-agent/src/agent_runtime.rs:100-103 | A reset always takes effect |
| `AgentRuntime.AgentRuntime.Claim` | crates/tjuaeui-ai-agent/src/agent_runtime.rs:112-119 | The locked half wins exactly if the turn was unfinished, and leaves it Finished |
| `AgentRuntime.AgentRuntime.Broadcast` | crates/tjuaeui-ai-agent/src/agent_runtime.rs:120-126 | The other half broadcasts exactly if the call won |
| `SkillReference.RoundTripExactly` | crates/tjuaeui-api-types/src/skill.rs:48-62 | Parsing a printed identity gives it back exactly when its namespace has no colon and its slug is not empty |
| `SkillReference.PrintParsed` | crates/tjuaeui-api-types/src/skill.rs:48-62 | Printing whatever was parsed gives the string back |
| `SkillReference.ParsesExactly` | crates/tjuaeui-api-types/src/skill.rs:52-62 | A text parses exactly if it is one of the four source names, a namespace without a colon and a non-empty slug, joined by colons |
| `SkillReference.ReferenceNames` | crates/tjuaeui-api-types/src/skill.rs:16-23 | The names of the sources in references |
| `SkillReference.SplitJoined` | crates/tjuaeui-api-types/src/skill.rs:53-53 | Splitting three joined pieces, the first two free of colons, gives them back |
| `SkillReference.JoinSplit` | crates/tjuaeui-api-types/src/skill.rs:53-53 | Whatever splits in three is the pieces joined, the first two free of colons |

## Left out

- PumpRuns.RowDuringTurn: speaks of calls the current turn mentions; rows of earlier turns are covered by the turn in which they were mentioned. Whether a relay is listening is not modelled.
- PumpRuns.RunningAfterTurnExactly: takes output that arrives between two turns for persisted, which it is not, because the relay is not modelled.
- SessionEvents.Translate: the payloads of permission cards, plans, usage and of error classification are opaque; an upstream error carries its text, a disconnect its exit and summary.
- RegistryRuns.OverlappingRefreshExactly: one refresh, hydrate, reload or handshake at a time is split into its reads and writes; the operations that run in between are atomic.
- AgentRegistry.Registry.ApplyHandshake: the handshake is an opaque payload; merging and enrichment of config options are not modelled.
- The coarse status and last-activity time of the session runtime: one assignment per event.
- Mode aliases: the normalisation of a requested mode is a parameter of `SessionAnchor.SessionStore.Open`.
- Names, labels and descriptions of config options and commands, and their JSON shapes.
- The Start frame and content blocks of `send_message`.
- Waiting for processes to exit after they were asked to die, and process reaping on drop.
- Command and environment overrides in row decoding, visibility filters, diagnostics and guidance texts of the registry.
- Running `--version`, searching the PATH, timeouts and concurrency limits of probes.
- The relay, the ACP and CLI agent managers, the idle scanner's loop, MCP server conversion, DTO definitions, HTTP routes and the databases themselves.
