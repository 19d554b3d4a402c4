# Verified models of KodaX's protocols, printers and parsers

Dafny models of the parts of KodaX where order, state or text formats carry the meaning,
with proofs of what each part is for. Everything between two `await`s is one atomic step;
an `await` may settle at any time, with a value or an error, and all interleavings count.
Code that changes objects step by step is written as classes and loops; each of their
methods is proved equal to a step of a functional machine, and the machine is what the
whole-history theorems speak about. `GateHistory`, `StreamViews`, `SurfaceAuthority`, `PathLaws`,
`PolicyAdmission` and `ConfigAdmission` tell what the definitions compute in other terms than theirs:
by the steps that happened, the frames a server sent, the authority granted or the value given.

| component | files |
|---|---|
| provider permits and lanes | `EvalPolicy`, `EvalAliases`, `ProviderGate` (machine), `GateHistory`, `HarnessGate` (classes) |
| provider worker pool | `WorkerPool` (grouping, machine), `HarnessPool` (class), `Statistics` |
| A2A event stream | `EventStream` (decoder), `EventEncoding` (writer), `StreamArtifacts`, `A2AStream`, `StreamViews` |
| canonical JSON | `JsonText` (printer, reader), `StableJson`, `HashInput`, `Sorting`, `JsText` |
| sandboxed scripts | `ShellQuote`, `PromiseChain` (machine), `ScriptRuns` (class) |
| Runtime agent bindings | `AgentBindings`, `ToolPolicy`, `PolicyAdmission`, `PolicyRevision`, `ToolSurface`, `SurfaceAuthority` |
| A2A registrations, daemon events | `Reconcile`, `EventBridge` |
| configuration | `PosixPath`, `PathLaws`, `ConfigParser`, `ConfigAdmission`, `ConfigFixedPoint`, `UnstableDocuments`, `ConfigRoundTrip` |
| terminal | `TerminalOutput` |

Seven properties that one would expect of this code do not hold everywhere. Each is stated with the
exact condition under which it does, and with an input for which it does not:

* A parsed A2A configuration parses to itself exactly when its normalised script paths are still
  distinct and neither they nor the fixed workspace root end in white space
  (`ConfigFixedPoint.FixedPoint`; whole documents that do not: `UnstableDocuments.UnstableSpelling`,
  `UnstableDocuments.UnstableScript`, `UnstableDocuments.UnstableRoot`).
* A stream frame that names another context is refused, unless it is a well-formed message of this
  task: nobody compares a message's context (`A2AStream.ForeignContext`,
  `A2AStream.ForeignMessageEndsStream`).
* A tool policy has the same normal form in every order of its entries exactly when no two keys of one
  of its maps tie under `localeCompare` (`ToolPolicy.OrderFree`, `ToolPolicy.TiedServers`).
* Widening a tool policy never removes a tool, but can make resolution fail, exactly when a name it
  adds has no tool behind it (`ToolSurface.Monotone`, `ToolSurface.WideningFails`,
  `ToolSurface.ShadowedReadFails`).
* A failing bind or lookup can strand a scope, and a scope whose `dispose` throws strands its runner;
  nothing else is ever lost (`AgentBindings.LossExactly`, `AgentBindings.FailedBindStrandsScope`,
  `AgentBindings.FailedLookupStrandsScope`, `AgentBindings.FailedDisposeStrandsRunner`).
* No script run is inside when the snapshot root is deleted, unless it was submitted after `dispose`
  began: an overlap can still come about exactly when such a run is not done, and until the root goes
  one more submission always makes it possible (`ScriptRuns.DeleteOverlaps`,
  `ScriptRuns.SubmissionCanOverlap`, `ScriptRuns.LateRunOverlapsDelete`).
* An event bridge forwards nothing once it is closed, unless its run id is set only then and events of
  that run arrived before (`EventBridge.LateForwarding`, `EventBridge.CloseBeforeRunId`).

One smaller observation is proved too: an undefined member prints like a null one in `stableJson`
(`StableJson.UndefinedCollides`) and like an absent one in a revision (`HashInput.AbsentIsUndefined`).

## Model

| member | source | states |
|---|---|---|
| EvalAliases.TableIsConsistent | benchmark/harness/aliases.ts:68-118 | the alias table gives each lane one provider and each provider one limit of at least 1 |
| EvalAliases.LanesShared | benchmark/harness/aliases.ts:68-118 | two aliases share a lane exactly when they share a provider and, on `ark-coding`, a model; that provider allows three calls at once, every other one |
| ProviderGate.InvOverRuns | benchmark/harness/harness.ts:46-85 | every interleaving of any number of calls keeps the lane, permit and request-log invariants |
| ProviderGate.PermitSafety | benchmark/harness/harness.ts:49-69 | at most `limit` permits are out per provider; `active` counts exactly the holders, woken ones included; a call waits only when all are out; the map entry exists exactly while some call captured it |
| ProviderGate.PermitFifo | benchmark/harness/harness.ts:54-67 | permits are granted in the order requested and the queue is exactly the ungranted requests: no barging, none lost |
| ProviderGate.LaneSafety | benchmark/harness/harness.ts:71-85 | per lane one call is inside, everything that arrived earlier has settled (thrown or not) and everything later waits; the lane's entry exists exactly while a call of it is unfinished |
| ProviderGate.Progress | benchmark/harness/harness.ts:49-85 | no deadlock of lane mutex and semaphore: with an unfinished call some call can move |
| ProviderGate.QuiescentIsClean | benchmark/harness/harness.ts:49-85 | when no call can move all have settled, both maps are empty and every requested permit was granted |
| ProviderGate.RunsTerminate | benchmark/harness/harness.ts:49-85 | a run over n arriving calls has at most 6n steps |
| GateHistory.CallHistory | benchmark/harness/harness.ts:49-85 | told by the steps of any run: each call keeps the policy it arrived with, enters once, has exactly one ending when it is over, and settles as its provider call ended, thrown or not |
| GateHistory.AskedInOrder | benchmark/harness/harness.ts:54-77 | permits are requested in the order in which the calls passed their lanes |
| GateHistory.LaneOpens | benchmark/harness/harness.ts:71-79 | in any reachable state a call can pass its gate exactly when it waits there and every earlier call of its lane has settled |
| HarnessGate.PermitState.GiveBack | benchmark/harness/harness.ts:64-66 | a returned permit goes straight to the longest waiter, or else lowers `active` |
| HarnessGate.Gate.Arrive | benchmark/harness/harness.ts:72-77 | registers the new tail behind the previous one: the machine's arrival step |
| HarnessGate.Gate.Enter | benchmark/harness/harness.ts:54-60 | creates or reuses the shared record in place and takes a permit or queues: the machine's step |
| HarnessGate.Gate.Finish | benchmark/harness/harness.ts:63-68 | hands over or returns the permit and removes an idle record: the machine's step |
| HarnessGate.Gate.Release | benchmark/harness/harness.ts:81-84 | deletes the lane's entry only when it is still this call's tail, then resolves it: the machine's step |
| HarnessGate.StoredRecordUsed | benchmark/harness/harness.ts:54-56 | a stored record is used whatever new one is offered, so `Gate.Enter` is the machine's step for every fresh record |
| HarnessGate.ReadyToRun | benchmark/harness/harness.ts:46-85 | in every state the invariants allow, the preconditions of these methods hold: a stored or captured record exists, and a running call's record has a permit out |
| WorkerPool.GroupJobs | benchmark/harness/harness.ts:511-523 | grouping puts each job once, in its own provider's and lane's queue, queues in input order, no provider or lane twice, both in the order of their first jobs, each provider with the limit of its first |
| WorkerPool.ReachableInv | benchmark/harness/harness.ts:524-534 | every interleaving of workers keeps queue counters, ownership and logs in agreement |
| WorkerPool.LanesInOrder | benchmark/harness/harness.ts:529-532 | of two jobs of one lane the later starts only after the earlier returned |
| WorkerPool.ConcurrencyBound | benchmark/harness/harness.ts:527-534 | jobs of one provider in flight never exceed its limit nor its number of lanes |
| WorkerPool.FullyStaffed | benchmark/harness/harness.ts:525-534 | a provider gets exactly as many workers as the smaller of its limit and its number of lanes |
| WorkerPool.WorkConserving | benchmark/harness/harness.ts:527-534 | no worker is idle while a lane of its provider has not begun |
| WorkerPool.PoolProgress | benchmark/harness/harness.ts:525-534 | until everything has settled some step can happen |
| WorkerPool.RunLength | benchmark/harness/harness.ts:525-534 | every run of the pool is bounded by its jobs and workers |
| WorkerPool.SettledPool | benchmark/harness/harness.ts:525-534 | a settled pool was rejected exactly when some job threw, and otherwise ran each job exactly once and stored its own result |
| WorkerPool.PoolRefinesMap | benchmark/harness/harness.ts:511-540 | unless a job throws, the returned array is the jobs' results in input order, and the call throws exactly when some job's result is undefined |
| HarnessPool.Runner.LaunchWorker | benchmark/harness/harness.ts:527-534 | starting a worker with the shared counter changed in place is the machine's launch |
| HarnessPool.Runner.JobSettles | benchmark/harness/harness.ts:529-532 | storing a result and moving on, or rejecting, in place is the machine's settle |
| HarnessPool.CollectResults | benchmark/harness/harness.ts:536-540 | the closing loop returns all results or stops at the first job without a defined one |
| Statistics.MedianIsPercentile50 | benchmark/harness/harness.ts:542-558 | median and 50th percentile agree on every list |
| Statistics.PercentileMonotone | benchmark/harness/harness.ts:549-558 | on sorted data a higher percentile is never smaller |
| Statistics.StatsOrdered | benchmark/harness/harness.ts:767-777 | min ≤ median ≤ p95 ≤ max and min ≤ mean ≤ max for any durations |
| Statistics.MeanIsSum | benchmark/harness/harness.ts:767-777 | the mean times the number of runs is the sum of the durations, and the sum adds up over any split |
| Statistics.ExtremesAttained | benchmark/harness/harness.ts:767-777 | minimum and maximum are durations of runs and bound all others |
| Statistics.PercentileIsLinear | benchmark/harness/harness.ts:549-558 | a percentile falling a fraction `f` past the `k`-th element lies that fraction of the way to the next |
| Statistics.MiddleAndTail | benchmark/harness/harness.ts:767-777 | the reported median is the middle duration or the mean of the middle two, and the reported p95 lies where 95 hundredths of the last position fall |
| Statistics.OrderFree | benchmark/harness/harness.ts:767-777 | the sorted statistics depend only on which durations there are |
| EventStream.SplitContinues | src/a2a/client-executor.ts:427-429 | splitting the kept residue with more text appended continues the split of the whole text |
| EventStream.HandleFrames | src/a2a/client-executor.ts:430-445 | the frame loop handles exactly the payloads of the completed frames, in order, until one ends it |
| EventStream.StreamEvents | src/a2a/client-executor.ts:414-447 | for every cutting into chunks, events and ending are those of decoding the whole text once |
| EventEncoding.RoundTrip | src/a2a/client-executor.ts:428-435 | events written with `data:` lines with any white space or none after the colon, other lines, and LF and CRLF mixed freely decode to exactly their data, in order, with nothing left over |
| StreamArtifacts.StoreMeaning | src/a2a/client-executor.ts:252-261 | an artifact's parts are those of its last replacing update or snapshot, followed by all later appends in order |
| StreamArtifacts.FieldMeaning | src/a2a/client-executor.ts:252-261 | name, description and metadata of an artifact are as the last frame that gave them, or replaced the artifact, left them |
| StreamArtifacts.StoreOrder | src/a2a/client-executor.ts:252-261 | artifacts stand in the order in which they were first named since the last snapshot, each once |
| StreamArtifacts.SegmentationInto | src/a2a/client-executor.ts:252-261 | cutting an update into any number of pieces, the first an update and the rest appends, leaves every later snapshot the same |
| A2AStream.ForeignFramesAreRefused | src/a2a/client-executor.ts:461-482 | a frame answering another request or naming another task is refused |
| A2AStream.ForeignContext | src/a2a/client-executor.ts:461-507 | a frame naming another context is refused exactly when it is not a message, or is one that fails to parse or names another task |
| A2AStream.RefusedExactly | src/a2a/client-executor.ts:461-507 | exactly which frames are refused: wrong answers, errors, unparsable parts, other tasks, other contexts but for messages, updates that name no task or context |
| A2AStream.ForeignMessageEndsStream | src/a2a/client-executor.ts:476-482 | a message of another context is shown and ends the stream as completed |
| A2AStream.StreamStore | src/a2a/client-executor.ts:454-507 | while a stream is open its artifacts are the fold of its frames, all of them accepted |
| A2AStream.StreamTask | src/a2a/client-executor.ts:414-507 | the snapshots yielded, the ending and the artifacts do not depend on chunking, whatever each authorization answers |
| A2AStream.StopsAtStable | src/a2a/client-executor.ts:436-445 | the stream yields only snapshots each of whose references was authorized by an await of its own, and returns exactly at the first one that is completed, failed, canceled, rejected or awaits input or authentication |
| StreamViews.OutputLaws | src/a2a/client-executor.ts:220-232 | a snapshot shows the non-empty texts of the artifacts in store order, then the status text; a failed task the status text or a fixed one as its error; one reference per artifact that has one |
| StreamViews.PartsLaws | src/a2a/client-executor.ts:191-193 | the text of parts is that of their text parts joined by newlines |
| StreamViews.FirstUriIs | src/a2a/client-executor.ts:213-218 | an artifact is referred to by its first part that has a URL or data, and not at all when that is empty |
| StreamViews.MessageLaws | src/a2a/client-executor.ts:234-246 | a message is shown as completed, with its text and the references of its parts without text |
| StreamViews.StreamShows | src/a2a/client-executor.ts:414-507 | every accepted frame is shown at once, a task by its own artifacts and an update by what all frames up to its own left of them; a stream that throws does so at a frame that does not parse, is refused, or shows a reference not let pass |
| StreamViews.ServerIsSeen | src/a2a/client-executor.ts:454-507 | whatever frames a server sends about its task, the client shows after each the task as it then stands, and returns with the first that makes it stable |
| StreamViews.BytesAreSeen | src/a2a/client-executor.ts:414-507 | the same from the response text on, however the frames are written as events and cut into chunks |
| A2AStream.ArtifactMap.MergeStreamArtifact | src/a2a/client-executor.ts:252-261 | the in-place merge is the specified store operation |
| A2AStream.ArtifactMap.ResetTo | src/a2a/client-executor.ts:472-473 | clearing and refilling from a snapshot stores exactly its artifacts, later ones winning |
| JsonText.CharsRead | src/a2a/client-executor.ts:42 | an escaped string reads back as itself, lone surrogates and control characters included |
| JsonText.ReadBack | src/a2a/client-executor.ts:39-45 | the JSON reader undoes the printer and stops where the text ends |
| JsonText.EscapesAre | src/a2a/client-executor.ts:42 | which code units are escaped, and how: short escapes, quote, backslash, other control characters, lone surrogates, and nothing else |
| StableJson.LessTotal | src/a2a/client-executor.ts:42 | the code-unit order of `sort` is a strict total order |
| StableJson.LessIsFirstDifference | src/a2a/client-executor.ts:42 | the first code unit where two keys differ decides, the smaller coming first, and a prefix comes before what it starts |
| StableJson.PrintsCanon | src/a2a/client-executor.ts:39-45 | `stableJson` prints the value with members in key order at every depth |
| StableJson.Readable | src/a2a/client-executor.ts:39-45 | reading that text gives the value with sorted keys back |
| StableJson.Injective | src/a2a/client-executor.ts:39-45 | two values print alike exactly when they are equal up to member order, undefined counting as null |
| StableJson.UndefinedCollides | src/a2a/client-executor.ts:44 | an undefined and a null member give the same text |
| StableJson.IdentityInjective | src/a2a/client-executor.ts:126-132 | two agents have the same identity text exactly when card URL, interface URL, binding, version and tenant agree |
| HashInput.DropCommutes | src/runtime-agent-binding.ts:197-207 | printing the sorted value without its undefined members is printing the canonical form of what is left of the value itself |
| HashInput.ItemsKept | src/runtime-agent-binding.ts:197-207 | an undefined array item prints as null; the others stay in place |
| HashInput.MembersKept | src/runtime-agent-binding.ts:197-207 | undefined members are left out, all others stay, in order |
| HashInput.HashTextInjective | src/runtime-agent-binding.ts:197-207 | two values hash the same text exactly when what `JSON.stringify` keeps of them is equal up to member order and tied keys stand alike |
| HashInput.HashTextTotal | src/runtime-agent-binding.ts:197-207 | where no two keys tie, member order never shows |
| HashInput.AbsentIsUndefined | src/runtime-agent-binding.ts:730-735 | an optional member left out and one passed as undefined give the same revision text |
| ShellQuote.RoundTrip | src/sandbox-runtime.ts:547-550 | POSIX word splitting of the quoted command gives back exactly the arguments, empty ones and quotes included, with nothing left open or active |
| ShellQuote.CommandInjective | src/sandbox-runtime.ts:547-550 | different argument lists never share a command |
| PromiseChain.Serialised | src/sandbox-runtime.ts:471-483 | over whole histories one run is inside, runs enter in submission order, and each releases exactly once when done, however it ended, and never before |
| PromiseChain.WatchWaits | src/sandbox-runtime.ts:524-527 | `dispose` goes on only after every run submitted before it is done |
| PromiseChain.Progress | src/sandbox-runtime.ts:476-527 | until all runs and disposals are done one of them can move, and only until then |
| PromiseChain.RunsTerminate | src/sandbox-runtime.ts:476-527 | a history has at most three steps a run and two a disposal |
| PromiseChain.TaskHistory | src/sandbox-runtime.ts:471-527 | told by the steps of any history: every run that joined is there, ends at most once and the way it was aborted, returned or threw; every disposal waits for the runs submitted before it |
| ScriptRuns.Runner.Submit | src/sandbox-runtime.ts:477-479 | joining behind the previous run in place is the chain's step |
| ScriptRuns.Runner.Enter | src/sandbox-runtime.ts:480-484 | passing the gate, or releasing at once when aborted, is the chain's step |
| ScriptRuns.Runner.Finish | src/sandbox-runtime.ts:520-522 | the outer `finally` releases the slot whether the body returned or threw |
| ScriptRuns.DeleteOverlaps | src/sandbox-runtime.ts:476-527 | from any reachable state, with nothing more submitted, the root can be deleted while a run is inside exactly when a run submitted since the disposal began is not done |
| ScriptRuns.SubmissionCanOverlap | src/sandbox-runtime.ts:476-527 | while a disposal waits, one more submission always makes such an overlap possible |
| ScriptRuns.LateRunOverlapsDelete | src/sandbox-runtime.ts:524-527 | a history in which a run submitted after `dispose` is inside when the root is deleted |
| AgentBindings.IndexesAgree | src/runtime-agent-binding.ts:680-698 | after any history a binding is in an owner's set exactly when stored under that owner; nothing is disposed twice or while held |
| AgentBindings.CloseRemoves | src/runtime-agent-binding.ts:900-904 | closing removes exactly the owner's bindings, disposing all they hold, and fails exactly when one of those disposals throws; other owners are untouched either way |
| AgentBindings.CloseLoopMeaning | src/runtime-agent-binding.ts:900-904 | the close loop releases in insertion order up to the first throw: what is left in both indexes and every dispose call made |
| AgentBindings.OpenAnswers | src/runtime-agent-binding.ts:707-711 | opening adds one empty session under a new id and nothing else |
| AgentBindings.ResolveAnswers | src/runtime-agent-binding.ts:701-706 | a lookup answers exactly when the agent loads with its skills; it changes no index, and says which scope it disposes |
| AgentBindings.BindDefaultAnswers | src/runtime-agent-binding.ts:712-755 | exactly when a default bind is done, what it then stores, and what a failing one disposes |
| AgentBindings.BindLocalAnswers | src/runtime-agent-binding.ts:781-848 | exactly when a local bind is done and what it then stores; a failing one changes no index |
| AgentBindings.ReleaseAnswers | src/runtime-agent-binding.ts:896-899 | only an owner's own binding is released: out of both indexes, scope disposed first, then the runner unless that threw, done exactly when neither threw |
| AgentBindings.LossExactly | src/runtime-agent-binding.ts:692-904 | for each operation and outcome, exactly which resources end neither held nor disposed |
| AgentBindings.Conservation | src/runtime-agent-binding.ts:692-904 | if disposals succeed and no failing bind strands its scope, each resource made is held by its binding or was disposed, never both, at most once |
| AgentBindings.FailedLookupStrandsScope | src/runtime-agent-binding.ts:640-648 | a lookup that cannot read the agent's file leaves its scope undisposed |
| AgentBindings.FailedDisposeStrandsRunner | src/runtime-agent-binding.ts:692-697 | a release whose scope throws leaves the runner undisposed |
| AgentBindings.FailedBindStrandsScope | src/runtime-agent-binding.ts:788-793 | a bind whose tool surface fails to resolve leaves its scope undisposed |
| AgentBindings.Service.BindDefault | src/runtime-agent-binding.ts:712-755 | every success and failure path of the default bind, as the specified step |
| AgentBindings.Service.BindLocal | src/runtime-agent-binding.ts:781-848 | every success and failure path of the local bind, as the specified step |
| AgentBindings.Service.ReleaseOne | src/runtime-agent-binding.ts:692-697 | both indexes forget the binding first, then the scope and, unless that throws, the runner are disposed |
| AgentBindings.Service.CloseOwnerSession | src/runtime-agent-binding.ts:900-904 | the loop over a copy of the owner's set, as the specified step |
| ToolPolicy.Idempotent | src/runtime-agent-binding.ts:266-301 | a validated policy validates to itself |
| ToolPolicy.OrderInsensitive | src/runtime-agent-binding.ts:244-301 | policies that differ in order get the same answer, value or error, if tied keys stand alike, and an accepted one keeps its value only then |
| ToolPolicy.NormalFormIsGrant | src/runtime-agent-binding.ts:244-301 | two accepted policies have the same normal form exactly when they grant the same authority and tied keys stand alike |
| ToolPolicy.OrderFree | src/runtime-agent-binding.ts:244-301 | an accepted policy keeps its normal form in every order exactly when no two keys of one of its maps tie |
| ToolPolicy.TiedServers | src/runtime-agent-binding.ts:258-266 | two MCP servers whose names tie have a normal form for each order |
| PolicyRevision.RevisionTellsApart | src/runtime-agent-binding.ts:203-211 | two validated policies have the same revision text exactly when they are the same policy |
| PolicyRevision.RevisionIsGrant | src/runtime-agent-binding.ts:728 | two accepted policies have the same revision text exactly when they grant the same authority and tied keys stand alike |
| ToolPolicy.GrantKept | src/runtime-agent-binding.ts:266-301 | validation neither adds authority to a policy nor takes any away |
| PolicyAdmission.AcceptedExactly | src/runtime-agent-binding.ts:244-301 | exactly which policies are accepted, in terms of what was passed: known modes, lists of exact names without repetition, no empty map entry, exact origins, scripts and isolation only together |
| ToolSurface.ResolveToolSurface | src/runtime-agent-binding.ts:416-464 | resolves exactly the admissible requests, to exactly the wanted tools, contracts and registrations, sorted; every error names a real fault |
| ToolSurface.ValidateRemoteContract | src/runtime-agent-binding.ts:400-414 | accepts a contract exactly when its workspace effect and every origin lie within the policy |
| ToolSurface.Monotone | src/runtime-agent-binding.ts:416-464 | a policy granting at least as much resolves to all the tools of the narrower one, with the same registrations and contracts |
| ToolSurface.WideningFails | src/runtime-agent-binding.ts:437-452 | a wider policy fails exactly when a name it adds has no fitting tool |
| ToolSurface.ShadowedReadFails | src/runtime-agent-binding.ts:443-450 | with the native `read` shadowed, adding workspace reads to the empty policy makes it fail |
| ToolSurface.DeclaredExactly | src/runtime-agent-binding.ts:453-463 | a declared list resolves to exactly itself, inside the undeclared surface |
| SurfaceAuthority.NothingGranted | src/runtime-agent-binding.ts:416-464 | a policy that grants nothing has exactly the tools it lists |
| SurfaceAuthority.ReadingAdds | src/runtime-agent-binding.ts:426 | reading the workspace adds exactly `read`, `grep` and `glob` |
| SurfaceAuthority.WritingAdds | src/runtime-agent-binding.ts:427 | writing it adds exactly the four writing tools to those |
| SurfaceAuthority.McpAdds | src/runtime-agent-binding.ts:430 | any MCP server adds exactly the five MCP tools |
| SurfaceAuthority.SubagentsAdd | src/runtime-agent-binding.ts:431 | inheriting subagents adds exactly the five dispatch tools |
| SurfaceAuthority.SkillsAdd | src/runtime-agent-binding.ts:428 | skills add exactly `skill` |
| SurfaceAuthority.ScriptsAdd | src/runtime-agent-binding.ts:429 | skill scripts add exactly `run_skill_script` |
| SurfaceAuthority.ToolsNeedAuthority | src/runtime-agent-binding.ts:416-464 | whatever is declared, a tool the policy does not list is a known native one whose authority is granted: no writing tool without workspace `write` |
| SurfaceAuthority.ContractWithin | src/runtime-agent-binding.ts:400-414 | a listed tool is admitted exactly when its contract writes or reads only where the policy does and names only allowed origins |
| Reconcile.Runtime.Reconcile | src/a2a/runtime-config.ts:107-140 | the loops leave each id as specified; when a removal throws only some dropped agents remain |
| Reconcile.ExactlyTheDocument | src/a2a/runtime-config.ts:109-139 | A2A registrations are exactly the document's agents refreshed now or registered before; a failed one keeps its value |
| Reconcile.OthersUntouched | src/a2a/runtime-config.ts:110-139 | another executor's registration is untouched exactly unless a refreshed agent takes its id |
| Reconcile.LastKnownGood | src/a2a/runtime-config.ts:118-137 | over any sequence of documents an agent keeps its latest refresh for as long as it stays named, failed rounds in between included |
| Reconcile.Provenance | src/a2a/runtime-config.ts:107-140 | every A2A registration is such a refresh, or stood there from the start, with every document since naming it but those of failed rounds |
| Reconcile.OthersOverHistory | src/a2a/runtime-config.ts:107-140 | over a history of completed and failed rounds another executor's registration survives exactly when no round refreshes that id |
| Reconcile.RoundTwice | src/a2a/runtime-config.ts:107-140 | reconciling the same document with the same discoveries again changes nothing |
| EventBridge.ExactlyOneRun | src/kodax_cli.ts:631-659 | for every interleaving, handled plus pending events are exactly the arrivals of the run set, in arrival order |
| EventBridge.OneHandler | src/kodax_cli.ts:635-646 | one handler runs at a time, each event once and in order, throwing handlers included |
| EventBridge.Progress | src/kodax_cli.ts:634-663 | some handler can start or settle or some `close` can return, exactly until all have |
| EventBridge.Delivers | src/kodax_cli.ts:631-663 | once nothing can move, every arrival of the run was handled in order, none is pending and every `close` has returned |
| EventBridge.RunSetLast | src/kodax_cli.ts:647-659 | with any run ids set in any order: of the events from before the first `setRunId` those of its run are forwarded, then those of the run set last when they arrive, each once and in order |
| EventBridge.RunsTerminate | src/kodax_cli.ts:631-663 | a history has at most three steps an event, two a `close` and one a `setRunId`, so delivery is not put off for ever |
| EventBridge.CloseWaits | src/kodax_cli.ts:660-663 | `close` returns only after every event queued at the call was handled |
| EventBridge.ClosedMeansHandled | src/kodax_cli.ts:653-664 | closed after its run id was set, the bridge has handled every event of the run and none is ever pending again |
| EventBridge.LateForwarding | src/kodax_cli.ts:647-664 | what is queued after `close`: nothing, unless the run id is set only then, and then exactly the run's earlier arrivals |
| EventBridge.CloseBeforeRunId | src/kodax_cli.ts:653-664 | closed before the run id is set, it returns and a later `setRunId` still queues the buffered events |
| EventBridge.Bridge.OnEvent | src/kodax_cli.ts:647-652 | buffering, forwarding or dropping an event in place is the specified step |
| EventBridge.Bridge.SetRun | src/kodax_cli.ts:654-659 | the loop over the emptied buffer is the specified step |
| TerminalOutput.ChunkIndependent | src/aamp_terminal_output.ts:72-101 | in any history agent text prints the same in any pieces |
| TerminalOutput.LineStartOverRuns | src/aamp_terminal_output.ts:53-101 | `agentLineStart` holds exactly when nothing was written or the output ends in a newline, after every write |
| TerminalOutput.PrefixOncePerLine | src/aamp_terminal_output.ts:72-101 | each non-empty agent line gets the prefix once, at its start, and nothing else changes |
| TerminalOutput.BurstLines | src/aamp_terminal_output.ts:53-101 | after any other write a burst of agent text prints as its lines, each marked |
| TerminalOutput.OtherLines | src/aamp_terminal_output.ts:53-72 | a task or meta line ends an unfinished agent line and is written with its prefix on a line of its own, a task line after a blank one |
| TerminalOutput.MarkIs | src/aamp_terminal_output.ts:90-101 | a non-empty agent line is written after two spaces, a bar and a space |
| TerminalOutput.Writer.WriteAgentText | src/aamp_terminal_output.ts:72-87 | the cursor loop writes what the letter-by-letter reading of the text writes |
| PosixPath.NormalizeTwice | src/a2a/config.ts:271-275 | normalising any path again changes nothing; the first time the empty path became `.`, and any other got no longer and no new letters |
| PosixPath.ResolveTwice | src/a2a/config.ts:224-226 | resolving an absolute root again changes nothing |
| PathLaws.UpUndoes | src/a2a/config.ts:264-279 | `..` undoes the plain segment before it, anywhere in a path, normalised or resolved |
| PathLaws.DotIsNothing | src/a2a/config.ts:264-279 | a dot between slashes and a doubled slash are nothing |
| PathLaws.RootHasNoParent | src/a2a/config.ts:224-226 | the root has nothing above it |
| PathLaws.StartGone | src/a2a/config.ts:264-279 | the same at the start of a relative path |
| PathLaws.RelativeKept | src/a2a/config.ts:264-279 | double dots followed by plain segments are left as they are, with or without a final slash |
| PathLaws.AbsoluteKept | src/a2a/config.ts:224-226 | so is an absolute path of plain segments, but that resolving takes the final slash |
| ConfigParser.NamedExactListsLoop | src/a2a/config.ts:165-175 | the record-filling loop accepts and yields what the specification does, in any order of entries |
| ConfigParser.SkillScriptsLoop | src/a2a/config.ts:264-279 | the in-place overwriting loop does too |
| ConfigParser.AgentsLoop | src/a2a/config.ts:434-439 | so does the loop over outbound agents |
| ConfigAdmission.DocumentFields | src/a2a/config.ts:430-445 | an accepted document is version 1, names its agents, may have a server and has no other field; each agent is kept under its name |
| ConfigAdmission.ServerFields | src/a2a/config.ts:413-428 | which fields a server must and may have |
| ConfigAdmission.ExecutionFields | src/a2a/config.ts:317-344 | which fields either kind of execution must and may have |
| ConfigAdmission.RecordFields | src/a2a/config.ts:281-411 | no policy, profile, skill, agent or limits record with an unknown field is accepted, and no incomplete policy |
| ConfigAdmission.OmittedPolicy | src/a2a/config.ts:229-239 | nothing said about tools means: a managed workspace may be written, a fixed one read, and nothing else |
| ConfigAdmission.OmittedNeverWritesFixed | src/a2a/config.ts:229-239 | an execution that says nothing about its tools never writes a fixed workspace |
| ConfigAdmission.ModesAre | src/a2a/config.ts:281-315 | the enumerated fields of an accepted policy are kept as given and spell one of their words, alone or in one-element arrays |
| ConfigAdmission.LimitsAre | src/a2a/config.ts:108-118 | each limit is the one given or its default; parts never exceed requests, and a fixed writable workspace runs one task |
| ConfigAdmission.LimitsAccepted | src/a2a/config.ts:386-411 | limits in range are refused for those two reasons only |
| ConfigAdmission.NamesExactly | src/a2a/config.ts:148-163 | a list is accepted exactly when its items are texts, non-blank and different once trimmed, and comes out trimmed; exact names have no `*` |
| ConfigAdmission.NetworkExactly | src/a2a/config.ts:241-262 | a network policy denies all, or allows the HTTP origins of its URLs, which differ as texts and as origins |
| ConfigAdmission.HttpUrlExactly | src/a2a/config.ts:191-207 | URLs are accepted over HTTPS or to the loopback, without credentials, and come out as the URL standard prints them |
| ConfigAdmission.NamesAre | src/a2a/config.ts:121-122 | both name patterns, letter by letter |
| ConfigAdmission.ScriptPathExactly | src/a2a/config.ts:264-279 | a script path is relative, without backslash, normalises to one below `scripts` without `../`, and comes out normalised |
| ConfigAdmission.ScriptsNeedIsolation | src/a2a/config.ts:297-304 | isolated processes and skill scripts are accepted only together |
| ConfigFixedPoint.PolicyBack | src/a2a/config.ts:281-315 | a parsed tool policy, the default one included, reads back as itself exactly when its script paths are stable |
| ConfigFixedPoint.ExecutionBack | src/a2a/config.ts:317-344 | the same for an execution, whose fixed root must be stable too |
| ConfigFixedPoint.LimitsBack | src/a2a/config.ts:393-411 | limits read back as themselves, defaults and the forced single slot of a fixed writable workspace included |
| ConfigFixedPoint.FixedPoint | src/a2a/config.ts:430-445 | parsing an accepted document's result gives that result exactly when roots and script paths are stable |
| ConfigRoundTrip.ExactlyCanonical | src/a2a/config.ts:430-445 | a configuration written as JSON parses to itself exactly when it is canonical: nothing is lost or mixed up on the way |
| UnstableDocuments.UnstableSpelling | src/a2a/config.ts:264-279 | a document listing `scripts/a` and `scripts/./a` is accepted and its result does not parse to itself |
| UnstableDocuments.UnstableScript | src/a2a/config.ts:264-279 | nor does that of one listing `scripts/a /.`, whose name ends in a space |
| UnstableDocuments.UnstableRoot | src/a2a/config.ts:215-227 | nor does that of one with the fixed root `/a /.` |

## Left out

- Network, process, filesystem, timers, credentials and provider clients: every await is an arbitrary success or failure, passed in as a parameter of the step.
- The event stream's UTF-8 decoding, size limit, idle timeout and `#disposed` flag; lines ended by a lone CR, which the source does not recognise either.
- The schema parsers behind `parseA2ATask` and `parseA2AMessage`: their results are parameters, an exception included; media types, names and sizes of artifact references are not carried.
- Number formatting inside `JSON.stringify` (a number is its printed token) and `toJSON` methods; objects list members in enumeration order, which sorting makes irrelevant.
- PolicyRevision.RevisionIsGrant: keys are ordered as the normaliser ordered them; strings without lone surrogates, encoded as UTF-16.
- HashInput.HashTextInjective: key order is any strict weak order, so neither `localeCompare` nor the place of integer-like keys matters; the digest of the text is not modelled.
- ToolPolicy.NormalFormIsGrant: `host.locale` is any strict weak order on keys. It stands for the order in which the resulting object enumerates them: integer-like keys first, in numeric order, and `localeCompare` for the rest, so that keys such as `1` and `1` followed by U+0000 tie under `localeCompare` and not under it; the first of several faulty entries is then also taken in this order. Which strings are their own HTTP origin is a parameter.
- ToolSurface.ResolveToolSurface: a contract origin that is not a URL and one outside the policy are the same error; `resolveToolPath`, the guardrail and the skills prompt are not modelled.
- AgentBindings.IndexesAgree: operations run one after another; overlapping binds and closes can break the index in the source and are not covered. `startDefault`, `startLocal` and `prepareWorkspace` change no state and are omitted. Generated ids are taken as new.
- Reconcile.Runtime.Reconcile: the registry is a plain map and nobody else writes to it during a round; a registration is an executor and a revision. A throwing `list` call is a failed round without refreshes, a throwing `upsert` a failed refresh.
- ShellQuote.RoundTrip: only the POSIX branch; the Windows branch and what the sandbox library does with the command are not modelled. The splitter calls more unquoted characters active than a shell would, which only strengthens the claim.
- ScriptRuns.Runner.Enter: the body of a run between gate and release is one step; staging, the broker and output promotion are not modelled.
- EventBridge.ExactlyOneRun: like `EventBridge.Delivers`, for histories whose `setRunId` calls all name one run; `EventBridge.RunSetLast` is for any run ids. What a handler does with an event is not modelled.
- TerminalOutput.ChunkIndependent: styling is the identity, so colour codes that surround each piece are not modelled.
- ConfigFixedPoint.FixedPoint: the URL parser is a parameter that obeys the URL standard (printing and parsing again gives the same URL); paths are POSIX paths; a thrown error is `None`, without its message; records are maps, without entry order; explicitly undefined fields count as absent.
- Statistics.StatsOrdered: exact reals instead of floating point; the standard deviation and the pass rates are omitted.
- ProviderGate.PermitSafety: one limit per provider, as the alias table has (`EvalAliases.TableIsConsistent`); a lower limit in a later call is not modelled.
- WorkerPool.SettledPool: workers are launched in separate steps, which allows more interleavings than the source's single loop; after a rejection the other providers' jobs go on, as in the source.
- Option resolvers, loggers, command wiring, help text, `classifyA2AServerChange`, the website and the performance benches: they build messages or pass calls on, keep no state across `await`s, and define no order or text format that another part reads back.
