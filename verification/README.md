# ForgeAI verification model

ForgeAI runs several LLM roles over one database. A Leader dispatches approved requirements, an
engineer works a dependency plan off, quality cycles follow, and everything that matters is a row
that survives crashes. This project models the parts of the backend where that is hard to get
right, and proves what they promise.

- **Lease-fenced tool loop.** `ToolLoop` is the bounded loop, `LeaderDispatch` the lease on the
  checkpoint row, `DispatchRuns` the system of both: a clock, any number of workers, crashes, expiry,
  takeover, rejected decisions and handoff. Results are about all interleavings.
- **Engineering plans.** `Graphs` defines paths, cycles and closures. `SystemDesigns` and
  `DeliveryPlans` prove the two cycle detectors against the same definition `Cyclic`, so they accept the same
  graphs. `DeliverySuggestions`, `RepairPlans`, `DeliveryRevisions` and `PlanRuns` build, repair,
  replace and work off plans; `Texts` is the string handling they rest on.
- **Streams and schemas.** `ChatStream` reassembles a streamed turn, `SchemaInlining` inlines
  JSON-Schema references, `JsonText` and `JsonValues` write and read JSON, and `ObservationText` bounds
  tool results as JSON.
- **Preview sessions.** `PreviewSessions` interleaves a boot thread and a stopping thread, section
  by section, over any number of sessions and one port registry.
- **Ledgers.** `ConfigurationLedger`, `PlanLedger` and `SourceStore` hold versioned artifacts, plans
  with bounded quality cycles and content-addressed sources.
- **Documents and budgets.** `AppSpecDocuments` and `Approvals` normalise and approve specifications;
  `EngineerBudget` and `EngineerHistory` are the engineering loop's budgets and its replayed history.

`ToolLoopRuns`, `DispatchGuarantees`, `PlanRules`, `ProposedPlans`, `RepairRequests`, `PlanProgress`, `StreamWire`,
`InlinedSchemas`, `PreviewOutcomes`, `QualityHandoffs`, `HistoryRules`, `ApprovalRules`, `BudgetRules`, `LedgerRules`,
`StoreRules`, `ObservationRules`, `DocumentRules` and `TextRules` say what the operations do in plain terms, in the numbers, names and
fields of the source and without taking the functions that the operations call for granted, and prove that they do
exactly this.

Objects that the source updates in place are classes whose methods are proved against functions of
the old state; loops are methods with invariants; runs are sequences of moves applied to a state.
Each transaction under a row or run lock is one move. `Results`, `Json` and `AppSpecs` hold shared types.

Where the code does not do what it promises, the model follows the code and gives the exact
condition. The cases are: a failed second port reservation leaks the first port; a stop at the wrong
moment lets a proxy start on a port that was just released; the id retry loop does not end when the
hash comes back within the used ids; an approved feature may take the id of a criterion that is kept,
and an approval may end with more than 50 criteria, and the document checks then change or refuse the
approved document; a payload with a line `[DONE]` is cut by the line layer; and the halving loop for
tool results does not end when the result is too long even without data.

`dafny verify dfyconfig.toml` checks everything.

## Model

| member | source | states |
|---|---|---|
| `ToolLoop.RunBoundedToolLoop` | apps/backend/app/agents/tool_protocol.py:114-217 | whatever the provider, the tools and the checkpoint callback answer or raise, the loop ends, and the events it causes are one complete run of the step automaton that every property below is about |
| `ToolLoop.TakeTurn` | apps/backend/app/agents/tool_protocol.py:151-182 | a turn calls the provider once, under the number reserved before; it stops on a missing or forbidden tool call without running anything and turns a protocol error into one user message |
| `ToolLoop.ExecuteBatch` | apps/backend/app/agents/tool_protocol.py:183-195 | exactly the first calls that the turn may execute are executed, in call order, unless one raises, which ends the loop unsaved |
| `ToolLoop.TurnExecutesPrefixAndDefersRest` | apps/backend/app/agents/tool_protocol.py:183-214 | from an accepted reply to the save: each proposed call is executed once or answered as deferred, at most 16 reads or one other call run, and the history grows by one assistant message with all calls and one result for each |
| `ToolLoop.CallsAreConsecutiveTurns` | apps/backend/app/agents/tool_protocol.py:151-159 | the paid turns of a run are consecutive from the saved count on, none skipped, none repeated, all below the limit |
| `ToolLoop.RunStaysInBudget` | apps/backend/app/agents/tool_protocol.py:151-168 | one run never pays for more calls than the limit leaves after the saved turns |
| `ToolLoop.CallsAreReserved` | apps/backend/app/agents/tool_protocol.py:158-168 | each paid call comes directly after the durable save that reserved its number, so a crash never loses a spent turn |
| `ToolLoop.SavedHistoriesChain` | apps/backend/app/agents/tool_protocol.py:144-159 | every durable checkpoint is well paired (each assistant message with n calls is followed by its n results in call order) and the saved histories are prefixes of each other |
| `ToolLoop.StepKeepsSound` | apps/backend/app/agents/tool_protocol.py:151-217 | no step shortens the history, lowers the turn count or breaks the pairing, and what is saved is the local state |
| `ToolLoop.ExchangeWellPaired` | apps/backend/app/agents/tool_protocol.py:75-111 | one appended exchange is well paired if the executed results answer the first calls |
| `LeaderDispatch.DispatchStore.ClaimDispatch` | apps/backend/app/services/leader_dispatch.py:16-56 | the lease is granted iff the run can be dispatched, the row is of this run and no live lease stands; the first claim freezes the input, a takeover changes nothing but the lease |
| `LeaderDispatch.DispatchStore.RequireDispatch` | apps/backend/app/services/leader_dispatch.py:59-87 | passes iff the owner holds a live lease of an eligible run; otherwise says why and changes nothing |
| `LeaderDispatch.DispatchStore.SaveDispatch` | apps/backend/app/services/leader_dispatch.py:90-106 | replaces the progress and renews the lease for the holder only; a refused save changes nothing |
| `LeaderDispatch.DispatchStore.ReleaseDispatch` | apps/backend/app/services/leader_dispatch.py:109-120 | clears the lease of this owner only; a row held by somebody else stays as it is |
| `DispatchRuns.ReachableHasInv` | apps/backend/app/services/leader.py:819-916 | every interleaving of claims, crashes, exceptions that release the lease, expiries, takeovers, rejected decisions and clock ticks keeps the row, its saves, the paid calls and all workers consistent |
| `DispatchRuns.ModelCallsStayInBudget` | apps/backend/app/services/leader.py:821-860 | all owners of one approved item together never make more model calls than the frozen `max_turns`, and no two calls share a turn number |
| `DispatchRuns.CheckpointsFormOneChain` | apps/backend/app/services/leader.py:837-883 | the checkpoints committed by all owners form one prefix-ordered chain of well-paired histories that ends at the row |
| `DispatchRuns.LostLeaseIsLostForever` | apps/backend/app/services/leader_dispatch.py:59-120 | fencing over whole runs: after another claim commits, no require, save or release of the earlier owner ever changes the row or hands off again, and the frozen input stays |
| `DispatchRuns.ClaimFencesEarlierOwners` | apps/backend/app/services/leader_dispatch.py:31-53 | a granted claim fences off every owner before it and keeps frozen input, progress, saves and paid calls |
| `DispatchRuns.MoveKeepsFence` | apps/backend/app/services/leader_dispatch.py:68-87 | no move of anybody gives a fenced-off owner the lease back |
| `DispatchRuns.HandoffsAgree` | apps/backend/app/services/leader.py:883-908 | work is only handed off for a decision that was accepted and durably saved, so all handoffs of an item carry the same decision |
| `DispatchRuns.DecisionIsFinal` | apps/backend/app/services/leader.py:852-883 | once an accepted decision is saved no later worker spends a turn or rewrites it |
| `Graphs.StuckNodeIsBlocked` | apps/backend/app/generation/delivery.py:389-405 | if each node of a set keeps a prerequisite in the set, each of them leads to a cycle: the pigeonhole behind both detectors |
| `Graphs.AcyclicHasReady` | apps/backend/app/generation/delivery.py:165-170 | in an acyclic graph every nonempty rest has a node without prerequisites in it, which is why the unguarded worklist ends |
| `SystemDesigns.ValidateRequirementDependencies` | apps/backend/app/schemas/system_design.py:93-114 | accepts exactly the designs with distinct linked capabilities, links between approved features and no dependency cycle, and names the first of these that fails |
| `SystemDesigns.PeelLayers` | apps/backend/app/schemas/system_design.py:110-114 | layer peeling empties the graph exactly when it has no cycle |
| `SystemDesigns.CollectEdges` | apps/backend/app/schemas/system_design.py:103-109 | the collected edges are the requirement graph, exactly when every link names approved features |
| `DeliveryPlans.ResolveAncestors` | apps/backend/app/generation/delivery.py:389-408 | the worklist fails exactly on a cyclic graph and then reports exactly the items on or behind a cycle with what blocks them; otherwise `ancestors` is exactly the strict transitive closure |
| `DeliveryPlans.Duplicates` | apps/backend/app/generation/delivery.py:334-344 | reports exactly the repeated ids |
| `DeliveryPlans.CheckLinks` | apps/backend/app/generation/delivery.py:344-388 | reports exactly the items whose requirement, provision or dependency links are invalid |
| `DeliveryPlans.CheckRepair` | apps/backend/app/generation/delivery.py:409-442 | a repair plan has 1 to 20 repair items, no other open item, and each frozen target word for word in a repair item; exactly the violations are reported |
| `DeliveryPlans.CheckVisual` | apps/backend/app/generation/delivery.py:476-506 | reports exactly the open feature items that do not rest on the visual foundation |
| `DeliveryPlans.CheckDependencies` | apps/backend/app/generation/delivery.py:507-557 | reports exactly the open items that implement a dependent requirement without resting on its prerequisite |
| `DeliveryPlans.CheckCoverage` | apps/backend/app/generation/delivery.py:443-561 | accepts exactly the plans that cover all approved features, rest on a visual foundation and follow the design, and reports exactly the violations |
| `DeliveryPlans.ValidateDeliveryPlan` | apps/backend/app/generation/delivery.py:320-561 | accepts exactly the valid plans, stated by paths and cycles and not by worklists; a refusal carries the complete set of violations of the first failing stage |
| `DeliverySuggestions.CloseOver` | apps/backend/app/generation/delivery.py:165-170 | ends although it has no stall guard, and `available` is exactly the reflexive-transitive prerequisite closure |
| `DeliverySuggestions.SuggestedDeliveryPlan` | apps/backend/app/generation/delivery.py:140-201 | ends for every approved specification and design; fails with the design error exactly for an unsound design and otherwise succeeds exactly with 1 to 99 features (a specification holds at most 50, so only the empty one fails), and then its own validator accepts the proposal |
| `DeliverySuggestions.SuggestionIsValid` | apps/backend/app/generation/delivery.py:171-201 | every proposal with one item per feature, resting on its prerequisites and on the visual foundation, is a valid plan |
| `Texts.FreshId` | apps/backend/app/generation/delivery.py:154-159 | counting suffixes up reaches a free id, and it is the first free one |
| `RepairPlans.RepairTargets` | apps/backend/app/generation/delivery.py:74-91 | the loop over lines computes the merged numbered defects, or the whole request when there are none or more than 20 |
| `RepairPlans.TargetsKeepDefectsIntact` | apps/backend/app/generation/delivery.py:74-91 | splitting a request loses, adds and reorders no word: the lines hold all its words, and the 1 to 20 normalised targets hold exactly the words of the numbered defects, or of the whole request |
| `RepairPlans.SuggestedRepairPlan` | apps/backend/app/generation/delivery.py:102-137 | on finished work that stands alone the proposal passes the repair validator iff every target is usable as a text and the 20 and 100 item limits hold; otherwise it says which |
| `RepairPlans.RepairsValid` | apps/backend/app/generation/delivery.py:102-137 | repair items appended to finished work are a valid repair plan iff both size limits hold |
| `DeliveryRevisions.ReplaceDeliveryPlan` | apps/backend/app/generation/delivery.py:564-604 | saves exactly when no completed item is lost or changed and the merged plan is valid, and then saves the merged plan |
| `DeliveryRevisions.ReplanningConservesFinishedWork` | apps/backend/app/generation/delivery.py:564-604 | the saved plan has exactly the previous completed items with definition and summary; everything else is pending and proposed, in the order proposed |
| `DeliveryRevisions.RefusedIffNotKept` | apps/backend/app/generation/delivery.py:575-602 | a replacement is refused for lost work exactly when the proposal drops or changes a completed item |
| `PlanRuns.EngineerPlan.MigrateImplementationRepairPlan` | apps/backend/app/generation/delivery.py:274-300 | retires the pending plan once per repair request: the same identity again does nothing, another one is refused |
| `PlanRuns.EngineerPlan.UpdateDeliveryPlan` | apps/backend/app/orchestration/code_engineer.py:696-770 | adopts a proposal iff its replacement is accepted and changes something, and leaves the plan alone otherwise |
| `PlanRuns.EngineerPlan.ApplyCheckPassed` | apps/backend/app/generation/engineering/checks.py:100-156 | completes an item only while it is the current one, and the last item or one that provides requirements only on a full integration check |
| `PlanRuns.UnfinishedPlanHasNext` | apps/backend/app/orchestration/code_engineer.py:1010-1027 | every accepted plan with unfinished items has a pending one whose dependencies are all completed |
| `PlanRuns.NoRunStalls` | apps/backend/app/orchestration/code_engineer.py:1010-1027 | no run of adoptions, completions and retirements ends blocked for want of an executable item |
| `PlanRuns.GeneratedMeansDelivered` | apps/backend/app/generation/engineering/checkpoint.py:403-412 | a run that reports the build as generated has completed everything planned, and that covers every approved feature or every frozen repair target |
| `PlanRuns.FinishedWorkStays` | apps/backend/app/generation/delivery.py:564-604 | over any run completed work is never lost or rewritten |
| `PlanRuns.CompletedPartStandsAlone` | apps/backend/app/generation/delivery.py:274-300 | the completed part of an accepted plan keeps all its dependencies: it is a sound plan of its own |
| `PlanRuns.RetiredPlanCanBeRepaired` | apps/backend/app/generation/delivery.py:274-300 | after any run, retiring the plan leaves finished work on which the suggested repair plan can build |
| `ChatStream.SseData` | apps/backend/app/core/llm.py:78-96 | the loop over lines joins multi-line data fields per event and stops at `[DONE]` |
| `ChatStream.ReadStreamedChat` | apps/backend/app/core/llm.py:99-217 | reads exactly the turn that the events before `[DONE]` add up to, and nothing of a malformed or unfinished stream |
| `ChatStream.Absorb` | apps/backend/app/core/llm.py:109-188 | one chunk extends the accumulated content, reasoning and calls, or is refused as malformed |
| `ChatStream.Assemble` | apps/backend/app/core/llm.py:189-217 | a finished accumulation gives its calls in index order, or nothing if one is incomplete |
| `ChatStream.ChunksFold` | apps/backend/app/core/llm.py:99-188 | adding up chunks succeeds iff they end quietly after one finish and no two fragments of a call disagree, and then each accumulated field is the concatenation of its pieces |
| `ChatStream.ReadingInvertsCutting` | apps/backend/app/core/llm.py:99-217 | reassembly inverts fragmentation: any cut of content, reasoning and arguments with any interleaving of call indices gives the same turn, and without its calls, wherever they break off, when the length limit ended it |
| `ChatStream.OnlyCutsAreRead` | apps/backend/app/core/llm.py:99-217 | conversely whatever is read as a turn is a cut of that turn |
| `ChatStream.InterleavingDoesNotMatter` | apps/backend/app/core/llm.py:148-179 | two streams with the same pieces per call are cuts of the same calls |
| `ChatStream.CutStreamExposesNothing` | apps/backend/app/core/llm.py:189-190 | a response without its `[DONE]` line exposes nothing |
| `ChatStream.NothingWithoutFinish` | apps/backend/app/core/llm.py:180-217 | what is read carries finish reason and usage of some chunk, and a length-limited turn has no tool call |
| `ChatStream.FramingRoundTrip` | apps/backend/app/core/llm.py:78-96 | the line layer undoes multi-line framing (section 9.2.6 of the WHATWG HTML Standard) iff no payload has a `[DONE]` line |
| `ChatStream.OtherFieldsAreIgnored` | apps/backend/app/core/llm.py:78-96 | comment lines and other fields change nothing, wherever they stand |
| `ChatStream.ChunkDecodes` | apps/backend/app/core/llm.py:112-188 | decoding a chunk object inverts printing it, absent fields included |
| `ChatStream.StreamedTurnIsReadBack` | apps/backend/app/core/llm.py:78-217 | end to end: cut, print, frame and read back gives the same turn, for every JSON reader that inverts the writer |
| `ChatStream.PrintedTurnIsReadBack` | apps/backend/app/core/llm.py:78-217 | the same with JSON text as Python writes it, where floats in the usage are read back from their text |
| `JsonValues.ParseInvertsWrite` | apps/backend/app/core/llm.py:109-116 | parsing a written JSON value gives it back, wherever the float reader inverts the float writer |
| `SchemaInlining.DecodingInvertsEscaping` | apps/backend/app/schemas/agent_action.py:30-33 | reference names decode as in section 4 of RFC 6901 |
| `SchemaInlining.InlinesIffResolvable` | apps/backend/app/schemas/agent_action.py:21-50 | inlining ends on every schema and succeeds iff no reachable local reference is missing or leads back to itself |
| `SchemaInlining.NothingLocalIsLeft` | apps/backend/app/schemas/agent_action.py:21-50 | no `#/$defs/` reference and no `$defs` is left at any depth |
| `SchemaInlining.CleanIsUnchanged` | apps/backend/app/schemas/agent_action.py:25-45 | a schema without local references stays as it is |
| `SchemaInlining.InliningIsFullSubstitution` | apps/backend/app/schemas/agent_action.py:25-50 | inlining equals full substitution by the definitions with sibling keys overriding, in both directions |
| `SchemaInlining.InlinedSchema` | apps/backend/app/schemas/agent_action.py:11-50 | for a whole schema against its own `$defs`: the exact success condition, nothing local left, and equality with full substitution |
| `PreviewSessions.PreviewSession.PublishPorts` | apps/backend/app/services/preview.py:539-548 | the boot thread hands its reserved ports to the session, or takes them back if the session was stopped |
| `PreviewSessions.PreviewSession.PublishHandle` | apps/backend/app/services/preview.py:563-571 | the sandbox is handed over, or taken back with the ports if the session was stopped |
| `PreviewSessions.PreviewSession.Announce` | apps/backend/app/services/preview.py:595-603 | a session becomes ready only while it is not stopped and its sandbox runs |
| `PreviewSessions.PreviewSession.Fail` | apps/backend/app/services/preview.py:616-629 | the failing boot thread takes exactly what the session still holds |
| `PreviewSessions.PreviewSession.Stop` | apps/backend/app/services/preview.py:322-336 | a stop takes proxy, sandbox and ports, but leaves ports that the boot thread still owns |
| `PreviewSessions.BootKeepsSession` | apps/backend/app/services/preview.py:529-637 | every critical section and every step between them of the boot thread keeps the ownership invariant |
| `PreviewSessions.StopKeepsSession` | apps/backend/app/services/preview.py:322-348 | so does every step of the stopping thread |
| `PreviewSessions.RegistryIsExact` | apps/backend/app/services/preview.py:120-165 | in every interleaving of any number of sessions the registry holds exactly the owned ports and no port has two owners |
| `PreviewSessions.EverythingEndsOnce` | apps/backend/app/services/preview.py:322-348 | ports, sandbox and proxy are never ended twice; after a stop or failure each was ended as often as it was started, and a ready session keeps all three |
| `PreviewSessions.StoppedIsNeverReady` | apps/backend/app/services/preview.py:595-603 | a stopped session is never published as ready, then or later |
| `PreviewSessions.OnlyAFailedReservationLeaks` | apps/backend/app/services/preview.py:537-538 | a finished session still owns a port iff its second reservation failed |
| `PreviewSessions.FailedReservationLeaks` | apps/backend/app/services/preview.py:529-538 | the failing run: when the second reservation raises, the thread cleans up and ends with the first port still reserved |
| `PreviewSessions.LeakIsForGood` | apps/backend/app/services/preview.py:120-165 | whatever any session does later, a leaked port stays reserved for good |
| `PreviewSessions.ProxyOnReleasedPort` | apps/backend/app/services/preview.py:563-587 | the failing run: a stop between sandbox handover and proxy start releases the ports, yet a proxy is opened on one of them |
| `PreviewSessions.RunningProxyKeepsPorts` | apps/backend/app/services/preview.py:322-348 | in every interleaving a running proxy has its ports iff no stop took them, except while a failing boot thread shuts it down |
| `ConfigurationLedger.Ledger.StageConfigurationItem` | apps/backend/app/services/configuration_manager.py:219-259 | adds exactly one row with the next version of its kind, or refuses and changes nothing |
| `ConfigurationLedger.Ledger.LoadUpstream` | apps/backend/app/services/configuration_manager.py:69-91 | loads the named rows of the project in the order asked for, iff all exist |
| `ConfigurationLedger.Ledger.NextVersion` | apps/backend/app/services/configuration_manager.py:176-192 | one above the highest version of the project and kind |
| `ConfigurationLedger.Ledger.MarkRunConfigurationItemsUnusable` | apps/backend/app/services/configuration_manager.py:308-342 | marks exactly the usable rows of an ended run, with a reason of 1 to 500 characters |
| `ConfigurationLedger.ContentIsImmutable` | apps/backend/app/models/configuration_item.py:164-215 | over any steps content never changes, unusable is permanent and no row disappears |
| `ConfigurationLedger.VersionsAreConsecutive` | apps/backend/app/services/configuration_manager.py:176-192 | the versions per project and kind are exactly 1 to n, rising in row order |
| `ConfigurationLedger.EveryRowIsRooted` | apps/backend/app/services/configuration_manager.py:94-156 | links point to earlier rows of the same project, and the first links lead to an app spec in at most three hops |
| `ConfigurationLedger.RowsAreBornByTheRule` | apps/backend/app/services/configuration_manager.py:195-259 | every row of any run was staged by one step of it, and was born unusable iff its run was not eligible or one of its inputs was unusable at that moment; born unusable, it is the same now |
| `ConfigurationLedger.GeneratedReasonFits` | apps/backend/app/services/configuration_manager.py:195-216 | over any run every reason in the ledger fits its 500 characters, when ids, run statuses and directly written reasons fit their columns |
| `PlanLedger.PlanLedger.StagePlan` | apps/backend/app/services/plan.py:137-190 | stores a new definition as the next plan, replays an identical one, and refuses a different one under a taken version |
| `PlanLedger.PlanLedger.StageRunning` | apps/backend/app/services/plan.py:91-108 | claims a pending plan only while no other plan of the run is running |
| `PlanLedger.PlanLedger.StageSucceededIfTasksComplete` | apps/backend/app/services/plan.py:111-126 | ends a plan iff it has tasks and all of them succeeded |
| `PlanLedger.StagingIsIdempotent` | apps/backend/app/services/plan.py:35-45 | repeating an identical staging gives the stored plan and leaves the ledger unchanged, whatever happened in between |
| `PlanLedger.HandCodeKeepsInv` | apps/backend/app/services/leader.py:931-993 | a code handoff keeps the cycle bound and adds at most one successor of the latest plan |
| `PlanLedger.RetryKeepsInv` | apps/backend/app/services/leader.py:996-1115 | so does a retry of a blocked validation |
| `PlanLedger.RepairKeepsInv` | apps/backend/app/services/leader.py:1118-1290 | so does the repair after a failed report, which ends the run after the last cycle |
| `PlanLedger.QualityCyclesAreBounded` | apps/backend/app/services/leader.py:1057-1109 | over all runs there are never more than `MAX_QUALITY_CYCLES` quality tasks, although the handoff to validation does not test the bound |
| `PlanLedger.PlansFormOneChain` | apps/backend/app/services/leader.py:940-987 | each plan has at most one successor, with version plus one, and no definition is rewritten |
| `PlanLedger.CodeHandoffIsReplayed` | apps/backend/app/services/engineering/handoff.py:24-47 | a code handoff that succeeded is replayed in every later state: same plan, nothing changed, while the code is still fit |
| `SourceStore.KeysAreInjective` | apps/backend/app/artifacts/source.py:30-33 | different project and digest pairs have different object keys |
| `SourceStore.Store.Put` | apps/backend/app/artifacts/source.py:51-89 | stores the payload under its own digest iff it is not there yet, refuses a wrong digest, identity or corrupt object, and leaves no temporary file |
| `SourceStore.ObjectsMatchTheirKeys` | apps/backend/app/artifacts/source.py:51-89 | for any number of writers and crashes between the steps, every visible object is some upload complete under its own digest |
| `SourceStore.ObjectsStay` | apps/backend/app/artifacts/source.py:74-78 | a stored object is never removed and never changes its digest |
| `SourceStore.NothingIsCorrupt` | apps/backend/app/artifacts/source.py:58-61 | no interleaving makes a writer report corruption or a failed verification |
| `SourceStore.StoredBytesAreReadBack` | apps/backend/app/artifacts/source.py:91-98 | after a completed put every later read with its key and size gives exactly the stored bytes |
| `AppSpecDocuments.MakeStableId` | apps/backend/app/schemas/app_spec.py:48-55 | the retry loop, asked only where its chain leaves the used ids, ends with an id that is not used yet |
| `AppSpecDocuments.LeavesSoon` | apps/backend/app/schemas/app_spec.py:51-53 | a chain that ever leaves the used ids has left them after as many retries as there are used ids, so the loop ends by then or never |
| `AppSpecDocuments.FreeIffChainLeaves` | apps/backend/app/schemas/app_spec.py:48-55 | the id is free iff its chain leaves the used ids, whatever the hash does |
| `AppSpecDocuments.ReturningChainIsTrapped` | apps/backend/app/schemas/app_spec.py:51-53 | the failing inputs: where the hash comes back to an earlier id, taking the ids up to there keeps the loop from ending |
| `AppSpecDocuments.CoerceItemList` | apps/backend/app/schemas/app_spec.py:97-109 | coerces item by item with the ids taken so far, and adds the ids of the result to the used ones |
| `AppSpecDocuments.CoercedIdsAreUnique` | apps/backend/app/schemas/app_spec.py:130-149 | coercion gives every item a valid id, unique across the whole document iff each retry loop that it comes to ends |
| `AppSpecDocuments.NoRepeatedIds` | apps/backend/app/schemas/app_spec.py:151-181 | the later check for repeated ids passes on a coerced document iff each retry loop that coercion came to ends |
| `AppSpecDocuments.UnchangedIffSettled` | apps/backend/app/schemas/app_spec.py:130-181 | reading a written document gives it back iff it has content, unique ids and criteria that name features |
| `AppSpecDocuments.ParsingIsIdempotent` | apps/backend/app/schemas/app_spec.py:130-181 | normalisation is idempotent on its own output |
| `Approvals.ResolveItems` | apps/backend/app/services/app_spec.py:122-134 | fails iff an entry is unknown where no new one is allowed, and otherwise keeps all entries in order |
| `Approvals.BuildAcceptance` | apps/backend/app/services/app_spec.py:137-170 | succeeds iff every approved feature keeps a criterion or brings one; keeps exactly the criteria whose sources are all unchanged approved features |
| `Approvals.AcceptanceCovers` | apps/backend/app/services/app_spec.py:137-170 | a successful result covers every approved feature and names approved features only |
| `Approvals.ApproveChecklist` | apps/backend/app/services/app_spec.py:254-295 | the one error reported is the missing feature, else the first entry with misplaced acceptance or unknown id, else the first data and then the first interface entry of another list, else the first feature without acceptance; without an error exactly the approved document is built |
| `Approvals.ApprovalComesThroughIff` | apps/backend/app/services/app_spec.py:254-295 | for a settled source the document validators leave a successful approval unchanged iff the selected ids differ, none is the id of a kept criterion, and kept and new criteria are at most 50 |
| `Approvals.SharedIdIsChanged` | apps/backend/app/services/app_spec.py:137-170 | the first failing input: distinct selected ids, one of them the id of a kept criterion; the approval succeeds and the validators do not leave it as it is |
| `Approvals.FiftyKeptAndOneNewAreRefused` | apps/backend/app/services/app_spec.py:151-170 | the second failing input: 50 criteria of one feature are kept, a new feature adds its own, and the validators refuse the 51 |
| `EngineerBudget.EngineeringRun.LoadStep` | apps/backend/app/orchestration/code_engineer.py:969-1027 | the step goes on to reserve a turn iff the run is running, has work and has a turn and a tool call left, and spends nothing itself |
| `EngineerBudget.EngineeringRun.ExecuteCall` | apps/backend/app/orchestration/code_engineer.py:601-629 | a call is charged one unit before it runs, with room for two if it completes a work item; without room the run is blocked and nothing is charged |
| `EngineerBudget.EngineeringRun.RunEngineeringWorkflow` | apps/backend/app/orchestration/code_engineer.py:1256-1312 | the loop ends whatever the world answers, with both budgets respected |
| `EngineerBudget.AdvanceIsLower` | apps/backend/app/orchestration/code_engineer.py:1298-1300 | each step lowers the measure of remaining model turns, or the rest of the turn it is in |
| `EngineerBudget.ApplyKeepsInv` | apps/backend/app/orchestration/code_engineer.py:1037-1077 | crash, resumption, retry and replacement keep the checkpoint within both budgets |
| `EngineerBudget.BudgetsHold` | apps/backend/app/orchestration/code_engineer.py:615-629 | at every durable checkpoint model turns and tool calls are within the budget of the time, including the second unit of a completed item, which another transaction takes without a check; each retry a user asks for adds at most 80 turns and 120 calls |
| `EngineerHistory.RetainObservations` | apps/backend/app/agents/code_engineer.py:79-219 | the loop over the last 24 results retains, newest first, what the step function admits and charges exactly that |
| `EngineerHistory.ReplayedReadsAreFresh` | apps/backend/app/agents/code_engineer.py:128-152 | replayed reads agree with the known source, repeat no range and come from at most two decisions |
| `EngineerHistory.LaneKeepsItsNewest` | apps/backend/app/agents/code_engineer.py:153-165 | of plan results and of results per check exactly the newest relevant one is retained |
| `EngineerHistory.OverrunIsTheRestOfOneBatch` | apps/backend/app/agents/code_engineer.py:205-219 | what is retained past 100,000 characters belongs to decisions admitted before, and with results grouped by decision it is the rest of the one admitted last |
| `EngineerHistory.ChronologicalIsGrouped` | apps/backend/app/agents/code_engineer.py:117-121 | results recorded under rising turn numbers are grouped by decision |
| `EngineerHistory.BudgetNeverSplitsADecision` | apps/backend/app/agents/code_engineer.py:215-219 | the character limit cuts between two decisions, never inside one |
| `EngineerHistory.CompactTwice` | apps/backend/app/agents/code_engineer.py:43-50 | compacting is idempotent |
| `EngineerHistory.EmitExchanges` | apps/backend/app/agents/code_engineer.py:220-256 | the replay loop computes the replay specification, oldest result first |
| `EngineerHistory.NativeResponsesAreAtomic` | apps/backend/app/agents/code_engineer.py:220-247 | a recorded multi-call response is emitted once, with all its calls and their results in call order, or no result of it is emitted at all |
| `EngineerHistory.OthersAreReplayedAsPairs` | apps/backend/app/agents/code_engineer.py:248-256 | every other retained result is emitted once as a call and its result, in recorded order |
| `EngineerHistory.EveryExchangeIsAnswered` | apps/backend/app/agents/code_engineer.py:231-256 | every emitted exchange answers each of its calls in order |
| `EngineerHistory.ReplayIsWellPaired` | apps/backend/app/agents/code_engineer.py:220-256 | what is replayed of results recorded under the names of their calls is a well-paired history |
| `EngineerHistory.ProjectHistory` | apps/backend/app/agents/code_engineer.py:79-256 | selection and replay together give the projected exchanges |
| `EngineerHistory.ProjectedHistoryIsSound` | apps/backend/app/agents/code_engineer.py:79-256 | with one response per turn and results recorded under the names of their calls, the projected history is well paired and holds each recorded response once and complete or not at all |
| `ObservationText.ToolObservationJson` | apps/backend/app/agents/tool_protocol.py:46-60 | gives the serialised result itself if it has at most 20,000 characters, and otherwise the first halving of the excerpt that fits |
| `ObservationText.LoopEndsIffFixedPartFits` | apps/backend/app/agents/tool_protocol.py:54-60 | the halving loop ends iff the result without any data fits in 20,000 characters |
| `ObservationText.LongErrorCodeNeverFits` | apps/backend/app/agents/tool_protocol.py:54-60 | the failing inputs: with an error code over 20,000 characters no round fits |
| `ObservationText.TrimmedSize` | apps/backend/app/agents/tool_protocol.py:55-57 | the size of a round is the fixed part plus the escaped length of the excerpt |
| `ObservationText.AttemptSize` | apps/backend/app/agents/tool_protocol.py:55-60 | escaping costs at most six characters for one, so halving must come down to the fixed part |
| `ObservationText.BoundedResultsFit` | apps/backend/app/agents/tool_protocol.py:46-60 | with id and name within the schema limits and an error code of at most 1,900 characters the loop ends and the text fits |
| `ObservationText.BoundedTextIsWholeJson` | apps/backend/app/agents/tool_protocol.py:46-60 | the text is one complete JSON document with the id, turn, name, outcome and error code of the result; a shortened one says so and quotes a prefix of its data |
| `ObservationText.VisibleLimit` | apps/backend/app/generation/engineering/work_memory.py:41-50 | the bisection finds the longest prefix within 12,000 characters whose JSON has at most 14,000 |
| `JsonText.LoadsInvertsDumps` | apps/backend/app/agents/tool_protocol.py:46-60 | reading inverts writing for every document, with the escapes that Python writes |
| `ToolLoopRuns.OnlyOpenToolsRun` | apps/backend/app/agents/tool_protocol.py:151-195 | every executed call was proposed by the reply of its turn, in call order, and every call of that reply is in the final set on the last turn of the budget if there is one, and allowed otherwise; at most 16 run, a second one only among batch reads |
| `ToolLoopRuns.ReplyDecides` | apps/backend/app/agents/tool_protocol.py:163-188 | what each reply leads to: a forbidden batch ends the run naming the first closed tool before any tool runs, a protocol error adds one user message, any other batch is executed |
| `ToolLoopRuns.HowRunsEnd` | apps/backend/app/agents/tool_protocol.py:151-217 | a run ends in each of its ways exactly on its own event; with `ForbiddenTool(name)` exactly when the last reply proposes a closed tool and `name` is the first such |
| `ToolLoopRuns.FirstReservation` | apps/backend/app/agents/tool_protocol.py:141-159 | a run starts by saving the next turn number on the saved history, or on the messages if there is none |
| `DispatchGuarantees.GivesUpOnlyWhenSpent` | apps/backend/app/agents/leader.py:131-165 | over all runs a loop ends for want of turns only at a saved turn count of at least 1 that has reached the frozen `max_turns` or 16 |
| `DispatchGuarantees.LeaderRunsItsTools` | apps/backend/app/agents/leader.py:131-165 | over all runs the Leader executes one call per turn, of its nine tools, and on the last paid turn only the two that end the round |
| `DispatchGuarantees.LeaderTakesBatchIff` | apps/backend/app/agents/leader.py:131-165 | and it takes a reply up exactly when there is a call and all tools in it are open on the turn |
| `DispatchGuarantees.OnlyALiveLeaseCommits` | apps/backend/app/services/leader_dispatch.py:59-106 | whatever is saved or handed off is so by the owner of an unexpired lease of a running, unpaused approval stage; a save renews it for 600 seconds, and that owner is never refused |
| `DispatchGuarantees.ClaimGrantedIff` | apps/backend/app/services/leader_dispatch.py:16-56 | a claim is granted exactly for such a run whose row is new, or its own and without an unexpired lease |
| `DispatchGuarantees.LeaseLasts` | apps/backend/app/services/leader_dispatch.py:40-106 | over any moves nobody else gets the lease for 600 seconds after it was taken or renewed, unless its owner gives it back |
| `DispatchGuarantees.JudgedThenSaved` | apps/backend/app/services/leader.py:862-889 | a rejected decision is saved as one more user message without an output, an accepted one with its output, and neither spends a turn |
| `DispatchGuarantees.DecisionsGoOn` | apps/backend/app/services/leader.py:889-908 | a finished round is judged, and a saved decision goes through record and assignment only under a standing lease |
| `PlanRules.ValidMeansRules` | apps/backend/app/generation/delivery.py:320-561 | the validator accepts exactly the plans that keep the rules, said of the items themselves: walks along dependsOn instead of a graph, statuses, kinds and limits as they stand, and a prerequisite that is met by a declared provision, or without one by a link of anything but a visual foundation |
| `PlanRules.ReportsMeanFindings` | apps/backend/app/generation/delivery.py:320-561 | the reported issues are exactly what these rules find in the first stage that fails |
| `StreamWire.DataLineIff` | apps/backend/app/core/llm.py:82-90 | a line carries data iff it starts with `data:`, and its value is the rest less one blank |
| `StreamWire.UnfinishedExposesNothing` | apps/backend/app/core/llm.py:189-190 | without one of the two spellings of the end line nothing is exposed |
| `StreamWire.DecodesIff` | apps/backend/app/core/llm.py:112-188 | a JSON value is read as a chunk iff it has the fields the source checks: one choice object with index 0, an object delta, texts or null, well-formed fragments, and a usage object whenever there is a finish reason |
| `StreamWire.AccumulatesIff` | apps/backend/app/core/llm.py:99-217 | chunks are accumulated to exactly the turn they make: texts and arguments in order, one finish with nothing after it, complete calls in index order, no contradiction |
| `StreamWire.ReadIff` | apps/backend/app/core/llm.py:99-217 | a stream is read as a turn iff the events before `[DONE]` are well-formed chunk objects that make this turn |
| `StreamWire.ReadTurnIsFinished` | apps/backend/app/core/llm.py:180-190 | a turn that is read was finished on the wire by one object with its finish reason and its usage object |
| `InlinedSchemas.DecodesInOnePass` | apps/backend/app/schemas/agent_action.py:30-33 | the two replacements read every pointer as one pass over the escapes of RFC 6901, section 4 |
| `InlinedSchemas.InlinesKeyByKey` | apps/backend/app/schemas/agent_action.py:11-50 | a schema is inlined to a result iff it is its inlining key by key: beside a reference every own key but `$ref` and `$defs` is kept and overrides the definition, `$defs` is dropped everywhere, nothing else changes |
| `ProposedPlans.SuggestionIsProposal` | apps/backend/app/generation/delivery.py:152-201 | the proposal in terms of specification and design: the foundation under the first free name, then one item per feature that waits for it and for exactly what the design wants directly before, accepted by the criteria that concern only the feature and what the design wants first |
| `PlanProgress.MayCompleteMeans` | apps/backend/app/generation/engineering/checks.py:113-130 | a check may complete an item iff it is the first pending one whose dependencies are completed, and one that provides something or is the last only after the full check |
| `PlanProgress.CompletedNowMeans` | apps/backend/app/generation/engineering/checks.py:131-156 | completing changes status and summary of that item alone, the next workable one becomes current, and without one the run has generated everything or is blocked |
| `PlanProgress.AdoptedMeans` | apps/backend/app/orchestration/code_engineer.py:740-770 | an adopted plan replaces the items, is recorded, and its first workable item becomes current |
| `PlanProgress.MigratedMeans` | apps/backend/app/generation/delivery.py:274-300 | a retired plan keeps exactly its completed items in their order, is recorded if it had any item, and wants a new plan |
| `RepairRequests.NumberedIsRead` | apps/backend/app/generation/delivery.py:77-82 | every line of whitespace, perhaps a bullet, one or two digits, a delimiter and text is recognised as numbered |
| `RepairRequests.OnlyNumberedIsRead` | apps/backend/app/generation/delivery.py:77-82 | and only such a line |
| `RepairRequests.DefectsMean` | apps/backend/app/generation/delivery.py:80-89 | one defect per numbered line, with the words of that line and of all lines up to the next numbered one |
| `RepairRequests.TargetsMean` | apps/backend/app/generation/delivery.py:74-91 | one single-spaced target per defect if there are 1 to 20, and the whole request as one target otherwise |
| `RepairRequests.RepairMeans` | apps/backend/app/generation/delivery.py:109-131 | a proposed repair quotes its target as title and as its one acceptance text, links and depends on nothing, and has an id nobody has |
| `PreviewOutcomes.FailedCallDooms` | apps/backend/app/services/preview.py:529-637 | a failed reservation, launch, wait, proxy or page check leads the boot thread to its cleanup and to nothing else |
| `PreviewOutcomes.ReadyNeedsEverySuccess` | apps/backend/app/services/preview.py:529-637 | over any moves a session one of whose calls failed is never ready |
| `PreviewOutcomes.UndisturbedBootIsReady` | apps/backend/app/services/preview.py:529-600 | a run without failure and stop ends ready with proxy, sandbox and both ports |
| `PreviewOutcomes.StopEndsBoot` | apps/backend/app/services/preview.py:545-600 | a stopped session that is still booting takes back what it published and is never announced |
| `QualityHandoffs.CodeHandoffMeans` | apps/backend/app/services/leader.py:931-993 | fit code of the newest plan is handed to validation once, as a plan with one quality task on exactly this code, under exactly these conditions; afterwards that plan is given back |
| `QualityHandoffs.UnfitCodeIsRefused` | apps/backend/app/services/leader.py:931-993 | code that no succeeded engineering task published in usable form is refused |
| `QualityHandoffs.RetryMeans` | apps/backend/app/services/leader.py:996-1115 | a validation is repeated iff its unchallenged block by missing evidence is the newest plan's and there are fewer than three, and on the code of the report |
| `QualityHandoffs.RepairMeans` | apps/backend/app/services/leader.py:1180-1250 | a due report ends the run as failed after three validations, and an answer other than a repair only marks the run |
| `QualityHandoffs.RepairOpens` | apps/backend/app/services/leader.py:1252-1283 | a repair opens one engineering task on the source of the code, its test plan if it has one, and the report |
| `QualityHandoffs.RepairNotDue` | apps/backend/app/services/leader.py:1150-1206 | a report that is not due is answered by the earlier repair, by nothing in an ended run, or refused |
| `QualityHandoffs.StagedIff` | apps/backend/app/services/plan.py:137-190 | a plan under a new version is stored iff the run is live, the cause is a user message, and all inputs exist and are usable |
| `QualityHandoffs.AtMostThreeValidations` | apps/backend/app/services/leader.py:1057-1109 | over all runs there are never more than three quality tasks |
| `AppSpecDocuments.CoerceDocument` | apps/backend/app/schemas/app_spec.py:126-149 | the five lists are coerced one after the other from one pool of ids, wherever the retry loops they start end |
| `PlanLedger.PlanLedger.StageCancelled` | apps/backend/app/services/plan.py:129-134 | cancels a plan iff nobody has claimed it |
| `PlanLedger.PlanLedger.DispatchCompletedCode` | apps/backend/app/services/leader.py:931-993 | the handoff as one transaction: replays the earliest, or opens the next plan, or is refused and changes nothing |
| `PlanLedger.PlanLedger.RetryBlockedQualityValidation` | apps/backend/app/services/leader.py:996-1115 | the retry as one transaction, which takes its own changes back when it is refused |
| `PlanLedger.PlanLedger.DispatchQualityRepair` | apps/backend/app/services/leader.py:1118-1290 | the repair as one transaction |
| `StoreRules.WhyNotMeans` | apps/backend/app/artifacts/source.py:51-89 | why an undisturbed upload fails, in the order of the checks |
| `PlanProgress.PendingMeans` | apps/backend/app/generation/delivery.py:573-574 | proposed items start as pending work without a summary |
| `RepairRequests.NumberedTextMeans` | apps/backend/app/generation/delivery.py:77-85 | a numbered line opens a defect with the words behind its number |
| `StreamWire.JoinedText` | apps/backend/app/core/llm.py:78-96 | the text of an event is its data lines with a line break between each two |
| `ObservationRules.SerializedMeans` | apps/backend/app/agents/tool_protocol.py:46-60 | the text has the nine fields of the result schema, in its order |
| `ObservationRules.AttemptMeans` | apps/backend/app/agents/tool_protocol.py:50-60 | the first excerpt has up to 10,000 characters and each further one half as many |
| `TextRules.StripMeans` | apps/backend/app/generation/delivery.py:76-88 | stripping cuts off the whitespace at both ends and nothing else |
| `TextRules.SplitMeans` | apps/backend/app/generation/delivery.py:76-76 | splitting gives the text between the line breaks, in order |
| `TextRules.OrderMeans` | apps/backend/app/generation/delivery.py:185-185 | sorting is by characters from the left |
| `HistoryRules.RetainedIff` | apps/backend/app/agents/code_engineer.py:107-213 | each result, judged against the newer ones that are retained: passed over unless worth showing, else retained at its price if that fits into 100,000 characters or its decision is shown already, else the history ends there |
| `HistoryRules.WindowIsTheLast24` | apps/backend/app/agents/code_engineer.py:107-209 | the history looks at the last 24 results and adds nothing older once it has ended |
| `HistoryRules.CompactMeans` | apps/backend/app/agents/code_engineer.py:43-50 | texts are cut at 12,000 characters with a note and lists after 40 items, at every depth |
| `HistoryRules.ShownMeans` | apps/backend/app/agents/code_engineer.py:166-196 | what is shown of a result: the current excerpt of a read, the whole arguments of a plan update, and 300 and 700 characters of a long check output around a note |
| `HistoryRules.ReplayMeans` | apps/backend/app/agents/code_engineer.py:214-256 | a replayed response has its content, reasoning and calls as recorded and the oldest shown result of each call; any other result is its own call and then itself |
| `HistoryRules.ResponseMeans` | apps/backend/app/agents/code_engineer.py:99-105 | a result belongs to the last response recorded for its turn and call, if there is any |
| `HistoryRules.CompleteIff` | apps/backend/app/agents/code_engineer.py:228-232 | a response is complete iff each of its calls has a shown result under its turn |
| `ApprovalRules.CriteriaMean` | apps/backend/app/services/app_spec.py:137-170 | the criteria are those whose features are all approved as they were, in their order, and then one for each feature left out, with the last text given for it; there are such iff every feature left out brings one |
| `ApprovalRules.ApprovedMeans` | apps/backend/app/services/app_spec.py:275-295 | the approved document has the selected entries of each kind in their order, the users of the source and no open question |
| `ApprovalRules.FitsMeans` | apps/backend/app/services/app_spec.py:254-284 | the checklist passes iff there is a feature and every other entry brings no acceptance text and stands in its list |
| `ApprovalRules.ChecklistMeans` | apps/backend/app/services/app_spec.py:258-273 | what the first pass refuses an entry for, and which error it names |
| `BudgetRules.LoadingMeans` | apps/backend/app/orchestration/code_engineer.py:969-1027 | a step goes on iff the run is open, both budgets have something left and there is work; otherwise the first of these reasons is recorded |
| `BudgetRules.CallMeans` | apps/backend/app/orchestration/code_engineer.py:601-629 | a call takes one unit if there is room for it, or for two when it completes an item; without an accepted plan nothing is completed |
| `BudgetRules.ResultMeans` | apps/backend/app/orchestration/code_engineer.py:630-760 | completing takes the second unit; a decided outcome stops the run before the next call or turn |
| `BudgetRules.TurnMeans` | apps/backend/app/orchestration/code_engineer.py:1037-1077 | a turn is paid for before it is made and counts as planning while no plan is accepted; a fault blocks the run, a provider failure only ends the execution |
| `BudgetRules.RetryMeans` | apps/backend/app/generation/engineering/checkpoint.py:366-373 | a retry of a blocked run raises the budget to 80 turns and 120 calls above what is spent |
| `BudgetRules.TakeOverMeans` | apps/backend/app/orchestration/code_engineer.py:1037-1077 | a new execution keeps the budget, and reopens only a blocked run it is asked to resume |
| `BudgetRules.ReplacedIsPaused` | apps/backend/app/orchestration/code_engineer.py:1298-1300 | an execution that was replaced changes neither checkpoint nor budget |
| `LedgerRules.InputsMean` | apps/backend/app/services/configuration_manager.py:94-173 | the sequences of input kinds that an artifact of each kind may have |
| `LedgerRules.ReasonMeans` | apps/backend/app/services/configuration_manager.py:195-216 | the reason names the state of the run, the first five unusable inputs and how many more there are |
| `LedgerRules.StagedMeans` | apps/backend/app/services/configuration_manager.py:219-259 | registered iff project and run belong together, the submission is in form, every input is registered and fits, and the id is new |
| `LedgerRules.RowMeans` | apps/backend/app/services/configuration_manager.py:219-259 | the new row has what was submitted, the next version of its kind and its reason from birth |
| `StoreRules.KeyMeans` | apps/backend/app/artifacts/source.py:30-33 | the path of an object, for a positive project and a digest of 64 characters |
| `StoreRules.ReadMeans` | apps/backend/app/artifacts/source.py:91-98 | a reader gets the stored bytes iff they have the size and digest it asks for |
| `StoreRules.StepMeans` | apps/backend/app/artifacts/source.py:51-89 | an upload writes only under its own key, takes a stored object over iff its digest is right, and believes only what it has read back |
| `ObservationRules.LimitMeans` | apps/backend/app/agents/tool_protocol.py:46-60 | the limit is 20,000 characters, and the loop ends iff the rest fits without any excerpt |
| `ObservationRules.TrimmedMeans` | apps/backend/app/agents/tool_protocol.py:55-57 | what a shortened result keeps and what it quotes |
| `ObservationRules.VisibleMeans` | apps/backend/app/generation/engineering/work_memory.py:41-50 | the visible part is the longest front of at most 12,000 characters with at most 14,000 as JSON |
| `DocumentRules.ItemMeans` | apps/backend/app/schemas/app_spec.py:58-94 | an item takes its text from the first of three names, keeps its own id if that is free and valid and is given a made one otherwise, and keeps its sources where the list has them |
| `DocumentRules.ListsMean` | apps/backend/app/schemas/app_spec.py:130-149 | the five lists in the order in which they draw ids, each with its prefix |
| `DocumentRules.ListMeans` | apps/backend/app/schemas/app_spec.py:97-109 | a missing list stays missing, null is empty, and more than 50 items are refused |
| `DocumentRules.MadeIdMeans` | apps/backend/app/schemas/app_spec.py:48-55 | a made id digests prefix, index and text, and each retry the last id |
| `DocumentRules.FieldsMean` | apps/backend/app/schemas/app_spec.py:9-22 | ids and texts within the bounds of the schema |
| `DocumentRules.SettledMeans` | apps/backend/app/schemas/app_spec.py:151-181 | the last check passes iff there are features and criteria, or questions instead, and no id is used twice; it changes only the sources of criteria, to those that are features or to all features |

## Left out

- LLM providers, prompts, telemetry, HTTP, sockets, containers, migrations and the sandbox: the
  provider, the tools, the checkpoint callback and the world of the engineering loop are arbitrary answers.
- Message texts are translated or shortened where their length does not matter; `export_state` in the
  tool loop and the tool definitions sent to the provider are not modelled.
- Owner tokens, object tokens and new criterion ids come from `uuid4` and are taken as fresh.
- SHA-256 is a function of the bytes; where equal digests must mean equal bytes, the lemma asks that the
  payloads of the run do not collide. Definition and content hashes stand for the definitions themselves.
- AppSpecDocuments.CoercedIdsAreUnique: of the hash only its ten hexadecimal characters are used; which chains
  of SHA-1 leave the used ids is not decided here.
- Which error an inlined schema reports when several references are broken, and the order of keys in it.
- Numbers that Python writes as `NaN` or `Infinity`, and lone surrogates, in JSON text.
- JsonValues.ParseInvertsWrite: how a float is written is a parameter; the values are those whose floats are read
  back from their text, as Python's are.
- DeliverySuggestions.SuggestedDeliveryPlan: asks for distinct feature ids, which the specification's own
  validators guarantee.
- RepairPlans.RepairTargets: the digit class of the regular expression is a parameter.
- RepairRequests.NumberedIsRead: asks that it holds no whitespace, bullet or delimiter.
- QualityHandoffs.CodeHandoffMeans: asks that an artifact is published by one task and that plan versions differ, as the
  tables enforce; so do the other lemmas on handoffs.
- Field limits of plan items other than the ones that decide whether a repair target is usable as a text.
- The steps of `create_engineering_delivery_task` and `create_architecture_task`: a handoff is the event
  that carries the decision.
- Product revisions by challenge and Leader-authored plans with free version numbers: they lie outside the
  quality-cycle bound, and so does the choice among next actions that do not open a repair.
- PreviewSessions.EverythingEndsOnce: `runtime.stop` is taken as not raising, and the sweep of idle sessions is
  an ordinary stop.
- Paths and symbolic links of the source store, and the deletion of stale temporary files.
- ObservationText.VisibleLimit: only the search for the limit; cutting back to whole lines and the line numbers are not modelled.
- EngineerHistory.RetainObservations: the excerpt of a read result and the size of a recorded response are
  parameters; call ids and tool names are taken as short enough that compacting leaves them alone. The user messages
  around the replayed history are not modelled.
- EngineerHistory.NativeResponsesAreAtomic: asks that each turn has one recorded response, as the engineering loop records them.
- EngineerHistory.ReplayIsWellPaired: asks that a recorded result carries the name of the recorded call it answers.
- EngineerBudget.BudgetsHold: a retry is possible for any blocked run; which blocks the source lets a user retry is not modelled.
- Goal, target users and open questions in an approval, and the history of approvals: plain field checks.
- Code retrieval, redaction, security rules, benchmark scoring, authentication, settings and the frontend:
  heuristics and plumbing.
