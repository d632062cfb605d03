# NixFleet deploy loop, verified

A Dafny model of NixFleet's deploy loop. A control plane plans rollouts from signed manifests and queues
dispatches; an agent reduces events into one record per rollout and ships its reports through a
crash-safe disk queue; the control plane mirrors the reports, aggregates them per rollout and plans again.
Codecs, trust checks and a poll loop sit at the edges. `dafny verify dfyconfig.toml` checks everything.

Each module follows one source component:

- Host machine: `HostMachine` (the pure reducer both sides share), `HostRuns` (what every run keeps), `HostFields`
  (the same machine field by field and effect by effect), `Mirror` (agent and control plane in lockstep).
- Durable queue: `EventFiles` (file names), `QueueCrash` (every file operation a step, a crash between any
  two), `Drain` (scans and rounds), `OutboundQueue` (the class over a directory), `Pipeline` (agent run,
  queue, drain, mirror, end to end), `Delivery` (the same through crashes and retransmissions).
- Agent reducer: `AgentReducer` (the class with the advance tick), `AgentLaws`.
- Control plane tables: `RolloutMachine`, `RolloutsTable`, `DispatchQueue`, `Timestamps` (stored text against
  instants), `ControlPlane` (rollouts and host records together, over runs), `ControlFields` (what each write
  changes), `StateReach` (the states they hold).
- Planner: `Fleet`, `Gates`, `Verdicts` (the gates' verdict on the context's own fields), `Planner`, `ControlLoop` (tables to planner and back), `Ticks` (map orders and
  several ticks), `Waves`, `WaveReach`, `Recovery`, `PlannerLimits`.
- Edges: `RolloutIds`, `Manifest`, `Der`, `Pem`, `Verify`, `PollLoop`.
- `Wrappers` and `Text` are shared helpers.

Imperative source is a class or a method with a loop, proved against a function or a relation; maps that
Rust enumerates in arbitrary order are enumerated with `:|`, so a postcondition that fixes the result says
that the order does not matter. The results are lemmas about those functions and relations.

## Where the code does less than it says

Each item is a theorem about the code as it stands, with the exact condition where there is one.

- Quarantine: the planner's quarantine set is created empty and never filled, although
  `quarantined_closures.rs` says that the gate reads the table on every tick. A closure is protected exactly
  when the planner's own set holds it (`PlannerLimits.ProtectedIff`), so a quarantined closure is queued
  again when it is published under a new ref (`PlannerLimits.QuarantinedIsQueuedAgain`).
- Queue order: `scan_pending` keys by sequence number across rollouts, and its comments speak of one
  ascending scan. Draining keeps each rollout's order exactly when no event that has a successor in its
  rollout shares its number (`Drain.InOrderIff`); otherwise the mirror can drop a report for good
  (`Pipeline.CollapseLosesReport`).
- Queue names: `mark_sent` deletes by name. Nothing acknowledged is ever lost exactly when different events
  have different file names (`QueueCrash.LosesNothingIff`).
- Deferral: the worker numbers `LocalActivationDeferred` 0 and `with_seq` has no arm for it, so the agent
  always rejects it (`AgentLaws.DeferralAcceptedIff`, `AgentLaws.DeferredIsUnreachable`). The comments say
  the host stays `Activating` by design, while the shared machine moves it to `Deferred`.
- Budgets are documented as the most hosts in flight, ever; they hold per tick. Hosts queued but not
  acknowledged are not counted on the next tick, so ticks without an acknowledgement keep a cap exactly when
  all hosts that could be queued under it fit at once (`Ticks.TicksWithinCapIff`). From the empty tables two
  ticks and two acknowledgements put two hosts in flight under a cap of one (`PlannerLimits.TwoTicksExceedTheCap`).
- `plan_next` is documented as deterministic, but it walks maps. Which hosts one tick queues is independent of
  their order exactly when under each cap all candidates fit (`Ticks.OrderDoesNotMatterIff`); the action list
  is, exactly when there is at most one open and one host to decide (`Ticks.OneAnswerIff`).
- Rollout states: of the eight, the control plane stores exactly five (`StateReach.FiveStatesStored`). The prune
  query names `Failed` and `Reverted`, but such a row carries no timestamp and is not deleted until a successor
  supersedes it (`RolloutsTable.BrokenNeverExpires`).
- Retention: pruning a finished rollout that is still advertised makes the planner open it again
  (`ControlLoop.PruningReopensIff`).
- A snapshot older than the agent rewinds its counter. The agent's next report gets a new number exactly when the
  snapshot is not behind (`AgentLaws.NextIsNewIff`), that is, when nothing was reported while the snapshot
  travelled (`AgentLaws.NextIsHeardIff`); otherwise the control plane ignores it.
- Waves: selectors are resolved over all hosts of the fleet, but a rollout joins only its channel's hosts that have
  a closure. A wave that names any other host never counts as done, so the cursor cannot get past it
  (`WaveReach.ReachableIff`, `Waves.StuckCursorStays`, an input in `WaveReach.MixedWaveBlocks`). The host-edge gate
  skips hosts of other channels for this reason; the wave bump does not.
- The poll loop's comment expects no read with a zero budget; a read always comes first, so its placeholder
  text is never produced (`PollLoop.UntilSettled`).
- PEM: extracting twice is not always the same as extracting once (`Pem.ExtractAgainIff`, `Pem.SecondCanDiffer`).

## Model

| member | source | states |
|---|---|---|
| HostRuns.StepAcceptsIff | crates/nixfleet-state-machine/src/lib.rs:63-70 | An event is accepted exactly when its number beats the counter, the state permits it, and a convergence claim meets its three conditions |
| HostRuns.RejectionKind | crates/nixfleet-state-machine/src/transitions/mod.rs:28-58 | A refused event gets exactly one of the three errors, each under its own condition, sequence regression first |
| HostRuns.StepAdvancesSeq | crates/nixfleet-state-machine/tests/invariants.rs:516-533 | The counter moves to the number of an accepted event, upwards, and a rejected event changes nothing |
| HostRuns.RunKeepsCoherent | crates/nixfleet-state-machine/src/state.rs:150-188 | Over every run the timestamps and closures of a record agree with its state, its identity never changes, its counter never goes back |
| HostRuns.ConvergedIsEarned | crates/nixfleet-state-machine/src/transitions/soaking.rs:432-466 | In every run from a fresh record, a converged host runs its target, its soak has elapsed and every recorded enforce probe passes; `HostFields.ConvergedWasObserved` carries this back to the accepted results |
| HostRuns.LogRederivesState | crates/nixfleet-state-machine/src/effect.rs:18-124 | In every run the recorded transitions form a path from the first state to the last, of at most five steps |
| HostRuns.TerminalIsAbsorbing | crates/nixfleet-state-machine/src/transitions/converged.rs:21-28 | Converged and Reverted reject every continuation of a run |
| HostRuns.AtMostOneRollback | crates/nixfleet-state-machine/src/transitions/soaking.rs:251-310 | Over every run at most one rollback fires, to the closure recorded at dispatch, and only after a policy asked for it |
| HostFields.StepByField | crates/nixfleet-state-machine/src/transitions/soaking.rs:25-427 | Every field of the record after an accepted event, from the event and the field before: an accepted result stores its own status, mode, time and reason under its name and leaves the other probes alone, the two probe clocks keep their first time, a completed activation forgets the probes |
| HostFields.StepByEffect | crates/nixfleet-state-machine/src/effect.rs:18-124 | Exactly the effects of an accepted event, in order: the transition, the report or the log entry, the switch, the rollback, the cache reset, the quarantine |
| HostFields.ReportSaysAll | crates/nixfleet-state-machine/src/wire_conversions.rs:113-392 | A report carries every part of the event it reports to the control plane |
| HostFields.LastResultStands | crates/nixfleet-state-machine/src/transitions/soaking.rs:403-427 | In every run the record of a probe is its last accepted result since the activation |
| HostFields.ConvergedWasObserved | crates/nixfleet-state-machine/src/transitions/soaking.rs:432-466 | In every run from a fresh record that ends Converged, the last accepted result of each enforce probe since the activation is Pass |
| Mirror.OneReport | crates/nixfleet-state-machine/src/wire_conversions.rs:113-392 | An accepted local event produces exactly one report, with the event's own number |
| Mirror.LockstepIff | crates/nixfleet-state-machine/src/transitions/activating.rs:21-295 | The control plane's step on a report lands on the agent's record, whatever the two policies, except for a failed activation, where they must agree |
| Mirror.ReportsAscend | crates/nixfleet-agent/src/runtime/reducer.rs:243-326 | The reports of any agent run are numbered strictly upwards |
| Mirror.RunIsHeard | crates/nixfleet-control-plane/src/runtime/reducer.rs:131-298 | A mirror that hears a run's reports in order accepts every one, whatever policies the two sides resolve for each event, and agrees on all but the recorded policy |
| Mirror.RunLockstepIff | crates/nixfleet-control-plane/src/runtime/reducer.rs:131-298 | It ends in the agent's state exactly when at each failed activation both sides held the same health-failure action |
| Mirror.RepeatIsIgnored | crates/nixfleet-control-plane/src/server/routes/events.rs:71-106 | A report numbered at or below what was heard changes nothing |
| Mirror.RepeatsAreHarmless | crates/nixfleet-control-plane/src/server/routes/events.rs:71-106 | Repeating earlier reports, any number of times and under any policies, leaves the mirror where the first hearings alone do |
| EventFiles.SanitizeFixedIff | crates/nixfleet-agent/src/runtime/outbound_queue.rs:207-217 | Sanitising leaves a string alone exactly when every character is in the safe set |
| EventFiles.KindIsClean | crates/nixfleet-agent/src/runtime/outbound_queue.rs:162-177 | Every event kind survives sanitising and has no dash |
| EventFiles.KindsDiffer | crates/nixfleet-agent/src/runtime/outbound_queue.rs:162-177 | Each of the twelve kinds of report has its own discriminator |
| EventFiles.NamesAreFiltered | crates/nixfleet-agent/src/runtime/outbound_queue.rs:89-100 | Final names pass the scan filter, temporary names do not, and the two kinds never collide |
| EventFiles.NameHasNoSeparator | crates/nixfleet-agent/src/runtime/outbound_queue.rs:207-217 | No event name leaves the queue directory |
| EventFiles.NameOrderIsSeqOrder | crates/nixfleet-agent/src/runtime/outbound_queue.rs:197-205 | Directory order is sequence order for every 64-bit number |
| EventFiles.NameCollisionIff | crates/nixfleet-agent/src/runtime/outbound_queue.rs:200-217 | For one host two names are equal exactly when number, sanitised rollout and kind are |
| EventFiles.NameDeterminesEvent | crates/nixfleet-agent/src/runtime/outbound_queue.rs:200-217 | With ids sanitising leaves alone, the name determines number, rollout and kind, dashes in the id notwithstanding |
| QueueCrash.RunIsIntact | crates/nixfleet-agent/src/runtime/outbound_queue.rs:219-236 | In every run, with a crash between any two file operations, each visible file is one complete event under its own name |
| QueueCrash.StepsAreAtomic | crates/nixfleet-agent/src/runtime/outbound_queue.rs:62-77 | Seen through the scan only the rename inserts and only a successful delete removes; the rest, crashes and failures included, changes nothing |
| QueueCrash.OnDiskMeansComplete | crates/nixfleet-agent/src/runtime/outbound_queue.rs:219-236 | An event that is on disk is there byte for byte |
| QueueCrash.AtLeastOnce | crates/nixfleet-agent/src/runtime/outbound_queue.rs:62-77 | An acknowledged event is on disk or was posted, in every run that uses no name for two events |
| QueueCrash.OverwriteCanLose | crates/nixfleet-agent/src/runtime/outbound_queue.rs:132-141 | A run in which a second event under the same name is acknowledged, deleted and never posted |
| QueueCrash.LosesNothingIff | crates/nixfleet-agent/src/runtime/outbound_queue.rs:62-141 | Over all runs on a set of events nothing acknowledged is lost exactly when their names differ |
| Drain.DrainRounds | crates/nixfleet-agent/src/runtime/outbound_queue.rs:83-128 | A drain of repeated scans takes exactly as many rounds as the largest group of events sharing a number |
| Drain.DrainDeliversOnce | crates/nixfleet-agent/src/runtime/workers/outbound.rs:89-122 | Every pending event is delivered exactly once |
| Drain.DistinctDrainsInOneRound | crates/nixfleet-agent/src/runtime/outbound_queue.rs:83-128 | With distinct numbers one ascending round empties the queue |
| Drain.UnsharedDrainsInOrder | crates/nixfleet-agent/src/runtime/outbound_queue.rs:83-128 | An unshared queue delivers each rollout in ascending order |
| Drain.InOrderIff | crates/nixfleet-agent/src/runtime/outbound_queue.rs:83-128 | All drains preserve each rollout's order exactly when the queue is unshared |
| OutboundQueue.SmallestKey | crates/nixfleet-agent/src/runtime/outbound_queue.rs:122-128 | The least key of an ordered map |
| OutboundQueue.IntoValues | crates/nixfleet-agent/src/runtime/outbound_queue.rs:122-128 | The values of the index, by ascending key |
| OutboundQueue.IntactNamesMatch | crates/nixfleet-agent/src/runtime/outbound_queue.rs:79-128 | Every directory a crash can leave behind meets the drainer's precondition |
| OutboundQueue.OutboundQueue.Enqueue | crates/nixfleet-agent/src/runtime/outbound_queue.rs:66-77 | With a fault at any operation the scan sees no change; without one it sees exactly this event added |
| OutboundQueue.OutboundQueue.ScanPending | crates/nixfleet-agent/src/runtime/outbound_queue.rs:83-128 | One event per number, ascending, nothing else, whatever the directory order and the unreadable files |
| OutboundQueue.OutboundQueue.MarkSent | crates/nixfleet-agent/src/runtime/outbound_queue.rs:132-141 | Removes the event's file and no other; a missing file is fine, any other error is reported and leaves the directory alone |
| OutboundQueue.OutboundQueue.DrainOnce | crates/nixfleet-agent/src/runtime/workers/outbound.rs:89-122 | Posts a prefix of the scan and stops at the first refusal; what leaves the disk is exactly the posted events whose delete succeeded, and a failed delete stops nothing |
| OutboundQueue.OutboundQueue.DrainAll | crates/nixfleet-agent/src/runtime/workers/outbound.rs:65-83 | Empties the queue, each event delivered once, in as many passes as the largest shared group |
| Pipeline.UnsharedIsHeardInOrder | crates/nixfleet-agent/src/runtime/outbound_queue.rs:83-128 | From an unshared queue the control plane hears each rollout exactly as reported |
| Pipeline.EndToEnd | crates/nixfleet-agent/src/runtime/workers/outbound.rs:89-122 | Any agent run, queued beside other rollouts and drained: from an unshared queue every report is accepted, and the mirror ends in the agent's state exactly when the policies agreed at each failed activation |
| Delivery.ReportsLoseNothing | crates/nixfleet-agent/src/runtime/outbound_queue.rs:62-141 | A host that queues only the reports of its runs, each once, loses none in any run with crashes, if sanitising tells its rollouts apart |
| Delivery.HeardInOrder | crates/nixfleet-agent/src/runtime/workers/outbound.rs:89-122 | At any moment of any run with crashes and failures the control plane has heard a first part of the rollout's reports, in order with repeats, and the rest is on disk |
| Delivery.CrashesAreHarmless | crates/nixfleet-agent/src/runtime/workers/outbound.rs:89-122 | Once none is on disk, each report was accepted on first hearing, and the mirror is in the agent's state exactly when the policies agreed at each failed activation |
| Pipeline.CollapseLosesReport | crates/nixfleet-agent/src/runtime/outbound_queue.rs:83-128 | Two rollouts of one channel sharing a number: a legal drain after which, under any policies, the mirror is in Activating for good and the agent in Soaking |
| AgentReducer.FailingSetEmptyIff | crates/nixfleet-agent/src/runtime/reducer.rs:450-474 | No failing enforce probe exactly when all enforce probes pass, so the two gates exclude each other |
| AgentReducer.SynthIsAccepted | crates/nixfleet-agent/src/runtime/reducer.rs:344-410 | The machine never rejects what a gate synthesised; the record moves exactly as the gate says |
| AgentReducer.CollectFailing | crates/nixfleet-agent/src/runtime/reducer.rs:450-461 | Exactly the failing enforce probes, each once, in any map order |
| AgentReducer.Reducer.ApplyBootstrapSnapshot | crates/nixfleet-agent/src/runtime/reducer.rs:169-196 | The record takes thirteen fields from the snapshot and keeps the nine that only the agent has, which a new record leaves empty; any state but Pending re-primes the workers |
| AgentReducer.Reducer.RunHostEvent | crates/nixfleet-agent/src/runtime/reducer.rs:243-326 | On the fields: a known rollout takes one machine step under its channel's declared policy and the next number; an unknown one starts with a `LocalActivate` whose channel has a policy, as an activating record with the event's target, prior closure and deadline, the acknowledgement numbered 1 and the switch; anything else changes nothing |
| AgentReducer.Reducer.CollectFailed | crates/nixfleet-agent/src/runtime/reducer.rs:344-374 | One sustained failure for each failing rollout past the threshold |
| AgentReducer.Reducer.CollectConverged | crates/nixfleet-agent/src/runtime/reducer.rs:376-402 | Plus one convergence for each rollout whose pass gate holds and whose fail gate does not, and nothing else; probes are not required |
| AgentReducer.Reducer.RunAdvanceTick | crates/nixfleet-agent/src/runtime/reducer.rs:333-416 | On the fields, for every map order: with a policy and room in the counter a soaking record is Failed exactly when 120 s have passed since its first failure and an enforce probe fails, else Converged exactly when its deadline has come, it runs its target and no enforce probe fails, else unchanged; the effects are the reports, transitions and rollbacks of just those records |
| AgentReducer.FirstTouched | crates/nixfleet-agent/src/runtime/reducer.rs:268-289 | A rollout the agent does not know does something exactly on a `LocalActivate` whose channel has a policy: the activating record, the acknowledgement numbered 1, the switch to the event's target |
| AgentReducer.NextTouched | crates/nixfleet-agent/src/runtime/reducer.rs:291-326 | A known rollout takes one step with the next number under the policy its channel declares, or nothing happens |
| AgentReducer.WithSeqIs | crates/nixfleet-agent/src/runtime/reducer.rs:489-620 | Renumbering writes the number and no other field of the event |
| AgentReducer.TickedOutcome | crates/nixfleet-agent/src/runtime/reducer.rs:344-410 | What a tick makes of one record, from its clocks, closures and probes |
| AgentReducer.SynthHas | crates/nixfleet-agent/src/runtime/reducer.rs:344-410 | What a synthesised event reports: the whole seconds elapsed and exactly the failing enforce probes, or the convergence, and the rollback the policy asks for |
| AgentLaws.MergeAbsorbs | crates/nixfleet-agent/src/runtime/reducer.rs:198-241 | Merging one snapshot after another is merging the second alone, for any existing entry |
| AgentLaws.NextIsNewIff | crates/nixfleet-agent/src/runtime/reducer.rs:198-241 | After a merge the next event gets a number the mirror has not seen exactly when the snapshot is not behind the agent; otherwise its report changes nothing |
| AgentLaws.NextIsHeardIff | crates/nixfleet-agent/src/runtime/reducer.rs:198-241 | With a snapshot of the mirror that arrives after a run, the mirror accepts the agent's next accepted event exactly when the run reported nothing |
| AgentLaws.ThresholdIsExact | crates/nixfleet-agent/src/runtime/reducer.rs:56-57 | Whole-second truncation does not move the 120-second threshold |
| AgentLaws.TimerSurvives | crates/nixfleet-agent/src/runtime/reducer.rs:155-161 | The failure clock and the probes survive any run of warm snapshots, manifest refreshes and early ticks |
| AgentLaws.TimerCannotBeStarved | crates/nixfleet-agent/src/runtime/reducer.rs:344-374 | Ticks before f + 120 s synthesise nothing, the first one after it the sustained failure with the full elapsed time |
| AgentLaws.WithSeqNumbers | crates/nixfleet-agent/src/runtime/reducer.rs:489-620 | Every local event but the deferral is renumbered and otherwise unchanged |
| AgentLaws.DeferralAcceptedIff | crates/nixfleet-agent/src/runtime/workers/activation.rs:190-216 | A deferral is accepted exactly when its own number beats the counter; numbered 0 it never is |
| AgentLaws.DeferredIsUnreachable | crates/nixfleet-agent/src/runtime/reducer.rs:489-620 | No event of the agent's own brings a record into Deferred |
| AgentLaws.AcceptedTakesNext | crates/nixfleet-agent/src/runtime/reducer.rs:243-326 | Each accepted event takes the next number, without gaps |
| AgentLaws.BootstrapMirrors | crates/nixfleet-agent/src/runtime/reducer.rs:426-443 | A record bootstrapped from a dispatch starts in step with the control plane's, exactly when the channel has no @ |
| RolloutMachine.RunProgress | crates/nixfleet-state-machine/src/rollout/tests.rs:104-188 | Over every run wave and level never go back, verdicts never change, stamps are written once, Pruned absorbs |
| RolloutMachine.CursorMovesOnlyOnAdvance | crates/nixfleet-state-machine/src/rollout/transitions/active.rs:20-28 | The wave cursor moves on a wave advance and on nothing else |
| RolloutMachine.StepByEvent | crates/nixfleet-state-machine/src/rollout/transitions/mod.rs:27-43 | Read event by event: which states accept it, where it leads, the stamp with its own time, the raised wave, and exactly these effects |
| RolloutsTable.EffectsPersistState | crates/nixfleet-control-plane/src/runtime/applier.rs:776-936 | Writing a step's effects stores the machine's next record, field for field but the log reference |
| RolloutsTable.RunKeepsTable | crates/nixfleet-control-plane/src/runtime/applier.rs:97-180 | Every reachable table has at most one live rollout per channel, and stamps that match its states |
| RolloutsTable.WaveNeverDecreases | crates/nixfleet-control-plane/src/db/rollouts.rs:164-183 | While a row exists its wave never decreases, over any run |
| RolloutsTable.BrokenNeverExpires | crates/nixfleet-control-plane/src/db/rollouts.rs:331-361 | Only superseded and terminal rows ever expire, and then by time, not by text |
| RolloutsTable.PruneIsExact | crates/nixfleet-control-plane/src/db/rollouts.rs:331-361 | Pruning deletes exactly the records of the rollouts it deletes, and a second prune finds nothing |
| RolloutsTable.ListingIsUnique | crates/nixfleet-control-plane/src/db/rollouts.rs:275-325 | The listing order leaves no choice |
| RolloutsTable.IntoUiIsInFlightIff | crates/nixfleet-control-plane/src/db/rollouts.rs:420-431 | `list_active().into_ui()` equals `list_in_flight()` as a sequence exactly when stamps agree with states |
| RolloutsTable.ReachableStampsAgree | crates/nixfleet-control-plane/src/db/rollouts.rs:265-325 | They agree in every reachable table |
| RolloutsTable.OpenedByRow | crates/nixfleet-control-plane/src/runtime/applier.rs:97-180 | Row by row: the new row at wave 0 with its time, the channel's live rollouts superseded at that time, nothing else changed |
| RolloutsTable.PrecedesIsNewer | crates/nixfleet-control-plane/src/db/rollouts.rs:275-325 | The listing's text order is newest first in instants |
| RolloutsTable.Rollouts.RecordRolloutOpened | crates/nixfleet-control-plane/src/db/rollouts.rs:78-105 | Insert or ignore |
| RolloutsTable.Rollouts.RecordRolloutTransition | crates/nixfleet-control-plane/src/db/rollouts.rs:114-156 | State and stamp of one row, nothing on an equal state, with the row count |
| RolloutsTable.Rollouts.SetCurrentWave | crates/nixfleet-control-plane/src/db/rollouts.rs:167-183 | Raises the wave, never lowers it |
| RolloutsTable.Rollouts.ProcessRolloutEvent | crates/nixfleet-control-plane/src/runtime/applier.rs:776-845 | Load, step, write each effect; unknown and rejected events write nothing |
| RolloutsTable.Rollouts.OpenRollout | crates/nixfleet-control-plane/src/runtime/applier.rs:97-180 | The new row stamped with the time of opening, and every live rollout of the channel superseded, whatever the listing order |
| RolloutsTable.Rollouts.PruneFinishedRollouts | crates/nixfleet-control-plane/src/db/rollouts.rs:331-361 | Both deletions and both counts |
| RolloutsTable.Rollouts.ListFiltered | crates/nixfleet-control-plane/src/db/rollouts.rs:275-325 | Exactly the rows that are not superseded, pruned or, if asked, terminal; newest first by the instant of opening, ids as tie-break |
| RolloutsTable.Rollouts.IntoUi | crates/nixfleet-control-plane/src/db/rollouts.rs:420-431 | Drops stamped rows, keeps the order |
| RolloutsTable.Rollouts.ListActiveIntoUi | crates/nixfleet-control-plane/src/db/rollouts.rs:265-273 | The in-flight listing |
| Timestamps.TextOrderIsTimeOrder | crates/nixfleet-control-plane/src/db/dispatch_queue.rs:49-72 | Stored timestamps compare as text exactly as they compare in time, with 0, 3, 6 or 9 fraction digits |
| DispatchQueue.DispatchQueue.Upsert | crates/nixfleet-control-plane/src/db/dispatch_queue.rs:35-57 | One row for each host and rollout, the last payload wins |
| DispatchQueue.DispatchQueue.TakeForHost | crates/nixfleet-control-plane/src/db/dispatch_queue.rs:63-88 | Takes and deletes one of the host's oldest rows, and nothing exactly when it has none |
| DispatchQueue.DispatchQueue.PeekForHost | crates/nixfleet-control-plane/src/db/dispatch_queue.rs:93-103 | True exactly when the host has a row |
| DispatchQueue.NothingLostOrDoubled | crates/nixfleet-control-plane/src/db/dispatch_queue.rs:35-88 | Over every run, payloads in are payloads taken, overwritten or still queued, with multiplicity |
| DispatchQueue.OverwritesIff | crates/nixfleet-control-plane/src/db/dispatch_queue.rs:35-57 | A payload is overwritten exactly by one for the same host and rollout |
| DispatchQueue.DrainIsFifo | crates/nixfleet-control-plane/src/db/dispatch_queue.rs:49-88 | Draining a host returns each of its rows once, oldest first, and leaves other hosts alone |
| Gates.CountRollout | crates/nixfleet-reconciler/src/planner_gates/disruption_budget.rs:70-89 | Counts the in-flight hosts of one rollout's budget, in any order |
| Gates.CountInFlight | crates/nixfleet-reconciler/src/planner_gates/disruption_budget.rs:70-97 | Counts a selector's in-flight hosts over all rollouts, in any order |
| Gates.BudgetPassesIff | crates/nixfleet-reconciler/src/planner_gates/disruption_budget.rs:40-68 | The budget gate passes exactly when every capped budget holding the host has room, this tick's dispatches included |
| Gates.ComplianceIff | crates/nixfleet-reconciler/src/planner_gates/compliance_wave.rs:15-57 | For a staged host the gate passes exactly when no host of an earlier wave has an outstanding enforce failure |
| Verdicts.EvaluateIs | crates/nixfleet-reconciler/src/planner_gates/mod.rs:150-179 | On the context's own fields: a host passes exactly when its closure is not quarantined, its channel's predecessors are done, its wave is reached, the hosts it follows are done, its budgets have room and earlier waves comply; otherwise the block names the first of these that fails, with the culprit |
| Verdicts.RefusedMayNot | crates/nixfleet-reconciler/src/planner_gates/mod.rs:150-179 | Whatever a block says, one of the six conditions fails |
| Verdicts.WaveIff | crates/nixfleet-reconciler/src/planner_gates/wave_promotion.rs:19-60 | A host passes exactly when no waves stage it or a wave up to the cursor names it |
| Planner.PlanOpens | crates/nixfleet-reconciler/src/planner.rs:56-70 | One open for each manifest channel without a rollout, in any order |
| Planner.PlanDispatches | crates/nixfleet-reconciler/src/planner.rs:72-146 | The nested loops make the decisions of one walk over the host states of open rollouts; each eligible host is dispatched, with its own closure and soak deadline, exactly when it meets the six conditions beside what the tick has used so far |
| Planner.PlanIsExact | crates/nixfleet-reconciler/src/planner.rs:72-146 | For every order each pending, unacknowledged host of an open rollout is queued or deferred exactly once, and no other |
| Planner.BudgetBound | crates/nixfleet-reconciler/src/planner.rs:72-146 | For every order, when the budgets with a selector agree on a cap, in-flight plus dispatches of the tick stays within the larger of the cap and the count at the start, hosts in several budgets included |
| Planner.DeferralMeansFull | crates/nixfleet-reconciler/src/planner_gates/disruption_budget.rs:40-68 | With an agreed cap, and no rollout listing the selector twice for a host, a host is deferred for its budget only if the cap ends the tick used up |
| Planner.QueuedIsCleared | crates/nixfleet-reconciler/src/planner_gates/mod.rs:150-179 | Every queued host passed every gate, with its own record's closure |
| Planner.QueuedIsSafe | crates/nixfleet-reconciler/src/planner_gates/mod.rs:150-179 | What a queued dispatch may rely on: quarantine, channel edges, wave and host edges |
| Planner.PlanNext | crates/nixfleet-reconciler/src/planner.rs:27-157 | The whole tick on the context's fields: one open for each advertised rollout without a row, then exactly one decision for each pending, unacknowledged host of an open rollout, dispatched exactly when it may be |
| Planner.TickWithinCap | crates/nixfleet-reconciler/src/planner.rs:27-157 | Any such tick keeps every agreed cap, with several budgets and rollouts |
| Planner.TickIsPlan | crates/nixfleet-reconciler/src/planner.rs:27-157 | Every tick, in any order of the maps, is such a plan |
| Ticks.TicksWithinCapIff | crates/nixfleet-reconciler/src/planner_gates/disruption_budget.rs:1-68 | Over any number of ticks without an acknowledgement, in any orders, what is queued under a selector fits beside what is in flight exactly when all its candidates fit at once |
| Ticks.OrderDoesNotMatterIff | crates/nixfleet-reconciler/src/planner.rs:72-146 | With agreed caps, each selector listed once, a tick queues the same hosts for every map order exactly when under each cap all candidates fit; then it queues them all |
| Ticks.OneListIff | crates/nixfleet-reconciler/src/planner.rs:72-146 | The decision list is the same for every order exactly when at most one host is to be decided |
| Ticks.OneAnswerIff | crates/nixfleet-reconciler/src/planner.rs:27-157 | A tick's whole list is the same for every order exactly when at most one open and one decision are due |
| ControlPlane.HostEventKeeps | crates/nixfleet-control-plane/src/runtime/reducer.rs:131-298 | Any host event keeps tables, records and their agreement |
| ControlPlane.OpenKeeps | crates/nixfleet-control-plane/src/runtime/applier.rs:97-261 | Opening a rollout, for any hosts, keeps them and adds exactly its row |
| ControlPlane.PruneKeeps | crates/nixfleet-control-plane/src/db/rollouts.rs:331-361 | So does pruning |
| ControlPlane.RunKeeps | crates/nixfleet-control-plane/src/runtime/reducer.rs:86-129 | So does every run |
| ControlPlane.StateIsTheAggregate | crates/nixfleet-control-plane/src/runtime/reducer.rs:247-296 | In every run a rollout not superseded is Terminal exactly when all its hosts converged, Failed exactly when one broke, Opening exactly before the first joins, Active otherwise |
| ControlPlane.ThreeStatesNeverStored | crates/nixfleet-state-machine/src/rollout/state.rs:20-48 | Converging, Reverted and Pruned are never stored, in any run |
| StateReach.FiveStatesStored | crates/nixfleet-state-machine/src/rollout/state.rs:20-48 | A run stores a state exactly when it is Opening, Active, Terminal, Failed or Superseded |
| ControlPlane.Server.HandleHostEvent | crates/nixfleet-control-plane/src/runtime/reducer.rs:131-298 | The reducer's loop over effects and its two aggregate events are the specification |
| ControlPlane.Server.OpenRollout | crates/nixfleet-control-plane/src/runtime/applier.rs:97-261 | The row, the supersessions, then a pending record and a join for each host |
| ControlFields.EventByField | crates/nixfleet-control-plane/src/runtime/reducer.rs:131-298 | When a host event is taken, and exactly what it then writes: the host's record field by field, its rollout's state and stamp, the quarantine table |
| ControlFields.QuarantineIff | crates/nixfleet-control-plane/src/runtime/applier.rs:402-433 | Over all writes the quarantine table grows exactly by the target closure of a host whose rollback report is taken |
| ControlFields.OpenByField | crates/nixfleet-control-plane/src/runtime/applier.rs:97-261 | Opening writes the new row, ends the channel's live rollouts, and adds one untouched record for each host with its own closure and deadline |
| ControlLoop.BuildFleetState | crates/nixfleet-control-plane/src/runtime/reducer.rs:925-990 | The view shows exactly the records and rows of the advertised rollouts, each row's wave, stamp, target and budgets, in any channel order |
| ControlLoop.OpenSetIff | crates/nixfleet-reconciler/src/planner.rs:56-70 | A channel's open is planned exactly when its rollout has no row |
| ControlLoop.OpeningSettles | crates/nixfleet-control-plane/src/runtime/reducer.rs:778-828 | A tick's opens can be carried out in any order, and the next tick opens nothing |
| ControlLoop.PruningReopensIff | crates/nixfleet-control-plane/src/db/rollouts.rs:331-361 | After a prune an advertised rollout is opened exactly when it had no row or just lost it |
| PlannerLimits.ProtectedIff | crates/nixfleet-reconciler/src/planner_gates/quarantine.rs:11-25 | Over every reached state, every fleet with its projected manifests and every tick, the gate keeps a closure off a channel exactly when the planner's own set holds it |
| PlannerLimits.QuarantinedIsQueuedAgain | crates/nixfleet-control-plane/src/runtime/reducer.rs:48-52 | From any consistent state, a closure in the quarantine table is queued again once a fleet that carries it is projected under a new ref |
| PlannerLimits.TwoTicksExceedTheCap | crates/nixfleet-reconciler/src/planner.rs:72-82 | From the empty tables, with real manifests: two ticks without an acknowledgement, then two acknowledgements, and two hosts are in flight under a cap of one |
| Waves.AdvanceCurrentWaves | crates/nixfleet-control-plane/src/runtime/reducer.rs:838-920 | On the tables: a cursor moves one up exactly when its row is advertised and has no terminal stamp, a next wave exists, and the current wave has hosts, all converged or deferred; nothing else changes, and the view follows |
| Waves.BumpIsAllowed | crates/nixfleet-control-plane/src/runtime/reducer.rs:838-890 | Each bump moves to the next wave with every host of the current one converged or deferred |
| Waves.BumpedIsPromoted | crates/nixfleet-control-plane/src/runtime/reducer.rs:838-920 | What a tick's bumps write, row by row on the tables' own fields |
| Waves.BatchIsRun | crates/nixfleet-control-plane/src/runtime/reducer.rs:892-920 | The batch a tick writes, all decided beforehand, is a run of such bumps for every rollout at once |
| Waves.RunOrdered | crates/nixfleet-control-plane/src/runtime/reducer.rs:838-920 | Over every run, whatever other rollouts do, all waves before a rollout's cursor have hosts, each with its activation behind it |
| Waves.WavesDispatchInOrder | crates/nixfleet-reconciler/src/planner_gates/wave_promotion.rs:19-60 | When a tick queues a host, every host of every earlier wave has its activation behind it |
| Waves.StuckCursorStays | crates/nixfleet-control-plane/src/runtime/reducer.rs:851-890 | A cursor on the last wave, on a wave without hosts, or on one that names a host without a record, stays there over every run in which the row survives |
| WaveReach.PlannedOpenIsProjected | crates/nixfleet-control-plane/src/runtime/applier.rs:190-240 | Every open the planner plans for a projected manifest joins the host set of the channel |
| WaveReach.ReachableIff | crates/nixfleet-control-plane/src/runtime/reducer.rs:838-890 | Over runs whose opens join the manifest's hosts, a cursor can get to a wave exactly when the fleet publishes the rollout and every earlier wave has hosts, all of them built hosts of the channel |
| WaveReach.MixedWaveBlocks | lib/mk-fleet.nix:1441-1450 | A published rollout of built hosts whose first wave also names a host of another channel: no later wave is ever reached |
| Recovery.PendingRecovers | crates/nixfleet-control-plane/src/runtime/reducer.rs:679-751 | A pending host that reports its target ends converged, whatever the time, every field as the three missed events would have left it, and the tables stay consistent |
| Recovery.HeartbeatRecovers | crates/nixfleet-control-plane/src/runtime/reducer.rs:475-667 | A heartbeat repairs a record exactly when its closure shows a missed transition, no gate holds a pending host and the policy resolves, with every field of the repaired record given; otherwise it changes nothing, and never another record |
| RolloutIds.RoundTrip | crates/nixfleet-proto/src/lib.rs:66-93 | Printing then parsing gives both parts back, even when the ref has an @ |
| RolloutIds.Injective | crates/nixfleet-proto/src/lib.rs:66-73 | Different channel and ref pairs have different ids |
| RolloutIds.ReprintIff | crates/nixfleet-proto/src/lib.rs:83-93 | Parsing then printing is the identity exactly on ids with an @ |
| RolloutIds.RoundTripIff | crates/nixfleet-proto/src/lib.rs:59-73 | The channel comes back exactly when it has no @ |
| Manifest.FreezeBudget | crates/nixfleet-reconciler/src/manifest.rs:123-141 | Exactly the hosts a rule of the selector names, sorted, in any map order |
| Manifest.FrozenByRule | crates/nixfleet-proto/src/fleet_resolved.rs:140-175 | The frozen list holds exactly the known hosts that a selector rule names: everybody, own name, channel, all of a non-empty tag list, any of a tag list |
| Manifest.CollectHosts | crates/nixfleet-reconciler/src/manifest.rs:87-115 | Exactly the channel's hosts with a closure, strictly ascending, each with its first wave or 0 |
| Manifest.ProjectManifest | crates/nixfleet-reconciler/src/manifest.rs:64-161 | The two errors, the empty outcome, and otherwise the projection |
| Manifest.ProjectionByField | crates/nixfleet-reconciler/src/manifest.rs:87-161 | Every field of a manifest against the fleet's own: each built host of the channel with its closure and first wave, the frozen budgets in order, the short commit in the display name |
| Manifest.ProjectionIsCanonical | crates/nixfleet-reconciler/src/manifest.rs:87-144 | One manifest for every order of the hosts map, field for field |
| Manifest.ComputeRolloutId | crates/nixfleet-reconciler/src/manifest.rs:33-59 | An id exactly for channels that project |
| Manifest.CurrentRolloutIds | crates/nixfleet-reconciler/src/manifest.rs:14-28 | The ids of exactly the channels that project |
| Manifest.IdsCountChannels | crates/nixfleet-reconciler/src/manifest.rs:14-28 | Exactly one id for each of them |
| Manifest.HostSetsPartition | crates/nixfleet-reconciler/src/manifest.rs:87-116 | In a signed fleet a host with a closure and a declared channel and policy is in exactly one manifest, its own channel's; any other host is in none |
| Der.EncodeInt | crates/nixfleet-control-plane/src/auth/issuance.rs:489-504 | A minimal, non-negative INTEGER of the same value, exactly when its length fits one byte |
| Der.EncodeP256Sig | crates/nixfleet-control-plane/src/auth/issuance.rs:471-486 | Fails exactly off 64 bytes; else the SEQUENCE of both numbers, body at most 70 bytes |
| Der.IntegerIsCanonical | crates/nixfleet-control-plane/src/auth/issuance.rs:488-504 | A number has one INTEGER encoding |
| Der.SignatureIsCanonical | crates/nixfleet-control-plane/src/auth/issuance.rs:471-486 | A pair has one SEQUENCE encoding |
| Der.DecodeIff | crates/nixfleet-control-plane/src/auth/issuance.rs:468-486 | A strict reader accepts exactly the encodings, and reads the pair back |
| Der.EncodingIsInjective | crates/nixfleet-control-plane/src/auth/issuance.rs:471-486 | Different raw signatures have different encodings |
| Pem.Scan | crates/nixfleet-control-plane/src/auth/issuance.rs:194-220 | One pass finds the block that ends first, with exactly the lines between, or there is none |
| Pem.ExtractPrivateKey | crates/nixfleet-control-plane/src/auth/issuance.rs:188-226 | The same on the text, for the three accepted labels |
| Pem.ExtractionIsUnique | crates/nixfleet-control-plane/src/auth/issuance.rs:188-226 | At most one answer |
| Pem.LinesOfText | crates/nixfleet-control-plane/src/auth/issuance.rs:194-220 | How any text splits: whole lines lose one carriage return each, a last line without a newline keeps it |
| Pem.MarkIff | crates/nixfleet-control-plane/src/auth/issuance.rs:194-220 | Exactly which lines are BEGIN and END markers: the marker with white space around it at most |
| Pem.ExtractAgainIff | crates/nixfleet-control-plane/src/auth/issuance.rs:188-226 | An extracted block can be extracted again; it comes back unchanged exactly when no body line still ends in a carriage return |
| Pem.SecondCanDiffer | crates/nixfleet-control-plane/src/auth/issuance.rs:188-226 | For each label a text whose second extraction differs from the first |
| Verify.ActiveKeys | crates/nixfleet-proto/src/trust.rs:86-95 | The current key first, the previous last |
| Verify.ActiveKeysAt | crates/nixfleet-proto/src/trust.rs:102-110 | Plus the successor, strictly before the retirement deadline |
| Verify.VerifySignature | crates/nixfleet-reconciler/src/verify.rs:402-446 | One error for each fault; success exactly when a supported key verifies |
| Verify.VerifySidecar | crates/nixfleet-reconciler/src/verify.rs:179-189 | The chain of both stages |
| Verify.FaultIs | crates/nixfleet-reconciler/src/verify.rs:402-446 | A signature counts under the two known algorithms alone, and without one each fault has its own error |
| Verify.FinishIs | crates/nixfleet-reconciler/src/verify.rs:451-498 | The first of schema, missing time, kill switch, staleness and future dating decides, with one minute of slack either way |
| Verify.AcceptedIff | crates/nixfleet-reconciler/src/verify.rs:451-498 | Accepted exactly when a supported key verifies and schema, kill switch, staleness and future checks pass |
| Verify.UnknownKeyIsIgnored | crates/nixfleet-reconciler/src/verify.rs:176-178 | A key of an unknown algorithm, anywhere, changes no acceptance, and no error once a supported key is declared |
| Verify.AcceptingTimesAreOneInterval | crates/nixfleet-reconciler/src/verify.rs:477-492 | The accepting instants are one interval, cut short only by retirement |
| Verify.PromotionDropsOnlyPrevious | crates/nixfleet-proto/src/trust.rs:51-57 | Promoting the successor before the deadline drops exactly the old previous key |
| Verify.FreshIff | crates/nixfleet-agent/src/freshness.rs:49-66 | Truncation grants just under one second more than the window and slack |
| Verify.AcceptedIsFresh | crates/nixfleet-agent/src/freshness.rs:49-66 | What the signature path accepts, the agent's re-check finds fresh |
| PollLoop.UntilSettled | crates/nixfleet-agent/src/activation/verify_poll.rs:66-99 | Ends on the first stopping read, within ceil(budget / interval) + 1 reads; a timeout carries the last read |
| PollLoop.VerdictIsUnique | crates/nixfleet-agent/src/activation/verify_poll.rs:66-99 | One verdict for each sequence of reads and times |
| PollLoop.ReachingTargetSettles | crates/nixfleet-agent/src/activation/verify_poll.rs:71-76 | Reaching the target before anything stops the poll settles it |
| PollLoop.ErrorsAreNotFatal | crates/nixfleet-agent/src/activation/verify_poll.rs:84-87 | The verdict does not depend on what read errors said |
| PollLoop.RollbackWith | crates/nixfleet-agent/src/activation/rollback.rs:15-91 | A rollback reports success exactly when the poll saw the rolled-back closure; the flip arm is dead |

## Left out

- Power loss and directory durability: the queue model has process crashes, and rename is atomic.
- A second enqueueing or draining task: the agent has one of each, and their steps interleave freely here.
- JSON, JCS, base64 and SQL engines: a codec that reads back what it wrote, and tables as maps. A database
  read or write that fails is not modelled; in `build_fleet_state` a failed row read looks like a missing row.
- Signature algorithms: an artifact carries the set of keys under which its signature checks.
- `Text` and file names are sequences of characters; UTF-8 encoding is not part of this model.
- Integer widths: sequence numbers are 64-bit and wrap on the agent, waves and budget caps are 32-bit; the
  in-flight count of the budget gate and a manifest's wave indices are unbounded here. `Recovery` asks for
  room for three more numbers, and `Waves` for at most 2^32 - 1 waves.
- Durations: `finish_sidecar_verification` panics on a window beyond chrono's range; any window is accepted here.
- Timestamps have years of four digits and the zone +00:00; leap seconds are not part of this model.
- `Verify.KeySlot`: `normalize_rollout_policies`, which runs on an accepted fleet, is not modelled.
- Fields that no modelled rule reads: systems, pins, public keys, policy waves and strategies, health-gate
  contents (an opaque string), intervals. A host's soak deadline is a parameter of opening a rollout.
- Listings: sequences of row ids; the five columns that `ActiveRollout` copies from each row are left out.
- `max_in_flight_pct`: carried in budgets, read by no gate.
- Effects that the host machine never emits (`RemoteQueueDispatch`, `RemoteOpenRolloutRecord`, `EmitMetric`,
  `EmitLog`), `RecordHaltLifted`, and `OutboundQueue::clear`.
- The event log, gate decision records, metrics and the long-poll wake: they record or signal and decide nothing.
- Heartbeats: `Recovery.Heartbeat` is what one does to one active record; the loop over a host's records, the
  liveness stamps and the replay hint are not modelled.
- Delivery.HeardInOrder: asks that every scan can read every file and finds no shared number that matters; an
  event that one scan skips may be posted after its successor.
- Verdicts.EvaluateIs: says of a compliance block only that its count of failures is positive; the number decides nothing.
- `outstanding_failing_enforce_probes`: a parameter of the planner's view.
- Wire conversions: the wire enum and `OutboundAgentEvent` are one datatype.
- `Pem.Scan`: each line is classified before the pass instead of during it.
- `Manifest.CollectHosts`: sorts the names and then builds the entries, where the source sorts the entries.
- ControlPlane.Opened: assumes that the opened rollout has no row, which `ControlLoop.OpeningSettles` proves of
  every open the planner emits.
- X.509, TPM access, CSR checks, tokens, HTTP and mTLS, tokio scheduling, systemd and nix commands, configuration.
