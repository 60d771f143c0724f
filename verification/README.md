# Guardian: a verified model

Mist Config Guardian watches configuration changes of a network organization. For each audited change its Guardian
engine opens an *investigation*: workers claim it, one attempt at a time, run a deterministic pipeline with an optional
agent on top, and publish one verdict. This project models that engine in Dafny 4.11 and proves what its documentation
and validators promise, together with three smaller protocols written in the same style. Check everything with
`dafny verify dfyconfig.toml --resource-limit 2000000 --verification-time-limit 0`.

## What is modelled

**The claim and run lifecycle** (`ClaimProtocol`, `ClaimInvariant`, `ClaimTheorems`, `ClaimWrites`, `ClaimProgress`).
One root document, its run documents and a server clock that never goes back. Every builder of the repository module is
one atomic conditional write, and any process may fire any of them, at any time, with any fence it once held. What a
process must have read before it writes (the orchestrator's guards) is part of the world as knowledge: terminal runs it
saw, claims it saw expired, the spent root it saw. Tokens are fresh. The theorems speak of whole runs of this step
relation: an inductive invariant, safety between any two states, progress from every reachable one, and that what is
published is what a worker delivered.

**Coverage** (`Change`, `ChangeTheorems`, `Targeting`, `RowResolver`, `Numbering`, `Ledger`, `LedgerTheorems`,
`LedgerContents`). From the changed paths of the objects to numbered atoms, from plug-in plans to numbered obligations,
to a row for every atom on every target. The indexes and the cache are classes, as in the source, proved equal to
scanning everything. The inputs define one ledger, numbers included. The main results are an if-and-only-if for each
answer of the coverage table, and what complete coverage means for every changed path.

**Replays** (`MonitoringChecks`, `MonitoringReplay`, `MonitoringStatuses`, `MonitoringSeverity`, `MonitoringTheorems`,
`Deployment`, `DeploymentTheorems`, `DeploymentPairing`, `DeploymentJudgement`, `DeploymentDuplicates`,
`DeploymentReplay`, `DeploymentRedelivery`). Recorded monitoring sessions and device receipts become obligation statuses
and severities. Pairing is proved against what the recorded times leave possible at the level of instants. Times are
whole seconds, as the provider gives them, with a flag for a time that is only the receipt's; metric values are real
numbers.

**The verdict** (`Contracts`, `Conclusions`, `Composition`, `CompositionTheorems`, `Agent`, `AgentTheorems`, `Attempt`,
`AttemptTheorems`). Composition over the four bands, the agent's prompt, turns and report, and one attempt end to end:
what a published "no impact" says about its inputs.

**Budgets** (`Evidence`, `EvidenceRegistry`, with `Ordering` for stable sorts). Packing is generic in the items and in
the size and build functions, which stay arbitrary.

**Smaller protocols.** `Mutation`: retries of writes against a server that may have applied what it never confirmed
(idempotent methods as in section 9.2.2 of RFC 9110, 429 as in section 4 of RFC 6585). `ChangeGroups`: optimistic
projection writes by any number of rebuilds, over source documents whose versions only grow. `Approvals` and
`ApprovalWrites`: two-person approvals through stale whole-document saves. `Payloads`, `Redaction` and `Reader`: tenant
filtering and redaction of JSON trees, and the call budgets and cache around them.

Functions and predicates are the pure parts of the source. Where the source loops over lists and dictionaries, a method
with invariants is proved against such a function or predicate; a loop's body is its own method where that keeps the
proof small. Sequences in priority order come from one stable insertion sort, proved to be a sorted permutation that the
input order cannot reach. Names (MAC addresses, site ids, attributes, plug-in names) are strings compared code point by
code point.

## Where a promise does not hold as written

One expects a receipt delivered twice to change the outcome counts alone. It never changes the judgement, the gaps or
which groups are shown, nor anything a replay concludes (`DeploymentRedelivery.RedeliveryConcludesTheSame`), but it can
change an event type shown: the trigger's, when the repetition is in the second of the trigger shown and its receipt id
sorts after it, and the type of the group it joins, when it sorts before every event of that group; in both cases only if
its type is another. `DeploymentDuplicates.DeliveredTwice` gives the whole record after the repetition for all inputs,
and `DeploymentDuplicates.RepeatCanChangeShownType` and `DeploymentDuplicates.RepeatCanChangeGroupType` an input for
each. A group's type needs outcomes of two device families (`DeploymentDuplicates.OneFamilyKeepsTypes`).

Approvals are saved as whole documents from copies as stale as a process likes, while a decision is one conditional
update on the stored status and requester (`services/approvals.py:367-393`). Two promises therefore fail as written.

- A decision can land on a plan other than the one its decider read. `Approvals.DecisionCanLandOnAnotherPlan` is such a
  run: the plan changes, somebody else's read finds the request stale and asks again, and the decision approves that.
  The exact conditions are `Approvals.PlanStaysExactly`, world by world, and `Approvals.DecisionLandsOn`, for every
  recorded decision against its decider's copy: what matters is the plan each save of the request writes, whether by
  reopening, carrying, superseding or a refresh that changes the status. A refresh that changes nothing saves nothing.
- A decision need not stand. A carry that read the request while it was pending returns a rejected one to pending
  (`Approvals.RejectionCanBeOverturned`); a carry of an earlier approved copy turns a rejected request back into that
  approval (`Approvals.RejectionCanTurnBack`); and a refresh of a copy read while the request was pending erases an
  approval, leaving it expired and decided by nobody (`Approvals.ApprovalCanBeErased`). The last two need nobody to ask
  again. `Approvals.RejectionStands` and `Approvals.ApprovalStands` give the exact conditions for either decision, and
  `Approvals.NeverAskedAgain` the one under which no second decision is recorded.

What is executed is nevertheless the plan the approval holds, unexpired, granted by another person for the same changes
(`Approvals.ExecutionWasGranted`).

## Model

| member | source | states |
|---|---|---|
| ClaimInvariant.StepInv | backend/src/mist_config_guardian_backend/guardian/repository.py:197-513 | Every atomic write or read of any worker or recovery process, fired with any stale fence, keeps the invariant that ties root, runs, commit history and what processes have read |
| ClaimTheorems.StoredDocumentsValid | backend/src/mist_config_guardian_backend/models/guardian.py:160-270 | In every state of every interleaving the stored root meets the lifecycle validator and every run of it meets the run validator |
| ClaimTheorems.PointersNameSuccess | backend/src/mist_config_guardian_backend/guardian/repository.py:363-393 | A run pointer names a run of this root and kind that succeeded; the published result is exactly that run's verdict cut to the root's bound, is itself valid, and is the final one once there is one |
| ClaimTheorems.PublishedOnce | backend/src/mist_config_guardian_backend/guardian/repository.py:363-429 | Over any two states of a run: pointers are write-once and a done root never changes again |
| ClaimTheorems.AbandonedNeverPublished | backend/src/mist_config_guardian_backend/guardian/repository.py:458-513 | A terminal run never changes, and one that did not succeed is never pointed at, at any later time |
| ClaimTheorems.DeadlineProtectsWorker | backend/src/mist_config_guardian_backend/guardian/repository.py:284-300 | A worker that inserts and finalizes within the deadline counted from its commit is never abandoned: the lease outlives the deadline on the same clock |
| ClaimTheorems.AttemptsAccounted | backend/src/mist_config_guardian_backend/guardian/repository.py:240-268 | Commits of a kind are numbered 1 to the counter, at most 2, with distinct tokens; each one not held ended in a terminal run of its kind and number, and succeeded exactly when the root points at it |
| ClaimTheorems.ExhaustionIsJustified | backend/src/mist_config_guardian_backend/guardian/repository.py:396-429 | Whenever the exhausting write can apply, both final attempts ended failed or abandoned and the second one's run is the one whose reason is read |
| ClaimTheorems.ExhaustedRootQuotesLastFailure | backend/src/mist_config_guardian_backend/guardian/repository.py:345-360 | A root done without a final run had two unsuccessful final attempts and quotes the second one's recorded reason |
| ClaimTheorems.NoEarlyCommitAfterFinalLease | backend/src/mist_config_guardian_backend/guardian/repository.py:204-268 | Once any final lease was taken, no early attempt is ever committed again |
| ClaimTheorems.TwoPassesSuffice | backend/src/mist_config_guardian_backend/services/guardian.py:1441-1474 | Whatever other processes do between them, recovery's two passes leave a terminal run for the final read |
| ClaimTheorems.ClosedClaimWaits | backend/src/mist_config_guardian_backend/guardian/repository.py:204-237 | Over a run, the root a release or publication left without a claim is untouched by every process until the recheck delay is over |
| ClaimTheorems.ForcedClaimIsLate | backend/src/mist_config_guardian_backend/guardian/repository.py:204-229 | Only a final claim is ever forced, and only past the forced bound of server time |
| ClaimTheorems.DeliveredVerdictIsKept | backend/src/mist_config_guardian_backend/guardian/repository.py:458-495 | A verdict delivered for a running run is that run's whole and for good, finished on server time, and a root naming the run publishes all of it but the devices past the twentieth, which it counts |
| ClaimTheorems.DeliveredFailureIsKept | backend/src/mist_config_guardian_backend/guardian/repository.py:458-495 | A failure is recorded with its own reason for good, and a root exhausted after it quotes that reason |
| ClaimTheorems.PublishedWasDelivered | backend/src/mist_config_guardian_backend/guardian/repository.py:363-393 | Whatever a root publishes, some worker delivered as the verdict of the run it names |
| ClaimWrites.ClaimWasDue | backend/src/mist_config_guardian_backend/guardian/repository.py:204-229 | Every claim held was taken when the root was due, free and open for its kind, an early one within 45 minutes and a final one from 60, and while uncommitted is just as it was taken, for five minutes |
| ClaimWrites.CommitWasTimely | backend/src/mist_config_guardian_backend/guardian/repository.py:240-268 | Every attempt on record was committed under a live lease on its own claim, an early one in its time and before an early run was published |
| ClaimWrites.LiveClaimIsKept | backend/src/mist_config_guardian_backend/guardian/repository.py:232-291 | While a lease lasts, only steps under its own fence touch the claim |
| ClaimWrites.UncommittedClaimEnds | backend/src/mist_config_guardian_backend/guardian/repository.py:232-281 | An uncommitted claim goes only by its holder's release, which rests the root a minute, or by recovery once the lease is over |
| ClaimWrites.CommittedClaimEnds | backend/src/mist_config_guardian_backend/guardian/repository.py:363-402 | A committed claim goes only with the publication of the ended run it owns, which leaves exactly the pointer, status and next check of its kind |
| ClaimWrites.FreeRootChanges | backend/src/mist_config_guardian_backend/guardian/repository.py:197-229 | A root nobody holds changes only when it is due, by a lease, a later check or its exhaustion |
| ClaimWrites.RunsSayWhy | backend/src/mist_config_guardian_backend/guardian/repository.py:448-513 | A run under way says nothing yet, and an abandoned one only that its lease expired |
| ClaimProgress.RecoveryCloses | backend/src/mist_config_guardian_backend/services/guardian.py:1425-1439 | From any state satisfying the invariant, in whatever phase its claim is, some schedule of recovery closes the claim |
| ClaimProgress.EveryRootCanComplete | backend/src/mist_config_guardian_backend/services/guardian.py:1241-1300 | From any such state the root can still be brought to done |
| ClaimProgress.NoRunIsStuck | backend/src/mist_config_guardian_backend/services/guardian.py:1223-1300 | No state of any run is a dead end for its root |
| Contracts.WorstBounds | backend/src/mist_config_guardian_backend/guardian/composition.py:309-316 | The worst of some bands bounds them all, is one of them, and is no impact for none |
| Evidence.Pack | backend/src/mist_config_guardian_backend/guardian/evidence.py:96-130 | Greedy packing in priority order: fails exactly when the empty counts do not fit, keeps a subsequence each of whose decisions was forced by the budget, and kept plus omitted is the input by category |
| Evidence.Bounded | backend/src/mist_config_guardian_backend/guardian/evidence.py:148-181 | For any size and build functions it terminates, fails exactly when the count-only digest is over budget, and otherwise builds a view within budget from the longest prefix of the packed items that fits |
| Evidence.NothingTakenBack | backend/src/mist_config_guardian_backend/guardian/evidence.py:96-181 | For sizes that add up as a list's do the estimate is exact, and a bounded view keeps all the packer kept |
| Ordering.PriorityIgnoresInputOrder | backend/src/mist_config_guardian_backend/guardian/evidence.py:96-130 | A stable sort by a total order depends on the items alone where ties are equal items |
| EvidenceRegistry.InIdOrderAscends | backend/src/mist_config_guardian_backend/guardian/evidence.py:232-234 | Evidence listed by id ascends strictly and misses no recorded item |
| EvidenceRegistry.Registry.Reserve | backend/src/mist_config_guardian_backend/guardian/evidence.py:201-205 | Ids are handed out one after another and never reused |
| EvidenceRegistry.Registry.Record | backend/src/mist_config_guardian_backend/guardian/evidence.py:207-226 | Evidence is accepted exactly when its id was reserved for its source, is unrecorded, and item and family budgets hold; family byte counts always equal the sum over what was recorded |
| EvidenceRegistry.Registry.Evidence | backend/src/mist_config_guardian_backend/guardian/evidence.py:232-234 | What a run stores is exactly what was recorded, in id order |
| EvidenceRegistry.FamiliesTake | backend/src/mist_config_guardian_backend/guardian/evidence.py:184-238 | A family's bytes are those its own reads took |
| Change.Nameable | backend/src/mist_config_guardian_backend/guardian/change.py:230-238 | The longest nameable prefix of a path; an unnameable attribute is the only error |
| Change.BuildChangeSet | backend/src/mist_config_guardian_backend/guardian/change.py:138-188 | Atoms are numbered from 1 in object, version, attribute order, one for each changed attribute of each object and none else; it fails exactly on a repeated version or an unnameable attribute |
| Change.EveryPathHasAtom | backend/src/mist_config_guardian_backend/guardian/change.py:138-188 | Every path the comparison found is on an atom of its object, itself or by a prefix covering it |
| ChangeTheorems.AtomPathsExactly | backend/src/mist_config_guardian_backend/guardian/change.py:138-238 | Every path on an atom names, as far as it can, one that was found, or is the attribute of a differing field nothing was found below |
| ChangeTheorems.ErrorsExactly | backend/src/mist_config_guardian_backend/guardian/change.py:138-238 | Building fails exactly on an object version given twice or an attribute that cannot be named |
| Change.ChangeOrderIrrelevant | backend/src/mist_config_guardian_backend/guardian/change.py:138-147 | The order objects arrive in does not reach the numbering |
| Targeting.ScanMembers | backend/src/mist_config_guardian_backend/guardian/ledger.py:302-311 | The scan holds exactly the entries whose target reaches the row |
| Targeting.ByTarget.Add | backend/src/mist_config_guardian_backend/guardian/ledger.py:358-362 | Adding keeps the indexes equal to the list of everything added |
| Targeting.ByTarget.Reaching | backend/src/mist_config_guardian_backend/guardian/ledger.py:364-366 | The indexed answer is a scan of every entry with `reaches`: those naming the device first, then those naming its site or neither, each in the order added |
| Targeting.RowDevices.constructor | backend/src/mist_config_guardian_backend/guardian/ledger.py:321-330 | The device indexes hold exactly the rows' devices, each at its last target |
| Targeting.RowDevices.Reached | backend/src/mist_config_guardian_backend/guardian/ledger.py:341-347 | The indexed answer is a scan of every row device in order |
| RowResolver.ResolvedRowIsValid | backend/src/mist_config_guardian_backend/guardian/contracts.py:369-380 | A row by the direct definition meets the row validator, and is addressed exactly when the atom is complete and every path has a claim or exclusion |
| RowResolver.ResolvedUnique | backend/src/mist_config_guardian_backend/guardian/ledger.py:382-400 | The direct definition determines the row, so index and cache cannot matter |
| RowResolver.PrefixesAddress | backend/src/mist_config_guardian_backend/guardian/ledger.py:382-408 | What a prefix set leaves uncovered is what no claim or exclusion reaching the target addresses |
| RowResolver.Resolver.Resolve | backend/src/mist_config_guardian_backend/guardian/ledger.py:382-400 | The indexed, cached resolver returns the row of the direct definition over all claims and exclusions |
| RowResolver.Resolver.Missing | backend/src/mist_config_guardian_backend/guardian/ledger.py:402-408 | The cached answer for a prefix set always equals recomputing it |
| Numbering.NumberOne | backend/src/mist_config_guardian_backend/guardian/ledger.py:435-459 | One obligation is folded into the first planned with its key or takes the next number, and the numbering stays the one that the plans so far determine |
| Numbering.NumberPlans | backend/src/mist_config_guardian_backend/guardian/ledger.py:435-459 | Every planned obligation has one ledger id and claim: what is not folded takes the next number in the order planned, and a repeated check is folded into the first, whose owner, atom and paths stay |
| Numbering.NumberingUnique | backend/src/mist_config_guardian_backend/guardian/ledger.py:435-459 | The plans in their order determine every number, every obligation and every plug-in's mapping of its own ids |
| Numbering.CheckCarriesStrictestPolicy | backend/src/mist_config_guardian_backend/guardian/ledger.py:435-459 | A monitoring obligation shared by several plans carries the strict policy exactly when one of them asked for it |
| Ledger.ExpectedByMac | backend/src/mist_config_guardian_backend/guardian/ledger.py:411-418 | Devices sort by MAC, and a repeated MAC is the only error |
| Ledger.PlansError | backend/src/mist_config_guardian_backend/guardian/ledger.py:421-432 | No error exactly when every plan is one of its plug-in's own, on known atoms |
| Ledger.AppendGaps | backend/src/mist_config_guardian_backend/guardian/ledger.py:469-484 | Each reason becomes the next input observation with an unsatisfied status, and nothing earlier changes |
| Ledger.AppendDeployments | backend/src/mist_config_guardian_backend/guardian/ledger.py:156-169 | One precondition for each row device a claim targets, in order, and no other |
| Ledger.AppendRows | backend/src/mist_config_guardian_backend/guardian/ledger.py:170-187 | Every atom on every target has its row by the direct definition, and every uncovered row an unsatisfied observation |
| Ledger.BuildLedger | backend/src/mist_config_guardian_backend/guardian/ledger.py:122-196 | The ledger is built of these inputs as LedgerOf says, rows and numbers and statuses; it fails exactly on a repeated device or a plan outside its contract |
| LedgerTheorems.LedgerUnique | backend/src/mist_config_guardian_backend/guardian/ledger.py:122-196 | The inputs define one ledger: two built of the same ones have the same numbers, obligations, rows, statuses, mappings and gaps |
| LedgerTheorems.ResolveStatuses | backend/src/mist_config_guardian_backend/guardian/ledger.py:199-202 | Every obligation has a status, the core's own always win, and validity is kept |
| LedgerTheorems.CoverageExact | backend/src/mist_config_guardian_backend/guardian/ledger.py:205-220 | Coverage of a built ledger is complete if and only if the change time is known, no input is missing, every atom has a row, no row is uncovered, every deployment is confirmed and the observations hold |
| LedgerTheorems.CoverageTable | backend/src/mist_config_guardian_backend/guardian/ledger.py:205-220 | The three other answers, by what the ledger was built of: insufficient exactly when nothing was planned and nothing stands against it, not applicable exactly when all that was planned was found not exercised and nothing stands against it, partial exactly when something does |
| LedgerTheorems.CompleteCoverageAddressesEveryPath | backend/src/mist_config_guardian_backend/guardian/ledger.py:382-408 | Under complete coverage every atom has complete paths and a row, and each path on each row is addressed by a claim or exclusion reaching it |
| LedgerTheorems.CompleteCoverageMissesNothing | backend/src/mist_config_guardian_backend/guardian/ledger.py:122-220 | From the comparison to coverage: every path found on every object is on an atom and addressed by some plug-in on every target |
| LedgerTheorems.WithGaps | backend/src/mist_config_guardian_backend/guardian/ledger.py:86-102 | Late gaps append unsatisfied input observations and keep everything else |
| LedgerTheorems.GapsForcePartial | backend/src/mist_config_guardian_backend/guardian/ledger.py:86-102 | Any late gap makes coverage partial, whatever was reported |
| LedgerTheorems.RuleStatuses | backend/src/mist_config_guardian_backend/guardian/ledger.py:104-119 | A plug-in's local ids map to its own rule obligations and to nothing else; a foreign or unknown id is the only error |
| LedgerTheorems.BuiltRulesApart | backend/src/mist_config_guardian_backend/guardian/ledger.py:104-119 | In a built ledger two local rule ids of one plug-in never share an obligation |
| LedgerContents.RowTargetsExactly | backend/src/mist_config_guardian_backend/guardian/ledger.py:462-466 | A device's own change has its row on that device alone, any other change one on every device it reached |
| LedgerContents.UncoveredRowsHeld | backend/src/mist_config_guardian_backend/guardian/ledger.py:170-187 | Every uncovered row is held against the ledger by an unsatisfied observation of its own atom, paths and target, which names them |
| LedgerContents.GapsExactly | backend/src/mist_config_guardian_backend/guardian/ledger.py:469-508 | The gaps are the unseen inputs in order and then one that names exactly the atoms applying nowhere |
| LedgerTheorems.InputOrderIrrelevant | backend/src/mist_config_guardian_backend/guardian/ledger.py:122-196 | Devices and plans given in any order build one and the same ledger |
| MonitoringReplay.Selections | backend/src/mist_config_guardian_backend/guardian/monitoring.py:351-375 | The selections built per reached device are those of the direct definition over all obligations |
| MonitoringReplay.SelectionHolds | backend/src/mist_config_guardian_backend/guardian/monitoring.py:351-375 | A device is selected exactly when a plug-in obligation reaches it, and its checks are exactly those asked of it |
| MonitoringReplay.SelectionFollows | backend/src/mist_config_guardian_backend/guardian/monitoring.py:351-375 | A selected device looks for exactly the incident types and finding kinds in the plans of the plug-ins whose obligations reach it |
| MonitoringStatuses.SessionIsLatest | backend/src/mist_config_guardian_backend/guardian/monitoring.py:307-320 | The session replayed is the latest linked one, and none only when none is linked |
| MonitoringStatuses.MetricComponentMeans | backend/src/mist_config_guardian_backend/guardian/monitoring.py:438-445 | The metric component's peak is the worst severity of any observation, its current the last observation's |
| MonitoringStatuses.IncidentComponentMeans | backend/src/mist_config_guardian_backend/guardian/monitoring.py:448-461 | The incident component's peak is the worst incident of a selected type since the change, its current the worst still unresolved |
| MonitoringStatuses.DeviceStateComponent | backend/src/mist_config_guardian_backend/guardian/monitoring.py:464-490 | Peak is the worst band ever shown by a followed comparison, current the worst shown now, and there is a component exactly when one was followed |
| MonitoringStatuses.ReplayDevice | backend/src/mist_config_guardian_backend/guardian/monitoring.py:378-435 | One device's record is its session's: exclusive, ended, with bands only if exclusive and then the worst of its components; every selected check is answered |
| MonitoringSeverity.DeviceBandsExactly | backend/src/mist_config_guardian_backend/guardian/monitoring.py:378-490 | A device's peak and current are exactly the worst band its session ever showed and the worst it still shows, in samples of the selected metrics, selected incidents since the change and selected findings of followed comparisons; and only a session of this audit alone has any |
| MonitoringSeverity.DeviceCheckExactly | backend/src/mist_config_guardian_backend/guardian/monitoring.py:378-410 | A check is unsatisfied without a session, on a shared one and on one not ended, for that reason, and otherwise is what the baseline and the last sample make of it |
| MonitoringStatuses.AggregateMeans | backend/src/mist_config_guardian_backend/guardian/monitoring.py:511-524 | Unsatisfied exactly when nothing was reached or some device is unsatisfied; not exercised exactly when every reached device is |
| MonitoringTheorems.EveryLookupDefined | backend/src/mist_config_guardian_backend/guardian/monitoring.py:321-335 | The (obligation, device) lookup is defined on every device an obligation reaches, and holds that device's check |
| MonitoringTheorems.ReplayMonitoring | backend/src/mist_config_guardian_backend/guardian/monitoring.py:292-338 | The devices replayed are exactly those some plug-in obligation reaches, each from its own latest session and selection; every status is the aggregate over the reached devices; the severities are the worst of the devices |
| MonitoringTheorems.SatisfiedObligation | backend/src/mist_config_guardian_backend/guardian/monitoring.py:511-524 | Satisfied exactly when every reached device was checked satisfied or not exercised, and one satisfied |
| MonitoringTheorems.SatisfiedRestsOnMeasurements | backend/src/mist_config_guardian_backend/guardian/monitoring.py:154-181 | From the status to the record: satisfied exactly when every reached device, in an exclusive ended session, measured the metric in both windows on one scope or had none in either where that is accepted, and one measured it |
| MonitoringTheorems.AcceptedRestsOnMeasurements | backend/src/mist_config_guardian_backend/guardian/monitoring.py:154-181 | An obligation is left unsatisfied by no device exactly when it reaches one and every device it reaches measured the metric in both windows or had none in either where that is accepted |
| MonitoringTheorems.NoImpactDeviceIsClean | backend/src/mist_config_guardian_backend/guardian/monitoring.py:184-200 | A device replayed without impact had every selected metric observed in the baseline and in every observation, and none down by a warning |
| MonitoringChecks.SeverityExactly | backend/src/mist_config_guardian_backend/guardian/monitoring.py:184-200 | Critical exactly when a selected metric fell by 25, warning exactly when one fell by 10 and none by 25, none exactly when one was compared, none fell and nothing failed |
| MonitoringChecks.StateExactly | backend/src/mist_config_guardian_backend/guardian/monitoring.py:211-228 | When a metric counts as measured, as empty, as pending and as failed |
| MonitoringChecks.ReasonExactly | backend/src/mist_config_guardian_backend/guardian/monitoring.py:169-181 | Each reason of an unsatisfied check has its exact condition |
| MonitoringTheorems.ImpactedExactly | backend/src/mist_config_guardian_backend/guardian/monitoring.py:292-338 | The conclusion names exactly the devices at warning or above, with their peaks |
| MonitoringTheorems.MonitoredDevicesAreDeployed | backend/src/mist_config_guardian_backend/guardian/ledger.py:156-169 | The devices monitoring selects are exactly those with a deployment precondition |
| MonitoringTheorems.DeploymentsNameRowDevices | backend/src/mist_config_guardian_backend/guardian/ledger.py:156-169 | Every deployment precondition names a device of a row |
| MonitoringTheorems.ConcludedIsValid | backend/src/mist_config_guardian_backend/guardian/contracts.py:303-323 | The monitoring conclusion meets the conclusion validator for any recorded sessions |
| Deployment.AssignOutcomes | backend/src/mist_config_guardian_backend/guardian/deployment.py:444-514 | The assigned and the uncertain outcomes are exactly those the pairing rule gives, with exactly the gaps of the outcomes it could not pair |
| Deployment.JudgementHolds | backend/src/mist_config_guardian_backend/guardian/deployment.py:517-541 | Current stays within peak, and satisfied, configured and having no reason are the same thing |
| DeploymentTheorems.AssignedHasTrigger | backend/src/mist_config_guardian_backend/guardian/deployment.py:465-499 | An assigned outcome has a provider-timed trigger of this audit at or before its own provider time, and never carries another audit |
| DeploymentTheorems.SatisfiedExactly | backend/src/mist_config_guardian_backend/guardian/deployment.py:517-532 | Satisfied if and only if there is a trigger and a configured outcome decides: it is latest, alone of its kind in its second and with no uncertain outcome at or after it |
| DeploymentTheorems.SeverityExactly | backend/src/mist_config_guardian_backend/guardian/deployment.py:400-541 | The peak warns exactly when an assigned outcome failed or was reverted, and the current exactly when every latest one did and is known to be latest |
| DeploymentTheorems.SatisfiedIsSound | backend/src/mist_config_guardian_backend/guardian/deployment.py:400-532 | A satisfied precondition yields the trigger and the configured outcome it rests on |
| DeploymentTheorems.OneAuditEach | backend/src/mist_config_guardian_backend/guardian/deployment.py:465-499 | Over one event list no outcome is assigned to two audits |
| DeploymentTheorems.FallbackExactly | backend/src/mist_config_guardian_backend/guardian/deployment.py:502-514 | With provider times, the fallback triggers are those of the outcome's own second and of the latest earlier trigger second, within the bound |
| DeploymentTheorems.PairDevice | backend/src/mist_config_guardian_backend/guardian/deployment.py:400-441 | A device's record is the one its events define, with exactly the gaps found in them |
| DeploymentPairing.MayPrecedeMeans | backend/src/mist_config_guardian_backend/guardian/deployment.py:365-382 | Comparing seconds is exactly what the recorded times leave possible: some instants they allow put the trigger at or before the outcome |
| DeploymentPairing.SurelyBetweenMeans | backend/src/mist_config_guardian_backend/guardian/deployment.py:365-382 | And a trigger counts as superseded exactly when another is between in whatever instants they allow |
| DeploymentPairing.PairedExactly | backend/src/mist_config_guardian_backend/guardian/deployment.py:465-514 | An outcome is left alone exactly when it cannot be this audit's, assigned exactly when it may and must be, and otherwise uncertain, for the reason that leaves it so |
| DeploymentPairing.NoneDropped | backend/src/mist_config_guardian_backend/guardian/deployment.py:444-462 | Every outcome that may be this audit's is among the assigned or the uncertain ones, and no other is |
| DeploymentPairing.GapsExactly | backend/src/mist_config_guardian_backend/guardian/deployment.py:465-514 | Each gap an outcome leaves has its exact cause |
| DeploymentPairing.SatisfiedLeavesNothingOpen | backend/src/mist_config_guardian_backend/guardian/deployment.py:400-441 | A satisfied device has a second with a configured outcome, and every outcome that may be this audit's is earlier or is one of those |
| DeploymentJudgement.ReasonExactly | backend/src/mist_config_guardian_backend/guardian/deployment.py:400-541 | Each reason for not being satisfied has its exact condition on what was assigned and what is uncertain |
| DeploymentJudgement.StateExactly | backend/src/mist_config_guardian_backend/guardian/deployment.py:400-541 | State, correlation and recovery follow from the reason and from what was assigned |
| DeploymentJudgement.ShownExactly | backend/src/mist_config_guardian_backend/guardian/deployment.py:400-415 | The trigger shown is the last with a provider's time, or else the last |
| DeploymentJudgement.GroupExactly | backend/src/mist_config_guardian_backend/guardian/deployment.py:544-557 | A group counts the assigned outcomes of its second and kind, is linked by audit when one is, and has the first one's type |
| DeploymentJudgement.OutcomesExactly | backend/src/mist_config_guardian_backend/guardian/deployment.py:544-557 | There is one group for every second and kind of an assigned outcome |
| DeploymentJudgement.OutcomesInOrder | backend/src/mist_config_guardian_backend/guardian/deployment.py:544-557 | The groups come by second and kind |
| DeploymentJudgement.ExpectedExactly | backend/src/mist_config_guardian_backend/guardian/deployment.py:160-178 | A device is expected exactly when a receipt reports it, at the site of the report placed last |
| DeploymentJudgement.AnchorExactly | backend/src/mist_config_guardian_backend/guardian/deployment.py:181-203 | The anchor is the audit's time, else the earliest second the provider told of a report of it, else its receipt |
| DeploymentJudgement.ConcludedExactly | backend/src/mist_config_guardian_backend/guardian/deployment.py:236-257 | The conclusion has the worst bands judged of its devices, and each precondition the status of its own device |
| DeploymentDuplicates.PairSimilar | backend/src/mist_config_guardian_backend/guardian/deployment.py:465-514 | Pairing one outcome depends only on the events up to receipt id and repetition |
| DeploymentDuplicates.SimilarJudgement | backend/src/mist_config_guardian_backend/guardian/deployment.py:517-541 | Lists that agree up to receipt id and repetition are judged alike |
| DeploymentDuplicates.DeliveredTwice | backend/src/mist_config_guardian_backend/guardian/deployment.py:400-441 | For the whole record of a device: a provider-timed receipt delivered twice changes no gap and nothing else but the trigger type shown, exactly when it takes that over, and at most one outcome group, the one it joins |
| DeploymentDuplicates.GroupDeliveredTwice | backend/src/mist_config_guardian_backend/guardian/deployment.py:544-557 | No group appears or goes; the group it joins counts one more, and shows its type exactly when it then comes first |
| DeploymentDuplicates.OneFamilyKeepsTypes | backend/src/mist_config_guardian_backend/guardian/deployment.py:544-557 | Where all outcomes are of one device family, a repetition only ever counts |
| DeploymentDuplicates.RepeatCanChangeShownType | backend/src/mist_config_guardian_backend/guardian/deployment.py:400-441 | An access point's two triggers of one audit in one second: the two records show different trigger types |
| DeploymentDuplicates.RepeatCanChangeGroupType | backend/src/mist_config_guardian_backend/guardian/deployment.py:544-557 | Two outcomes of one kind and second: the two records show different types for the group |
| DeploymentRedelivery.RedeliveryConcludesTheSame | backend/src/mist_config_guardian_backend/guardian/deployment.py:259-290 | Over the whole replay a provider-timed receipt delivered twice changes no status, band, impacted device or gap, and no record but its own device's, as DeliveredTwice says |
| DeploymentRedelivery.RedeliveryKeepsAnchor | backend/src/mist_config_guardian_backend/guardian/deployment.py:181-203 | Nor does it move the change time |
| DeploymentReplay.ExpectedDevices | backend/src/mist_config_guardian_backend/guardian/deployment.py:160-178 | The expected devices are exactly those with a trigger of this audit, each once, in order, from its latest receipt |
| DeploymentReplay.AnchorIsReceiptOnlyWhenUntold | backend/src/mist_config_guardian_backend/guardian/deployment.py:181-203 | The receipt anchors the change exactly when neither the audit nor any provider-timed trigger tells its time; a trigger anchor is the earliest |
| DeploymentReplay.PairDeployments | backend/src/mist_config_guardian_backend/guardian/deployment.py:259-290 | Every row device has the record its own receipts define, the severities are the worst of them, and the gaps are exactly those found on them |
| DeploymentReplay.ReceiptOrderIrrelevant | backend/src/mist_config_guardian_backend/guardian/deployment.py:259-290 | The same receipts, with distinct ids, in any order give the same replay: devices, severities, gaps and preconditions |
| DeploymentReplay.ConcludedIsValid | backend/src/mist_config_guardian_backend/guardian/contracts.py:303-323 | The deployment conclusion meets the conclusion validator for any receipts |
| DeploymentReplay.SatisfiedIsConfirmed | backend/src/mist_config_guardian_backend/guardian/deployment.py:259-290 | A device judged satisfied is confirmed by its own receipts: a trigger of this audit and a configured outcome after it |
| DeploymentReplay.CompleteCoverageConfirmsDeployment | backend/src/mist_config_guardian_backend/guardian/ledger.py:205-220 | Complete coverage confirms the deployment on every device that carries a precondition |
| Composition.DeviceBands | backend/src/mist_config_guardian_backend/guardian/composition.py:190-234 | Each device has the worst of its own bands and every claim on it, and exactly the unknown devices are counted apart |
| Composition.Compose | backend/src/mist_config_guardian_backend/guardian/composition.py:73-119 | Composition is total but for a count-only listing over budget; the verdict meets every invariant of its contract, lists the worst devices the budget packs and counts exactly the rest of those at warning or above |
| Composition.BandsOrdered | backend/src/mist_config_guardian_backend/guardian/contracts.py:121-130 | The published bands meet the published-verdict invariant for any valid inputs |
| Composition.RowsWithin | backend/src/mist_config_guardian_backend/guardian/composition.py:190-234 | Every device that could be listed is ordered and within the verdict's peak |
| Composition.BandsForExactly | backend/src/mist_config_guardian_backend/guardian/composition.py:190-234 | A device's bands are the worst of its own and of every claim on it, a claim's current capped by its source's |
| Composition.PublishedPeakExactly | backend/src/mist_config_guardian_backend/guardian/composition.py:122-160 | The published peak is the worst of the base, every deterministic warning and the agent's band, and one of them |
| Composition.PublishedCurrentExactly | backend/src/mist_config_guardian_backend/guardian/composition.py:122-160 | The published current is the worst of their currents, and one of them |
| Composition.AgentNeverLowers | backend/src/mist_config_guardian_backend/guardian/composition.py:163-177 | An agent report never lowers either published band |
| Composition.UncitedAgentChangesNothing | backend/src/mist_config_guardian_backend/guardian/composition.py:163-187 | A report that cites no service-health evidence changes no band, source, device or confidence |
| Composition.NoneMeansNothingFound | backend/src/mist_config_guardian_backend/guardian/composition.py:73-119 | No impact is published exactly when coverage is complete and neither the floor nor the report found anything |
| CompositionTheorems.ClaimsExactly | backend/src/mist_config_guardian_backend/guardian/composition.py:190-234 | What is said of a device is exactly what monitoring, deployment, the plug-ins and a report that counts say of it |
| CompositionTheorems.ListableExactly | backend/src/mist_config_guardian_backend/guardian/composition.py:190-234 | The devices listed or counted are exactly the known ones that warn by themselves or by what some source says of them, with the bands all of it states |
| CompositionTheorems.SourcesExactly | backend/src/mist_config_guardian_backend/guardian/composition.py:237-256 | The verdict names exactly the sources that set one of its bands |
| CompositionTheorems.SourcesInOrder | backend/src/mist_config_guardian_backend/guardian/composition.py:237-256 | Each once, in the fixed order |
| Agent.TrimmingKeepsSupport | backend/src/mist_config_guardian_backend/guardian/agent.py:595-666 | Whatever the trimming keeps, the conclusion cites service-health evidence exactly when the report did |
| Agent.ContributesExactly | backend/src/mist_config_guardian_backend/guardian/composition.py:163-187 | Composition counts the trimmed report exactly when the claim as made cited service health |
| Agent.TrimmingNeverChangesTheVerdict | backend/src/mist_config_guardian_backend/guardian/agent.py:595-666 | Two trimmings of one report compose to the same bands, confidence, device claims and sources |
| Agent.AcceptedReportHolds | backend/src/mist_config_guardian_backend/guardian/agent.py:517-584 | An accepted report meets the agent contract, claims no impact only under complete coverage, and contributes whenever it needs service health |
| Agent.ReportRaisesConfidence | backend/src/mist_config_guardian_backend/guardian/composition.py:73-119 | However it was trimmed, a report raises the verdict's confidence exactly when it cited service health and claimed the published peak |
| Agent.Conclude | backend/src/mist_config_guardian_backend/guardian/agent.py:595-634 | The conclusion built from the report is within budget and keeps the findings and gaps the budget packs in priority order; it fails exactly when the barest report does not fit |
| Agent.BuildPrompt | backend/src/mist_config_guardian_backend/guardian/agent.py:284-328 | Exactly the fewest oldest payloads are withheld that bring the prompt within its cap, and only withholdable ones |
| Agent.RunAgent | backend/src/mist_config_guardian_backend/guardian/agent.py:331-406 | The stored turns are the answered ones up to the first that ends the run, with no more calls than the attempt's budget; a report is returned exactly when a turn was accepted, and passed every check on that turn |
| Agent.ByteBudgetNeverChangesTheVerdict | backend/src/mist_config_guardian_backend/guardian/agent.py:331-406 | The report a run of turns accepted, concluded in any byte budget over the registry of its last turn, composes to one set of bands, confidence, sources and device claims; a warning it reports is published at no less |
| Agent.AcceptedExactly | backend/src/mist_config_guardian_backend/guardian/agent.py:517-584 | Exactly the reports that conform are accepted |
| AgentTheorems.GivesWay | backend/src/mist_config_guardian_backend/guardian/agent.py:595-634 | Severity claims are kept before gaps, gaps before remarks, worse findings before lesser ones |
| AgentTheorems.StoredAsReported | backend/src/mist_config_guardian_backend/guardian/agent.py:637-666 | The stored conclusion has the report's bands, confidence and devices, the findings and gaps kept, and a note when any gave way |
| AgentTheorems.OneCitationAdded | backend/src/mist_config_guardian_backend/guardian/agent.py:637-666 | One citation is added, the first health item cited, exactly when what is kept would leave none |
| AgentTheorems.WithheldFirst | backend/src/mist_config_guardian_backend/guardian/agent.py:284-328 | MCP payloads give way before rule payloads, the oldest first, the fixed part never |
| AgentTheorems.StepsExactly | backend/src/mist_config_guardian_backend/guardian/agent.py:331-406 | What each stored turn was, and which calls were made |
| AgentTheorems.RunsToItsEnd | backend/src/mist_config_guardian_backend/guardian/agent.py:331-406 | The first conforming report before any failure ends the run and is its report |
| Attempt.ExecuteAttempt | backend/src/mist_config_guardian_backend/services/guardian.py:910-1071 | Whatever phases fail, the verdict is valid, composed of exactly what the replays that succeeded concluded, the plug-ins' own statuses and the coverage of the ledger with the failed phases' gaps, and lists this attempt's devices; each way of failing has its cause in this attempt's own change set, plans, statuses or devices |
| Attempt.NoneIsPublishedOnlyExamined | backend/src/mist_config_guardian_backend/services/guardian.py:910-1071 | A verdict of no current impact means every phase ran, the change time was known, nothing was unseen, every changed path is addressed on every target, every device that carries a precondition is confirmed, every monitoring obligation was resolved by measurements on every device it reaches, and no monitored device is at warning now |
| AttemptTheorems.SeveritiesExactly | backend/src/mist_config_guardian_backend/services/guardian.py:1078-1102 | Composition is given every monitored device with its bands and every other paired one with none, at known sites |
| ChangeGroups.ProjectionNeverMovesBack | backend/src/mist_config_guardian_backend/services/change_groups.py:925-1005 | Over every interleaving of rebuilds the stored projection is never of an older version of any of its sources |
| ChangeGroups.UncontendedRebuildSaves | backend/src/mist_config_guardian_backend/services/change_groups.py:925-1005 | Over any run in which nothing was saved since a rebuild began, it is on its first attempt, has not given up, and saves a picture no older than the sources were when it began, on every site the group had |
| ChangeGroups.LostRaceMeansAnotherWrite | backend/src/mist_config_guardian_backend/services/change_groups.py:391-405 | A save that does not match means another rebuild saved since this one read the group |
| ChangeGroups.SaveOutdatesOthers | backend/src/mist_config_guardian_backend/services/change_groups.py:391-405 | A successful save leaves every other rebuild under way expecting an older revision, which the predicate then refuses; a lost race writes nothing |
| ChangeGroups.GivingUpMeansThreeSaves | backend/src/mist_config_guardian_backend/services/change_groups.py:925-946 | A rebuild that gave up lost to at least three saves of others since it began |
| ChangeGroups.FoundSitesAreStored | backend/src/mist_config_guardian_backend/services/change_groups.py:948-1005 | What a rebuild found in a source is stored for good once that attempt saves |
| ChangeGroups.SitesWereFound | backend/src/mist_config_guardian_backend/services/change_groups.py:948-1005 | And every stored site was there at first or found by a rebuild |
| ChangeGroups.FinishedMeansSaved | backend/src/mist_config_guardian_backend/services/change_groups.py:925-946 | A rebuild that reports success saved |
| Payloads.CleanPassesUnchanged | backend/src/mist_config_guardian_backend/guardian/reader.py:684-711 | A value naming nothing foreign passes the tenant filter unchanged, with no row left out |
| Payloads.FilteringAddsNothingForeign | backend/src/mist_config_guardian_backend/guardian/reader.py:684-727 | Filtering never makes foreign what was not |
| Payloads.FilteringTwice | backend/src/mist_config_guardian_backend/guardian/reader.py:684-711 | The filter is idempotent: a second pass leaves out nothing |
| Payloads.RedactedIsClean | backend/src/mist_config_guardian_backend/guardian/payloads.py:52-83 | What the bounded walk found nothing foreign in, redaction leaves clean at every depth it keeps |
| Payloads.OtherRowsStay | backend/src/mist_config_guardian_backend/guardian/reader.py:684-711 | A foreign row costs that row alone: the others stay, in order, each filtered by itself |
| Redaction.RedactedIsSecretFree | backend/src/mist_config_guardian_backend/guardian/payloads.py:52-83 | At no depth is there anything but the marker under a secret key, an encrypted mapping, or anything below the depth guard |
| Redaction.RecordedIsSecretFree | backend/src/mist_config_guardian_backend/guardian/reader.py:615-670 | Neither the stored form of a result nor the plug-in's copy keeps a secret |
| Redaction.RedactionKeepsTheRest | backend/src/mist_config_guardian_backend/guardian/payloads.py:52-83 | What is neither secret, encrypted, too wide nor too deep is left at its place as it was |
| Redaction.FullIsWhole | backend/src/mist_config_guardian_backend/guardian/payloads.py:148-164 | What is stored as full is the whole result but its secrets, and equals the plug-in's copy |
| Redaction.FittingIsFull | backend/src/mist_config_guardian_backend/guardian/reader.py:615-670 | A clean result of which nothing would be cut is stored whole whenever it fits |
| Redaction.PluginCopyIsUncut | backend/src/mist_config_guardian_backend/guardian/reader.py:655-662 | The plug-in's copy is not cut: all that is open in what was kept is at its place in it |
| Redaction.OmissionHasCause | backend/src/mist_config_guardian_backend/guardian/payloads.py:148-164 | A redacted secret is no omission: what is left out is in plain sight |
| Redaction.LostRowsRefusedExactly | backend/src/mist_config_guardian_backend/guardian/reader.py:615-640 | A result that lost rows is refused exactly when none is left or what is left is foreign |
| Reader.CandidatesExactly | backend/src/mist_config_guardian_backend/guardian/payloads.py:167-187 | The stored forms, ever smaller: all, ten, five, two rows of each list, counts |
| Reader.StoredEvidenceIsOurs | backend/src/mist_config_guardian_backend/guardian/reader.py:615-670 | Evidence stored without an error, shrunk or not, names no other organization or unauthorized site at any depth |
| Reader.ChosenIsLargest | backend/src/mist_config_guardian_backend/guardian/payloads.py:167-187 | What is stored is the largest form that fits, or the smallest |
| Reader.CleanResultIsKept | backend/src/mist_config_guardian_backend/guardian/reader.py:615-670 | A clean result is never refused, loses no row, and is partial only if it says it has more |
| Reader.OmittedRowsShow | backend/src/mist_config_guardian_backend/guardian/reader.py:615-670 | A result that lost a row is partial and never stored as the full one |
| Reader.Reader.McpCall | backend/src/mist_config_guardian_backend/guardian/reader.py:375-411 | A cached call costs nothing, a made one costs one of the budget, and only a recorded result is cached |
| Reader.Reader.RuleRead | backend/src/mist_config_guardian_backend/guardian/reader.py:423-461 | A rule read is charged to its plug-in and to the attempt, and refused exactly when either is spent |
| Mutation.Send | backend/src/mist_config_guardian_backend/integrations/mist_mutation.py:238-284 | The answer returned and the number of exchanges used are those of the retry rule |
| Mutation.Create | backend/src/mist_config_guardian_backend/integrations/mist_mutation.py:120-140 | A create is done exactly when the final answer holds the object, and applies at most once over all its retries |
| Mutation.Update | backend/src/mist_config_guardian_backend/integrations/mist_mutation.py:195-213 | An update is done exactly on a usable final answer, and its failure is unknown exactly when some answer admits an application |
| Mutation.Delete | backend/src/mist_config_guardian_backend/integrations/mist_mutation.py:215-236 | A delete is judged likewise, and is also done when a retry finds the object gone after an attempt that may have been applied |
| Mutation.PostAppliedOnce | backend/src/mist_config_guardian_backend/integrations/mist_mutation.py:238-284 | A POST is retried only where nothing was processed, so every attempt but the last applied nothing |
| Mutation.KnownFailureAppliedNothing | backend/src/mist_config_guardian_backend/integrations/mist_mutation.py:286-308 | A failure reported with a known outcome means no attempt was applied |
| Mutation.UnknownFailureAdmitsApplication | backend/src/mist_config_guardian_backend/integrations/mist_mutation.py:286-308 | An unknown outcome is doubt: some server as assumed gave these answers and applied the write |
| Mutation.UpdateHolds | backend/src/mist_config_guardian_backend/integrations/mist_mutation.py:195-213 | After a done update the object holds what was wanted, after a known failure what it held before |
| Mutation.DeleteLeavesNothing | backend/src/mist_config_guardian_backend/integrations/mist_mutation.py:215-236 | After a done delete no object is left |
| Mutation.FirstAnswerDecides | backend/src/mist_config_guardian_backend/integrations/mist_mutation.py:238-284 | The first answer not to be tried again decides: for a repeatable request any but none, throttling or a gateway error, for a POST any but throttling |
| Mutation.RepeatableWriteGetsThrough | backend/src/mist_config_guardian_backend/integrations/mist_mutation.py:238-284 | A repeatable write is done whenever an attempt is answered well after only passing answers |
| Approvals.StepKeeps | backend/src/mist_config_guardian_backend/services/approvals.py:436-540 | Every request, decision, reopening, refresh, carry and stale save keeps the invariant of stored approvals |
| Approvals.ApprovedByAnother | backend/src/mist_config_guardian_backend/services/approvals.py:476-512 | Under any interleaving a stored approved request was decided by someone other than its requester |
| Approvals.ExecutionWasGranted | backend/src/mist_config_guardian_backend/services/approvals.py:591-613 | An execution allowed is of exactly the approved plan, not expired; the approval's recorded decider, not its requester, granted that very request, on this plan or on one it was carried from once granted, with the same intent and signature |
| Approvals.DecisionsHappened | backend/src/mist_config_guardian_backend/services/approvals.py:367-393 | Every decision on record was made by a step of the run |
| Approvals.PlanStaysExactly | backend/src/mist_config_guardian_backend/services/approvals.py:367-393 | The plan read stays the one stored through any two worlds if and only if no step between saves the request with another plan |
| Approvals.DecisionLandsOn | backend/src/mist_config_guardian_backend/services/approvals.py:476-512 | Every recorded decision is on the plan its decider's copy showed if and only if the last save of the request since, if any, wrote that same plan |
| Approvals.DecisionCanLandOnAnotherPlan | backend/src/mist_config_guardian_backend/services/approvals.py:476-512 | A run in which a decision approves a plan, with other changes, that its decider never read |
| Approvals.NeverAskedAgain | backend/src/mist_config_guardian_backend/services/approvals.py:367-393 | A decided request is never put to a decision again if and only if nobody reopens it or carries a copy read while it was still pending |
| Approvals.ApprovalStands | backend/src/mist_config_guardian_backend/services/approvals.py:615-712 | An approval keeps its decider, requester, intent and changes, and is never pending again, if and only if nobody reopens the request or saves a copy read before that does not carry the approval; until then it is approved, expired or invalidated |
| Approvals.ApprovalCanBeErased | backend/src/mist_config_guardian_backend/services/approvals.py:690-712 | A run in which a refresh of a copy read while the request was pending turns an approved request into an expired one decided by nobody |
| Approvals.RejectionStands | backend/src/mist_config_guardian_backend/services/approvals.py:615-712 | A rejected request stays rejected, and just as it was, if and only if nobody saves a copy of it read before the rejection |
| Approvals.RejectionCanBeOverturned | backend/src/mist_config_guardian_backend/services/approvals.py:514-540 | A run in which a stale carry returns a rejected request to pending and another administrator approves it |
| Approvals.RejectionCanTurnBack | backend/src/mist_config_guardian_backend/services/approvals.py:514-540 | A run in which the carry of an earlier approved copy turns a rejected request back into that approval, with nobody asking again |
| ApprovalWrites.DecisionExactly | backend/src/mist_config_guardian_backend/services/approvals.py:476-512 | A decision is recorded exactly when the stored request is pending and not the decider's own, on that request |
| ApprovalWrites.RefreshExactly | backend/src/mist_config_guardian_backend/services/approvals.py:690-712 | A refresh saves exactly what is news: a live request gone stale, or else one whose time has come |
| ApprovalWrites.ExecutionExactly | backend/src/mist_config_guardian_backend/services/approvals.py:591-613 | Execution is allowed exactly on an approved request of this operation and plan that has not run out |
| ApprovalWrites.ExpiryExactly | backend/src/mist_config_guardian_backend/services/approvals.py:733-746 | The periodic expiry takes exactly the pending requests whose time has come |

## Left out

- Transport, storage drivers, task queues, web routes, settings, the front end and scripts: writes are atomic guarded
  steps, and reads are inputs.
- Time-to-live deletion of retained documents, and document size limits.
- A bound on how far worker clocks differ from the server's: worker times are arbitrary; sleeping and back-off are left out.
- Texts: reasons, summaries, titles and labels are kept only as present or absent, or as the kind of reason.
- The digit limit of identifiers (six digits for atoms, obligations and evidence).
- Floating point: metric values are real numbers. The rounding of deltas to two decimals, halves to even, is modelled on
  those; what binary representation adds to it is not.
- JSON schema checks, tool and argument rules, window matching and prompt wording; sizes are arbitrary functions.
- Redaction of secrets inside strings, and the digest's own header: a digest may name its type keys, which the row
  filter does not read. Which keys and strings are too long is an input, and cutting them is not modelled; `has_more` is
  an input.
- The comparison of two configurations: the changed paths it finds are an input, with what it says of completeness.
- Masked samples, the change view, and the ledger and deterministic views: projections of what is modelled.
- Evidence ids cited by statuses and conclusions of the two replays, display fields of checks and treatments, and the
  deployment fields copied onto monitored devices.
- Gap texts: deployment gaps are kinds with their devices; the monitoring replay's gaps for shared or several sessions,
  and the verdict's summary and list of gaps, are not modelled.
- The tools view and the hints, packed as items are everywhere else.
- Trimming of conclusions for storage after the verdict is composed.
- `measure_movements`, recovery states and the other writers of the change-group document.
- Approval policies, and hashing: a plan's hash is the plan, a signature and an intent are values of their own.
- Uniqueness of the request of an operation: the model allows several requests for one operation.
- Paging of `list_objects`.
- Every published band naming a source: the code does not promise it, since device rows may come with no conclusion.
- Attempt.NoneIsPublishedOnlyExamined: the phases' own failures are inputs, since what raises inside them is not
  modelled.
- DeploymentTheorems.FallbackExactly: stated for provider times only, where "the latest earlier trigger second" is
  defined; under uncertain times AssignOutcomes gives the rule itself.
- Approvals.ApprovalStands: where the approval is bound is not part of it, since carrying it to the prepared plan is
  what it is for; PlanStaysExactly and ExecutionWasGranted speak of the plan.
- Mutation.UpdateHolds: an unknown outcome leaves the object in either state, so nothing is said of it.
- ClaimProgress.EveryRootCanComplete: a schedule exists, no fairness is assumed, so nothing is said of every schedule.
