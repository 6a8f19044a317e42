# A verified model of Custodian

Custodian is a platform for running agents under supervision: every run leaves a hash-chained execution log, every model
call goes through a gateway that keeps data in its region, every action that matters waits for a person, and every piece
of personal content is sealed under keys whose destruction is the erasure. This project models those parts in Dafny and
proves what the platform promises of them: over every input, every run and every interleaving.

Check it with `dafny verify dfyconfig.toml`.

## What is modelled

**The evidence and the run.** `HashChain`, `CanonicalJson` and `EntryJson` are the log, its verifier, its single write-time
link check and the canonical text that is hashed. `LogStores` and `StoreRefinement` are the two log stores and the proof
that rows behave as sequences do. `Gateway` is one delivery: claim, open, route, fail over, settle. `Rail` screens what
tools return, and `AgentRun` is the agent's loop over all of it, as a mutable context changed trip by trip. The ledger, the
providers, the key store, the catalogue, the approval gate, the tools, the clock and the log store answer as an arbitrary
script says and may fail at any call. `LogGrammar` gives the one grammar of every log as a scanner with readable
consequences; `RunEvidence` and `RunTheorems` prove that every run keeps to it, what it costs and that it ends;
`Withholding` proves that content the rail withholds influences nothing else in a whole run. `Residency`, `DeliveryLog` and
`DeliveryAnswers` say where a delivery's calls go and what its log and its answer rest on; `RunEntries`, `RunAnswers` and
`Prompts` say it of whole runs: every entry, every answer and every prompt, in terms of the request and of what the world
answered. `JsonReader` reads the canonical text back by the grammar of RFC 8259.

**The approval queue.** `ApprovalGate` has each SQL statement as a function of the table and the gate as a class that issues
them, with an injected clock and other processes changing the table between statements. `ApprovalProtocol` lets requesters,
reviewers, openings, sweeps and disposals interleave statement by statement, each acting on whatever it read or stamped
earlier, and proves what every reachable table and every answer says. `ReviewQueue` is the order of work.

**Custody and what stands on it.** `Custody` is envelope encryption under a subject key and a bucket key; `KeyStore` is the
custodian, registry and store as they run; `Erasures` what their proofs and failures say. `VectorIndex` and `IndexHistory` are the two indexes that delete what they
cannot unseal, and the proof that nothing is lost by it; `QueryAnswers` what they answer. `Idempotency` and `IdempotencyRuns` are the claim ledgers and the
protocol of deliveries over them.

**Algorithms and arithmetic.** `Chunking`, `Compaction` and `StreamEvents` are the text algorithms, `ChunkPromises` what
chunking promises; `CostProjections` the three readings of what a run cost, `UsageSums` the same entry by entry;
`StateSpans` the states its timeline shows; `Correlation` the judge's calibration and the cosine, `CorrelationReference`
both against the textbook's formulas.

A class or a loop of the program is a class or a loop here, proved against a specification function of the inputs or of the
old state; the theorems are about those functions. Bookkeeping (`issued`, `gone`, `history`, the ghost fields) is
the model's own memory of the past and decides nothing.

## What stands for what

- The hash of an entry is a function that depends on everything the entry says but its hash and determines it (`Commits`).
  `EntryJson.CanonicalHashCommits` derives that from any injective hash of texts.
- Encryption is ideal: a box opens with its own key and vector only. Random keys and identifiers do not repeat.
- Instants are integer milliseconds, each with one textual form. Texts are sequences of UTF-16 code units.
- Namespaces, run identifiers, subjects and buckets are as their parsers admit them: no space or NUL in a namespace, no
  colon in a subject or bucket, no dot in a base64 text.
- The square root is any function that is one. Scores, costs and similarities are exact.
- The copy shown to people and models (`Wording`), the reply parser and the price table are parameters.

## Where the code and its own words part

- `canonicalJson` loses a field named `__proto__` (`CanonicalJson.ProtoFieldIsLost`), and nothing else
  (`CanonicalKeepsOrdinaryTrees`).
- A requester that does not look for 730 days can be told of a timeout though a person answered, and then a rejected low-risk
  action goes ahead: the row it would have read is past retention and gone. No requester that looked sooner is misled
  (`ApprovalProtocol.TimeoutsMisleadExactlyPastRetention`, `RejectedActionProceedsTooLate`).
- A repeated erasure answers with the recorded proof and leaves content sealed since readable
  (`Custody.ResealedOutlivesErasure`); `RepeatErasureSparesResealed` says exactly when.
- An outcome that arrives after its claim's 24 hours can land on the claim of a newer invocation: exactly when its request
  was delivered again in the meantime (`IdempotencyRuns.OutcomeLandsOnOwnClaim`, `LateOutcomeLandsOnNewClaim`). A sweep that
  runs ahead of a later delivery can make a request run twice, and only then (`SweepIsSafeExactlyInOrder`).
- With an overlap as large as the window, or negative, a chunk can exceed the window
  (`Chunking.WindowHoldsExactlyWithRoom`).
- A context that holds one evictable message object twice can stay over budget after compaction, and only such a context
  (`Compaction.BudgetHoldsExactlyWithoutRepeats`).
- The timeline has a recovering and a waiting state, but no run writes a log that shows either
  (`StateSpans.RunsNeverShowRecovering`).
- The gateway means to settle every claim it fails; it does not when the opening or the outcome cannot be sealed, and the
  request then answers as in flight until its claim expires (`Gateway.ClaimIsSettled`).
- The gateway's last line, after the attempt loop, is never reached (`Gateway.RunAttempts`).

## Model

| member | source | states |
|---|---|---|
| HashChain.AppendAddsOneLink | src/evidence/domain/append-entry.ts:63-81 | an append is refused exactly when the log is finished; otherwise it adds one entry with the event, the next number, the hash of the entry before and its own hash, and changes nothing before |
| HashChain.VerifyRunLog | src/evidence/domain/verify-run-log.ts:18-38 | accepts exactly the verified logs, and otherwise reports the first entry where numbering, link or hash fails |
| HashChain.AppendKeepsVerified | src/evidence/domain/append-entry.ts:63-81 | an append to a verified, unfinished log succeeds and gives a verified log that extends it by that event |
| HashChain.SameTailSameLog | src/evidence/domain/verify-run-log.ts:18-38 | two verified logs that end in the same hash are the same log |
| HashChain.AlteredLogFails | src/evidence/domain/verify-run-log.ts:18-38 | an altered, shortened, extended or reordered copy that keeps the last hash does not verify |
| HashChain.AcceptedMeansExtended | src/evidence/domain/append-entry.ts:43-61 | for verified logs the single link check accepts a longer log exactly when it extends the stored one |
| HashChain.EqualLengthIsANoOp | src/evidence/domain/append-entry.ts:43-61 | a log no longer than the stored one leaves the store as it is: accepted as a repeat, whatever it says, exactly when it is as long |
| HashChain.RefusalsSayWhy | src/evidence/domain/append-entry.ts:43-61 | a rewind is refused naming both tails, a divergence naming the stored tail hash and the other that was received |
| HashChain.HistoryOnlyExtends | src/evidence/infrastructure/in-memory-execution-log-store.ts:11-29 | any history of appends of verified logs keeps the store verified and only ever extends it |
| CanonicalJson.SortKeys | src/primitives/domain/language/canonical-json.ts:16-25 | the copied object holds the assignable fields in own-property order |
| CanonicalJson.PrecedesIsStrictTotal | src/primitives/domain/language/canonical-json.ts:16-25 | own-property order, array indices before other names, is a strict total order |
| CanonicalJson.OrderedUnique | src/primitives/domain/language/canonical-json.ts:16-25 | an ordering of the same fields is unique, so the order they came in does not matter |
| CanonicalJson.CanonicalVisitsSortedCopy | src/primitives/domain/language/canonical-json.ts:6-14 | visiting the sorted copy field by field is sorting at every depth |
| CanonicalJson.CanonicalDecidesSameTree | src/primitives/domain/language/canonical-json.ts:6-25 | two values have one canonical form exactly when they are the same tree up to field order at every depth |
| CanonicalJson.PrintCancel | src/primitives/domain/language/canonical-json.ts:6-14 | a printed tree, with strings escaped as section 7 of RFC 8259 has it, can be read off the front of any text |
| CanonicalJson.CanonicalTextDecides | src/primitives/domain/language/canonical-json.ts:6-25 | canonical texts are equal exactly for the same trees, `__proto__` fields aside |
| CanonicalJson.CanonicalTextInjective | src/primitives/domain/language/canonical-json.ts:6-25 | for ordinary field names, canonical texts are equal exactly for the same trees |
| CanonicalJson.CanonicalKeepsOrdinaryTrees | src/primitives/domain/language/canonical-json.ts:16-25 | a value's canonical form is the same tree exactly when no object in it has a `__proto__` field |
| JsonReader.CanonicalTextReadsBack | src/primitives/domain/language/canonical-json.ts:6-14 | a reader written from the grammar of RFC 8259 reads the canonical text back as the canonical tree |
| CanonicalJson.ProtoFieldIsLost | src/primitives/domain/language/canonical-json.ts:16-25 | the exception: a field named `__proto__` leaves no trace in the text |
| EntryJson.EventInjective | src/evidence/domain/append-entry.ts:26-34 | events that are the same JSON tree are the same event |
| EntryJson.HashableEntryInjective | src/evidence/domain/append-entry.ts:26-34 | the text that is hashed determines everything an entry says but its hash |
| EntryJson.CanonicalHashCommits | src/evidence/domain/append-entry.ts:26-34 | an injective hash of that text is the collision-free entry hash the chain results ask for |
| LogStores.KeysNeverCollide | src/evidence/infrastructure/in-memory-execution-log-store.ts:54-56 | keys of different runs or namespaces never coincide |
| LogStores.InMemoryExecutionLogStore.Append | src/evidence/infrastructure/in-memory-execution-log-store.ts:11-29 | the answer and new state of an append |
| LogStores.InMemoryExecutionLogStore.Read | src/evidence/infrastructure/in-memory-execution-log-store.ts:31-37 | the stored log, or unknown run |
| LogStores.InMemoryExecutionLogStore.DisposeExpiredRuns | src/evidence/infrastructure/in-memory-execution-log-store.ts:39-50 | exactly the runs due are disposed of, counted and remembered |
| LogStores.SqliteExecutionLogStore.Append | src/evidence/infrastructure/sqlite-execution-log-store.ts:88-124 | the answer and new table of an append |
| LogStores.SqliteExecutionLogStore.Read | src/evidence/infrastructure/sqlite-execution-log-store.ts:126-155 | the rows as a verified log, or the first row that is corrupt |
| LogStores.SqliteExecutionLogStore.DisposeExpiredRuns | src/evidence/infrastructure/sqlite-execution-log-store.ts:166-198 | exactly the runs whose rows verify and are due are disposed of |
| StoreRefinement.AppendRefines | src/evidence/infrastructure/sqlite-execution-log-store.ts:88-124 | on verified logs an append answers alike in both stores and keeps them in agreement |
| StoreRefinement.ReadRefines | src/evidence/infrastructure/sqlite-execution-log-store.ts:126-155 | so does a read |
| StoreRefinement.DisposeRefines | src/evidence/infrastructure/sqlite-execution-log-store.ts:166-221 | so does a disposal |
| StoreRefinement.RowsRefineSequences | src/evidence/infrastructure/sqlite-execution-log-store.ts:88-221 | every history of appends, reads and disposals of verified logs gets the same answers from both stores |
| StoreRefinement.FreshStoresAgree | src/evidence/infrastructure/sqlite-execution-log-store.ts:39-222 | so does every such history from two empty stores |
| StoreRefinement.AppendedIsRead | src/evidence/infrastructure/in-memory-execution-log-store.ts:11-37 | what was accepted is read back, whole; a repeat changes nothing, a refusal changes nothing, and no other run is touched |
| StoreRefinement.DisposedIsUnknown | src/evidence/infrastructure/in-memory-execution-log-store.ts:39-50 | a run is disposed of exactly when its last entry is 730 days old, and is then unknown and refuses appends |
| StoreRefinement.FailedReadNamesTheRow | src/evidence/infrastructure/sqlite-execution-log-store.ts:126-155 | of any table, the row a failed read names is the first that holds no entry of the run, or else the first wrong number, link or hash |
| StoreRefinement.DisposedNeverLiveAgain | src/evidence/infrastructure/sqlite-execution-log-store.ts:88-124 | a disposed run is never live again, whatever follows |
| StoreRefinement.TamperedRunIsKept | src/evidence/infrastructure/sqlite-execution-log-store.ts:200-221 | a run whose rows fail verification is never disposed of |
| StoreRefinement.SweepDisposesExactly | src/evidence/infrastructure/sqlite-execution-log-store.ts:166-221 | of an arbitrary table, a sweep removes, counts and remembers exactly the runs that verify and are past 730 days, and every other row stays as it is |
| StoreRefinement.ReadableRunIsDueByItsLastEntry | src/evidence/infrastructure/sqlite-execution-log-store.ts:200-221 | a run that can be read is due exactly when the last entry read is past retention |
| Retention.DisposalCutoff | src/primitives/domain/retention-schedule.ts:110-134 | the cutoff of a ranged delete selects exactly what is due |
| Gateway.SelectionStaysInRegion | src/serving/domain/select-provider.ts:20-63 | a route is eligible and untried; a refusal means there is none such, and no eligible one at all is told apart |
| Residency.FirstSuitableIsChosen | src/serving/domain/select-provider.ts:36-63 | the route is the first candidate, by its own profile, that processes and stores in the region, is healthy, retains nothing where nothing may be kept, and was not tried |
| Residency.DeliveryStaysInRegion | src/serving/domain/select-provider.ts:20-24 | every provider a delivery calls, and every one its entries name, has such a profile |
| Residency.RefusedExactlyWhenNoneSuits | src/serving/domain/select-provider.ts:36-63 | a delivery is refused for want of a provider exactly when it was claimed and opened and no candidate has such a profile |
| Gateway.RetryMovesOn | src/serving/domain/retry-policy.ts:46-66 | a retry follows exactly a transient failure before the fourth attempt; it waits what the provider asked or a doubling quarter second lengthened by the jitter; giving up is for the reason given |
| Gateway.AttemptOnce | src/serving/application/serve-completion.ts:133-186 | the outcome, log, attempts and effects of one attempt |
| Gateway.RunAttempts | src/serving/application/serve-completion.ts:325-337 | the attempts end in an answer; the code after the loop is never reached |
| Gateway.ServeCompletion | src/serving/application/serve-completion.ts:299-338 | the answer, log and ordered effects of a delivery |
| Gateway.LoopAlwaysAnswers | src/serving/application/serve-completion.ts:327-337 | the fourth attempt is never retryable |
| Gateway.DeliveryStaysRouted | src/serving/application/serve-completion.ts:133-186 | every call is announced by the entry just before it and goes to an eligible provider, none is called twice, and exhaustion means every eligible one was called and failed transiently |
| DeliveryLog.TraceIsTheLog | src/serving/application/serve-completion.ts:133-297 | the log a delivery returns is the one it was given and then exactly the entries it wrote, in order |
| DeliveryLog.EntriesNameEligible | src/serving/application/serve-completion.ts:133-160 | every invocation entry a delivery adds to the log names an eligible provider |
| DeliveryAnswers.DeliveryAnswersTruly | src/serving/application/serve-completion.ts:133-338 | a served reply is that of the first call that did not fail in passing, which is the last call made; every rejection is for what it says |
| DeliveryAnswers.DeliveryEntriesTellTheTruth | src/serving/application/serve-completion.ts:133-297 | every entry a delivery adds names its own request, a provider that suits, or the tokens of that reply and their price |
| Gateway.NoEligibleNoCall | src/serving/domain/select-provider.ts:36-63 | without an eligible provider nothing is called and the delivery is refused for that reason |
| Gateway.ClaimIsSettled | src/serving/application/serve-completion.ts:230-297 | a delivery settles its claim, once and last and as a success exactly when it was served, exactly when it made the claim, opened the run and could seal the outcome; else it settles nothing and is refused |
| Rail.Screen | src/agent/domain/screen.ts:36-46 | allows a text exactly when every classifier does, and otherwise gives the first block by stage |
| Rail.ScreeningBlocksFirst | src/agent/domain/screen.ts:36-46 | a block is the verdict of the first classifier of its stage that blocks, and a hazard one only when no fast one blocks |
| Rail.RailRetrieved | src/agent/domain/retrieval-rail.ts:31-48 | the admitted and the blocked chunks, in order |
| Rail.AdmittedRecords | src/agent/application/tool-step.ts:200-215 | chunks are made of the records, railed, and the records taken back by chunk identity: what comes back is the records whose own text passes |
| Rail.RailedBackIsAdmitted | src/agent/application/tool-step.ts:200-215 | that reconciliation, proved against the filter that never makes a chunk |
| Rail.IdsReadmitSiblings | src/agent/application/tool-step.ts:190-194 | taking records back by record id instead would be right exactly when no blocked record shares its id with an admitted one |
| Rail.AdmittedExactly | src/agent/application/tool-step.ts:200-215 | a record is admitted exactly when every classifier allows its own text, even beside a blocked one with its id |
| Rail.RailConserves | src/agent/domain/retrieval-rail.ts:31-48 | the admitted and the blocked merge back, in order, into what was retrieved; none is blocked exactly when every text passes |
| Rail.WithheldTeachesNothing | src/agent/application/tool-step.ts:175-188 | two results that differ only in what is withheld leave the same observation, progress and record ids |
| DecisionLanes.ProceedNeedsApproval | src/governance/domain/decision-lane.ts:74-122 | an action proceeds exactly on approval, or in the fast lane without a rejection |
| DecisionLanes.LanesScaleWithRisk | src/governance/domain/decision-lane.ts:27-52 | riskier actions wait longer and must be looked at longer, everybody has time to look, and only what can be taken back goes ahead unanswered |
| AgentRun.LoopContext.Append | src/agent/application/run-log.ts:87-105 | the log after the events, up to the first that is refused |
| AgentRun.LoopContext.Finish | src/agent/application/run-log.ts:120-131 | the closing entry is appended and the whole log persisted |
| AgentRun.LoopContext.AskModel | src/agent/application/run-agent.ts:104-185 | the reply or failure of a turn, the log after it, and the transcript that was sent |
| AgentRun.LoopContext.RecordDeniedTool | src/agent/application/tool-step.ts:77-104 | a denied call is recorded and the observation says why |
| AgentRun.LoopContext.RunTool | src/agent/application/tool-step.ts:106-188 | a call that ran is recorded with what was admitted, and only that is observed |
| AgentRun.LoopContext.TakeStep | src/agent/application/tool-step.ts:34-53 | availability, then approval, then execution |
| AgentRun.LoopContext.GoRound | src/agent/application/run-agent.ts:53-101 | one trip round the loop |
| AgentRun.RunAgent | src/agent/application/run-agent.ts:32-102 | the answer, final context, persisted logs and prompts of a run; the loop ends |
| LogGrammar.OpensFirst | src/serving/application/serve-completion.ts:193-228 | an accepted log opens with its one run-started, or holds only its closing entry |
| LogGrammar.ClosesLast | src/agent/application/run-log.ts:120-131 | run-finished is last |
| LogGrammar.SuccessIsAnswered | src/agent/application/run-agent.ts:83-90 | a success closes a turn that was answered |
| LogGrammar.UsageNamesInvocation | src/serving/application/serve-completion.ts:260-297 | usage names the invocation just before it |
| LogGrammar.AfterInvocation | src/serving/application/serve-completion.ts:133-186 | an invocation is followed by another, by its usage, or by the end in failure or refusal |
| LogGrammar.FewAttempts | src/serving/application/serve-completion.ts:327-335 | no five invocations stand in a row |
| LogGrammar.AfterUnverifiedTool | src/agent/application/tool-step.ts:77-104 | after a denied or failed tool the run halts and nothing else follows |
| LogGrammar.SuccessClosesABlock | src/agent/application/run-log.ts:54-85 | a successful call closes blocks, then allowances, then records, with no allowance or one for each record |
| RunEvidence.DeliveryKeepsGrammar | src/serving/application/serve-completion.ts:133-297 | a delivery leaves a settled turn, or a verified log the run can close as the rejection asks; it never fails for the log's sake |
| RunEvidence.ToolStepKeepsGrammar | src/agent/application/tool-step.ts:34-188 | a tool step leaves a whole block or a dead end; only sealing the arguments can stop it, before anything is written |
| RunEvidence.TripKeepsGrammar | src/agent/application/run-agent.ts:53-101 | from a loop head, a trip persists one whole verified log, its tally is the recorded cost, and the closing entry says what the caller is told |
| RunTheorems.EveryRunKeepsTheGrammar | src/agent/application/run-agent.ts:32-102 | whatever the world answers, every log a run persists is verified, whole and of the one grammar and extends the one before; if the store took the last of them it closes with what the caller is told, failures included, and otherwise the caller is told of a failure |
| RunTheorems.EveryExitClosesTheRecord | src/agent/application/run-log.ts:120-149 | with a store that takes what it is given, every run that began closes its record with its answer or its failure |
| RunTheorems.StoreHoldsTheRun | src/agent/application/run-log.ts:107-118 | a store given those logs one by one accepts each, holding it from then on, and ends up with the run's own |
| RunTheorems.SpendingIsBounded | src/agent/domain/loop-controls.ts:42-56 | recorded cost overshoots the ceiling by less than the last answered turn |
| RunTheorems.EveryRunEnds | src/agent/application/progress.ts:16-42 | a run sends at most as many prompts as its iteration limit, and at most (d + 1) times the limit of steps without progress for d record ids seen |
| RunEntries.EveryEntryTellsTheTruth | src/agent/application/tool-step.ts:34-188 | every entry of every log a run hands over tells of its request and of the answers of the turn that wrote it: region and principal, model and provider, tokens and price, the tool asked for and why it did or did not run, the records that passed, the rule each block was for |
| RunEntries.NoToolRunsUnapproved | src/agent/application/tool-step.ts:46-53 | each entry of a tool that was not denied was written in a turn in which the tool was there and its action approved, or in the fast lane and not rejected |
| RunEntries.NoRunLeavesItsRegion | src/serving/domain/select-provider.ts:20-24 | every provider a run's logs name has a candidate profile that processes and stores in the tenant's region |
| RunAnswers.EveryAnswerRests | src/agent/application/run-agent.ts:53-101 | an answer is how the reply of the last turn reads; a refusal comes when every provider that suits was tried; a failure when something failed; a halt is for the first of the four limits that the logs themselves show to be reached |
| Prompts.EveryPromptTells | src/agent/application/run-agent.ts:166-185 | every prompt holds the question, every tool, and everything observed and corrected before it |
| Prompts.TripLearns | src/agent/application/tool-step.ts:34-188 | a turn adds one correction or one observation, of the tool its reply asked for |
| Prompts.StepIsTold | src/agent/application/tool-step.ts:217-247 | an observation says why the tool did not run, that it failed, or every text that passed and that others were withheld, cut at 4000 code units |
| Withholding.DeliveryReadsLittle | src/serving/application/serve-completion.ts:193-297 | a delivery depends on its log only through whether it was opened and whether it is closed |
| Withholding.WithheldChangesNothing | src/agent/application/tool-step.ts:106-245 | two runs whose tool results differ only in what is withheld give the same answer, prompts, cost and bookkeeping |
| ApprovalGate.SqliteApprovalGate.Open | src/governance/infrastructure/sqlite-approval-gate.ts:174-189 | hands over exactly a pending, unexpired row that no other reviewer holds, with a brief that tells the truth, and else says why not |
| ApprovalGate.OpenedBriefTells | src/governance/domain/review-brief.ts:38-53 | the brief has the row's class, lane and instants, calls reversible just what is low-risk, says what the requester will do unanswered, and names the instant from which approving works until the deadline |
| ApprovalGate.SqliteApprovalGate.Held | src/governance/infrastructure/sqlite-approval-gate.ts:253-273 | the read half of a decision |
| ApprovalGate.SqliteApprovalGate.Decide | src/governance/infrastructure/sqlite-approval-gate.ts:281-294 | the guarded write: the row changes exactly when it is still as it was read |
| ApprovalGate.SqliteApprovalGate.Approve | src/governance/infrastructure/sqlite-approval-gate.ts:191-206 | lands exactly when the holder approves after the lane's floor and before the deadline |
| ApprovalGate.SqliteApprovalGate.Reject | src/governance/infrastructure/sqlite-approval-gate.ts:213-224 | lands exactly when the holder rejects before the deadline |
| ApprovalGate.SqliteApprovalGate.Refusal | src/governance/infrastructure/sqlite-approval-gate.ts:319-344 | which of the refusals applies |
| ApprovalGate.RefusalsTellWhy | src/governance/infrastructure/sqlite-approval-gate.ts:319-344 | each refusal exactly for what it says, and none but that nobody was shown the row exactly when it can be opened |
| ApprovalGate.SqliteApprovalGate.Request | src/governance/infrastructure/sqlite-approval-gate.ts:112-137 | polling ends, its outcome is what the row says, and a timeout is reported only at the deadline |
| ApprovalGate.SqliteApprovalGate.Queue | src/governance/infrastructure/sqlite-approval-gate.ts:144-160 | exactly the pending unexpired rows, once each, the more urgent first |
| ApprovalGate.SqliteApprovalGate.DisposeExpired | src/governance/infrastructure/sqlite-approval-gate.ts:232-237 | exactly the decided rows past the cutoff go |
| ApprovalGate.DisposalRemovesExactly | src/governance/infrastructure/sqlite-approval-gate.ts:232-237 | a row goes exactly when it was decided 730 days ago or more |
| ApprovalGate.SweepClosesOverdue | src/governance/infrastructure/sqlite-approval-gate.ts:346-372 | a sweep closes exactly the pending rows past their deadline, dated by it, and touches no other |
| ApprovalGate.QueueIsDetermined | src/governance/infrastructure/sqlite-approval-gate.ts:144-160 | the table and the instant decide the queue, whatever order rows are read in |
| ReviewQueue.UrgencyIsTotal | src/governance/domain/pending-review.ts:77-89 | between different reviews exactly one order holds, seen the same from both sides |
| ReviewQueue.UrgencyIsWeakOrder | src/governance/domain/pending-review.ts:77-89 | the comparator is consistent enough for a sort |
| ReviewQueue.QueueOrderIsFixed | src/governance/domain/pending-review.ts:77-89 | sorting the same reviews from any order gives one queue |
| ReviewQueue.DenialsComeFirst | src/governance/domain/pending-review.ts:77-93 | what a timeout denies comes before what it lets through, and earlier deadlines come first in each |
| ReviewQueue.TiesGoToTheOlder | src/governance/domain/pending-review.ts:77-93 | of two that end together the older request comes first, and then the smaller identifier |
| ApprovalProtocol.DoSound | src/governance/infrastructure/sqlite-approval-gate.ts:112-372 | every statement of every actor, on whatever it read or stamped before, keeps every row and every pending task sound |
| ApprovalProtocol.WhatRowsProve | src/governance/infrastructure/sqlite-approval-gate.ts:281-294 | in every reachable table an approved row was decided by its holder after the floor and before the deadline, and a timed-out one only at its deadline |
| ApprovalProtocol.AnswersAreFinal | src/governance/infrastructure/sqlite-approval-gate.ts:281-372 | an answered or expired row never changes until it is disposed of, 730 days on |
| ApprovalProtocol.HoldsAreExclusive | src/governance/infrastructure/sqlite-approval-gate.ts:174-189 | nobody takes a review out of another reviewer's hands |
| ApprovalProtocol.RequestersAreToldTheTruth | src/governance/infrastructure/sqlite-approval-gate.ts:112-137 | what a requester or reviewer was told is what became of the row, unless the row was past retention and gone when the requester looked, which had then waited at least 730 days |
| ApprovalProtocol.TimeoutsMisleadExactlyPastRetention | src/governance/infrastructure/sqlite-approval-gate.ts:112-137 | a timeout reported after some wait can be untrue in a reachable table exactly when that wait is 730 days or more |
| ApprovalProtocol.RejectedActionProceedsTooLate | src/governance/infrastructure/sqlite-approval-gate.ts:128-133 | the instance: a rejected low-risk action that goes ahead because its requester looked too late |
| ApprovalProtocol.NothingProceedsUnreviewed | src/governance/domain/decision-lane.ts:74-91 | what proceeds was approved by its holder, after the floor and before the deadline, or is in the fast lane and timed out, or is in the fast lane and its requester looked past retention |
| Custody.KeyNames | src/custody/domain/key-custodian.ts:23-29 | subject and bucket keys never share a name, and no name holds a colon |
| Custody.PrefixTellsName | src/custody/infrastructure/in-memory-key-custodian.ts:50-58 | the prefix a destroy looks for finds that key's handles and no other's |
| Custody.IvRoundTrip | src/custody/infrastructure/envelope-subject-key-store.ts:64-78 | the two vectors come back from their joined form |
| Custody.GenuineOpens | src/custody/infrastructure/envelope-subject-key-store.ts:74-126 | sealed content opens to its plaintext exactly while both keys are there, and otherwise fails for good; an unreachable custodian is not such a failure |
| Custody.CiphertextNeedsItsKeys | src/custody/infrastructure/envelope-subject-key-store.ts:74-126 | no envelope around the ciphertext opens without them, whatever it claims |
| Custody.SealGivesGenuine | src/custody/infrastructure/envelope-subject-key-store.ts:41-72 | sealing gives readable content |
| Custody.ApplyKeeps | src/custody/infrastructure/envelope-subject-key-store.ts:41-152 | each operation leaves content readable but a destruction of one of its keys that reaches the custodian |
| Custody.ReadableUntilDestroyed | src/custody/infrastructure/envelope-subject-key-store.ts:41-152 | over any later history content is readable exactly until such a destruction, and then fails terminally |
| Custody.DestroyedIsLostForever | src/custody/infrastructure/envelope-subject-key-store.ts:141-151 | after it the ciphertext opens in no envelope in any later state, even when new seals re-create the key |
| Custody.RepeatErasureSparesResealed | src/custody/infrastructure/envelope-subject-key-store.ts:141-151 | an erasure makes readable content of its subject unreadable exactly when no proof of an earlier one is recorded |
| Custody.ResealedOutlivesErasure | src/custody/infrastructure/envelope-subject-key-store.ts:141-151 | content sealed after one erasure outlives the next |
| Erasures.ProofsTellOfDestructions | src/custody/infrastructure/in-memory-key-custodian.ts:50-71 | over any history, a recorded proof names its key, the instant and the record of an operation that destroyed it at the custodian, and has not been disposed of since |
| Erasures.RepeatedErasureAnswersWithTheFirst | src/custody/infrastructure/envelope-subject-key-store.ts:141-151 | every later erasure is answered with that same proof, whatever happens in between, until a disposal 730 days or more later |
| Erasures.DisposalTakesItsTime | src/custody/infrastructure/sqlite-deletion-registry.ts:48-61 | a disposal removes a proof exactly 730 days or more after the destruction it tells of |
| Erasures.ErasureFailsExactlyOutOfReach | src/custody/infrastructure/envelope-subject-key-store.ts:141-151 | an erasure fails, and does nothing, exactly when nothing is recorded and the custodian is out of reach |
| Erasures.FailuresTellWhat | src/custody/infrastructure/envelope-subject-key-store.ts:74-126 | content that does not open says which key is gone, the bucket's first; an outage is told as one |
| Erasures.SealingFailsExactlyOutOfReach | src/custody/infrastructure/envelope-subject-key-store.ts:41-72 | sealing fails exactly when a call does not get through, and labels content with its own subject and bucket |
| KeyStore.InMemoryKeyCustodian.IssueKey | src/custody/infrastructure/in-memory-key-custodian.ts:27-35 | a new key under a handle of its own |
| KeyStore.InMemoryKeyCustodian.UnwrapKey | src/custody/infrastructure/in-memory-key-custodian.ts:37-48 | the key, or which of two things is gone |
| KeyStore.InMemoryKeyCustodian.Destroy | src/custody/infrastructure/in-memory-key-custodian.ts:50-71 | the key and every key wrapped under it go |
| KeyStore.SqliteDeletionRegistry.Record | src/custody/infrastructure/sqlite-deletion-registry.ts:28-35 | the first proof of a destruction stays |
| KeyStore.SqliteDeletionRegistry.DisposeExpired | src/custody/infrastructure/sqlite-deletion-registry.ts:49-56 | exactly the proofs past the cutoff go |
| KeyStore.EnvelopeSubjectKeyStore.SealContent | src/custody/infrastructure/envelope-subject-key-store.ts:41-72 | the sealed content and the state after |
| KeyStore.EnvelopeSubjectKeyStore.UnsealContent | src/custody/infrastructure/envelope-subject-key-store.ts:74-126 | the plaintext or the failure, bucket first |
| KeyStore.EnvelopeSubjectKeyStore.DestroyNamed | src/custody/infrastructure/envelope-subject-key-store.ts:141-151 | a recorded destruction is answered from its record; a new one reaches the custodian and is recorded |
| VectorIndex.InMemoryVectorIndex.Query | src/knowledge/infrastructure/in-memory-vector-index.ts:57-98 | the answer, and the documents left |
| VectorIndex.SqliteVectorIndex.Upsert | src/knowledge/infrastructure/sqlite-vector-index.ts:56-62 | one row per key, replaced in place |
| VectorIndex.SqliteVectorIndex.Query | src/knowledge/infrastructure/sqlite-vector-index.ts:64-116 | the answer, and the rows left after deleting by key |
| VectorIndex.SqliteVectorIndex.DropNamespace | src/knowledge/infrastructure/sqlite-vector-index.ts:126-128 | exactly the namespace's rows go, and are counted |
| VectorIndex.TopIsBest | src/knowledge/infrastructure/in-memory-vector-index.ts:96-97 | nothing left out scores more than anything returned |
| QueryAnswers.AnswersAreTheBest | src/knowledge/infrastructure/in-memory-vector-index.ts:61-97 | every match tells of a different stored document of the namespace with the similarity of its own unsealed embedding; as many as asked for, or as are readable; the more similar first, and of the equally similar the one stored first; and every one outranks every readable document left out |
| QueryAnswers.QueryDropsTheUnreadable | src/knowledge/infrastructure/sqlite-vector-index.ts:78-116 | a query fails, changing nothing, exactly when the key store gave no answer for a document of the namespace; otherwise just the ones that hold no embedding any more are dropped |
| IndexHistory.StoredIndexLosesNothing | src/knowledge/infrastructure/sqlite-vector-index.ts:56-128 | over any history with seals and destructions in between, every answer is the best readable documents of an index that never deletes; an outage leaves the index unchanged |
| IndexHistory.MemoryIndexLosesNothing | src/knowledge/infrastructure/in-memory-vector-index.ts:57-98 | the same for the index in memory, from any sealed documents |
| IndexHistory.NamespacesAreApart | src/knowledge/infrastructure/in-memory-vector-index.ts:57-98 | a query depends on no other tenant's keys, returns only matches of its own namespace and deletes no other tenant's documents |
| Idempotency.KeysNeverCollide | src/serving/infrastructure/in-memory-idempotency-store.ts:63-65 | composed keys coincide only for the same namespace and request |
| Idempotency.InMemoryIdempotencyStore.Claim | src/serving/infrastructure/in-memory-idempotency-store.ts:24-45 | a live claim is found, or a new one written |
| Idempotency.InMemoryIdempotencyStore.Complete | src/serving/infrastructure/in-memory-idempotency-store.ts:47-60 | the outcome is written on whatever claim is there |
| Idempotency.SqliteIdempotencyStore.Claim | src/serving/infrastructure/sqlite-idempotency-store.ts:68-90 | the same in rows |
| Idempotency.SqliteIdempotencyStore.Complete | src/serving/infrastructure/sqlite-idempotency-store.ts:103-118 | the same in rows |
| Idempotency.SqliteIdempotencyStore.SweepExpired | src/serving/infrastructure/sqlite-idempotency-store.ts:124-126 | exactly the expired claims go, and are counted |
| Idempotency.StoresAnswerAlike | src/serving/infrastructure/sqlite-idempotency-store.ts:68-118 | both stores answer alike and stay alike |
| Idempotency.ExecuteOnce | src/serving/application/execute-once.ts:22-40 | claim, invoke, complete: invoked exactly when claimed, else told what the live claim holds |
| IdempotencyRuns.InvocationsAreADayApart | src/serving/domain/idempotency-store.ts:28-60 | however deliveries interleave, invocations of one request are at least 24 hours apart |
| IdempotencyRuns.DedupedAnswersAreLive | src/serving/application/execute-once.ts:30-35 | a delivery that did not invoke is told in-flight, or what was recorded since the invocation whose claim was live |
| IdempotencyRuns.OutcomeLandsOnOwnClaim | src/serving/infrastructure/sqlite-idempotency-store.ts:103-118 | a running invocation finds its own claim exactly when no delivery of its request and no sweep has come 24 hours or more after it; a claim found instead is at least 24 hours younger |
| IdempotencyRuns.LateOutcomeLandsOnNewClaim | src/serving/infrastructure/sqlite-idempotency-store.ts:103-118 | for any two instants: the older outcome answers for the newer claim, which is still running, exactly when the second delivery came 24 hours or more after the first |
| IdempotencyRuns.NamespacesAreApart | src/serving/domain/idempotency-store.ts:37-55 | nothing done in other namespaces changes a claim or an answer in one |
| IdempotencyRuns.SweepsChangeNoAnswer | src/serving/infrastructure/sqlite-idempotency-store.ts:124-126 | sweeps no later than the deliveries that follow change who invokes and what the others are told not at all |
| IdempotencyRuns.SweepIsSafeExactlyInOrder | src/serving/infrastructure/sqlite-idempotency-store.ts:124-126 | for any instants of a sweep and a later delivery: no request claimed before runs twice within 24 hours exactly when the sweep is no later than the delivery |
| IdempotencyRuns.EarlySweepRerunsARequest | src/serving/infrastructure/sqlite-idempotency-store.ts:124-126 | an instance where it is later |
| Chunking.SplitOnceParts | src/knowledge/domain/chunk-recursive.ts:26-29 | the parts make up the text, and all but the last end in the separator |
| Chunking.IndexIsFirst | src/knowledge/domain/chunk-recursive.ts:26-29 | no occurrence of the separator is passed over |
| Chunking.HardSplitText | src/knowledge/domain/chunk-recursive.ts:59-71 | the longest prefixes that fit, one after another |
| Chunking.SplitText | src/knowledge/domain/chunk-recursive.ts:31-57 | the recursive split, which ends |
| Chunking.SplitPieces | src/knowledge/domain/chunk-recursive.ts:31-71 | pieces make up the text, are not empty, fit or are single units, and are cut after a line or word unless one unit more would not have fitted |
| Chunking.AssembleSplitsGathered | src/knowledge/domain/chunk-recursive.ts:42-56 | only whole gatherings are split further |
| Chunking.GatheringIsGreedy | src/knowledge/domain/chunk-recursive.ts:42-52 | a gathering ends only where the next part would not have fitted |
| Chunking.OverlapOf | src/knowledge/domain/chunk-recursive.ts:100-110 | the overlap's suffix |
| Chunking.OverlapSuffix | src/knowledge/domain/chunk-recursive.ts:100-110 | it is a suffix of the piece and within the overlap |
| Chunking.ChunkText | src/knowledge/domain/chunk-recursive.ts:78-98 | the chunks with their starts and counts |
| Chunking.ChunksAreCarriedPieces | src/knowledge/domain/chunk-recursive.ts:78-98 | each chunk is a suffix of the piece before and its own piece; the pieces make up the text |
| Chunking.StartTokenIsAnOffset | src/knowledge/domain/chunk-recursive.ts:85-95 | with an additive counter a chunk starts as many tokens in as come before what it repeats |
| Chunking.WindowHoldsExactlyWithRoom | src/knowledge/domain/chunk-recursive.ts:79-95 | every chunk fits, but one built on a single code unit that is over the content budget by itself, for every text and subadditive counter, exactly when the overlap is at least zero and below the window |
| ChunkPromises.ChunksKeepTheirPromises | src/knowledge/domain/chunk-recursive.ts:79-110 | each chunk is its piece after the longest end of the piece before that the overlap holds, is counted as a whole and starts where that end does; each piece is within the room that is left |
| ChunkPromises.StructureIsKept | src/knowledge/domain/chunk-recursive.ts:26-77 | paragraphs are kept together, then lines, then sentences, then words: a text too long is cut between its parts, and just a part that does not fit by itself is cut further |
| ChunkPromises.WhatFitsIsOneChunk | src/knowledge/domain/chunk-recursive.ts:79-95 | a text that fits is one chunk |
| Compaction.Compact | src/knowledge/domain/compact.ts:26-52 | the kept context or the failure |
| Compaction.EvictionsAreFewest | src/knowledge/domain/compact.ts:42-46 | the fewest oldest items go that make the rest fit |
| Compaction.CompactionEvictsOldest | src/knowledge/domain/compact.ts:26-52 | with no evictable object twice: identity when it fits, else an order-preserving rest with every pin, within budget, the shortest eviction; failure exactly when the pins alone exceed it |
| Compaction.BudgetHoldsExactlyWithoutRepeats | src/knowledge/domain/compact.ts:26-52 | what compaction returns is within the budget, for every budget and every counter, exactly when no evictable object occurs twice |
| Compaction.RepeatedMessageOverruns | src/knowledge/domain/compact.ts:48-51 | one message object held twice stays twice and overruns the budget |
| CostProjections.CostFrom | src/evidence/application/project-run-timeline.ts:177-201 | an item for each invocation, in order, with what was settled for it |
| CostProjections.SettleLog | src/evidence/application/project-run-timeline.ts:147-175 | settlements by invocation, and what names none |
| CostProjections.SpansFromRun | src/evidence/application/spans-from-run.ts:15-56 | a span for each invocation with the tokens settled for it |
| CostProjections.CostIsConserved | src/evidence/domain/run-timeline.ts:147-163 | for any log, even a tampered one, the items and the unattributed add up to the total, which is the meter's |
| CostProjections.PeriodsAddUp | src/evidence/application/meter-events-from-log.ts:34-51 | any chain of adjacent half-open periods bills each event in its span once |
| CostProjections.WholeSpanIsTheTotal | src/evidence/domain/meter-event.ts:17-19 | a period that covers every event has the meter's total |
| CostProjections.SpansAgreeWithTimeline | src/evidence/application/spans-from-run.ts:30-55 | on a verified log spans and timeline tell of the same invocations in the same order with the same tokens |
| CostProjections.RunLogsSettleOnce | src/evidence/application/project-run-timeline.ts:147-175 | on a log of the run grammar nothing is unattributed and no invocation is settled twice |
| CostProjections.EveryRunSettlesOnce | src/agent/application/run-log.ts:107-118 | so it is for every log any run persists |
| UsageSums.ItemsTellOfInvocations | src/evidence/application/project-run-timeline.ts:177-201 | on a numbered log, an item and a span for every invocation and nothing else, in order, each with its own model, provider, instant and the sum of the usage that names it |
| UsageSums.UnattributedIsWhatNamesNothing | src/evidence/application/project-run-timeline.ts:147-175 | of any log, what is listed as unattributed is just the usage that names no invocation of it |
| UsageSums.MeterTellsOfUsage | src/evidence/application/meter-events-from-log.ts:11-32 | a meter event for every usage entry and nothing else, in order, with its run, instant, tokens and cost |
| UsageSums.PeriodBillsItsUsage | src/evidence/application/meter-events-from-log.ts:34-51 | a period's total is what the usage written in it cost |
| StateSpans.StatesFrom | src/evidence/application/project-run-timeline.ts:95-114 | the spans of states a log shows, one pass with a recovery latch |
| StateSpans.SpansAreInOrder | src/evidence/application/project-run-timeline.ts:95-114 | in a numbered log the spans neither overlap nor repeat: each ends before the next begins, and neighbours differ in state |
| StateSpans.FailedOnlyWhenFailed | src/evidence/application/project-run-timeline.ts:60-81 | a run shows as failed exactly when it finished as failed; a refusal or a halt never does |
| StateSpans.RunsNeverShowRecovering | src/evidence/application/project-run-timeline.ts:88-114 | no log of the run grammar shows a recovering or waiting span: a failed tool ends the run, and the gate's answers are not logged |
| StateSpans.EntriesAreCovered | src/evidence/application/project-run-timeline.ts:95-114 | every entry that places the run in a state lies in a span of that state |
| StateSpans.SpansBegin | src/evidence/application/project-run-timeline.ts:95-114 | every span begins with, and is dated by, an entry that places the run in its state |
| StateSpans.ShownExactly | src/evidence/application/project-run-timeline.ts:60-81 | the timeline of a run shows a state exactly when its log tells of the kind of event that state stands for |
| StateSpans.RecoveringSinceAFailure | src/evidence/application/project-run-timeline.ts:88-93 | of any log: recovering from the moment a tool fails until the next does not, or the run ends |
| Correlation.CauchySchwarz | src/governance/domain/judge-calibration.ts:23-34 | the square of the sum of products is at most the product of the sums of squares |
| Correlation.PearsonOf | src/governance/domain/judge-calibration.ts:18-36 | the quotient of the accumulated sums, if there is one |
| Correlation.Calibrate | src/governance/domain/judge-calibration.ts:47-58 | the verdict |
| Correlation.CorrelationIsBounded | src/governance/domain/judge-calibration.ts:18-36 | the correlation lies in [-1, 1] and is undefined exactly when one column is constant |
| Correlation.VerdictsAreSound | src/governance/domain/judge-calibration.ts:47-58 | indeterminate exactly for too few pairs or a constant column, and every reported correlation is in range |
| CorrelationReference.PearsonIsTheTextbooks | src/governance/domain/judge-calibration.ts:18-45 | the correlation has the covariance's sign, and its square times both variances is the covariance's, all three computed from the plain sums |
| Correlation.CosineOf | src/knowledge/domain/cosine.ts:2-16 | the similarity of two vectors as far as both go |
| Correlation.CosineIsBounded | src/knowledge/domain/cosine.ts:2-16 | it lies in [-1, 1] and is symmetric, for any lengths |
| Correlation.SelfSimilarity | src/knowledge/domain/cosine.ts:2-16 | a vector that is not all zero has similarity one to itself |
| CorrelationReference.CosineIsTheTextbooks | src/knowledge/domain/cosine.ts:2-16 | the similarity has the sign of the dot product, and its square times both squared lengths is the square of that; none where a vector is nothing |
| StreamEvents.LinesJoinNormalised | src/surfaces/domain/stream-event.ts:7-14 | its lines joined again are the text with every break as LF |
| StreamEvents.DecodingGivesTheChunks | src/surfaces/infrastructure/streamed-output.ts:43-47 | a client reading by sections 9.2.5 and 9.2.6 of the WHATWG HTML Living Standard gets one event per chunk, in order, each the chunk with its breaks normalised |
| StreamEvents.PlainChunksArriveUnchanged | src/surfaces/domain/stream-event.ts:9-14 | text without carriage returns arrives unchanged |

## Left out

- Vault transport and custodian, Docker tools, web fetch, egress proxy, provider adapters, HTTP and WebSocket handlers, process start-up: their behaviour lives outside the repository; only their ports appear, as arbitrary answers.
- SHA-256, AES-GCM, Ed25519 claims and key rings: replaced by the ideal forms named above.
- SQL as text, JSON row parsers, identifier patterns, base64 and date parsing: tables are maps or keyed rows, and a row that does not parse is one the reader is told is corrupt.
- Numbers in canonical JSON are the text the runtime prints for them; how it prints them is not modelled.
- Waiting between gateway attempts: the delay is computed and bounded but not slept.
- Rows of the approval table edited by hand: every row there was written by the gate's own statements.
- ApprovalGate.SqliteApprovalGate.Approve: within one process the read and the write of a decision are not interrupted; the interleaved form is in ApprovalProtocol.
- LogStores.SqliteExecutionLogStore.Append: a last row numbered below -1, which only an edit by hand can leave, is answered with a storage error; the program would slice from the end of the incoming log.
- VectorIndex.InMemoryVectorIndex.Query: tells documents apart by what they hold, not object by object, so that equal documents get one answer from the key store and go together.
- VectorIndex.SqliteVectorIndex.Query: other statements do not run between a query's read and its deletions.
- IndexHistory.StoredIndexLosesNothing: documents were sealed by this key store under the names they carry; a forged label could make a failure pass.
- KeyStore.EnvelopeSubjectKeyStore.SealContent: sealing, unsealing and destruction are each one step; a destruction between the awaits for the subject's key and the bucket's is not modelled.
- Erasures.ProofsTellOfDestructions: the instant and the record of a destruction are what the custodian's clock and random identifiers gave it; two operations may be given the same ones.
- Custody.ReadableUntilDestroyed: the custodian in memory; confirming a destruction with an outside key management system is not part of this model.
- RunTheorems.EveryRunEnds: an answer from the world always comes; a provider or tool that never returns is not modelled.
- The timeline's step details and subject list; the other projections of the log read one branch each.
- The agreement rate of judge and expert, which nothing uses.
- Prompt registry, budgets, catalogue budget, sandbox decisions, memory write policy, retention table lookups, copy and vocabulary tables, frame parsers: each is true by reading one branch.
- Workspace paths and URL policy: they rest on URL and percent-decoding library behaviour.
- Floating-point rounding and not-a-number.
