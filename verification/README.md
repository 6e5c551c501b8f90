# Kurobara: a verified model of the execution core

Kurobara is a durable execution engine: runs, steps and attempts are rows in a database, effects are
performed by outside systems, and every decision is a transaction that may be followed by a crash, a
replay or a duplicate delivery. This project models the parts whose correctness is hard to see, in
Dafny, and proves what they promise.

`dafny verify dfyconfig.toml` checks everything.

## The parts

* **Canonical content** (`JsonText`, `JsonSpelling`, `JsonNumber`, `JsonNumberForm`, `JsonCanonical`, `Utf8`,
  `Utf8Form`, `CanonicalHash`, `CanonicalForm`). The printer behind every identity and hash, down to string escapes,
  ECMAScript number formatting and UTF-8, with a parser that recovers the value, and a definition of the one admissible
  text, without the printer. The digest is a parameter; theorems about hashes ask it to be injective.
* **Leaf effects** (`LeafStep`, `LeafExecution`, `LeafSafety`, `LeafTheorems`, `LeafLifecycle`, `LeafVersions`,
  `LeafCommands`, `LeafConclusions`, `LeafFresh`, `LeafDoubt`, `LeafRecovery`). The step aggregate with its command
  journal, version and cost reservation, and the callback that runs an effect. Each port call is one step of a world
  with any number of workers, so a crash may fall between any two.
* **Leaf outbox** (`LeafOutbox`, `LeafOutboxSafety`, `LeafOutboxAnswers`, `LeafQueue`, `LeafDispatcher`, `LeafBridge`).
  One message and its binding under claim-fenced updates, with any number of dispatchers; the dispatcher's code as a
  class that refines the protocol.
* **Workflow scheduling** (`KeyOrder`, `WorkflowOrder`, `DagSchedule`, `DagRuns`, `DagCancellation`). The compiler's topological
  order, the scheduling pass, whole runs, and the ledger proof behind a cancellation.
* **Dataset generation** (`Generation`, `GenerationPaging`, `GenerationSafety`, `GenerationTheorems`,
  `GenerationTotals`, `GenerationGuards`, `GenerationEndings`, `GenerationLanding`, `GenerationBridge`, `GenerationWitnesses`,
  `GenerationStore`). The aggregate and its pages: authorization, effect threshold, checkpoint,
  stop; runs of these in any order; and the transactions as a class over the stored fields.
* **Runs and recipe cells** (`RunCreation`, `RecipeCells`, `RecipeCellsSafety`, `RecipeApply`). Idempotent creation
  from single-use plans; the shared result cache, preparation against creation, and repeated application.
* **Imports** (`ImportItems`, `ImportBatches`, `ImportWriter`, `ImportSource`). Bounding, greedy batching, the writer and
  the observed source.
* **Exports and reading** (`Exports`, `ExportProjection`, `ExportDelivery`, `PageWalk`). Two-pass exports and the page walk.
* **Plays** (`PlayCompiler`, `PlayRunner`, `PlaySafety`, `PlayStore`). The stage compiler and the checkpointed runner.
* `Amounts` holds the tolerance comparison, `Outcomes` the result types and the white space of blank texts.

Concurrent protocols are given as a step function over a world; a run is any sequence of events, and the theorems
hold for all of them. Clocks, identifiers, provider answers, validator verdicts and the acceptance of a plan are
arguments of the events. Where the code updates stored fields in sequence there is a class whose methods are proved
equal to the step function and keep, as its `Valid()`, the invariant of all runs. Checks of the database that refuse
an update are part of the transitions they refuse.

## What does not hold as one might expect

Each of these follows the code and is stated with its exact condition.

* `export-dataset.ts` yields the held chunk before it looks at the length of the next one and keeps it when that is
  zero: it delivers the checked content exactly when no zero-length chunk follows a non-empty one
  (`Exports.DatasetDeliveryIsExactIff`). `export-recipe-application.ts` skips empty chunks and has no such case.
* The parser of a page artifact admits any cursor that is not blank, but committing the page admits 255 code points,
  and the refusal comes after the records are written in a transaction that still commits
  (`GenerationTheorems.RecordsCountedIff`). The page is then refused by every later checkpoint and the generation
  never ends, a stop included (`GenerationEndings.OverlongCursorNeverEnds`, with a run from nothing in
  `GenerationWitnesses.OverlongCursorStrandsRecords`).
* A checkpoint compares contents but not record identities with what is stored. A page that lists a stored identity
  with new content, as a provider does that puts the time of observation into the content and derives the identity
  from a domain, breaks the key of the records: the transaction is rolled back each time and the generation never
  ends (`GenerationLanding.RepeatedIdentityNeverEnds`, `GenerationWitnesses.RelistedRecordNeverEnds`).
* Only the first page of a generation can become ambiguous: marking a later one leaves a snapshot that the aggregate
  refuses, because the last committed page is not the last started one. The doubt is then denied to the attempt too,
  which stays in flight with its money reserved, even when a lookup finds the effect, and the generation never ends
  (`GenerationLanding.DoubtLandsIff`, `GenerationWitnesses.LateDoubtNeverEnds`, `LeafDoubt.DeniedDoubtIsForever`).
* So a generation ends within its pages if and only if the outcome of every page lands, and what lands is exact
  (`GenerationLanding.LandsIff`, `GenerationLanding.EndsWithinMaxPagesIff`).
* A settlement above its reservation by rounding passes the tolerant check of the transaction and is then refused by
  the aggregate, which asks the released remainder to be non-negative
  (`LeafTheorems.UsageRecordedIffWithinReservation`, `LeafTheorems.ExcessWithinRoundingIsRefused`).
* A binding that went back to pending has no adapter, and the binding table demands one of a binding to reconcile. If
  the effect begins after all, the claim statement itself fails: the message is never claimed again
  (`LeafOutboxSafety.SettlesWithinMaxAttempts`, `LeafOutboxSafety.ResetThenBegunNeverSettles`) and holds up every
  message due after it (`LeafQueue.BegunWhilePendingBlocksTheQueue`).
* Closing an attempt as not started answers success also for one that failed after its effect began, so a message can
  be recorded rejected although its effect ran (`LeafOutboxSafety.RejectedUnstartedIff`,
  `LeafOutboxSafety.StartedAttemptIsRejected`).
* A message for an unavailable effect adapter whose attempt cannot be closed is buried as rejected on its last claim
  while the attempt still waits (`LeafOutboxSafety.UnclosedBurialIff`, `LeafOutboxSafety.RefusedClosesBury`).
* The workflow compiler admits a node that names a dependency twice; once that dependency is dead the step aggregate
  refuses the evidence and every pass of the run fails (`DagRuns.PassFailsIff`).
* Stopping a generation looks for an unstarted page at the number of started pages, so it cancels only the run of
  page 1; the run of a later queued page stays, though its effect can never start
  (`GenerationTheorems.OnlyFirstRunIsCancelled`, `GenerationWitnesses.StopLeavesQueuedRun`).
* A play that pauses is never claimed again, also when its error was marked retryable
  (`PlaySafety.PausedIsForever`, `PlaySafety.RetryablePauseIsForever`).

## Model

| member | source | states |
|---|---|---|
| JsonText.LessIsTotal | packages/application/src/canonical-content-hash.ts:5-13 | the key comparison orders any two distinct keys |
| JsonText.LessIsBefore | packages/application/src/canonical-content-hash.ts:5-13 | one key is less than another exactly when its first differing code unit is smaller or it ends first |
| JsonText.ParseQuotedText | packages/application/src/canonical-content-hash.ts:16-22 | a quoted string, with every escape and surrogate pair, reads back as itself whatever follows it |
| JsonSpelling.PrintedUnitIsTheOnly | packages/application/src/canonical-content-hash.ts:21-21 | the printed code unit is the shortest spelling a reader accepts: verbatim wherever that reads back and is no lone surrogate, six units only where no two read back |
| JsonSpelling.PrintedTextIsTheOnly | packages/application/src/canonical-content-hash.ts:21-21 | a string has exactly one such spelling, and it is the printed one |
| JsonNumber.ParsePrinted | packages/application/src/canonical-content-hash.ts:24-31 | a printed number reads back as the quantity it stands for, whatever delimiter follows |
| JsonNumber.PrintIsInjective | packages/application/src/canonical-content-hash.ts:24-31 | two finite numbers print alike exactly when they are equal or are the two zeros |
| JsonNumberForm.PrintedShapeIsTheOnly | packages/application/src/canonical-content-hash.ts:24-31 | a number has one form, and its exponent is printed exactly when its value is below 1e-6 or at least 1e21 |
| JsonNumberForm.PrintIsTheOnly | packages/application/src/canonical-content-hash.ts:24-31 | the printed number is the only text of that form, with a signed exponent and no superfluous zero |
| JsonCanonical.SerializeSucceeds | packages/application/src/canonical-content-hash.ts:15-50 | serialization throws exactly when some number is not finite or some part is not JSON, dropping undefined members first |
| JsonCanonical.SortAscends | packages/application/src/canonical-content-hash.ts:38-41 | distinct keys leave the sort in strictly ascending code-unit order |
| JsonCanonical.MeaningSort | packages/application/src/canonical-content-hash.ts:38-41 | sorting the members changes nothing an object means |
| JsonCanonical.ParseSerialized | packages/application/src/canonical-content-hash.ts:15-50 | a parser recovers the meaning of any value from its canonical text followed by any delimiter |
| CanonicalHash.TextIsFaithful | packages/application/src/canonical-content-hash.ts:15-50 | two values serialize to the same text if and only if they are equal up to key order and undefined members |
| CanonicalForm.TextIsTheOnly | packages/application/src/canonical-content-hash.ts:15-50 | a text is serialized from a value exactly when it is its canonical text: literals, the one spelling of strings and numbers, items in order, and defined members in key order |
| CanonicalForm.HashIsOfTheText | packages/application/src/canonical-content-hash.ts:52-58 | the hash is "sha256:" and the digest in lower-case hexadecimal of the one legal UTF-8 encoding of that text, and the size counts its bytes |
| CanonicalHash.TextIsWellFormed | packages/application/src/canonical-content-hash.ts:15-50 | canonical text has no lone surrogate, so its UTF-8 bytes lose nothing |
| Utf8.DecodeEncoded | packages/application/src/canonical-content-hash.ts:52-58 | well-formed text survives the UTF-8 encoding of the hash and the size |
| Utf8Form.EncodingIsTheOnly | packages/application/src/canonical-content-hash.ts:52-58 | well-formed text has exactly one legal UTF-8 encoding, and it is the one hashed and counted |
| CanonicalHash.HashIdentifiesContent | packages/application/src/canonical-content-hash.ts:52-55 | with an injective digest two values have the same content hash if and only if they are equal up to key order |
| CanonicalHash.HashExists | packages/application/src/canonical-content-hash.ts:52-58 | hash and byte size exist exactly for serializable values, and the size is between one and three bytes per code unit |
| LeafTheorems.AtMostOneEffect | packages/application/src/execute-leaf-attempt.ts:425-498 | over every interleaving of deliveries, recoveries, crashes and claims the effect of an attempt is executed at most once, after its durable start |
| LeafSafety.GrantIsFresh | packages/application/src/transition-step-attempt.ts:350-358 | permission to execute comes only from a start that was not in the command journal, inside the execution window, and it starts the attempt |
| LeafTheorems.LaterEntriesOnlyLookUp | packages/application/src/execute-leaf-attempt.ts:636-681 | once the permitted worker is gone, or the attempt closed unstarted, no later entry ever executes |
| LeafTheorems.FailClosed | packages/application/src/execute-leaf-attempt.ts:577-681 | a started attempt whose execution never returned a known outcome concludes only on a lookup that carried a proof |
| LeafTheorems.SinkCarriesItsValue | packages/application/src/execute-leaf-attempt.ts:272-337 | a sink attempt succeeds only with the artifact whose hash and size are those of a reported value the validator accepted |
| LeafTheorems.MoneyFollowsState | packages/application/src/transition-step-attempt.ts:728-796 | at most one attempt of a step is open and exactly the open one keeps its reservation; settled usage never exceeds it |
| LeafTheorems.TerminalIsForever | packages/kernel/src/step-run.ts:533-539 | a concluded attempt never changes again, whatever is delivered or replayed |
| LeafLifecycle.StateFollowsLastAttempt | packages/kernel/src/step-run.ts:817-847 | in every run the last attempt alone decides the step: completed exactly when an attempt succeeded, failed and cancelled likewise, in doubt or active while it is open, ready after a retryable failure with attempts left; all earlier attempts failed retryably |
| LeafLifecycle.FailureIsRetriedIff | packages/application/src/transition-step-attempt.ts:937-942 | a recorded failure makes the step ready exactly when it asks for a retry, the run is running, the deadline is open and attempts are left; otherwise it ends the attempt and the step |
| LeafLifecycle.RetryNeedsAuthority | packages/application/src/transition-step-attempt.ts:937-942 | in every run an attempt becomes retryable only while the run is running, the deadline open and attempts are left |
| LeafLifecycle.SuccessEndsTheStep | packages/kernel/src/step-run.ts:817-847 | once an attempt has succeeded no later event adds an attempt or changes the step, and none executes an effect unless a worker still holds its permission |
| LeafLifecycle.ExecutesAgainIff | packages/kernel/src/step-run.ts:817-847 | of a step that is over an effect still runs exactly while a worker holds its permission |
| LeafVersions.VersionCounts | packages/kernel/src/step-run.ts:1149-1176 | in every run the version of the step is the number of its journaled commands and claimed attempts, and it never goes back |
| LeafVersions.OneWriterPerVersion | packages/kernel/src/step-run.ts:1149-1157 | after a write on a version every other command on that version changes nothing, whatever happens in between |
| LeafVersions.ClaimedIff | packages/kernel/src/step-run.ts:602-707 | an attempt is claimed exactly on a ready step with a fresh identifier, a unit and a non-negative reservation, and it opens the step with its money reserved |
| LeafCommands.CommandAppliesIff | packages/application/src/transition-step-attempt.ts:901-1026 | in every run a new command changes the step exactly when it names the last attempt and the stored version, and asks what the state of that attempt, the run, the clock, the money and the sink allow |
| LeafTheorems.UsageRecordedIffWithinReservation | packages/application/src/transition-step-attempt.ts:290-297 | a usage is recorded, with a success, a failure or a resolved ambiguity, exactly when it is at most the reservation: the excess within rounding that the first check admits is refused by the aggregate |
| LeafTheorems.ExcessWithinRoundingIsRefused | packages/kernel/src/step-run.ts:541-563 | a usage above the reservation by one unit in the last place passes the first check and is still refused |
| LeafConclusions.RecoveryConcludes | packages/application/src/execute-leaf-attempt.ts:562-681 | a redelivery of an in-flight attempt looks the effect up and records exactly what was found, with its money, without executing; at a sink the verdict decides between success with the artifact, failure and doubt |
| LeafConclusions.AmbiguousRecoveryConcludes | packages/application/src/execute-leaf-attempt.ts:577-681 | a redelivery of an attempt already in doubt does the same from its lookup on |
| LeafFresh.FirstDeliveryRecordsOutcome | packages/application/src/execute-leaf-attempt.ts:479-560 | a first delivery executes once and records exactly the outcome returned, with its money and the state of the step; at a sink the verdict decides between success with the artifact, failure and doubt |
| LeafFresh.UnknownOutcomeBecomesAmbiguous | packages/application/src/execute-leaf-attempt.ts:479-513 | an unknown outcome leaves the attempt ambiguous with its reservation kept |
| LeafFresh.LateDeliveryCloses | packages/application/src/execute-leaf-attempt.ts:392-423 | after the deadline or while the run stops a claimed attempt is closed unexecuted with its money released |
| LeafFresh.StartGrantedIff | packages/application/src/transition-step-attempt.ts:350-358 | a claimed attempt starts exactly while the run is running, the deadline open, the plan admitted and the parent allows it; a refusal names the first that fails |
| LeafFresh.DeniedDeliveryChangesNothing | packages/application/src/execute-leaf-attempt.ts:392-423 | inside the window a delivery that the plan or the parent does not allow leaves attempt, money and history as they were |
| LeafFresh.KnownKeyChangesNothing | packages/application/src/transition-step-attempt.ts:361-386 | a command key seen before changes nothing and permits nothing: the same command is answered, another refused |
| LeafFresh.StaleVersionIsRefused | packages/kernel/src/step-run.ts:1149-1157 | a new command on another version than the stored one changes nothing |
| LeafFresh.NotStartedReportCloses | packages/application/src/record-leaf-attempt-not-started.ts:96-174 | a claimed attempt reported as not started is closed unexecuted with its money released, cancelled while the run is cancelling, else failed, and the step is ready exactly when report and plan allow a retry |
| LeafSafety.SettlementIsExact | packages/kernel/src/step-run.ts:541-563 | a settlement matches its attempt exactly when the unit is the same and the amount is at most the reservation |
| LeafBridge.AttemptMovesAsAssumed | packages/application/src/transition-step-attempt.ts:901-1026 | every step transaction moves an attempt only as the outbox assumes |
| LeafBridge.ClosedBeforeStartNeverRuns | packages/application/src/record-leaf-attempt-not-started.ts:87-175 | an attempt closed as not started is never executed in any later run |
| LeafDispatcher.DispatchNextLeafOutbox.DispatchNext | packages/application/src/dispatch-next-leaf-outbox.ts:355-411 | one uninterrupted dispatch cycle leaves the row and the result that the step-by-step protocol gives; it dispatches exactly on a start answered as begun or a lookup that found it, and an unanswered question before the last claim is scheduled for reconciliation |
| LeafDispatcher.DispatchNextLeafOutbox.DispatchPending | packages/application/src/dispatch-next-leaf-outbox.ts:272-353 | starting a pending message follows the protocol from the starting mark on, records a start exactly when the answer says it began, and keeps an unknown one for reconciliation |
| LeafDispatcher.DispatchNextLeafOutbox.Reconcile | packages/application/src/dispatch-next-leaf-outbox.ts:210-270 | reconciling follows the protocol from the lookup on, records a start exactly when the lookup found it, and keeps an unknown one for reconciliation |
| LeafDispatcher.EffectKeys | packages/application/src/dispatch-next-leaf-outbox.ts:98-110 | the offered effect adapters are accepted exactly when they are distinct, trimmed and at least one |
| LeafOutboxSafety.StartsFollowTheirMark | packages/application/src/dispatch-next-leaf-outbox.ts:272-290 | a start call follows the durable starting mark made under the same claim, and no claim issues two |
| LeafOutboxAnswers.DispatchedMeansStarted | packages/application/src/dispatch-next-leaf-outbox.ts:283-312 | in every run the message is dispatched exactly once its start was recorded under its last claim, after a start answered as begun or a lookup that found it under that claim |
| LeafOutboxAnswers.AnswerDecides | packages/application/src/dispatch-next-leaf-outbox.ts:230-353 | in every run, after an answer under a live claim, the next update dispatches a confirmed start, keeps an unknown one for reconciliation or buries it on the last claim, and returns a retryable refusal to pending |
| LeafOutboxAnswers.MarkedWhileWaiting | packages/adapters/postgres/src/runtime.ts:1456-1484 | in every run a message is marked starting exactly under the live claim, while its binding is pending and its attempt waits |
| LeafOutboxAnswers.LostClaimWritesNothing | packages/application/src/dispatch-next-leaf-outbox.ts:117-124 | a dispatcher that has lost its claim writes nothing: its update is answered as lost |
| LeafOutboxAnswers.CycleDispatchesIff | packages/application/src/dispatch-next-leaf-outbox.ts:355-411 | a cycle dispatches exactly on a confirmed start, and an unanswered question before the last claim leaves the row available and to be reconciled |
| LeafOutboxAnswers.StartEnds | packages/application/src/dispatch-next-leaf-outbox.ts:272-353 | every answer to a start, with the row and the result it ends in, by claims left and by the closing of the attempt |
| LeafOutboxAnswers.FindEnds | packages/application/src/dispatch-next-leaf-outbox.ts:210-270 | every answer to a lookup, with the row and the result it ends in |
| LeafOutboxAnswers.UnavailableCycle | packages/application/src/dispatch-next-leaf-outbox.ts:363-385 | a message for an effect adapter not offered is never started: its attempt is closed, or the claim is lost, or it is buried on the last claim |
| LeafOutboxAnswers.ForeignCycle | packages/application/src/dispatch-next-leaf-outbox.ts:214-236 | a binding of another orchestration adapter is buried without a question |
| LeafOutboxSafety.RestartNeedsProof | packages/application/src/dispatch-next-leaf-outbox.ts:172-208 | a message is marked starting again only after a reset that had a not-found lookup or a definite retryable rejection |
| LeafOutboxSafety.RejectedUnstartedIff | packages/application/src/record-leaf-attempt-not-started.ts:132-147 | a message is recorded rejected only after its attempt was closed under the same claim, and that attempt never started its effect exactly when the effect had not begun when the close was asked |
| LeafOutboxSafety.StartedAttemptIsRejected | packages/application/src/dispatch-next-leaf-outbox.ts:313-342 | a run in which the effect began and failed before the rejection: the message ends rejected with a started attempt |
| LeafOutboxSafety.RejectionClosesTheAttempt | packages/application/src/dispatch-next-leaf-outbox.ts:313-342 | a rejected binding has an attempt closed without success, started exactly if its effect had begun at the close, unless it was buried after a refused close |
| LeafOutboxSafety.UnclosedBurialIff | packages/application/src/dispatch-next-leaf-outbox.ts:363-374 | an uninterrupted cycle, on a waiting message or an expired claim, rejects a message whose attempt still waits exactly when the adapter is unavailable, the close fails and no claim is left |
| LeafOutboxSafety.RefusedClosesBury | packages/application/src/dispatch-next-leaf-outbox.ts:363-385 | from a new message, refused closes on every claim lose each claim and bury the message on the last |
| LeafOutbox.ClaimFaultsIff | packages/adapters/postgres/migrations/0011_leaf_execution_outbox.sql:133-149 | the claim statement fails, writing nothing, exactly on a due message whose binding is pending while its effect has begun |
| LeafOutbox.LastCycleSettlesIff | packages/application/src/dispatch-next-leaf-outbox.ts:125-170 | a cycle on the last allowed claim settles the message unless its binding is pending while its effect has begun, where nothing can be claimed |
| LeafOutboxSafety.SettlesWithinMaxAttempts | packages/application/src/dispatch-next-leaf-outbox.ts:125-208 | a message settles within the allowed number of claims if and only if no claim meets a pending binding whose attempt has begun |
| LeafOutboxSafety.BegunWhilePendingIsForever | packages/adapters/postgres/src/runtime.ts:1217-1320 | an unclaimed message whose effect began behind a pending binding is neither claimed nor settled in any interleaving |
| LeafOutboxSafety.ResetThenBegunNeverSettles | packages/adapters/postgres/src/runtime.ts:1572-1638 | a run from a new message that gets there: marked, definitely rejected, reset, and then the effect begins |
| LeafQueue.BegunWhilePendingBlocksTheQueue | packages/adapters/postgres/src/runtime.ts:1254-1257 | while such a message is the first one due, no message is claimed, and every one waiting behind it or posted later keeps waiting |
| LeafRecovery.ReconcileLeafEffects | packages/application/src/reconcile-leaf-effects.ts:203-230 | the recovery loop handles claims in order, at most a batch, and stops at the first lost claim; an item is completed exactly on a final delivery under a live claim with a concluded attempt |
| LeafRecovery.CompletedMeansConcluded | packages/adapters/postgres/src/runtime.ts:1741-1771 | in every run a completed job has a concluded attempt, neither changes again, and a job is exhausted only after all its claims |
| LeafRecovery.RetriedUntilLastClaim | packages/adapters/postgres/src/runtime.ts:1856-1885 | a released job is claimed again while claims are left; released on the last it is exhausted and never claimed again |
| LeafRecovery.ConcludedIsReaped | packages/adapters/postgres/src/runtime.ts:1772-1855 | once the attempt has concluded, the next reap of an idle job completes it, even an exhausted one |
| LeafRecovery.RecoveredJobCompletesIff | packages/application/src/reconcile-leaf-effects.ts:162-201 | after a redelivery that found the effect, the live claim completes the job exactly when the outcome could be recorded, and otherwise only releases it |
| WorkflowOrder.Compile | packages/workflow-engine/src/compile-workflow.ts:148-214 | every node is listed after all its dependencies, each key the first of those free at its turn, and compilation fails only when no such list exists |
| WorkflowOrder.OrderIsTheOnly | packages/workflow-engine/src/compile-workflow.ts:148-194 | the same nodes declared in any order are listed in one order only |
| KeyOrder.SmallestIsFirst | packages/workflow-engine/src/compile-workflow.ts:154-157 | the key taken next is, by its first differing character, before every other ready one |
| DagSchedule.MaterializeReadyNodes | packages/application/src/materialize-next-dag-run.ts:265-351 | the loop inserts exactly the steps of one pass, each once, and rolls back when the step aggregate refuses |
| DagRuns.PassSkipsExactly | packages/application/src/materialize-next-dag-run.ts:122-129 | a pass skips exactly the unstarted nodes with a failed strict ancestor, inside the window or after it |
| DagRuns.PassReadiesExactly | packages/application/src/materialize-next-dag-run.ts:104-120 | a pass readies exactly the ungated unstarted nodes whose dependencies all succeeded, while the window is open |
| DagRuns.RunKeeps | packages/application/src/materialize-next-dag-run.ts:265-351 | in every run no node gets two steps, and each step agrees with the state of its dependencies |
| DagRuns.SkippedDependsOnlyOnFailures | packages/application/src/materialize-next-dag-run.ts:265-351 | the final skipped set depends only on which nodes failed, not on the order of wake-ups |
| DagRuns.PassFailsIff | packages/kernel/src/step-run.ts:472-484 | a pass breaks its invariant exactly when an unstarted node names a dead dependency twice |
| WorkflowOrder.RepeatedDependencyCompiles | packages/workflow-engine/src/compile-workflow.ts:148-214 | a workflow that names a dependency twice is in order, so it compiles |
| DagRuns.RepeatedDependencyStopsTheRun | packages/application/src/materialize-next-dag-run.ts:280-308 | its run from nothing: once that dependency has failed no later wake-up changes anything |
| DagCancellation.IdentityIffBijection | packages/application/src/materialize-next-dag-run.ts:188-225 | the comparison of set sizes holds exactly when attempts and reservations are in bijection with matching identities |
| DagCancellation.SettlesIff | packages/application/src/materialize-next-dag-run.ts:246-263 | a cancelling run may settle exactly when every step is at rest, every attempt has concluded with one closed reservation of its own and exact identity, no reservation is left over, and the recorded cost agrees |
| DagCancellation.SettlementAccountsForMoney | packages/application/src/materialize-next-dag-run.ts:226-244 | then nothing is still reserved and what was reserved equals released plus spent, up to the summed rounding of the receipts |
| GenerationStore.Deduplicate | packages/application/src/checkpoint-first-dataset-generation-page.ts:914-926 | the de-duplication loop keeps the candidates the specification keeps |
| GenerationStore.Transactions.Authorize | packages/application/src/authorize-first-dataset-generation-page.ts:570-660 | the authorization transaction leaves the stored state and the answer of its specification, and authorizes only inside the window with room under every limit |
| GenerationStore.Transactions.PersistSuccessful | packages/application/src/checkpoint-first-dataset-generation-page.ts:898-1079 | the commit writes records, lineage, generation and page as specified and keeps the invariant of all runs; the page comes to rest exactly when the outcome of its run lands; committed, the generation is running exactly when the page promised more and every limit leaves room |
| GenerationStore.Transactions.Checkpoint | packages/application/src/checkpoint-first-dataset-generation-page.ts:1081-1157 | every kind of run proof is projected as specified, the invariant is kept, an executing page comes to rest exactly when the outcome lands, and a commit leaves the generation running exactly when there is more to fetch within every limit |
| GenerationStore.Transactions.Cancel | packages/application/src/cancel-dataset-generation.ts:72-211 | a known key changes nothing; a new one stops the generation as specified and is journaled |
| GenerationStore.Transactions.Schedule | packages/application/src/schedule-dataset-generation.ts:50-145 | one scheduler cycle is a checkpoint followed by the authorization it allows; it keeps the invariant of all runs, the spend within the hard cap, the runs within the page limit, after a stop it creates none, and after a commit it authorizes, is blocked or ends exactly as the limits say |
| GenerationTheorems.SpendBound | packages/application/src/authorize-first-dataset-generation-page.ts:309-328 | over any number of pages the spend stays within the hard cap, and each committed page within its reservation |
| GenerationBridge.SettledUsageFits | packages/adapters/postgres/src/runtime.ts:3069-3097 | a usage that was settled for the reservation of a page never exceeds it, so the page table never refuses the cost |
| GenerationTheorems.UnrecordedUsageIsCovered | packages/application/src/checkpoint-first-dataset-generation-page.ts:800-847 | the usage of a page that failed or became ambiguous, which the generation does not record, keeps the total within the hard cap up to its own rounding |
| GenerationTotals.CountersAreSums | packages/kernel/src/dataset-generation.ts:1623-1693 | in every run spend, accepted and returned are the sums over the committed pages |
| GenerationTheorems.PagesAreChained | packages/application/src/authorize-first-dataset-generation-page.ts:628-660 | one page and one run per sequence, at most the page limit; each later page starts from the next cursor of its committed predecessor |
| GenerationTheorems.RunningMeansNextPage | packages/application/src/checkpoint-first-dataset-generation-page.ts:1002-1012 | a committed page leaves the generation running exactly when it promised more and pages, calls, returned, accepted and spend are each below their limit; then inside the window the next page is authorized unless the available budget or authority is spent |
| GenerationTheorems.RepeatIsUnchanged | packages/application/src/checkpoint-first-dataset-generation-page.ts:1081-1113 | committing the same proof again is answered as unchanged and changes nothing |
| GenerationGuards.AuthorizedIff | packages/application/src/authorize-first-dataset-generation-page.ts:280-660 | a page is authorized exactly inside the window, with every counter and the spend below its limit, a run accepted and a cursor to continue from; it reserves what the hard cap leaves |
| GenerationGuards.RefusalNamesReason | packages/application/src/authorize-first-dataset-generation-page.ts:280-325 | a refused page is told the elapsed deadline, else the exhausted limit or budget, else the refused run |
| GenerationGuards.StartedIff | packages/kernel/src/dataset-generation.ts:1542-1610 | the effect of a page begins exactly inside the window, next in turn, within the budget of the page and every bound |
| GenerationGuards.UnsuccessfulCheckpoint | packages/application/src/checkpoint-first-dataset-generation-page.ts:757-850 | a pending run changes nothing, a failed one ends page and generation with the reservation released, a doubtful one marks both or is refused |
| GenerationLanding.LandsIff | packages/application/src/checkpoint-first-dataset-generation-page.ts:856-1079 | an executing page comes to rest exactly when the outcome of its run lands: a failure always, a doubt only on page 1, a success exactly with its own artifact and usage, within the limits and the provider lock, with a cursor that fits and new identities; otherwise page and generation are as before |
| GenerationBridge.SettledPageLandsIff | packages/application/src/checkpoint-first-dataset-generation-page.ts:856-1079 | with a usage settled for the page's reservation, a success lands exactly on artifact, limits, lock, cursor and identities |
| GenerationBridge.SettledPageAbortsIff | packages/adapters/postgres/src/dataset-generation-page.ts:1165-1230 | its transaction is rolled back exactly when new records repeat an identity or an ordinal |
| GenerationLanding.NeverEndsUnlessLands | packages/application/src/schedule-dataset-generation.ts:50-145 | a page whose outcome does not land executes forever and the generation never ends, whatever else is tried, a stop included |
| GenerationLanding.EndsWithinMaxPagesIff | packages/application/src/checkpoint-first-dataset-generation-page.ts:1002-1056 | a generation whose pages can each be started ends within the page limit if and only if the outcome of every page that begins lands |
| GenerationLanding.NoRoomNeverBegins | packages/application/src/authorize-first-dataset-generation-page.ts:297-310 | under a plan without room for one page no page or run is ever created |
| GenerationEndings.LastPageAtRestEnds | packages/application/src/checkpoint-first-dataset-generation-page.ts:1002-1056 | in every run, when the last allowed page is at rest the generation has ended; an earlier page at rest left room for the next |
| GenerationLanding.RepeatedIdentityNeverEnds | packages/application/src/checkpoint-first-dataset-generation-page.ts:906-926 | a page that lists the identity of a stored record with new content never comes to rest |
| GenerationWitnesses.RelistedRecordNeverEnds | packages/adapters/postgres/migrations/0018_dataset_storage.sql:107-119 | a run from nothing in which page 2 lists the record of page 1 with other content |
| GenerationLanding.DoubtLandsIff | packages/kernel/src/dataset-generation.ts:1475-1486 | an executing page can be marked ambiguous exactly when it is page 1 |
| GenerationWitnesses.LateDoubtNeverEnds | packages/kernel/src/dataset-generation.ts:1805-1847 | a run from nothing in which page 2 loses its outcome and the generation never ends |
| LeafDoubt.DeniedDoubtIsForever | packages/adapters/postgres/src/dataset-generation-page.ts:1677-1755 | an attempt in flight whose permitted worker is gone, under a parent that denies its doubt, stays in flight with its money reserved in every run |
| LeafDoubt.UnknownOutcomeIsForever | packages/application/src/execute-leaf-attempt.ts:577-634 | a first delivery with an unknown outcome gets there, and no later lookup is recorded |
| GenerationTheorems.RecordsAreAccounted | packages/application/src/checkpoint-first-dataset-generation-page.ts:950-976 | records carry ordinals 1 to n without a gap, distinct contents and identities, one lineage row each; accepted plus duplicates is returned |
| GenerationTheorems.FreshExactly | packages/application/src/checkpoint-first-dataset-generation-page.ts:914-926 | an item is kept exactly when its content is neither stored nor earlier in the page |
| GenerationTotals.CommitStoresFirstOccurrences | packages/application/src/checkpoint-first-dataset-generation-page.ts:906-976 | a committing checkpoint stores exactly the first occurrences of the page and counts them |
| GenerationTheorems.RecordsCountedIff | packages/kernel/src/dataset-generation.ts:1131-1136 | records written by a checkpoint are counted exactly when the next cursor has at most 255 code points; the parser admits longer ones |
| GenerationEndings.OverlongCursorNeverEnds | packages/application/src/checkpoint-first-dataset-generation-page.ts:978-1001 | a page with a longer cursor is refused by every later checkpoint, and the generation never ends, whatever else is tried |
| GenerationWitnesses.OverlongCursorStrandsRecords | packages/application/src/checkpoint-first-dataset-generation-page.ts:950-1001 | a run from nothing that stores a record, does not count it and never ends |
| GenerationTheorems.CountsInEveryRun | packages/application/src/checkpoint-first-dataset-generation-page.ts:368-421 | while every cursor fits, the generation counts exactly its stored records, in every run |
| GenerationTheorems.CommittedIsForever | packages/application/src/checkpoint-first-dataset-generation-page.ts:1081-1113 | a committed page never changes in any run, and checkpointing it at any later time writes nothing and answers unchanged only for its artifact and cost |
| GenerationTheorems.StopIsFinal | packages/kernel/src/dataset-generation.ts:1853-1913 | after a stop no page or run is created, no queued page starts, and the generation can only end cancelled or ambiguous |
| GenerationTheorems.CancelIsFinal | packages/application/src/cancel-dataset-generation.ts:132-146 | a stop ends the generation at once exactly when no effect is in flight; repeating it at any later time changes nothing |
| GenerationTheorems.OnlyFirstRunIsCancelled | packages/application/src/cancel-dataset-generation.ts:161-194 | a stop cancels the run of page 1 when nothing has started, and never the run of a page queued later |
| GenerationWitnesses.StopLeavesQueuedRun | packages/application/src/cancel-dataset-generation.ts:161-194 | a run from nothing in which page 2 is queued when the stop comes: its run is never cancelled |
| RunCreation.RunStore.CreateRun | packages/application/src/create-run-from-plan.ts:119-216 | the unit of work leaves the tables of its specification; after a success the key has exactly one run, added exactly when the key is new and plan, quote, deadline, actor, hash and identifiers allow it |
| RunCreation.NewRunIff | packages/application/src/create-run-from-plan.ts:119-216 | a new run is made exactly for a fresh key and run identifier, an unconsumed plan of that hash and binding, an authorized subject, and an open quote and deadline, with one row in each table |
| RunCreation.RunsAreOneToOne | packages/application/src/create-run-from-plan.ts:183-215 | over any commands each plan, key and identifier names one run, with one queued event and one outbox message |
| RunCreation.KeyNamesOneRun | packages/application/src/create-run-from-plan.ts:60-71 | a key names one run forever: a repeat returns it, another intention is refused, and nothing changes |
| RunCreation.ConsumedBySameKeyIsUnreachable | packages/application/src/create-run-from-plan.ts:157-165 | a plan consumed under the same key is always found by the key first |
| RecipeCellsSafety.ReadyMeansCreated | packages/application/src/prepare-recipe-cell.ts:99-143 | after preparation said ready, creation creates whenever the plan admits the run; otherwise it meets a cached result exactly when the clock went back |
| RecipeCellsSafety.RollbackBranchIsUnreachable | packages/application/src/apply-recipe.ts:277-299 | with a clock that does not go back the invariant branch and a broken cache slot are never met |
| RecipeCellsSafety.CreateAnswers | packages/application/src/create-recipe-cell-run.ts:285-357 | creation answers what preparation answered, creating exactly where preparation said ready |
| RecipeCellsSafety.FromCacheIsSafe | packages/application/src/create-recipe-cell-run.ts:172-215 | a cached result is pinned while it is valid, else the active run is, else the cell is ready |
| RecipeCellsSafety.CellCreatedIff | packages/application/src/apply-recipe.ts:202-311 | a run is created exactly for an unbound cell whose slot is free at both readings of the clock, with quote and plan accepted; a rejected quote creates none |
| RecipeCellsSafety.ConcludedIsReused | packages/adapters/postgres/src/recipe.ts:1020-1059 | a concluded success is what another cell of the same identity finds until it expires; a failure is never found and leaves an earlier result in place |
| RecipeCellsSafety.BindingsAreForever | packages/adapters/postgres/src/recipe.ts:1061-1132 | a record is bound at most once: a binding never changes, whatever happens later |
| RecipeCellsSafety.OneActiveRunPerKey | packages/adapters/postgres/src/recipe.ts:962-1014 | each cache key has at most one pending cell, and no record has two runs |
| RecipeApply.RecipeTables.ApplyOne | packages/application/src/apply-recipe.ts:202-311 | the cell transaction commits, or restores the tables, as specified; a run is created only with an accepted quote and plan |
| RecipeApply.RecipeTables.ApplyCells | packages/application/src/apply-recipe.ts:313-338 | the loop stops at the first refused cell; after a success every record is bound and the new runs are the created count; each new run was offered with an accepted quote and plan |
| RecipeApply.ApplyBindsEverything | packages/application/src/apply-recipe.ts:313-338 | runs are created only for unbound cells, and a success binds every cell with counts that add up |
| RecipeApply.ApplyingAgainReportsBound | packages/application/src/apply-recipe.ts:202-338 | after a success, and anything in between, applying again changes nothing and reports every cell as bound |
| ImportItems.BoundedItemFits | packages/application/src/import-dataset.ts:296-315 | every bounded item fits the smallest batch limit: the real canonical text of the replacement is always smaller |
| ImportItems.BatchedItemsFit | packages/application/src/import-dataset.ts:364-376 | the decoded items of an import, once bounded, all meet the byte limit that the greedy batches assume |
| ImportItems.ReplacementNamesItem | packages/application/src/import-dataset.ts:296-315 | the issue that replaces an item too large carries the number of that item and ends the import |
| ImportBatches.GreedySplits | packages/application/src/import-dataset.ts:365-381 | the batches concatenate to the items, are not empty and keep both limits |
| ImportBatches.GreedyIsOptimal | packages/application/src/import-dataset.ts:365-381 | no other contiguous split within both limits uses fewer batches |
| ImportWriter.BatchWriter.Add | packages/application/src/import-dataset.ts:364-376 | adding flushes the held batch exactly when the item would break a limit |
| ImportWriter.BatchWriter.Flush | packages/application/src/import-dataset.ts:340-361 | flushing appends the held items as the next numbered batch |
| ImportWriter.ConsumeImport | packages/application/src/import-dataset.ts:456-537 | what is written are the greedy batches of the items up to the first terminal one, over what was stored; a foreign source takes everything back; into an empty running import writing never fails |
| ImportWriter.ConsumedPrefix | packages/application/src/import-dataset.ts:486-498 | consumption stops right after the first terminal item |
| ImportSource.ObservedSource.Drain | packages/application/src/import-dataset.ts:444-452 | draining reads to the end unless the source was cancelled |
| ImportSource.FinishConsumedImport | packages/application/src/import-dataset.ts:503-566 | an import ends accepted exactly when its whole source was read and is the declared one |
| ExportProjection.PreflightProjection | packages/application/src/export-recipe-application.ts:261-350 | the projection is accepted exactly when it covers the application: its records in order, all succeeded, all identities distinct |
| ExportProjection.ExactOverlaidRecords | packages/application/src/export-recipe-application.ts:388-431 | the second pass yields overlaid records while each row is the one proven, and finishes exactly when all are |
| ExportProjection.SecondPassSawTheSameRows | packages/application/src/export-recipe-application.ts:352-359 | two passes that both finish saw the same rows, the records of the application in order |
| ExportProjection.OverlayValue | packages/application/src/export-recipe-application.ts:370-386 | an exported record has the cell value in the target field and its own value in every other selected one |
| ExportProjection.OverlayFollowsFields | packages/application/src/export-recipe-application.ts:370-386 | the exported values stand in the order of the selected fields |
| Exports.PreflightEncodedContent | packages/application/src/export-recipe-application.ts:461-499 | the content is accepted exactly when the stream is sound and within the limit |
| Exports.VerifiedEncodedEvents | packages/application/src/export-recipe-application.ts:541-579 | the delivery finishes exactly on the preflighted content; aborted, it has delivered the non-empty chunks seen, all but the last |
| ExportDelivery.Preflight | packages/application/src/export-recipe-application.ts:261-499 | the preflight succeeds exactly when the projection covers the application, is read the same again, and its records encode within the limit |
| ExportDelivery.ExportApplication | packages/application/src/export-recipe-application.ts:388-579 | after a successful preflight the delivery finishes exactly when the projection is still the proven one; the bytes sent are then the measured content of exactly the application's records, in order and overlaid |
| Exports.VerifiedDatasetEvents | packages/application/src/export-dataset.ts:548-584 | the dataset delivery finishes on the same condition |
| Exports.DatasetDeliveryIsExactIff | packages/application/src/export-dataset.ts:566-571 | it delivers the checked content exactly when no zero-length chunk follows a non-empty one |
| Exports.HeldChunkIsDeliveredTwice | packages/application/src/export-dataset.ts:566-571 | a zero-length chunk between two others delivers the first of them twice |
| PageWalk.ReadPage | packages/application/src/ready-generation-candidate-page.ts:190-284 | a listed page is accepted exactly when it is the whole page it should be, each record in its place |
| PageWalk.WalkVisitsEachOnce | packages/application/src/ready-generation-candidate-page.ts:274-282 | with any positive limits the walk ends and visits every later ordinal once, in order |
| PageWalk.WalkTakesCeilingPages | packages/application/src/ready-generation-candidate-page.ts:117-126 | with one limit the walk takes the number of records divided by it, rounded up |
| PlayCompiler.CompiledStages | packages/application/src/gtm-service.ts:832-857 | compiled stages are distinct, each finds what it needs before it, and the workbook is the last and only there |
| PlayCompiler.StagesAreWhatWasAsked | packages/application/src/gtm-service.ts:832-857 | the stages are exactly the discoveries of the source, the enrichments asked for or needed by them, and the workbook |
| PlayCompiler.QuoteIsTheCeilingOfTheStages | packages/application/src/gtm-service.ts:708-712 | the quoted provider-call ceiling is what the compiled stages can cost |
| PlaySafety.RunIsSound | packages/application/src/advance-gtm-play-run.ts:255-351 | in every reachable run stages are completed ones, then at most one begun, then pending; totals are sums, caps hold unless failed, completed stages and finished runs stay |
| PlaySafety.CompletedMeansEveryStage | packages/application/src/advance-gtm-play-run.ts:162-200 | a completed play has a result, every compiled stage completed, and kept its caps |
| PlaySafety.ProvenanceGrows | packages/application/src/advance-gtm-play-run.ts:60-80 | provenance only grows at its end, distinct and bounded |
| PlaySafety.OneStagePerCheckpoint | packages/application/src/advance-gtm-play-run.ts:304-351 | a checkpoint changes the first open stage and no other, stores there exactly what its child reported, moves each total by that stage alone, lists its sources, and gives the run the state and error that follow; past the deadline it only fails the run |
| PlayStore.PlayRuns.AdvanceNext | packages/application/src/advance-gtm-play-run.ts:353-385 | a scheduler cycle claims, advances and writes back as specified; the stored run stays sound, keeps its completed stages and its provenance, and its caps unless it failed; the stage, totals, state and error written are exactly those of the report |
| PlayStore.PlayRuns.Update | packages/adapters/postgres/src/gtm.ts:1541-1587 | an update applies exactly under the claim token and revision it expects |
| PlaySafety.PausedIsForever | packages/adapters/postgres/src/gtm.ts:1207-1262 | a paused run is never claimed again and never changes |
| PlaySafety.RetryablePauseIsForever | packages/application/src/advance-gtm-play-run.ts:202-243 | a run whose first stage cannot be started pauses with an error marked retryable, and nothing follows |
| PlaySafety.CycleIsClaimThenCheckpoint | packages/application/src/advance-gtm-play-run.ts:353-385 | an uninterrupted cycle is a claim followed by its checkpoint |

## Left out

- Text normalization, prototype and descriptor checks, and the exact error texts: they are JavaScript library behaviour.
- SHA-256 is a parameter, and hashes that only stand for content (artifacts, commands, rows) are modelled by the content itself.
- Floating-point rounding: amounts are reals compared with the explicit tolerance of the source; repeated float subtraction in the replay check of a committed page is therefore exact here.
- JsonNumber.ParsePrinted: the choice of the shortest round-trip digits of a double is not modelled; a number is given by those digits.
- Sparse arrays: a hole prints as nothing in the source; model arrays have no holes.
- Permission, workspace and identity comparisons that have one branch each are folded into one flag per decision (`admitted`, `exact`, `valid`, `authorized`).
- LeafStep: the command journal compares the value of an output itself, where the source compares the hash of its artifact.
- LeafOutboxSafety.RejectedUnstartedIff: closing an attempt that failed retryably in a step still marked retryable authorizes the retry first; a failure of that legacy step is not modelled.
- LeafQueue.BegunWhilePendingBlocksTheQueue: claims that overlap in time may skip rows locked by each other; the model claims one after another.
- LeafRecovery: the adapter filter and the paging of the reap are not modelled; a job is considered alone beside its attempt.
- Lifecycle events and their sequence numbers of steps, runs and generations, except the queued event of a new run.
- Retry routing: how a new attempt is routed and priced after a retry; a claim event adds any attempt with a fresh identifier.
- LeafOutboxSafety.RestartNeedsProof: a start call itself is not fenced, so a dispatcher that lost its claim may still issue the start it had marked; the property is about the marks.
- LeafDispatcher.DispatchNextLeafOutbox.DispatchNext: the class method covers a cycle nobody interrupts; interruptions are in the step relation of LeafOutboxSafety.
- WorkflowOrder.Compile: the sorting of dependency names, the depth and fan-out limits and the capability allow-list are not modelled.
- Convergence of a finished run into a result manifest, and the projection of recipe cells from it.
- GenerationPaging: clocks are taken not to go backwards, so the timestamp comparisons of the aggregates always hold; rejected counts are always zero in the source and are dropped; the materialization row mirrors the generation and is not repeated.
- GenerationTheorems.RecordsCountedIff: page artifacts are otherwise well shaped; the field-by-field parser is one condition.
- Contact privacy, export policy and identity flows, provider adapters, codecs, schema validators, HTTP, MCP and CLI surfaces.
- RecipeCellsSafety.ReadyMeansCreated: cache keys are taken to identify a record within an application, as the hash of an identity that contains the record.
- RecipeApply.ApplyBindsEverything: registration of the recipe and creation of the application graph come before the loop and are not modelled.
- ImportWriter.ConsumeImport: the comparison of the source with its declared hash is a flag here and is decided in ImportSource.FinishConsumedImport; the rows derived from a batch are not modelled apart from it.
- ExportDelivery.ExportApplication: a codec is a function of the records it is given; one that answers differently on the same records is covered only by Exports.VerifiedEncodedEvents.
- PlayCompiler.QuoteIsTheCeilingOfTheStages: permissions, human gates and preview fingerprints of a compilation are not modelled.
- PlaySafety.RunIsSound: selection reasons, dataset identities and error texts of an execution are not modelled.
- Saved workbook views and the questionnaire of the GTM service.
