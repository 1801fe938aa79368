# Stateback: a verified model of its state machines and codecs

Stateback drives external side effects through a durable, versioned state machine. This project
models the parts of it that have to survive crashes, lost answers, redelivery and concurrent
commands, and proves what every run of them keeps.

| part | modules |
|---|---|
| lifecycle tables, retry safety, reconciliation | `Lifecycle`, `RetrySafety`, `Reconciliation` |
| compensation of an effect: one driver at a time, crashes and foreign commands anywhere | `Transitions`, `TransitionLaws`, `CompensationProtocol`, `CompensationInvariant`, `CompensationRows`, `CompensationSteps`, `CompensationTheorems`, `CompensationDecisions`, `CompensationLimits`, `CompensationServices`, `FreshIdentities` |
| compensation by several drivers at once | `CompensationRaces` |
| execution and recovery of the original effect: any number of drivers with stale reads | `EffectTransitions`, `EffectProtocol`, `EffectInvariant`, `EffectSteps`, `EffectTheorems`, `EffectDecisions`, `EffectLimits`, `RecoveryServices`, `ExecuteServices` |
| outbox, relays and stranded work | `Outbox`, `OutboxTheorems`, `StrandedWork`, `OutboxRelays` |
| work queue, worker and quarantine | `WorkQueue`, `WorkConsumers` |
| canonical JSON and intent digests | `Json`, `JsonLaws`, `JsonReasons`, `JsonConversion`, `Bytes`, `CanonicalText`, `Intent`, `IntentRecords`, `BoundedJson` |
| reading JSON, work messages and quarantine diagnostics | `JsonReader`, `ReadingLaws`, `ReadValues`, `ShortestText`, `WireObjects`, `WireFields`, `WorkMessages`, `MessageLaws`, `Quarantine`, `QuarantineLaws` |
| capability registry | `Registry` |
| page cursors, keyset paging and audit pages | `Base64`, `Cursor`, `Paging`, `AuditTrail` |
| approvals | `Approvals`, `ApprovalServices` |

## How it is put together

A protocol is a state machine. A state holds the committed rows, what each running process has in
its hands, and logs of what the outside world was asked and answered. A step is one commit, one
read or one call; a crash may happen between any two steps, and the provider, the verifier and the
storage answer as they like. A run is any finite sequence of steps, of any length, so a theorem
about every position of every run speaks of every reachable state. An inductive invariant
(`CompensationInvariant`, `EffectInvariant`, the first parts of `OutboxTheorems`, `WorkQueue` and
`Approvals`) carries each proof.

The services that change rows step by step are classes whose methods follow the original code
branch by branch. Each keeps a ghost field `run` that records the protocol steps it took, and
proves that this is a run. What holds in every run therefore holds of the services, and a step that
the protocol does not allow would not verify.

What a method never does is stated for every interference, storage failure and crash. What it brings
about is stated for the rows it commits to, and for an invocation in which nothing came in between:
a ghost counter `disturbances` grows whenever somebody else commits or the storage fails, and while
it has not grown the answer of the provider, the clock and the rows that were there decide the
result alone. `CompensationDecisions` and `EffectDecisions` say what that result is, in terms of
evidence, caps and clock.

## What the model shows to fail

The following promises do not hold of the code as it is. Each is stated with a condition that says
exactly when it does hold, or with the input that breaks it.

- Recovering a compensation that cannot be verified neither retries nor escalates when its latest
  attempt was left open and may be retried: the parent's half of the unit of work is committed, the
  claim is refused, and the next recovery puts everything back. One crash after the first claim
  leads there (`CompensationLimits.RecoveryResolvesIff`, `StallOccurs`, `StallCycles`,
  `StallNeverEndsByItself`).
- At most one call per attempt holds for one driver at a time. With several drivers a call is not
  the first one of its attempt if and only if its claim was a retry after verification answered
  ALREADY_APPLIED, which the driver takes for its own; that happens exactly when two drivers carry
  the same attempt identifier, as they do when one message is handled twice at once
  (`CompensationRaces.CalledBeforeIff`, `SecondConclusionGoesOnIff`, `RedeliveryCallsTwice`). The
  loser of a failed compensation's retry does not call: the answer it gets names no compensation,
  and the driver stops at its own assertion (`FailedRetryGoesOnIff`, `SecondDriverHasNoAttempt`).
- The transition that starts a compensation does not check that there is none yet; only the service
  in front of it does. An applied start keeps operation and compensation in lock step if and only
  if there was none (`TransitionLaws.UnguardedStartBreaksLockStep`, `UnguardedStartIsApplied`).
- `execute_operation` dispatches a claim that met a version conflict again, with the same stale
  version. On a row that nobody else changes it calls itself until the interpreter's depth is used
  up if and only if the row is READY at a version that is neither the command's nor the one after
  it (`ExecuteServices.DispatchEndsIff`, `StaleForGood`).
- An effect that cannot be verified and may safely be repeated is not retried from UNKNOWN: the
  transition asks for a proof of the outcome that this command cannot carry, and recovery repeats
  until the replay window has ended (`EffectTheorems.UnverifiableRecoveryMovesIff`,
  `StuckUntilTheWindowEnds`).
- Of two drivers that verify at once and both hear UNKNOWN, the one whose answer was not stored may
  still decide, and differently: exactly when one answer closes the question, by its error or by
  the count, and the other does not (`EffectTheorems.RacingConclusionsAgree`,
  `EffectLimits.RacingInconclusiveAnswersMayDiffer`).
- The stranded-work query admits finished compensations, which the check under the lock refuses;
  enough old ones keep every younger candidate from ever being listed
  (`StrandedWork.QueryMatchesTheCheck`, `FinishedCompensationsStarve`).
- Broker and worker use the same delivery limit, so a crash or a failed quarantine on the last
  delivery leaves a copy that is stored but never delivered again (`WorkQueue.StuckIff`,
  `StuckForGood`).
- Looking at a diagnostic uses up its deliveries as replaying does: after the twentieth it is kept
  but can be neither replayed nor discarded (`WorkQueue.SpentIff`, `SpentForGood`).
- A work message whose year is below 1000 is quarantined with a replay payload that is refused where
  the platform writes such years with fewer digits (`QuarantineLaws.QuarantineRoundTrip`).
- A payload with an integer too long for the interpreter is neither a message nor poison: nothing is
  quarantined for it (`QuarantineLaws.LongIntegerIsNeverQuarantined`).
- `from_parts` accepts intents with empty texts, which `from_wire` refuses once they were stored
  (`IntentRecords.StoredIntentIsAccepted`).
- An adapter that names one effect twice is registered, and the effect is listed twice
  (`Registry.ListedOnceIff`).
- Which reason `json_from_plain` gives for refusing a value may depend on the insertion order of its
  dictionaries. It does not if and only if its meaning has at most one reason
  (`JsonReasons.OrderFreeIff`, `ReasonDependsOnOrder`).

## Model

| member | source | states |
|---|---|---|
| RetrySafety.SafeIffLicensed | src/stateback/providers/registry.py:61-116 | the registry answers SAFE if and only if the signal is sufficient and a NOT_APPLIED outcome, natural idempotency or an unexpired provider key licenses the retry |
| RetrySafety.VerdictNeverRecovers | src/stateback/providers/registry.py:79-116 | a refused retry stays refused, with the same decision, as the clock advances |
| RetrySafety.ProviderKeyPermissionEnds | src/stateback/providers/retry.py:13-32 | an unresolved effect under a provider key may be retried exactly until first attempt plus window |
| Reconciliation.DecisionsAreEvidenced | src/stateback/compensation/reconcile.py:34-125 | which verdicts lead to which decision, in both directions: retries exactly below the attempt cap, open outcomes exactly below the recovery cap and without a closing error, contradictions to a person |
| Reconciliation.CapsAreDeclared | src/stateback/recovery/budget.py:12-16 | a limit that is not declared, or declared below one, is one execution and three verifications; any other is the declared one |
| Reconciliation.NotAppliedIsLicensed | src/stateback/runtime/outcome.py:51-63 | after NOT_APPLIED only the cap decides whether a retry is due, whatever the clock says |
| TransitionLaws.ApplyKeepsLockStep | src/stateback/transitions/service.py:903-1003 | every applied command keeps operation and compensation in matching states |
| TransitionLaws.ApplyFollowsBothTables | src/stateback/domain/transitions.py:21-89 | every write is an edge of the operation table and of the compensation table and bumps what it changes by one |
| TransitionLaws.ApplyKeepsHistory | src/stateback/persistence/repositories.py:522-676 | the compensation id is write-once; closed attempts and verification results never change |
| TransitionLaws.ReplayIsHarmless | src/stateback/transitions/service.py:323-940 | every replayed command of the compensation services is answered ALREADY_APPLIED and writes nothing |
| TransitionLaws.UnguardedStartBreaksLockStep | src/stateback/transitions/preconditions.py:292-310 | an applied start keeps lock step if and only if there was no compensation |
| CompensationSteps.StepKeepsInv | src/stateback/compensation/execute.py:252-1314 | every commit, call, crash and foreign command keeps the protocol invariant |
| CompensationTheorems.RunKeepsInvariant | src/stateback/compensation/execute.py:252-1314 | the invariant holds at every position of every run |
| CompensationTheorems.OperationMirrorsItsOnlyCompensation | src/stateback/domain/compensation.py:79-86 | in the compensation family there is exactly one compensation and its state maps to the operation's |
| CompensationTheorems.EveryCommitIsLegal | src/stateback/domain/transitions.py:21-89 | every commit of every run follows both edge tables, also units of work with two commands |
| CompensationTheorems.EscalationIsFinal | src/stateback/compensation/operator.py:200-261 | after escalation an operation never re-enters the compensation family |
| CompensationTheorems.EvidenceIsFinal | src/stateback/persistence/repositories.py:522-676 | between any two moments of a run, attempts, outcomes and verification results are only added |
| CompensationTheorems.AtMostOneCallPerAttempt | src/stateback/compensation/execute.py:335-353 | no two provider calls of a run carry the same attempt |
| CompensationTheorems.CallsFollowTheirClaim | src/stateback/compensation/execute.py:252-353 | a call is made only for the latest attempt, already committed as STARTED and never called before |
| CompensationTheorems.AbandonedAttemptsAreNeverCalled | src/stateback/compensation/recover.py:253-310 | once a driver is gone, later calls carry only attempts claimed later |
| CompensationTheorems.CompensatedIsProved | src/stateback/compensation/outcome.py:19-46 | COMPENSATED rests on an APPLIED answer allowed to stand alone or on a durable, uncontradicted APPLIED verification |
| CompensationTheorems.FailureIsProvedToo | src/stateback/compensation/reconcile.py:58-125 | COMPENSATION_FAILED rests on NOT_APPLIED evidence about the latest attempt |
| CompensationTheorems.UnknownEvidenceDecidesNothing | src/stateback/compensation/reconcile.py:95-125 | with nothing but UNKNOWN heard, the operation is neither compensated nor failed |
| CompensationTheorems.AttemptsStayInBudget | src/stateback/compensation/execute.py:1235-1248 | attempts are numbered 1 to n and n is at most the cap plus granted operator retries |
| CompensationTheorems.InconclusiveResultsAreBounded | src/stateback/compensation/execute.py:735-759 | fewer than the recovery cap verifications leave the outcome open over a whole life |
| CompensationTheorems.VerifyingAlwaysHasItsRequest | src/stateback/compensation/recover.py:203-244 | recovery in VERIFYING always finds a pending request, the newest one, for the latest attempt |
| CompensationTheorems.ExecutingAlwaysHasAnOpenAttempt | src/stateback/compensation/recover.py:171-202 | recovery in EXECUTING always finds an open attempt, so no outcome is mapped twice |
| CompensationDecisions.AnswerIsRecorded | src/stateback/compensation/outcome.py:19-46 | every answer to an open attempt commits: COMPENSATED if and only if APPLIED and allowed to stand alone, COMPENSATING and verified if APPLIED and not, FAILED if and only if NOT_APPLIED, UNKNOWN if and only if UNKNOWN |
| CompensationDecisions.RecordedAnswerDecides | src/stateback/compensation/outcome.py:19-46 | in every run, a recorded answer leads there |
| CompensationDecisions.UnknownIsRetriedOnlyWhenDue | src/stateback/compensation/recover.py:484-506 | an unknown compensation that cannot be verified is retried only while a retry is licensed at the first attempt's age and below the cap, and escalated only otherwise |
| CompensationDecisions.UnknownCanBeEscalated | src/stateback/compensation/recover.py:600-650 | when no retry is due, escalating commits and moves nothing but the operation |
| CompensationDecisions.UnknownCanBeRetried | src/stateback/compensation/recover.py:507-560 | when a retry is due after a completed attempt, the next number is claimed under any free identifier |
| CompensationDecisions.ProviderKeyIsNotUsedAfterItsWindow | src/stateback/compensation/recover.py:484-506 | under a provider key, an UNKNOWN attempt is retried only before first attempt plus window and below the cap, and escalated only otherwise |
| CompensationDecisions.FailureIsRetriedIff | src/stateback/compensation/execute.py:1228-1243 | a failed compensation is retried automatically if and only if the cap leaves room |
| CompensationDecisions.VerdictIsConcluded | src/stateback/compensation/reconcile.py:34-125 | every verdict about the pending request commits, and its target state is determined by outcome, contradiction, attempt cap, closing error and the number of durable results |
| CompensationLimits.RecoveryResolvesIff | src/stateback/compensation/recover.py:462-650 | recovery of an unverifiable unknown compensation retries or escalates if and only if it is not a retryable leftover |
| CompensationLimits.StallOccurs | src/stateback/compensation/recover.py:253-310 | from every SUCCEEDED operation with a naturally idempotent, unverifiable effect and a cap above one, a crash after the first claim leads to the stall |
| CompensationLimits.StallNeverEndsByItself | src/stateback/compensation/recover.py:462-650 | however often it is recovered, such a leftover is never called, retried or escalated |
| CompensationLimits.StallCycles | src/stateback/compensation/recover.py:253-310 | two recoveries bring it back with nothing changed but versions |
| CompensationLimits.FailedRetryIsNeverHalf | src/stateback/compensation/operator.py:120-170 | the operator's unit of work never commits the parent's retry without the claim |
| CompensationRaces.FailedRetryGoesOnIff | src/stateback/compensation/execute.py:1249-1314 | whatever version and attempt a driver brings, when its retry of a failed compensation is applied, when it is answered ALREADY_APPLIED, and that it goes on exactly after applying both commands with an unused attempt |
| CompensationRaces.SecondDriverHasNoAttempt | src/stateback/transitions/service.py:922-936 | after one driver's failed retry no other driver's gets through, whatever its version and identifiers, and a loser's own attempt is in no row |
| CompensationRaces.CalledBeforeIff | src/stateback/transitions/service.py:780-794 | under any commands in any order, a driver goes on with an attempt that somebody went on with before if and only if its retry after verification was answered ALREADY_APPLIED |
| CompensationRaces.SecondConclusionGoesOnIff | src/stateback/compensation/execute.py:820-868 | of two drivers concluding one verification with a retry, the second goes on if and only if both carry the same attempt identifier |
| CompensationRaces.RedeliveryCallsTwice | src/stateback/messaging/ids.py:1-6 | a run in which one message handled twice makes both drivers call for the same attempt |
| CompensationServices.ResumeIsNeverHalf | src/stateback/compensation/recover.py:653-722 | resuming verification commits both commands or none, and opens the request that is verified next |
| CompensationServices.UnknownRetryNeedsCompletion | src/stateback/transitions/preconditions.py:870-910 | the claim after an unknown parent's retry is refused for a leftover and only then |
| CompensationServices.CompensationService.CompensateStep | src/stateback/compensation/execute.py:527-667 | exactly one call, after which fewer are left; undisturbed, the answer and whether it may stand alone determine the state, a NOT_APPLIED answer is retried exactly below the cap, and a required verification follows |
| CompensationServices.CompensationService.VerifyStep | src/stateback/compensation/execute.py:670-880 | no provider call; the verdict and what follows from it become durable in the same commit, and in none before; undisturbed it always concludes, where evidence and caps say |
| CompensationServices.CompensationService.MaybeClaimRetry | src/stateback/compensation/execute.py:1210-1314 | a retry is the next number under its derived identifier, within the cap; undisturbed it is claimed exactly below the cap |
| CompensationServices.CompensationService.RunCycle | src/stateback/compensation/execute.py:441-524 | the loop ends, calls or asks at least once, and calls the provider at most max(1, cap - n + 1) times when entered at attempt n |
| CompensationServices.CompensationService.ClaimAndCompensate | src/stateback/compensation/execute.py:252-353 | the steps are a run: claim committed before the call; at most cap calls, and undisturbed at least one |
| CompensationServices.CompensationService.Execute | src/stateback/compensation/execute.py:104-131 | a leftover makes no call and writes nothing; undisturbed, an unclaimed compensation is called |
| CompensationServices.CompensationService.Dispatch | src/stateback/compensation/execute.py:134-220 | IN_FLIGHT if and only if an attempt is open; no write outside the compensation family; undisturbed, an unclaimed compensation is called |
| CompensationServices.CompensationService.Recover | src/stateback/compensation/recover.py:74-250 | a leftover is accepted if and only if it ends UNKNOWN, without a call and with its attempts unchanged, and undisturbed it is; a pending verification is asked about |
| CompensationServices.CompensationService.AbandonLeftover | src/stateback/compensation/recover.py:253-310 | the open attempt is given up, not repeated; undisturbed it always is |
| CompensationServices.CompensationService.StartVerificationOfUnknown | src/stateback/compensation/recover.py:653-775 | at most cap - n calls follow a resumed verification of attempt n; undisturbed the verifier is asked |
| CompensationServices.CompensationService.RetryOrEscalateUnknown | src/stateback/compensation/recover.py:462-650 | a call is made only while a retry is due, measured from the first attempt; undisturbed, a due retry after a completed attempt is made and otherwise the operation is escalated; at most cap - n calls, none for a leftover |
| CompensationServices.CompensationService.RetryFailedCompensation | src/stateback/compensation/operator.py:74-197 | one granted retry, at most max(1, cap - n) calls after it, none when it was not granted; undisturbed it is granted |
| CompensationServices.CompensationService.EscalateCompensation | src/stateback/compensation/operator.py:200-295 | acceptance leaves the family for manual intervention and touches nothing but the operation; undisturbed it is accepted exactly from an open family state at the expected version |
| CompensationServices.CompensationService.Start | src/stateback/compensation/start.py:37-150 | acceptance creates the only compensation, PENDING at version 1, and moves the operation once; undisturbed the answer is determined by version, compensation id and eligibility |
| CompensationServices.StartAllowedIff | src/stateback/compensation/eligibility.py:48-120 | from which states, and under which conditions on artifact, actor and policy, a compensation may be started |
| FreshIdentities.RestIsFresh | src/stateback/compensation/execute.py:951-1207 | from any point of an invocation only unused identifiers are written, each once |
| FreshIdentities.InvocationWritesAreFresh | src/stateback/messaging/ids.py:31-60 | no identifier is written twice in one invocation, and retry bundles are asked for attempt 2 or later only |
| FreshIdentities.ConclusionFollowsItsRequest | src/stateback/compensation/execute.py:1172-1207 | a verification is concluded under the names of the bundle that requested it |
| EffectTransitions.EffectCommitsAreLegal | src/stateback/domain/transitions.py:21-69 | every applied command bumps the version by one along a listed edge |
| EffectSteps.StepKeeps | src/stateback/recovery/recover.py:100-556 | every step of every driver keeps the invariant |
| EffectTheorems.EffectInvariantHolds | src/stateback/recovery/recover.py:100-556 | the invariant holds at every position of every run of any number of drivers |
| EffectTheorems.EffectEvidenceIsFinal | src/stateback/persistence/repositories.py:388-556 | outcomes and results are final however late a driver comes |
| EffectTheorems.AtMostOneExecutePerAttempt | src/stateback/runtime/execute.py:437-600 | no two executions carry the same attempt, for any number of concurrent drivers |
| EffectTheorems.ExecutionsStayInBudget | src/stateback/runtime/outcome.py:19-24 | executions are at most the attempts, attempts at most the cap |
| EffectTheorems.NoBlindRetry | src/stateback/recovery/reconcile.py:51-73 | every return to READY has an attempt below the cap and durable NOT_APPLIED evidence |
| EffectTheorems.OutcomesAreShown | src/stateback/runtime/outcome.py:26-63 | SUCCEEDED and FAILED rest on durable evidence about the latest attempt |
| EffectTheorems.FallBacksAreCounted | src/stateback/recovery/recover.py:502-514 | every fall back to UNKNOWN is counted by a durable result |
| EffectTheorems.RecoveryIsBounded | src/stateback/recovery/reconcile.py:85-107 | at most cap - 1 commits lead from VERIFYING back to UNKNOWN over a whole life |
| EffectTheorems.NeverAskedAgain | src/stateback/recovery/recover.py:196-246 | after a result is durable and no question is under way, that row is never asked about again |
| EffectTheorems.RecoveryDecidesFromTheRows | src/stateback/recovery/recover.py:482-556 | whoever died in between, recovery commits the transition that the durable result calls for |
| EffectTheorems.UninterruptedDecidesFromTheRows | src/stateback/recovery/recover.py:196-246 | the driver that made the result durable and goes on commits that transition too |
| EffectTheorems.CrashesChangeNoDecision | src/stateback/recovery/recover.py:482-556 | a run without a crash and any run that comes to the same rows and is recovered commit the same rows |
| EffectTheorems.RacingConclusionsAgree | src/stateback/recovery/persist.py:13-45 | every conclusion has the stored outcome; it decides as the stored result does if and only if the outcome is decided, or both or neither close the question |
| EffectLimits.RacingInconclusiveAnswersMayDiffer | src/stateback/recovery/reconcile.py:74-107 | for every verifiable effect and every budget above one, a run of two drivers after which one leaves the operation open and the other hands it to a person |
| EffectTheorems.UnverifiableRecoveryMovesIff | src/stateback/recovery/recover.py:342-413 | recovery without verification moves the operation if and only if no unresolved retry is licensed |
| EffectTheorems.StuckUntilTheWindowEnds | src/stateback/recovery/recover.py:342-413 | under a provider key it moves exactly from the end of the replay window on |
| EffectDecisions.FinishDecides | src/stateback/runtime/outcome.py:26-63 | in every run, finishing an attempt leaves SUCCEEDED or VERIFYING for APPLIED as it may stand alone or not, READY or FAILED for NOT_APPLIED as the cap leaves room or not, UNKNOWN for UNKNOWN |
| EffectDecisions.OutcomeIsApplied | src/stateback/runtime/execute.py:118-204 | the outcome of the latest attempt always commits while the operation is EXECUTING at the driver's version |
| EffectDecisions.AbandonDecides | src/stateback/recovery/recover.py:249-273 | giving up an open attempt leaves UNKNOWN with the attempt still open |
| EffectDecisions.UnknownIsRecovered | src/stateback/recovery/recover.py:276-413 | where recovering UNKNOWN leads: a check of the latest attempt, a person when no retry is due, READY for a due retry after NOT_APPLIED, a refusal for one whose outcome is open |
| EffectDecisions.ConclusionDecides | src/stateback/recovery/reconcile.py:25-107 | in every run, a conclusion leads where outcome, contradiction, caps and closing errors say, and writes nothing but the state |
| EffectDecisions.VerdictIsJudged | src/stateback/recovery/recover.py:482-556 | a durable verdict about the present check always commits at the driver's version |
| EffectDecisions.OperatorCheckIsOpened | src/stateback/recovery/operator.py:33-139 | an operator's verification asks about the latest attempt |
| RecoveryServices.RecoveryService.PersistVerificationResult | src/stateback/recovery/persist.py:13-45 | the first stored outcome stays; a racing result is accepted exactly when it has that outcome; undisturbed, an open check gets the verdict that was heard |
| RecoveryServices.RecoveryService.ReadEvidence | src/stateback/recovery/recover.py:482-514 | the attempt is the latest at one position of the run, the count that of a later position; undisturbed both are those of the rows |
| RecoveryServices.RecoveryService.ApplyVerificationKind | src/stateback/recovery/recover.py:482-556 | acceptance means the verified operation was concluded; undisturbed it is, where the verdict leads from the rows |
| RecoveryServices.RecoveryService.RunVerifyingCycle | src/stateback/recovery/recover.py:158-246 | a durable result is used without asking, otherwise one question is asked; undisturbed the operation is concluded by the result that is then durable |
| RecoveryServices.RecoveryService.Recover | src/stateback/recovery/recover.py:100-155 | recovery never executes and asks at most one question; undisturbed each state is left as its evidence says |
| RecoveryServices.RecoveryService.RecoverUnknown | src/stateback/recovery/recover.py:276-339 | acceptance means that the plan made from the rows was the last commit, that another driver had brought it there, or that the verification was concluded; undisturbed the outcome is the one that verifiability, licence and evidence call for |
| RecoveryServices.RecoveryService.RecoverExecuting | src/stateback/recovery/recover.py:249-273 | no calls; acceptance means that the latest attempt's outcome, or giving it up as UNKNOWN, was the last commit, or that another driver made one; undisturbed it is |
| RecoveryServices.RecoveryService.StartOperatorVerification | src/stateback/recovery/operator.py:33-139 | an operator's verification makes no execution and at most one question; undisturbed it opens a check and concludes it |
| ExecuteServices.RoundRepeatsIff | src/stateback/runtime/execute.py:437-540 | when a dispatch is followed by another one and when it claims, for rows that moved between read and claim |
| ExecuteServices.DispatchEndsIff | src/stateback/runtime/execute.py:508-519 | on rows that nobody changes, dispatching uses up every depth if and only if the row is READY at another version than the command's and the one after it |
| ExecuteServices.StaleForGood | src/stateback/runtime/execute.py:508-519 | once the operation is past the version after the command's, no later dispatch claims, in any run, and none ends while it reads READY |
| ExecuteServices.ExecuteService.Dispatch | src/stateback/runtime/execute.py:360-434 | at most one call, for the attempt claimed by this invocation from exactly the command's version; undisturbed, a READY operation at that version is executed and left where the answer leads, a stale command runs out of depth |
| ExecuteServices.ExecuteService.Settle | src/stateback/runtime/execute.py:380-434 | IN_FLIGHT if and only if the latest attempt is open; nothing is written unless it was completed, and then its outcome is applied |
| ExecuteServices.ExecuteService.ClaimAndExecute | src/stateback/runtime/execute.py:437-600 | the steps are a run: claim, call, evidence and outcome are four steps with a stop between any two; undisturbed there is exactly one call and the operation is where its answer leads |
| OutboxTheorems.OutboxStepKeeps | src/stateback/messaging/relay.py:84-216 | every publication, mark, recovery and escalation keeps the outbox invariant |
| OutboxTheorems.OutboxInvariantHolds | src/stateback/messaging/relay.py:84-216 | the invariant holds at every position of every run of any number of relays |
| OutboxTheorems.PublishedWasSent | src/stateback/messaging/relay.py:207-216 | a PUBLISHED row's own message was published |
| OutboxTheorems.NoEventIsLost | src/stateback/persistence/repositories.py:853-876 | no row disappears or changes and PUBLISHED never reverts |
| OutboxTheorems.CopiesAreIdentical | src/stateback/messaging/relay.py:219-229 | all copies of one event are the same message; different events differ in message id |
| OutboxTheorems.ReplayIsNewer | src/stateback/messaging/relay.py:113-178 | a replay is strictly newer than its source, which is never latest again |
| OutboxTheorems.RepublicationsAreBounded | src/stateback/messaging/relay.py:142-150 | each operation, command and version is republished at most max_recoveries times |
| OutboxTheorems.EachSourceOnce | src/stateback/messaging/relay.py:173-190 | an event is the source of at most one republication |
| OutboxTheorems.ExhaustionEscalates | src/stateback/messaging/relay.py:148-172 | an exhausted budget always escalates along a legal edge, and nothing of the operation stays stranded |
| OutboxTheorems.EscalatedOncePerVersion | src/stateback/messaging/relay.py:148-172 | messaging recovery escalates one version of an operation at most once |
| OutboxTheorems.RepublicationAnnouncesThePresent | src/stateback/messaging/relay.py:173-204 | a republication adds one pending event for the same work at the present version and one audit row naming both, and changes nothing else |
| OutboxTheorems.PublicationSaysItsRow | src/stateback/messaging/relay.py:219-229 | a published message carries its row's identifiers, version, work, correlation and time |
| Outbox.NeededWork | src/stateback/messaging/relay.py:45-63 | which work each state still needs; whatever a state announces is needed in it |
| Outbox.CountIsNumberOfRepublications | src/stateback/persistence/repositories.py:713-726 | the budget counts exactly the republications of this operation, work and version |
| StrandedWork.QueryMatchesTheCheck | src/stateback/persistence/repositories.py:770-841 | the query admits all that the check accepts; the rest are finished compensations |
| StrandedWork.ListStrandedCandidateIds | src/stateback/persistence/repositories.py:770-841 | the oldest candidates up to the limit, in order |
| StrandedWork.ListedIff | src/stateback/persistence/repositories.py:833-841 | a candidate is listed if and only if fewer than limit candidates precede it |
| StrandedWork.FinishedCompensationsStarve | src/stateback/messaging/relay.py:45-63 | limit older finished compensations keep a younger event from every later listing |
| OutboxRelays.OutboxRelay.ClaimOldest | src/stateback/persistence/repositories.py:754-768 | the oldest pending row that nobody holds is locked; none only if there is none |
| OutboxRelays.OutboxRelay.PublishOne | src/stateback/messaging/relay.py:207-216 | marked only after publication succeeded; still pending when it raises, which it does only when the publication is not acknowledged |
| OutboxRelays.OutboxRelay.PublishPending | src/stateback/messaging/relay.py:84-98 | the count is at most the limit and at most the messages sent; below the limit nothing is claimable or a publication raised |
| OutboxRelays.OutboxRelay.RecoverOne | src/stateback/messaging/relay.py:120-205 | on the rows under the lock: escalated for a stranded candidate with its budget used up, republished for one below it, left alone only if not stranded; it raises only for a storage failure or a replay identifier that is taken |
| OutboxRelays.OutboxRelay.RecoverStranded | src/stateback/messaging/relay.py:100-205 | every listed candidate is handled unless the pass raises; the count is at most the limit and at most the republications made |
| WorkQueue.StreamStepKeeps | src/stateback/messaging/nats.py:37-67 | every delivery, answer, quarantine and operator step keeps the stream invariant |
| WorkQueue.NoMessageIsLost | src/stateback/messaging/nats.py:37-67 | a queued message stays queued, replayable, settled by a handled dispatch, or discarded by a person |
| WorkQueue.LastDeliveryIsNeverPutBack | src/stateback/messaging/worker.py:175-178 | another delivery is asked for exactly for valid, unhandled work below the limit; exactly handled work is acknowledged |
| WorkQueue.StuckForGood | src/stateback/deployment/processes.py:233-246 | a copy that is out of deliveries is kept but never handled again |
| WorkQueue.StuckIff | src/stateback/deployment/processes.py:233-246 | a copy gets stuck if and only if its only holder dies, puts it back, or does not see its diagnostic accepted, on the last delivery |
| WorkQueue.SpentIff | src/stateback/deployment/processes.py:249-262 | a diagnostic is spent if and only if its only holder lets go of it on its twentieth delivery |
| WorkQueue.SpentForGood | src/stateback/deployment/processes.py:249-262 | a spent diagnostic is kept but never inspected, replayed or discarded again |
| WorkQueue.UnspentCanBeReplayed | src/stateback/deployment/processes.py:429-453 | before that, a waiting process can queue its message again |
| WorkConsumers.WorkConsumer.HandleOne | src/stateback/messaging/nats.py:37-67 | the answer is the one that payload, dispatch, delivery count and quarantine call for; an acknowledged message was handled, an acknowledged or terminated one is gone |
| WorkConsumers.WorkConsumer.QuarantineAndTerminate | src/stateback/messaging/nats.py:51-66 | terminated exactly when the diagnostic was accepted, as the last step; otherwise the work stream is unchanged |
| WorkConsumers.WorkConsumer.ReplayQuarantine | src/stateback/deployment/processes.py:429-453 | the acknowledgement is the last step, after one in which the confirmed message was queued; refused only for another message, timed out exactly when the deliveries are used up |
| WorkConsumers.WorkConsumer.DiscardQuarantine | src/stateback/deployment/processes.py:456-473 | discards exactly when the diagnostic's digest is the confirmed one, and then the payload with that digest |
| JsonLaws.ConversionKeepsMeaning | src/stateback/domain/jsonutil.py:48-78 | conversion yields a canonical value of the same meaning |
| Json.BelowIff | src/stateback/domain/jsonutil.py:33-38 | keys are ordered by the first code point that differs, and a prefix comes first |
| JsonLaws.AcceptedIff | src/stateback/domain/jsonutil.py:48-78 | accepted if and only if the meaning has no floats, foreign objects or empty or foreign keys |
| JsonLaws.CanonicalFormIsUnique | src/stateback/domain/jsonutil.py:16-45 | one meaning has one canonical value |
| JsonLaws.RoundTrip | src/stateback/domain/jsonutil.py:81-86 | json_from_plain inverts json_to_plain |
| JsonLaws.SameCanonicalIff | src/stateback/domain/jsonutil.py:48-78 | conversion forgets key order at every level, and nothing else |
| JsonReasons.ReasonIsAmong | src/stateback/domain/jsonutil.py:48-78 | an error is one of the reasons of the meaning, and there are none exactly for accepted values |
| JsonReasons.ReasonIsAttained | src/stateback/domain/jsonutil.py:64-74 | every reason of a meaning is given for some order of its dictionaries |
| JsonReasons.OrderFreeIff | src/stateback/domain/jsonutil.py:64-74 | the answer is the same for every order if and only if the meaning has at most one reason |
| JsonReasons.ReasonDependsOnOrder | src/stateback/domain/jsonutil.py:64-74 | a dictionary with two reasons |
| JsonConversion.JsonFromPlain | src/stateback/domain/jsonutil.py:48-78 | the loop that collects and sorts pairs computes the recursive conversion |
| BoundedJson.BoundedJsonFromPlain | src/stateback/application/input_validation.py:17-51 | accepts exactly what is within the recursive limits; at most 10,001 rounds and 33*999+1 stacked nodes |
| CanonicalText.TextIsUnique | src/stateback/domain/canonical.py:17-26 | canonical text, whatever follows it, determines the value and where it ends |
| CanonicalText.TextOfEscapes | src/stateback/domain/canonical.py:17-26 | what each escaped character becomes, and that others are written as they are |
| CanonicalText.TextOfObject | src/stateback/domain/canonical.py:17-26 | an object in canonical text: no spaces, keys quoted, comma and colon between |
| CanonicalText.TextOfList | src/stateback/domain/canonical.py:17-26 | a list in canonical text: numbers and literals as JSON writes them |
| CanonicalText.BytesAreInjective | src/stateback/domain/canonical.py:17-26 | equal canonical bytes mean equal values |
| CanonicalText.SameBytesIff | src/stateback/domain/canonical.py:17-30 | two inputs have equal canonical bytes if and only if they mean the same |
| Intent.ArgumentsHashIdentifies | src/stateback/domain/intent.py:49-62 | equal argument hashes mean equal arguments, mode and reference |
| Intent.DigestIdentifiesIntent | src/stateback/domain/intent.py:65-88 | equal digests if and only if the same intent |
| Intent.DigestExistsIff | src/stateback/domain/intent.py:65-88 | refused exactly for empty or repeated metadata keys |
| IntentRecords.AcceptedIffMade | src/stateback/domain/intent.py:111-226 | an envelope is accepted if and only if it is what from_parts makes of its parts |
| IntentRecords.AcceptedDigestIdentifies | src/stateback/domain/intent.py:227-269 | a stored record accepted under an intent's digest says the same as that intent |
| IntentRecords.StoredIntentIsAccepted | src/stateback/domain/intent.py:175-269 | an accepted intent is accepted again from storage with the same hashes, whatever the order of its dictionaries, if and only if its texts are not empty and its year is readable |
| IntentRecords.SortingKeepsDigest | src/stateback/domain/intent.py:65-88 | the digest does not see the order of the metadata |
| Registry.CapabilityRegistry.Register | src/stateback/providers/registry.py:27-47 | all effects of an adapter are registered or none; refused exactly for an empty adapter, an effect already served or a wrong descriptor |
| Registry.ListedOnceIff | src/stateback/providers/registry.py:27-50 | registration takes no effect from another adapter; effects stay listed once if and only if the adapter names none twice |
| ReadingLaws.ReadsCanonicalBytes | src/stateback/messaging/codec.py:48-68 | reading canonical bytes gives back the value |
| ShortestText.CanonicalIsShortest | src/stateback/messaging/codec.py:48-68 | no JSON text of a value takes fewer bytes than its canonical text |
| ReadValues.ReadsPlain | src/stateback/messaging/codec.py:57-68 | what is read has distinct text keys and only integers that can be written again |
| Bytes.Utf8IsCanonical | src/stateback/messaging/codec.py:57-68 | nothing but its own UTF-8 encoding decodes to a text |
| Bytes.Utf8Examples | src/stateback/domain/canonical.py:17-26 | the examples of RFC 3629, section 7 |
| MessageLaws.StampTextIsCanonical | src/stateback/domain/time.py:37-61 | every timestamp has one wire text |
| MessageLaws.FromWireInvertsToWire | src/stateback/domain/messaging.py:187-241 | from_wire inverts to_wire, except for a year written with fewer than four digits |
| MessageLaws.MessageRoundTrip | src/stateback/messaging/codec.py:48-68 | decoding an encoded message gives it back, is refused for size, or for such a year |
| MessageLaws.AcceptedFits | src/stateback/messaging/codec.py:48-68 | every accepted message can be encoded within the size limit |
| QuarantineLaws.PoisonRoundTrip | src/stateback/messaging/codec.py:71-227 | the diagnostic of a payload that is no message comes back as its digest, size and delivery count |
| QuarantineLaws.ExhaustedRoundTrip | src/stateback/messaging/codec.py:71-227 | the diagnostic of a message comes back as what decoding its replay payload says |
| QuarantineLaws.QuarantineRoundTrip | src/stateback/messaging/codec.py:71-227 | for every payload and delivery count: when a diagnostic exists, that it is within 64 KiB, and what it decodes to |
| QuarantineLaws.LongIntegerIsNeverQuarantined | src/stateback/messaging/codec.py:57-108 | a payload that is one long integer leaves no diagnostic |
| Base64.DecodeInvertsEncode | src/stateback/application/service.py:198-212 | decoding inverts encoding in both alphabets |
| Base64.SymbolIsInAlphabet | src/stateback/application/service.py:198-212 | the symbols are the alphabets of RFC 4648, sections 4 and 5, in their order |
| Base64.BitsAreInOrder | src/stateback/application/service.py:198-212 | three bytes become four characters from the highest bits on |
| Base64.PaddingIsShort | src/stateback/application/service.py:203-206 | dropped padding is restored from the length alone |
| Cursor.StampRoundTrip | src/stateback/domain/time.py:37-61 | a timestamp's wire text reads back as the timestamp |
| Cursor.StampReads | src/stateback/domain/time.py:37-61 | where each field of a timestamp stands in its wire text |
| Cursor.CursorSays | src/stateback/application/service.py:198-200 | a cursor is the wire text of the time, a bar and the identifier |
| Cursor.CursorRoundTrip | src/stateback/application/service.py:198-212 | _decode_cursor inverts _cursor |
| Cursor.CursorsDiffer | src/stateback/application/service.py:198-200 | different positions have different cursors |
| Paging.PageMeans | src/stateback/persistence/repositories.py:285-325 | a page is in order and everything it left out lies after it |
| Paging.PrecedesIff | src/stateback/persistence/repositories.py:285-325 | the later creation time comes first, by its fields from the year down, then the smaller identifier |
| Paging.FetchPage | src/stateback/persistence/repositories.py:285-325 | the query returns the first rows after the cursor and says whether there are more |
| Paging.SearchOperations | src/stateback/application/service.py:405-444 | refused exactly for a cursor that names no present row; otherwise the page after it |
| Paging.NothingIsSkipped | src/stateback/application/service.py:405-444 | under inserts, a row present at the start is read or still ahead |
| Paging.PagingIsExactlyOnce | src/stateback/application/service.py:405-444 | every row of the start is read exactly once, in order; on a snapshot nothing else |
| Paging.ReadAll | src/stateback/application/service.py:405-444 | following next_cursor ends and yields the snapshot in order |
| AuditTrail.AppendLeavesNoGap | src/stateback/persistence/repositories.py:728-740 | any number of appends extends 1..n to 1..n+count |
| AuditTrail.PageOfGapless | src/stateback/persistence/repositories.py:695-711 | over stored sequences without gaps, the filtered, ordered and limited query gives the next events after the cursor and a next cursor exactly when more are left |
| AuditTrail.AuditPagesAreGapless | src/stateback/application/service.py:387-403 | pages read along the next cursors are after+1, after+2, ... under concurrent appends |
| AuditTrail.AuditWalkReadsAll | src/stateback/persistence/repositories.py:695-711 | a finished walk read all that was there when it began |
| Approvals.ApprovalInvariantHolds | src/stateback/approval/service.py:44-209 | the approval invariant holds at every position of every run |
| Approvals.DecidedOnce | src/stateback/approval/service.py:44-209 | an approval leaves PENDING at most once in every interleaving of decide and expire |
| Approvals.PendingMeansUndecided | src/stateback/approval/service.py:44-209 | PENDING if and only if the operation awaits approval at the approval's version |
| Approvals.OwnApprovalBinds | src/stateback/approval/service.py:298-313 | the binding check accepts exactly the operation's own approval, at every later version |
| Approvals.LateGrantIsRefused | src/stateback/approval/service.py:58-110 | a grant commits exactly before expiry; rejection and expiry always do |
| Approvals.VerdictDecides | src/stateback/approval/service.py:44-209 | a committed verdict leaves READY and APPROVED, DENIED and REJECTED, or CANCELLED and EXPIRED, one version later, and touches no other approval |
| ApprovalServices.ApprovalService.Decide | src/stateback/approval/service.py:44-110 | acceptance is true, and a replay of the winning decision is accepted exactly for authorized actors; undisturbed, an authorized decision is accepted exactly when it stands or the approval is its own, pending at the expected version and in time |
| ApprovalServices.ApprovalService.ResolveConcurrent | src/stateback/approval/service.py:267-296 | accepted exactly when the requested decision stands |
| ApprovalServices.ApprovalService.ExpireApproval | src/stateback/approval/service.py:112-209 | acceptance means expired, and a repeated expiry is accepted; undisturbed it is accepted exactly when expired already or overdue and pending at the expected version |

## Left out

- One operation's rows are modelled at a time, with its policy and descriptor fixed for the run; the branches for a missing policy or an unregistered effect only refuse.
- Actor checks, audit rows, outbox rows and reason codes of lifecycle transitions, and the equality checks of idempotency keys: one-branch refusals that no proof here rests on.
- Identifier collisions are a primary-key check and a storage failure that may happen to any commit.
- Runs of the compensation protocol have one driver at a time, as its claims demand. For several drivers `CompensationRaces` covers every sequence of commands they may send and which of them call; what their answers then prove is not followed further. The original effect, the outbox, the work queue and approvals are modelled with any number.
- The replay of a completed attempt and the use of an already stored result in compensation recovery are proved unreachable and not modelled further.
- The transition kinds that no service sends: unknown compensation marked applied or failed, reconciling an unknown effect in place, manual safe retry, cancelling before readiness and cancelling from READY (CANCEL_READY).
- ExecuteServices: the interpreter's recursion limit is a depth that the caller gives.
- Assertions in the original are taken as active: a failing one ends the driver like a crash.
- A driver reads operation and latest attempt at one moment.
- Clocks are integers that never go back; hashes and name-based identifiers are injective.
- The broker's own age and size limits on streams.
- Cursor.CursorRoundTrip: is about cursors that the service issued; the leniency of the base64 and date parsers towards malformed cursors is not modelled, nor are years before 1000.
- The scan loops over operations: each result is one recovery of one listed operation. Start eligibility beyond its decision.
- Text is made of Unicode scalar values: lone surrogates, which UTF-8 cannot encode, do not occur.
- The interpreter's limit on digits of very long integers is modelled where payloads are read and diagnostics are written, not where intents are hashed; its recursion limit on deeply nested JSON is not modelled.
- Timestamps with digits outside ASCII, which the date parser of the original would take.
- WorkQueue: takes a payload as a valid message or as poison and a diagnostic as a record with or without a replayable message; the bytes of both are the subject of `QuarantineLaws`, and a payload for which the consumer raises is a crash after every delivery.
- Secret filtering, roles, error mapping, HTTP, the user interface and the wiring of processes: easy or outside the state machines.
