/** What holds in every run of the compensation protocol: any number of executions,
    recoveries, operator retries and foreign commands, with a crash anywhere. */
module CompensationTheorems {
  import opened Lifecycle
  import opened RetrySafety
  import opened Reconciliation
  import opened Transitions
  import opened TransitionLaws
  import opened CompensationProtocol
  import opened CompensationInvariant
  import opened CompensationSteps

  lemma {:induction false} RunKeepsInvariant(setting: Setting, run: seq<System>, i: nat)
    requires IsRun(setting, run) && i < |run|
    ensures Inv(setting, run[i])
    decreases i
  {
    if i > 0 {
      RunKeepsInvariant(setting, run, i - 1);
      assert StepAt(setting, run, i - 1);
      var step :| Takes(setting, run[i - 1], step, run[i]);
      StepKeepsInv(setting, run[i - 1], step, run[i]);
    }
  }

  // ---------------------------------------------------------------- lock step

  /** Operation and compensation move in lock step: a state of the compensation family means
      exactly one compensation, in a state that maps to it. */
  lemma OperationMirrorsItsOnlyCompensation(setting: Setting, run: seq<System>, i: nat)
    requires IsRun(setting, run) && i < |run|
    requires InCompensationFamily(run[i].rows.op.state)
    ensures HasCompensation(run[i].rows)
    ensures |run[i].rows.compensations| == 1
    ensures ParentState(Current(run[i].rows).state) == run[i].rows.op.state
  {
    RunKeepsInvariant(setting, run, i);
    var rows := run[i].rows;
    assert rows.compensations.Keys == {rows.op.compensationId.value};
    assert |rows.compensations| == |rows.compensations.Keys|;
  }

  ghost predicate LegalMove(before: Rows, after: Rows) {
    && (after.op.state == before.op.state || LegalOperationEdge(before.op.state, after.op.state))
    && before.op.version <= after.op.version <= before.op.version + 1
    && (after.op.state != before.op.state ==> after.op.version == before.op.version + 1)
    && forall id :: id in before.compensations ==>
         && id in after.compensations
         && (|| after.compensations[id].state == before.compensations[id].state
             || LegalCompensationEdge(before.compensations[id].state, after.compensations[id].state))
  }

  lemma SingleIsLegal(rows: Rows, command: Command)
    requires LockStep(rows) && StartIsGuarded(rows, command)
    requires Apply(rows, command).Applied?
    ensures LegalMove(rows, Apply(rows, command).rows)
  {
    ApplyFollowsBothTables(rows, command);
  }

  lemma PairIsLegal(rows: Rows, kind: Kind, id: Id, now: int)
    requires LockStep(rows) && HasCompensation(rows)
    requires kind.CompensationUnknownRetry? || kind.CompensationFailedRetry?
    ensures var pair := RetryThenClaim(rows, kind, id, now);
      && (pair.Both? ==> LegalMove(rows, pair.rows))
      && (pair.FirstOnly? ==> LegalMove(rows, pair.first))
  {
    var first := Move(kind, rows.op.version, None, None);
    if Apply(rows, first).Applied? {
      SingleIsLegal(rows, first);
    }
  }

  lemma ResumeIsLegal(rows: Rows, target: Id, id: Id)
    requires LockStep(rows) && HasCompensation(rows)
    requires RetryThenVerify(rows, target, id).Both?
    ensures LegalMove(rows, RetryThenVerify(rows, target, id).rows)
  {
    SingleIsLegal(rows, Move(CompensationUnknownRetry, rows.op.version, None, None));
  }

  lemma ConcludeIsLegal(setting: Setting, s: System, id: Id, now: int, t: System)
    requires Inv(setting, s) && Takes(setting, s, Conclude(id, now), t)
    ensures LegalMove(s.rows, t.rows)
  {
    var action := VerdictAction(setting, s.rows, s.phase.verdict);
    SingleIsLegal(s.rows, ConcludeCommand(s.rows, s.phase.verdict, action, id, now).value);
  }

  lemma StepIsLegal(setting: Setting, s: System, step: Step, t: System)
    requires Inv(setting, s) && Takes(setting, s, step, t)
    ensures LegalMove(s.rows, t.rows)
  {
    match step
    case Start(id) => SingleIsLegal(s.rows, StartCompensation(s.rows.op.version, id));
    case Claim(id, now) => SingleIsLegal(s.rows, ClaimCommand(s.rows, id, now));
    case RecordOutcome(id) =>
      SingleIsLegal(s.rows, OutcomeCommand(setting, s.rows, s.phase.attempt, s.phase.outcome, id));
    case RetryAfterFailure(id, now) => PairIsLegal(s.rows, CompensationFailedRetry, id, now);
    case OperatorRetry(id, now) => PairIsLegal(s.rows, CompensationFailedRetry, id, now);
    case RetryUnknown(id, now) => PairIsLegal(s.rows, CompensationUnknownRetry, id, now);
    case ResumeVerification(id) => ResumeIsLegal(s.rows, LatestAttempt(Current(s.rows)).value.id, id);
    case AbandonLeftover =>
      SingleIsLegal(s.rows, Move(CompensationOutcomeUnknown, s.rows.op.version, None, None));
    case EscalateUnknown(_) =>
      SingleIsLegal(s.rows, Move(CompensationUnknownEscalate, s.rows.op.version, None, None));
    case Conclude(id, now) => ConcludeIsLegal(setting, s, id, now, t);
    case OtherCommand(to) => SingleIsLegal(s.rows, Foreign(s.rows.op.version, to));
    case CallProvider(_) =>
    case AskVerifier(_, _) =>
    case Crash =>
  }

  /** Every commit of every run moves both records along listed edges only, also when a unit
      of work holds two commands or only the first of them. */
  lemma EveryCommitIsLegal(setting: Setting, run: seq<System>, i: nat)
    requires IsRun(setting, run) && i + 1 < |run|
    ensures LegalMove(run[i].rows, run[i + 1].rows)
  {
    RunKeepsInvariant(setting, run, i);
    assert StepAt(setting, run, i);
    var step :| Takes(setting, run[i], step, run[i + 1]);
    StepIsLegal(setting, run[i], step, run[i + 1]);
  }

  lemma StepNeverReenters(setting: Setting, s: System, step: Step, t: System)
    requires Inv(setting, s) && Takes(setting, s, step, t)
    requires s.rows.op.compensationId.Some? && !InCompensationFamily(s.rows.op.state)
    ensures t.rows.op.compensationId == s.rows.op.compensationId
    ensures !InCompensationFamily(t.rows.op.state)
  {
  }

  lemma RunStepNeverReenters(setting: Setting, run: seq<System>, i: nat)
    requires IsRun(setting, run) && i + 1 < |run|
    requires run[i].rows.op.compensationId.Some? && !InCompensationFamily(run[i].rows.op.state)
    ensures run[i + 1].rows.op.compensationId == run[i].rows.op.compensationId
    ensures !InCompensationFamily(run[i + 1].rows.op.state)
  {
    RunKeepsInvariant(setting, run, i);
    assert StepAt(setting, run, i);
    var step :| Takes(setting, run[i], step, run[i + 1]);
    StepNeverReenters(setting, run[i], step, run[i + 1]);
  }

  /** An operation whose compensation was handed to a person never comes back: whatever else
      happens to it, it stays outside the compensation family for good. */
  lemma {:induction false} EscalationIsFinal(setting: Setting, run: seq<System>, i: nat, j: nat)
    requires IsRun(setting, run) && i <= j < |run|
    requires run[i].rows.op.compensationId.Some? && !InCompensationFamily(run[i].rows.op.state)
    ensures run[j].rows.op.compensationId == run[i].rows.op.compensationId
    ensures !InCompensationFamily(run[j].rows.op.state)
    decreases j
  {
    if i < j {
      EscalationIsFinal(setting, run, i, j - 1);
      RunStepNeverReenters(setting, run, j - 1);
    }
  }

  // ---------------------------------------------------------------- history

  lemma StepGrows(setting: Setting, s: System, step: Step, t: System)
    requires Inv(setting, s) && Takes(setting, s, step, t)
    ensures Grown(s, t)
  {
    match step
    case Start(id) => ApplyKeepsHistory(s.rows, StartCompensation(s.rows.op.version, id));
    case Claim(id, now) => ApplyKeepsHistory(s.rows, ClaimCommand(s.rows, id, now));
    case RecordOutcome(id) => RecordEffect(setting, s, id, t);
    case RetryAfterFailure(id, now) => RetryThenClaimHistory(s, CompensationFailedRetry, id, now);
    case OperatorRetry(id, now) => RetryThenClaimHistory(s, CompensationFailedRetry, id, now);
    case RetryUnknown(id, now) => RetryThenClaimHistory(s, CompensationUnknownRetry, id, now);
    case ResumeVerification(id) => ResumeEffect(s, id, LatestAttempt(Current(s.rows)).value.id);
    case AbandonLeftover =>
      ApplyKeepsHistory(s.rows, Move(CompensationOutcomeUnknown, s.rows.op.version, None, None));
    case EscalateUnknown(_) =>
      ApplyKeepsHistory(s.rows, Move(CompensationUnknownEscalate, s.rows.op.version, None, None));
    case Conclude(id, now) => ConcludeEffect(setting, s, id, now, t);
    case OtherCommand(to) => ApplyKeepsHistory(s.rows, Foreign(s.rows.op.version, to));
    case _ =>
  }

  lemma RunStepGrows(setting: Setting, run: seq<System>, i: nat)
    requires IsRun(setting, run) && i + 1 < |run|
    ensures Grown(run[i], run[i + 1])
  {
    RunKeepsInvariant(setting, run, i);
    assert StepAt(setting, run, i);
    var step :| Takes(setting, run[i], step, run[i + 1]);
    StepGrows(setting, run[i], step, run[i + 1]);
  }

  lemma GrownTransitively(a: System, b: System, c: System)
    requires Grown(a, b) && Grown(b, c)
    ensures Grown(a, c)
  {
    HistoryGrowsTransitively(a.rows, b.rows, c.rows);
  }

  /** No evidence is ever rewritten: attempts keep their number and their outcome, durable
      verification results are final, and the provider log only grows. */
  lemma {:induction false} EvidenceIsFinal(setting: Setting, run: seq<System>, i: nat, j: nat)
    requires IsRun(setting, run) && i <= j < |run|
    ensures Grown(run[i], run[j])
    decreases j
  {
    if i < j {
      EvidenceIsFinal(setting, run, i, j - 1);
      RunStepGrows(setting, run, j - 1);
      GrownTransitively(run[i], run[j - 1], run[j]);
    }
  }

  // ---------------------------------------------------------------- provider calls

  /** The provider is asked at most once per durable attempt. */
  lemma AtMostOneCallPerAttempt(setting: Setting, run: seq<System>, i: nat, a: nat, b: nat)
    requires IsRun(setting, run) && i < |run|
    requires a < b < |run[i].answers|
    ensures run[i].answers[a].attempt != run[i].answers[b].attempt
    ensures run[i].answers[a].number != run[i].answers[b].number
  {
    RunKeepsInvariant(setting, run, i);
    assert CallIsDurable(run[i], run[i].answers[a]);
    assert CallIsDurable(run[i], run[i].answers[b]);
  }

  lemma StepCallsTheClaimedAttempt(setting: Setting, s: System, step: Step, t: System)
    requires Inv(setting, s) && Takes(setting, s, step, t)
    requires t.answers != s.answers
    ensures s.phase.Claimed? && HasCompensation(s.rows)
    ensures LatestAttempt(Current(s.rows)) == Some(s.phase.attempt) && s.phase.attempt.state.Started?
    ensures |t.answers| == |s.answers| + 1
    ensures t.answers[..|s.answers|] == s.answers
    ensures t.answers[|s.answers|].attempt == s.phase.attempt.id
    ensures t.answers[|s.answers|].number == s.phase.attempt.number
    ensures forall k :: 0 <= k < |s.answers| ==> s.answers[k].attempt != s.phase.attempt.id
  {
  }

  /** A call is made only for the latest attempt, already committed as STARTED and never
      called before. */
  lemma CallsFollowTheirClaim(setting: Setting, run: seq<System>, i: nat)
    requires IsRun(setting, run) && i + 1 < |run|
    requires run[i + 1].answers != run[i].answers
    ensures HasCompensation(run[i].rows)
    ensures var latest := LatestAttempt(Current(run[i].rows));
      && latest.Some? && latest.value.state.Started?
      && |run[i + 1].answers| == |run[i].answers| + 1
      && run[i + 1].answers[..|run[i].answers|] == run[i].answers
      && run[i + 1].answers[|run[i].answers|].attempt == latest.value.id
      && forall k :: 0 <= k < |run[i].answers| ==> run[i].answers[k].attempt != latest.value.id
  {
    RunKeepsInvariant(setting, run, i);
    assert StepAt(setting, run, i);
    var step :| Takes(setting, run[i], step, run[i + 1]);
    StepCallsTheClaimedAttempt(setting, run[i], step, run[i + 1]);
    StepGrows(setting, run[i], step, run[i + 1]);
  }

  /** While the driver holds no claim, only attempts younger than n can be called. */
  ghost predicate OnlyYounger(s: System, n: nat) {
    && HasCompensation(s.rows)
    && n <= |Current(s.rows).attempts|
    && (s.phase.Claimed? ==> s.phase.attempt.number > n)
  }

  lemma StepClaimsYounger(setting: Setting, s: System, step: Step, t: System, n: nat)
    requires Inv(setting, s) && Takes(setting, s, step, t)
    requires OnlyYounger(s, n)
    ensures OnlyYounger(t, n)
    ensures |s.answers| <= |t.answers| && t.answers[..|s.answers|] == s.answers
    ensures forall k :: |s.answers| <= k < |t.answers| ==> t.answers[k].number > n
  {
    StepGrows(setting, s, step, t);
    StepKeepsInv(setting, s, step, t);
    if t.answers != s.answers {
      StepCallsTheClaimedAttempt(setting, s, step, t);
    }
  }

  lemma RunStepClaimsYounger(setting: Setting, run: seq<System>, i: nat, n: nat)
    requires IsRun(setting, run) && i + 1 < |run| && OnlyYounger(run[i], n)
    ensures OnlyYounger(run[i + 1], n)
    ensures run[i].answers <= run[i + 1].answers
    ensures AllYounger(run[i + 1].answers[|run[i].answers|..], n)
  {
    RunKeepsInvariant(setting, run, i);
    assert StepAt(setting, run, i);
    var step :| Takes(setting, run[i], step, run[i + 1]);
    StepClaimsYounger(setting, run[i], step, run[i + 1], n);
  }

  ghost predicate AllYounger(answers: seq<Answer>, n: nat) {
    forall k :: 0 <= k < |answers| ==> answers[k].number > n
  }

  lemma AllYoungerEither(a: seq<Answer>, b: seq<Answer>, c: seq<Answer>, n: nat)
    requires a <= b <= c && AllYounger(b[|a|..], n) && AllYounger(c[|b|..], n)
    ensures AllYounger(c[|a|..], n)
  {
    assert c[|a|..] == b[|a|..] + c[|b|..];
  }

  /** An attempt that a driver left behind is never called again: every call made later is
      for an attempt claimed later. */
  lemma {:induction false} AbandonedAttemptsAreNeverCalled(
    setting: Setting, run: seq<System>, i: nat, j: nat)
    requires IsRun(setting, run) && i <= j < |run|
    requires run[i].phase.Idle? && HasCompensation(run[i].rows)
    ensures run[i].answers <= run[j].answers
    ensures OnlyYounger(run[j], |Current(run[i].rows).attempts|)
    ensures AllYounger(run[j].answers[|run[i].answers|..], |Current(run[i].rows).attempts|)
    decreases j
  {
    if i < j {
      var n := |Current(run[i].rows).attempts|;
      AbandonedAttemptsAreNeverCalled(setting, run, i, j - 1);
      RunStepClaimsYounger(setting, run, j - 1, n);
      AllYoungerEither(run[i].answers, run[j - 1].answers, run[j].answers, n);
    }
  }

  // ---------------------------------------------------------------- evidence

  /** COMPENSATED rests on positive evidence about the latest attempt: an APPLIED answer that
      policy and descriptor let stand alone, or a durable APPLIED verification that the
      attempt's own answer does not contradict. */
  lemma CompensatedIsProved(setting: Setting, run: seq<System>, i: nat)
    requires IsRun(setting, run) && i < |run|
    requires run[i].rows.op.state.Compensated?
    ensures HasCompensation(run[i].rows) && SuccessIsProved(setting, run[i])
  {
    RunKeepsInvariant(setting, run, i);
  }

  /** COMPENSATION_FAILED rests on NOT_APPLIED evidence about the latest attempt. */
  lemma FailureIsProvedToo(setting: Setting, run: seq<System>, i: nat)
    requires IsRun(setting, run) && i < |run|
    requires run[i].rows.op.state.CompensationFailed?
    ensures HasCompensation(run[i].rows) && FailureIsProved(run[i])
  {
    RunKeepsInvariant(setting, run, i);
  }

  /** When nothing but UNKNOWN was ever heard about the latest attempt, the operation is
      neither compensated nor failed. */
  lemma UnknownEvidenceDecidesNothing(setting: Setting, run: seq<System>, i: nat)
    requires IsRun(setting, run) && i < |run| && HasCompensation(run[i].rows)
    requires LatestAttempt(Current(run[i].rows)).Some?
    requires var id := LatestAttempt(Current(run[i].rows)).value.id;
      && !Evidenced(run[i], id, EffectApplied) && !Evidenced(run[i], id, EffectNotApplied)
    ensures !run[i].rows.op.state.Compensated? && !run[i].rows.op.state.CompensationFailed?
  {
    RunKeepsInvariant(setting, run, i);
  }

  // ---------------------------------------------------------------- budgets

  /** Attempts are numbered 1..n without a gap, and n is at most the execution cap plus the
      retries that operators were granted. */
  lemma AttemptsStayInBudget(setting: Setting, run: seq<System>, i: nat)
    requires IsRun(setting, run) && i < |run| && HasCompensation(run[i].rows)
    ensures var attempts := Current(run[i].rows).attempts;
      && |attempts| <= ExecutionCap(setting.obligations) + run[i].operatorRetries
      && (forall k :: 0 <= k < |attempts| ==> attempts[k].number == k + 1)
  {
    RunKeepsInvariant(setting, run, i);
  }

  /** Over a whole life fewer than RecoveryCap verification results leave the outcome open. */
  lemma InconclusiveResultsAreBounded(setting: Setting, run: seq<System>, i: nat)
    requires IsRun(setting, run) && i < |run|
    ensures run[i].inconclusive <= RecoveryCap(setting.obligations) - 1
    ensures run[i].inconclusive <= CompletedCount(run[i].rows.verifications)
  {
    RunKeepsInvariant(setting, run, i);
  }

  // ---------------------------------------------------------------- shapes met by a recovery

  /** A recovery that finds VERIFYING always finds its pending request, so a result is never
      durable without the transition it decided. */
  lemma VerifyingAlwaysHasItsRequest(setting: Setting, run: seq<System>, i: nat)
    requires IsRun(setting, run) && i < |run|
    requires run[i].rows.op.state.Compensating? && HasCompensation(run[i].rows)
    requires Current(run[i].rows).state.CompVerifying?
    ensures LastPending(run[i].rows.verifications) == Some(|run[i].rows.verifications| - 1)
    ensures var last := run[i].rows.verifications[|run[i].rows.verifications| - 1];
      && last.operationVersion == run[i].rows.op.version
      && LatestAttempt(Current(run[i].rows)).Some?
      && last.targetAttempt == LatestAttempt(Current(run[i].rows)).value.id
  {
    RunKeepsInvariant(setting, run, i);
  }

  /** A recovery that finds EXECUTING always finds an open attempt: a completed attempt is
      never left in EXECUTING, so its outcome is never mapped a second time. */
  lemma ExecutingAlwaysHasAnOpenAttempt(setting: Setting, run: seq<System>, i: nat)
    requires IsRun(setting, run) && i < |run| && HasCompensation(run[i].rows)
    requires Current(run[i].rows).state.CompExecuting?
    ensures LatestAttempt(Current(run[i].rows)).Some?
    ensures LatestAttempt(Current(run[i].rows)).value.state.Started?
  {
    RunKeepsInvariant(setting, run, i);
  }
}
