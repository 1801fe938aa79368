/** What each decision of the compensation comes to, stated by evidence, caps and clock alone. */
module CompensationDecisions {
  import opened Lifecycle
  import opened RetrySafety
  import opened Reconciliation
  import opened Transitions
  import opened CompensationProtocol
  import opened CompensationInvariant
  import opened CompensationRows

  // ---------------------------------------------------------------- recording an answer

  /** Where an answer leads. */
  ghost predicate AnswerDecided(setting: Setting, outcome: EffectOutcome, after: Rows) {
    && HasCompensation(after)
    && (after.op.state.Compensated? <==> outcome.EffectApplied? && ResponseStandsAlone(setting))
    && (after.op.state.Compensating? <==> outcome.EffectApplied? && !ResponseStandsAlone(setting))
    && (after.op.state.Compensating? ==> Current(after).state.CompVerifying?)
    && (after.op.state.CompensationFailed? <==> outcome.EffectNotApplied?)
    && (after.op.state.CompensationUnknown? <==> outcome.EffectUnknown?)
  }

  /** The rows with the latest attempt open, as after a claim. */
  ghost predicate AwaitsAnswer(rows: Rows, attempt: Attempt) {
    && RowsFit(rows) && HasCompensation(rows)
    && rows.op.state.Compensating? && Current(rows).state.CompExecuting?
    && LatestAttempt(Current(rows)) == Some(attempt)
  }

  /** Every answer to an open attempt is recorded, and where it leads depends only on the answer
      and on whether it may stand alone. */
  lemma AnswerIsRecorded(setting: Setting, rows: Rows, attempt: Attempt, outcome: EffectOutcome, id: Id)
    requires AwaitsAnswer(rows, attempt)
    requires FindVerification(rows.verifications, id) == |rows.verifications|
    ensures Apply(rows, OutcomeCommand(setting, rows, attempt, outcome, id)).Applied?
    ensures AnswerDecided(setting, outcome, Apply(rows, OutcomeCommand(setting, rows, attempt, outcome, id)).rows)
  {
  }

  /** However it was recorded, an answer leads there, and closes the attempt. */
  lemma AppliedAnswerDecides(setting: Setting, rows: Rows, attempt: Attempt, outcome: EffectOutcome, id: Id)
    requires AwaitsAnswer(rows, attempt)
    requires Apply(rows, OutcomeCommand(setting, rows, attempt, outcome, id)).Applied?
    ensures var after := Apply(rows, OutcomeCommand(setting, rows, attempt, outcome, id)).rows;
      AnswerDecided(setting, outcome, after) && |Current(after).attempts| == |Current(rows).attempts|
  {
  }

  lemma RecordedAnswerDecides(setting: Setting, s: System, id: Id, t: System)
    requires Inv(setting, s) && Takes(setting, s, RecordOutcome(id), t)
    ensures AnswerDecided(setting, s.phase.outcome, t.rows)
  {
  }

  // ---------------------------------------------------------------- retrying without verification

  lemma MayRetryIffDue(setting: Setting, compensation: Compensation, outcome: EffectOutcome, now: int)
    requires |compensation.attempts| > 0
    ensures var attempts := compensation.attempts;
      MayRetryAutomatically(setting, compensation, outcome, attempts[|attempts| - 1].number, now)
      <==> RetryIsDue(setting, attempts, outcome, now)
  {
    SafeIffLicensed(setting.descriptor, Some(outcome), None, now, Some(compensation.attempts[0].startedAt), false);
  }

  /** Recovery of an unknown compensation that cannot be verified. */
  ghost predicate IsUnverifiable(setting: Setting, s: System) {
    && RowsFit(s.rows) && s.phase.Idle? && s.rows.op.state.CompensationUnknown?
    && HasCompensation(s.rows) && |Current(s.rows).attempts| > 0
    && !setting.descriptor.verifiable
  }

  /** It retries only while a retry is due, and escalates only when none is. */
  lemma UnknownIsRetriedOnlyWhenDue(setting: Setting, s: System, id: Id, now: int, t: System)
    requires IsUnverifiable(setting, s)
    ensures var attempts := Current(s.rows).attempts;
      var due := RetryIsDue(setting, attempts, UnknownOutcome(attempts[|attempts| - 1]), now);
      && (Takes(setting, s, RetryUnknown(id, now), t) ==> due)
      && (Takes(setting, s, EscalateUnknown(now), t) ==> !due)
  {
    var attempts := Current(s.rows).attempts;
    MayRetryIffDue(setting, Current(s.rows), UnknownOutcome(attempts[|attempts| - 1]), now);
  }

  /** What escalating leaves behind: the operation in the hands of a person. */
  function Escalated(rows: Rows): Rows {
    rows.(op := rows.op.(state := ManualIntervention, version := rows.op.version + 1))
  }

  /** When no retry is due, escalating is possible, and nothing but the operation moves. */
  lemma UnknownCanBeEscalated(setting: Setting, s: System, now: int)
    requires IsUnverifiable(setting, s)
    requires var attempts := Current(s.rows).attempts;
      !RetryIsDue(setting, attempts, UnknownOutcome(attempts[|attempts| - 1]), now)
    ensures Takes(setting, s, EscalateUnknown(now), s.(rows := Escalated(s.rows)))
  {
    var attempts := Current(s.rows).attempts;
    MayRetryIffDue(setting, Current(s.rows), UnknownOutcome(attempts[|attempts| - 1]), now);
    assert s.rows.compensations[s.rows.op.compensationId.value := Current(s.rows)] == s.rows.compensations;
  }

  /** When a retry is due after a completed attempt, the next one can be claimed. */
  lemma UnknownCanBeRetried(setting: Setting, s: System, id: Id, now: int) returns (t: System)
    requires IsUnverifiable(setting, s) && !AttemptIdUsed(s.rows, id)
    requires var attempts := Current(s.rows).attempts;
      && attempts[|attempts| - 1].state.Completed?
      && RetryIsDue(setting, attempts, attempts[|attempts| - 1].state.outcome, now)
    ensures Takes(setting, s, RetryUnknown(id, now), t) && HasCompensation(t.rows)
    ensures var attempts := Current(s.rows).attempts;
      && t.phase == Claimed(Attempt(id, |attempts| + 1, Started, now))
      && Current(t.rows).attempts == attempts + [Attempt(id, |attempts| + 1, Started, now)]
  {
    var attempts := Current(s.rows).attempts;
    MayRetryIffDue(setting, Current(s.rows), UnknownOutcome(attempts[|attempts| - 1]), now);
    var one := Apply(s.rows, Move(CompensationUnknownRetry, s.rows.op.version, None, None)).rows;
    assert Current(one).attempts == attempts;
    assert !AttemptIdUsed(one, id) by {
      assert one.compensations.Keys == s.rows.compensations.Keys;
    }
    var pair := RetryThenClaim(s.rows, CompensationUnknownRetry, id, now);
    t := s.(rows := pair.rows, phase := Claimed(NextAttempt(Current(s.rows), id, now)));
  }

  /** Under a provider key with a well-formed window, an attempt whose answer was UNKNOWN is
      retried only within the window, which begins with the first attempt and not with the
      latest, and escalated only when it is over or the cap is reached. */
  lemma ProviderKeyIsNotUsedAfterItsWindow(
    setting: Setting, s: System, window: string, id: Id, now: int, t: System)
    requires IsUnverifiable(setting, s)
    requires setting.descriptor.idempotency.ProviderKey?
    requires setting.descriptor.keySemantics == Some(KeySemantics(Some(window))) && IsPositiveDecimal(window)
    requires var attempts := Current(s.rows).attempts;
      attempts[|attempts| - 1].state == Completed(EffectUnknown)
    ensures var attempts := Current(s.rows).attempts;
      var due := && now < attempts[0].startedAt + DecimalValue(window)
                 && |attempts| < ExecutionCap(setting.obligations);
      && (Takes(setting, s, RetryUnknown(id, now), t) ==> due)
      && (Takes(setting, s, EscalateUnknown(now), t) ==> !due)
  {
    UnknownIsRetriedOnlyWhenDue(setting, s, id, now, t);
  }

  /** After NOT_APPLIED a retry is licensed whatever the clock says; only the cap decides. */
  lemma FailureIsRetriedIff(setting: Setting, s: System, id: Id, now: int)
    requires RowsFit(s.rows) && s.phase.Idle? && s.rows.op.state.CompensationFailed?
    requires HasCompensation(s.rows) && !AttemptIdUsed(s.rows, id)
    ensures |Current(s.rows).attempts| > 0
    ensures (exists t :: Takes(setting, s, RetryAfterFailure(id, now), t))
        <==> |Current(s.rows).attempts| < ExecutionCap(setting.obligations)
    ensures RetryThenClaim(s.rows, CompensationFailedRetry, id, now).Both?
  {
    var one := Apply(s.rows, Move(CompensationFailedRetry, s.rows.op.version, None, None)).rows;
    assert Current(one).attempts == Current(s.rows).attempts;
    assert !AttemptIdUsed(one, id) by {
      assert one.compensations.Keys == s.rows.compensations.Keys;
    }
    MayRetryIffDue(setting, Current(s.rows), EffectNotApplied, now);
    var pair := RetryThenClaim(s.rows, CompensationFailedRetry, id, now);
    if |Current(s.rows).attempts| < ExecutionCap(setting.obligations) {
      assert Takes(setting, s, RetryAfterFailure(id, now),
                   s.(rows := pair.rows, phase := Claimed(NextAttempt(Current(s.rows), id, now))));
    }
  }

  // ---------------------------------------------------------------- judging a verification

  /** Which verifications have a durable result. */
  function ResultRows(rows: seq<Verification>): set<nat> {
    set k: nat | k < |rows| && rows[k].result.Some?
  }

  lemma {:induction false} CountIsNumberOfResults(rows: seq<Verification>)
    ensures CompletedCount(rows) == |ResultRows(rows)|
    decreases |rows|
  {
    if |rows| > 0 {
      var last := |rows| - 1;
      CountIsNumberOfResults(rows[..last]);
      assert ResultRows(rows) == ResultRows(rows[..last]) + (if rows[last].result.Some? then {last} else {});
      assert last !in ResultRows(rows[..last]);
    }
  }

  predicate AwaitsVerdict(rows: Rows) {
    rows.op.state.Compensating? && HasCompensation(rows) && Current(rows).state.CompVerifying?
  }

  /** Where a verdict leads. */
  ghost predicate VerdictDecided(setting: Setting, before: Rows, verdict: Verdict, id: Id, now: int, after: Rows)
    requires AwaitsVerdict(before) && |Current(before).attempts| > 0
  {
    var attempts := Current(before).attempts;
    var contradicted := Contradicts(verdict, attempts[|attempts| - 1]);
    var room := |attempts| < ExecutionCap(setting.obligations);
    var closes := Closes(setting.obligations, verdict, |ResultRows(after.verifications)|);
    && HasCompensation(after)
    && (after.op.state.Compensated? <==> verdict.outcome.EffectApplied? && !contradicted)
    && (after.op.state.CompensationFailed? <==> verdict.outcome.EffectNotApplied? && !contradicted && !room)
    && (after.op.state.Compensating? <==> verdict.outcome.EffectNotApplied? && !contradicted && room)
    && (after.op.state.CompensationUnknown? <==> verdict.outcome.EffectUnknown? && !closes)
    && (after.op.state.ManualIntervention? <==> contradicted || (verdict.outcome.EffectUnknown? && closes))
    && (after.op.state.Compensating? ==>
          && Current(after).state.CompExecuting?
          && Current(after).attempts == attempts + [Attempt(id, |attempts| + 1, Started, now)])
  }

  /** The verdict is about the request that is pending. */
  predicate IsAsked(rows: Rows, verdict: Verdict) {
    |rows.verifications| > 0 && verdict.id == rows.verifications[|rows.verifications| - 1].id
  }

  lemma PendingExists(rows: Rows)
    requires RowsFit(rows) && AwaitsVerdict(rows)
    ensures |rows.verifications| > 0
    ensures LastPending(rows.verifications) == Some(|rows.verifications| - 1)
    ensures FindVerification(rows.verifications, rows.verifications[|rows.verifications| - 1].id)
         == |rows.verifications| - 1
  {
  }

  /** Every verdict about the pending request is concluded, by evidence, caps and the number of
      results that are then durable; only a retry may fail, for an identifier that is taken. */
  lemma VerdictIsConcluded(setting: Setting, rows: Rows, verdict: Verdict, id: Id, now: int)
    requires RowsFit(rows) && AwaitsVerdict(rows) && IsAsked(rows, verdict)
    ensures |Current(rows).attempts| > 0
    ensures var command := ConcludeCommand(rows, verdict, VerdictAction(setting, rows, verdict), id, now);
      && command.Some?
      && (!AttemptIdUsed(rows, id) ==> Apply(rows, command.value).Applied?)
      && (Apply(rows, command.value).Applied? ==>
            VerdictDecided(setting, rows, verdict, id, now, Apply(rows, command.value).rows))
  {
    var last := |rows.verifications| - 1;
    FindInDistinct(rows.verifications, last);
    var action := VerdictAction(setting, rows, verdict);
    var latest := LatestAttempt(Current(rows)).value;
    CountAfterCompletion(rows.verifications, verdict);
    CountIsNumberOfResults(CompleteVerification(rows.verifications, verdict));
    DecisionsAreEvidenced(verdict, Some(latest), setting.descriptor, setting.obligations,
                          CountWith(rows.verifications, verdict));
    ConclusionIsApplied(setting, rows, verdict, action, id, now);
  }

  lemma ConclusionIsApplied(setting: Setting, rows: Rows, verdict: Verdict, action: Action, id: Id, now: int)
    requires RowsFit(rows) && AwaitsVerdict(rows) && IsAsked(rows, verdict)
    requires action == VerdictAction(setting, rows, verdict)
    ensures var command := ConcludeCommand(rows, verdict, action, id, now);
      && command.Some?
      && (!AttemptIdUsed(rows, id) ==> Apply(rows, command.value).Applied?)
      && (Apply(rows, command.value).Applied? ==>
            Apply(rows, command.value).rows.verifications == CompleteVerification(rows.verifications, verdict))
  {
    FindInDistinct(rows.verifications, |rows.verifications| - 1);
    DecisionsAreEvidenced(verdict, LatestAttempt(Current(rows)), setting.descriptor, setting.obligations,
                          CountWith(rows.verifications, verdict));
  }
}
