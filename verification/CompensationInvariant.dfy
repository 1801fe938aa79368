/** The inductive invariant of the compensation protocol and its preservation, step by step. */
module CompensationInvariant {
  import opened Lifecycle
  import opened RetrySafety
  import opened Reconciliation
  import opened Transitions
  import opened TransitionLaws
  import opened CompensationProtocol

  // ---------------------------------------------------------------- evidence

  ghost predicate AnsweredWith(answers: seq<Answer>, id: Id, outcome: EffectOutcome) {
    exists i :: 0 <= i < |answers| && answers[i].attempt == id && answers[i].outcome == outcome
  }

  ghost predicate JudgedAs(rows: seq<Verification>, id: Id, outcome: EffectOutcome) {
    exists i :: 0 <= i < |rows| && rows[i].targetAttempt == id
      && rows[i].result.Some? && rows[i].result.value.outcome == outcome
  }

  ghost predicate Evidenced(s: System, id: Id, outcome: EffectOutcome) {
    AnsweredWith(s.answers, id, outcome) || JudgedAs(s.rows.verifications, id, outcome)
  }

  lemma AnsweredWithGrows(answers: seq<Answer>, more: seq<Answer>, id: Id, outcome: EffectOutcome)
    requires AnsweredWith(answers, id, outcome)
    ensures AnsweredWith(answers + more, id, outcome)
  {
    var i :| 0 <= i < |answers| && answers[i].attempt == id && answers[i].outcome == outcome;
    assert (answers + more)[i] == answers[i];
  }

  lemma JudgedAsGrows(before: seq<Verification>, after: seq<Verification>, id: Id, outcome: EffectOutcome)
    requires VerificationsGrow(before, after)
    requires JudgedAs(before, id, outcome)
    ensures JudgedAs(after, id, outcome)
  {
    var i :| 0 <= i < |before| && before[i].targetAttempt == id
      && before[i].result.Some? && before[i].result.value.outcome == outcome;
    assert after[i].targetAttempt == id && after[i].result == before[i].result;
  }

  // ---------------------------------------------------------------- the invariant

  ghost predicate VerificationsDistinct(rows: seq<Verification>) {
    forall j, k :: 0 <= j < k < |rows| ==> rows[j].id != rows[k].id
  }

  /** A compensation record's state says whether its latest attempt is open. */
  ghost predicate StateFitsAttempts(compensation: Compensation) {
    && (compensation.state.CompPending? <==> compensation.attempts == [])
    && (compensation.state.CompExecuting? ==> LatestAttempt(compensation).value.state.Started?)
    && (compensation.state.CompSucceeded? || compensation.state.CompFailed?
        ==> LatestAttempt(compensation).value.state.Completed?)
  }

  /** Inside the family a verification is pending exactly in VERIFYING: the last row, about
      the latest attempt, at the operation's present version. */
  ghost predicate PendingFits(rows: Rows, compensation: Compensation) {
    var v := rows.verifications;
    && (forall k :: 0 <= k < |v| && v[k].result.None? ==> k == |v| - 1 && compensation.state.CompVerifying?)
    && (compensation.state.CompVerifying? ==>
          && |v| > 0
          && v[|v| - 1].result.None?
          && v[|v| - 1].operationVersion == rows.op.version
          && LatestAttempt(compensation).Some?
          && v[|v| - 1].targetAttempt == LatestAttempt(compensation).value.id)
  }

  ghost predicate RowsFit(rows: Rows) {
    && LockStep(rows)
    && VerificationsDistinct(rows.verifications)
    && (rows.op.compensationId.None? ==> rows.verifications == [])
    && (rows.op.compensationId.Some? ==>
          && AttemptsNumbered(Current(rows).attempts)
          && StateFitsAttempts(Current(rows))
          && (InCompensationFamily(rows.op.state) ==> PendingFits(rows, Current(rows))))
  }

  /** Every call was made for a durable attempt, and no attempt was called twice. */
  ghost predicate CallsFit(s: System) {
    && (forall i, j :: 0 <= i < j < |s.answers| ==> s.answers[i].attempt != s.answers[j].attempt)
    && (s.answers != [] ==> HasCompensation(s.rows))
    && (forall i :: 0 <= i < |s.answers| ==> CallIsDurable(s, s.answers[i]))
  }

  ghost predicate CallIsDurable(s: System, answer: Answer) {
    && HasCompensation(s.rows)
    && 1 <= answer.number <= |Current(s.rows).attempts|
    && Current(s.rows).attempts[answer.number - 1].id == answer.attempt
  }

  ghost predicate PhaseFits(s: System) {
    match s.phase
    case Idle => true
    case Claimed(attempt) =>
      && attempt.state.Started?
      && HasCompensation(s.rows)
      && Current(s.rows).state.CompExecuting?
      && LatestAttempt(Current(s.rows)) == Some(attempt)
      && (forall i :: 0 <= i < |s.answers| ==> s.answers[i].attempt != attempt.id)
    case Answered(attempt, outcome) =>
      && attempt.state.Started?
      && HasCompensation(s.rows)
      && Current(s.rows).state.CompExecuting?
      && LatestAttempt(Current(s.rows)) == Some(attempt)
      && |s.answers| > 0
      && s.answers[|s.answers| - 1] == Answer(attempt.id, attempt.number, outcome)
    case Judged(verdict) =>
      && verdict in s.verdicts
      && var i := FindVerification(s.rows.verifications, verdict.id);
      && i < |s.rows.verifications|
      && s.rows.verifications[i].result.None?
  }

  /** Durable evidence comes from the provider; a terminal state rests on evidence about the
      latest attempt that the attempt itself does not contradict. */
  ghost predicate EvidenceFits(setting: Setting, s: System) {
    && (forall k :: 0 <= k < |s.rows.verifications| && s.rows.verifications[k].result.Some?
          ==> s.rows.verifications[k].result.value in s.verdicts)
    && (HasCompensation(s.rows) ==>
          && (forall k :: 0 <= k < |Current(s.rows).attempts| && Current(s.rows).attempts[k].state.Completed?
                ==> Evidenced(s, Current(s.rows).attempts[k].id, Current(s.rows).attempts[k].state.outcome))
          && (Current(s.rows).state.CompSucceeded? ==> SuccessIsProved(setting, s))
          && (Current(s.rows).state.CompFailed? ==> FailureIsProved(s)))
  }

  ghost predicate SuccessIsProved(setting: Setting, s: System)
    requires HasCompensation(s.rows)
  {
    var latest := LatestAttempt(Current(s.rows));
    && latest.Some?
    && latest.value.state != Completed(EffectNotApplied)
    && (|| (ResponseStandsAlone(setting) && AnsweredWith(s.answers, latest.value.id, EffectApplied))
        || JudgedAs(s.rows.verifications, latest.value.id, EffectApplied))
  }

  ghost predicate FailureIsProved(s: System)
    requires HasCompensation(s.rows)
  {
    var latest := LatestAttempt(Current(s.rows));
    && latest.Some?
    && latest.value.state != Completed(EffectApplied)
    && Evidenced(s, latest.value.id, EffectNotApplied)
  }

  ghost predicate BudgetsFit(setting: Setting, s: System) {
    && (HasCompensation(s.rows) ==>
          |Current(s.rows).attempts| <= ExecutionCap(setting.obligations) + s.operatorRetries)
    && s.inconclusive <= CompletedCount(s.rows.verifications)
    && s.inconclusive <= RecoveryCap(setting.obligations) - 1
  }

  ghost predicate Inv(setting: Setting, s: System) {
    && RowsFit(s.rows)
    && CallsFit(s)
    && PhaseFits(s)
    && EvidenceFits(setting, s)
    && BudgetsFit(setting, s)
  }
}
