/** Every step of the protocol keeps the invariant. */
module CompensationSteps {
  import opened Lifecycle
  import opened RetrySafety
  import opened Reconciliation
  import opened Transitions
  import opened TransitionLaws
  import opened CompensationProtocol
  import opened CompensationInvariant
  import opened CompensationRows

  /** Nothing recorded is lost between two systems. */
  ghost predicate Grown(s: System, t: System) {
    && HistoryGrows(s.rows, t.rows)
    && s.answers <= t.answers
    && s.verdicts <= t.verdicts
  }

  lemma EvidencedGrows(s: System, t: System, id: Id, outcome: EffectOutcome)
    requires Grown(s, t) && Evidenced(s, id, outcome)
    ensures Evidenced(t, id, outcome)
  {
    if AnsweredWith(s.answers, id, outcome) {
      AnsweredWithGrows(s.answers, t.answers[|s.answers|..], id, outcome);
      assert t.answers == s.answers + t.answers[|s.answers|..];
    } else {
      JudgedAsGrows(s.rows.verifications, t.rows.verifications, id, outcome);
    }
  }

  /** The log still fits when the driver made no call. */
  lemma CallsCarry(s: System, t: System)
    requires CallsFit(s) && t.answers == s.answers
    requires LockStep(t.rows) && HistoryGrows(s.rows, t.rows)
    ensures CallsFit(t)
  {
    forall i | 0 <= i < |t.answers| ensures CallIsDurable(t, t.answers[i]) {
      assert CallIsDurable(s, s.answers[i]);
    }
  }

  /** The evidence still fits when each newly closed attempt, each new result and each
      terminal state brings its own. */
  lemma EvidenceCarries(setting: Setting, s: System, t: System)
    requires EvidenceFits(setting, s) && Grown(s, t) && HasCompensation(s.rows) && HasCompensation(t.rows)
    requires forall k :: 0 <= k < |t.rows.verifications| && t.rows.verifications[k].result.Some?
                && !(k < |s.rows.verifications| && s.rows.verifications[k].result.Some?)
                ==> t.rows.verifications[k].result.value in t.verdicts
    requires forall k :: 0 <= k < |Current(t.rows).attempts| && Current(t.rows).attempts[k].state.Completed?
                && !(k < |Current(s.rows).attempts| && Current(s.rows).attempts[k].state.Completed?)
                ==> Evidenced(t, Current(t.rows).attempts[k].id, Current(t.rows).attempts[k].state.outcome)
    requires Current(t.rows).state.CompSucceeded? ==> SuccessIsProved(setting, t)
    requires Current(t.rows).state.CompFailed? ==> FailureIsProved(t)
    ensures EvidenceFits(setting, t)
  {
    forall k | 0 <= k < |t.rows.verifications| && t.rows.verifications[k].result.Some?
      ensures t.rows.verifications[k].result.value in t.verdicts
    {
      if k < |s.rows.verifications| && s.rows.verifications[k].result.Some? {
        assert t.rows.verifications[k].result == s.rows.verifications[k].result;
      }
    }
    forall k | 0 <= k < |Current(t.rows).attempts| && Current(t.rows).attempts[k].state.Completed?
      ensures Evidenced(t, Current(t.rows).attempts[k].id, Current(t.rows).attempts[k].state.outcome)
    {
      if k < |Current(s.rows).attempts| && Current(s.rows).attempts[k].state.Completed? {
        assert Current(t.rows).attempts[k].state == Current(s.rows).attempts[k].state;
        EvidencedGrows(s, t, Current(s.rows).attempts[k].id, Current(s.rows).attempts[k].state.outcome);
      }
    }
  }

  /** A change that closes no attempt and adds no result keeps the evidence. */
  lemma EvidenceUnchanged(setting: Setting, s: System, t: System)
    requires EvidenceFits(setting, s) && Grown(s, t) && HasCompensation(s.rows) && HasCompensation(t.rows)
    requires forall k :: 0 <= k < |t.rows.verifications| && t.rows.verifications[k].result.Some?
                ==> k < |s.rows.verifications| && s.rows.verifications[k].result.Some?
    requires forall k :: 0 <= k < |Current(t.rows).attempts| && Current(t.rows).attempts[k].state.Completed?
                ==> k < |Current(s.rows).attempts| && Current(s.rows).attempts[k].state.Completed?
    requires !Current(t.rows).state.CompSucceeded? && !Current(t.rows).state.CompFailed?
    ensures EvidenceFits(setting, t)
  {
    EvidenceCarries(setting, s, t);
  }

  lemma StartKeepsInv(setting: Setting, s: System, id: Id, t: System)
    requires Inv(setting, s) && Takes(setting, s, Start(id), t)
    ensures Inv(setting, t)
  {
    StartRows(s.rows, id);
  }

  lemma ClaimKeepsInv(setting: Setting, s: System, id: Id, now: int, t: System)
    requires Inv(setting, s) && Takes(setting, s, Claim(id, now), t)
    ensures Inv(setting, t)
  {
    var command := ClaimCommand(s.rows, id, now);
    ClaimRows(s.rows, id, now);
    ApplyKeepsHistory(s.rows, command);
    CallsCarry(s, t);
    EvidenceUnchanged(setting, s, t);
    FreshIsUncalled(s, id);
  }

  /** An id that no attempt uses has never been called. */
  lemma FreshIsUncalled(s: System, id: Id)
    requires CallsFit(s) && HasCompensation(s.rows)
    requires !AttemptIdUsed(s.rows, id)
    ensures forall i :: 0 <= i < |s.answers| ==> s.answers[i].attempt != id
  {
    forall i | 0 <= i < |s.answers| ensures s.answers[i].attempt != id {
      assert CallIsDurable(s, s.answers[i]);
      UnusedIdIsNew(s.rows, id, s.answers[i].number - 1);
    }
  }

  lemma CallKeepsInv(setting: Setting, s: System, outcome: EffectOutcome, t: System)
    requires Inv(setting, s) && Takes(setting, s, CallProvider(outcome), t)
    ensures Inv(setting, t)
  {
    var attempt := s.phase.attempt;
    forall i | 0 <= i < |t.answers| ensures CallIsDurable(t, t.answers[i]) {
      if i < |s.answers| {
        assert CallIsDurable(s, s.answers[i]);
      } else {
        assert t.answers[i] == Answer(attempt.id, attempt.number, outcome);
      }
    }
    if Current(t.rows).state.CompSucceeded? || Current(t.rows).state.CompFailed? {
      assert false;
    }
    EvidenceUnchanged(setting, s, t);
  }

  /** What recording a provider answer does to the rows, whatever the answer. */
  lemma RecordEffect(setting: Setting, s: System, id: Id, t: System)
    requires Inv(setting, s) && Takes(setting, s, RecordOutcome(id), t)
    ensures HistoryGrows(s.rows, t.rows) && RowsFit(t.rows) && HasCompensation(t.rows)
    ensures CompletedCount(t.rows.verifications) == CompletedCount(s.rows.verifications)
    ensures forall k :: 0 <= k < |t.rows.verifications| && t.rows.verifications[k].result.Some?
                ==> k < |s.rows.verifications| && s.rows.verifications[k].result.Some?
    ensures var before := Current(s.rows).attempts;
      Current(t.rows).attempts
      == before[|before| - 1 := s.phase.attempt.(state := Completed(s.phase.outcome))]
    ensures (Current(t.rows).state.CompSucceeded? <==> DecideCompensate(s.phase.outcome, setting).RecordApplied?)
    ensures (Current(t.rows).state.CompFailed? <==> DecideCompensate(s.phase.outcome, setting).RecordFailed?)
  {
    OutcomeEffect(setting, s.rows, s.phase.attempt, s.phase.outcome, id);
  }

  /** What recording an answer leaves behind. */
  ghost predicate Recorded(setting: Setting, rows: Rows, attempt: Attempt, outcome: EffectOutcome, after: Rows)
    requires HasCompensation(rows) && |Current(rows).attempts| > 0
  {
    var before := Current(rows).attempts;
    && HistoryGrows(rows, after) && RowsFit(after) && HasCompensation(after)
    && CompletedCount(after.verifications) == CompletedCount(rows.verifications)
    && (forall k :: 0 <= k < |after.verifications| && after.verifications[k].result.Some?
          ==> k < |rows.verifications| && rows.verifications[k].result.Some?)
    && Current(after).attempts == before[|before| - 1 := attempt.(state := Completed(outcome))]
    && (Current(after).state.CompSucceeded? <==> DecideCompensate(outcome, setting).RecordApplied?)
    && (Current(after).state.CompFailed? <==> DecideCompensate(outcome, setting).RecordFailed?)
  }

  lemma OutcomeEffect(setting: Setting, rows: Rows, attempt: Attempt, outcome: EffectOutcome, id: Id)
    requires RowsFit(rows) && HasCompensation(rows) && Current(rows).state.CompExecuting?
    requires attempt.state.Started? && LatestAttempt(Current(rows)) == Some(attempt)
    requires Apply(rows, OutcomeCommand(setting, rows, attempt, outcome, id)).Applied?
    ensures Recorded(setting, rows, attempt, outcome,
                     Apply(rows, OutcomeCommand(setting, rows, attempt, outcome, id)).rows)
  {
    if DecideCompensate(outcome, setting).RequireVerification? {
      RequiredVerificationEffect(setting, rows, attempt, outcome, id);
    } else {
      DecidedOutcomeEffect(setting, rows, attempt, outcome, id);
    }
  }

  lemma RequiredVerificationEffect(setting: Setting, rows: Rows, attempt: Attempt, outcome: EffectOutcome, id: Id)
    requires RowsFit(rows) && HasCompensation(rows) && Current(rows).state.CompExecuting?
    requires attempt.state.Started? && LatestAttempt(Current(rows)) == Some(attempt)
    requires DecideCompensate(outcome, setting).RequireVerification?
    requires Apply(rows, OutcomeCommand(setting, rows, attempt, outcome, id)).Applied?
    ensures Recorded(setting, rows, attempt, outcome,
                     Apply(rows, OutcomeCommand(setting, rows, attempt, outcome, id)).rows)
  {
    var command := OutcomeCommand(setting, rows, attempt, outcome, id);
    VerificationStartKeepsHistory(rows, command);
    StartVerificationRows(rows, attempt.(state := Completed(outcome)), id);
    CountOfRequest(rows.verifications, command.request.(result := None));
  }

  lemma DecidedOutcomeEffect(setting: Setting, rows: Rows, attempt: Attempt, outcome: EffectOutcome, id: Id)
    requires RowsFit(rows) && HasCompensation(rows) && Current(rows).state.CompExecuting?
    requires attempt.state.Started? && LatestAttempt(Current(rows)) == Some(attempt)
    requires !DecideCompensate(outcome, setting).RequireVerification?
    requires Apply(rows, OutcomeCommand(setting, rows, attempt, outcome, id)).Applied?
    ensures Recorded(setting, rows, attempt, outcome,
                     Apply(rows, OutcomeCommand(setting, rows, attempt, outcome, id)).rows)
  {
    var command := OutcomeCommand(setting, rows, attempt, outcome, id);
    MoveKeepsHistory(rows, command.kind, command.expected, command.completed, command.judged);
    OutcomeRows(rows, command.kind, command.completed);
  }

  lemma RecordKeepsInv(setting: Setting, s: System, id: Id, t: System)
    requires Inv(setting, s) && Takes(setting, s, RecordOutcome(id), t)
    ensures Inv(setting, t)
  {
    var attempt, outcome := s.phase.attempt, s.phase.outcome;
    RecordEffect(setting, s, id, t);
    CallsCarry(s, t);
    assert AnsweredWith(t.answers, attempt.id, outcome) by {
      assert t.answers[|t.answers| - 1] == Answer(attempt.id, attempt.number, outcome);
    }
    assert LatestAttempt(Current(t.rows)) == Some(attempt.(state := Completed(outcome)));
    EvidenceCarries(setting, s, t);
  }

  lemma RetryThenClaimHistory(s: System, kind: Kind, id: Id, now: int)
    requires RowsFit(s.rows) && CallsFit(s) && HasCompensation(s.rows)
    requires kind.CompensationUnknownRetry? || kind.CompensationFailedRetry?
    ensures var pair := RetryThenClaim(s.rows, kind, id, now);
      && (pair.Both? ==>
            && HistoryGrows(s.rows, pair.rows)
            && LockStep(pair.rows)
            && pair.rows.verifications == s.rows.verifications
            && Current(pair.rows).state.CompExecuting?
            && Current(pair.rows).attempts
               == Current(s.rows).attempts + [NextAttempt(Current(s.rows), id, now)]
            && (forall i :: 0 <= i < |s.answers| ==> s.answers[i].attempt != id))
      && (pair.FirstOnly? ==>
            && HistoryGrows(s.rows, pair.first)
            && LockStep(pair.first)
            && pair.first.verifications == s.rows.verifications
            && Current(pair.first).state.CompExecuting?
            && Current(pair.first).attempts == Current(s.rows).attempts)
  {
    var pair := RetryThenClaim(s.rows, kind, id, now);
    var one := Apply(s.rows, Move(kind, s.rows.op.version, None, None));
    if one.Applied? {
      ApplyKeepsHistory(s.rows, Move(kind, s.rows.op.version, None, None));
      ApplyKeepsLockStep(s.rows, Move(kind, s.rows.op.version, None, None));
      if pair.Both? {
        assert !AttemptIdUsed(one.rows, id);
        assert Current(one.rows).attempts == Current(s.rows).attempts;
        forall i | 0 <= i < |s.answers| ensures s.answers[i].attempt != id {
          assert CallIsDurable(s, s.answers[i]);
          UnusedIdIsNew(one.rows, id, s.answers[i].number - 1);
        }
      }
    }
  }

  lemma RetryKeepsInv(setting: Setting, s: System, kind: Kind, id: Id, now: int, t: System)
    requires Inv(setting, s) && s.phase.Idle? && HasCompensation(s.rows)
    requires kind.CompensationUnknownRetry? || kind.CompensationFailedRetry?
    requires var pair := RetryThenClaim(s.rows, kind, id, now);
      && pair.Both?
      && t.rows == pair.rows
      && t.phase == Claimed(NextAttempt(Current(s.rows), id, now))
      && t.answers == s.answers && t.verdicts == s.verdicts && t.inconclusive == s.inconclusive
    requires |Current(s.rows).attempts| < ExecutionCap(setting.obligations) + t.operatorRetries
    ensures Inv(setting, t)
  {
    RetryThenClaimRows(s.rows, kind, id, now);
    RetryThenClaimHistory(s, kind, id, now);
    CallsCarry(s, t);
    EvidenceUnchanged(setting, s, t);
  }

  lemma HalfRetryKeepsInv(setting: Setting, s: System, id: Id, now: int, t: System)
    requires Inv(setting, s) && s.phase.Idle? && HasCompensation(s.rows)
    requires var pair := RetryThenClaim(s.rows, CompensationUnknownRetry, id, now);
      pair.FirstOnly? && t == s.(rows := pair.first)
    ensures Inv(setting, t)
  {
    RetryThenClaimRows(s.rows, CompensationUnknownRetry, id, now);
    RetryThenClaimHistory(s, CompensationUnknownRetry, id, now);
    CallsCarry(s, t);
    EvidenceUnchanged(setting, s, t);
  }

  lemma AbandonKeepsInv(setting: Setting, s: System, t: System)
    requires Inv(setting, s) && Takes(setting, s, AbandonLeftover, t)
    ensures Inv(setting, t)
  {
    var command := Move(CompensationOutcomeUnknown, s.rows.op.version, None, None);
    ApplyKeepsHistory(s.rows, command);
    OutcomeRows(s.rows, CompensationOutcomeUnknown, None);
    CallsCarry(s, t);
    EvidenceUnchanged(setting, s, t);
  }

  lemma ResumeEffect(s: System, id: Id, target: Id)
    requires RowsFit(s.rows) && HasCompensation(s.rows)
    requires RetryThenVerify(s.rows, target, id).Both?
    ensures var after := RetryThenVerify(s.rows, target, id).rows;
      && HistoryGrows(s.rows, after)
      && LockStep(after)
      && after.verifications
         == s.rows.verifications + [Verification(id, s.rows.op.version + 1, target, None)]
      && Current(after).attempts == Current(s.rows).attempts
      && Current(after).state.CompVerifying?
  {
    var command := Move(CompensationUnknownRetry, s.rows.op.version, None, None);
    ApplyKeepsHistory(s.rows, command);
    ApplyKeepsLockStep(s.rows, command);
  }

  lemma ResumeKeepsInv(setting: Setting, s: System, id: Id, t: System)
    requires Inv(setting, s) && Takes(setting, s, ResumeVerification(id), t)
    ensures Inv(setting, t)
  {
    var target := LatestAttempt(Current(s.rows)).value.id;
    RetryThenVerifyRows(s.rows, target, id);
    ResumeEffect(s, id, target);
    CountOfRequest(s.rows.verifications, Verification(id, s.rows.op.version + 1, target, None));
    CallsCarry(s, t);
    EvidenceUnchanged(setting, s, t);
  }

  lemma EscalateKeepsInv(setting: Setting, s: System, now: int, t: System)
    requires Inv(setting, s) && Takes(setting, s, EscalateUnknown(now), t)
    ensures Inv(setting, t)
  {
    EscalateRows(s.rows);
    var id := s.rows.op.compensationId.value;
    assert s.rows.compensations[id := s.rows.compensations[id]] == s.rows.compensations;
    OnlyOperationMoved(setting, s, t);
  }

  /** A commit that writes nothing but the operation's state and version. */
  lemma OnlyOperationMoved(setting: Setting, s: System, t: System)
    requires Inv(setting, s) && RowsFit(t.rows)
    requires t == s.(rows := s.rows.(op := t.rows.op))
    requires t.rows.op.compensationId == s.rows.op.compensationId && s.rows.op.version <= t.rows.op.version
    ensures Inv(setting, t)
  {
    CallsCarry(s, t);
  }

  lemma AskKeepsInv(setting: Setting, s: System, row: nat, verdict: Verdict, t: System)
    requires Inv(setting, s) && Takes(setting, s, AskVerifier(row, verdict), t)
    ensures Inv(setting, t)
  {
    FindInDistinct(s.rows.verifications, row);
    CallsCarry(s, t);
    if HasCompensation(s.rows) {
      forall k | 0 <= k < |Current(t.rows).attempts| && Current(t.rows).attempts[k].state.Completed?
        ensures Evidenced(t, Current(t.rows).attempts[k].id, Current(t.rows).attempts[k].state.outcome)
      {
        EvidencedGrows(s, t, Current(s.rows).attempts[k].id, Current(s.rows).attempts[k].state.outcome);
      }
    }
  }

  lemma OtherKeepsInv(setting: Setting, s: System, to: OperationState, t: System)
    requires Inv(setting, s) && Takes(setting, s, OtherCommand(to), t)
    ensures Inv(setting, t)
  {
    ForeignRows(s.rows, to);
    OnlyOperationMoved(setting, s, t);
  }

  /** What a concluding commit does to the rows, whatever the decision. */
  lemma ConcludeEffect(setting: Setting, s: System, id: Id, now: int, t: System)
    requires Inv(setting, s) && Takes(setting, s, Conclude(id, now), t)
    ensures HistoryGrows(s.rows, t.rows) && RowsFit(t.rows) && HasCompensation(t.rows)
    ensures t.rows.verifications == CompleteVerification(s.rows.verifications, s.phase.verdict)
    ensures var last := |s.rows.verifications| - 1;
      && last >= 0
      && t.rows.verifications
         == s.rows.verifications[last := s.rows.verifications[last].(result := Some(s.phase.verdict))]
      && LatestAttempt(Current(s.rows)).Some?
      && s.rows.verifications[last].targetAttempt == LatestAttempt(Current(s.rows)).value.id
  {
    ConclusionRows(s.rows, s.phase.verdict, VerdictAction(setting, s.rows, s.phase.verdict), id, now);
  }

  lemma ConclusionRows(rows: Rows, verdict: Verdict, action: Action, id: Id, now: int)
    requires RowsFit(rows) && HasCompensation(rows)
    requires rows.op.state.Compensating? && Current(rows).state.CompVerifying?
    requires FindVerification(rows.verifications, verdict.id) < |rows.verifications|
    requires rows.verifications[FindVerification(rows.verifications, verdict.id)].result.None?
    requires ConcludeCommand(rows, verdict, action, id, now).Some?
    requires Apply(rows, ConcludeCommand(rows, verdict, action, id, now).value).Applied?
    ensures var after := Apply(rows, ConcludeCommand(rows, verdict, action, id, now).value).rows;
      var last := |rows.verifications| - 1;
      && HistoryGrows(rows, after) && RowsFit(after) && HasCompensation(after)
      && last >= 0
      && after.verifications == CompleteVerification(rows.verifications, verdict)
      && after.verifications == rows.verifications[last := rows.verifications[last].(result := Some(verdict))]
      && LatestAttempt(Current(rows)).Some?
      && rows.verifications[last].targetAttempt == LatestAttempt(Current(rows)).value.id
  {
    var command := ConcludeCommand(rows, verdict, action, id, now).value;
    ApplyKeepsHistory(rows, command);
    PendingIsLast(rows, verdict);
    match action
    case RetrySafely => RetryAfterVerdictRows(rows, verdict, id, now);
    case _ => VerdictRows(rows, command.kind, command.completed, verdict);
  }

  lemma ConclusionAttempts(rows: Rows, verdict: Verdict, action: Action, id: Id, now: int)
    requires RowsFit(rows) && HasCompensation(rows)
    requires rows.op.state.Compensating? && Current(rows).state.CompVerifying?
    requires ConcludeCommand(rows, verdict, action, id, now).Some?
    requires Apply(rows, ConcludeCommand(rows, verdict, action, id, now).value).Applied?
    ensures var after := Apply(rows, ConcludeCommand(rows, verdict, action, id, now).value).rows;
      && HasCompensation(after) && LatestAttempt(Current(rows)).Some?
      && var attempts, latest := Current(rows).attempts, LatestAttempt(Current(rows)).value;
         match action
         case RetrySafely => Current(after).attempts == attempts + [NextAttempt(Current(rows), id, now)]
         case MarkSucceeded =>
           Current(after).attempts == attempts[|attempts| - 1 := CompletedByVerdict(latest, verdict)]
         case MarkFailed =>
           Current(after).attempts == attempts[|attempts| - 1 := CompletedByVerdict(latest, verdict)]
         case _ => Current(after).attempts == attempts
  {
  }

  lemma ConcludeAttempts(setting: Setting, s: System, id: Id, now: int, t: System)
    requires Inv(setting, s) && Takes(setting, s, Conclude(id, now), t)
    ensures HasCompensation(t.rows) && LatestAttempt(Current(s.rows)).Some?
    ensures var verdict := s.phase.verdict;
      var latest := LatestAttempt(Current(s.rows)).value;
      var before, after := Current(s.rows).attempts, Current(t.rows).attempts;
      match VerdictAction(setting, s.rows, verdict)
      case RetrySafely => after == before + [NextAttempt(Current(s.rows), id, now)]
      case MarkSucceeded => after == before[|before| - 1 := CompletedByVerdict(latest, verdict)]
      case MarkFailed => after == before[|before| - 1 := CompletedByVerdict(latest, verdict)]
      case _ => after == before
  {
    ConclusionAttempts(s.rows, s.phase.verdict, VerdictAction(setting, s.rows, s.phase.verdict), id, now);
  }

  lemma ConcludeState(setting: Setting, s: System, id: Id, now: int, t: System)
    requires Inv(setting, s) && Takes(setting, s, Conclude(id, now), t)
    ensures HasCompensation(t.rows)
    ensures var action := VerdictAction(setting, s.rows, s.phase.verdict);
      && (action.RetrySafely? <==> Current(t.rows).state.CompExecuting?)
      && (action.MarkSucceeded? <==> Current(t.rows).state.CompSucceeded?)
      && (action.MarkFailed? <==> Current(t.rows).state.CompFailed?)
      && (action.RetrySafely? ==> !AttemptIdUsed(s.rows, id))
  {
  }

  lemma ConcludeEvidence(setting: Setting, s: System, id: Id, now: int, t: System)
    requires Inv(setting, s) && Takes(setting, s, Conclude(id, now), t)
    ensures EvidenceFits(setting, t)
  {
    var verdict := s.phase.verdict;
    var latest := LatestAttempt(Current(s.rows)).value;
    var action := VerdictAction(setting, s.rows, verdict);
    ConcludeEffect(setting, s, id, now, t);
    ConcludeAttempts(setting, s, id, now, t);
    ConcludeState(setting, s, id, now, t);
    DecisionsAreEvidenced(
      verdict, Some(latest), setting.descriptor, setting.obligations,
      CountWith(s.rows.verifications, verdict));
    assert JudgedAs(t.rows.verifications, latest.id, verdict.outcome) by {
      var last := |t.rows.verifications| - 1;
      assert t.rows.verifications[last].targetAttempt == latest.id
          && t.rows.verifications[last].result == Some(verdict);
    }
    EvidenceCarries(setting, s, t);
  }

  lemma ConcludeKeepsInv(setting: Setting, s: System, id: Id, now: int, t: System)
    requires Inv(setting, s) && Takes(setting, s, Conclude(id, now), t)
    ensures Inv(setting, t)
  {
    var verdict := s.phase.verdict;
    ConcludeEffect(setting, s, id, now, t);
    ConcludeAttempts(setting, s, id, now, t);
    ConcludeState(setting, s, id, now, t);
    ConcludeEvidence(setting, s, id, now, t);
    CallsCarry(s, t);
    CountAfterCompletion(s.rows.verifications, verdict);
    DecisionsAreEvidenced(
      verdict, LatestAttempt(Current(s.rows)), setting.descriptor, setting.obligations,
      CountWith(s.rows.verifications, verdict));
    if VerdictAction(setting, s.rows, verdict).RetrySafely? {
      FreshIsUncalled(s, id);
    }
  }

  lemma StepKeepsInv(setting: Setting, s: System, step: Step, t: System)
    requires Inv(setting, s) && Takes(setting, s, step, t)
    ensures Inv(setting, t)
  {
    match step
    case Start(id) => StartKeepsInv(setting, s, id, t);
    case Claim(id, now) => ClaimKeepsInv(setting, s, id, now, t);
    case CallProvider(outcome) => CallKeepsInv(setting, s, outcome, t);
    case RecordOutcome(id) => RecordKeepsInv(setting, s, id, t);
    case RetryAfterFailure(id, now) => RetryKeepsInv(setting, s, CompensationFailedRetry, id, now, t);
    case OperatorRetry(id, now) => RetryKeepsInv(setting, s, CompensationFailedRetry, id, now, t);
    case AbandonLeftover => AbandonKeepsInv(setting, s, t);
    case RetryUnknown(id, now) =>
      if RetryThenClaim(s.rows, CompensationUnknownRetry, id, now).Both? {
        RetryKeepsInv(setting, s, CompensationUnknownRetry, id, now, t);
      } else {
        HalfRetryKeepsInv(setting, s, id, now, t);
      }
    case ResumeVerification(id) => ResumeKeepsInv(setting, s, id, t);
    case EscalateUnknown(now) => EscalateKeepsInv(setting, s, now, t);
    case AskVerifier(row, verdict) => AskKeepsInv(setting, s, row, verdict, t);
    case Conclude(id, now) => ConcludeKeepsInv(setting, s, id, now, t);
    case OtherCommand(to) => OtherKeepsInv(setting, s, to, t);
    case Crash =>
      CallsCarry(s, t);
  }
}
