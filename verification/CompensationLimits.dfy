/** Where the protocol falls short of its promise, and exactly when. */
module CompensationLimits {
  import opened Lifecycle
  import opened Reconciliation
  import opened Transitions
  import opened CompensationProtocol
  import opened CompensationInvariant
  import opened CompensationSteps
  import opened CompensationTheorems

  // ------------------------------------------------- recovery without verification

  /** What recovering COMPENSATION_UNKNOWN is for when the effect cannot be verified: a new
      attempt is claimed, or the operation goes to a person. */
  ghost predicate Resolves(setting: Setting, rows: Rows, id: Id, now: int)
    requires HasCompensation(rows) && LatestAttempt(Current(rows)).Some?
  {
    var latest := LatestAttempt(Current(rows)).value;
    if MayRetryAutomatically(setting, Current(rows), UnknownOutcome(latest), latest.number, now)
    then RetryThenClaim(rows, CompensationUnknownRetry, id, now).Both?
    else Apply(rows, Move(CompensationUnknownEscalate, rows.op.version, None, None)).Applied?
  }

  /** The claim demands a completed predecessor, so a leftover that may be retried is neither
      retried nor escalated: the parent's half of the unit of work is committed alone. */
  lemma RecoveryResolvesIff(setting: Setting, rows: Rows, id: Id, now: int)
    requires RowsFit(rows) && rows.op.state.CompensationUnknown?
    requires !AttemptIdUsed(rows, id)
    ensures LatestAttempt(Current(rows)).Some?
    ensures var latest := LatestAttempt(Current(rows)).value;
      var retry := MayRetryAutomatically(setting, Current(rows), UnknownOutcome(latest), latest.number, now);
      && (Resolves(setting, rows, id, now) <==> !(retry && latest.state.Started?))
      && (retry && latest.state.Started? ==>
            RetryThenClaim(rows, CompensationUnknownRetry, id, now).FirstOnly?)
  {
    var first := Move(CompensationUnknownRetry, rows.op.version, None, None);
    var one := Apply(rows, first).rows;
    assert Current(one).attempts == Current(rows).attempts;
    assert !AttemptIdUsed(one, id) by {
      assert one.compensations.Keys == rows.compensations.Keys;
    }
  }

  /** A leftover of an unverifiable, naturally idempotent effect with attempts to spare. */
  ghost predicate Stalled(setting: Setting, s: System) {
    && Inv(setting, s)
    && s.phase.Idle?
    && HasCompensation(s.rows)
    && (s.rows.op.state.CompensationUnknown?
        || (s.rows.op.state.Compensating? && Current(s.rows).state.CompExecuting?))
    && LatestAttempt(Current(s.rows)).Some?
    && LatestAttempt(Current(s.rows)).value.state.Started?
    && |Current(s.rows).attempts| < ExecutionCap(setting.obligations)
    && setting.descriptor.idempotency.NaturalIdempotency?
    && !setting.descriptor.verifiable
  }

  lemma Extended(setting: Setting, run: seq<System>, step: Step, t: System) returns (longer: seq<System>)
    requires IsRun(setting, run) && Takes(setting, run[|run| - 1], step, t)
    ensures longer == run + [t] && IsRun(setting, longer)
  {
    longer := run + [t];
    forall i | 0 <= i < |longer| - 1 ensures StepAt(setting, longer, i) {
      if i < |run| - 1 {
        assert StepAt(setting, run, i);
      } else {
        assert Takes(setting, longer[i], step, longer[i + 1]);
      }
    }
  }

  /** A run in which the driver dies between the claim and the call. */
  lemma RunToLeftover(setting: Setting, start: System, compensation: Id, attempt: Id, now: int)
    returns (run: seq<System>)
    requires Initial(start) && start.rows.op.state.Succeeded?
    ensures IsRun(setting, run) && run[0] == start
    ensures run[|run| - 1]
         == start.(rows := Rows(
                     Operation(Compensating, start.rows.op.version + 1, Some(compensation)),
                     map[compensation := Compensation(CompExecuting, 2, [Attempt(attempt, 1, Started, now)])], []))
  {
    run := [start];
    var s := start.(rows := Apply(start.rows, StartCompensation(start.rows.op.version, compensation)).rows);
    assert s.rows.compensations == map[compensation := Compensation(CompPending, 1, [])];
    run := Extended(setting, run, Step.Start(compensation), s);
    var t := s.(rows := Apply(s.rows, ClaimCommand(s.rows, attempt, now)).rows,
                phase := Claimed(NextAttempt(Current(s.rows), attempt, now)));
    assert Current(t.rows).attempts == [Attempt(attempt, 1, Started, now)];
    assert t.rows.compensations == map[compensation := Current(t.rows)];
    run := Extended(setting, run, Step.Claim(attempt, now), t);
    run := Extended(setting, run, Step.Crash, t.(phase := Idle));
  }

  /** The next recovery gives the open attempt up. */
  lemma RunToGivenUp(setting: Setting, start: System, compensation: Id, attempt: Id, now: int)
    returns (run: seq<System>)
    requires Initial(start) && start.rows.op.state.Succeeded?
    ensures IsRun(setting, run) && run[0] == start
    ensures run[|run| - 1]
         == start.(rows := Rows(
                     Operation(OperationState.CompensationUnknown, start.rows.op.version + 2, Some(compensation)),
                     map[compensation := Compensation(CompUnknown, 3, [Attempt(attempt, 1, Started, now)])], []))
  {
    run := RunToLeftover(setting, start, compensation, attempt, now);
    var s := run[|run| - 1];
    var command := Move(CompensationOutcomeUnknown, s.rows.op.version, None, None);
    var t := s.(rows := Apply(s.rows, command).rows);
    assert t.rows.compensations == map[compensation := Current(t.rows)];
    run := Extended(setting, run, AbandonLeftover, t);
  }

  /** The stall is real: from every compensable operation whose effect is naturally idempotent
      but cannot be verified, a crash after the first claim and one recovery lead to it. */
  lemma StallOccurs(setting: Setting, start: System, compensation: Id, attempt: Id, now: int)
    returns (run: seq<System>)
    requires Initial(start) && start.rows.op.state.Succeeded?
    requires setting.descriptor.idempotency.NaturalIdempotency? && !setting.descriptor.verifiable
    requires ExecutionCap(setting.obligations) > 1
    ensures IsRun(setting, run) && run[0] == start
    ensures Stalled(setting, run[|run| - 1]) && run[|run| - 1].rows.op.state.CompensationUnknown?
    ensures run[|run| - 1].answers == []
  {
    run := RunToGivenUp(setting, start, compensation, attempt, now);
    RunKeepsInvariant(setting, run, |run| - 1);
  }

  lemma StalledStep(setting: Setting, s: System, step: Step, t: System)
    requires Stalled(setting, s) && Takes(setting, s, step, t) && !step.OtherCommand?
    ensures Stalled(setting, t)
    ensures t.answers == s.answers
    ensures Current(t.rows).attempts == Current(s.rows).attempts
  {
    StepKeepsInv(setting, s, step, t);
    match step
    case RetryUnknown(id, now) => StalledRetry(setting, s, id, now);
    case EscalateUnknown(now) => StalledMayRetry(setting, s, now);
    case OperatorRetry(id, now) => StalledHasNotFailed(setting, s, id, now);
    case RetryAfterFailure(id, now) => StalledHasNotFailed(setting, s, id, now);
    case _ =>
  }

  lemma StalledHasNotFailed(setting: Setting, s: System, id: Id, now: int)
    requires Stalled(setting, s)
    ensures RetryThenClaim(s.rows, CompensationFailedRetry, id, now).Neither?
  {
  }

  lemma StalledMayRetry(setting: Setting, s: System, now: int)
    requires Stalled(setting, s)
    ensures MayRetryAutomatically(
              setting, Current(s.rows), EffectUnknown, |Current(s.rows).attempts|, now)
    ensures LatestAttempt(Current(s.rows)).value.number == |Current(s.rows).attempts|
  {
  }

  lemma StalledRetry(setting: Setting, s: System, id: Id, now: int)
    requires Stalled(setting, s)
    ensures var pair := RetryThenClaim(s.rows, CompensationUnknownRetry, id, now);
      && !pair.Both?
      && (pair.FirstOnly? ==>
            && pair.first.op.state.Compensating?
            && HasCompensation(pair.first)
            && Current(pair.first).state.CompExecuting?
            && Current(pair.first).attempts == Current(s.rows).attempts)
  {
  }

  ghost predicate ItselfAt(setting: Setting, trace: seq<System>, i: nat)
    requires i + 1 < |trace|
  {
    NextByItself(setting, trace[i], trace[i + 1])
  }

  ghost predicate IsTrace(setting: Setting, trace: seq<System>) {
    forall i :: 0 <= i < |trace| - 1 ==> ItselfAt(setting, trace, i)
  }

  /** One step of the compensation services, with no foreign command. */
  ghost predicate NextByItself(setting: Setting, s: System, t: System) {
    exists step :: Takes(setting, s, step, t) && !step.OtherCommand?
  }

  ghost predicate SameStall(setting: Setting, s: System, t: System)
    requires Stalled(setting, s)
  {
    && Stalled(setting, t)
    && t.answers == s.answers
    && Current(t.rows).attempts == Current(s.rows).attempts
  }

  lemma TraceStepStalls(setting: Setting, trace: seq<System>, i: nat)
    requires IsTrace(setting, trace) && i + 1 < |trace| && Stalled(setting, trace[i])
    ensures SameStall(setting, trace[i], trace[i + 1])
  {
    assert ItselfAt(setting, trace, i);
    var step :| Takes(setting, trace[i], step, trace[i + 1]) && !step.OtherCommand?;
    StalledStep(setting, trace[i], step, trace[i + 1]);
  }

  /** However often it is recovered, a stalled compensation is never called, retried or
      escalated by the compensation services: only a foreign command ends it. */
  lemma {:induction false} StallNeverEndsByItself(setting: Setting, trace: seq<System>, i: nat)
    requires IsTrace(setting, trace) && i < |trace| && Stalled(setting, trace[0])
    ensures SameStall(setting, trace[0], trace[i])
    decreases i
  {
    if i > 0 {
      StallNeverEndsByItself(setting, trace, i - 1);
      TraceStepStalls(setting, trace, i - 1);
    }
  }

  /** Only the parent's half of the retry is committed for a leftover. */
  lemma StallHalfway(setting: Setting, s: System, id: Id, now: int) returns (half: System)
    requires Stalled(setting, s) && s.rows.op.state.CompensationUnknown?
    ensures Takes(setting, s, RetryUnknown(id, now), half)
    ensures Stalled(setting, half) && half.rows.op.state.Compensating?
    ensures half.rows.op == s.rows.op.(state := Compensating, version := s.rows.op.version + 1)
    ensures half.rows.verifications == s.rows.verifications
    ensures Current(half.rows)
         == Current(s.rows).(state := CompExecuting, version := Current(s.rows).version + 1)
  {
    var pair := RetryThenClaim(s.rows, CompensationUnknownRetry, id, now);
    StalledRetry(setting, s, id, now);
    half := s.(rows := pair.first);
    StalledStep(setting, s, RetryUnknown(id, now), half);
  }

  lemma StallReturns(setting: Setting, s: System) returns (t: System)
    requires Stalled(setting, s) && s.rows.op.state.Compensating?
    ensures Takes(setting, s, AbandonLeftover, t)
    ensures Stalled(setting, t)
    ensures t.rows.op == s.rows.op.(state := OperationState.CompensationUnknown, version := s.rows.op.version + 1)
    ensures t.rows.verifications == s.rows.verifications
    ensures Current(t.rows) == Current(s.rows).(state := CompUnknown, version := Current(s.rows).version + 1)
  {
    t := s.(rows := Apply(s.rows, Move(CompensationOutcomeUnknown, s.rows.op.version, None, None)).rows);
    StalledStep(setting, s, AbandonLeftover, t);
  }

  /** Recovery does go round: two steps later only the versions have grown. */
  lemma StallCycles(setting: Setting, s: System, id: Id, now: int) returns (half: System, t: System)
    requires Stalled(setting, s) && s.rows.op.state.CompensationUnknown?
    ensures Takes(setting, s, RetryUnknown(id, now), half)
    ensures Takes(setting, half, AbandonLeftover, t)
    ensures t.rows.op == s.rows.op.(version := s.rows.op.version + 2)
    ensures Current(t.rows) == Current(s.rows).(version := Current(s.rows).version + 2)
    ensures t.rows.verifications == s.rows.verifications
    ensures Stalled(setting, t)
  {
    half := StallHalfway(setting, s, id, now);
    t := StallReturns(setting, half);
  }

  /** The failed-retry unit of work is all or nothing: FAILED always has a completed attempt,
      so the claim that follows the parent's retry is never refused. */
  lemma FailedRetryIsNeverHalf(rows: Rows, id: Id, now: int)
    requires RowsFit(rows) && HasCompensation(rows)
    ensures !RetryThenClaim(rows, CompensationFailedRetry, id, now).FirstOnly?
  {
  }
}
