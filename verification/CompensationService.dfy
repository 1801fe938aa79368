/** The compensation services as they run: execute.py, recover.py, operator.py and start.py
    over the committed rows of one operation. The ghost field `run` records the protocol
    steps taken, so whatever holds in every run holds of what these methods do. */
module CompensationServices {
  import opened Lifecycle
  import opened Reconciliation
  import opened Transitions
  import opened CompensationProtocol
  import opened CompensationInvariant
  import opened CompensationRows
  import opened CompensationTheorems
  import opened CompensationLimits
  import opened CompensationDecisions

  datatype CrashPoint =
    | AfterStartCommit
    | AfterClaimCommit
    | AfterCompensateBeforeEvidence
    | AfterEvidenceCommit
    | AfterVerifyStartCommit
    | AfterVerifyBeforeResult
    | AfterVerifyResultCommit

  datatype Disposition =
    | Accepted
    | AlreadyDone
    | NotEligible
    | RejectedRequest
    | InFlight
    | InfrastructureFailure
    | Crashed

  /** The caller's identifiers for one invocation; retries are derived per attempt number. */
  datatype Ids = Ids(
    attempt: Id,
    verification: Id,
    retryAttempt: nat -> Id,
    retryVerification: nat -> Id,
    resumeVerification: nat -> Id)

  function VerificationIdFor(ids: Ids, number: nat): Id {
    if number > 1 then ids.retryVerification(number) else ids.verification
  }

  /** What one pass of the cycle asks for next. */
  datatype Turn =
    | Done(disposition: Disposition)
    | Compensate(seen: Rows, attempt: Attempt)
    | Verify(seen: Rows)

  /** What foreign commands can do to rows that were read earlier. */
  ghost predicate ForeignSince(seen: Rows, now: Rows) {
    || now == seen
    || (&& now == seen.(op := now.op)
        && now.op.compensationId == seen.op.compensationId
        && now.op.version > seen.op.version
        && !InCompensationFamily(now.op.state))
  }

  /** A command that expects the versions its driver read. */
  predicate ExpectsVersionsOf(seen: Rows, command: Command) {
    && HasCompensation(seen)
    && match command
       case Move(_, expected, _, _) => expected == seen.op.version
       case ClaimExecution(expected, id, version, _) =>
         expected == seen.op.version && id == seen.op.compensationId.value && version == Current(seen).version
       case StartVerification(expected, id, version, _, _) =>
         expected == seen.op.version && id == seen.op.compensationId.value && version == Current(seen).version
       case RetryAfterVerification(expected, id, version, _, _) =>
         expected == seen.op.version && id == seen.op.compensationId.value && version == Current(seen).version
       case _ => false
  }

  /** A command can only be applied to the very rows its driver read, and a replay is reported
      only for an escalation that someone else made. */
  lemma AppliedMeansUnchanged(seen: Rows, rows: Rows, command: Command)
    requires ForeignSince(seen, rows) && ExpectsVersionsOf(seen, command)
    ensures Apply(rows, command).Applied? ==> rows == seen
    ensures Apply(rows, command).AlreadyApplied?
        ==> command.Move? && TargetOf(command.kind).ManualIntervention? && rows.op.state.ManualIntervention?
  {
  }

  lemma PairMeansUnchanged(seen: Rows, rows: Rows, kind: Kind, id: Id, now: int)
    requires ForeignSince(seen, rows) && HasCompensation(seen)
    requires kind.CompensationUnknownRetry? || kind.CompensationFailedRetry?
    ensures var first := Move(kind, seen.op.version, None, None);
      && (Apply(rows, first).Applied? ==> rows == seen)
      && !Apply(rows, first).AlreadyApplied?
  {
    AppliedMeansUnchanged(seen, rows, Move(kind, seen.op.version, None, None));
  }

  /** The verdict is what the row of its verification now says. */
  ghost predicate IsDurable(rows: Rows, verdict: Verdict) {
    var i := FindVerification(rows.verifications, verdict.id);
    i < |rows.verifications| && rows.verifications[i].result == Some(verdict)
  }

  /** Before the commit the verification was open and its verdict in no row; after it both the
      verdict and what follows from it are. */
  ghost predicate JudgedAtOnce(before: Rows, after: Rows, verdict: Verdict) {
    && AwaitsVerdict(before) && !IsDurable(before, verdict)
    && !AwaitsVerdict(after) && IsDurable(after, verdict)
  }

  lemma CompletedIsFound(rows: seq<Verification>, verdict: Verdict)
    requires VerificationsDistinct(rows) && |rows| > 0
    requires verdict.id == rows[|rows| - 1].id && rows[|rows| - 1].result.None?
    ensures var after := CompleteVerification(rows, verdict);
      && FindVerification(after, verdict.id) == |rows| - 1
      && after[|rows| - 1].result == Some(verdict)
  {
    var last := |rows| - 1;
    FindInDistinct(rows, last);
    var after := rows[last := rows[last].(result := Some(verdict))];
    forall j, k | 0 <= j < k < |after| ensures after[j].id != after[k].id {
      assert after[j].id == rows[j].id && after[k].id == rows[k].id;
    }
    FindInDistinct(after, last);
  }

  /** Whatever is concluded, the verdict is written with it. */
  lemma ConclusionIsDurable(setting: Setting, rows: Rows, verdict: Verdict, id: Id, now: int)
    requires RowsFit(rows) && AwaitsVerdict(rows) && IsAsked(rows, verdict)
    ensures var command := ConcludeCommand(rows, verdict, VerdictAction(setting, rows, verdict), id, now);
      && command.Some?
      && !IsDurable(rows, verdict)
      && (Apply(rows, command.value).Applied? ==> IsDurable(Apply(rows, command.value).rows, verdict))
  {
    ConclusionIsApplied(setting, rows, verdict, VerdictAction(setting, rows, verdict), id, now);
    PendingExists(rows);
    CompletedIsFound(rows.verifications, verdict);
  }

  /** Resuming an unknown compensation always opens its verification, so the unit of work is
      all or nothing, and what it opens is what the cycle verifies. */
  lemma ResumeIsNeverHalf(rows: Rows, target: Id, id: Id)
    requires RowsFit(rows) && HasCompensation(rows) && rows.op.state.CompensationUnknown?
    requires LatestAttempt(Current(rows)).Some? && target == LatestAttempt(Current(rows)).value.id
    ensures var pair := RetryThenVerify(rows, target, id);
      && !pair.FirstOnly?
      && (pair.Both? ==>
            && HasCompensation(pair.rows)
            && pair.rows.op.state.Compensating?
            && Current(pair.rows).state.CompVerifying?
            && |Current(pair.rows).attempts| == |Current(rows).attempts|)
    ensures FindVerification(rows.verifications, id) == |rows.verifications| ==> RetryThenVerify(rows, target, id).Both?
  {
  }

  /** The claim after an unknown parent's retry is refused exactly for a leftover. */
  lemma UnknownRetryNeedsCompletion(rows: Rows, id: Id, now: int)
    requires RowsFit(rows) && HasCompensation(rows) && rows.op.state.CompensationUnknown?
    ensures var pair := RetryThenClaim(rows, CompensationUnknownRetry, id, now);
      && (LatestAttempt(Current(rows)).value.state.Started? ==> !pair.Both?)
      && (pair.FirstOnly? ==> LatestAttempt(Current(rows)).value.state.Started?)
      && (pair.Both? ==>
            && HasCompensation(pair.rows)
            && LatestAttempt(Current(pair.rows)) == Some(NextAttempt(Current(rows), id, now)))
  {
  }

  lemma ResumeIsAStep(setting: Setting, s: System, target: Id, id: Id)
    requires s.phase.Idle? && HasCompensation(s.rows) && setting.descriptor.verifiable
    requires LatestAttempt(Current(s.rows)).Some? && target == LatestAttempt(Current(s.rows)).value.id
    ensures RetryThenVerify(s.rows, target, id).Both?
        ==> Takes(setting, s, Step.ResumeVerification(id), s.(rows := RetryThenVerify(s.rows, target, id).rows))
  {
  }

  /** The first claim is possible under any free identifier, and it is a step. */
  lemma FirstClaimIsStep(setting: Setting, s: System, id: Id, now: int)
    requires RowsFit(s.rows) && HasCompensation(s.rows) && s.phase.Idle?
    requires s.rows.op.state.Compensating? && Current(s.rows).state.CompPending?
    ensures var result := Apply(s.rows, ClaimCommand(s.rows, id, now));
      && (!AttemptIdUsed(s.rows, id) ==> result.Applied?)
      && (result.Applied? ==>
            && result.rows.op == s.rows.op
            && Takes(setting, s, Step.Claim(id, now),
                     s.(rows := result.rows, phase := Claimed(NextAttempt(Current(s.rows), id, now)))))
  {
  }

  lemma RetriedIsCompensating(rows: Rows, kind: Kind, id: Id, now: int)
    requires HasCompensation(rows) && (kind.CompensationUnknownRetry? || kind.CompensationFailedRetry?)
    ensures RetryThenClaim(rows, kind, id, now).Both?
        ==> RetryThenClaim(rows, kind, id, now).rows.op.state.Compensating?
  {
  }

  /** Either half of the retry is a step of the protocol. */
  lemma UnknownRetryIsAStep(setting: Setting, s: System, latest: Attempt, id: Id, now: int)
    requires s.phase.Idle? && HasCompensation(s.rows) && LatestAttempt(Current(s.rows)) == Some(latest)
    requires !setting.descriptor.verifiable
    requires MayRetryAutomatically(setting, Current(s.rows), UnknownOutcome(latest), latest.number, now)
    ensures match RetryThenClaim(s.rows, CompensationUnknownRetry, id, now)
      case Both(rows) =>
        Takes(setting, s, Step.RetryUnknown(id, now),
              s.(rows := rows, phase := Claimed(NextAttempt(Current(s.rows), id, now))))
      case FirstOnly(first) => Takes(setting, s, Step.RetryUnknown(id, now), s.(rows := first))
      case Neither => true
  {
  }

  /** A failed compensation's retry is possible under a free identifier. */
  lemma FailedRetryCanBeClaimed(rows: Rows, id: Id, now: int)
    requires RowsFit(rows) && HasCompensation(rows)
    ensures rows.op.state.CompensationFailed? && !AttemptIdUsed(rows, id)
        ==> RetryThenClaim(rows, CompensationFailedRetry, id, now).Both?
  {
    if rows.op.state.CompensationFailed? && !AttemptIdUsed(rows, id) {
      var one := Apply(rows, Move(CompensationFailedRetry, rows.op.version, None, None)).rows;
      assert Current(one).attempts == Current(rows).attempts;
      assert !AttemptIdUsed(one, id) by {
        assert one.compensations.Keys == rows.compensations.Keys;
      }
    }
  }

  /** It is a step of the protocol, whoever asks for it. */
  lemma FailedRetryLeads(setting: Setting, s: System, id: Id, now: int)
    requires RowsFit(s.rows) && s.phase.Idle? && HasCompensation(s.rows)
    requires RetryThenClaim(s.rows, CompensationFailedRetry, id, now).Both?
    ensures var pair := RetryThenClaim(s.rows, CompensationFailedRetry, id, now);
      && pair.rows.op.state.Compensating?
      && var t := s.(rows := pair.rows, phase := Claimed(NextAttempt(Current(s.rows), id, now)));
      && Takes(setting, s, Step.OperatorRetry(id, now), t.(operatorRetries := s.operatorRetries + 1))
      && (|Current(s.rows).attempts| > 0
          && MayRetryAutomatically(setting, Current(s.rows), EffectNotApplied, |Current(s.rows).attempts|, now)
          ==> Takes(setting, s, Step.RetryAfterFailure(id, now), t))
  {
    RetriedIsCompensating(s.rows, CompensationFailedRetry, id, now);
  }

  /** An escalation writes what a foreign move to manual intervention writes. */
  lemma EscalationIsForeign(rows: Rows, kind: Kind)
    requires Apply(rows, Move(kind, rows.op.version, None, None)).Applied?
    requires TargetOf(kind).ManualIntervention?
    ensures Apply(rows, Foreign(rows.op.version, ManualIntervention))
         == Apply(rows, Move(kind, rows.op.version, None, None))
  {
    var id := rows.op.compensationId.value;
    assert rows.compensations[id := rows.compensations[id]] == rows.compensations;
  }

  /** The operator's escalation for each open family state. */
  function EscalationKind(state: OperationState): Option<Kind> {
    match state
    case Compensating => Some(CompensationEscalate)
    case CompensationUnknown => Some(CompensationUnknownEscalate)
    case CompensationFailed => Some(CompensationFailedEscalate)
    case _ => None
  }

  /** What start_compensation knows about the operation it was asked to undo. */
  datatype StartRequest = StartRequest(
    compensationSupported: bool,
    automatic: bool,
    automaticAllowed: bool,
    operator: bool,
    hasArtifact: bool,
    failedBeforeEffect: bool)

  /** evaluate_start_eligibility */
  predicate StartAllowed(state: OperationState, request: StartRequest) {
    if !request.compensationSupported then false
    else if state.Succeeded? && request.automatic && !request.automaticAllowed then false
    else if state.Failed? && request.automatic && !request.automaticAllowed then false
    else if state.Succeeded? then true
    else if state.Failed? then request.hasArtifact && !request.failedBeforeEffect
    else if state.ManualIntervention? then request.operator
    else false
  }

  /** A compensable effect may be compensated after SUCCEEDED, after FAILED if it left something
      behind, and after manual intervention by an operator; automatically only where allowed. */
  lemma StartAllowedIff(state: OperationState, request: StartRequest)
    ensures StartAllowed(state, request)
        <==> && request.compensationSupported
             && (state.Succeeded? || state.Failed? || state.ManualIntervention?)
             && (request.automatic && !state.ManualIntervention? ==> request.automaticAllowed)
             && (state.Failed? ==> request.hasArtifact && !request.failedBeforeEffect)
             && (state.ManualIntervention? ==> request.operator)
  {
  }

  /** A leftover: COMPENSATING with an execution that was claimed and never recorded. */
  ghost predicate IsLeftover(rows: Rows) {
    rows.op.state.Compensating? && HasCompensation(rows) && Current(rows).state.CompExecuting?
  }

  /** A compensation that was started and never claimed. */
  ghost predicate IsUnclaimed(rows: Rows) {
    rows.op.state.Compensating? && HasCompensation(rows) && Current(rows).state.CompPending?
  }

  class CompensationService {
    const setting: Setting
    var rows: Rows
    ghost var phase: Phase
    ghost var answers: seq<Answer>
    ghost var verdicts: seq<Verdict>
    ghost var operatorRetries: nat
    ghost var inconclusive: nat
    ghost var run: seq<System>
    /** How often somebody else committed or the storage failed. */
    ghost var disturbances: nat

    ghost function Present(): System
      reads this
    {
      System(rows, phase, answers, verdicts, operatorRetries, inconclusive)
    }

    /** The recorded steps form a run of the protocol that ends in the present. */
    ghost predicate Valid()
      reads this
    {
      IsRun(setting, run) && run[|run| - 1] == Present()
    }

    constructor (setting: Setting, op: Operation)
      requires !InCompensationFamily(op.state) && op.compensationId.None?
      ensures Valid() && this.setting == setting
      ensures rows == Rows(op, map[], []) && phase.Idle? && answers == [] && |run| == 1
    {
      this.setting := setting;
      this.rows := Rows(op, map[], []);
      this.phase := Idle;
      this.answers := [];
      this.verdicts := [];
      this.operatorRetries := 0;
      this.inconclusive := 0;
      this.disturbances := 0;
      this.run := [System(Rows(op, map[], []), Idle, [], [], 0, 0)];
    }

    ghost method Take(step: Step)
      requires IsRun(setting, run)
      requires Takes(setting, run[|run| - 1], step, Present())
      modifies this`run
      ensures Valid() && run == old(run) + [Present()]
    {
      ghost var before := run;
      run := run + [Present()];
      forall i | 0 <= i < |run| - 1 ensures StepAt(setting, run, i) {
        if i < |before| - 1 {
          assert StepAt(setting, before, i);
        } else {
          assert Takes(setting, run[i], step, run[i + 1]);
        }
      }
    }

    /** The invariant of the protocol holds at every moment between two steps. */
    lemma Sound()
      requires Valid()
      ensures Inv(setting, Present())
    {
      RunKeepsInvariant(setting, run, |run| - 1);
    }

    /** The rows are in order at every moment, and attempts are numbered from one. */
    lemma Fits()
      requires Valid()
      ensures RowsFit(rows)
    {
      Sound();
    }

    /** Any number of foreign commands commit. */
    method Interfere()
      requires Valid()
      modifies this`rows, this`run, this`disturbances
      ensures Valid() && old(run) <= run
      ensures ForeignSince(old(rows), rows)
      ensures old(disturbances) <= disturbances
      ensures disturbances == old(disturbances) ==> rows == old(rows)
    {
      var count: nat := *;
      while count > 0
        invariant Valid() && old(run) <= run
        invariant ForeignSince(old(rows), rows)
        invariant old(disturbances) <= disturbances
        invariant disturbances == old(disturbances) ==> rows == old(rows)
      {
        var to: OperationState := *;
        var result := Apply(rows, Foreign(rows.op.version, to));
        if result.Applied? {
          rows := result.rows;
          disturbances := disturbances + 1;
          Take(OtherCommand(to));
        }
        count := count - 1;
      }
    }

    /** The driver's process ends here and forgets what it held. */
    ghost method Forget()
      requires Valid()
      modifies this`phase, this`run
      ensures Valid() && old(run) <= run && phase.Idle?
    {
      if !phase.Idle? {
        phase := Idle;
        Take(Step.Crash);
      }
    }

    /** A unit of work holding one command: foreign commands may come first, and storage may
        fail. The caller then says which protocol step the commit was. */
    method Commit(seen: Rows, command: Command) returns (result: Result)
      requires Valid() && ForeignSince(seen, rows) && ExpectsVersionsOf(seen, command)
      modifies this`rows, this`run, this`disturbances
      ensures IsRun(setting, run) && old(run) <= run
      ensures result.Applied? ==>
                && Apply(seen, command) == result
                && rows == result.rows
                && run[|run| - 1] == Present().(rows := seen)
      ensures !result.Applied? ==> Valid() && ForeignSince(seen, rows)
      ensures result.AlreadyApplied? ==> command.Move? && rows.op.state.ManualIntervention?
      ensures old(disturbances) <= disturbances
      ensures disturbances == old(disturbances) ==> result == Apply(old(rows), command)
    {
      Interfere();
      AppliedMeansUnchanged(seen, rows, command);
      var storageFails: bool := *;
      if storageFails {
        disturbances := disturbances + 1;
        return PersistenceFailure;
      }
      result := Apply(rows, command);
      if result.Applied? {
        rows := result.rows;
      }
    }

    /** The unit of work that retries the parent and claims a fresh attempt. */
    method CommitRetry(seen: Rows, kind: Kind, id: Id, now: int) returns (pair: Pair)
      requires Valid() && ForeignSince(seen, rows) && HasCompensation(seen)
      requires kind.CompensationUnknownRetry? || kind.CompensationFailedRetry?
      modifies this`rows, this`run, this`disturbances
      ensures IsRun(setting, run) && old(run) <= run
      ensures !pair.Neither? ==>
                && pair == RetryThenClaim(seen, kind, id, now)
                && rows == (if pair.Both? then pair.rows else pair.first)
                && run[|run| - 1] == Present().(rows := seen)
      ensures pair.Neither? ==> Valid() && ForeignSince(seen, rows)
      ensures old(disturbances) <= disturbances
      ensures disturbances == old(disturbances) && seen == old(rows) ==> pair == RetryThenClaim(seen, kind, id, now)
    {
      Interfere();
      PairMeansUnchanged(seen, rows, kind, id, now);
      var storageFails: bool := *;
      if storageFails {
        disturbances := disturbances + 1;
        return Neither;
      }
      if !Apply(rows, Move(kind, seen.op.version, None, None)).Applied? {
        return Neither;
      }
      pair := RetryThenClaim(rows, kind, id, now);
      match pair
      case Both(after) => rows := after;
      case FirstOnly(after) => rows := after;
      case Neither =>
    }

    /** The unit of work that retries the parent and opens a verification of the same attempt. */
    method CommitBoth(seen: Rows, target: Id, id: Id) returns (pair: Pair)
      requires Valid() && ForeignSince(seen, rows) && HasCompensation(seen) && RowsFit(seen)
      requires seen.op.state.CompensationUnknown?
      requires LatestAttempt(Current(seen)).Some? && target == LatestAttempt(Current(seen)).value.id
      modifies this`rows, this`run, this`disturbances
      ensures IsRun(setting, run) && old(run) <= run && old(disturbances) <= disturbances
      ensures disturbances == old(disturbances) && seen == old(rows) ==> pair == RetryThenVerify(seen, target, id)
      ensures pair.Both? ==>
                && pair == RetryThenVerify(seen, target, id) && rows == pair.rows
                && run[|run| - 1] == Present().(rows := seen)
      ensures !pair.Both? ==> Valid() && ForeignSince(seen, rows)
    {
      Interfere();
      PairMeansUnchanged(seen, rows, CompensationUnknownRetry, id, 0);
      ResumeIsNeverHalf(seen, target, id);
      var storageFails: bool := *;
      if storageFails {
        disturbances := disturbances + 1;
        return Neither;
      }
      if !Apply(rows, Move(CompensationUnknownRetry, seen.op.version, None, None)).Applied? {
        return Neither;
      }
      pair := RetryThenVerify(rows, target, id);
      if pair.Both? {
        rows := pair.rows;
      }
    }

    /** Resuming is one step of the protocol, and what it opens can be verified. */
    method CommitResume(seen: Rows, target: Id, id: Id) returns (pair: Pair)
      requires Valid() && ForeignSince(seen, rows) && HasCompensation(seen) && RowsFit(seen)
      requires phase.Idle? && seen.op.state.CompensationUnknown? && setting.descriptor.verifiable
      requires LatestAttempt(Current(seen)).Some? && target == LatestAttempt(Current(seen)).value.id
      modifies this`rows, this`run, this`disturbances
      ensures Valid() && old(run) <= run && old(disturbances) <= disturbances
      ensures pair.Both? ==>
                && rows == pair.rows && RowsFit(rows) && AwaitsVerdict(rows)
                && |Current(rows).attempts| == |Current(seen).attempts|
      ensures !pair.Both? ==> ForeignSince(seen, rows)
      ensures disturbances == old(disturbances) && seen == old(rows)
              && FindVerification(seen.verifications, id) == |seen.verifications|
          ==> pair.Both?
    {
      ResumeIsNeverHalf(seen, target, id);
      ResumeIsAStep(setting, Present().(rows := seen), target, id);
      pair := CommitBoth(seen, target, id);
      if pair.Both? {
        Take(Step.ResumeVerification(id));
        Fits();
      }
    }

    lemma OutcomeExpectsVersions(seen: Rows, attempt: Attempt, outcome: EffectOutcome, id: Id)
      requires HasCompensation(seen)
      ensures ExpectsVersionsOf(seen, OutcomeCommand(setting, seen, attempt, outcome, id))
    {
    }

    /** What recording an answer makes of the rows: the state that the answer calls for, with the
        same attempts under the same identifiers. */
    ghost predicate RecordedOver(seen: Rows, outcome: EffectOutcome, after: Rows)
      requires HasCompensation(seen)
    {
      && AnswerDecided(setting, outcome, after)
      && |Current(after).attempts| == |Current(seen).attempts|
      && forall name :: AttemptIdUsed(after, name) ==> AttemptIdUsed(seen, name)
    }

    lemma AnswerLeads(seen: Rows, attempt: Attempt, outcome: EffectOutcome, id: Id)
      requires AwaitsAnswer(seen, attempt)
      ensures var result := Apply(seen, OutcomeCommand(setting, seen, attempt, outcome, id));
        && (FindVerification(seen.verifications, id) == |seen.verifications| ==> result.Applied?)
        && (result.Applied? ==> RecordedOver(seen, outcome, result.rows))
    {
      var result := Apply(seen, OutcomeCommand(setting, seen, attempt, outcome, id));
      if FindVerification(seen.verifications, id) == |seen.verifications| {
        AnswerIsRecorded(setting, seen, attempt, outcome, id);
      }
      if result.Applied? {
        AppliedAnswerDecides(setting, seen, attempt, outcome, id);
        forall name | AttemptIdUsed(result.rows, name) ensures AttemptIdUsed(seen, name) {
          var c, k :| c in result.rows.compensations && 0 <= k < |result.rows.compensations[c].attempts|
            && result.rows.compensations[c].attempts[k].id == name;
          assert seen.compensations[c].attempts[k].id == name;
        }
      }
    }

    /** Commits a provider answer as the decided outcome. */
    method CommitOutcome(seen: Rows, attempt: Attempt, outcome: EffectOutcome, id: Id) returns (result: Result)
      requires Valid() && ForeignSince(seen, rows) && AwaitsAnswer(seen, attempt)
      requires phase == Answered(attempt, outcome)
      modifies this`rows, this`run, this`phase, this`disturbances
      ensures Valid() && old(run) <= run && old(disturbances) <= disturbances
      ensures disturbances == old(disturbances) && seen == old(rows)
              && FindVerification(seen.verifications, id) == |seen.verifications|
          ==> result.Applied?
      ensures result.Applied? ==>
                phase.Idle? && rows == result.rows && RecordedOver(seen, outcome, rows)
    {
      OutcomeExpectsVersions(seen, attempt, outcome, id);
      AnswerLeads(seen, attempt, outcome, id);
      result := Commit(seen, OutcomeCommand(setting, seen, attempt, outcome, id));
      if result.Applied? {
        phase := Idle;
        Take(RecordOutcome(id));
      }
    }

    lemma ConclusionExpectsVersions(seen: Rows, verdict: Verdict, action: Action, id: Id, now: int)
      requires HasCompensation(seen) && ConcludeCommand(seen, verdict, action, id, now).Some?
      ensures ExpectsVersionsOf(seen, ConcludeCommand(seen, verdict, action, id, now).value)
    {
    }

    /** Commits a verification result together with the transition it decides. */
    method CommitConclusion(
      seen: Rows, command: Command, verdict: Verdict, action: Action, id: Id, now: int)
      returns (result: Result)
      requires Valid() && HasCompensation(seen) && ForeignSince(seen, rows)
      requires seen.op.state.Compensating? && Current(seen).state.CompVerifying?
      requires phase == Judged(verdict) && action == VerdictAction(setting, seen, verdict)
      requires ConcludeCommand(seen, verdict, action, id, now) == Some(command)
      requires ExpectsVersionsOf(seen, command)
      modifies this`rows, this`run, this`disturbances, this`phase, this`inconclusive
      ensures Valid() && old(run) <= run && old(disturbances) <= disturbances
      ensures disturbances == old(disturbances) ==> result == Apply(old(rows), command)
      ensures result.Applied? ==>
                && rows == result.rows && Apply(seen, command) == result
                && |run| >= 2 && run[|run| - 2].rows == seen
                && phase == (if action.RetrySafely? then Claimed(NextAttempt(Current(seen), id, now)) else Idle)
    {
      result := Commit(seen, command);
      if result.Applied? {
        phase := if action.RetrySafely? then Claimed(NextAttempt(Current(seen), id, now)) else Idle;
        inconclusive := inconclusive + (if action.RemainUnknown? then 1 else 0);
        Take(Conclude(id, now));
      }
    }

    // ---------------------------------------------------------------- the cycle

    /** How many provider calls a turn may still lead to. */
    function CallsLeft(turn: Turn): nat {
      var cap := ExecutionCap(setting.obligations);
      match turn
      case Done(_) => 0
      case Compensate(_, attempt) => Max(1, cap - attempt.number + 1)
      case Verify(seen) =>
        if HasCompensation(seen) then Max(0, cap - |Current(seen).attempts|) else 0
    }

    /** What the driver knows when it starts a turn. */
    ghost predicate Prepared(turn: Turn)
      reads this
    {
      match turn
      case Done(disposition) => phase.Idle? && !disposition.InFlight?
      case Compensate(seen, attempt) =>
        phase == Claimed(attempt) && ForeignSince(seen, rows) && AwaitsAnswer(seen, attempt)
      case Verify(seen) =>
        phase.Idle? && ForeignSince(seen, rows) && RowsFit(seen) && AwaitsVerdict(seen)
    }

    /** Whoever has claimed an attempt is ready to call for it. */
    lemma ClaimedIsPrepared()
      requires Valid() && phase.Claimed? && rows.op.state.Compensating?
      ensures Prepared(Compensate(rows, phase.attempt))
    {
      Sound();
    }

    /** _call_compensate */
    method Call(attempt: Attempt) returns (outcome: EffectOutcome)
      requires Valid() && phase == Claimed(attempt)
      modifies this`phase, this`answers, this`run
      ensures Valid() && old(run) <= run && phase == Answered(attempt, outcome)
      ensures answers == old(answers) + [Answer(attempt.id, attempt.number, outcome)]
    {
      outcome := *;
      answers := answers + [Answer(attempt.id, attempt.number, outcome)];
      phase := Answered(attempt, outcome);
      Take(CallProvider(outcome));
    }

    /** What a turn continues from is what its last commit left behind. */
    predicate Continues(turn: Turn)
      reads this
    {
      match turn
      case Done(_) => true
      case Compensate(seen, _) => seen == rows
      case Verify(seen) => seen == rows
    }

    /** Where the last answer leads when nothing came in between: an answer that stands alone or
        is UNKNOWN ends the cycle, any other APPLIED is verified, and NOT_APPLIED is retried below
        the cap. */
    ghost predicate AnswerTakenUp(outcome: EffectOutcome, turn: Turn, attempt: Attempt, ids: Ids)
      reads this
    {
      match outcome
      case EffectUnknown => turn == Done(Accepted) && rows.op.state.CompensationUnknown?
      case EffectApplied =>
        if ResponseStandsAlone(setting) then turn == Done(Accepted) && rows.op.state.Compensated?
        else turn.Verify?
      case EffectNotApplied =>
        if attempt.number < ExecutionCap(setting.obligations)
        then turn.Compensate? && turn.attempt.number == attempt.number + 1
             && turn.attempt.id == ids.retryAttempt(attempt.number + 1)
        else turn == Done(Accepted) && rows.op.state.CompensationFailed?
    }

    /** The identifiers that the step may need are free. */
    ghost predicate NamesAreFree(seen: Rows, attempt: Attempt, ids: Ids) {
      && FindVerification(seen.verifications, VerificationIdFor(ids, attempt.number)) == |seen.verifications|
      && !AttemptIdUsed(seen, ids.retryAttempt(attempt.number + 1))
    }

    /** _compensate_step: call the provider once, commit its answer, decide what is next. */
    method CompensateStep(seen: Rows, attempt: Attempt, ids: Ids, crashAfter: Option<CrashPoint>)
      returns (turn: Turn)
      requires Valid() && Prepared(Compensate(seen, attempt))
      modifies this`rows, this`phase, this`answers, this`verdicts, this`inconclusive, this`run,
               this`operatorRetries, this`disturbances
      ensures Valid() && old(run) <= run && Prepared(turn) && Continues(turn)
      ensures operatorRetries == old(operatorRetries)
      ensures old(answers) <= answers && |answers| == |old(answers)| + 1 && verdicts == old(verdicts)
      ensures CallsLeft(turn) + 1 <= CallsLeft(Compensate(seen, attempt))
      ensures old(disturbances) <= disturbances
      ensures disturbances == old(disturbances) && seen == old(rows) && crashAfter.None?
              && NamesAreFree(seen, attempt, ids)
          ==> AnswerTakenUp(answers[|answers| - 1].outcome, turn, attempt, ids)
    {
      var outcome := Call(attempt);
      if crashAfter == Some(AfterCompensateBeforeEvidence) {
        Forget();
        return Done(Disposition.Crashed);
      }
      turn := ApplyAnswer(seen, attempt, outcome, ids, crashAfter);
    }

    /** The decision of _compensate_step. */
    method ApplyAnswer(
      seen: Rows, attempt: Attempt, outcome: EffectOutcome, ids: Ids, crashAfter: Option<CrashPoint>)
      returns (turn: Turn)
      requires Valid() && ForeignSince(seen, rows) && AwaitsAnswer(seen, attempt)
      requires phase == Answered(attempt, outcome) && attempt.number == |Current(seen).attempts|
      modifies this`rows, this`phase, this`run, this`operatorRetries, this`disturbances
      ensures Valid() && old(run) <= run && Prepared(turn) && Continues(turn)
      ensures operatorRetries == old(operatorRetries)
      ensures CallsLeft(turn) + 1 <= CallsLeft(Compensate(seen, attempt))
      ensures old(disturbances) <= disturbances
      ensures disturbances == old(disturbances) && seen == old(rows) && crashAfter.None?
              && NamesAreFree(seen, attempt, ids)
          ==> AnswerTakenUp(outcome, turn, attempt, ids)
    {
      var result := CommitOutcome(seen, attempt, outcome, VerificationIdFor(ids, attempt.number));
      if !result.Applied? {
        Forget();
        return Done(if result.PersistenceFailure? then InfrastructureFailure else RejectedRequest);
      }
      Fits();
      if crashAfter == Some(AfterEvidenceCommit) {
        return Done(Disposition.Crashed);
      }
      match DecideCompensate(outcome, setting) {
        case RequireVerification =>
          return if crashAfter == Some(AfterVerifyStartCommit) then Done(Disposition.Crashed) else Verify(result.rows);
        case RecordFailed =>
          turn := MaybeClaimRetry(result.rows, ids);
        case _ =>
          return Done(Accepted);
      }
    }

    /** Records a failed compensation's retry, by the cycle itself or by an operator: the driver
        now holds the attempt that was claimed. */
    ghost method TakeFailedRetry(seen: Rows, id: Id, now: int, byOperator: bool)
      requires RowsFit(seen) && phase.Idle? && HasCompensation(seen)
      requires IsRun(setting, run) && run[|run| - 1] == Present().(rows := seen)
      requires RetryThenClaim(seen, CompensationFailedRetry, id, now) == Both(rows)
      requires !byOperator ==>
                 && |Current(seen).attempts| > 0
                 && MayRetryAutomatically(setting, Current(seen), EffectNotApplied, |Current(seen).attempts|, now)
      modifies this`run, this`phase, this`operatorRetries
      ensures Valid() && run == old(run) + [Present()]
      ensures Prepared(Compensate(rows, NextAttempt(Current(seen), id, now)))
      ensures operatorRetries == old(operatorRetries) + (if byOperator then 1 else 0)
    {
      FailedRetryLeads(setting, Present().(rows := seen), id, now);
      phase := Claimed(NextAttempt(Current(seen), id, now));
      if byOperator {
        operatorRetries := operatorRetries + 1;
        Take(Step.OperatorRetry(id, now));
      } else {
        Take(Step.RetryAfterFailure(id, now));
      }
      ClaimedIsPrepared();
    }

    /** The unit of work that retries a failed compensation with a fresh attempt. */
    method CommitFailedRetry(seen: Rows, id: Id, now: int, byOperator: bool) returns (pair: Pair)
      requires Valid() && phase.Idle? && RowsFit(seen) && HasCompensation(seen) && ForeignSince(seen, rows)
      requires |Current(seen).attempts| > 0
      requires !byOperator ==>
                 MayRetryAutomatically(setting, Current(seen), EffectNotApplied, |Current(seen).attempts|, now)
      modifies this`rows, this`run, this`phase, this`operatorRetries, this`disturbances
      ensures Valid() && old(run) <= run && old(disturbances) <= disturbances
      ensures disturbances == old(disturbances) && seen == old(rows)
          ==> pair == RetryThenClaim(seen, CompensationFailedRetry, id, now)
      ensures pair.Both? ==> rows == pair.rows && Prepared(Compensate(pair.rows, NextAttempt(Current(seen), id, now)))
      ensures !pair.Both? ==> phase.Idle?
      ensures operatorRetries == old(operatorRetries) + (if pair.Both? && byOperator then 1 else 0)
    {
      FailedRetryIsNeverHalf(seen, id, now);
      pair := CommitRetry(seen, CompensationFailedRetry, id, now);
      if pair.Both? {
        TakeFailedRetry(seen, id, now, byOperator);
      }
    }

    /** _maybe_claim_retry: a licensed retry below the cap becomes a fresh claimed attempt. */
    method MaybeClaimRetry(seen: Rows, ids: Ids) returns (turn: Turn)
      requires Valid() && phase.Idle? && RowsFit(seen) && HasCompensation(seen) && ForeignSince(seen, rows)
      requires seen.op.state.CompensationFailed? && |Current(seen).attempts| > 0
      modifies this`rows, this`phase, this`run, this`operatorRetries, this`disturbances
      ensures Valid() && old(run) <= run && Prepared(turn) && !turn.Verify? && Continues(turn)
      ensures operatorRetries == old(operatorRetries)
      ensures turn.Compensate? ==>
                && turn.attempt.number == |Current(seen).attempts| + 1
                && turn.attempt.id == ids.retryAttempt(turn.attempt.number)
                && turn.attempt.number <= ExecutionCap(setting.obligations)
      ensures old(disturbances) <= disturbances
      ensures disturbances == old(disturbances) && seen == old(rows)
              && !AttemptIdUsed(seen, ids.retryAttempt(|Current(seen).attempts| + 1))
          ==> if |Current(seen).attempts| < ExecutionCap(setting.obligations) then turn.Compensate?
              else turn == Done(Accepted) && rows == seen
    {
      var number := |Current(seen).attempts|;
      var now: int := *;
      var id := ids.retryAttempt(number + 1);
      if !AttemptIdUsed(seen, id) {
        FailureIsRetriedIff(setting, Present().(rows := seen), id, now);
      }
      MayRetryIffDue(setting, Current(seen), EffectNotApplied, now);
      if !MayRetryAutomatically(setting, Current(seen), EffectNotApplied, number, now) {
        return Done(Accepted);
      }
      var pair := CommitFailedRetry(seen, id, now, false);
      if !pair.Both? {
        var storage: bool := *;
        return Done(if storage then InfrastructureFailure else RejectedRequest);
      }
      return Compensate(pair.rows, NextAttempt(Current(seen), id, now));
    }

    /** The question of _verify_step: asks the verifier about the pending request, which is the
        newest, and has its answer in hand. */
    method AskPending(seen: Rows) returns (verdict: Verdict)
      requires Valid() && Prepared(Verify(seen))
      modifies this`phase, this`verdicts, this`run
      ensures Valid() && old(run) <= run
      ensures phase == Judged(verdict) && verdicts == old(verdicts) + [verdict] && IsAsked(seen, verdict)
    {
      PendingExists(seen);
      var pending := LastPending(rows.verifications).value;
      var outcome: EffectOutcome, error: VerdictError, at: int := *, *, *;
      verdict := Verdict(rows.verifications[pending].id, outcome, error, at);
      verdicts := verdicts + [verdict];
      phase := Judged(verdict);
      Take(AskVerifier(pending, verdict));
    }

    /** What a concluded verdict leads to. */
    ghost predicate VerdictTakenUp(seen: Rows, verdict: Verdict, id: Id, turn: Turn)
      requires AwaitsVerdict(seen) && |Current(seen).attempts| > 0
      reads this
    {
      && (turn == Done(Accepted) || turn.Compensate?)
      && (turn.Compensate? <==> rows.op.state.Compensating?)
      && exists now :: VerdictDecided(setting, seen, verdict, id, now, rows)
    }

    /** _verify_step: ask the verifier about the pending request, commit the decision together
        with the result. An escalation that somebody else made first is answered without a
        compensation, on which the driver's own assertion fails. */
    method VerifyStep(seen: Rows, ids: Ids, crashAfter: Option<CrashPoint>) returns (turn: Turn)
      requires Valid() && Prepared(Verify(seen))
      modifies this`rows, this`phase, this`answers, this`verdicts, this`inconclusive, this`run,
               this`disturbances
      ensures Valid() && old(run) <= run && Prepared(turn) && !turn.Verify? && Continues(turn)
      ensures answers == old(answers) && |verdicts| == |old(verdicts)| + 1
      ensures |Current(seen).attempts| > 0
      ensures turn.Compensate? ==>
                && turn.attempt.number == |Current(seen).attempts| + 1
                && turn.attempt.number <= ExecutionCap(setting.obligations)
      ensures turn.Compensate? || turn == Done(Accepted) ==>
                && |run| >= 2
                && JudgedAtOnce(run[|run| - 2].rows, rows, verdicts[|verdicts| - 1])
                && VerdictTakenUp(seen, verdicts[|verdicts| - 1], ids.retryAttempt(|Current(seen).attempts| + 1), turn)
      ensures old(disturbances) <= disturbances
      ensures disturbances == old(disturbances) && seen == old(rows) && crashAfter.None?
              && !AttemptIdUsed(seen, ids.retryAttempt(|Current(seen).attempts| + 1))
          ==> turn.Compensate? || turn == Done(Accepted)
    {
      var verdict := AskPending(seen);
      if crashAfter == Some(AfterVerifyBeforeResult) {
        Forget();
        PendingHasAttempt(seen);
        return Done(Disposition.Crashed);
      }
      turn := JudgeStep(seen, verdict, ids, crashAfter);
    }

    lemma PendingHasAttempt(seen: Rows)
      requires RowsFit(seen) && AwaitsVerdict(seen)
      ensures |Current(seen).attempts| > 0
    {
    }

    /** The decision of _verify_step. */
    method JudgeStep(seen: Rows, verdict: Verdict, ids: Ids, crashAfter: Option<CrashPoint>) returns (turn: Turn)
      requires Valid() && phase == Judged(verdict) && IsAsked(seen, verdict)
      requires ForeignSince(seen, rows) && RowsFit(seen) && AwaitsVerdict(seen)
      modifies this`rows, this`phase, this`inconclusive, this`run, this`disturbances
      ensures Valid() && old(run) <= run && Prepared(turn) && !turn.Verify? && Continues(turn)
      ensures |Current(seen).attempts| > 0
      ensures turn.Compensate? ==>
                && turn.attempt.number == |Current(seen).attempts| + 1
                && turn.attempt.number <= ExecutionCap(setting.obligations)
      ensures turn.Compensate? || turn == Done(Accepted) ==>
                && |run| >= 2 && JudgedAtOnce(run[|run| - 2].rows, rows, verdict)
                && VerdictTakenUp(seen, verdict, ids.retryAttempt(|Current(seen).attempts| + 1), turn)
      ensures old(disturbances) <= disturbances
      ensures disturbances == old(disturbances) && seen == old(rows) && crashAfter != Some(AfterVerifyResultCommit)
              && !AttemptIdUsed(seen, ids.retryAttempt(|Current(seen).attempts| + 1))
          ==> turn.Compensate? || turn == Done(Accepted)
    {
      PendingHasAttempt(seen);
      var now: int := *;
      var id := ids.retryAttempt(|Current(seen).attempts| + 1);
      var result := CommitVerdict(seen, verdict, id, now);
      if !result.Applied? {
        Forget();
        return Done(if result.AlreadyApplied? then Disposition.Crashed
                    else if result.PersistenceFailure? then InfrastructureFailure
                    else RejectedRequest);
      }
      if crashAfter == Some(AfterVerifyResultCommit) {
        Forget();
        return Done(Disposition.Crashed);
      }
      if rows.op.state.Compensating? {
        ClaimedIsPrepared();
        return Compensate(result.rows, NextAttempt(Current(seen), id, now));
      }
      return Done(Accepted);
    }

    /** The unit of work that makes a verdict durable with what it decides. */
    method CommitVerdict(seen: Rows, verdict: Verdict, id: Id, now: int) returns (result: Result)
      requires Valid() && phase == Judged(verdict) && IsAsked(seen, verdict)
      requires ForeignSince(seen, rows) && RowsFit(seen) && AwaitsVerdict(seen)
      requires |Current(seen).attempts| > 0
      modifies this`rows, this`phase, this`inconclusive, this`run, this`disturbances
      ensures Valid() && old(run) <= run && old(disturbances) <= disturbances
      ensures disturbances == old(disturbances) && seen == old(rows) && !AttemptIdUsed(seen, id) ==> result.Applied?
      ensures result.Applied? ==>
                && rows == result.rows
                && |run| >= 2 && run[|run| - 2].rows == seen
                && JudgedAtOnce(seen, rows, verdict) && VerdictDecided(setting, seen, verdict, id, now, rows)
                && phase == (if rows.op.state.Compensating? then Claimed(NextAttempt(Current(seen), id, now)) else Idle)
    {
      var action := VerdictAction(setting, seen, verdict);
      VerdictLeads(seen, verdict, id, now);
      ConclusionExpectsVersions(seen, verdict, action, id, now);
      var command := ConcludeCommand(seen, verdict, action, id, now).value;
      result := CommitConclusion(seen, command, verdict, action, id, now);
    }

    lemma VerdictLeads(seen: Rows, verdict: Verdict, id: Id, now: int)
      requires RowsFit(seen) && AwaitsVerdict(seen) && IsAsked(seen, verdict)
      ensures |Current(seen).attempts| > 0
      ensures var action := VerdictAction(setting, seen, verdict);
        var command := ConcludeCommand(seen, verdict, action, id, now);
        && command.Some?
        && var result := Apply(seen, command.value);
        && (!AttemptIdUsed(seen, id) ==> result.Applied?)
        && (result.Applied? ==>
              && JudgedAtOnce(seen, result.rows, verdict)
              && VerdictDecided(setting, seen, verdict, id, now, result.rows)
              && (action.RetrySafely? <==> result.rows.op.state.Compensating?))
    {
      var action := VerdictAction(setting, seen, verdict);
      VerdictIsConcluded(setting, seen, verdict, id, now);
      ConclusionIsDurable(setting, seen, verdict, id, now);
      DecisionsAreEvidenced(verdict, LatestAttempt(Current(seen)), setting.descriptor, setting.obligations,
                            CountWith(seen.verifications, verdict));
    }

    /** _run_cycle: compensate, verify and retry until nothing is left to do. It ends, and it
        calls the provider at most max(1, cap - n + 1) times when entered at attempt n. */
    method RunCycle(start: Turn, ids: Ids, crashAfter: Option<CrashPoint>) returns (disposition: Disposition)
      requires Valid() && Prepared(start) && !start.Done?
      modifies this`rows, this`phase, this`answers, this`verdicts, this`inconclusive, this`run,
               this`operatorRetries, this`disturbances
      ensures Valid() && old(run) <= run && phase.Idle? && !disposition.InFlight?
      ensures operatorRetries == old(operatorRetries)
      ensures old(answers) <= answers
      ensures |answers| <= |old(answers)| + CallsLeft(start)
      ensures if start.Compensate? then |answers| > |old(answers)| else |verdicts| > |old(verdicts)|
      ensures old(disturbances) <= disturbances
    {
      var turn := start;
      while !turn.Done?
        invariant Valid() && old(run) <= run && Prepared(turn) && operatorRetries == old(operatorRetries)
        invariant old(answers) <= answers
        invariant |answers| + CallsLeft(turn) <= |old(answers)| + CallsLeft(start)
        invariant |verdicts| >= |old(verdicts)| && old(disturbances) <= disturbances
        invariant turn == start || (if start.Compensate? then |answers| > |old(answers)|
                                    else |verdicts| > |old(verdicts)|)
        decreases CallsLeft(turn), turn.Verify?
      {
        if turn.Compensate? {
          turn := CompensateStep(turn.seen, turn.attempt, ids, crashAfter);
        } else {
          turn := VerifyStep(turn.seen, ids, crashAfter);
        }
      }
      return turn.disposition;
    }

    // ---------------------------------------------------------------- the entry points

    /** start_compensation: under the lock of the operation's row, and only while it has no
        compensation. */
    method Start(id: Id, expected: nat, request: StartRequest, crashAfter: Option<CrashPoint>)
      returns (disposition: Disposition)
      requires Valid() && phase.Idle?
      modifies this
      ensures Valid() && old(run) <= run && phase.Idle?
      ensures answers == old(answers) && verdicts == old(verdicts)
      ensures old(rows.op.compensationId).Some? ==> ForeignSince(old(rows), rows)
      ensures disposition.Accepted? ==>
                && rows == old(rows).(op := rows.op, compensations := map[id := Compensation(CompPending, 1, [])])
                && rows.op == Operation(Compensating, expected + 1, Some(id))
      ensures disposition.AlreadyDone? ==> rows.op.compensationId.Some? && rows.op.version == expected
      ensures old(disturbances) <= disturbances
      ensures disturbances == old(disturbances) && crashAfter.None? ==>
                disposition
                == if old(rows).op.version != expected then RejectedRequest
                   else if old(rows).op.compensationId.Some? then AlreadyDone
                   else if StartAllowed(old(rows).op.state, request) then Accepted
                   else NotEligible
    {
      Interfere();
      Sound();
      if rows.op.version != expected {
        return RejectedRequest;
      }
      if rows.op.compensationId.Some? {
        return AlreadyDone;
      }
      if !StartAllowed(rows.op.state, request) {
        return NotEligible;
      }
      var storageFails: bool := *;
      if storageFails {
        disturbances := disturbances + 1;
        return Disposition.Crashed;
      }
      var result := Apply(rows, StartCompensation(expected, id));
      rows := result.rows;
      Take(Step.Start(id));
      return if crashAfter == Some(AfterStartCommit) then Disposition.Crashed else Accepted;
    }

    /** claim_and_compensate: the first attempt is durable before the provider is called. */
    method ClaimAndCompensate(seen: Rows, ids: Ids, crashAfter: Option<CrashPoint>)
      returns (disposition: Disposition)
      requires Valid() && phase.Idle? && RowsFit(seen) && HasCompensation(seen) && ForeignSince(seen, rows)
      requires seen.op.state.Compensating? && Current(seen).state.CompPending?
      modifies this
      ensures Valid() && old(run) <= run && phase.Idle? && !disposition.InFlight?
      ensures old(answers) <= answers
      ensures |answers| <= |old(answers)| + ExecutionCap(setting.obligations)
      ensures old(disturbances) <= disturbances
      ensures disturbances == old(disturbances) && seen == old(rows) && crashAfter.None?
              && !AttemptIdUsed(seen, ids.attempt)
          ==> |answers| > |old(answers)|
    {
      var now: int := *;
      FirstClaimIsStep(setting, Present().(rows := seen), ids.attempt, now);
      var result := Commit(seen, ClaimCommand(seen, ids.attempt, now));
      if !result.Applied? {
        return if result.PersistenceFailure? then InfrastructureFailure else RejectedRequest;
      }
      var attempt := NextAttempt(Current(seen), ids.attempt, now);
      phase := Claimed(attempt);
      Take(Step.Claim(ids.attempt, now));
      ClaimedIsPrepared();
      if crashAfter == Some(AfterClaimCommit) {
        Forget();
        return Disposition.Crashed;
      }
      disposition := RunCycle(Compensate(result.rows, attempt), ids, crashAfter);
    }

    /** execute_compensation: a stale request is refused unless the outcome is already final. */
    method Execute(expected: nat, ids: Ids, crashAfter: Option<CrashPoint>) returns (disposition: Disposition)
      requires Valid() && phase.Idle?
      modifies this
      ensures Valid() && old(run) <= run && phase.Idle?
      ensures old(answers) <= answers
      ensures |answers| <= |old(answers)| + ExecutionCap(setting.obligations)
      ensures IsLeftover(old(rows)) ==> answers == old(answers) && ForeignSince(old(rows), rows)
      ensures disposition.InFlight? ==> IsLeftover(old(rows))
      ensures old(disturbances) <= disturbances
      ensures disturbances == old(disturbances) && crashAfter.None? && old(rows).op.version == expected
              && IsUnclaimed(old(rows)) && !AttemptIdUsed(old(rows), ids.attempt)
          ==> |answers| > |old(answers)|
      ensures disturbances == old(disturbances) && old(rows).op.version == expected && IsLeftover(old(rows))
          ==> disposition.InFlight?
      decreases if HasCompensation(rows) && Current(rows).state.CompPending? then 2 else 5
    {
      Interfere();
      Sound();
      var seen := rows;
      if !seen.op.state.Compensated? && !seen.op.state.CompensationFailed? && seen.op.version != expected {
        return RejectedRequest;
      }
      disposition := Dispatch(seen, ids, crashAfter);
    }

    /** dispatch_execute: an attempt that is open is left to whoever claimed it. */
    method Dispatch(seen: Rows, ids: Ids, crashAfter: Option<CrashPoint>) returns (disposition: Disposition)
      requires Valid() && phase.Idle? && RowsFit(seen) && ForeignSince(seen, rows)
      modifies this
      ensures Valid() && old(run) <= run && phase.Idle?
      ensures old(answers) <= answers
      ensures |answers| <= |old(answers)| + ExecutionCap(setting.obligations)
      ensures IsLeftover(seen) || !InCompensationFamily(seen.op.state)
          ==> answers == old(answers) && rows == old(rows)
      ensures disposition.InFlight? <==> IsLeftover(seen)
      ensures old(disturbances) <= disturbances
      ensures disturbances == old(disturbances) && crashAfter.None? && seen == old(rows)
              && IsUnclaimed(seen) && !AttemptIdUsed(seen, ids.attempt)
          ==> |answers| > |old(answers)|
      decreases if HasCompensation(seen) && Current(seen).state.CompPending? then 1 else 4
    {
      if seen.op.state.Compensated? {
        return Accepted;
      }
      if !seen.op.state.Compensating? && !seen.op.state.CompensationUnknown?
         && !seen.op.state.CompensationFailed?
      {
        return RejectedRequest;
      }
      if seen.op.state.CompensationUnknown? || seen.op.state.CompensationFailed? {
        disposition := Recover(seen.op.version, ids, crashAfter);
        return;
      }
      match Current(seen).state
      case CompPending =>
        disposition := ClaimAndCompensate(seen, ids, crashAfter);
      case CompExecuting =>
        return InFlight;
      case CompVerifying =>
        disposition := Recover(seen.op.version, ids, crashAfter);
    }

    /** recover_compensation: never calls the provider for an attempt that is already durable. */
    method Recover(expected: nat, ids: Ids, crashAfter: Option<CrashPoint>) returns (disposition: Disposition)
      requires Valid() && phase.Idle?
      modifies this
      ensures Valid() && old(run) <= run && phase.Idle? && !disposition.InFlight?
      ensures old(answers) <= answers
      ensures |answers| <= |old(answers)| + ExecutionCap(setting.obligations)
      ensures IsLeftover(old(rows)) ==>
                && answers == old(answers)
                && (disposition.Accepted? <==> rows.op.state.CompensationUnknown?)
                && (disposition.Accepted? ==>
                      HasCompensation(rows) && Current(rows).attempts == old(Current(rows).attempts))
                && (!disposition.Accepted? ==> ForeignSince(old(rows), rows))
      ensures old(disturbances) <= disturbances
      ensures disturbances == old(disturbances) && old(rows).op.version == expected ==>
                && (IsLeftover(old(rows)) ==> disposition.Accepted?)
                && (AwaitsVerdict(old(rows)) ==> |verdicts| > |old(verdicts)|)
      decreases 3
    {
      Interfere();
      Sound();
      var seen := rows;
      if seen.op.state.Compensated? {
        return Accepted;
      }
      if seen.op.compensationId.None? {
        return RejectedRequest;
      }
      if seen.op.state.CompensationFailed? {
        return Accepted;
      }
      if seen.op.version != expected {
        return RejectedRequest;
      }
      if seen.op.state.CompensationUnknown? {
        disposition := RecoverUnknown(seen, ids, crashAfter);
        return;
      }
      if !seen.op.state.Compensating? {
        return RejectedRequest;
      }
      match Current(seen).state
      case CompPending =>
        disposition := Execute(seen.op.version, ids, crashAfter);
      case CompExecuting =>
        disposition := AbandonLeftover(seen);
      case CompVerifying =>
        disposition := RunCycle(Verify(seen), ids, crashAfter);
    }

    /** _leftover_started_to_unknown: the open attempt is given up, not repeated. */
    method AbandonLeftover(seen: Rows) returns (disposition: Disposition)
      requires Valid() && phase.Idle? && RowsFit(seen) && IsLeftover(seen) && ForeignSince(seen, rows)
      modifies this
      ensures Valid() && old(run) <= run && phase.Idle? && !disposition.InFlight?
      ensures answers == old(answers)
      ensures disposition.Accepted? <==> rows.op.state.CompensationUnknown?
      ensures disposition.Accepted? ==>
                HasCompensation(rows) && Current(rows).attempts == Current(seen).attempts
      ensures !disposition.Accepted? ==> ForeignSince(seen, rows)
      ensures old(disturbances) <= disturbances
      ensures disturbances == old(disturbances) && seen == old(rows) ==> disposition.Accepted?
    {
      var result := Commit(seen, Move(CompensationOutcomeUnknown, seen.op.version, None, None));
      if result.Applied? {
        Take(Step.AbandonLeftover);
        return Accepted;
      }
      return if result.PersistenceFailure? then InfrastructureFailure else RejectedRequest;
    }

    /** _recover_unknown: verify when the effect can be verified, else retry or escalate. */
    method RecoverUnknown(seen: Rows, ids: Ids, crashAfter: Option<CrashPoint>)
      returns (disposition: Disposition)
      requires Valid() && phase.Idle? && RowsFit(seen) && HasCompensation(seen) && ForeignSince(seen, rows)
      requires seen.op.state.CompensationUnknown?
      modifies this
      ensures Valid() && old(run) <= run && phase.Idle? && !disposition.InFlight?
      ensures old(answers) <= answers
      ensures |answers| <= |old(answers)| + ExecutionCap(setting.obligations)
      ensures old(disturbances) <= disturbances
    {
      var latest := LatestAttempt(Current(seen)).value;
      if setting.descriptor.verifiable {
        disposition := StartVerificationOfUnknown(seen, latest, ids, crashAfter);
      } else {
        var now: int := *;
        disposition := RetryOrEscalateUnknown(seen, latest, ids, now, crashAfter);
      }
    }

    /** _unknown_start_verification */
    method StartVerificationOfUnknown(seen: Rows, latest: Attempt, ids: Ids, crashAfter: Option<CrashPoint>)
      returns (disposition: Disposition)
      requires Valid() && phase.Idle? && RowsFit(seen) && HasCompensation(seen) && ForeignSince(seen, rows)
      requires seen.op.state.CompensationUnknown? && setting.descriptor.verifiable
      requires LatestAttempt(Current(seen)) == Some(latest)
      modifies this
      ensures Valid() && old(run) <= run && phase.Idle? && !disposition.InFlight?
      ensures old(answers) <= answers
      ensures |answers| <= |old(answers)| + Max(0, ExecutionCap(setting.obligations) - latest.number)
      ensures old(disturbances) <= disturbances
      ensures var id := ids.resumeVerification(latest.number + 1);
        disturbances == old(disturbances) && seen == old(rows) && crashAfter.None?
        && FindVerification(seen.verifications, id) == |seen.verifications|
        ==> |verdicts| > |old(verdicts)|
    {
      var pair := CommitResume(seen, latest.id, ids.resumeVerification(latest.number + 1));
      if !pair.Both? {
        var storage: bool := *;
        return if storage then InfrastructureFailure else RejectedRequest;
      }
      if crashAfter == Some(AfterVerifyStartCommit) {
        return Disposition.Crashed;
      }
      disposition := RunCycle(Verify(pair.rows), ids, crashAfter);
    }

    /** The unit of work that retries an unknown compensation; for a leftover only the
        parent's half of it is committed. */
    method CommitUnknownRetry(seen: Rows, latest: Attempt, id: Id, now: int) returns (pair: Pair)
      requires Valid() && phase.Idle? && RowsFit(seen) && HasCompensation(seen) && ForeignSince(seen, rows)
      requires seen.op.state.CompensationUnknown? && !setting.descriptor.verifiable
      requires LatestAttempt(Current(seen)) == Some(latest)
      requires MayRetryAutomatically(setting, Current(seen), UnknownOutcome(latest), latest.number, now)
      modifies this`rows, this`run, this`disturbances, this`phase
      ensures Valid() && old(run) <= run && old(disturbances) <= disturbances
      ensures disturbances == old(disturbances) && seen == old(rows)
          ==> pair == RetryThenClaim(seen, CompensationUnknownRetry, id, now)
      ensures pair.Both? ==>
                && latest.state.Completed?
                && phase == Claimed(NextAttempt(Current(seen), id, now))
                && Prepared(Compensate(pair.rows, NextAttempt(Current(seen), id, now)))
      ensures !pair.Both? ==> phase.Idle?
    {
      pair := CommitRetry(seen, CompensationUnknownRetry, id, now);
      UnknownRetryNeedsCompletion(seen, id, now);
      UnknownRetryIsAStep(setting, Present().(rows := seen), latest, id, now);
      if pair.Both? {
        phase := Claimed(NextAttempt(Current(seen), id, now));
      }
      if !pair.Neither? {
        Take(Step.RetryUnknown(id, now));
      }
      if pair.Both? {
        RetriedIsCompensating(seen, CompensationUnknownRetry, id, now);
        ClaimedIsPrepared();
      }
    }

    /** _unknown_without_verify: a call is made only while a retry is due, measured from the first
        attempt. Undisturbed, a retry that is due is made, and when none is due the operation goes
        to a person; only a leftover gets neither. */
    method RetryOrEscalateUnknown(seen: Rows, latest: Attempt, ids: Ids, now: int, crashAfter: Option<CrashPoint>)
      returns (disposition: Disposition)
      requires Valid() && phase.Idle? && RowsFit(seen) && HasCompensation(seen) && ForeignSince(seen, rows)
      requires seen.op.state.CompensationUnknown? && !setting.descriptor.verifiable
      requires LatestAttempt(Current(seen)) == Some(latest)
      modifies this
      ensures Valid() && old(run) <= run && phase.Idle? && !disposition.InFlight?
      ensures old(answers) <= answers
      ensures |answers| <= |old(answers)| + Max(0, ExecutionCap(setting.obligations) - latest.number)
      ensures latest.state.Started? ==> answers == old(answers)
      ensures |answers| > |old(answers)| ==> RetryIsDue(setting, Current(seen).attempts, UnknownOutcome(latest), now)
      ensures old(disturbances) <= disturbances
      ensures disturbances == old(disturbances) && seen == old(rows) ==>
                if RetryIsDue(setting, Current(seen).attempts, UnknownOutcome(latest), now)
                then latest.state.Completed? && !AttemptIdUsed(seen, ids.retryAttempt(latest.number + 1))
                     ==> |answers| > |old(answers)|
                else disposition.Accepted? && rows == Escalated(seen)
    {
      MayRetryIffDue(setting, Current(seen), UnknownOutcome(latest), now);
      if MayRetryAutomatically(setting, Current(seen), UnknownOutcome(latest), latest.number, now) {
        disposition := RetryUnknown(seen, latest, ids, now, crashAfter);
        return;
      }
      UnknownCanBeEscalated(setting, Present().(rows := seen), now);
      var result := Commit(seen, Move(CompensationUnknownEscalate, seen.op.version, None, None));
      if result.Applied? {
        Take(Step.EscalateUnknown(now));
        return Accepted;
      }
      return if result.PersistenceFailure? then InfrastructureFailure
        else if result.AlreadyApplied? then Accepted
        else RejectedRequest;
    }

    /** The retry of _unknown_without_verify. */
    method RetryUnknown(seen: Rows, latest: Attempt, ids: Ids, now: int, crashAfter: Option<CrashPoint>)
      returns (disposition: Disposition)
      requires Valid() && phase.Idle? && RowsFit(seen) && HasCompensation(seen) && ForeignSince(seen, rows)
      requires seen.op.state.CompensationUnknown? && !setting.descriptor.verifiable
      requires LatestAttempt(Current(seen)) == Some(latest)
      requires MayRetryAutomatically(setting, Current(seen), UnknownOutcome(latest), latest.number, now)
      modifies this
      ensures Valid() && old(run) <= run && phase.Idle? && !disposition.InFlight?
      ensures old(answers) <= answers
      ensures |answers| <= |old(answers)| + Max(0, ExecutionCap(setting.obligations) - latest.number)
      ensures latest.state.Started? ==> answers == old(answers)
      ensures old(disturbances) <= disturbances
      ensures disturbances == old(disturbances) && seen == old(rows) && latest.state.Completed?
              && !AttemptIdUsed(seen, ids.retryAttempt(latest.number + 1))
          ==> |answers| > |old(answers)|
    {
      var id := ids.retryAttempt(latest.number + 1);
      UnknownRetryCanBeClaimed(seen, latest, id, now);
      var pair := CommitUnknownRetry(seen, latest, id, now);
      if !pair.Both? {
        var storage: bool := *;
        return if pair.Neither? && storage then InfrastructureFailure else RejectedRequest;
      }
      disposition := RunCycle(Compensate(pair.rows, NextAttempt(Current(seen), id, now)), ids, crashAfter);
    }

    lemma UnknownRetryCanBeClaimed(seen: Rows, latest: Attempt, id: Id, now: int)
      requires RowsFit(seen) && HasCompensation(seen) && seen.op.state.CompensationUnknown?
      requires LatestAttempt(Current(seen)) == Some(latest)
      ensures latest.state.Completed? && !AttemptIdUsed(seen, id)
          ==> RetryThenClaim(seen, CompensationUnknownRetry, id, now).Both?
    {
      var one := Apply(seen, Move(CompensationUnknownRetry, seen.op.version, None, None)).rows;
      assert Current(one).attempts == Current(seen).attempts;
      assert AttemptIdUsed(one, id) ==> AttemptIdUsed(seen, id) by {
        assert one.compensations.Keys == seen.compensations.Keys;
      }
    }

    // ---------------------------------------------------------------- operators

    /** The operator's unit of work: the failed parent is retried with a fresh attempt. */
    method CommitOperatorRetry(seen: Rows, id: Id, now: int) returns (pair: Pair)
      requires Valid() && phase.Idle? && RowsFit(seen) && HasCompensation(seen) && ForeignSince(seen, rows)
      requires |Current(seen).attempts| > 0 && seen.op.state.CompensationFailed?
      modifies this`rows, this`run, this`phase, this`operatorRetries, this`disturbances
      ensures Valid() && old(run) <= run && old(disturbances) <= disturbances
      ensures disturbances == old(disturbances) && seen == old(rows) && !AttemptIdUsed(seen, id) ==> pair.Both?
      ensures pair.Both? ==> Prepared(Compensate(pair.rows, NextAttempt(Current(seen), id, now)))
      ensures !pair.Both? ==> phase.Idle?
      ensures operatorRetries == old(operatorRetries) + (if pair.Both? then 1 else 0)
    {
      FailedRetryCanBeClaimed(seen, id, now);
      pair := CommitFailedRetry(seen, id, now, true);
    }

    /** retry_failed_compensation: the one way past the attempt cap, one attempt at a time. */
    method RetryFailedCompensation(expected: nat, ids: Ids, crashAfter: Option<CrashPoint>)
      returns (disposition: Disposition)
      requires Valid() && phase.Idle?
      modifies this
      ensures Valid() && old(run) <= run && phase.Idle?
      ensures old(answers) <= answers
      ensures |answers| <= |old(answers)| + ExecutionCap(setting.obligations)
      ensures old(HasCompensation(rows)) ==>
                |answers| <= |old(answers)|
                  + Max(1, ExecutionCap(setting.obligations)
                           - old(if HasCompensation(rows) then |Current(rows).attempts| else 0))
      ensures operatorRetries <= old(operatorRetries) + 1
      ensures operatorRetries == old(operatorRetries) ==> answers == old(answers)
      ensures old(disturbances) <= disturbances
      ensures disturbances == old(disturbances) && old(rows).op.version == expected
              && old(rows).op.state.CompensationFailed? && old(HasCompensation(rows))
              && !AttemptIdUsed(old(rows), ids.retryAttempt(
                                  old(if HasCompensation(rows) then |Current(rows).attempts| else 0) + 1))
          ==> |answers| > |old(answers)|
    {
      Interfere();
      Sound();
      var seen := rows;
      if seen.op.version != expected || !seen.op.state.CompensationFailed? {
        return RejectedRequest;
      }
      var now: int := *;
      var id := ids.retryAttempt(|Current(seen).attempts| + 1);
      var pair := CommitOperatorRetry(seen, id, now);
      if !pair.Both? {
        var storage: bool := *;
        return if storage then InfrastructureFailure else RejectedRequest;
      }
      disposition := RunCycle(Compensate(pair.rows, NextAttempt(Current(seen), id, now)), ids, crashAfter);
    }

    /** escalate_compensation: hands the operation to a person from any open family state and
        leaves compensation, attempts and verifications as they are. */
    method EscalateCompensation(expected: nat) returns (disposition: Disposition)
      requires Valid() && phase.Idle?
      modifies this`rows, this`run, this`disturbances
      ensures Valid() && old(run) <= run
      ensures ForeignSince(old(rows), rows)
      ensures disposition.Accepted? && InCompensationFamily(old(rows.op.state))
          ==> rows.op.state.ManualIntervention? && !InCompensationFamily(rows.op.state)
      ensures old(disturbances) <= disturbances
      ensures disturbances == old(disturbances) ==>
                (disposition.Accepted?
                 <==> && old(rows).op.version == expected
                      && InCompensationFamily(old(rows).op.state) && !old(rows).op.state.Compensated?)
    {
      Interfere();
      Sound();
      var seen := rows;
      var kind := EscalationKind(seen.op.state);
      if seen.op.version != expected || kind.None? {
        return RejectedRequest;
      }
      disposition := CommitEscalation(seen, kind.value);
    }

    method CommitEscalation(seen: Rows, kind: Kind) returns (disposition: Disposition)
      requires Valid() && phase.Idle? && HasCompensation(seen) && seen == rows
      requires EscalationKind(seen.op.state) == Some(kind)
      modifies this`rows, this`run, this`disturbances
      ensures Valid() && old(run) <= run && ForeignSince(seen, rows)
      ensures disposition.Accepted? ==> rows.op.state.ManualIntervention?
      ensures old(disturbances) <= disturbances
      ensures disturbances == old(disturbances) && RowsFit(seen) ==> disposition.Accepted?
    {
      var result := Commit(seen, Move(kind, seen.op.version, None, None));
      if result.Applied? {
        EscalationIsForeign(seen, kind);
        Take(OtherCommand(ManualIntervention));
        return Accepted;
      }
      return if result.PersistenceFailure? then InfrastructureFailure
        else if result.AlreadyApplied? then Accepted
        else RejectedRequest;
    }
  }
}
