/** The compensation protocol as a state machine (src/stateback/compensation). A system is
    the committed rows of one operation, what the one running driver has in hand, and the
    log of what the provider was asked and answered. A step is one commit or one provider
    call; between any two steps the driver may crash and other commands may commit. */
module CompensationProtocol {
  import opened Lifecycle
  import opened RetrySafety
  import opened Reconciliation
  import opened Transitions

  /** One provider compensate call, with the attempt it was made for. */
  datatype Answer = Answer(attempt: Id, number: nat, outcome: EffectOutcome)

  /** What the running driver holds in memory; a crash loses it. */
  datatype Phase =
    | Idle
    | Claimed(attempt: Attempt)
    | Answered(attempt: Attempt, outcome: EffectOutcome)
    | Judged(verdict: Verdict)

  datatype System = System(
    rows: Rows,
    phase: Phase,
    answers: seq<Answer>,
    verdicts: seq<Verdict>,
    operatorRetries: nat,
    inconclusive: nat)

  datatype CompensateDecision = RecordUnknown | RequireVerification | RecordApplied | RecordFailed

  /** decide_compensate_kind */
  function DecideCompensate(outcome: EffectOutcome, setting: Setting): CompensateDecision {
    match outcome
    case EffectUnknown => RecordUnknown
    case EffectApplied =>
      if setting.obligations.requireVerification || !setting.descriptor.responseProvesApplied
      then RequireVerification
      else RecordApplied
    case EffectNotApplied => RecordFailed
  }

  // ---------------------------------------------------------------- reading the rows

  predicate HasCompensation(rows: Rows) {
    rows.op.compensationId.Some? && rows.op.compensationId.value in rows.compensations
  }

  function Current(rows: Rows): Compensation
    requires HasCompensation(rows)
  {
    rows.compensations[rows.op.compensationId.value]
  }

  /** completed_compensation_verification_count */
  function CompletedCount(rows: seq<Verification>): nat {
    if |rows| == 0 then 0
    else CompletedCount(rows[..|rows| - 1]) + (if rows[|rows| - 1].result.Some? then 1 else 0)
  }

  /** The count that reconciliation sees: the current result is always included. */
  function CountWith(rows: seq<Verification>, verdict: Verdict): nat {
    var i := FindVerification(rows, verdict.id);
    CompletedCount(rows) + (if i < |rows| && rows[i].result.None? then 1 else 0)
  }

  /** find_pending_compensation_verification: the last row without a result. */
  function LastPending(rows: seq<Verification>): (i: Option<nat>)
    ensures i.Some? ==> i.value < |rows| && rows[i.value].result.None?
    ensures i.None? ==> forall k :: 0 <= k < |rows| ==> rows[k].result.Some?
  {
    if |rows| == 0 then None
    else if rows[|rows| - 1].result.None? then Some(|rows| - 1)
    else LastPending(rows[..|rows| - 1])
  }

  function NextAttempt(compensation: Compensation, id: Id, now: int): Attempt {
    Attempt(id, |compensation.attempts| + 1, Started, now)
  }

  /** evaluate_retry_safety as the automatic retries ask it. */
  function RetryVerdict(setting: Setting, compensation: Compensation, outcome: EffectOutcome, now: int):
    SafetyDecision
    requires |compensation.attempts| > 0
  {
    RegistryRetrySafety(
      setting.descriptor, Some(outcome), None, now, Some(compensation.attempts[0].startedAt), false)
  }

  /** The automatic retry guard: a licensed retry below the attempt cap. */
  predicate MayRetryAutomatically(
    setting: Setting, compensation: Compensation, outcome: EffectOutcome, number: nat, now: int)
    requires |compensation.attempts| > 0
  {
    && RetryVerdict(setting, compensation, outcome, now).verdict.Safe?
    && number < ExecutionCap(setting.obligations)
  }

  // ---------------------------------------------------------------- the commands sent

  function ClaimCommand(rows: Rows, id: Id, now: int): Command
    requires HasCompensation(rows)
  {
    ClaimExecution(rows.op.version, rows.op.compensationId.value, Current(rows).version,
                   NextAttempt(Current(rows), id, now))
  }

  /** build_compensate_outcome_command */
  function OutcomeCommand(
    setting: Setting, rows: Rows, attempt: Attempt, outcome: EffectOutcome, verificationId: Id): Command
    requires HasCompensation(rows)
  {
    var completed := attempt.(state := Completed(outcome));
    match DecideCompensate(outcome, setting)
    case RecordUnknown => Move(CompensationOutcomeUnknown, rows.op.version, Some(completed), None)
    case RecordApplied => Move(CompensationApplied, rows.op.version, Some(completed), None)
    case RecordFailed => Move(CompensationOutcomeFailed, rows.op.version, Some(completed), None)
    case RequireVerification =>
      StartVerification(
        rows.op.version, rows.op.compensationId.value, Current(rows).version, Some(completed),
        Verification(verificationId, rows.op.version, attempt.id, None))
  }

  /** The attempt a verification result completes: its own evidence when it has some,
      otherwise the leftover attempt closed by the verdict. */
  function CompletedByVerdict(latest: Attempt, verdict: Verdict): Attempt {
    if latest.state.Completed? then latest else latest.(state := Completed(verdict.outcome))
  }

  function VerdictAction(setting: Setting, rows: Rows, verdict: Verdict): Action
    requires HasCompensation(rows)
  {
    Reconcile(verdict, LatestAttempt(Current(rows)), setting.descriptor, setting.obligations,
              CountWith(rows.verifications, verdict))
  }

  /** _verify_outcome_command for a decided action; None is the missing-attempt rejection. */
  function ConcludeCommand(rows: Rows, verdict: Verdict, action: Action, nextId: Id, now: int): Option<Command>
    requires HasCompensation(rows)
  {
    var latest := LatestAttempt(Current(rows));
    match action
    case MarkSucceeded =>
      if latest.None? then None
      else Some(Move(CompensationApplied, rows.op.version,
                     Some(CompletedByVerdict(latest.value, verdict)), Some(verdict)))
    case MarkFailed =>
      if latest.None? then None
      else Some(Move(CompensationOutcomeFailed, rows.op.version,
                     Some(CompletedByVerdict(latest.value, verdict)), Some(verdict)))
    case RetrySafely =>
      Some(RetryAfterVerification(
             rows.op.version, rows.op.compensationId.value, Current(rows).version, verdict,
             NextAttempt(Current(rows), nextId, now)))
    case RemainUnknown =>
      Some(Move(CompensationOutcomeUnknown, rows.op.version, None, Some(verdict)))
    case RequireManual =>
      Some(Move(CompensationEscalate, rows.op.version, None, Some(verdict)))
  }

  /** What a unit of work of two commands leaves behind: a rejection of the second is not an
      exception, so the first is committed without it; a failure rolls both back. */
  datatype Pair = Both(rows: Rows) | FirstOnly(first: Rows) | Neither

  function ApplyBoth(rows: Rows, first: Command, second: Rows -> Command): Pair {
    var one := Apply(rows, first);
    if !one.Applied? then Neither
    else
      match Apply(one.rows, second(one.rows))
      case Applied(two) => Both(two)
      case Rejected(_) => FirstOnly(one.rows)
      case AlreadyApplied => FirstOnly(one.rows)
      case _ => Neither
  }

  /** The parent's retry from the version a driver read, with the claim of its attempt. */
  function RetryWith(rows: Rows, kind: Kind, expected: nat, attempt: Attempt): Pair
    requires HasCompensation(rows)
  {
    var compensationId := rows.op.compensationId.value;
    ApplyBoth(rows, Move(kind, expected, None, None),
              (one: Rows) =>
                ClaimRetryAttempt(
                  one.op.version, compensationId,
                  if compensationId in one.compensations then one.compensations[compensationId].version else 0,
                  attempt))
  }

  function RetryThenClaim(rows: Rows, kind: Kind, id: Id, now: int): Pair
    requires HasCompensation(rows)
  {
    RetryWith(rows, kind, rows.op.version, NextAttempt(Current(rows), id, now))
  }

  function RetryThenVerify(rows: Rows, target: Id, verificationId: Id): Pair
    requires HasCompensation(rows)
  {
    var compensationId := rows.op.compensationId.value;
    ApplyBoth(rows, Move(CompensationUnknownRetry, rows.op.version, None, None),
              (one: Rows) =>
                StartVerification(
                  one.op.version, compensationId,
                  if compensationId in one.compensations then one.compensations[compensationId].version else 0,
                  None,
                  Verification(verificationId, one.op.version, target, None)))
  }

  // ---------------------------------------------------------------- steps

  datatype Step =
    | Start(compensationId: Id)
    | Claim(attempt: Id, now: int)
    | CallProvider(outcome: EffectOutcome)
    | RecordOutcome(verification: Id)
    | RetryAfterFailure(attempt: Id, now: int)
    | OperatorRetry(attempt: Id, now: int)
    | AbandonLeftover
    | RetryUnknown(attempt: Id, now: int)
    | ResumeVerification(verification: Id)
    | EscalateUnknown(now: int)
    | AskVerifier(row: nat, verdict: Verdict)
    | Conclude(attempt: Id, now: int)
    | OtherCommand(to: OperationState)
    | Crash

  predicate Commits(s: System, command: Command, t: System, phase: Phase) {
    Apply(s.rows, command).Applied? && t == s.(rows := Apply(s.rows, command).rows, phase := phase)
  }

  predicate Takes(setting: Setting, s: System, step: Step, t: System) {
    match step
    case Start(id) =>
      s.phase.Idle? && s.rows.op.compensationId.None?
      && Commits(s, StartCompensation(s.rows.op.version, id), t, Idle)
    case Claim(id, now) =>
      && s.phase.Idle? && HasCompensation(s.rows)
      && Commits(s, ClaimCommand(s.rows, id, now), t, Claimed(NextAttempt(Current(s.rows), id, now)))
    case CallProvider(outcome) =>
      && s.phase.Claimed?
      && t == s.(phase := Answered(s.phase.attempt, outcome),
                 answers := s.answers + [Answer(s.phase.attempt.id, s.phase.attempt.number, outcome)])
    case RecordOutcome(verification) =>
      && s.phase.Answered? && HasCompensation(s.rows)
      && Commits(s, OutcomeCommand(setting, s.rows, s.phase.attempt, s.phase.outcome, verification), t, Idle)
    case RetryAfterFailure(id, now) =>
      && s.phase.Idle? && HasCompensation(s.rows)
      && |Current(s.rows).attempts| > 0
      && MayRetryAutomatically(
           setting, Current(s.rows), EffectNotApplied, |Current(s.rows).attempts|, now)
      && var pair := RetryThenClaim(s.rows, CompensationFailedRetry, id, now);
      && pair.Both?
      && t == s.(rows := pair.rows, phase := Claimed(NextAttempt(Current(s.rows), id, now)))
    case OperatorRetry(id, now) =>
      && s.phase.Idle? && HasCompensation(s.rows)
      && var pair := RetryThenClaim(s.rows, CompensationFailedRetry, id, now);
      && pair.Both?
      && t == s.(rows := pair.rows, phase := Claimed(NextAttempt(Current(s.rows), id, now)),
                 operatorRetries := s.operatorRetries + 1)
    case AbandonLeftover =>
      && s.phase.Idle? && HasCompensation(s.rows)
      && Current(s.rows).state.CompExecuting?
      && LatestAttempt(Current(s.rows)).Some?
      && LatestAttempt(Current(s.rows)).value.state.Started?
      && Commits(s, Move(CompensationOutcomeUnknown, s.rows.op.version, None, None), t, Idle)
    case RetryUnknown(id, now) =>
      && s.phase.Idle? && HasCompensation(s.rows)
      && LatestAttempt(Current(s.rows)).Some?
      && var latest := LatestAttempt(Current(s.rows)).value;
      && !setting.descriptor.verifiable
      && MayRetryAutomatically(setting, Current(s.rows), UnknownOutcome(latest), latest.number, now)
      && var pair := RetryThenClaim(s.rows, CompensationUnknownRetry, id, now);
      && !pair.Neither?
      && t == (if pair.Both?
               then s.(rows := pair.rows, phase := Claimed(NextAttempt(Current(s.rows), id, now)))
               else s.(rows := pair.first))
    case ResumeVerification(verification) =>
      && s.phase.Idle? && HasCompensation(s.rows)
      && LatestAttempt(Current(s.rows)).Some?
      && setting.descriptor.verifiable
      && var pair := RetryThenVerify(s.rows, LatestAttempt(Current(s.rows)).value.id, verification);
      && pair.Both?
      && t == s.(rows := pair.rows)
    case EscalateUnknown(now) =>
      && s.phase.Idle? && HasCompensation(s.rows)
      && LatestAttempt(Current(s.rows)).Some?
      && var latest := LatestAttempt(Current(s.rows)).value;
      && !setting.descriptor.verifiable
      && !MayRetryAutomatically(setting, Current(s.rows), UnknownOutcome(latest), latest.number, now)
      && Commits(s, Move(CompensationUnknownEscalate, s.rows.op.version, None, None), t, Idle)
    case AskVerifier(row, verdict) =>
      && s.phase.Idle?
      && row < |s.rows.verifications| && s.rows.verifications[row].result.None?
      && verdict.id == s.rows.verifications[row].id
      && t == s.(phase := Judged(verdict), verdicts := s.verdicts + [verdict])
    case Conclude(id, now) =>
      && s.phase.Judged? && HasCompensation(s.rows)
      && s.rows.op.state.Compensating? && Current(s.rows).state.CompVerifying?
      && var action := VerdictAction(setting, s.rows, s.phase.verdict);
      && var command := ConcludeCommand(s.rows, s.phase.verdict, action, id, now);
      && command.Some?
      && Apply(s.rows, command.value).Applied?
      && t == s.(rows := Apply(s.rows, command.value).rows,
                 phase := if action.RetrySafely? then Claimed(NextAttempt(Current(s.rows), id, now)) else Idle,
                 inconclusive := s.inconclusive + (if action.RemainUnknown? then 1 else 0))
    case OtherCommand(to) =>
      Commits(s, Foreign(s.rows.op.version, to), t, s.phase)
    case Crash =>
      t == s.(phase := Idle)
  }

  ghost predicate Next(setting: Setting, s: System, t: System) {
    exists step :: Takes(setting, s, step, t)
  }

  /** An operation that has not been compensated yet, before any provider call. */
  predicate Initial(s: System) {
    && !InCompensationFamily(s.rows.op.state)
    && s.rows == Rows(s.rows.op, map[], [])
    && s.rows.op.compensationId.None?
    && s == System(s.rows, Idle, [], [], 0, 0)
  }

  /** Position i of the run is followed by one step. */
  ghost predicate StepAt(setting: Setting, run: seq<System>, i: nat)
    requires i + 1 < |run|
  {
    Next(setting, run[i], run[i + 1])
  }

  /** A run: any number of steps, with crashes and foreign commands anywhere. */
  ghost predicate IsRun(setting: Setting, run: seq<System>) {
    && |run| > 0
    && Initial(run[0])
    && forall i :: 0 <= i < |run| - 1 ==> StepAt(setting, run, i)
  }
}
