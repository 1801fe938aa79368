/** TransitionService.apply on the rows of one operation (src/stateback/transitions):
    the row checks, the preconditions and the atomic write of each command that the
    compensation services send, and of every other lifecycle command as a state edge. */
module Transitions {
  import opened Lifecycle
  import opened Reconciliation

  datatype Operation = Operation(state: OperationState, version: nat, compensationId: Option<Id>)

  /** A compensation record with its attempts, ordered by attempt number. */
  datatype Compensation = Compensation(state: CompensationState, version: nat, attempts: seq<Attempt>)

  /** A compensation-target verification: the request and its durable result. */
  datatype Verification = Verification(
    id: Id, operationVersion: nat, targetAttempt: Id, result: Option<Verdict>)

  /** The committed rows of one operation. */
  datatype Rows = Rows(
    op: Operation,
    compensations: map<Id, Compensation>,
    verifications: seq<Verification>)

  /** The transition kinds that move the operation together with its compensation. */
  datatype Kind =
    | CompensationApplied
    | CompensationOutcomeUnknown
    | CompensationOutcomeFailed
    | CompensationEscalate
    | CompensationUnknownRetry
    | CompensationUnknownEscalate
    | CompensationFailedRetry
    | CompensationFailedEscalate

  datatype Command =
    | StartCompensation(expected: nat, compensationId: Id)
    | ClaimExecution(expected: nat, compensationId: Id, expectedCompensation: nat, attempt: Attempt)
    | StartVerification(
        expected: nat, compensationId: Id, expectedCompensation: nat,
        completed: Option<Attempt>, request: Verification)
    | ClaimRetryAttempt(expected: nat, compensationId: Id, expectedCompensation: nat, attempt: Attempt)
    | RetryAfterVerification(
        expected: nat, compensationId: Id, expectedCompensation: nat,
        verdict: Verdict, attempt: Attempt)
    | Move(kind: Kind, expected: nat, completed: Option<Attempt>, judged: Option<Verdict>)
    | Foreign(expected: nat, to: OperationState)

  datatype Reason =
    | SourceStateMismatch
    | UnlistedTransition
    | CompensationMissing
    | ParentInconsistent
    | CompensationStateMismatch
    | IdempotentMismatch
    | AttemptMissing
    | AttemptNotStarted
    | AttemptNotCompleted
    | AttemptNumberMismatch
    | AttemptOutcomeMismatch
    | EvidenceConflict
    | VerificationMissing
    | VerificationOutcomeMismatch
    | StaleVersion

  /** The result of one apply: the new rows, an outcome that writes nothing, or an
      exception that rolls the unit of work back. */
  datatype Result =
    | Applied(rows: Rows)
    | AlreadyApplied
    | Rejected(reason: Reason)
    | Conflict
    | PersistenceFailure

  function SourceOf(kind: Kind): OperationState {
    match kind
    case CompensationApplied => Compensating
    case CompensationOutcomeUnknown => Compensating
    case CompensationOutcomeFailed => Compensating
    case CompensationEscalate => Compensating
    case CompensationUnknownRetry => OperationState.CompensationUnknown
    case CompensationUnknownEscalate => OperationState.CompensationUnknown
    case CompensationFailedRetry => OperationState.CompensationFailed
    case CompensationFailedEscalate => OperationState.CompensationFailed
  }

  function TargetOf(kind: Kind): OperationState {
    match kind
    case CompensationApplied => Compensated
    case CompensationOutcomeUnknown => OperationState.CompensationUnknown
    case CompensationOutcomeFailed => OperationState.CompensationFailed
    case CompensationEscalate => ManualIntervention
    case CompensationUnknownRetry => Compensating
    case CompensationUnknownEscalate => ManualIntervention
    case CompensationFailedRetry => Compensating
    case CompensationFailedEscalate => ManualIntervention
  }

  /** COMPENSATION_TARGET_STATE; the escalations leave the compensation alone. */
  function CompensationTarget(kind: Kind): Option<CompensationState> {
    match kind
    case CompensationApplied => Some(CompSucceeded)
    case CompensationOutcomeUnknown => Some(CompUnknown)
    case CompensationOutcomeFailed => Some(CompFailed)
    case CompensationUnknownRetry => Some(CompExecuting)
    case CompensationFailedRetry => Some(CompExecuting)
    case _ => None
  }

  // ---------------------------------------------------------------- row access

  /** The position of the row with this id, or the length when there is none. */
  function FindVerification(rows: seq<Verification>, id: Id): (i: nat)
    ensures i <= |rows|
    ensures i < |rows| ==> rows[i].id == id
    ensures forall j :: 0 <= j < i ==> rows[j].id != id
  {
    if |rows| == 0 then 0
    else if rows[0].id == id then 0
    else 1 + FindVerification(rows[1..], id)
  }

  function CompleteVerification(rows: seq<Verification>, verdict: Verdict): (r: seq<Verification>)
    ensures |r| == |rows|
  {
    var i := FindVerification(rows, verdict.id);
    if i < |rows| && rows[i].result.None? then rows[i := rows[i].(result := Some(verdict))] else rows
  }

  function LatestAttempt(compensation: Compensation): Option<Attempt> {
    if |compensation.attempts| == 0 then None
    else Some(compensation.attempts[|compensation.attempts| - 1])
  }

  predicate AttemptIdUsed(rows: Rows, id: Id) {
    exists c, i :: c in rows.compensations && 0 <= i < |rows.compensations[c].attempts|
      && rows.compensations[c].attempts[i].id == id
  }

  /** complete(): only the latest attempt is ever completed, and only while STARTED. */
  function CompleteLatest(attempts: seq<Attempt>, completed: Option<Attempt>): (r: seq<Attempt>)
    ensures |r| == |attempts|
  {
    if completed.None? || |attempts| == 0 || !attempts[|attempts| - 1].state.Started? then attempts
    else attempts[|attempts| - 1 := attempts[|attempts| - 1].(state := completed.value.state)]
  }

  // ---------------------------------------------------------------- preconditions

  /** The verification part of _check_compensation_outcome. */
  function VerdictProblem(
    rows: Rows, verdict: Verdict, expected: Option<EffectOutcome>, latest: Option<Attempt>): Option<Reason>
  {
    var i := FindVerification(rows.verifications, verdict.id);
    if expected.Some? && verdict.outcome != expected.value then Some(VerificationOutcomeMismatch)
    else if i == |rows.verifications| then Some(VerificationMissing)
    else if rows.verifications[i].operationVersion != rows.op.version then Some(StaleVersion)
    else if latest.None? then Some(AttemptMissing)
    else if rows.verifications[i].targetAttempt != latest.value.id then Some(AttemptMissing)
    else if rows.verifications[i].result.Some? && rows.verifications[i].result.value != verdict
    then Some(EvidenceConflict)
    else None
  }

  /** The attempt part of _check_compensation_outcome. */
  function CompletionProblem(
    completed: Option<Attempt>, latest: Option<Attempt>, expected: Option<EffectOutcome>,
    allowMissing: bool, verdict: Option<Verdict>): Option<Reason>
  {
    if completed.None? then (if allowMissing then None else Some(AttemptMissing))
    else if latest.None? then Some(AttemptMissing)
    else if completed.value.id != latest.value.id then Some(EvidenceConflict)
    else
      match latest.value.state
      case Completed(outcome) =>
        if completed.value.state != latest.value.state then Some(EvidenceConflict)
        else if expected.Some? && outcome != expected.value then
          if verdict.Some? && verdict.value.outcome == expected.value && outcome.EffectUnknown?
          then None
          else Some(AttemptOutcomeMismatch)
        else None
      case Started =>
        if !completed.value.state.Completed? then Some(AttemptNotCompleted)
        else if expected.Some? && completed.value.state.outcome != expected.value
        then Some(AttemptOutcomeMismatch)
        else None
  }

  function ExpectedOutcome(kind: Kind): Option<EffectOutcome> {
    match kind
    case CompensationApplied => Some(EffectApplied)
    case CompensationOutcomeFailed => Some(EffectNotApplied)
    case CompensationOutcomeUnknown => Some(EffectUnknown)
    case _ => None
  }

  predicate AllowsMissingAttempt(kind: Kind) {
    !kind.CompensationApplied? && !kind.CompensationOutcomeFailed?
  }

  /** evaluate_preconditions for the compensation kinds. */
  function MoveProblem(rows: Rows, kind: Kind, completed: Option<Attempt>, verdict: Option<Verdict>):
    Option<Reason>
  {
    if rows.op.compensationId.None? || rows.op.compensationId.value !in rows.compensations
    then Some(CompensationMissing)
    else
      var compensation := rows.compensations[rows.op.compensationId.value];
      var latest := LatestAttempt(compensation);
      if ParentState(compensation.state) != rows.op.state then Some(ParentInconsistent)
      else
        var bad :=
          if verdict.Some? then VerdictProblem(rows, verdict.value, ExpectedOutcome(kind), latest) else None;
        if bad.Some? then bad
        else
          var target := CompensationTarget(kind);
          if target.Some? && ParentState(target.value) != TargetOf(kind) then Some(ParentInconsistent)
          else if target.Some? && !LegalCompensationEdge(compensation.state, target.value)
               && compensation.state != target.value
          then Some(CompensationStateMismatch)
          else
            CompletionProblem(
              completed, latest, ExpectedOutcome(kind), AllowsMissingAttempt(kind), verdict)
  }

  // ---------------------------------------------------------------- apply

  /** _apply_operation for the compensation kinds. */
  function ApplyMove(
    rows: Rows, kind: Kind, expected: nat, completed: Option<Attempt>, verdict: Option<Verdict>): Result
  {
    if rows.op.version == expected + 1 then
      if rows.op.state == TargetOf(kind) then AlreadyApplied else Rejected(IdempotentMismatch)
    else if rows.op.version != expected then Conflict
    else if rows.op.state != SourceOf(kind) then Rejected(SourceStateMismatch)
    else if !LegalOperationEdge(rows.op.state, TargetOf(kind)) then Rejected(UnlistedTransition)
    else
      var problem := MoveProblem(rows, kind, completed, verdict);
      if problem.Some? then Rejected(problem.value)
      else
        var id := rows.op.compensationId.value;
        var before := rows.compensations[id];
        var target := CompensationTarget(kind);
        var after := if target.None? then before else
          Compensation(target.value, before.version + 1, CompleteLatest(before.attempts, completed));
        Applied(Rows(
          rows.op.(state := TargetOf(kind), version := rows.op.version + 1),
          rows.compensations[id := after],
          if verdict.Some? then CompleteVerification(rows.verifications, verdict.value)
          else rows.verifications))
  }

  /** _apply_operation for SUCCEEDED_, FAILED_ and MANUAL_START_COMPENSATION. Like the
      source it does not look at the operation's present compensation id. */
  function ApplyStart(rows: Rows, expected: nat, compensationId: Id): Result {
    if rows.op.version == expected + 1 then
      if rows.op.state == Compensating then AlreadyApplied else Rejected(IdempotentMismatch)
    else if rows.op.version != expected then Conflict
    else if !LegalOperationEdge(rows.op.state, Compensating) || InCompensationFamily(rows.op.state)
    then Rejected(SourceStateMismatch)
    else if compensationId in rows.compensations then PersistenceFailure
    else
      Applied(rows.(
        op := Operation(Compensating, rows.op.version + 1, Some(compensationId)),
        compensations := rows.compensations[compensationId := Compensation(CompPending, 1, [])]))
  }

  /** The checks shared by the four commands that move only the compensation. */
  function ProgressProblem(rows: Rows, expected: nat, compensationId: Id): Option<Result> {
    if rows.op.version != expected then Some(Conflict)
    else if rows.op.state != Compensating then Some(Rejected(SourceStateMismatch))
    else if compensationId !in rows.compensations then Some(Rejected(CompensationMissing))
    else None
  }

  function WithAttempt(rows: Rows, id: Id, attempt: Attempt): Rows
    requires id in rows.compensations
  {
    var before := rows.compensations[id];
    rows.(compensations :=
      rows.compensations[id := Compensation(CompExecuting, before.version + 1, before.attempts + [attempt])])
  }

  function ApplyClaim(rows: Rows, command: Command): Result
    requires command.ClaimExecution?
  {
    var problem := ProgressProblem(rows, command.expected, command.compensationId);
    if problem.Some? then problem.value
    else
      var compensation := rows.compensations[command.compensationId];
      if compensation.state.CompExecuting? && compensation.version == command.expectedCompensation + 1
      then AlreadyApplied
      else if compensation.version != command.expectedCompensation then Conflict
      else if !compensation.state.CompPending? then Rejected(CompensationStateMismatch)
      else if !command.attempt.state.Started? then Rejected(AttemptNotStarted)
      else if command.attempt.number != |compensation.attempts| + 1 then Rejected(AttemptNumberMismatch)
      else if AttemptIdUsed(rows, command.attempt.id) then PersistenceFailure
      else Applied(WithAttempt(rows, command.compensationId, command.attempt))
  }

  function ApplyClaimRetry(rows: Rows, command: Command): Result
    requires command.ClaimRetryAttempt?
  {
    var problem := ProgressProblem(rows, command.expected, command.compensationId);
    if problem.Some? then problem.value
    else
      var compensation := rows.compensations[command.compensationId];
      var latest := LatestAttempt(compensation);
      if compensation.version == command.expectedCompensation + 1 then
        if latest.Some? && latest.value.state.Started? && latest.value.id == command.attempt.id
        then AlreadyApplied
        else Rejected(IdempotentMismatch)
      else if compensation.version != command.expectedCompensation then Conflict
      else if !compensation.state.CompExecuting? then Rejected(CompensationStateMismatch)
      else if latest.None? then Rejected(AttemptMissing)
      else if !latest.value.state.Completed? then Rejected(AttemptNotCompleted)
      else if !command.attempt.state.Started? then Rejected(AttemptNotStarted)
      else if command.attempt.number != |compensation.attempts| + 1 then Rejected(AttemptNumberMismatch)
      else if AttemptIdUsed(rows, command.attempt.id) then PersistenceFailure
      else Applied(WithAttempt(rows, command.compensationId, command.attempt))
  }

  function StartVerificationProblem(rows: Rows, command: Command, latest: Option<Attempt>): Option<Reason>
    requires command.StartVerification?
  {
    if command.request.operationVersion != command.expected then Some(StaleVersion)
    else if latest.None? then Some(AttemptMissing)
    else if command.completed.None? then None
    else if command.completed.value.id != latest.value.id then Some(EvidenceConflict)
    else
      match latest.value.state
      case Completed(outcome) =>
        if command.completed.value.state != latest.value.state then Some(EvidenceConflict)
        else if !outcome.EffectApplied? then Some(AttemptOutcomeMismatch)
        else None
      case Started =>
        if !command.completed.value.state.Completed? then Some(AttemptNotCompleted)
        else if !command.completed.value.state.outcome.EffectApplied? then Some(AttemptOutcomeMismatch)
        else None
  }

  function ApplyStartVerification(rows: Rows, command: Command): Result
    requires command.StartVerification?
  {
    var problem := ProgressProblem(rows, command.expected, command.compensationId);
    if problem.Some? then problem.value
    else
      var compensation := rows.compensations[command.compensationId];
      if compensation.version == command.expectedCompensation + 1 then
        if compensation.state.CompVerifying? then AlreadyApplied else Rejected(IdempotentMismatch)
      else if compensation.version != command.expectedCompensation then Conflict
      else if !compensation.state.CompExecuting? then Rejected(CompensationStateMismatch)
      else
        var bad := StartVerificationProblem(rows, command, LatestAttempt(compensation));
        if bad.Some? then Rejected(bad.value)
        else if FindVerification(rows.verifications, command.request.id) < |rows.verifications|
        then PersistenceFailure
        else
          var after := Compensation(
            CompVerifying, compensation.version + 1,
            CompleteLatest(compensation.attempts, command.completed));
          Applied(rows.(
            compensations := rows.compensations[command.compensationId := after],
            verifications := rows.verifications + [command.request.(result := None)]))
  }

  function ApplyRetryAfterVerification(rows: Rows, command: Command): Result
    requires command.RetryAfterVerification?
  {
    var problem := ProgressProblem(rows, command.expected, command.compensationId);
    if problem.Some? then problem.value
    else
      var compensation := rows.compensations[command.compensationId];
      var latest := LatestAttempt(compensation);
      if compensation.version == command.expectedCompensation + 1 then
        if latest.Some? && latest.value.state.Started? && latest.value.id == command.attempt.id
        then AlreadyApplied
        else Rejected(IdempotentMismatch)
      else if compensation.version != command.expectedCompensation then Conflict
      else if !compensation.state.CompVerifying? then Rejected(CompensationStateMismatch)
      else
        var bad := VerdictProblem(rows, command.verdict, Some(EffectNotApplied), latest);
        if bad.Some? then Rejected(bad.value)
        else if !command.attempt.state.Started? then Rejected(AttemptNotStarted)
        else if command.attempt.number != |compensation.attempts| + 1 then Rejected(AttemptNumberMismatch)
        else if AttemptIdUsed(rows, command.attempt.id) then PersistenceFailure
        else
          Applied(WithAttempt(
            rows.(verifications := CompleteVerification(rows.verifications, command.verdict)),
            command.compensationId, command.attempt))
  }

  /** Every lifecycle command outside the compensation services, and the relay's
      escalation: one legal edge that leaves the compensation rows alone. */
  function ApplyForeign(rows: Rows, expected: nat, to: OperationState): Result {
    if rows.op.version != expected then Conflict
    else if !LegalOperationEdge(rows.op.state, to) then Rejected(UnlistedTransition)
    else if InCompensationFamily(to) || (InCompensationFamily(rows.op.state) && !to.ManualIntervention?)
    then Rejected(SourceStateMismatch)
    else Applied(rows.(op := rows.op.(state := to, version := rows.op.version + 1)))
  }

  function Apply(rows: Rows, command: Command): Result {
    match command
    case StartCompensation(expected, id) => ApplyStart(rows, expected, id)
    case ClaimExecution(_, _, _, _) => ApplyClaim(rows, command)
    case StartVerification(_, _, _, _, _) => ApplyStartVerification(rows, command)
    case ClaimRetryAttempt(_, _, _, _) => ApplyClaimRetry(rows, command)
    case RetryAfterVerification(_, _, _, _, _) => ApplyRetryAfterVerification(rows, command)
    case Move(kind, expected, completed, verdict) => ApplyMove(rows, kind, expected, completed, verdict)
    case Foreign(expected, to) => ApplyForeign(rows, expected, to)
  }
}
