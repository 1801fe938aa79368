/** TransitionService.apply on the rows of the original effect: the claim, the execution,
    verification and unknown-recovery kinds, and every other lifecycle edge
    (src/stateback/transitions). */
module EffectTransitions {
  import opened Lifecycle
  import opened RetrySafety
  import opened Reconciliation

  datatype EffectOperation = EffectOperation(state: OperationState, version: nat, latestCheck: Option<Id>)

  /** An original-effect verification: the request and its durable result. */
  datatype Check = Check(id: Id, operationVersion: nat, target: Option<Id>, result: Option<Verdict>)

  /** The committed rows of one operation, as far as its own effect goes. Attempts are
      ordered by number; checks by their creation. */
  datatype Ledger = Ledger(op: EffectOperation, attempts: seq<Attempt>, checks: seq<Check>)

  datatype EffectKind =
    | ExecutionApplied
    | ExecutionRequireVerification
    | ExecutionNotAppliedRetry
    | ExecutionNotAppliedFail
    | ExecutionUnknown
    | VerificationApplied
    | VerificationNotAppliedRetry
    | VerificationNotAppliedFail
    | VerificationInconclusive
    | VerificationEscalate
    | UnknownStartVerification
    | ManualStartVerification

  datatype EffectCommand =
    | ClaimEffect(expected: nat, attempt: Attempt)
    | FinishExecution(kind: EffectKind, expected: nat, completed: Option<Attempt>, check: Check)
    | FinishVerification(kind: EffectKind, expected: nat, verdict: Verdict)
    | StartCheck(kind: EffectKind, expected: nat, check: Check)
    | UnknownSafeRetry(expected: nat, execution: EffectOutcome, idempotency: IdempotencyMode)
    | UnknownEscalate(expected: nat)
    | OtherEdge(expected: nat, to: OperationState)

  datatype EffectReason =
    | SourceStateMismatch
    | IdempotentMismatch
    | AttemptMissing
    | AttemptNotStarted
    | AttemptNotCompleted
    | AttemptNumberMismatch
    | AttemptOutcomeMismatch
    | EvidenceConflict
    | VerificationMissing
    | VerificationOutcomeMismatch
    | StaleVersion
    | RetryNeedsProof
    | RetryUnsafe
    | UnlistedTransition

  datatype EffectResult =
    | EffectCommitted(ledger: Ledger)
    | AlreadyCommitted
    | Refused(reason: EffectReason)
    | VersionConflict
    | StorageFailure

  function SourceOf(kind: EffectKind): OperationState {
    match kind
    case ExecutionApplied => Executing
    case ExecutionRequireVerification => Executing
    case ExecutionNotAppliedRetry => Executing
    case ExecutionNotAppliedFail => Executing
    case ExecutionUnknown => Executing
    case UnknownStartVerification => Unknown
    case ManualStartVerification => ManualIntervention
    case _ => Verifying
  }

  function TargetOf(kind: EffectKind): OperationState {
    match kind
    case ExecutionApplied => Succeeded
    case ExecutionRequireVerification => Verifying
    case ExecutionNotAppliedRetry => Ready
    case ExecutionNotAppliedFail => Failed
    case ExecutionUnknown => Unknown
    case VerificationApplied => Succeeded
    case VerificationNotAppliedRetry => Ready
    case VerificationNotAppliedFail => Failed
    case VerificationInconclusive => Unknown
    case VerificationEscalate => ManualIntervention
    case UnknownStartVerification => Verifying
    case ManualStartVerification => Verifying
  }

  function CommandSource(command: EffectCommand, present: OperationState): OperationState {
    match command
    case ClaimEffect(_, _) => Ready
    case FinishExecution(kind, _, _, _) => SourceOf(kind)
    case FinishVerification(kind, _, _) => SourceOf(kind)
    case StartCheck(kind, _, _) => SourceOf(kind)
    case UnknownSafeRetry(_, _, _) => Unknown
    case UnknownEscalate(_) => Unknown
    case OtherEdge(_, _) => present
  }

  function CommandTarget(command: EffectCommand): OperationState {
    match command
    case ClaimEffect(_, _) => Executing
    case FinishExecution(kind, _, _, _) => TargetOf(kind)
    case FinishVerification(kind, _, _) => TargetOf(kind)
    case StartCheck(kind, _, _) => TargetOf(kind)
    case UnknownSafeRetry(_, _, _) => Ready
    case UnknownEscalate(_) => ManualIntervention
    case OtherEdge(_, to) => to
  }

  /** The edges of every other lifecycle command that some service sends: policy, approval,
      cancellation, compensation, and the escalations of the messaging recovery. */
  predicate IsOtherEdge(from: OperationState, to: OperationState) {
    && LegalOperationEdge(from, to)
    && (from.Executing? || from.Verifying? || from.Unknown? ==> to.ManualIntervention?)
    && (from.Ready? ==> !to.Executing?)
    && (from.ManualIntervention? ==> to.Compensating?)
  }

  // ---------------------------------------------------------------- row access

  function Latest(ledger: Ledger): Option<Attempt> {
    if |ledger.attempts| == 0 then None else Some(ledger.attempts[|ledger.attempts| - 1])
  }

  function LatestId(ledger: Ledger): Option<Id> {
    if |ledger.attempts| == 0 then None else Some(ledger.attempts[|ledger.attempts| - 1].id)
  }

  /** The position of the check with this id, or the length when there is none. */
  function FindCheck(checks: seq<Check>, id: Id): (i: nat)
    ensures i <= |checks|
    ensures i < |checks| ==> checks[i].id == id
    ensures forall j :: 0 <= j < i ==> checks[j].id != id
  {
    if |checks| == 0 then 0
    else if checks[0].id == id then 0
    else 1 + FindCheck(checks[1..], id)
  }

  function ResultOf(ledger: Ledger, id: Id): Option<Verdict> {
    var i := FindCheck(ledger.checks, id);
    if i < |ledger.checks| then ledger.checks[i].result else None
  }

  /** complete(): writes a result only where none is stored. */
  function StoreVerdict(checks: seq<Check>, verdict: Verdict): (r: seq<Check>)
    ensures |r| == |checks|
  {
    var i := FindCheck(checks, verdict.id);
    if i < |checks| && checks[i].result.None? then checks[i := checks[i].(result := Some(verdict))] else checks
  }

  predicate AttemptUsed(attempts: seq<Attempt>, id: Id) {
    exists i :: 0 <= i < |attempts| && attempts[i].id == id
  }

  // ---------------------------------------------------------------- preconditions

  /** _check_execution_attempt_complete */
  function CompletionProblem(
    latest: Option<Attempt>, completed: Option<Attempt>, expected: Option<EffectOutcome>, crashAllowed: bool):
    Option<EffectReason>
  {
    if latest.None? then Some(AttemptMissing)
    else if completed.None? then
      if !crashAllowed then Some(AttemptMissing)
      else if !latest.value.state.Started? then Some(AttemptNotStarted)
      else None
    else if completed.value.id != latest.value.id then Some(EvidenceConflict)
    else if completed.value.number != latest.value.number then Some(AttemptNumberMismatch)
    else
      match latest.value.state
      case Completed(outcome) =>
        if completed.value.state != latest.value.state then Some(EvidenceConflict)
        else if expected.Some? && outcome != expected.value then Some(AttemptOutcomeMismatch)
        else None
      case Started =>
        if !completed.value.state.Completed? then Some(AttemptNotCompleted)
        else if completed.value.startedAt != latest.value.startedAt then Some(EvidenceConflict)
        else if expected.Some? && completed.value.state.outcome != expected.value
        then Some(AttemptOutcomeMismatch)
        else None
  }

  function ExpectedOfExecution(kind: EffectKind): Option<EffectOutcome> {
    match kind
    case ExecutionApplied => Some(EffectApplied)
    case ExecutionNotAppliedRetry => Some(EffectNotApplied)
    case ExecutionNotAppliedFail => Some(EffectNotApplied)
    case ExecutionUnknown => Some(EffectUnknown)
    case _ => None
  }

  function ExpectedOfVerification(kind: EffectKind): Option<EffectOutcome> {
    match kind
    case VerificationApplied => Some(EffectApplied)
    case VerificationNotAppliedRetry => Some(EffectNotApplied)
    case VerificationNotAppliedFail => Some(EffectNotApplied)
    case VerificationInconclusive => Some(EffectUnknown)
    case _ => None
  }

  /** _check_verification_complete */
  function VerdictProblem(ledger: Ledger, verdict: Verdict, expected: Option<EffectOutcome>):
    Option<EffectReason>
  {
    if ledger.op.latestCheck != Some(verdict.id) then Some(VerificationMissing)
    else if expected.Some? && verdict.outcome != expected.value then Some(VerificationOutcomeMismatch)
    else
      var existing := ResultOf(ledger, verdict.id);
      if existing.Some? && existing.value.outcome != verdict.outcome then Some(EvidenceConflict) else None
  }

  /** map_retry_safety_reason: the transition knows the idempotency mode but neither a tested
      declaration nor the provider's key semantics. */
  function RetryProblem(execution: EffectOutcome, idempotency: IdempotencyMode): Option<EffectReason> {
    match EvaluateEffectRetrySafety(Some(execution), None, idempotency, false, None, false, false).verdict
    case Safe => None
    case NeedsCapabilityProof => Some(RetryNeedsProof)
    case Unsafe => Some(RetryUnsafe)
  }

  function EffectProblem(ledger: Ledger, command: EffectCommand): Option<EffectReason> {
    match command
    case ClaimEffect(_, attempt) =>
      if !attempt.state.Started? then Some(AttemptNotStarted)
      else if attempt.number != |ledger.attempts| + 1 then Some(AttemptNumberMismatch)
      else None
    case FinishExecution(kind, expected, completed, check) =>
      var problem := CompletionProblem(
        Latest(ledger), completed, ExpectedOfExecution(kind), kind.ExecutionUnknown?);
      if problem.Some? then problem
      else if kind.ExecutionRequireVerification? && check.operationVersion != expected then Some(StaleVersion)
      else None
    case FinishVerification(kind, _, verdict) =>
      VerdictProblem(ledger, verdict, ExpectedOfVerification(kind))
    case StartCheck(_, expected, check) =>
      if check.operationVersion != expected then Some(StaleVersion) else None
    case UnknownSafeRetry(_, execution, idempotency) => RetryProblem(execution, idempotency)
    case UnknownEscalate(_) => None
    case OtherEdge(_, to) =>
      if IsOtherEdge(ledger.op.state, to) then None else Some(UnlistedTransition)
  }

  // ---------------------------------------------------------------- apply

  function CompleteLast(attempts: seq<Attempt>, completed: Option<Attempt>): (r: seq<Attempt>)
    ensures |r| == |attempts|
  {
    if completed.None? || |attempts| == 0 || !attempts[|attempts| - 1].state.Started? then attempts
    else attempts[|attempts| - 1 := attempts[|attempts| - 1].(state := completed.value.state)]
  }

  function Moved(ledger: Ledger, to: OperationState): EffectOperation {
    ledger.op.(state := to, version := ledger.op.version + 1)
  }

  function OpenCheck(ledger: Ledger, check: Check, to: OperationState): EffectResult {
    if FindCheck(ledger.checks, check.id) < |ledger.checks| then StorageFailure
    else
      EffectCommitted(ledger.(
        op := Moved(ledger, to).(latestCheck := Some(check.id)),
        checks := ledger.checks + [check.(result := None)]))
  }

  function WriteEffect(ledger: Ledger, command: EffectCommand): EffectResult {
    var to := CommandTarget(command);
    match command
    case ClaimEffect(_, attempt) =>
      if AttemptUsed(ledger.attempts, attempt.id) then StorageFailure
      else EffectCommitted(ledger.(op := Moved(ledger, to), attempts := ledger.attempts + [attempt]))
    case FinishExecution(kind, _, completed, check) =>
      var recorded := ledger.(attempts := CompleteLast(ledger.attempts, completed));
      if kind.ExecutionRequireVerification? then OpenCheck(recorded, check, to)
      else EffectCommitted(recorded.(op := Moved(ledger, to)))
    case FinishVerification(_, _, verdict) =>
      if FindCheck(ledger.checks, verdict.id) == |ledger.checks| then StorageFailure
      else EffectCommitted(ledger.(op := Moved(ledger, to), checks := StoreVerdict(ledger.checks, verdict)))
    case StartCheck(_, _, check) => OpenCheck(ledger, check, to)
    case _ => EffectCommitted(ledger.(op := Moved(ledger, to)))
  }

  /** _apply_operation */
  function ApplyEffect(ledger: Ledger, command: EffectCommand): EffectResult {
    if ledger.op.version == command.expected + 1 then
      if ledger.op.state == CommandTarget(command) then AlreadyCommitted else Refused(IdempotentMismatch)
    else if ledger.op.version != command.expected then VersionConflict
    else if ledger.op.state != CommandSource(command, ledger.op.state) then Refused(SourceStateMismatch)
    else
      var problem := EffectProblem(ledger, command);
      if problem.Some? then Refused(problem.value) else WriteEffect(ledger, command)
  }

  /** Every write bumps the version by one and moves the operation along a listed edge. */
  lemma EffectCommitsAreLegal(ledger: Ledger, command: EffectCommand)
    requires command.FinishExecution? ==> SourceOf(command.kind).Executing?
    requires command.FinishVerification? ==> SourceOf(command.kind).Verifying?
    requires command.StartCheck? ==> TargetOf(command.kind).Verifying?
    requires ApplyEffect(ledger, command).EffectCommitted?
    ensures var after := ApplyEffect(ledger, command).ledger;
      && after.op.version == ledger.op.version + 1
      && LegalOperationEdge(ledger.op.state, after.op.state)
  {
  }
}
