/** The lifecycle vocabulary shared by every model: states, effect outcomes and
    the tables of legal state changes (src/stateback/domain). */
module Lifecycle {

  datatype Option<+T> = None | Some(value: T)

  datatype OperationState =
    | PendingPolicy
    | AwaitingApproval
    | Ready
    | Executing
    | Verifying
    | Unknown
    | Succeeded
    | Failed
    | Denied
    | Cancelled
    | Compensating
    | CompensationUnknown
    | Compensated
    | CompensationFailed
    | ManualIntervention

  datatype CompensationState =
    | CompPending
    | CompExecuting
    | CompVerifying
    | CompUnknown
    | CompSucceeded
    | CompFailed

  datatype EffectOutcome = EffectApplied | EffectNotApplied | EffectUnknown

  /** LEGAL_OPERATION_TRANSITIONS, without the creation edge. */
  predicate LegalOperationEdge(from: OperationState, to: OperationState) {
    match from
    case PendingPolicy => to.Ready? || to.AwaitingApproval? || to.Denied? || to.Cancelled?
    case AwaitingApproval => to.Ready? || to.Denied? || to.Cancelled?
    case Ready => to.Executing? || to.Cancelled? || to.ManualIntervention?
    case Executing =>
      to.Succeeded? || to.Verifying? || to.Ready? || to.Failed? || to.Unknown? || to.ManualIntervention?
    case Verifying => to.Succeeded? || to.Ready? || to.Failed? || to.Unknown? || to.ManualIntervention?
    case Unknown => to.Verifying? || to.Ready? || to.Succeeded? || to.Failed? || to.ManualIntervention?
    case Succeeded => to.Compensating?
    case Failed => to.Compensating?
    case ManualIntervention => to.Verifying? || to.Compensating? || to.Ready?
    case Compensating =>
      to.Compensated? || to.CompensationUnknown? || to.CompensationFailed? || to.ManualIntervention?
    case CompensationUnknown =>
      to.Compensating? || to.Compensated? || to.CompensationFailed? || to.ManualIntervention?
    case CompensationFailed => to.Compensating? || to.ManualIntervention?
    case Denied => false
    case Cancelled => false
    case Compensated => false
  }

  /** LEGAL_COMPENSATION_TRANSITIONS. */
  predicate LegalCompensationEdge(from: CompensationState, to: CompensationState) {
    match from
    case CompPending => to.CompExecuting?
    case CompExecuting => to.CompSucceeded? || to.CompVerifying? || to.CompUnknown? || to.CompFailed?
    case CompVerifying => to.CompSucceeded? || to.CompExecuting? || to.CompUnknown? || to.CompFailed?
    case CompUnknown => to.CompVerifying? || to.CompExecuting? || to.CompSucceeded? || to.CompFailed?
    case CompFailed => to.CompExecuting?
    case CompSucceeded => false
  }

  /** PARENT_FOR_COMPENSATION_STATE. */
  function ParentState(state: CompensationState): OperationState {
    match state
    case CompPending => Compensating
    case CompExecuting => Compensating
    case CompVerifying => Compensating
    case CompUnknown => CompensationUnknown
    case CompSucceeded => Compensated
    case CompFailed => CompensationFailed
  }

  /** The four operation states that mirror a compensation record. */
  predicate InCompensationFamily(state: OperationState) {
    state.Compensating? || state.CompensationUnknown? || state.Compensated? || state.CompensationFailed?
  }

  function Max(a: int, b: int): int {
    if a < b then b else a
  }
}
