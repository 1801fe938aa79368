/** Budgets and the decision taken from a verification result. The original effect
    (recovery/reconcile.py) and the compensation (compensation/reconcile.py) decide by
    the same cases; they differ only in whose attempts and verifications they count. */
module Reconciliation {
  import opened Lifecycle
  import opened RetrySafety

  type Id = nat

  datatype AttemptState = Started | Completed(outcome: EffectOutcome)

  datatype Attempt = Attempt(id: Id, number: nat, state: AttemptState, startedAt: int)

  datatype VerdictError = NoError | UnsupportedCapability | Inconsistent | OtherError

  /** A VerificationResult. */
  datatype Verdict = Verdict(id: Id, outcome: EffectOutcome, error: VerdictError, completedAt: int)

  datatype Obligations = Obligations(
    requireVerification: bool,
    maxExecutionAttempts: Option<int>,
    maxRecoveryAttempts: Option<int>)

  datatype Action = MarkSucceeded | MarkFailed | RetrySafely | RemainUnknown | RequireManual

  /** What is fixed for an operation: its effect descriptor and its policy obligations. */
  datatype Setting = Setting(descriptor: Descriptor, obligations: Obligations)

  const DEFAULT_RECOVERY_ATTEMPTS := 3

  /** max_automatic_attempts */
  function ExecutionCap(obligations: Obligations): (cap: int)
    ensures cap >= 1
  {
    match obligations.maxExecutionAttempts
    case None => 1
    case Some(value) => if value < 1 then 1 else value
  }

  /** max_automatic_recovery_attempts */
  function RecoveryCap(obligations: Obligations): (cap: int)
    ensures cap >= 1
  {
    match obligations.maxRecoveryAttempts
    case None => DEFAULT_RECOVERY_ATTEMPTS
    case Some(value) => if value < 1 then DEFAULT_RECOVERY_ATTEMPTS else value
  }

  /** An APPLIED response that needs no verification. */
  predicate ResponseStandsAlone(setting: Setting) {
    !setting.obligations.requireVerification && setting.descriptor.responseProvesApplied
  }

  /** Attempts carry the numbers 1..n in order, under distinct identifiers. */
  ghost predicate AttemptsNumbered(attempts: seq<Attempt>) {
    && (forall k :: 0 <= k < |attempts| ==> attempts[k].number == k + 1)
    && (forall j, k :: 0 <= j < k < |attempts| ==> attempts[j].id != attempts[k].id)
  }

  /** What a retry may assume of an attempt: nothing, while its outcome is not durable. */
  function UnknownOutcome(latest: Attempt): EffectOutcome {
    if latest.state.Completed? then latest.state.outcome else EffectUnknown
  }

  /** What the latest attempt is known to have done. */
  function KnownOutcome(latest: Option<Attempt>): Option<EffectOutcome> {
    match latest
    case None => None
    case Some(attempt) =>
      match attempt.state
      case Started => Some(EffectUnknown)
      case Completed(outcome) => Some(outcome)
  }

  function LatestNumber(latest: Option<Attempt>): nat {
    if latest.Some? then latest.value.number else 0
  }

  /** A retry is licensed by the first attempt's age and by what the latest one is known to have
      done, and the cap leaves room for it. */
  ghost predicate RetryIsDue(setting: Setting, attempts: seq<Attempt>, outcome: EffectOutcome, now: int)
    requires |attempts| > 0
  {
    && RetryLicensed(setting.descriptor, Some(outcome), None, now, Some(attempts[0].startedAt))
    && attempts[|attempts| - 1].number < ExecutionCap(setting.obligations)
  }

  /** After NOT_APPLIED a retry is licensed whatever the clock says; only the cap decides. */
  lemma NotAppliedIsLicensed(setting: Setting, attempts: seq<Attempt>, now: int)
    requires |attempts| > 0
    ensures RetryIsDue(setting, attempts, EffectNotApplied, now)
        <==> attempts[|attempts| - 1].number < ExecutionCap(setting.obligations)
  {
  }

  /** The verdict says the opposite of what the attempt itself was answered. */
  predicate Contradicts(verdict: Verdict, latest: Attempt) {
    || (verdict.outcome.EffectApplied? && latest.state == Completed(EffectNotApplied))
    || (verdict.outcome.EffectNotApplied? && latest.state == Completed(EffectApplied))
  }

  /** An UNKNOWN verdict that goes to a person instead of leaving the operation open, when so
      many verifications have a durable result. */
  predicate Closes(obligations: Obligations, verdict: Verdict, results: nat) {
    || verdict.error.UnsupportedCapability?
    || verdict.error.Inconsistent?
    || results >= RecoveryCap(obligations)
  }

  /** A limit that is not declared, or declared below one, stands for one execution and for
      three verifications. */
  lemma CapsAreDeclared(obligations: Obligations, limit: int)
    requires limit >= 1
    ensures ExecutionCap(obligations) == limit
        <==> || obligations.maxExecutionAttempts == Some(limit)
             || (limit == 1 && !(exists n :: n >= 1 && obligations.maxExecutionAttempts == Some(n)))
    ensures RecoveryCap(obligations) == limit
        <==> || obligations.maxRecoveryAttempts == Some(limit)
             || (limit == 3 && !(exists n :: n >= 1 && obligations.maxRecoveryAttempts == Some(n)))
  {
  }

  function Reconcile(
    verdict: Verdict,
    latest: Option<Attempt>,
    descriptor: Descriptor,
    obligations: Obligations,
    completedCount: nat): Action
  {
    var known := KnownOutcome(latest);
    match verdict.outcome
    case EffectApplied =>
      if known == Some(EffectNotApplied) then RequireManual else MarkSucceeded
    case EffectNotApplied =>
      if known == Some(EffectApplied) then RequireManual
      else
        var safety := EvaluateEffectRetrySafety(
          None, Some(EffectNotApplied), descriptor.idempotency, false,
          descriptor.keySemantics, false, descriptor.idempotency.NaturalIdempotency?);
        if safety.verdict.Safe? && LatestNumber(latest) < ExecutionCap(obligations)
        then RetrySafely
        else MarkFailed
    case EffectUnknown =>
      if verdict.error.UnsupportedCapability? || verdict.error.Inconsistent? then RequireManual
      else if completedCount >= RecoveryCap(obligations) then RequireManual
      else RemainUnknown
  }

  /** No decision goes beyond its evidence, every contradiction goes to a person, and
      an open question stays open only while the budget lasts. */
  lemma DecisionsAreEvidenced(
    verdict: Verdict,
    latest: Option<Attempt>,
    descriptor: Descriptor,
    obligations: Obligations,
    completedCount: nat)
    ensures var action := Reconcile(verdict, latest, descriptor, obligations, completedCount);
      var known := KnownOutcome(latest);
      && (action.MarkSucceeded? <==> verdict.outcome.EffectApplied? && known != Some(EffectNotApplied))
      && (action.MarkFailed? || action.RetrySafely?
          <==> verdict.outcome.EffectNotApplied? && known != Some(EffectApplied))
      && (action.RetrySafely? ==> LatestNumber(latest) < ExecutionCap(obligations))
      && (action.MarkFailed? ==> LatestNumber(latest) >= ExecutionCap(obligations))
      && (action.RemainUnknown?
          <==> verdict.outcome.EffectUnknown? && !Closes(obligations, verdict, completedCount))
  {
  }
}
