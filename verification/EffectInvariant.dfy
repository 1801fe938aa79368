/** The inductive invariant of the original effect's protocol: what the rows, the provider
    logs and the stale knowledge of every driver have to do with each other. */
module EffectInvariant {
  import opened Lifecycle
  import opened RetrySafety
  import opened Reconciliation
  import opened EffectTransitions
  import opened EffectProtocol

  ghost predicate CalledWith(calls: seq<Call>, id: Id, outcome: EffectOutcome) {
    exists i :: 0 <= i < |calls| && calls[i].attempt == id && calls[i].outcome == outcome
  }

  ghost predicate CheckedAs(checks: seq<Check>, target: Option<Id>, outcome: EffectOutcome) {
    exists i :: 0 <= i < |checks| && checks[i].target == target
      && checks[i].result.Some? && checks[i].result.value.outcome == outcome
  }

  ghost predicate Heard(inquiries: seq<Inquiry>, verdict: Verdict) {
    exists i :: 0 <= i < |inquiries| && inquiries[i].verdict == verdict
  }

  /** The latest attempt is known not to have been applied: by its own durable outcome or by
      a durable check of it. */
  ghost predicate NotAppliedShown(ledger: Ledger) {
    || (|ledger.attempts| > 0 && ledger.attempts[|ledger.attempts| - 1].state == Completed(EffectNotApplied))
    || CheckedAs(ledger.checks, LatestId(ledger), EffectNotApplied)
  }

  ghost predicate AppliedShown(setting: Setting, ledger: Ledger) {
    || (&& |ledger.attempts| > 0
        && ledger.attempts[|ledger.attempts| - 1].state == Completed(EffectApplied)
        && ResponseStandsAlone(setting))
    || CheckedAs(ledger.checks, LatestId(ledger), EffectApplied)
  }

  ghost predicate ChecksDistinct(checks: seq<Check>) {
    forall j, k :: 0 <= j < k < |checks| ==> checks[j].id != checks[k].id
  }

  /** VERIFYING is always about the newest check, which asks about the newest attempt. */
  ghost predicate ChecksFit(ledger: Ledger) {
    && ChecksDistinct(ledger.checks)
    && (forall k :: 0 <= k < |ledger.checks| && ledger.checks[k].result.Some?
          ==> ledger.checks[k].result.value.id == ledger.checks[k].id)
    && ledger.op.latestCheck
       == (if |ledger.checks| == 0 then None else Some(ledger.checks[|ledger.checks| - 1].id))
    && (ledger.op.state.Verifying? ==>
          |ledger.checks| > 0 && ledger.checks[|ledger.checks| - 1].target == LatestId(ledger))
  }

  ghost predicate AttemptsFit(setting: Setting, ledger: Ledger) {
    && AttemptsNumbered(ledger.attempts)
    && |ledger.attempts| <= ExecutionCap(setting.obligations)
    && (ledger.op.state.Ready? ==> |ledger.attempts| < ExecutionCap(setting.obligations))
    && (ledger.op.state.PendingPolicy? || ledger.op.state.AwaitingApproval? ==> ledger.attempts == [])
    && (ledger.op.state.Executing? ==> |ledger.attempts| > 0)
  }

  ghost predicate OutcomeFits(setting: Setting, ledger: Ledger) {
    && (ledger.op.state.Succeeded? ==> AppliedShown(setting, ledger))
    && (ledger.op.state.Failed? ==> NotAppliedShown(ledger))
  }

  /** Every provider call was made for a durable attempt, no attempt was called twice, and
      every durable outcome was heard from the provider. */
  ghost predicate CallsFit(s: System) {
    && (forall i, j :: 0 <= i < j < |s.calls| ==> s.calls[i].number != s.calls[j].number)
    && (forall i :: 0 <= i < |s.calls| ==> CallIsDurable(s.ledger.attempts, s.calls[i]))
    && (forall k :: 0 <= k < |s.ledger.attempts| && s.ledger.attempts[k].state.Completed?
          ==> CalledWith(s.calls, s.ledger.attempts[k].id, s.ledger.attempts[k].state.outcome))
    && (forall k :: 0 <= k < |s.ledger.checks| && s.ledger.checks[k].result.Some?
          ==> Heard(s.inquiries, s.ledger.checks[k].result.value))
  }

  ghost predicate CallIsDurable(attempts: seq<Attempt>, call: Call) {
    1 <= call.number <= |attempts| && attempts[call.number - 1].id == call.attempt
  }

  /** Completed checks that can no longer be judged again. */
  function SettledChecks(ledger: Ledger): nat {
    if ledger.op.state.Verifying? && |ledger.checks| > 0
    then CompletedChecks(ledger.checks[..|ledger.checks| - 1])
    else CompletedChecks(ledger.checks)
  }

  ghost predicate BudgetFits(setting: Setting, s: System) {
    && s.inconclusive <= SettledChecks(s.ledger)
    && s.inconclusive <= RecoveryCap(setting.obligations) - 1
  }

  // ---------------------------------------------------------------- drivers

  /** A version a driver has read, and what it then implies about the present check. */
  ghost predicate OnCheck(ledger: Ledger, version: nat, check: Id) {
    && version <= ledger.op.version
    && (version == ledger.op.version ==> ledger.op.state.Verifying? && ledger.op.latestCheck == Some(check))
  }

  /** The driver's verdict has the outcome that is stored for its check. */
  ghost predicate Stored(ledger: Ledger, verdict: Verdict) {
    && FindCheck(ledger.checks, verdict.id) < |ledger.checks|
    && ResultOf(ledger, verdict.id).Some?
    && ResultOf(ledger, verdict.id).value.outcome == verdict.outcome
  }

  /** What a driver read about the latest attempt, as long as its version is the present one. */
  ghost predicate LatestWasRead(ledger: Ledger, version: nat, latest: Option<Attempt>) {
    version == ledger.op.version ==>
      && (latest.None? <==> ledger.attempts == [])
      && (latest.Some? ==>
            && latest.value.number == |ledger.attempts|
            && latest.value.id == ledger.attempts[|ledger.attempts| - 1].id
            && (latest.value.state.Completed? ==> ledger.attempts[|ledger.attempts| - 1] == latest.value))
  }

  ghost predicate PlanFits(setting: Setting, ledger: Ledger, command: EffectCommand) {
    && command.expected <= ledger.op.version
    && match command
       case StartCheck(kind, expected, check) =>
         && (kind.UnknownStartVerification? || kind.ManualStartVerification?)
         && (expected == ledger.op.version ==> check.target == LatestId(ledger))
       case UnknownSafeRetry(expected, execution, _) =>
         expected == ledger.op.version ==>
           && 0 < |ledger.attempts| < ExecutionCap(setting.obligations)
           && (execution.EffectNotApplied? ==> NotAppliedShown(ledger))
       case UnknownEscalate(_) => true
       case _ => false
  }

  ghost predicate HoldsAttempt(ledger: Ledger, attempt: Attempt) {
    && 1 <= attempt.number <= |ledger.attempts|
    && ledger.attempts[attempt.number - 1] == attempt
  }

  ghost predicate DriverFits(setting: Setting, s: System, driver: Driver) {
    match driver
    case Resting => true
    case Claiming(attempt, version) =>
      && attempt.state.Started? && HoldsAttempt(s.ledger, attempt)
      && forall i :: 0 <= i < |s.calls| ==> s.calls[i].number != attempt.number
    case Answering(attempt, version) =>
      && attempt.state.Completed? && HoldsAttempt(s.ledger, attempt.(state := Started))
      && CalledWith(s.calls, attempt.id, attempt.state.outcome)
    case Finishing(attempt, version) =>
      attempt.state.Completed? && HoldsAttempt(s.ledger, attempt)
    case Abandoning(version) => true
    case Loading(version, check) => OnCheck(s.ledger, version, check)
    case Asking(version, check) => OnCheck(s.ledger, version, check)
    case Hearing(version, verdict) => OnCheck(s.ledger, version, verdict.id) && Heard(s.inquiries, verdict)
    case Settled(version, verdict) => OnCheck(s.ledger, version, verdict.id) && Stored(s.ledger, verdict)
    case Informed(version, verdict, latest) =>
      OnCheck(s.ledger, version, verdict.id) && Stored(s.ledger, verdict) && LatestWasRead(s.ledger, version, latest)
    case Deciding(version, verdict, latest, count) =>
      && OnCheck(s.ledger, version, verdict.id) && Stored(s.ledger, verdict)
      && LatestWasRead(s.ledger, version, latest)
      && (version == s.ledger.op.version ==> count >= s.inconclusive + 1)
    case Planning(command) => PlanFits(setting, s.ledger, command)
  }

  predicate OwnsAttempt(driver: Driver) {
    driver.Claiming? || driver.Answering?
  }

  /** An attempt is in the hands of at most one driver. */
  ghost predicate OwnersDiffer(s: System) {
    forall p, q :: p in s.drivers && q in s.drivers && p != q
        && OwnsAttempt(s.drivers[p]) && OwnsAttempt(s.drivers[q])
      ==> s.drivers[p].attempt.number != s.drivers[q].attempt.number
  }

  ghost predicate DriversFit(setting: Setting, s: System) {
    && (forall p :: p in s.drivers ==> DriverFits(setting, s, s.drivers[p]))
    && OwnersDiffer(s)
  }

  ghost predicate RowsFit(setting: Setting, ledger: Ledger) {
    ChecksFit(ledger) && AttemptsFit(setting, ledger) && OutcomeFits(setting, ledger)
  }

  ghost predicate Inv(setting: Setting, s: System) {
    RowsFit(setting, s.ledger) && CallsFit(s) && BudgetFits(setting, s) && DriversFit(setting, s)
  }
}
