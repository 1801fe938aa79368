/** The original effect as a state machine: runtime/execute.py, runtime/recover.py and
    recovery/recover.py. Any number of drivers work on one operation at once; what a driver
    has read may be stale by the time it commits. A step is one commit, one read or one
    provider call of one driver, and any driver may crash at any point. */
module EffectProtocol {
  import opened Lifecycle
  import opened RetrySafety
  import opened Reconciliation
  import opened EffectTransitions

  /** One provider execute call. */
  datatype Call = Call(driver: nat, attempt: Id, number: nat, outcome: EffectOutcome)

  /** One provider verify call and what came of it. */
  datatype Inquiry = Inquiry(driver: nat, verdict: Verdict)

  /** What a driver has in hand between two steps. `version` is the version of the operation
      it works on; attempts and verdicts are as it read or heard them. */
  datatype Driver =
    | Resting
    | Claiming(attempt: Attempt, version: nat)
    | Answering(attempt: Attempt, version: nat)
    | Finishing(attempt: Attempt, version: nat)
    | Abandoning(version: nat)
    | Loading(version: nat, check: Id)
    | Asking(version: nat, check: Id)
    | Hearing(version: nat, verdict: Verdict)
    | Settled(version: nat, verdict: Verdict)
    | Informed(version: nat, verdict: Verdict, latest: Option<Attempt>)
    | Deciding(version: nat, verdict: Verdict, latest: Option<Attempt>, count: nat)
    | Planning(command: EffectCommand)

  datatype System = System(
    ledger: Ledger,
    drivers: map<nat, Driver>,
    calls: seq<Call>,
    inquiries: seq<Inquiry>,
    inconclusive: nat)

  function DriverOf(s: System, p: nat): Driver {
    if p in s.drivers then s.drivers[p] else Resting
  }

  function With(s: System, p: nat, driver: Driver): System {
    s.(drivers := s.drivers[p := driver])
  }

  // ---------------------------------------------------------------- decisions

  /** completed_original_verification_count */
  function CompletedChecks(checks: seq<Check>): nat {
    if |checks| == 0 then 0
    else CompletedChecks(checks[..|checks| - 1]) + (if checks[|checks| - 1].result.Some? then 1 else 0)
  }

  /** The registry's answer for a retry after this outcome of the latest attempt. */
  function EffectRetryVerdict(setting: Setting, attempts: seq<Attempt>, outcome: EffectOutcome, now: int):
    SafetyVerdict
    requires |attempts| > 0
  {
    RegistryRetrySafety(
      setting.descriptor, Some(outcome), None, now, Some(attempts[0].startedAt), false).verdict
  }

  predicate MayRetryEffect(
    setting: Setting, attempts: seq<Attempt>, outcome: EffectOutcome, number: nat, now: int)
    requires |attempts| > 0
  {
    && EffectRetryVerdict(setting, attempts, outcome, now).Safe?
    && number < ExecutionCap(setting.obligations)
  }

  /** decide_execution_kind */
  function DecideExecution(setting: Setting, outcome: EffectOutcome, mayRetry: bool): EffectKind {
    match outcome
    case EffectUnknown => ExecutionUnknown
    case EffectApplied =>
      if ResponseStandsAlone(setting) then ExecutionApplied else ExecutionRequireVerification
    case EffectNotApplied =>
      if mayRetry then ExecutionNotAppliedRetry else ExecutionNotAppliedFail
  }

  /** apply_execution_kind for durable evidence. */
  function FinishCommand(setting: Setting, ledger: Ledger, attempt: Attempt, version: nat, now: int, check: Id):
    EffectCommand
    requires attempt.state.Completed? && |ledger.attempts| > 0
  {
    var outcome := attempt.state.outcome;
    FinishExecution(
      DecideExecution(setting, outcome, MayRetryEffect(setting, ledger.attempts, outcome, attempt.number, now)),
      version, Some(attempt), Check(check, version, Some(attempt.id), None))
  }

  function AbandonCommand(version: nat): EffectCommand {
    FinishExecution(ExecutionUnknown, version, None, Check(0, version, None, None))
  }

  /** decision_to_kind for VERIFYING */
  function KindOf(action: Action): EffectKind {
    match action
    case MarkSucceeded => VerificationApplied
    case MarkFailed => VerificationNotAppliedFail
    case RetrySafely => VerificationNotAppliedRetry
    case RemainUnknown => VerificationInconclusive
    case RequireManual => VerificationEscalate
  }

  function ActionFor(setting: Setting, verdict: Verdict, latest: Option<Attempt>, count: nat): Action {
    Reconcile(verdict, latest, setting.descriptor, setting.obligations, count)
  }

  function ConcludeCommand(setting: Setting, driver: Driver): EffectCommand
    requires driver.Deciding?
  {
    FinishVerification(
      KindOf(ActionFor(setting, driver.verdict, driver.latest, driver.count)), driver.version, driver.verdict)
  }

  /** _recover_unknown: verify when the effect can be verified, else retry or escalate. */
  function PlanForUnknown(setting: Setting, ledger: Ledger, now: int, check: Id): EffectCommand
    requires |ledger.attempts| > 0
  {
    var latest := ledger.attempts[|ledger.attempts| - 1];
    var version := ledger.op.version;
    if setting.descriptor.verifiable then
      StartCheck(UnknownStartVerification, version, Check(check, version, Some(latest.id), None))
    else if MayRetryEffect(setting, ledger.attempts, UnknownOutcome(latest), latest.number, now) then
      UnknownSafeRetry(version, UnknownOutcome(latest), setting.descriptor.idempotency)
    else UnknownEscalate(version)
  }

  /** start_operator_verification */
  function PlanForOperator(ledger: Ledger, check: Id): EffectCommand {
    StartCheck(ManualStartVerification, ledger.op.version,
               Check(check, ledger.op.version, LatestId(ledger), None))
  }

  // ---------------------------------------------------------------- steps

  datatype Step =
    | Claim(expected: nat, started: Attempt)
    | Execute(outcome: EffectOutcome)
    | Record
    | SeeAttempt
    | Finish(now: int, check: Id)
    | Abandon
    | SeeVerifying
    | LoadCheck
    | Verify(heard: Verdict)
    | StoreResult
    | ReadAttempts
    | ReadCount
    | Conclude
    | PlanUnknown(now: int, check: Id)
    | PlanManual(check: Id)
    | Send
    | Other(to: OperationState)
    | Crash

  predicate Commits(s: System, command: EffectCommand, t: System, p: nat, driver: Driver, inconclusive: nat) {
    && ApplyEffect(s.ledger, command).EffectCommitted?
    && t == With(s.(ledger := ApplyEffect(s.ledger, command).ledger, inconclusive := inconclusive), p, driver)
  }

  predicate TakesExecution(setting: Setting, s: System, p: nat, step: Step, t: System) {
    var d := DriverOf(s, p);
    match step
    case Claim(expected, started) =>
      d.Resting? && Commits(s, ClaimEffect(expected, started), t, p, Claiming(started, expected + 1), s.inconclusive)
    case Execute(outcome) =>
      && d.Claiming?
      && t == With(s.(calls := s.calls + [Call(p, d.attempt.id, d.attempt.number, outcome)]),
                   p, Answering(d.attempt.(state := Completed(outcome)), d.version))
    case Record =>
      && d.Answering?
      && 1 <= d.attempt.number <= |s.ledger.attempts|
      && s.ledger.attempts[d.attempt.number - 1].id == d.attempt.id
      && s.ledger.attempts[d.attempt.number - 1].state.Started?
      && t == With(
                s.(ledger := s.ledger.(attempts := s.ledger.attempts[d.attempt.number - 1 := d.attempt])),
                p, Finishing(d.attempt, d.version))
    case SeeAttempt =>
      && d.Resting? && s.ledger.op.state.Executing? && Latest(s.ledger).Some?
      && var latest := Latest(s.ledger).value;
      && t == With(s, p, if latest.state.Started? then Abandoning(s.ledger.op.version)
                         else Finishing(latest, s.ledger.op.version))
    case Finish(now, check) =>
      && d.Finishing? && d.attempt.state.Completed? && |s.ledger.attempts| > 0
      && Commits(s, FinishCommand(setting, s.ledger, d.attempt, d.version, now, check), t, p, Resting,
                 s.inconclusive)
    case Abandon =>
      d.Abandoning? && Commits(s, AbandonCommand(d.version), t, p, Resting, s.inconclusive)
    case _ => false
  }

  predicate TakesRecovery(setting: Setting, s: System, p: nat, step: Step, t: System) {
    var d := DriverOf(s, p);
    match step
    case SeeVerifying =>
      && d.Resting? && s.ledger.op.state.Verifying? && s.ledger.op.latestCheck.Some?
      && t == With(s, p, Loading(s.ledger.op.version, s.ledger.op.latestCheck.value))
    case LoadCheck =>
      && d.Loading? && FindCheck(s.ledger.checks, d.check) < |s.ledger.checks|
      && var result := ResultOf(s.ledger, d.check);
      && t == With(s, p, if result.Some? then Settled(d.version, result.value) else Asking(d.version, d.check))
    case Verify(heard) =>
      && d.Asking? && heard.id == d.check
      && t == With(s.(inquiries := s.inquiries + [Inquiry(p, heard)]), p, Hearing(d.version, heard))
    case StoreResult =>
      && d.Hearing? && FindCheck(s.ledger.checks, d.verdict.id) < |s.ledger.checks|
      && var stored := ResultOf(s.ledger, d.verdict.id);
      && (stored.Some? ==> stored.value.outcome == d.verdict.outcome)
      && t == With(s.(ledger := s.ledger.(checks := StoreVerdict(s.ledger.checks, d.verdict))),
                   p, Settled(d.version, d.verdict))
    case ReadAttempts =>
      d.Settled? && t == With(s, p, Informed(d.version, d.verdict, Latest(s.ledger)))
    case ReadCount =>
      && d.Informed?
      && t == With(s, p, Deciding(d.version, d.verdict, d.latest, CompletedChecks(s.ledger.checks)))
    case Conclude =>
      && d.Deciding?
      && var action := ActionFor(setting, d.verdict, d.latest, d.count);
      && Commits(s, ConcludeCommand(setting, d), t, p, Resting,
                 s.inconclusive + (if action.RemainUnknown? then 1 else 0))
    case PlanUnknown(now, check) =>
      && d.Resting? && s.ledger.op.state.Unknown? && |s.ledger.attempts| > 0
      && t == With(s, p, Planning(PlanForUnknown(setting, s.ledger, now, check)))
    case PlanManual(check) =>
      && d.Resting? && s.ledger.op.state.ManualIntervention? && setting.descriptor.verifiable
      && t == With(s, p, Planning(PlanForOperator(s.ledger, check)))
    case Send =>
      && d.Planning?
      && Commits(s, d.command, t, p,
                 if d.command.StartCheck? then Loading(d.command.expected + 1, d.command.check.id) else Resting,
                 s.inconclusive)
    case _ => false
  }

  predicate Takes(setting: Setting, s: System, p: nat, step: Step, t: System) {
    match step
    case Other(to) => Commits(s, OtherEdge(s.ledger.op.version, to), t, p, DriverOf(s, p), s.inconclusive)
    case Crash => t == With(s, p, Resting)
    case _ => TakesExecution(setting, s, p, step, t) || TakesRecovery(setting, s, p, step, t)
  }

  ghost predicate Next(setting: Setting, s: System, t: System) {
    exists p, step :: Takes(setting, s, p, step, t)
  }

  /** A freshly created operation, before any policy decision. */
  predicate Initial(s: System) {
    && s.ledger.op.state.PendingPolicy? && s.ledger.op.latestCheck.None?
    && s == System(Ledger(s.ledger.op, [], []), map[], [], [], 0)
  }

  /** Position i of the run is followed by one step. */
  ghost predicate StepAt(setting: Setting, run: seq<System>, i: nat)
    requires i + 1 < |run|
  {
    Next(setting, run[i], run[i + 1])
  }

  ghost predicate IsRun(setting: Setting, run: seq<System>) {
    && |run| > 0
    && Initial(run[0])
    && forall i :: 0 <= i < |run| - 1 ==> StepAt(setting, run, i)
  }
}
