/** What each decision about the original effect comes to, stated by evidence, caps and clock
    alone. */
module EffectDecisions {
  import opened Lifecycle
  import opened RetrySafety
  import opened Reconciliation
  import opened EffectTransitions
  import opened EffectProtocol
  import opened EffectInvariant
  import opened EffectSteps

  // ---------------------------------------------------------------- finishing an execution

  /** Where the outcome of the latest attempt leads. A retry after NOT_APPLIED is licensed
      whatever the clock says; only the cap decides. */
  ghost predicate AttemptDecided(setting: Setting, attempt: Attempt, check: Id, after: Ledger)
    requires attempt.state.Completed?
  {
    var outcome := attempt.state.outcome;
    var room := attempt.number < ExecutionCap(setting.obligations);
    && (after.op.state.Succeeded? <==> outcome.EffectApplied? && ResponseStandsAlone(setting))
    && (after.op.state.Verifying? <==> outcome.EffectApplied? && !ResponseStandsAlone(setting))
    && (after.op.state.Ready? <==> outcome.EffectNotApplied? && room)
    && (after.op.state.Failed? <==> outcome.EffectNotApplied? && !room)
    && (after.op.state.Unknown? <==> outcome.EffectUnknown?)
    && (after.op.state.Verifying? ==>
          && |after.checks| > 0 && after.op.latestCheck == Some(check)
          && var asked := after.checks[|after.checks| - 1];
          && asked == Check(check, asked.operationVersion, Some(attempt.id), None)
          && after.op.version == asked.operationVersion + 1)
  }

  /** The outcome of the latest attempt is applied while the operation is still EXECUTING at the
      version the driver works on; only a required check may fail, for an identifier that is
      taken. */
  lemma OutcomeIsApplied(setting: Setting, ledger: Ledger, attempt: Attempt, version: nat, now: int, check: Id)
    requires ledger.op.state.Executing? && ledger.op.version == version
    requires Latest(ledger) == Some(attempt) && attempt.state.Completed?
    ensures FindCheck(ledger.checks, check) == |ledger.checks|
        ==> ApplyEffect(ledger, FinishCommand(setting, ledger, attempt, version, now, check)).EffectCommitted?
  {
  }

  /** However it was applied, the outcome leads there. */
  lemma AppliedOutcomeDecides(setting: Setting, ledger: Ledger, attempt: Attempt, version: nat, now: int, check: Id)
    requires attempt.state.Completed? && |ledger.attempts| > 0
    requires ApplyEffect(ledger, FinishCommand(setting, ledger, attempt, version, now, check)).EffectCommitted?
    ensures AttemptDecided(setting, attempt, check,
                           ApplyEffect(ledger, FinishCommand(setting, ledger, attempt, version, now, check)).ledger)
  {
    SafeIffLicensed(setting.descriptor, Some(attempt.state.outcome), None, now, Some(ledger.attempts[0].startedAt),
                    false);
  }

  /** Whatever the others did before it, a step that finishes an execution leads there. */
  lemma FinishDecides(setting: Setting, s: System, p: nat, now: int, check: Id, t: System)
    requires TakesExecution(setting, s, p, Finish(now, check), t)
    ensures AttemptDecided(setting, DriverOf(s, p).attempt, check, t.ledger)
  {
    var d := DriverOf(s, p);
    AppliedOutcomeDecides(setting, s.ledger, d.attempt, d.version, now, check);
  }

  /** An attempt that is given up leaves the operation UNKNOWN, with the attempt still open. */
  lemma AbandonDecides(ledger: Ledger)
    requires ledger.op.state.Executing? && Latest(ledger).Some? && Latest(ledger).value.state.Started?
    ensures ApplyEffect(ledger, AbandonCommand(ledger.op.version))
         == EffectCommitted(ledger.(op := ledger.op.(state := Unknown, version := ledger.op.version + 1)))
  {
  }

  // ---------------------------------------------------------------- recovering UNKNOWN

  lemma MayRetryEffectIffDue(setting: Setting, attempts: seq<Attempt>, outcome: EffectOutcome, now: int)
    requires |attempts| > 0
    ensures MayRetryEffect(setting, attempts, outcome, attempts[|attempts| - 1].number, now)
        <==> RetryIsDue(setting, attempts, outcome, now)
  {
    SafeIffLicensed(setting.descriptor, Some(outcome), None, now, Some(attempts[0].startedAt), false);
  }

  /** A check that was just opened is found, without a result. */
  lemma {:induction false} OpenedIsFound(checks: seq<Check>, asked: Check)
    requires FindCheck(checks, asked.id) == |checks|
    ensures FindCheck(checks + [asked], asked.id) == |checks|
    decreases |checks|
  {
    if |checks| > 0 {
      OpenedIsFound(checks[1..], asked);
      assert (checks + [asked])[1..] == checks[1..] + [asked];
    }
  }

  /** Where the recovery of UNKNOWN leads: an effect that can be verified is verified; otherwise
      a due retry is made if the latest attempt is known as not applied, and refused if its
      outcome is open; and when none is due the operation goes to a person. */
  lemma UnknownIsRecovered(setting: Setting, ledger: Ledger, now: int, check: Id)
    requires ledger.op.state.Unknown? && |ledger.attempts| > 0
    requires setting.descriptor.verifiable ==> FindCheck(ledger.checks, check) == |ledger.checks|
    ensures var latest := ledger.attempts[|ledger.attempts| - 1];
      var result := ApplyEffect(ledger, PlanForUnknown(setting, ledger, now, check));
      if setting.descriptor.verifiable then
        result == EffectCommitted(Ledger(
                    EffectOperation(Verifying, ledger.op.version + 1, Some(check)), ledger.attempts,
                    ledger.checks + [Check(check, ledger.op.version, Some(latest.id), None)]))
      else if !RetryIsDue(setting, ledger.attempts, UnknownOutcome(latest), now) then
        result == EffectCommitted(
                    ledger.(op := ledger.op.(state := ManualIntervention, version := ledger.op.version + 1)))
      else if latest.state == Completed(EffectNotApplied) then
        result == EffectCommitted(ledger.(op := ledger.op.(state := Ready, version := ledger.op.version + 1)))
      else
        result == Refused(RetryNeedsProof)
  {
    MayRetryEffectIffDue(setting, ledger.attempts, UnknownOutcome(ledger.attempts[|ledger.attempts| - 1]), now);
  }

  /** An operator's verification asks about the latest attempt. */
  lemma OperatorCheckIsOpened(ledger: Ledger, check: Id)
    requires ledger.op.state.ManualIntervention? && FindCheck(ledger.checks, check) == |ledger.checks|
    ensures ApplyEffect(ledger, PlanForOperator(ledger, check))
         == EffectCommitted(Ledger(
              EffectOperation(Verifying, ledger.op.version + 1, Some(check)), ledger.attempts,
              ledger.checks + [Check(check, ledger.op.version, LatestId(ledger), None)]))
  {
  }

  // ---------------------------------------------------------------- concluding a check

  /** Where a verdict leads, for what the driver read about the latest attempt and about the
      number of durable results. */
  ghost predicate CheckDecided(
    setting: Setting, verdict: Verdict, latest: Option<Attempt>, count: nat, state: OperationState)
  {
    var contradicted := latest.Some? && Contradicts(verdict, latest.value);
    var room := (if latest.Some? then latest.value.number else 0) < ExecutionCap(setting.obligations);
    var closes := Closes(setting.obligations, verdict, count);
    && (state.Succeeded? <==> verdict.outcome.EffectApplied? && !contradicted)
    && (state.Failed? <==> verdict.outcome.EffectNotApplied? && !contradicted && !room)
    && (state.Ready? <==> verdict.outcome.EffectNotApplied? && !contradicted && room)
    && (state.Unknown? <==> verdict.outcome.EffectUnknown? && !closes)
    && (state.ManualIntervention? <==> contradicted || (verdict.outcome.EffectUnknown? && closes))
  }

  lemma DecisionLeads(setting: Setting, verdict: Verdict, latest: Option<Attempt>, count: nat)
    ensures CheckDecided(setting, verdict, latest, count,
                         TargetOf(KindOf(ActionFor(setting, verdict, latest, count))))
  {
    DecisionsAreEvidenced(verdict, latest, setting.descriptor, setting.obligations, count);
  }

  /** Every conclusion of every driver leads there, and writes nothing but the state. */
  lemma ConclusionDecides(setting: Setting, s: System, p: nat, t: System)
    requires Inv(setting, s) && TakesRecovery(setting, s, p, Conclude, t)
    ensures var d := DriverOf(s, p);
      && CheckDecided(setting, d.verdict, d.latest, d.count, t.ledger.op.state)
      && t.ledger == s.ledger.(op := s.ledger.op.(state := t.ledger.op.state, version := s.ledger.op.version + 1))
  {
    var d := DriverOf(s, p);
    assert p in s.drivers && DriverFits(setting, s, d);
    DecisionLeads(setting, d.verdict, d.latest, d.count);
    JudgingWritesOnlyTheState(s.ledger, KindOf(ActionFor(setting, d.verdict, d.latest, d.count)), d.version, d.verdict);
  }

  /** A durable verdict about the present check is concluded whenever the driver's version is the
      present one. */
  lemma VerdictIsJudged(setting: Setting, ledger: Ledger, d: Driver)
    requires d.Deciding? && ledger.op.version == d.version && ledger.op.state.Verifying?
    requires ledger.op.latestCheck == Some(d.verdict.id) && Stored(ledger, d.verdict)
    ensures var result := ApplyEffect(ledger, ConcludeCommand(setting, d));
      && result.EffectCommitted?
      && result.ledger == ledger.(op := ledger.op.(state := result.ledger.op.state, version := ledger.op.version + 1))
      && CheckDecided(setting, d.verdict, d.latest, d.count, result.ledger.op.state)
  {
    var kind := KindOf(ActionFor(setting, d.verdict, d.latest, d.count));
    DecisionLeads(setting, d.verdict, d.latest, d.count);
    DecisionsAreEvidenced(d.verdict, d.latest, setting.descriptor, setting.obligations, d.count);
    JudgingWritesOnlyTheState(ledger, kind, d.version, d.verdict);
  }

  /** Which checks have a durable result. */
  function ResultChecks(checks: seq<Check>): set<nat> {
    set k: nat | k < |checks| && checks[k].result.Some?
  }

  lemma {:induction false} CompletedIsNumberOfResults(checks: seq<Check>)
    ensures CompletedChecks(checks) == |ResultChecks(checks)|
    decreases |checks|
  {
    if |checks| > 0 {
      var last := |checks| - 1;
      CompletedIsNumberOfResults(checks[..last]);
      assert ResultChecks(checks) == ResultChecks(checks[..last]) + (if checks[last].result.Some? then {last} else {});
      assert last !in ResultChecks(checks[..last]);
    }
  }
}
