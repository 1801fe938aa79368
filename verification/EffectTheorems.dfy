/** What holds in every run of the original effect's protocol, with any number of drivers,
    stale reads, and crashes anywhere. */
module EffectTheorems {
  import opened Lifecycle
  import opened RetrySafety
  import opened Reconciliation
  import opened EffectTransitions
  import opened EffectProtocol
  import opened EffectInvariant
  import opened EffectSteps

  lemma StepOf(setting: Setting, run: seq<System>, i: nat) returns (p: nat, step: Step)
    requires IsRun(setting, run) && i + 1 < |run|
    ensures Takes(setting, run[i], p, step, run[i + 1])
  {
    assert StepAt(setting, run, i);
    p, step :| Takes(setting, run[i], p, step, run[i + 1]);
  }

  lemma {:induction false} EffectInvariantHolds(setting: Setting, run: seq<System>, i: nat)
    requires IsRun(setting, run) && i < |run|
    ensures Inv(setting, run[i])
    decreases i
  {
    if i > 0 {
      EffectInvariantHolds(setting, run, i - 1);
      var p, step := StepOf(setting, run, i - 1);
      StepKeeps(setting, run[i - 1], p, step, run[i]);
    }
  }

  // ---------------------------------------------------------------- history

  lemma LedgerGrowsTransitively(a: Ledger, b: Ledger, c: Ledger)
    requires LedgerGrows(a, b) && LedgerGrows(b, c)
    ensures LedgerGrows(a, c)
  {
  }

  lemma RunStepGrows(setting: Setting, run: seq<System>, i: nat)
    requires IsRun(setting, run) && i + 1 < |run|
    ensures LedgerGrows(run[i].ledger, run[i + 1].ledger)
  {
    EffectInvariantHolds(setting, run, i);
    var p, step := StepOf(setting, run, i);
    StepKeeps(setting, run[i], p, step, run[i + 1]);
  }

  /** No evidence is rewritten by any driver, however late it comes: outcomes of attempts and
      verification results are final. */
  lemma {:induction false} EffectEvidenceIsFinal(setting: Setting, run: seq<System>, i: nat, j: nat)
    requires IsRun(setting, run) && i <= j < |run|
    ensures LedgerGrows(run[i].ledger, run[j].ledger)
    decreases j
  {
    if i < j {
      EffectEvidenceIsFinal(setting, run, i, j - 1);
      RunStepGrows(setting, run, j - 1);
      LedgerGrowsTransitively(run[i].ledger, run[j - 1].ledger, run[j].ledger);
    }
  }

  // ---------------------------------------------------------------- provider calls

  /** The provider executes an attempt at most once, whatever the drivers do. */
  lemma AtMostOneExecutePerAttempt(setting: Setting, run: seq<System>, i: nat, a: nat, b: nat)
    requires IsRun(setting, run) && i < |run| && a < b < |run[i].calls|
    ensures run[i].calls[a].attempt != run[i].calls[b].attempt
  {
    EffectInvariantHolds(setting, run, i);
    assert CallIsDurable(run[i].ledger.attempts, run[i].calls[a]);
    assert CallIsDurable(run[i].ledger.attempts, run[i].calls[b]);
  }

  lemma {:induction false} PigeonHole(numbers: seq<nat>, bound: nat)
    requires forall i :: 0 <= i < |numbers| ==> 1 <= numbers[i] <= bound
    requires forall i, j :: 0 <= i < j < |numbers| ==> numbers[i] != numbers[j]
    ensures |numbers| <= bound
    decreases bound
  {
    if |numbers| == 0 {
      return;
    }
    assert 1 <= numbers[0] <= bound;
    if k :| 0 <= k < |numbers| && numbers[k] == bound {
      var rest := numbers[..k] + numbers[k + 1..];
      forall i, j | 0 <= i < j < |rest| ensures rest[i] != rest[j] {
        assert rest[i] == numbers[if i < k then i else i + 1];
        assert rest[j] == numbers[if j < k then j else j + 1];
      }
      PigeonHole(rest, bound - 1);
    } else {
      PigeonHole(numbers, bound - 1);
    }
  }

  /** Over its whole life an operation is executed at most as often as its policy allows. */
  lemma ExecutionsStayInBudget(setting: Setting, run: seq<System>, i: nat)
    requires IsRun(setting, run) && i < |run|
    ensures |run[i].calls| <= |run[i].ledger.attempts| <= ExecutionCap(setting.obligations)
  {
    EffectInvariantHolds(setting, run, i);
    var calls := run[i].calls;
    forall k | 0 <= k < |calls| ensures 1 <= calls[k].number <= |run[i].ledger.attempts| {
      assert CallIsDurable(run[i].ledger.attempts, calls[k]);
    }
    PigeonHole(seq(|calls|, k requires 0 <= k < |calls| => calls[k].number), |run[i].ledger.attempts|);
  }

  // ---------------------------------------------------------------- no blind retry

  lemma StepRetriesOnEvidence(setting: Setting, s: System, p: nat, step: Step, t: System)
    requires Inv(setting, s) && Takes(setting, s, p, step, t)
    requires s.ledger.op.state.Executing? || s.ledger.op.state.Verifying? || s.ledger.op.state.Unknown?
    requires t.ledger.op.state.Ready?
    ensures |t.ledger.attempts| < ExecutionCap(setting.obligations)
    ensures NotAppliedShown(t.ledger)
  {
    match step
    case Finish(now, check) => RetriedAfterExecution(setting, s, p, now, check, t);
    case Conclude => ConcludedRowsFit(setting, s, p, t);
    case Send => SendMoveKeeps(setting, s, p, t);
    case _ =>
  }

  lemma RetriedAfterExecution(setting: Setting, s: System, p: nat, now: int, check: Id, t: System)
    requires Inv(setting, s) && TakesExecution(setting, s, p, Finish(now, check), t)
    requires t.ledger.op.state.Ready?
    ensures |t.ledger.attempts| < ExecutionCap(setting.obligations)
    ensures NotAppliedShown(t.ledger)
  {
    var d := DriverOf(s, p);
    assert p in s.drivers && DriverFits(setting, s, d);
    FinishKeeps(setting, s, p, now, check, t);
    assert Latest(s.ledger).value == d.attempt;
  }

  /** No blind retry: whenever an operation goes back to READY after its execution began,
      fewer attempts than allowed were made and the latest is durably known as not applied.
      Idempotency alone never brings an operation back. */
  lemma NoBlindRetry(setting: Setting, run: seq<System>, i: nat)
    requires IsRun(setting, run) && i + 1 < |run|
    requires var state := run[i].ledger.op.state; state.Executing? || state.Verifying? || state.Unknown?
    requires run[i + 1].ledger.op.state.Ready?
    ensures |run[i + 1].ledger.attempts| < ExecutionCap(setting.obligations)
    ensures NotAppliedShown(run[i + 1].ledger)
  {
    EffectInvariantHolds(setting, run, i);
    var p, step := StepOf(setting, run, i);
    StepRetriesOnEvidence(setting, run[i], p, step, run[i + 1]);
  }

  /** SUCCEEDED rests on an APPLIED answer that may stand alone, or on a durable APPLIED check
      of the latest attempt; FAILED on durable NOT_APPLIED evidence about it. */
  lemma OutcomesAreShown(setting: Setting, run: seq<System>, i: nat)
    requires IsRun(setting, run) && i < |run|
    ensures run[i].ledger.op.state.Succeeded? ==> AppliedShown(setting, run[i].ledger)
    ensures run[i].ledger.op.state.Failed? ==> NotAppliedShown(run[i].ledger)
  {
    EffectInvariantHolds(setting, run, i);
  }

  // ---------------------------------------------------------------- bounded recovery

  ghost predicate Counted(s: System, t: System) {
    t.inconclusive
      == s.inconclusive + (if s.ledger.op.state.Verifying? && t.ledger.op.state.Unknown? then 1 else 0)
  }

  lemma ExecutionCounts(setting: Setting, s: System, p: nat, step: Step, t: System)
    requires Inv(setting, s) && TakesExecution(setting, s, p, step, t)
    ensures Counted(s, t)
  {
    var d := DriverOf(s, p);
    match step
    case Claim(expected, started) => OnlyJudgingFallsBack(s.ledger, ClaimEffect(expected, started));
    case Finish(now, check) =>
      OnlyJudgingFallsBack(s.ledger, FinishCommand(setting, s.ledger, d.attempt, d.version, now, check));
    case Abandon => OnlyJudgingFallsBack(s.ledger, AbandonCommand(d.version));
    case Execute(_) => assert t.ledger.op == s.ledger.op;
    case Record => assert t.ledger.op == s.ledger.op;
    case SeeAttempt => assert t.ledger.op == s.ledger.op;
    case _ =>
  }

  lemma ConclusionCounts(setting: Setting, s: System, p: nat, t: System)
    requires Inv(setting, s) && TakesRecovery(setting, s, p, Conclude, t)
    ensures Counted(s, t)
  {
    var d := DriverOf(s, p);
    ConcludedRowsFit(setting, s, p, t);
    assert t.ledger.op.state == TargetOf(KindOf(ActionFor(setting, d.verdict, d.latest, d.count)));
  }

  lemma RecoveryCounts(setting: Setting, s: System, p: nat, step: Step, t: System)
    requires Inv(setting, s) && TakesRecovery(setting, s, p, step, t) && !step.Conclude?
    ensures Counted(s, t)
  {
    if step.Send? {
      var command := DriverOf(s, p).command;
      assert p in s.drivers && PlanFits(setting, s.ledger, command);
      OnlyJudgingFallsBack(s.ledger, command);
    } else {
      assert t.ledger.op == s.ledger.op;
    }
  }

  lemma StepCountsInconclusive(setting: Setting, s: System, p: nat, step: Step, t: System)
    requires Inv(setting, s) && Takes(setting, s, p, step, t)
    ensures Counted(s, t)
  {
    match step
    case Other(to) => OnlyJudgingFallsBack(s.ledger, OtherEdge(s.ledger.op.version, to));
    case Crash =>
    case Conclude => ConclusionCounts(setting, s, p, t);
    case _ =>
      if TakesExecution(setting, s, p, step, t) {
        ExecutionCounts(setting, s, p, step, t);
      } else {
        RecoveryCounts(setting, s, p, step, t);
      }
  }

  lemma OnlyJudgingFallsBack(ledger: Ledger, command: EffectCommand)
    requires ApplyEffect(ledger, command).EffectCommitted? && !command.FinishVerification?
    requires command.FinishExecution? ==> SourceOf(command.kind).Executing?
    requires command.StartCheck? ==> TargetOf(command.kind).Verifying?
    ensures !(ledger.op.state.Verifying? && ApplyEffect(ledger, command).ledger.op.state.Unknown?)
  {
  }

  /** How often a run fell back from VERIFYING to UNKNOWN before position i. */
  function FallBacks(run: seq<System>, i: nat): nat
    requires i < |run|
  {
    if i == 0 then 0
    else
      FallBacks(run, i - 1)
      + (if run[i - 1].ledger.op.state.Verifying? && run[i].ledger.op.state.Unknown? then 1 else 0)
  }

  lemma RunStepCounts(setting: Setting, run: seq<System>, i: nat)
    requires IsRun(setting, run) && i + 1 < |run|
    ensures Counted(run[i], run[i + 1])
  {
    EffectInvariantHolds(setting, run, i);
    var p, step := StepOf(setting, run, i);
    StepCountsInconclusive(setting, run[i], p, step, run[i + 1]);
  }

  lemma {:induction false} FallBacksAreCounted(setting: Setting, run: seq<System>, i: nat)
    requires IsRun(setting, run) && i < |run|
    ensures FallBacks(run, i) == run[i].inconclusive
    decreases i
  {
    if i > 0 {
      FallBacksAreCounted(setting, run, i - 1);
      RunStepCounts(setting, run, i - 1);
    }
  }

  /** Bounded recovery: over a whole life fewer than RecoveryCap verifications leave the
      outcome unknown, although every driver counts on its own and may count too early. */
  lemma RecoveryIsBounded(setting: Setting, run: seq<System>, i: nat)
    requires IsRun(setting, run) && i < |run|
    ensures FallBacks(run, i) <= RecoveryCap(setting.obligations) - 1
  {
    FallBacksAreCounted(setting, run, i);
    EffectInvariantHolds(setting, run, i);
  }

  // ---------------------------------------------------------------- crash stability

  /** The provider is not asked about this check by anyone who is under way. */
  ghost predicate NobodyAsks(s: System, check: Id) {
    forall p :: p in s.drivers && s.drivers[p].Asking? ==> s.drivers[p].check != check
  }

  lemma StepDoesNotAsk(setting: Setting, s: System, p: nat, step: Step, t: System, check: Id)
    requires Takes(setting, s, p, step, t)
    requires ResultOf(s.ledger, check).Some? && NobodyAsks(s, check)
    ensures NobodyAsks(t, check)
    ensures s.inquiries <= t.inquiries
    ensures NoneAbout(t.inquiries[|s.inquiries|..], check)
  {
  }

  ghost predicate NoneAbout(inquiries: seq<Inquiry>, check: Id) {
    forall k :: 0 <= k < |inquiries| ==> inquiries[k].verdict.id != check
  }

  lemma NoneAboutEither(a: seq<Inquiry>, b: seq<Inquiry>, c: seq<Inquiry>, check: Id)
    requires a <= b <= c
    requires NoneAbout(b[|a|..], check) && NoneAbout(c[|b|..], check)
    ensures NoneAbout(c[|a|..], check)
  {
    assert c[|a|..] == b[|a|..] + c[|b|..];
  }

  lemma DurableStays(setting: Setting, run: seq<System>, i: nat, j: nat, check: Id)
    requires IsRun(setting, run) && i <= j < |run|
    requires ResultOf(run[i].ledger, check).Some?
    ensures ResultOf(run[j].ledger, check) == ResultOf(run[i].ledger, check)
  {
    EffectEvidenceIsFinal(setting, run, i, j);
    FindCheckGrows(run[i].ledger.checks, run[j].ledger.checks, check);
  }

  lemma RunStepDoesNotAsk(setting: Setting, run: seq<System>, i: nat, check: Id)
    requires IsRun(setting, run) && i + 1 < |run|
    requires ResultOf(run[i].ledger, check).Some? && NobodyAsks(run[i], check)
    ensures NobodyAsks(run[i + 1], check)
    ensures run[i].inquiries <= run[i + 1].inquiries
    ensures NoneAbout(run[i + 1].inquiries[|run[i].inquiries|..], check)
  {
    var p, step := StepOf(setting, run, i);
    StepDoesNotAsk(setting, run[i], p, step, run[i + 1], check);
  }

  /** Once a result is durable and no question is under way, the provider is never asked about
      that check again. */
  lemma {:induction false} NeverAskedAgain(setting: Setting, run: seq<System>, i: nat, j: nat, check: Id)
    requires IsRun(setting, run) && i <= j < |run|
    requires ResultOf(run[i].ledger, check).Some? && NobodyAsks(run[i], check)
    ensures NobodyAsks(run[j], check)
    ensures run[i].inquiries <= run[j].inquiries
    ensures NoneAbout(run[j].inquiries[|run[i].inquiries|..], check)
    decreases j
  {
    if i < j {
      NeverAskedAgain(setting, run, i, j - 1, check);
      DurableStays(setting, run, i, j - 1, check);
      RunStepDoesNotAsk(setting, run, j - 1, check);
      NoneAboutEither(run[i].inquiries, run[j - 1].inquiries, run[j].inquiries, check);
    }
  }

  /** The verification that VERIFYING waits for has a durable result. */
  ghost predicate ResultIsDurable(ledger: Ledger) {
    ledger.op.state.Verifying? && ledger.op.latestCheck.Some? && ResultOf(ledger, ledger.op.latestCheck.value).Some?
  }

  /** The decision that the rows alone call for. */
  function DurableDecision(setting: Setting, ledger: Ledger): Action
    requires ResultIsDurable(ledger)
  {
    ActionFor(setting, ResultOf(ledger, ledger.op.latestCheck.value).value, Latest(ledger),
              CompletedChecks(ledger.checks))
  }

  /** What a driver can know that has used nothing but these rows: one that starts from them,
      or the one that has just made their result durable. */
  ghost predicate KnowsTheRows(ledger: Ledger, driver: Driver)
    requires ResultIsDurable(ledger)
  {
    var check := ledger.op.latestCheck.value;
    var result := ResultOf(ledger, check).value;
    match driver
    case Resting => true
    case Loading(_, id) => id == check
    case Settled(_, verdict) => verdict == result
    case Informed(_, verdict, latest) => verdict == result && latest == Latest(ledger)
    case Deciding(_, verdict, latest, count) =>
      verdict == result && latest == Latest(ledger) && count == CompletedChecks(ledger.checks)
    case _ => false
  }

  lemma StepKnowsTheRows(setting: Setting, s: System, p: nat, q: nat, step: Step, t: System)
    requires Takes(setting, s, q, step, t)
    requires ResultIsDurable(s.ledger) && t.ledger == s.ledger
    requires KnowsTheRows(s.ledger, DriverOf(s, p))
    ensures KnowsTheRows(t.ledger, DriverOf(t, p))
  {
  }

  lemma RunStepKnowsTheRows(setting: Setting, run: seq<System>, i: nat, p: nat)
    requires IsRun(setting, run) && i + 1 < |run|
    requires ResultIsDurable(run[i].ledger) && run[i + 1].ledger == run[i].ledger
    requires KnowsTheRows(run[i].ledger, DriverOf(run[i], p))
    ensures KnowsTheRows(run[i].ledger, DriverOf(run[i + 1], p))
  {
    var q, step := StepOf(setting, run, i);
    StepKnowsTheRows(setting, run[i], p, q, step, run[i + 1]);
  }

  /** The rows stay as they are from position i to position j. */
  ghost predicate RowsStayFrom(run: seq<System>, i: nat, j: nat)
    requires i <= j < |run|
  {
    forall k :: i <= k <= j ==> run[k].ledger == run[i].ledger
  }

  lemma {:induction false} DriverKnowsTheRows(setting: Setting, run: seq<System>, i: nat, j: nat, p: nat)
    requires IsRun(setting, run) && i <= j < |run|
    requires ResultIsDurable(run[i].ledger) && KnowsTheRows(run[i].ledger, DriverOf(run[i], p))
    requires RowsStayFrom(run, i, j)
    ensures KnowsTheRows(run[i].ledger, DriverOf(run[j], p))
    decreases j
  {
    if i < j {
      DriverKnowsTheRows(setting, run, i, j - 1, p);
      assert run[j - 1].ledger == run[i].ledger && run[j].ledger == run[i].ledger;
      RunStepKnowsTheRows(setting, run, j - 1, p);
    }
  }

  /** The rows after the transition that durable rows call for. */
  function DurableConclusion(setting: Setting, ledger: Ledger): Ledger
    requires ResultIsDurable(ledger)
  {
    ledger.(op := Moved(ledger, TargetOf(KindOf(DurableDecision(setting, ledger)))))
  }

  lemma DecidesFromTheRows(setting: Setting, run: seq<System>, i: nat, j: nat, p: nat)
    requires IsRun(setting, run) && i <= j && j + 1 < |run|
    requires ResultIsDurable(run[i].ledger) && KnowsTheRows(run[i].ledger, DriverOf(run[i], p))
    requires RowsStayFrom(run, i, j)
    requires Takes(setting, run[j], p, Conclude, run[j + 1])
    ensures run[j + 1].ledger == DurableConclusion(setting, run[i].ledger)
  {
    DriverKnowsTheRows(setting, run, i, j, p);
    EffectInvariantHolds(setting, run, j);
    var d := DriverOf(run[j], p);
    assert p in run[j].drivers && DriverFits(setting, run[j], d);
    assert run[j].ledger == run[i].ledger;
    JudgingWritesOnlyTheState(
      run[j].ledger, KindOf(ActionFor(setting, d.verdict, d.latest, d.count)), d.version, d.verdict);
  }

  /** Whoever died after the result became durable, a recovery that starts from those rows
      commits exactly the transition the rows call for. */
  lemma RecoveryDecidesFromTheRows(setting: Setting, run: seq<System>, i: nat, j: nat, p: nat)
    requires IsRun(setting, run) && i <= j && j + 1 < |run|
    requires ResultIsDurable(run[i].ledger) && DriverOf(run[i], p).Resting?
    requires RowsStayFrom(run, i, j)
    requires Takes(setting, run[j], p, Conclude, run[j + 1])
    ensures run[j + 1].ledger == DurableConclusion(setting, run[i].ledger)
  {
    DecidesFromTheRows(setting, run, i, j, p);
  }

  /** The result of the present check becomes durable by this driver's commit. */
  ghost predicate MakesDurable(setting: Setting, s: System, p: nat, t: System) {
    Takes(setting, s, p, StoreResult, t) && !ResultIsDurable(s.ledger) && ResultIsDurable(t.ledger)
  }

  /** What has just become durable is what the driver heard. */
  lemma StoringMakesKnown(setting: Setting, s: System, p: nat, t: System)
    requires MakesDurable(setting, s, p, t)
    ensures KnowsTheRows(t.ledger, DriverOf(t, p))
  {
    var verdict := DriverOf(s, p).verdict;
    var check := t.ledger.op.latestCheck.value;
    StoreVerdictGrows(s.ledger.checks, verdict);
    FindCheckGrows(s.ledger.checks, t.ledger.checks, verdict.id);
    if check != verdict.id {
      assert s.ledger.checks[FindCheck(t.ledger.checks, check)].id == check;
      FindCheckGrows(s.ledger.checks, t.ledger.checks, check);
    }
  }

  /** The driver that made the result durable and was not interrupted commits the same
      transition as one that starts from the rows it left. */
  lemma UninterruptedDecidesFromTheRows(setting: Setting, run: seq<System>, i: nat, j: nat, p: nat)
    requires IsRun(setting, run) && i < j && j + 1 < |run|
    requires MakesDurable(setting, run[i], p, run[i + 1])
    requires RowsStayFrom(run, i + 1, j)
    requires Takes(setting, run[j], p, Conclude, run[j + 1])
    ensures run[j + 1].ledger == DurableConclusion(setting, run[i + 1].ledger)
  {
    StoringMakesKnown(setting, run[i], p, run[i + 1]);
    DecidesFromTheRows(setting, run, i + 1, j, p);
  }

  /** Crash stability: take a run in which the driver that made the result durable goes on to
      conclude, and any other run that has come to the same rows, after however many crashes,
      and is concluded by a recovery. Both commit the same rows. */
  lemma CrashesChangeNoDecision(
    setting: Setting, run: seq<System>, i: nat, j: nat, p: nat, crashed: seq<System>, k: nat, m: nat, q: nat)
    requires IsRun(setting, run) && i < j && j + 1 < |run|
    requires MakesDurable(setting, run[i], p, run[i + 1]) && RowsStayFrom(run, i + 1, j)
    requires Takes(setting, run[j], p, Conclude, run[j + 1])
    requires IsRun(setting, crashed) && k <= m && m + 1 < |crashed|
    requires crashed[k].ledger == run[i + 1].ledger && DriverOf(crashed[k], q).Resting?
    requires RowsStayFrom(crashed, k, m)
    requires Takes(setting, crashed[m], q, Conclude, crashed[m + 1])
    ensures crashed[m + 1].ledger == run[j + 1].ledger
  {
    UninterruptedDecidesFromTheRows(setting, run, i, j, p);
    RecoveryDecidesFromTheRows(setting, crashed, k, m, q);
  }

  // ---------------------------------------------------------------- racing conclusions

  /** Drivers that race to verify may hear different verdicts, but only one outcome becomes
      durable and every conclusion has that outcome. What a driver decides from the verdict it
      heard is what the stored one calls for if and only if the outcome is decided, or both or
      neither go to a person. */
  lemma RacingConclusionsAgree(setting: Setting, run: seq<System>, i: nat, p: nat, count: nat)
    requires IsRun(setting, run) && i + 1 < |run|
    requires Takes(setting, run[i], p, Conclude, run[i + 1])
    ensures ResultIsDurable(run[i].ledger)
    ensures var result := ResultOf(run[i].ledger, run[i].ledger.op.latestCheck.value).value;
      var d := DriverOf(run[i], p);
      && d.Deciding? && d.verdict.outcome == result.outcome
      && (ActionFor(setting, d.verdict, d.latest, d.count) == ActionFor(setting, result, d.latest, count)
          <==> || !result.outcome.EffectUnknown?
               || (Closes(setting.obligations, d.verdict, d.count) <==> Closes(setting.obligations, result, count)))
  {
    EffectInvariantHolds(setting, run, i);
    var d := DriverOf(run[i], p);
    assert p in run[i].drivers && DriverFits(setting, run[i], d);
  }

  // ---------------------------------------------------------------- unverifiable effects

  /** Recovering UNKNOWN without verification either moves the operation or is refused. It is
      refused exactly when the registry licenses a retry whose outcome is still unresolved:
      the transition asks for a proof that its command cannot carry. */
  lemma UnverifiableRecoveryMovesIff(setting: Setting, ledger: Ledger, now: int, check: Id)
    requires ledger.op.state.Unknown? && |ledger.attempts| > 0 && !setting.descriptor.verifiable
    ensures var latest := ledger.attempts[|ledger.attempts| - 1];
      var result := ApplyEffect(ledger, PlanForUnknown(setting, ledger, now, check));
      var stuck := UnknownOutcome(latest).EffectUnknown?
        && MayRetryEffect(setting, ledger.attempts, EffectUnknown, latest.number, now);
      && (result.EffectCommitted? <==> !stuck)
      && (stuck ==> result == Refused(RetryNeedsProof))
      && (!stuck ==> result.ledger.op.state.Ready? || result.ledger.op.state.ManualIntervention?)
      && (result.EffectCommitted? && result.ledger.op.state.Ready? <==>
            !stuck && MayRetryEffect(setting, ledger.attempts, UnknownOutcome(latest), latest.number, now))
  {
  }

  /** For a provider key the refusals end with the replay window; only then does recovery hand
      the operation to a person. */
  lemma StuckUntilTheWindowEnds(setting: Setting, ledger: Ledger, window: string, now: int, check: Id)
    requires ledger.op.state.Unknown? && |ledger.attempts| > 0 && !setting.descriptor.verifiable
    requires !ledger.attempts[|ledger.attempts| - 1].state.Completed?
    requires ledger.attempts[|ledger.attempts| - 1].number < ExecutionCap(setting.obligations)
    requires setting.descriptor.idempotency.ProviderKey?
    requires setting.descriptor.keySemantics == Some(KeySemantics(Some(window))) && IsPositiveDecimal(window)
    ensures ApplyEffect(ledger, PlanForUnknown(setting, ledger, now, check)).EffectCommitted?
        <==> now >= ledger.attempts[0].startedAt + DecimalValue(window)
  {
    ProviderKeyPermissionEnds(setting.descriptor, window, ledger.attempts[0].startedAt, now);
    UnverifiableRecoveryMovesIff(setting, ledger, now, check);
  }
}
