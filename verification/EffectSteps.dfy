/** Every step of every driver keeps the invariant. */
module EffectSteps {
  import opened Lifecycle
  import opened RetrySafety
  import opened Reconciliation
  import opened EffectTransitions
  import opened EffectProtocol
  import opened EffectInvariant

  // ---------------------------------------------------------------- the rows only grow

  /** Attempts are only appended, and only an open one is ever completed. */
  ghost predicate AttemptsGrow(before: seq<Attempt>, after: seq<Attempt>) {
    && |before| <= |after|
    && forall k :: 0 <= k < |before| ==>
         && after[k] == before[k].(state := after[k].state)
         && (after[k].state == before[k].state || (before[k].state.Started? && after[k].state.Completed?))
  }

  /** Checks are only appended, and a durable result is never replaced. */
  ghost predicate ChecksGrow(before: seq<Check>, after: seq<Check>) {
    && |before| <= |after|
    && forall k :: 0 <= k < |before| ==>
         && after[k] == before[k].(result := after[k].result)
         && (before[k].result.Some? ==> after[k].result == before[k].result)
  }

  ghost predicate LedgerGrows(before: Ledger, after: Ledger) {
    && before.op.version <= after.op.version
    && AttemptsGrow(before.attempts, after.attempts)
    && ChecksGrow(before.checks, after.checks)
  }

  lemma {:induction false} FindCheckGrows(before: seq<Check>, after: seq<Check>, id: Id)
    requires ChecksGrow(before, after)
    ensures FindCheck(before, id) < |before| ==> FindCheck(after, id) == FindCheck(before, id)
  {
    if |before| > 0 && before[0].id != id {
      assert after[0].id == before[0].id;
      forall k | 0 <= k < |before| - 1
        ensures after[1..][k] == before[1..][k].(result := after[1..][k].result)
        ensures before[1..][k].result.Some? ==> after[1..][k].result == before[1..][k].result
      {
        assert after[k + 1] == before[k + 1].(result := after[k + 1].result);
      }
      FindCheckGrows(before[1..], after[1..], id);
    }
  }

  lemma {:induction false} CountGrows(before: seq<Check>, after: seq<Check>)
    requires ChecksGrow(before, after)
    ensures CompletedChecks(before) <= CompletedChecks(after)
    decreases |after|
  {
    if |before| == |after| && |after| > 0 {
      CountGrows(before[..|before| - 1], after[..|after| - 1]);
    } else if |before| < |after| {
      CountGrows(before, after[..|after| - 1]);
    }
  }

  lemma StoredGrows(before: Ledger, after: Ledger, verdict: Verdict)
    requires ChecksGrow(before.checks, after.checks) && Stored(before, verdict)
    ensures Stored(after, verdict)
  {
    FindCheckGrows(before.checks, after.checks, verdict.id);
  }

  lemma CheckedAsGrows(before: seq<Check>, after: seq<Check>, target: Option<Id>, outcome: EffectOutcome)
    requires ChecksGrow(before, after) && CheckedAs(before, target, outcome)
    ensures CheckedAs(after, target, outcome)
  {
    var i :| 0 <= i < |before| && before[i].target == target
      && before[i].result.Some? && before[i].result.value.outcome == outcome;
    assert after[i].target == target && after[i].result == before[i].result;
  }

  lemma CalledWithGrows(calls: seq<Call>, more: Call, id: Id, outcome: EffectOutcome)
    requires CalledWith(calls, id, outcome)
    ensures CalledWith(calls + [more], id, outcome)
  {
    var i :| 0 <= i < |calls| && calls[i].attempt == id && calls[i].outcome == outcome;
    assert (calls + [more])[i] == calls[i];
  }

  lemma HeardGrows(inquiries: seq<Inquiry>, more: Inquiry, verdict: Verdict)
    requires Heard(inquiries, verdict)
    ensures Heard(inquiries + [more], verdict)
  {
    var i :| 0 <= i < |inquiries| && inquiries[i].verdict == verdict;
    assert (inquiries + [more])[i] == inquiries[i];
  }

  // ---------------------------------------------------------------- other drivers

  /** A commit of one driver leaves the knowledge of every other driver true or stale. */
  lemma BystanderFits(setting: Setting, s: System, t: System, driver: Driver)
    requires DriverFits(setting, s, driver)
    requires LedgerGrows(s.ledger, t.ledger)
    requires t.ledger.op.version > s.ledger.op.version
        || (&& t.ledger.op == s.ledger.op && |t.ledger.attempts| == |s.ledger.attempts|
            && t.inconclusive == s.inconclusive)
    requires t.calls == s.calls && t.inquiries == s.inquiries
    requires OwnsAttempt(driver)
        ==> t.ledger.attempts[driver.attempt.number - 1] == s.ledger.attempts[driver.attempt.number - 1]
    ensures DriverFits(setting, t, driver)
  {
    match driver
    case Settled(_, verdict) => StoredGrows(s.ledger, t.ledger, verdict);
    case Informed(_, verdict, _) => StoredGrows(s.ledger, t.ledger, verdict);
    case Deciding(_, verdict, _, _) => StoredGrows(s.ledger, t.ledger, verdict);
    case Planning(command) =>
      if command.UnknownSafeRetry? && command.expected == t.ledger.op.version && command.execution.EffectNotApplied? {
        NotAppliedStays(s.ledger, t.ledger);
      }
    case _ =>
  }

  lemma NotAppliedStays(before: Ledger, after: Ledger)
    requires LedgerGrows(before, after) && |after.attempts| == |before.attempts|
    requires NotAppliedShown(before)
    ensures NotAppliedShown(after)
  {
    if CheckedAs(before.checks, LatestId(before), EffectNotApplied) {
      CheckedAsGrows(before.checks, after.checks, LatestId(before), EffectNotApplied);
    }
  }

  lemma AppliedStays(setting: Setting, before: Ledger, after: Ledger)
    requires LedgerGrows(before, after) && |after.attempts| == |before.attempts|
    requires AppliedShown(setting, before)
    ensures AppliedShown(setting, after)
  {
    if CheckedAs(before.checks, LatestId(before), EffectApplied) {
      CheckedAsGrows(before.checks, after.checks, LatestId(before), EffectApplied);
    }
  }

  /** What the step of driver p has to show about itself, so that all drivers fit afterwards. */
  lemma DriversFitAfter(setting: Setting, s: System, p: nat, driver: Driver, t: System)
    requires DriversFit(setting, s)
    requires t.drivers == s.drivers[p := driver] && DriverFits(setting, t, driver)
    requires LedgerGrows(s.ledger, t.ledger)
    requires t.ledger.op.version > s.ledger.op.version
        || (&& t.ledger.op == s.ledger.op && |t.ledger.attempts| == |s.ledger.attempts|
            && t.inconclusive == s.inconclusive)
    requires t.calls == s.calls && t.inquiries == s.inquiries
    requires forall k ::
               0 <= k < |s.ledger.attempts| ==>
                 (|| t.ledger.attempts[k] == s.ledger.attempts[k]
                  || (OwnsAttempt(DriverOf(s, p)) && DriverOf(s, p).attempt.number == k + 1))
    requires OwnsAttempt(driver) && !OwnsAttempt(DriverOf(s, p)) ==> driver.attempt.number > |s.ledger.attempts|
    requires OwnsAttempt(driver) && OwnsAttempt(DriverOf(s, p))
        ==> driver.attempt.number == DriverOf(s, p).attempt.number
    ensures DriversFit(setting, t)
  {
    forall q | q in t.drivers ensures DriverFits(setting, t, t.drivers[q]) {
      if q != p {
        var d := s.drivers[q];
        if OwnsAttempt(d) {
          assert DriverFits(setting, s, d);
          assert t.ledger.attempts[d.attempt.number - 1] == s.ledger.attempts[d.attempt.number - 1];
        }
        BystanderFits(setting, s, t, d);
      }
    }
    forall q, r | q in t.drivers && r in t.drivers && q != r
        && OwnsAttempt(t.drivers[q]) && OwnsAttempt(t.drivers[r])
      ensures t.drivers[q].attempt.number != t.drivers[r].attempt.number
    {
      if q != p { assert DriverFits(setting, s, s.drivers[q]); }
      if r != p { assert DriverFits(setting, s, s.drivers[r]); }
    }
  }

  /** A step that only changes what its driver knows. */
  lemma KnowledgeStep(setting: Setting, s: System, p: nat, driver: Driver)
    requires Inv(setting, s) && DriverFits(setting, s, driver) && !OwnsAttempt(driver)
    ensures Inv(setting, With(s, p, driver))
  {
    var t := With(s, p, driver);
    assert DriverFits(setting, t, driver);
    DriversFitAfter(setting, s, p, driver, t);
  }

  // ---------------------------------------------------------------- execution

  lemma ClaimKeeps(setting: Setting, s: System, p: nat, expected: nat, started: Attempt, t: System)
    requires Inv(setting, s) && TakesExecution(setting, s, p, Claim(expected, started), t)
    ensures Inv(setting, t) && LedgerGrows(s.ledger, t.ledger)
  {
    var before, after := s.ledger.attempts, t.ledger.attempts;
    assert after == before + [started];
    assert HoldsAttempt(t.ledger, started);
    DriversFitAfter(setting, s, p, Claiming(started, expected + 1), t);
    forall k | 0 <= k < |after| && after[k].state.Completed?
      ensures CalledWith(t.calls, after[k].id, after[k].state.outcome)
    {
      assert after[k] == before[k];
    }
  }

  lemma ExecuteKeeps(setting: Setting, s: System, p: nat, outcome: EffectOutcome, t: System)
    requires Inv(setting, s) && TakesExecution(setting, s, p, Execute(outcome), t)
    ensures Inv(setting, t) && LedgerGrows(s.ledger, t.ledger)
  {
    var d := DriverOf(s, p);
    assert p in s.drivers && DriverFits(setting, s, d);
    var call := Call(p, d.attempt.id, d.attempt.number, outcome);
    assert t.calls[|s.calls|] == call;
    assert CallIsDurable(t.ledger.attempts, call);
    forall k | 0 <= k < |t.ledger.attempts| && t.ledger.attempts[k].state.Completed?
      ensures CalledWith(t.calls, t.ledger.attempts[k].id, t.ledger.attempts[k].state.outcome)
    {
      CalledWithGrows(s.calls, call, t.ledger.attempts[k].id, t.ledger.attempts[k].state.outcome);
    }
    forall q | q in t.drivers ensures DriverFits(setting, t, t.drivers[q]) {
      if q != p {
        assert DriverFits(setting, s, s.drivers[q]);
        if s.drivers[q].Answering? {
          CalledWithGrows(s.calls, call, s.drivers[q].attempt.id, s.drivers[q].attempt.state.outcome);
        }
      } else {
        assert d.attempt.(state := Completed(outcome)).(state := Started) == d.attempt;
      }
    }
  }

  /** Completing an open attempt keeps the rows in order. */
  lemma RecordedRowsFit(setting: Setting, ledger: Ledger, attempt: Attempt)
    requires RowsFit(setting, ledger) && attempt.state.Completed?
    requires HoldsAttempt(ledger, attempt.(state := Started))
    ensures var after := ledger.(attempts := ledger.attempts[attempt.number - 1 := attempt]);
      RowsFit(setting, after) && LedgerGrows(ledger, after) && HoldsAttempt(after, attempt)
  {
    var after := ledger.(attempts := ledger.attempts[attempt.number - 1 := attempt]);
    assert LatestId(after) == LatestId(ledger);
    OutcomeStays(setting, ledger, after);
  }

  lemma RecordKeeps(setting: Setting, s: System, p: nat, t: System)
    requires Inv(setting, s) && TakesExecution(setting, s, p, Record, t)
    ensures Inv(setting, t) && LedgerGrows(s.ledger, t.ledger)
  {
    var d := DriverOf(s, p);
    assert p in s.drivers && DriverFits(setting, s, d);
    RecordedRowsFit(setting, s.ledger, d.attempt);
    DriversFitAfter(setting, s, p, Finishing(d.attempt, d.version), t);
  }

  lemma PrefixCount(checks: seq<Check>)
    requires |checks| > 0
    ensures CompletedChecks(checks[..|checks| - 1]) <= CompletedChecks(checks)
         <= CompletedChecks(checks[..|checks| - 1]) + 1
  {
  }

  /** Opening a check keeps the rows in order; the old ones are settled for good. */
  lemma OpenedCheck(setting: Setting, ledger: Ledger, check: Check, to: OperationState)
    requires RowsFit(setting, ledger) && to.Verifying? && !ledger.op.state.Verifying?
    requires OpenCheck(ledger, check, to).EffectCommitted?
    requires check.target == LatestId(ledger)
    ensures var after := OpenCheck(ledger, check, to).ledger;
      && RowsFit(setting, after) && LedgerGrows(ledger, after)
      && SettledChecks(after) == SettledChecks(ledger)
      && (forall k :: 0 <= k < |after.checks| && after.checks[k].result.Some?
            ==> k < |ledger.checks| && ledger.checks[k] == after.checks[k])
  {
    var after := OpenCheck(ledger, check, to).ledger;
    assert after.checks[..|after.checks| - 1] == ledger.checks;
  }

  lemma CommitKeepsBudget(setting: Setting, s: System, t: System)
    requires BudgetFits(setting, s) && s.ledger.checks == t.ledger.checks
    requires t.inconclusive == s.inconclusive && !t.ledger.op.state.Verifying?
    ensures BudgetFits(setting, t)
  {
    if s.ledger.op.state.Verifying? && |s.ledger.checks| > 0 { PrefixCount(s.ledger.checks); }
  }

  lemma FinishKeeps(setting: Setting, s: System, p: nat, now: int, check: Id, t: System)
    requires Inv(setting, s) && TakesExecution(setting, s, p, Finish(now, check), t)
    ensures Inv(setting, t) && LedgerGrows(s.ledger, t.ledger)
  {
    var d := DriverOf(s, p);
    assert p in s.drivers && DriverFits(setting, s, d);
    var command := FinishCommand(setting, s.ledger, d.attempt, d.version, now, check);
    assert Latest(s.ledger).value == d.attempt;
    assert CompleteLast(s.ledger.attempts, Some(d.attempt)) == s.ledger.attempts;
    assert s.ledger.(attempts := s.ledger.attempts) == s.ledger;
    if command.kind.ExecutionRequireVerification? {
      OpenedCheck(setting, s.ledger, command.check, Verifying);
    } else {
      CommitKeepsBudget(setting, s, t);
    }
    DriversFitAfter(setting, s, p, Resting, t);
  }

  lemma AbandonKeeps(setting: Setting, s: System, p: nat, t: System)
    requires Inv(setting, s) && TakesExecution(setting, s, p, Abandon, t)
    ensures Inv(setting, t) && LedgerGrows(s.ledger, t.ledger)
  {
    assert t.ledger.attempts == s.ledger.attempts;
    CommitKeepsBudget(setting, s, t);
    DriversFitAfter(setting, s, p, Resting, t);
  }

  lemma SeeAttemptKeeps(setting: Setting, s: System, p: nat, t: System)
    requires Inv(setting, s) && TakesExecution(setting, s, p, SeeAttempt, t)
    ensures Inv(setting, t) && t.ledger == s.ledger
  {
    var latest := Latest(s.ledger).value;
    assert HoldsAttempt(s.ledger, latest);
    KnowledgeStep(setting, s, p, t.drivers[p]);
  }

  // ---------------------------------------------------------------- verification

  /** The newest check is found at the end. */
  lemma NewestIsLast(checks: seq<Check>)
    requires ChecksDistinct(checks) && |checks| > 0
    ensures FindCheck(checks, checks[|checks| - 1].id) == |checks| - 1
  {
  }

  lemma StoreVerdictGrows(checks: seq<Check>, verdict: Verdict)
    ensures ChecksGrow(checks, StoreVerdict(checks, verdict))
  {
  }

  lemma VerifyKeeps(setting: Setting, s: System, p: nat, heard: Verdict, t: System)
    requires Inv(setting, s) && TakesRecovery(setting, s, p, Verify(heard), t)
    ensures Inv(setting, t) && t.ledger == s.ledger
  {
    var d := DriverOf(s, p);
    assert p in s.drivers && DriverFits(setting, s, d);
    var inquiry := Inquiry(p, heard);
    assert t.inquiries[|s.inquiries|] == inquiry;
    forall k | 0 <= k < |t.ledger.checks| && t.ledger.checks[k].result.Some?
      ensures Heard(t.inquiries, t.ledger.checks[k].result.value)
    {
      HeardGrows(s.inquiries, inquiry, t.ledger.checks[k].result.value);
    }
    forall q | q in t.drivers ensures DriverFits(setting, t, t.drivers[q]) {
      if q != p {
        assert DriverFits(setting, s, s.drivers[q]);
        if s.drivers[q].Hearing? {
          HeardGrows(s.inquiries, inquiry, s.drivers[q].verdict);
        }
      }
    }
  }

  /** Storing a result keeps the rows in order and settles no check twice. */
  lemma StoredRowsFit(setting: Setting, ledger: Ledger, verdict: Verdict)
    requires RowsFit(setting, ledger) && FindCheck(ledger.checks, verdict.id) < |ledger.checks|
    ensures var after := ledger.(checks := StoreVerdict(ledger.checks, verdict));
      && RowsFit(setting, after) && LedgerGrows(ledger, after)
      && SettledChecks(ledger) <= SettledChecks(after)
      && (ResultOf(ledger, verdict.id).Some? || Stored(after, verdict))
  {
    var after := ledger.(checks := StoreVerdict(ledger.checks, verdict));
    StoreVerdictGrows(ledger.checks, verdict);
    FindCheckGrows(ledger.checks, after.checks, verdict.id);
    OutcomeStays(setting, ledger, after);
    StoredSettles(ledger, verdict);
  }

  lemma OutcomeStays(setting: Setting, before: Ledger, after: Ledger)
    requires OutcomeFits(setting, before) && LedgerGrows(before, after)
    requires after.op == before.op && |after.attempts| == |before.attempts|
    ensures OutcomeFits(setting, after)
  {
    if before.op.state.Succeeded? { AppliedStays(setting, before, after); }
    if before.op.state.Failed? { NotAppliedStays(before, after); }
  }

  lemma StoredSettles(ledger: Ledger, verdict: Verdict)
    ensures SettledChecks(ledger) <= SettledChecks(ledger.(checks := StoreVerdict(ledger.checks, verdict)))
  {
    var before, after := ledger.checks, StoreVerdict(ledger.checks, verdict);
    StoreVerdictGrows(before, verdict);
    CountGrows(before, after);
    if |before| > 0 {
      CountGrows(before[..|before| - 1], after[..|after| - 1]);
    }
  }

  lemma StoreKeeps(setting: Setting, s: System, p: nat, t: System)
    requires Inv(setting, s) && TakesRecovery(setting, s, p, StoreResult, t)
    ensures Inv(setting, t) && LedgerGrows(s.ledger, t.ledger)
  {
    var d := DriverOf(s, p);
    assert p in s.drivers && DriverFits(setting, s, d);
    StoredRowsFit(setting, s.ledger, d.verdict);
    FindCheckGrows(s.ledger.checks, t.ledger.checks, d.verdict.id);
    assert DriverFits(setting, t, Settled(d.version, d.verdict));
    DriversFitAfter(setting, s, p, Settled(d.version, d.verdict), t);
    assert CallsFit(t);
  }

  /** A count taken once the present result is durable includes it. */
  lemma CountIncludesPresent(setting: Setting, s: System, verdict: Verdict)
    requires Inv(setting, s) && Stored(s.ledger, verdict)
    requires s.ledger.op.state.Verifying? && s.ledger.op.latestCheck == Some(verdict.id)
    ensures CompletedChecks(s.ledger.checks) >= s.inconclusive + 1
    ensures s.ledger.checks[|s.ledger.checks| - 1].id == verdict.id
    ensures s.ledger.checks[|s.ledger.checks| - 1].result.Some?
    ensures s.ledger.checks[|s.ledger.checks| - 1].result.value.outcome == verdict.outcome
  {
    NewestIsLast(s.ledger.checks);
  }

  lemma ReadingKeeps(setting: Setting, s: System, p: nat, step: Step, t: System)
    requires Inv(setting, s) && TakesRecovery(setting, s, p, step, t)
    requires step.SeeVerifying? || step.LoadCheck? || step.ReadAttempts? || step.ReadCount?
    ensures Inv(setting, t) && t.ledger == s.ledger
  {
    var d := DriverOf(s, p);
    if p in s.drivers { assert DriverFits(setting, s, d); }
    if step.ReadCount? && d.version == s.ledger.op.version {
      CountIncludesPresent(setting, s, d.verdict);
    }
    KnowledgeStep(setting, s, p, t.drivers[p]);
  }

  // ---------------------------------------------------------------- decisions

  /** A verdict is only judged once it is durable, so judging writes nothing but the state. */
  lemma JudgingWritesOnlyTheState(ledger: Ledger, kind: EffectKind, expected: nat, verdict: Verdict)
    requires Stored(ledger, verdict)
    requires ApplyEffect(ledger, FinishVerification(kind, expected, verdict)).EffectCommitted?
    ensures ApplyEffect(ledger, FinishVerification(kind, expected, verdict)).ledger
         == ledger.(op := Moved(ledger, TargetOf(kind)))
  {
    assert StoreVerdict(ledger.checks, verdict) == ledger.checks;
    assert ledger.(checks := ledger.checks) == ledger;
  }

  /** The state a decision leads to is the one its evidence allows. */
  lemma JudgedRowsFit(setting: Setting, ledger: Ledger, verdict: Verdict, latest: Option<Attempt>, count: nat)
    requires RowsFit(setting, ledger) && ledger.op.state.Verifying?
    requires LatestWasRead(ledger, ledger.op.version, latest)
    requires CheckedAs(ledger.checks, LatestId(ledger), verdict.outcome)
    ensures var kind := KindOf(ActionFor(setting, verdict, latest, count));
      var after := ledger.(op := Moved(ledger, TargetOf(kind)));
      && RowsFit(setting, after)
      && (after.op.state.Ready? ==>
            && |after.attempts| < ExecutionCap(setting.obligations)
            && CheckedAs(after.checks, LatestId(after), EffectNotApplied))
  {
    DecisionsAreEvidenced(verdict, latest, setting.descriptor, setting.obligations, count);
  }

  /** A decision that a verdict commits rests on the durable result of the newest check. */
  lemma ConcludedRowsFit(setting: Setting, s: System, p: nat, t: System)
    requires Inv(setting, s) && TakesRecovery(setting, s, p, Conclude, t)
    ensures RowsFit(setting, t.ledger)
    ensures t.ledger == s.ledger.(op := t.ledger.op) && t.ledger.op.version == s.ledger.op.version + 1
    ensures DriverOf(s, p).version == s.ledger.op.version
    ensures !t.ledger.op.state.Verifying?
    ensures t.ledger.op.state.Ready? ==>
              |t.ledger.attempts| < ExecutionCap(setting.obligations)
              && CheckedAs(t.ledger.checks, LatestId(t.ledger), EffectNotApplied)
  {
    var d := DriverOf(s, p);
    assert p in s.drivers && DriverFits(setting, s, d);
    CountIncludesPresent(setting, s, d.verdict);
    assert s.ledger.checks[|s.ledger.checks| - 1].target == LatestId(s.ledger);
    JudgmentFits(setting, s.ledger, d);
  }

  /** A decision taken from a durable result moves nothing but the state. */
  lemma JudgmentFits(setting: Setting, ledger: Ledger, d: Driver)
    requires RowsFit(setting, ledger) && ledger.op.state.Verifying? && d.Deciding?
    requires Stored(ledger, d.verdict) && LatestWasRead(ledger, ledger.op.version, d.latest)
    requires CheckedAs(ledger.checks, LatestId(ledger), d.verdict.outcome)
    requires ApplyEffect(ledger, ConcludeCommand(setting, d)).EffectCommitted?
    ensures var after := ApplyEffect(ledger, ConcludeCommand(setting, d)).ledger;
      && RowsFit(setting, after)
      && after == ledger.(op := after.op) && after.op.version == ledger.op.version + 1
      && !after.op.state.Verifying?
      && (after.op.state.Ready? ==>
            && |after.attempts| < ExecutionCap(setting.obligations)
            && CheckedAs(after.checks, LatestId(after), EffectNotApplied))
  {
    var kind := KindOf(ActionFor(setting, d.verdict, d.latest, d.count));
    JudgingWritesOnlyTheState(ledger, kind, d.version, d.verdict);
    JudgedRowsFit(setting, ledger, d.verdict, d.latest, d.count);
  }

  lemma ConcludedBudgetFits(setting: Setting, s: System, p: nat, t: System)
    requires Inv(setting, s) && TakesRecovery(setting, s, p, Conclude, t)
    ensures BudgetFits(setting, t)
  {
    var d := DriverOf(s, p);
    assert p in s.drivers && DriverFits(setting, s, d);
    ConcludedRowsFit(setting, s, p, t);
    CountIncludesPresent(setting, s, d.verdict);
    DecisionsAreEvidenced(d.verdict, d.latest, setting.descriptor, setting.obligations, d.count);
  }

  lemma ConcludeKeeps(setting: Setting, s: System, p: nat, t: System)
    requires Inv(setting, s) && TakesRecovery(setting, s, p, Conclude, t)
    ensures Inv(setting, t) && LedgerGrows(s.ledger, t.ledger)
  {
    ConcludedRowsFit(setting, s, p, t);
    ConcludedBudgetFits(setting, s, p, t);
    DriversFitAfter(setting, s, p, Resting, t);
  }

  lemma PlanKeeps(setting: Setting, s: System, p: nat, step: Step, t: System)
    requires Inv(setting, s) && TakesRecovery(setting, s, p, step, t)
    requires step.PlanUnknown? || step.PlanManual?
    ensures Inv(setting, t) && t.ledger == s.ledger
  {
    KnowledgeStep(setting, s, p, t.drivers[p]);
  }

  lemma SendCheckKeeps(setting: Setting, s: System, p: nat, t: System)
    requires Inv(setting, s) && TakesRecovery(setting, s, p, Send, t)
    requires DriverOf(s, p).command.StartCheck?
    ensures Inv(setting, t) && LedgerGrows(s.ledger, t.ledger)
  {
    var command := DriverOf(s, p).command;
    assert p in s.drivers && PlanFits(setting, s.ledger, command);
    assert CommandTarget(command).Verifying?;
    OpenedCheck(setting, s.ledger, command.check, Verifying);
    DriversFitAfter(setting, s, p, Loading(command.expected + 1, command.check.id), t);
  }

  lemma SendMoveKeeps(setting: Setting, s: System, p: nat, t: System)
    requires Inv(setting, s) && TakesRecovery(setting, s, p, Send, t)
    requires !DriverOf(s, p).command.StartCheck?
    ensures Inv(setting, t) && LedgerGrows(s.ledger, t.ledger)
    ensures t.ledger.op.state.Ready? ==>
              |t.ledger.attempts| < ExecutionCap(setting.obligations) && NotAppliedShown(t.ledger)
  {
    var command := DriverOf(s, p).command;
    assert p in s.drivers && PlanFits(setting, s.ledger, command);
    assert t.ledger == s.ledger.(op := Moved(s.ledger, CommandTarget(command)));
    CommitKeepsBudget(setting, s, t);
    DriversFitAfter(setting, s, p, Resting, t);
  }

  lemma OtherRowsFit(setting: Setting, ledger: Ledger, to: OperationState)
    requires RowsFit(setting, ledger)
    requires ApplyEffect(ledger, OtherEdge(ledger.op.version, to)).EffectCommitted?
    ensures var after := ApplyEffect(ledger, OtherEdge(ledger.op.version, to)).ledger;
      RowsFit(setting, after) && after == ledger.(op := Moved(ledger, to)) && !to.Verifying?
  {
  }

  lemma OtherKeeps(setting: Setting, s: System, p: nat, to: OperationState, t: System)
    requires Inv(setting, s) && Takes(setting, s, p, Other(to), t)
    ensures Inv(setting, t) && LedgerGrows(s.ledger, t.ledger)
  {
    var d := DriverOf(s, p);
    OtherRowsFit(setting, s.ledger, to);
    CommitKeepsBudget(setting, s, t);
    if p in s.drivers {
      assert DriverFits(setting, s, d);
      BystanderFits(setting, s, s.(ledger := t.ledger), d);
    }
    DriversFitAfter(setting, s, p, d, t);
  }

  lemma StepKeeps(setting: Setting, s: System, p: nat, step: Step, t: System)
    requires Inv(setting, s) && Takes(setting, s, p, step, t)
    ensures Inv(setting, t) && LedgerGrows(s.ledger, t.ledger)
  {
    match step
    case Claim(expected, started) => ClaimKeeps(setting, s, p, expected, started, t);
    case Execute(outcome) => ExecuteKeeps(setting, s, p, outcome, t);
    case Record => RecordKeeps(setting, s, p, t);
    case SeeAttempt => SeeAttemptKeeps(setting, s, p, t);
    case Finish(now, check) => FinishKeeps(setting, s, p, now, check, t);
    case Abandon => AbandonKeeps(setting, s, p, t);
    case Verify(heard) => VerifyKeeps(setting, s, p, heard, t);
    case StoreResult => StoreKeeps(setting, s, p, t);
    case Conclude => ConcludeKeeps(setting, s, p, t);
    case PlanUnknown(_, _) => PlanKeeps(setting, s, p, step, t);
    case PlanManual(_) => PlanKeeps(setting, s, p, step, t);
    case Send =>
      if DriverOf(s, p).command.StartCheck? {
        SendCheckKeeps(setting, s, p, t);
      } else {
        SendMoveKeeps(setting, s, p, t);
      }
    case Other(to) => OtherKeeps(setting, s, p, to, t);
    case Crash => KnowledgeStep(setting, s, p, Resting);
    case _ => ReadingKeeps(setting, s, p, step, t);
  }
}
