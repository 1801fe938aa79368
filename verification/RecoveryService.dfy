/** recovery/recover.py and recovery/persist.py as they run, while any number of other drivers
    work on the same operation. The ghost field `run` records every step taken, so whatever
    holds in every run holds of what these methods do. */
module RecoveryServices {
  import opened Lifecycle
  import opened Reconciliation
  import opened EffectTransitions
  import opened EffectProtocol
  import opened EffectInvariant
  import opened EffectSteps
  import opened EffectTheorems
  import opened EffectDecisions

  datatype CrashPoint = AfterStartCommit | AfterVerifyBeforeResult | AfterResultCommit

  datatype Disposition = Accepted | Rejected | InfrastructureFailure | Crashed

  datatype Persisted = Present | NotFound | Violation

  /** Calls that were added since, none of them by this driver. */
  ghost predicate NotCalledBy(driver: nat, before: seq<Call>, after: seq<Call>) {
    before <= after && forall k :: |before| <= k < |after| ==> after[k].driver != driver
  }

  function QuestionsBy(driver: nat, inquiries: seq<Inquiry>): nat {
    if |inquiries| == 0 then 0
    else
      QuestionsBy(driver, inquiries[..|inquiries| - 1])
      + (if inquiries[|inquiries| - 1].driver == driver then 1 else 0)
  }

  /** What the other drivers can do to this driver's position: nothing. */
  ghost predicate OthersMoved(driver: nat, before: System, after: System) {
    && DriverOf(after, driver) == DriverOf(before, driver)
    && NotCalledBy(driver, before.calls, after.calls)
    && QuestionsBy(driver, after.inquiries) == QuestionsBy(driver, before.inquiries)
    && before.ledger.op.version <= after.ledger.op.version
  }

  lemma OneStepOfAnother(setting: Setting, s: System, q: nat, step: Step, t: System, driver: nat)
    requires Takes(setting, s, q, step, t) && q != driver
    ensures OthersMoved(driver, s, t)
  {
    StepIsLocal(setting, s, q, step, t);
    if step.Verify? {
      assert t.inquiries[..|s.inquiries|] == s.inquiries;
    }
  }

  lemma StepWritesItsOwnEntry(setting: Setting, s: System, q: nat, step: Step, t: System)
    requires Takes(setting, s, q, step, t)
    ensures q in t.drivers && t.drivers == s.drivers[q := t.drivers[q]]
  {
  }

  /** A step writes its own driver's entry and log entries, and versions only grow. */
  lemma StepIsLocal(setting: Setting, s: System, q: nat, step: Step, t: System)
    requires Takes(setting, s, q, step, t)
    ensures q in t.drivers && t.drivers == s.drivers[q := t.drivers[q]]
    ensures s.ledger.op.version <= t.ledger.op.version
    ensures t.calls == (if step.Execute? then s.calls + [Call(q, DriverOf(s, q).attempt.id,
                                                              DriverOf(s, q).attempt.number, step.outcome)]
                        else s.calls)
    ensures t.inquiries == (if step.Verify? then s.inquiries + [Inquiry(q, step.heard)] else s.inquiries)
  {
    StepWritesItsOwnEntry(setting, s, q, step, t);
  }

  lemma OthersMovedTransitively(driver: nat, a: System, b: System, c: System)
    requires OthersMoved(driver, a, b) && OthersMoved(driver, b, c)
    ensures OthersMoved(driver, a, c)
  {
  }

  class RecoveryService {
    const setting: Setting
    const me: nat
    var system: System
    ghost var run: seq<System>
    /** How often another driver took a step or the storage failed. */
    ghost var disturbances: nat

    ghost predicate Valid()
      reads this
    {
      IsRun(setting, run) && run[|run| - 1] == system
    }

    function Mine(): Driver
      reads this
    {
      DriverOf(system, me)
    }

    constructor (setting: Setting, me: nat, op: EffectOperation)
      requires op.state.PendingPolicy? && op.latestCheck.None?
      ensures Valid() && this.setting == setting && this.me == me && Mine().Resting?
    {
      var initial := System(Ledger(op, [], []), map[], [], [], 0);
      this.setting := setting;
      this.me := me;
      this.system := initial;
      this.run := [initial];
      this.disturbances := 0;
    }

    ghost method Extend(p: nat, step: Step)
      requires IsRun(setting, run) && Takes(setting, run[|run| - 1], p, step, system)
      modifies this`run
      ensures Valid() && run == old(run) + [system]
    {
      ghost var before := run;
      run := run + [system];
      forall i | 0 <= i < |run| - 1 ensures StepAt(setting, run, i) {
        if i < |before| - 1 {
          assert StepAt(setting, before, i);
        } else {
          assert Takes(setting, run[i], p, step, run[i + 1]);
        }
      }
    }

    /** One step of this driver. */
    method Do(step: Step, next: System)
      requires Valid() && Takes(setting, system, me, step, next)
      modifies this
      ensures Valid() && system == next && run == old(run) + [next] && disturbances == old(disturbances)
    {
      system := next;
      Extend(me, step);
    }

    /** Any number of steps of the other drivers. */
    method Interfere()
      requires Valid()
      modifies this
      ensures Valid() && old(run) <= run
      ensures OthersMoved(me, old(system), system)
      ensures old(disturbances) <= disturbances
      ensures disturbances == old(disturbances) ==> system == old(system)
    {
      var count: nat := *;
      while count > 0
        invariant Valid() && old(run) <= run
        invariant old(disturbances) <= disturbances
        invariant disturbances == old(disturbances) ==> system == old(system)
        invariant OthersMoved(me, old(system), system)
      {
        var q: nat, step: Step, next: System := *, *, *;
        if q != me && Takes(setting, system, q, step, next) {
          OneStepOfAnother(setting, system, q, step, next, me);
          OthersMovedTransitively(me, old(system), system, next);
          system := next;
          disturbances := disturbances + 1;
          Extend(q, step);
        }
        count := count - 1;
      }
    }

    /** This driver stops here; what it held is gone. */
    method Rest()
      requires Valid()
      modifies this
      ensures Valid() && old(run) <= run && Mine().Resting? && disturbances == old(disturbances)
      ensures system == With(old(system), me, Resting) || system == old(system)
    {
      if !Mine().Resting? {
        Do(Step.Crash, With(system, me, Resting));
      }
    }

    ghost predicate Concluded()
      reads this
    {
      |run| >= 2 && Takes(setting, run[|run| - 2], me, Conclude, run[|run| - 1])
    }

    /** The last commit of the run is this step of this driver. */
    ghost predicate JustTook(step: Step)
      reads this
    {
      |run| >= 2 && Takes(setting, run[|run| - 2], me, step, run[|run| - 1])
    }

    /** What a commit that was refused as already made was to leave behind. */
    predicate AlreadyAt(version: nat, state: OperationState)
      reads this
    {
      system.ledger.op.version == version && system.ledger.op.state == state
    }

    /** persist_verification_result: the first outcome that is stored stays. A result that was
        stored meanwhile is accepted when it has the same outcome. */
    method PersistVerificationResult(version: nat, verdict: Verdict) returns (persisted: Persisted)
      requires Valid() && Mine() == Hearing(version, verdict)
      modifies this
      ensures Valid() && old(run) <= run
      ensures NotCalledBy(me, old(system.calls), system.calls)
      ensures QuestionsBy(me, system.inquiries) == QuestionsBy(me, old(system.inquiries))
      ensures persisted.Present? ==> Mine() == Settled(version, verdict) && Stored(system.ledger, verdict)
      ensures !persisted.Present? ==> Mine() == Hearing(version, verdict)
      ensures persisted.Violation? ==>
                && ResultOf(system.ledger, verdict.id).Some?
                && ResultOf(system.ledger, verdict.id).value.outcome != verdict.outcome
      ensures old(disturbances) <= disturbances
      ensures disturbances == old(disturbances) ==>
                && system.ledger.op == old(system.ledger).op && system.ledger.attempts == old(system.ledger).attempts
                && (IsOpenCheck(old(system.ledger), verdict.id) ==>
                      persisted.Present? && ResultOf(system.ledger, verdict.id) == Some(verdict))
    {
      Interfere();
      if FindCheck(system.ledger.checks, verdict.id) == |system.ledger.checks| {
        return NotFound;
      }
      var existing := ResultOf(system.ledger, verdict.id);
      if existing.None? {
        label Read:
        Interfere();
        RowsStay@Read();
      }
      persisted := StoreHeard(version, verdict);
    }

    /** complete(), for a request that is stored: the result that is there by now decides. */
    method StoreHeard(version: nat, verdict: Verdict) returns (persisted: Persisted)
      requires Valid() && Mine() == Hearing(version, verdict)
      requires FindCheck(system.ledger.checks, verdict.id) < |system.ledger.checks|
      modifies this
      ensures Valid() && old(run) <= run && disturbances == old(disturbances)
      ensures system.calls == old(system.calls) && system.inquiries == old(system.inquiries)
      ensures !persisted.NotFound?
      ensures persisted.Present? ==> Mine() == Settled(version, verdict) && Stored(system.ledger, verdict)
      ensures persisted.Violation? ==>
                && system == old(system)
                && ResultOf(system.ledger, verdict.id).Some?
                && ResultOf(system.ledger, verdict.id).value.outcome != verdict.outcome
      ensures system.ledger.op == old(system.ledger).op && system.ledger.attempts == old(system.ledger).attempts
      ensures IsOpenCheck(old(system.ledger), verdict.id) ==>
                persisted.Present? && ResultOf(system.ledger, verdict.id) == Some(verdict)
    {
      var existing := ResultOf(system.ledger, verdict.id);
      if existing.Some? && existing.value.outcome != verdict.outcome {
        return Violation;
      }
      var stored := system.ledger.(checks := StoreVerdict(system.ledger.checks, verdict));
      StoreVerdictGrows(system.ledger.checks, verdict);
      FindCheckGrows(system.ledger.checks, stored.checks, verdict.id);
      Do(StoreResult, With(system.(ledger := stored), me, Settled(version, verdict)));
      return Present;
    }

    /** A stored request without a result. */
    predicate IsOpenCheck(ledger: Ledger, check: Id) {
      FindCheck(ledger.checks, check) < |ledger.checks| && ResultOf(ledger, check).None?
    }

    /** Rows that were there stay there. */
    twostate lemma RowsStay()
      requires old(Valid()) && Valid() && old(run) <= run
      ensures LedgerGrows(old(system.ledger), system.ledger)
      ensures forall id :: FindCheck(old(system.ledger.checks), id) < |old(system.ledger.checks)|
                ==> FindCheck(system.ledger.checks, id) < |system.ledger.checks|
    {
      EffectEvidenceIsFinal(setting, run, |old(run)| - 1, |run| - 1);
      forall id | FindCheck(old(system.ledger.checks), id) < |old(system.ledger.checks)|
        ensures FindCheck(system.ledger.checks, id) < |system.ledger.checks|
      {
        FindCheckGrows(old(system.ledger.checks), system.ledger.checks, id);
      }
    }

    /** The attempts were read at one position of the run, the results at a later one. */
    ghost predicate ReadInOrder(from: nat, latest: Option<Attempt>, count: nat)
      reads this
    {
      exists a, b :: from <= a < b < |run|
        && Latest(run[a].ledger) == latest && CompletedChecks(run[b].ledger.checks) == count
    }

    /** The reads of _apply_verification_kind: the attempts first, the results afterwards. */
    method ReadEvidence(version: nat, verdict: Verdict) returns (latest: Option<Attempt>, count: nat)
      requires Valid() && Mine() == Settled(version, verdict)
      modifies this
      ensures Valid() && old(run) <= run && Mine() == Deciding(version, verdict, latest, count)
      ensures ReadInOrder(|old(run)| - 1, latest, count)
      ensures old(disturbances) <= disturbances
      ensures disturbances == old(disturbances) ==>
                && system.ledger == old(system.ledger)
                && latest == Latest(system.ledger) && count == CompletedChecks(system.ledger.checks)
      ensures NotCalledBy(me, old(system.calls), system.calls)
      ensures QuestionsBy(me, system.inquiries) == QuestionsBy(me, old(system.inquiries))
    {
      Interfere();
      latest := Latest(system.ledger);
      ghost var a := |run| - 1;
      Do(ReadAttempts, With(system, me, Informed(version, verdict, latest)));
      Interfere();
      ghost var b := |run| - 1;
      count := CompletedChecks(system.ledger.checks);
      Do(ReadCount, With(system, me, Deciding(version, verdict, latest, count)));
      assert Latest(run[a].ledger) == latest && CompletedChecks(run[b].ledger.checks) == count;
    }

    /** VERIFYING waits for this check at this version. */
    predicate IsPresent(ledger: Ledger, version: nat, check: Id) {
      ledger.op.version == version && ledger.op.state.Verifying? && ledger.op.latestCheck == Some(check)
    }

    /** The operation is where this verdict leads from these rows, and nothing else was written. */
    ghost predicate JudgedFrom(ledger: Ledger, verdict: Verdict)
      reads this
    {
      && system.ledger
         == ledger.(op := ledger.op.(state := system.ledger.op.state, version := ledger.op.version + 1))
      && CheckDecided(setting, verdict, Latest(ledger), |ResultChecks(ledger.checks)|, system.ledger.op.state)
    }

    /** _apply_verification_kind: decides from what was read, and commits if nobody was faster. */
    method ApplyVerificationKind(version: nat, verdict: Verdict) returns (disposition: Disposition)
      requires Valid() && Mine() == Settled(version, verdict)
      modifies this
      ensures Valid() && old(run) <= run && Mine().Resting?
      ensures NotCalledBy(me, old(system.calls), system.calls)
      ensures QuestionsBy(me, system.inquiries) == QuestionsBy(me, old(system.inquiries))
      ensures disposition.Accepted? ==>
                Concluded() || system.ledger.op.version == version + 1
      ensures old(disturbances) <= disturbances
      ensures disturbances == old(disturbances) && IsPresent(old(system.ledger), version, verdict.id)
              && Stored(old(system.ledger), verdict)
          ==> disposition.Accepted? && JudgedFrom(old(system.ledger), verdict)
    {
      var latest, count := ReadEvidence(version, verdict);
      disposition := ConcludeFrom(version, verdict, latest, count);
    }

    /** The commit of _apply_verification_kind. */
    method ConcludeFrom(version: nat, verdict: Verdict, latest: Option<Attempt>, count: nat)
      returns (disposition: Disposition)
      requires Valid() && Mine() == Deciding(version, verdict, latest, count)
      modifies this
      ensures Valid() && old(run) <= run && Mine().Resting?
      ensures NotCalledBy(me, old(system.calls), system.calls)
      ensures QuestionsBy(me, system.inquiries) == QuestionsBy(me, old(system.inquiries))
      ensures disposition.Accepted? ==>
                Concluded() || system.ledger.op.version == version + 1
      ensures old(disturbances) <= disturbances
      ensures disturbances == old(disturbances) && IsPresent(old(system.ledger), version, verdict.id)
              && Stored(old(system.ledger), verdict)
              && latest == Latest(old(system.ledger)) && count == CompletedChecks(old(system.ledger.checks))
          ==> disposition.Accepted? && JudgedFrom(old(system.ledger), verdict)
    {
      Interfere();
      var result := ApplyEffect(system.ledger, ConcludeCommand(setting, Mine()));
      var storageFails: bool := *;
      if storageFails {
        disturbances := disturbances + 1;
        result := StorageFailure;
      }
      ConclusionLeads(system, version, verdict, latest, count);
      if !result.EffectCommitted? {
        Rest();
        return DispositionOf(result);
      }
      var action := ActionFor(setting, verdict, latest, count);
      Do(Conclude, With(system.(ledger := result.ledger,
                                inconclusive := system.inconclusive + (if action.RemainUnknown? then 1 else 0)),
                        me, Resting));
      return Accepted;
    }

    /** What committing a decision comes to, and that it is a step of the protocol. */
    lemma ConclusionLeads(s: System, version: nat, verdict: Verdict, latest: Option<Attempt>, count: nat)
      requires DriverOf(s, me) == Deciding(version, verdict, latest, count)
      ensures var result := ApplyEffect(s.ledger, ConcludeCommand(setting, DriverOf(s, me)));
        var action := ActionFor(setting, verdict, latest, count);
        && (result.EffectCommitted? ==>
              Takes(setting, s, me, Conclude,
                    With(s.(ledger := result.ledger,
                            inconclusive := s.inconclusive + (if action.RemainUnknown? then 1 else 0)),
                         me, Resting)))
        && (IsPresent(s.ledger, version, verdict.id) && Stored(s.ledger, verdict) ==>
              && result.EffectCommitted?
              && result.ledger
                 == s.ledger.(op := s.ledger.op.(state := result.ledger.op.state, version := s.ledger.op.version + 1))
              && CheckDecided(setting, verdict, latest, count, result.ledger.op.state))
      ensures CompletedChecks(s.ledger.checks) == |ResultChecks(s.ledger.checks)|
    {
      CompletedIsNumberOfResults(s.ledger.checks);
      if IsPresent(s.ledger, version, verdict.id) && Stored(s.ledger, verdict) {
        VerdictIsJudged(setting, s.ledger, DriverOf(s, me));
      }
    }

    /** The operation is where the durable result of the check leads from these rows. */
    ghost predicate JudgedByResult(ledger: Ledger, check: Id)
      reads this
    {
      && ResultOf(system.ledger, check).Some?
      && (ResultOf(ledger, check).Some? ==> ResultOf(system.ledger, check) == ResultOf(ledger, check))
      && system.ledger.op.version == ledger.op.version + 1
      && system.ledger.attempts == ledger.attempts
      && CheckDecided(setting, ResultOf(system.ledger, check).value, Latest(ledger),
                      |ResultChecks(system.ledger.checks)|, system.ledger.op.state)
    }

    /** A stored result carries the identifier of its check. */
    lemma StoredIdFits(check: Id)
      requires Valid() && ResultOf(system.ledger, check).Some?
      ensures ResultOf(system.ledger, check).value.id == check
    {
      EffectInvariantHolds(setting, run, |run| - 1);
    }

    /** run_verifying_cycle: a durable result is used as it is; otherwise the provider is asked
        once and its answer is made durable before anything is decided. */
    method RunVerifyingCycle(version: nat, check: Id, crashAfter: Option<CrashPoint>)
      returns (disposition: Disposition)
      requires Valid() && Mine() == Loading(version, check)
      modifies this
      ensures Valid() && old(run) <= run && Mine().Resting?
      ensures NotCalledBy(me, old(system.calls), system.calls)
      ensures QuestionsBy(me, system.inquiries) <= QuestionsBy(me, old(system.inquiries)) + 1
      ensures ResultOf(old(system.ledger), check).Some?
          ==> QuestionsBy(me, system.inquiries) == QuestionsBy(me, old(system.inquiries))
      ensures disposition.Accepted? ==> Concluded() || system.ledger.op.version == version + 1
      ensures old(disturbances) <= disturbances
      ensures disturbances == old(disturbances) && crashAfter.None? && IsPresent(old(system.ledger), version, check)
              && FindCheck(old(system.ledger.checks), check) < |old(system.ledger.checks)|
          ==> disposition.Accepted? && JudgedByResult(old(system.ledger), check)
    {
      Interfere();
      RowsStay();
      if FindCheck(system.ledger.checks, check) == |system.ledger.checks| {
        Rest();
        return Rejected;
      }
      var existing := ResultOf(system.ledger, check);
      if ResultOf(old(system.ledger), check).Some? {
        FindCheckGrows(old(system.ledger.checks), system.ledger.checks, check);
      }
      if existing.None? {
        disposition := VerifyAndConclude(version, check, crashAfter);
        return;
      }
      StoredIdFits(check);
      Do(LoadCheck, With(system, me, Settled(version, existing.value)));
      disposition := ApplyVerificationKind(version, existing.value);
    }

    /** The part of run_verifying_cycle for a row without a result. */
    method VerifyAndConclude(version: nat, check: Id, crashAfter: Option<CrashPoint>)
      returns (disposition: Disposition)
      requires Valid() && Mine() == Loading(version, check)
      requires FindCheck(system.ledger.checks, check) < |system.ledger.checks|
      requires ResultOf(system.ledger, check).None?
      modifies this
      ensures Valid() && old(run) <= run && Mine().Resting?
      ensures NotCalledBy(me, old(system.calls), system.calls)
      ensures QuestionsBy(me, system.inquiries) == QuestionsBy(me, old(system.inquiries)) + 1
      ensures disposition.Accepted? ==> Concluded() || system.ledger.op.version == version + 1
      ensures old(disturbances) <= disturbances
      ensures disturbances == old(disturbances) && crashAfter.None? && IsPresent(old(system.ledger), version, check)
          ==> disposition.Accepted? && JudgedByResult(old(system.ledger), check)
    {
      Do(LoadCheck, With(system, me, Asking(version, check)));
      var verdict := AskProvider(version, check);
      if crashAfter == Some(AfterVerifyBeforeResult) {
        Rest();
        return Disposition.Crashed;
      }
      disposition := PersistAndConclude(version, verdict, crashAfter);
    }

    /** The part of run_verifying_cycle after the provider's answer. */
    method PersistAndConclude(version: nat, verdict: Verdict, crashAfter: Option<CrashPoint>)
      returns (disposition: Disposition)
      requires Valid() && Mine() == Hearing(version, verdict)
      modifies this
      ensures Valid() && old(run) <= run && Mine().Resting?
      ensures NotCalledBy(me, old(system.calls), system.calls)
      ensures QuestionsBy(me, system.inquiries) == QuestionsBy(me, old(system.inquiries))
      ensures disposition.Accepted? ==> Concluded() || system.ledger.op.version == version + 1
      ensures old(disturbances) <= disturbances
      ensures disturbances == old(disturbances) && crashAfter != Some(AfterResultCommit)
              && IsPresent(old(system.ledger), version, verdict.id) && IsOpenCheck(old(system.ledger), verdict.id)
          ==> disposition.Accepted? && JudgedByResult(old(system.ledger), verdict.id)
    {
      var persisted := PersistVerificationResult(version, verdict);
      if !persisted.Present? {
        Rest();
        return if persisted.NotFound? then Rejected else InfrastructureFailure;
      }
      if crashAfter == Some(AfterResultCommit) {
        Rest();
        return Disposition.Crashed;
      }
      disposition := ApplyVerificationKind(version, verdict);
    }

    /** The row was read without a result; only the provider can tell. */
    method AskProvider(version: nat, check: Id) returns (verdict: Verdict)
      requires Valid() && Mine() == Asking(version, check)
      modifies this
      ensures Valid() && old(run) <= run && Mine() == Hearing(version, verdict) && verdict.id == check
      ensures NotCalledBy(me, old(system.calls), system.calls)
      ensures QuestionsBy(me, system.inquiries) == QuestionsBy(me, old(system.inquiries)) + 1
      ensures old(disturbances) <= disturbances
      ensures disturbances == old(disturbances) ==> system.ledger == old(system.ledger)
    {
      Interfere();
      var outcome: EffectOutcome, error: VerdictError, at: int := *, *, *;
      verdict := Verdict(check, outcome, error, at);
      QuestionAsked(system.inquiries, Inquiry(me, verdict));
      Do(Verify(verdict),
         With(system.(inquiries := system.inquiries + [Inquiry(me, verdict)]), me, Hearing(version, verdict)));
    }

    lemma QuestionAsked(inquiries: seq<Inquiry>, inquiry: Inquiry)
      ensures QuestionsBy(me, inquiries + [inquiry])
           == QuestionsBy(me, inquiries) + (if inquiry.driver == me then 1 else 0)
    {
      assert (inquiries + [inquiry])[..|inquiries|] == inquiries;
    }

    /** Sends the command this driver planned, from rows that others may have moved since. */
    method SendPlan() returns (result: EffectResult)
      requires Valid() && Mine().Planning?
      modifies this
      ensures Valid() && old(run) <= run
      ensures NotCalledBy(me, old(system.calls), system.calls)
      ensures QuestionsBy(me, system.inquiries) == QuestionsBy(me, old(system.inquiries))
      ensures result.EffectCommitted? ==>
                && JustTook(Send) && DriverOf(run[|run| - 2], me) == old(Mine())
                && system.ledger == result.ledger
                && Mine() == (if old(Mine()).command.StartCheck?
                              then Loading(old(Mine()).command.expected + 1, old(Mine()).command.check.id)
                              else Resting)
      ensures !result.EffectCommitted? ==> Mine().Resting?
      ensures result.AlreadyCommitted? ==>
                AlreadyAt(old(Mine()).command.expected + 1, CommandTarget(old(Mine()).command))
      ensures old(disturbances) <= disturbances
      ensures disturbances == old(disturbances) ==> result == ApplyEffect(old(system.ledger), old(Mine()).command)
      ensures disturbances == old(disturbances) && !result.EffectCommitted? ==> system.ledger == old(system.ledger)
    {
      Interfere();
      var command := Mine().command;
      result := ApplyEffect(system.ledger, command);
      var storageFails: bool := *;
      if storageFails {
        disturbances := disturbances + 1;
        result := StorageFailure;
      }
      if result.EffectCommitted? {
        Do(Send, With(system.(ledger := result.ledger), me,
                      if command.StartCheck? then Loading(command.expected + 1, command.check.id) else Resting));
      } else {
        Rest();
      }
    }

    function DispositionOf(result: EffectResult): Disposition {
      match result
      case EffectCommitted(_) => Accepted
      case AlreadyCommitted => Accepted
      case Refused(_) => Rejected
      case VersionConflict => InfrastructureFailure
      case StorageFailure => InfrastructureFailure
    }

    /** The last commit sent what the rows at an earlier position planned. */
    ghost predicate SentPlanOf(ledger: Ledger, check: Id)
      reads this
    {
      && JustTook(Send)
      && |ledger.attempts| > 0
      && exists now :: DriverOf(run[|run| - 2], me) == Planning(PlanForUnknown(setting, ledger, now, check))
    }

    /** What becomes of an unknown effect that cannot be verified, when nobody interferes. */
    ghost predicate PlannedOutcome(ledger: Ledger, now: int, disposition: Disposition)
      requires |ledger.attempts| > 0
      reads this
    {
      var latest := ledger.attempts[|ledger.attempts| - 1];
      if !RetryIsDue(setting, ledger.attempts, UnknownOutcome(latest), now)
      then disposition.Accepted? && system.ledger.op.state.ManualIntervention?
      else if latest.state == Completed(EffectNotApplied)
      then disposition.Accepted? && system.ledger.op.state.Ready?
      else disposition.Rejected? && system.ledger == ledger
    }

    /** The check that was opened from these rows has a durable result, and the operation is where
        that leads. */
    ghost predicate JudgedAfterAll(ledger: Ledger, check: Id)
      reads this
    {
      && ResultOf(system.ledger, check).Some?
      && system.ledger.op.version == ledger.op.version + 2
      && CheckDecided(setting, ResultOf(system.ledger, check).value, Latest(ledger),
                      |ResultChecks(system.ledger.checks)|, system.ledger.op.state)
    }

    /** _recover_unknown; a start that was already made is taken up where it stands. An effect
        that cannot be verified is accepted for one of two reasons: the plan made from the rows
        that were read was committed, or somebody else has already brought it there. */
    method RecoverUnknown(check: Id, now: int, crashAfter: Option<CrashPoint>)
      returns (disposition: Disposition)
      requires Valid() && Mine().Resting? && system.ledger.op.state.Unknown?
      modifies this
      ensures Valid() && old(run) <= run && Mine().Resting?
      ensures NotCalledBy(me, old(system.calls), system.calls)
      ensures QuestionsBy(me, system.inquiries) <= QuestionsBy(me, old(system.inquiries)) + 1
      ensures !setting.descriptor.verifiable && disposition.Accepted? ==>
                || SentPlanOf(old(system.ledger), check)
                || AlreadyAt(old(system.ledger).op.version + 1, Ready)
                || AlreadyAt(old(system.ledger).op.version + 1, ManualIntervention)
      ensures setting.descriptor.verifiable && disposition.Accepted? ==>
                Concluded() || system.ledger.op.version == old(system.ledger).op.version + 2
      ensures old(disturbances) <= disturbances
      ensures disturbances == old(disturbances) && |old(system.ledger).attempts| > 0
              && FindCheck(old(system.ledger).checks, check) == |old(system.ledger).checks| ==>
                if setting.descriptor.verifiable
                then crashAfter.None? ==> disposition.Accepted? && JudgedAfterAll(old(system.ledger), check)
                else PlannedOutcome(old(system.ledger), now, disposition)
    {
      if |system.ledger.attempts| == 0 {
        return Rejected;
      }
      if setting.descriptor.verifiable {
        disposition := VerifyUnknown(check, now, crashAfter);
      } else {
        var _, result := SendUnknownPlan(check, now);
        return DispositionOf(result);
      }
    }

    /** _recover_unknown for an effect that can be verified. */
    method VerifyUnknown(check: Id, now: int, crashAfter: Option<CrashPoint>) returns (disposition: Disposition)
      requires Valid() && Mine().Resting? && system.ledger.op.state.Unknown? && |system.ledger.attempts| > 0
      requires setting.descriptor.verifiable
      modifies this
      ensures Valid() && old(run) <= run && Mine().Resting?
      ensures NotCalledBy(me, old(system.calls), system.calls)
      ensures QuestionsBy(me, system.inquiries) <= QuestionsBy(me, old(system.inquiries)) + 1
      ensures disposition.Accepted? ==>
                Concluded() || system.ledger.op.version == old(system.ledger).op.version + 2
      ensures old(disturbances) <= disturbances
      ensures disturbances == old(disturbances) && crashAfter.None?
              && FindCheck(old(system.ledger).checks, check) == |old(system.ledger).checks|
          ==> disposition.Accepted? && JudgedAfterAll(old(system.ledger), check)
    {
      var command, result := SendUnknownPlan(check, now);
      if !DispositionOf(result).Accepted? {
        return DispositionOf(result);
      }
      disposition := VerifyStarted(command.expected + 1, command.check.id, result.AlreadyCommitted?, crashAfter);
    }

    /** A check of the latest attempt was opened from these rows and waits for its result. */
    ghost predicate OpenedFrom(ledger: Ledger, check: Id)
      reads this
    {
      && IsPresent(system.ledger, ledger.op.version + 1, check)
      && IsOpenCheck(system.ledger, check)
      && system.ledger.attempts == ledger.attempts
    }

    lemma UnknownLeads(ledger: Ledger, now: int, check: Id)
      requires ledger.op.state.Unknown? && |ledger.attempts| > 0
      ensures setting.descriptor.verifiable && FindCheck(ledger.checks, check) == |ledger.checks| ==>
                var result := ApplyEffect(ledger, PlanForUnknown(setting, ledger, now, check));
                && result.EffectCommitted?
                && IsPresent(result.ledger, ledger.op.version + 1, check) && IsOpenCheck(result.ledger, check)
                && result.ledger.attempts == ledger.attempts
    {
      if setting.descriptor.verifiable && FindCheck(ledger.checks, check) == |ledger.checks| {
        UnknownIsRecovered(setting, ledger, now, check);
        OpenedIsFound(ledger.checks, Check(check, ledger.op.version,
                                           Some(ledger.attempts[|ledger.attempts| - 1].id), None));
      }
    }

    /** Plans from the rows as they are, and sends what was planned. */
    method SendUnknownPlan(check: Id, now: int) returns (command: EffectCommand, result: EffectResult)
      requires Valid() && Mine().Resting? && system.ledger.op.state.Unknown? && |system.ledger.attempts| > 0
      modifies this
      ensures Valid() && old(run) <= run
      ensures NotCalledBy(me, old(system.calls), system.calls)
      ensures QuestionsBy(me, system.inquiries) == QuestionsBy(me, old(system.inquiries))
      ensures command.StartCheck? <==> setting.descriptor.verifiable
      ensures command.expected == old(system.ledger).op.version
      ensures result.EffectCommitted? ==> SentPlanOf(old(system.ledger), check)
      ensures Mine() == (if result.EffectCommitted? && command.StartCheck?
                         then Loading(command.expected + 1, command.check.id) else Resting)
      ensures result.AlreadyCommitted? ==> AlreadyAt(command.expected + 1, CommandTarget(command))
      ensures !command.StartCheck? ==>
                CommandTarget(command).Ready? || CommandTarget(command).ManualIntervention?
      ensures old(disturbances) <= disturbances
      ensures disturbances == old(disturbances)
              && FindCheck(old(system.ledger).checks, check) == |old(system.ledger).checks| ==>
                if setting.descriptor.verifiable
                then result.EffectCommitted? && OpenedFrom(old(system.ledger), check)
                else PlannedOutcome(old(system.ledger), now, DispositionOf(result))
      ensures command.StartCheck? ==> command.check.id == check
    {
      UnknownLeads(system.ledger, now, check);
      if !setting.descriptor.verifiable { UnknownIsRecovered(setting, system.ledger, now, check); }
      command := PlanForUnknown(setting, system.ledger, now, check);
      Do(PlanUnknown(now, check), With(system, me, Planning(command)));
      result := SendPlan();
    }

    /** Verifies what this driver, or somebody else before it, has started at this version. */
    method VerifyStarted(version: nat, check: Id, byAnother: bool, crashAfter: Option<CrashPoint>)
      returns (disposition: Disposition)
      requires Valid() && Mine() == (if byAnother then Resting else Loading(version, check))
      requires byAnother ==> system.ledger.op.version == version
      modifies this
      ensures Valid() && old(run) <= run && Mine().Resting?
      ensures NotCalledBy(me, old(system.calls), system.calls)
      ensures QuestionsBy(me, system.inquiries) <= QuestionsBy(me, old(system.inquiries)) + 1
      ensures disposition.Accepted? ==> Concluded() || system.ledger.op.version == version + 1
      ensures old(disturbances) <= disturbances
      ensures disturbances == old(disturbances) && crashAfter.None? && !byAnother
              && IsPresent(old(system.ledger), version, check)
              && FindCheck(old(system.ledger.checks), check) < |old(system.ledger.checks)|
          ==> disposition.Accepted? && JudgedByResult(old(system.ledger), check)
    {
      if byAnother {
        disposition := TakeUpVerification(crashAfter);
        return;
      }
      if crashAfter == Some(AfterStartCommit) {
        Rest();
        return Disposition.Crashed;
      }
      disposition := RunVerifyingCycle(version, check, crashAfter);
    }

    /** VERIFYING always has a stored check. */
    lemma PresentCheckExists()
      requires Valid()
      ensures system.ledger.op.state.Verifying? ==>
                && system.ledger.op.latestCheck.Some?
                && FindCheck(system.ledger.checks, system.ledger.op.latestCheck.value) < |system.ledger.checks|
    {
      EffectInvariantHolds(setting, run, |run| - 1);
    }

    /** Enters the cycle from the operation as it is now. */
    method TakeUpVerification(crashAfter: Option<CrashPoint>) returns (disposition: Disposition)
      requires Valid() && Mine().Resting?
      modifies this
      ensures Valid() && old(run) <= run && Mine().Resting?
      ensures NotCalledBy(me, old(system.calls), system.calls)
      ensures QuestionsBy(me, system.inquiries) <= QuestionsBy(me, old(system.inquiries)) + 1
      ensures ResultIsDurable(old(system.ledger))
          ==> QuestionsBy(me, system.inquiries) == QuestionsBy(me, old(system.inquiries))
      ensures disposition.Accepted? ==>
                Concluded() || system.ledger.op.version == old(system.ledger).op.version + 1
      ensures old(disturbances) <= disturbances
      ensures disturbances == old(disturbances) && crashAfter.None? && old(system.ledger).op.state.Verifying?
          ==> && disposition.Accepted? && old(system.ledger).op.latestCheck.Some?
              && JudgedByResult(old(system.ledger), old(system.ledger).op.latestCheck.value)
    {
      PresentCheckExists();
      if !system.ledger.op.state.Verifying? || system.ledger.op.latestCheck.None? {
        return Rejected;
      }
      var version, check := system.ledger.op.version, system.ledger.op.latestCheck.value;
      Do(SeeVerifying, With(system, me, Loading(version, check)));
      disposition := RunVerifyingCycle(version, check, crashAfter);
    }

    /** The outcome of the attempt that these rows call latest was committed last. */
    ghost predicate FinishedLatestOf(ledger: Ledger, check: Id)
      reads this
    {
      && Latest(ledger).Some? && |run| >= 2
      && if Latest(ledger).value.state.Started?
         then JustTook(Abandon)
         else
           && DriverOf(run[|run| - 2], me) == Finishing(Latest(ledger).value, ledger.op.version)
           && exists now :: JustTook(Finish(now, check))
    }

    /** What becomes of an execution when nobody interferes: an open attempt is given up, an outcome
        is applied. */
    ghost predicate FinishedUndisturbed(ledger: Ledger, check: Id, disposition: Disposition)
      requires Latest(ledger).Some?
      reads this
    {
      var latest := Latest(ledger).value;
      if latest.state.Started?
      then
        && disposition.Accepted?
        && system.ledger == ledger.(op := ledger.op.(state := Unknown, version := ledger.op.version + 1))
      else
        FindCheck(ledger.checks, check) == |ledger.checks| ==>
          disposition.Accepted? && AttemptDecided(setting, latest, check, system.ledger)
    }

    /** _recover_executing: durable evidence is applied, an open attempt is given up. */
    method RecoverExecuting(check: Id) returns (disposition: Disposition)
      requires Valid() && Mine().Resting? && system.ledger.op.state.Executing?
      modifies this
      ensures Valid() && old(run) <= run && Mine().Resting?
      ensures NotCalledBy(me, old(system.calls), system.calls)
      ensures QuestionsBy(me, system.inquiries) == QuestionsBy(me, old(system.inquiries))
      ensures disposition.Accepted? ==>
                || FinishedLatestOf(old(system.ledger), check)
                || (&& system.ledger.op.version == old(system.ledger).op.version + 1
                    && !system.ledger.op.state.Executing?)
      ensures old(disturbances) <= disturbances
      ensures disturbances == old(disturbances) && Latest(old(system.ledger)).Some? ==>
                FinishedUndisturbed(old(system.ledger), check, disposition)
    {
      var latest := Latest(system.ledger);
      if latest.None? {
        return Rejected;
      }
      var version := system.ledger.op.version;
      var now: int := *;
      if latest.value.state.Started? {
        AbandonDecides(system.ledger);
        Do(SeeAttempt, With(system, me, Abandoning(version)));
        disposition := FinishOrAbandon(Abandon, AbandonCommand(version));
      } else {
        var command := FinishCommand(setting, system.ledger, latest.value, version, now, check);
        OutcomeLeads(system.ledger, latest.value, version, now, check);
        Do(SeeAttempt, With(system, me, Finishing(latest.value, version)));
        disposition := FinishOrAbandon(Finish(now, check), command);
      }
    }

    lemma OutcomeLeads(ledger: Ledger, attempt: Attempt, version: nat, now: int, check: Id)
      requires attempt.state.Completed? && |ledger.attempts| > 0
      ensures var result := ApplyEffect(ledger, FinishCommand(setting, ledger, attempt, version, now, check));
        && (result.EffectCommitted? ==> AttemptDecided(setting, attempt, check, result.ledger))
        && (ledger.op.state.Executing? && ledger.op.version == version && Latest(ledger) == Some(attempt)
            && FindCheck(ledger.checks, check) == |ledger.checks|
            ==> result.EffectCommitted?)
    {
      if ledger.op.state.Executing? && ledger.op.version == version && Latest(ledger) == Some(attempt) {
        OutcomeIsApplied(setting, ledger, attempt, version, now, check);
      }
      if ApplyEffect(ledger, FinishCommand(setting, ledger, attempt, version, now, check)).EffectCommitted? {
        AppliedOutcomeDecides(setting, ledger, attempt, version, now, check);
      }
    }

    /** Commits what was decided about the latest attempt. */
    method FinishOrAbandon(step: Step, command: EffectCommand) returns (disposition: Disposition)
      requires Valid()
      requires step.Abandon? || step.Finish?
      requires step.Abandon? ==> Mine().Abandoning? && command == AbandonCommand(Mine().version)
      requires step.Finish? ==>
                 && Mine().Finishing? && Mine().attempt.state.Completed? && |system.ledger.attempts| > 0
                 && command == FinishCommand(setting, system.ledger, Mine().attempt, Mine().version,
                                             step.now, step.check)
      modifies this
      ensures Valid() && old(run) <= run && Mine().Resting?
      ensures NotCalledBy(me, old(system.calls), system.calls)
      ensures QuestionsBy(me, system.inquiries) == QuestionsBy(me, old(system.inquiries))
      ensures disposition.Accepted? ==>
                || (JustTook(step) && DriverOf(run[|run| - 2], me) == old(Mine()))
                || AlreadyAt(command.expected + 1, CommandTarget(command))
      ensures old(disturbances) <= disturbances
      ensures disturbances == old(disturbances) ==>
                && disposition == DispositionOf(ApplyEffect(old(system.ledger), command))
                && system.calls == old(system.calls)
                && (ApplyEffect(old(system.ledger), command).EffectCommitted? ==>
                      system.ledger == ApplyEffect(old(system.ledger), command).ledger)
    {
      Interfere();
      RowsStay();
      var result := ApplyEffect(system.ledger, command);
      if result.EffectCommitted? {
        Do(step, With(system.(ledger := result.ledger), me, Resting));
      } else {
        Rest();
      }
      return DispositionOf(result);
    }

    /** What one recovery comes to when nobody interferes and it does not crash. */
    ghost predicate RecoveredUndisturbed(
      ledger: Ledger, check: Id, disposition: Disposition, crashAfter: Option<CrashPoint>)
      reads this
    {
      match ledger.op.state
      case Executing => Latest(ledger).Some? ==> FinishedUndisturbed(ledger, check, disposition)
      case Verifying =>
        crashAfter.None? ==>
          && disposition.Accepted? && ledger.op.latestCheck.Some?
          && JudgedByResult(ledger, ledger.op.latestCheck.value)
      case Unknown =>
        crashAfter.None? && setting.descriptor.verifiable && |ledger.attempts| > 0
        && FindCheck(ledger.checks, check) == |ledger.checks|
        ==> disposition.Accepted? && JudgedAfterAll(ledger, check)
      case _ => disposition.Accepted? && system.ledger == ledger
    }

    /** recover_unknown_operation: never executes, and asks the provider at most once. */
    method Recover(check: Id, crashAfter: Option<CrashPoint>) returns (disposition: Disposition)
      requires Valid() && Mine().Resting?
      modifies this
      ensures Valid() && old(run) <= run && Mine().Resting?
      ensures NotCalledBy(me, old(system.calls), system.calls)
      ensures QuestionsBy(me, system.inquiries) <= QuestionsBy(me, old(system.inquiries)) + 1
      ensures old(disturbances) <= disturbances
      ensures disturbances == old(disturbances)
          ==> RecoveredUndisturbed(old(system.ledger), check, disposition, crashAfter)
    {
      Interfere();
      PresentCheckExists();
      match system.ledger.op.state
      case Executing => disposition := RecoverExecuting(check);
      case Verifying => disposition := TakeUpVerification(crashAfter);
      case Unknown =>
        var now: int := *;
        disposition := RecoverUnknown(check, now, crashAfter);
      case _ => disposition := Accepted;
    }

    /** start_operator_verification */
    method StartOperatorVerification(check: Id, crashAfter: Option<CrashPoint>)
      returns (disposition: Disposition)
      requires Valid() && Mine().Resting?
      modifies this
      ensures Valid() && old(run) <= run && Mine().Resting?
      ensures NotCalledBy(me, old(system.calls), system.calls)
      ensures QuestionsBy(me, system.inquiries) <= QuestionsBy(me, old(system.inquiries)) + 1
      ensures old(disturbances) <= disturbances
      ensures disturbances == old(disturbances) && crashAfter.None?
              && old(system.ledger).op.state.ManualIntervention? && setting.descriptor.verifiable
              && FindCheck(old(system.ledger).checks, check) == |old(system.ledger).checks|
          ==> disposition.Accepted? && JudgedAfterAll(old(system.ledger), check)
    {
      Interfere();
      if !system.ledger.op.state.ManualIntervention? || !setting.descriptor.verifiable {
        return Rejected;
      }
      var version, result := SendOperatorPlan(check);
      if !DispositionOf(result).Accepted? {
        return DispositionOf(result);
      }
      disposition := VerifyStarted(version, check, result.AlreadyCommitted?, crashAfter);
    }

    /** The unit of work that opens an operator's verification. */
    method SendOperatorPlan(check: Id) returns (version: nat, result: EffectResult)
      requires Valid() && Mine().Resting? && system.ledger.op.state.ManualIntervention?
      requires setting.descriptor.verifiable
      modifies this
      ensures Valid() && old(run) <= run
      ensures NotCalledBy(me, old(system.calls), system.calls)
      ensures QuestionsBy(me, system.inquiries) == QuestionsBy(me, old(system.inquiries))
      ensures version == old(system.ledger).op.version + 1
      ensures Mine() == (if result.EffectCommitted? then Loading(version, check) else Resting)
      ensures result.AlreadyCommitted? ==> AlreadyAt(version, Verifying)
      ensures old(disturbances) <= disturbances
      ensures disturbances == old(disturbances)
              && FindCheck(old(system.ledger).checks, check) == |old(system.ledger).checks|
          ==> result.EffectCommitted? && OpenedFrom(old(system.ledger), check)
    {
      OperatorLeads(system.ledger, check);
      var command := PlanForOperator(system.ledger, check);
      version := command.expected + 1;
      Do(PlanManual(check), With(system, me, Planning(command)));
      result := SendPlan();
    }

    lemma OperatorLeads(ledger: Ledger, check: Id)
      requires ledger.op.state.ManualIntervention?
      ensures FindCheck(ledger.checks, check) == |ledger.checks| ==>
                var result := ApplyEffect(ledger, PlanForOperator(ledger, check));
                && result.EffectCommitted?
                && IsPresent(result.ledger, ledger.op.version + 1, check) && IsOpenCheck(result.ledger, check)
                && result.ledger.attempts == ledger.attempts
    {
      if FindCheck(ledger.checks, check) == |ledger.checks| {
        OperatorCheckIsOpened(ledger, check);
        OpenedIsFound(ledger.checks, Check(check, ledger.op.version, LatestId(ledger), None));
      }
    }
  }
}
