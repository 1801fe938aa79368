/** A run in which two drivers of the original effect race and decide differently. */
module EffectLimits {
  import opened Lifecycle
  import opened Reconciliation
  import opened EffectTransitions
  import opened EffectProtocol
  import opened EffectTheorems

  lemma Extended(setting: Setting, run: seq<System>, p: nat, step: Step, t: System) returns (longer: seq<System>)
    requires IsRun(setting, run) && Takes(setting, run[|run| - 1], p, step, t)
    ensures longer == run + [t] && IsRun(setting, longer)
  {
    longer := run + [t];
    forall i | 0 <= i < |longer| - 1 ensures StepAt(setting, longer, i) {
      if i < |run| - 1 {
        assert StepAt(setting, run, i);
      } else {
        assert Takes(setting, longer[i], p, step, longer[i + 1]);
      }
    }
  }

  /** A first driver claims the operation and hears UNKNOWN. */
  lemma RunToAnswer(setting: Setting, claimed: Attempt) returns (run: seq<System>)
    requires claimed == Attempt(5, 1, Started, 0)
    ensures IsRun(setting, run)
    ensures var answered := claimed.(state := Completed(EffectUnknown));
      var last := run[|run| - 1];
      && last.ledger == Ledger(EffectOperation(Executing, 2, None), [claimed], [])
      && last.drivers == map[1 := Answering(answered, 2)] && last.inconclusive == 0
  {
    run := [System(Ledger(EffectOperation(PendingPolicy, 0, None), [], []), map[], [], [], 0)];
    var ready := Ledger(EffectOperation(Ready, 1, None), [], []);
    run := Extended(setting, run, 1, Other(Ready), System(ready, map[1 := Resting], [], [], 0));
    var s := System(Ledger(EffectOperation(Executing, 2, None), [claimed], []), map[1 := Claiming(claimed, 2)],
                    [], [], 0);
    assert ApplyEffect(ready, ClaimEffect(1, claimed)).EffectCommitted?;
    run := Extended(setting, run, 1, Claim(1, claimed), s);
    s := s.(drivers := map[1 := Answering(claimed.(state := Completed(EffectUnknown)), 2)],
            calls := [Call(1, 5, 1, EffectUnknown)]);
    run := Extended(setting, run, 1, Execute(EffectUnknown), s);
  }

  /** The answer is recorded, whatever the policy says about answers. */
  lemma RunToUnknown(setting: Setting) returns (run: seq<System>, answered: Attempt)
    ensures IsRun(setting, run) && answered == Attempt(5, 1, Completed(EffectUnknown), 0)
    ensures var last := run[|run| - 1];
      && last.ledger == Ledger(EffectOperation(Unknown, 3, None), [answered], [])
      && last.drivers == map[1 := Resting] && last.inconclusive == 0
  {
    var claimed := Attempt(5, 1, Started, 0);
    answered := claimed.(state := Completed(EffectUnknown));
    run := RunToAnswer(setting, claimed);
    var s := run[|run| - 1];
    assert s.ledger.attempts[0 := answered] == [answered];
    s := s.(ledger := s.ledger.(attempts := [answered]), drivers := map[1 := Finishing(answered, 2)]);
    run := Extended(setting, run, 1, Record, s);
    s := s.(ledger := s.ledger.(op := EffectOperation(Unknown, 3, None)), drivers := map[1 := Resting]);
    run := Extended(setting, run, 1, Finish(0, 0), s);
  }

  /** The same driver starts to verify it. */
  lemma RunToVerifying(setting: Setting) returns (run: seq<System>, ledger: Ledger)
    requires setting.descriptor.verifiable
    ensures IsRun(setting, run)
    ensures ledger.op == EffectOperation(Verifying, 4, Some(7))
    ensures ledger.checks == [Check(7, 3, Some(5), None)]
    ensures var last := run[|run| - 1];
      && last.ledger == ledger && last.inconclusive == 0
      && last.drivers == map[1 := Loading(4, 7)]
  {
    var answered;
    run, answered := RunToUnknown(setting);
    var s := run[|run| - 1];
    var command := StartCheck(UnknownStartVerification, 3, Check(7, 3, Some(5), None));
    s := s.(drivers := map[1 := Planning(command)]);
    run := Extended(setting, run, 1, PlanUnknown(0, 7), s);
    ledger := Ledger(EffectOperation(Verifying, 4, Some(7)), [answered], [Check(7, 3, Some(5), None)]);
    s := s.(ledger := ledger, drivers := map[1 := Loading(4, 7)]);
    run := Extended(setting, run, 1, Send, s);
  }

  /** Both drivers found the check without a result, and each asks for itself. */
  lemma RunToTwoAnswers(setting: Setting, stored: Verdict, heard: Verdict) returns (run: seq<System>, ledger: Ledger)
    requires setting.descriptor.verifiable
    requires stored.id == 7 && heard.id == 7
    ensures IsRun(setting, run)
    ensures ledger.op == EffectOperation(Verifying, 4, Some(7))
    ensures ledger.checks == [Check(7, 3, Some(5), None)]
    ensures var last := run[|run| - 1];
      && last.ledger == ledger && last.inconclusive == 0
      && last.drivers == map[1 := Hearing(4, stored), 2 := Hearing(4, heard)]
  {
    run, ledger := RunToVerifying(setting);
    var s := run[|run| - 1];
    s := s.(drivers := map[1 := Loading(4, 7), 2 := Loading(4, 7)]);
    run := Extended(setting, run, 2, SeeVerifying, s);
    s := s.(drivers := map[1 := Asking(4, 7), 2 := Loading(4, 7)]);
    run := Extended(setting, run, 1, LoadCheck, s);
    s := s.(drivers := map[1 := Asking(4, 7), 2 := Asking(4, 7)]);
    run := Extended(setting, run, 2, LoadCheck, s);
    s := s.(drivers := map[1 := Hearing(4, stored), 2 := Asking(4, 7)],
            inquiries := s.inquiries + [Inquiry(1, stored)]);
    run := Extended(setting, run, 1, Verify(stored), s);
    s := s.(drivers := map[1 := Hearing(4, stored), 2 := Hearing(4, heard)],
            inquiries := s.inquiries + [Inquiry(2, heard)]);
    run := Extended(setting, run, 2, Verify(heard), s);
  }

  /** The first answer is stored, the second one accepted beside it for its equal outcome. */
  lemma RunToTwoSettled(setting: Setting, stored: Verdict, heard: Verdict) returns (run: seq<System>)
    requires setting.descriptor.verifiable
    requires stored.id == 7 && heard.id == 7 && stored.outcome == heard.outcome
    ensures IsRun(setting, run)
    ensures var last := run[|run| - 1];
      && last.ledger.op == EffectOperation(Verifying, 4, Some(7))
      && last.ledger.checks == [Check(7, 3, Some(5), Some(stored))]
      && last.inconclusive == 0
      && last.drivers == map[1 := Settled(4, stored), 2 := Settled(4, heard)]
  {
    var ledger;
    run, ledger := RunToTwoAnswers(setting, stored, heard);
    var checks := [Check(7, 3, Some(5), Some(stored))];
    assert StoreVerdict(ledger.checks, stored) == checks;
    var s := run[|run| - 1];
    s := s.(ledger := ledger.(checks := checks), drivers := map[1 := Settled(4, stored), 2 := Hearing(4, heard)]);
    run := Extended(setting, run, 1, StoreResult, s);
    s := s.(drivers := map[1 := Settled(4, stored), 2 := Settled(4, heard)]);
    run := Extended(setting, run, 2, StoreResult, s);
  }

  /** Both drivers have read what they decide from. */
  lemma RunToTwoDecisions(setting: Setting, stored: Verdict, heard: Verdict)
    returns (run: seq<System>, latest: Option<Attempt>)
    requires setting.descriptor.verifiable
    requires stored.id == 7 && heard.id == 7 && stored.outcome == heard.outcome
    ensures IsRun(setting, run)
    ensures var last := run[|run| - 1];
      && last.ledger.op == EffectOperation(Verifying, 4, Some(7))
      && last.ledger.checks == [Check(7, 3, Some(5), Some(stored))]
      && last.inconclusive == 0
      && last.drivers == map[1 := Deciding(4, stored, latest, 1), 2 := Deciding(4, heard, latest, 1)]
  {
    run := RunToTwoSettled(setting, stored, heard);
    var s := run[|run| - 1];
    latest := Latest(s.ledger);
    s := s.(drivers := map[1 := Informed(4, stored, latest), 2 := Settled(4, heard)]);
    run := Extended(setting, run, 1, ReadAttempts, s);
    s := s.(drivers := map[1 := Informed(4, stored, latest), 2 := Informed(4, heard, latest)]);
    run := Extended(setting, run, 2, ReadAttempts, s);
    assert CompletedChecks(s.ledger.checks) == 1;
    s := s.(drivers := map[1 := Deciding(4, stored, latest, 1), 2 := Informed(4, heard, latest)]);
    run := Extended(setting, run, 1, ReadCount, s);
    s := s.(drivers := map[1 := Deciding(4, stored, latest, 1), 2 := Deciding(4, heard, latest, 1)]);
    run := Extended(setting, run, 2, ReadCount, s);
  }

  /** What a driver that decides from this verdict leaves behind. */
  lemma ConclusionOf(setting: Setting, run: seq<System>, p: nat, verdict: Verdict, latest: Option<Attempt>)
    returns (t: System)
    requires IsRun(setting, run) && DriverOf(run[|run| - 1], p) == Deciding(4, verdict, latest, 1)
    requires verdict.id == 7 && verdict.outcome.EffectUnknown?
    requires run[|run| - 1].ledger.op == EffectOperation(Verifying, 4, Some(7))
    requires |run[|run| - 1].ledger.checks| == 1
    requires run[|run| - 1].ledger.checks[0].id == 7 && run[|run| - 1].ledger.checks[0].result.Some?
    requires run[|run| - 1].ledger.checks[0].result.value.outcome.EffectUnknown?
    ensures Takes(setting, run[|run| - 1], p, Conclude, t) && IsRun(setting, run + [t])
    ensures t.ledger.op.state == (if Closes(setting.obligations, verdict, 1) then ManualIntervention else Unknown)
  {
    var s := run[|run| - 1];
    var action := ActionFor(setting, verdict, latest, 1);
    var command := FinishVerification(KindOf(action), 4, verdict);
    assert ApplyEffect(s.ledger, command).EffectCommitted?;
    t := With(s.(ledger := ApplyEffect(s.ledger, command).ledger,
                 inconclusive := s.inconclusive + (if action.RemainUnknown? then 1 else 0)), p, Resting);
    var _ := Extended(setting, run, p, Conclude, t);
  }

  /** It is not decided by the durable result which of the two wins: for every effect that can
      be verified, under every budget of more than one check, there is a run after which one
      driver leaves the operation open and the other hands it to a person, both by a commit
      that the rows accept. */
  lemma RacingInconclusiveAnswersMayDiffer(setting: Setting)
    returns (run: seq<System>, open: System, closed: System)
    requires setting.descriptor.verifiable && RecoveryCap(setting.obligations) > 1
    ensures IsRun(setting, run + [open]) && IsRun(setting, run + [closed])
    ensures |run| > 0 && ResultIsDurable(run[|run| - 1].ledger)
    ensures Takes(setting, run[|run| - 1], 1, Conclude, open) && open.ledger.op.state.Unknown?
    ensures Takes(setting, run[|run| - 1], 2, Conclude, closed) && closed.ledger.op.state.ManualIntervention?
  {
    var stored := Verdict(7, EffectUnknown, OtherError, 0);
    var heard := Verdict(7, EffectUnknown, UnsupportedCapability, 0);
    var latest;
    run, latest := RunToTwoDecisions(setting, stored, heard);
    open := ConclusionOf(setting, run, 1, stored, latest);
    closed := ConclusionOf(setting, run, 2, heard, latest);
  }
}
