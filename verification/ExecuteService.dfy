/** runtime/execute.py as it runs, while any number of other drivers work on the same
    operation. A claim that loses its race is dispatched again from rows read afresh. */
module ExecuteServices {
  import opened Lifecycle
  import opened Reconciliation
  import opened EffectTransitions
  import opened EffectProtocol
  import opened EffectInvariant
  import opened EffectTheorems
  import opened EffectDecisions
  import opened RecoveryServices

  datatype ExecuteCrash = AfterClaimCommit | AfterExecuteBeforeEvidence | AfterEvidenceCommit

  /** RuntimeDisposition, with the exceptions that leave execute_operation. */
  datatype Reply =
    | Accepted
    | Rejected
    | InFlight
    | InfrastructureFailure
    | AdapterRaised
    | Crashed
    | RecursionError

  // ---------------------------------------------------------------- one round

  /** What one call of _dispatch comes to. */
  datatype Round =
    | Claims(rows: Ledger)
    | Repeats
    | Refuses(reason: EffectReason)
    | Fails
    | Settles

  function NextStarted(ledger: Ledger, id: Id, now: int): Attempt {
    Attempt(id, |ledger.attempts| + 1, Started, now)
  }

  /** _dispatch and the claim of _claim_and_execute: the operation is read first, the claim
      meets the rows as they are by then. A conflict and a replay are both dispatched again. */
  function DispatchRound(read: Ledger, present: Ledger, expected: nat, id: Id, now: int): Round {
    if !read.op.state.Ready? then Settles
    else
      match ApplyEffect(present, ClaimEffect(expected, NextStarted(present, id, now)))
      case EffectCommitted(rows) => Claims(rows)
      case AlreadyCommitted => Repeats
      case VersionConflict => Repeats
      case Refused(reason) => Refuses(reason)
      case StorageFailure => Fails
  }

  /** A READY row that the command's version neither claims nor has claimed. */
  predicate Stale(ledger: Ledger, expected: nat) {
    ledger.op.state.Ready? && ledger.op.version != expected && ledger.op.version != expected + 1
  }

  /** When a round is followed by another one, and when it claims. */
  lemma RoundRepeatsIff(read: Ledger, present: Ledger, expected: nat, id: Id, now: int)
    ensures var round := DispatchRound(read, present, expected, id, now);
      var version := present.op.version;
      && (round.Repeats? <==>
            && read.op.state.Ready?
            && version != expected
            && (version == expected + 1 ==> present.op.state.Executing?))
      && (round.Claims? <==>
            && read.op.state.Ready? && present.op.state.Ready? && version == expected
            && !AttemptUsed(present.attempts, id))
  {
  }

  /** _dispatch on rows that nobody else changes, with room for so many nested calls. */
  function Dispatches(ledger: Ledger, expected: nat, id: Id, clock: nat -> int, depth: nat): Option<Round> {
    if depth == 0 then None
    else
      var round := DispatchRound(ledger, ledger, expected, id, clock(depth));
      if round.Repeats? then Dispatches(ledger, expected, id, clock, depth - 1) else Some(round)
  }

  /** Left alone, a command that names neither the version of a READY row nor the one before it
      repeats itself until the interpreter's depth is used up, whatever that depth is. Every
      other command ends in its first round. */
  lemma {:induction false} DispatchEndsIff(
    ledger: Ledger, expected: nat, id: Id, clock: nat -> int, depth: nat)
    requires depth > 0
    ensures Dispatches(ledger, expected, id, clock, depth).None? <==> Stale(ledger, expected)
    ensures !Stale(ledger, expected)
        ==> Dispatches(ledger, expected, id, clock, depth)
            == Some(DispatchRound(ledger, ledger, expected, id, clock(depth)))
  {
    RoundRepeatsIff(ledger, ledger, expected, id, clock(depth));
    if depth > 1 && Stale(ledger, expected) {
      DispatchEndsIff(ledger, expected, id, clock, depth - 1);
    }
  }

  /** Once the operation is past the version after the command's, no later round of the command
      ever claims, however the others move the rows; it ends only when it reads a state other
      than READY. */
  lemma StaleForGood(
    setting: Setting, run: seq<System>, i: nat, j: nat, k: nat, expected: nat, id: Id, now: int)
    requires IsRun(setting, run) && i <= j <= k < |run|
    requires run[i].ledger.op.version > expected + 1
    ensures var round := DispatchRound(run[j].ledger, run[k].ledger, expected, id, now);
      round == if run[j].ledger.op.state.Ready? then Repeats else Settles
  {
    EffectEvidenceIsFinal(setting, run, i, k);
  }

  // ---------------------------------------------------------------- the service

  /** Calls that were added since, those of this driver all for one attempt. */
  ghost predicate CalledOnlyFor(driver: nat, attempt: Id, before: seq<Call>, after: seq<Call>) {
    && before <= after
    && forall k :: |before| <= k < |after| && after[k].driver == driver ==> after[k].attempt == attempt
  }

  /** This part of the run claimed this attempt from this version. */
  ghost predicate ClaimedIn(setting: Setting, run: seq<System>, from: nat, p: nat, expected: nat, id: Id) {
    exists i :: from <= i && ClaimedAt(setting, run, i, p, expected, id)
  }

  ghost predicate ClaimedAt(setting: Setting, run: seq<System>, i: nat, p: nat, expected: nat, id: Id) {
    && i + 1 < |run|
    && exists started: Attempt ::
         started.id == id && Takes(setting, run[i], p, Claim(expected, started), run[i + 1])
  }

  class ExecuteService {
    /** The place in the protocol that this invocation works at, and its recorded run. */
    const driver: RecoveryService

    ghost predicate Valid()
      reads driver
    {
      driver.Valid()
    }

    constructor (driver: RecoveryService)
      requires driver.Valid()
      ensures Valid() && this.driver == driver
    {
      this.driver := driver;
    }

    /** One call was added, and the operation is where its answer leads. */
    ghost predicate ExecutedOnce(before: seq<Call>, id: Id, check: Id, reply: Reply)
      reads driver
    {
      && reply.Accepted? && |driver.system.calls| == |before| + 1
      && var call := driver.system.calls[|before|];
      && call.driver == driver.me && call.attempt == id
      && AttemptDecided(driver.setting, Attempt(id, call.number, Completed(call.outcome), 0), check,
                        driver.system.ledger)
    }

    /** What a dispatch comes to when nobody interferes, the adapter answers and nothing crashes. */
    ghost predicate DispatchedUndisturbed(
      before: System, expected: nat, attempt: Id, check: Id, reply: Reply)
      reads driver
    {
      if Stale(before.ledger, expected) then reply.RecursionError? && driver.system.ledger == before.ledger
      else if before.ledger.op.state.Ready? then
        before.ledger.op.version == expected && !AttemptUsed(before.ledger.attempts, attempt)
        && FindCheck(before.ledger.checks, check) == |before.ledger.checks|
        ==> ExecutedOnce(before.calls, attempt, check, reply)
      else if before.ledger.op.state.Executing? then
        Latest(before.ledger).Some? ==> SettledUndisturbed(before.ledger, check, reply)
      else (reply.Accepted? <==> before.ledger.op.state.Succeeded?) && driver.system.ledger == before.ledger
    }

    /** An open attempt is somebody else's; an outcome is applied. */
    ghost predicate SettledUndisturbed(ledger: Ledger, check: Id, reply: Reply)
      requires Latest(ledger).Some?
      reads driver
    {
      var latest := Latest(ledger).value;
      if latest.state.Started? then reply.InFlight? && driver.system.ledger == ledger
      else
        FindCheck(ledger.checks, check) == |ledger.checks| ==>
          reply.Accepted? && AttemptDecided(driver.setting, latest, check, driver.system.ledger)
    }

    /** _dispatch: at most one provider call, for the attempt of this command and only after
        this invocation claimed it from exactly the version the command names. `depth` is how
        many nested calls the interpreter has left. */
    method Dispatch(
      expected: nat, attempt: Id, check: Id, raises: bool, crashAfter: Option<ExecuteCrash>, depth: nat)
      returns (reply: Reply)
      requires Valid() && driver.Mine().Resting?
      modifies driver
      ensures Valid() && old(driver.run) <= driver.run && driver.Mine().Resting?
      ensures CalledOnlyFor(driver.me, attempt, old(driver.system.calls), driver.system.calls)
      ensures NotCalledBy(driver.me, old(driver.system.calls), driver.system.calls)
           || ClaimedIn(driver.setting, driver.run, |old(driver.run)| - 1, driver.me, expected, attempt)
      ensures reply.InFlight? || reply.RecursionError? ==>
                NotCalledBy(driver.me, old(driver.system.calls), driver.system.calls)
      ensures old(driver.disturbances) <= driver.disturbances
      ensures driver.disturbances == old(driver.disturbances) && !raises && crashAfter.None?
              && (depth > 0 || Stale(old(driver.system.ledger), expected))
          ==> DispatchedUndisturbed(old(driver.system), expected, attempt, check, reply)
      decreases depth
    {
      if depth == 0 {
        return RecursionError;
      }
      driver.Interfere();
      var read := driver.system.ledger;
      if !read.op.state.Ready? {
        reply := Settle(check);
        return;
      }
      driver.Interfere();
      var now: int := *;
      var round := DispatchRound(read, driver.system.ledger, expected, attempt, now);
      RoundRepeatsIff(read, driver.system.ledger, expected, attempt, now);
      var storageFails: bool := *;
      if storageFails {
        driver.disturbances := driver.disturbances + 1;
        return Reply.InfrastructureFailure;
      }
      if round.Fails? {
        return Reply.InfrastructureFailure;
      }
      if round.Refuses? {
        return Reply.Rejected;
      }
      if round.Repeats? {
        reply := Dispatch(expected, attempt, check, raises, crashAfter, depth - 1);
        return;
      }
      reply := ClaimAndExecute(expected, attempt, now, check, raises, crashAfter);
    }

    /** _dispatch for an operation that is not READY: durable evidence is applied, an attempt
        that is still open is somebody else's. */
    method Settle(check: Id) returns (reply: Reply)
      requires Valid() && driver.Mine().Resting? && !driver.system.ledger.op.state.Ready?
      modifies driver
      ensures Valid() && old(driver.run) <= driver.run && driver.Mine().Resting?
      ensures NotCalledBy(driver.me, old(driver.system.calls), driver.system.calls)
      ensures reply.InFlight? <==>
                && old(driver.system.ledger).op.state.Executing?
                && Latest(old(driver.system.ledger)).Some?
                && Latest(old(driver.system.ledger)).value.state.Started?
      ensures old(driver.system.ledger).op.state.Succeeded? ==> reply.Accepted?
      ensures !old(driver.system.ledger).op.state.Executing? ==> driver.system == old(driver.system)
      ensures reply.Accepted? && !old(driver.system.ledger).op.state.Executing?
          ==> old(driver.system.ledger).op.state.Succeeded?
      ensures !reply.RecursionError?
      ensures old(driver.disturbances) <= driver.disturbances
      ensures driver.disturbances == old(driver.disturbances)
              && old(driver.system.ledger).op.state.Executing? && Latest(old(driver.system.ledger)).Some?
          ==> SettledUndisturbed(old(driver.system.ledger), check, reply)
    {
      var ledger := driver.system.ledger;
      if ledger.op.state.Succeeded? {
        return Reply.Accepted;
      }
      if !ledger.op.state.Executing? || Latest(ledger).None? {
        return Reply.Rejected;
      }
      var latest := Latest(ledger).value;
      if latest.state.Started? {
        return InFlight;
      }
      var now: int := *;
      var version := ledger.op.version;
      var command := FinishCommand(driver.setting, ledger, latest, version, now, check);
      driver.OutcomeLeads(ledger, latest, version, now, check);
      driver.Do(SeeAttempt, With(driver.system, driver.me, Finishing(latest, version)));
      var disposition := driver.FinishOrAbandon(Finish(now, check), command);
      return ReplyOf(disposition);
    }

    /** _claim_and_execute after a claim that the rows accept: claim, call, evidence and outcome
        are four commits, and the driver may stop between any two. */
    method ClaimAndExecute(
      expected: nat, attempt: Id, now: int, check: Id, raises: bool, crashAfter: Option<ExecuteCrash>)
      returns (reply: Reply)
      requires Valid() && driver.Mine().Resting?
      requires var ledger := driver.system.ledger;
        ApplyEffect(ledger, ClaimEffect(expected, NextStarted(ledger, attempt, now))).EffectCommitted?
      modifies driver
      ensures Valid() && old(driver.run) < driver.run && driver.Mine().Resting?
      ensures CalledOnlyFor(driver.me, attempt, old(driver.system.calls), driver.system.calls)
      ensures ClaimedIn(driver.setting, driver.run, |old(driver.run)| - 1, driver.me, expected, attempt)
      ensures !reply.InFlight? && !reply.RecursionError?
      ensures old(driver.disturbances) <= driver.disturbances
      ensures driver.disturbances == old(driver.disturbances) && !raises && crashAfter.None?
              && FindCheck(old(driver.system.ledger).checks, check) == |old(driver.system.ledger).checks|
          ==> ExecutedOnce(old(driver.system.calls), attempt, check, reply)
    {
      var started := NextStarted(driver.system.ledger, attempt, now);
      var claimed := ApplyEffect(driver.system.ledger, ClaimEffect(expected, started)).ledger;
      ghost var before := driver.run;
      driver.Do(Claim(expected, started),
                With(driver.system.(ledger := claimed), driver.me, Claiming(started, expected + 1)));
      ghost var after := driver.run;
      assert ClaimedAt(driver.setting, after, |before| - 1, driver.me, expected, attempt) by {
        assert Takes(driver.setting, after[|before| - 1], driver.me, Claim(expected, started), after[|before|]);
      }
      reply := ExecuteClaimed(check, raises, crashAfter);
      ClaimStays(driver.setting, after, driver.run, |before| - 1, driver.me, expected, attempt);
    }

    lemma ClaimStays(
      setting: Setting, run: seq<System>, longer: seq<System>, i: nat, p: nat, expected: nat, id: Id)
      requires run <= longer && ClaimedAt(setting, run, i, p, expected, id)
      ensures ClaimedAt(setting, longer, i, p, expected, id)
    {
    }

    /** EXECUTING this attempt, the latest, at this version. */
    predicate Holds(ledger: Ledger, attempt: Attempt, version: nat) {
      ledger.op.state.Executing? && ledger.op.version == version && attempt.number == |ledger.attempts|
    }

    /** The call for a claimed attempt. */
    method ExecuteClaimed(check: Id, raises: bool, crashAfter: Option<ExecuteCrash>) returns (reply: Reply)
      requires Valid() && driver.Mine().Claiming?
      modifies driver
      ensures Valid() && old(driver.run) <= driver.run && driver.Mine().Resting?
      ensures CalledOnlyFor(driver.me, old(driver.Mine()).attempt.id,
                            old(driver.system.calls), driver.system.calls)
      ensures !reply.InFlight? && !reply.RecursionError?
      ensures old(driver.disturbances) <= driver.disturbances
      ensures driver.disturbances == old(driver.disturbances) && !raises && crashAfter.None?
              && Holds(old(driver.system.ledger), old(driver.Mine()).attempt, old(driver.Mine()).version)
              && FindCheck(old(driver.system.ledger).checks, check) == |old(driver.system.ledger).checks|
          ==> ExecutedOnce(old(driver.system.calls), old(driver.Mine()).attempt.id, check, reply)
    {
      var attempt, version := driver.Mine().attempt, driver.Mine().version;
      if crashAfter == Some(AfterClaimCommit) {
        driver.Rest();
        return Reply.Crashed;
      }
      driver.Interfere();
      var outcome: EffectOutcome := *;
      var call := Call(driver.me, attempt.id, attempt.number, outcome);
      var answered := attempt.(state := Completed(outcome));
      driver.Do(Execute(outcome), With(driver.system.(calls := driver.system.calls + [call]), driver.me,
                                       Answering(answered, version)));
      if raises {
        driver.Rest();
        return AdapterRaised;
      }
      if crashAfter == Some(AfterExecuteBeforeEvidence) {
        driver.Rest();
        return Reply.Crashed;
      }
      reply := RecordAndFinish(check, crashAfter);
    }

    /** Makes the answer durable, then applies it. */
    method RecordAndFinish(check: Id, crashAfter: Option<ExecuteCrash>) returns (reply: Reply)
      requires Valid() && driver.Mine().Answering?
      modifies driver
      ensures Valid() && old(driver.run) <= driver.run && driver.Mine().Resting?
      ensures NotCalledBy(driver.me, old(driver.system.calls), driver.system.calls)
      ensures !reply.InFlight? && !reply.RecursionError?
      ensures old(driver.disturbances) <= driver.disturbances
      ensures driver.disturbances == old(driver.disturbances) ==> driver.system.calls == old(driver.system.calls)
      ensures driver.disturbances == old(driver.disturbances) && crashAfter.None?
              && Holds(old(driver.system.ledger), old(driver.Mine()).attempt, old(driver.Mine()).version)
              && FindCheck(old(driver.system.ledger).checks, check) == |old(driver.system.ledger).checks|
          ==> && reply.Accepted? && old(driver.Mine()).attempt.state.Completed?
              && AttemptDecided(driver.setting, old(driver.Mine()).attempt, check, driver.system.ledger)
    {
      driver.Interfere();
      var attempt, version := driver.Mine().attempt, driver.Mine().version;
      AnswerCanBeRecorded();
      var storageFails: bool := *;
      if storageFails {
        driver.disturbances := driver.disturbances + 1;
        driver.Rest();
        return Reply.InfrastructureFailure;
      }
      var ledger := driver.system.ledger;
      var recorded := ledger.(attempts := ledger.attempts[attempt.number - 1 := attempt]);
      driver.Do(Record, With(driver.system.(ledger := recorded), driver.me, Finishing(attempt, version)));
      if crashAfter == Some(AfterEvidenceCommit) {
        driver.Rest();
        return Reply.Crashed;
      }
      reply := FinishRecorded(check);
    }

    /** Applies the outcome that was made durable. */
    method FinishRecorded(check: Id) returns (reply: Reply)
      requires Valid() && driver.Mine().Finishing?
      modifies driver
      ensures Valid() && old(driver.run) <= driver.run && driver.Mine().Resting?
      ensures NotCalledBy(driver.me, old(driver.system.calls), driver.system.calls)
      ensures !reply.InFlight? && !reply.RecursionError?
      ensures old(driver.disturbances) <= driver.disturbances
      ensures driver.disturbances == old(driver.disturbances) ==> driver.system.calls == old(driver.system.calls)
      ensures old(driver.Mine()).attempt.state.Completed?
      ensures driver.disturbances == old(driver.disturbances)
              && Holds(old(driver.system.ledger), old(driver.Mine()).attempt, old(driver.Mine()).version)
              && FindCheck(old(driver.system.ledger).checks, check) == |old(driver.system.ledger).checks|
          ==> && reply.Accepted?
              && AttemptDecided(driver.setting, old(driver.Mine()).attempt, check, driver.system.ledger)
    {
      AnswerCanBeApplied();
      driver.Interfere();
      AnswerCanBeApplied();
      var attempt, version := driver.Mine().attempt, driver.Mine().version;
      var now: int := *;
      var command := FinishCommand(driver.setting, driver.system.ledger, attempt, version, now, check);
      driver.OutcomeLeads(driver.system.ledger, attempt, version, now, check);
      var disposition := driver.FinishOrAbandon(Finish(now, check), command);
      return ReplyOf(disposition);
    }

    /** Nobody else closes an attempt that this driver has called. */
    lemma AnswerCanBeRecorded()
      requires Valid() && driver.Mine().Answering?
      ensures var attempt := driver.Mine().attempt;
        && 1 <= attempt.number <= |driver.system.ledger.attempts|
        && driver.system.ledger.attempts[attempt.number - 1] == attempt.(state := Started)
    {
      EffectInvariantHolds(driver.setting, driver.run, |driver.run| - 1);
      assert DriverFits(driver.setting, driver.system, driver.Mine());
    }

    lemma AnswerCanBeApplied()
      requires Valid() && driver.Mine().Finishing?
      ensures driver.Mine().attempt.state.Completed?
      ensures var attempt := driver.Mine().attempt;
        1 <= attempt.number <= |driver.system.ledger.attempts|
        && driver.system.ledger.attempts[attempt.number - 1] == attempt
    {
      EffectInvariantHolds(driver.setting, driver.run, |driver.run| - 1);
      assert DriverFits(driver.setting, driver.system, driver.Mine());
    }

    function ReplyOf(disposition: Disposition): (reply: Reply)
      ensures !reply.InFlight? && !reply.RecursionError? && (reply.Accepted? <==> disposition.Accepted?)
    {
      match disposition
      case Accepted => Reply.Accepted
      case Rejected => Reply.Rejected
      case InfrastructureFailure => Reply.InfrastructureFailure
      case Crashed => Reply.Crashed
    }
  }
}
