/** Several drivers compensating one operation at once: which of them goes on to the provider,
    and for which attempt. */
module CompensationRaces {
  import opened Lifecycle
  import opened Reconciliation
  import opened Transitions
  import opened TransitionLaws
  import opened CompensationProtocol
  import opened CompensationInvariant
  import opened CompensationRows
  import opened CompensationLimits

  // ---------------------------------------------------------------- a failed compensation's retry

  /** What the unit of work of a failed compensation's retry comes to, from whatever version the
      driver read and with whatever attempt it brings. A replayed parent's retry is answered
      without a compensation, on which the driver's own assertion fails: it goes on to the
      provider exactly when both commands were applied. */
  lemma FailedRetryGoesOnIff(rows: Rows, expected: nat, attempt: Attempt)
    requires RowsFit(rows) && HasCompensation(rows)
    ensures var first := Apply(rows, Move(CompensationFailedRetry, expected, None, None));
      var pair := RetryWith(rows, CompensationFailedRetry, expected, attempt);
      && (first.Applied? <==> rows.op.version == expected && rows.op.state.CompensationFailed?)
      && (first.AlreadyApplied? <==> rows.op.version == expected + 1 && rows.op.state.Compensating?)
      && (pair.Both? <==>
            && first.Applied?
            && attempt.state.Started? && attempt.number == |Current(rows).attempts| + 1
            && !AttemptIdUsed(rows, attempt.id))
      && (pair.Both? ==>
            && pair.rows.op == rows.op.(state := Compensating, version := expected + 1)
            && HasCompensation(pair.rows)
            && Current(pair.rows).attempts == Current(rows).attempts + [attempt])
  {
    var first := Apply(rows, Move(CompensationFailedRetry, expected, None, None));
    if first.Applied? {
      var one := first.rows;
      assert Current(one).attempts == Current(rows).attempts;
      assert AttemptIdUsed(one, attempt.id) <==> AttemptIdUsed(rows, attempt.id) by {
        assert one.compensations.Keys == rows.compensations.Keys;
        assert one.op.compensationId.value == rows.op.compensationId.value;
        assert forall c :: c in rows.compensations ==>
          one.compensations[c].attempts == rows.compensations[c].attempts;
      }
    }
  }

  /** Of all drivers that read the same failed compensation only the first goes on, whatever
      versions and identifiers the others bring; and an attempt of a loser that is not the
      winner's is in no row. */
  lemma SecondDriverHasNoAttempt(rows: Rows, expected: nat, winner: Attempt, other: nat, loser: Attempt)
    requires RowsFit(rows) && HasCompensation(rows)
    requires RetryWith(rows, CompensationFailedRetry, expected, winner).Both?
    ensures var after := RetryWith(rows, CompensationFailedRetry, expected, winner).rows;
      && RetryWith(after, CompensationFailedRetry, other, loser).Neither?
      && (other == expected ==>
            Apply(after, Move(CompensationFailedRetry, other, None, None)).AlreadyApplied?)
      && (!AttemptIdUsed(rows, loser.id) && loser.id != winner.id ==> !AttemptIdUsed(after, loser.id))
  {
    FailedRetryGoesOnIff(rows, expected, winner);
    var after := RetryWith(rows, CompensationFailedRetry, expected, winner).rows;
    assert after.compensations.Keys == rows.compensations.Keys;
    assert Current(after).attempts == Current(rows).attempts + [winner];
    if !AttemptIdUsed(rows, loser.id) && loser.id != winner.id {
      forall c, k | c in after.compensations && 0 <= k < |after.compensations[c].attempts|
        ensures after.compensations[c].attempts[k].id != loser.id
      {
        if k < |Current(rows).attempts| {
          UnusedIdIsNew(rows, loser.id, k);
        }
      }
    }
  }

  // ---------------------------------------------------------------- any commands, any order

  /** A claim of an attempt that was applied. */
  ghost predicate Claims(rows: Rows, command: Command) {
    && (command.ClaimExecution? || command.ClaimRetryAttempt? || command.RetryAfterVerification?)
    && Apply(rows, command).Applied?
  }

  /** The driver goes on to call the provider for the attempt of its command: every claim that
      was applied, and a retry after verification also when it was answered ALREADY_APPLIED. A
      replayed first claim is dispatched again and finds the attempt in flight; a claim after a
      parent's retry names the version which that retry has just written and is never a replay. */
  ghost predicate GoesOn(rows: Rows, command: Command) {
    || Claims(rows, command)
    || (command.RetryAfterVerification? && Apply(rows, command).AlreadyApplied?)
  }

  /** The rows under any sequence of commands of any senders; what is refused writes nothing. */
  ghost predicate IsHistory(history: seq<Rows>, commands: seq<Command>) {
    && |history| == |commands| + 1
    && history[0].compensations == map[] && history[0].op.compensationId.None?
    && forall i :: 0 <= i < |commands| ==> CommandedAt(history, commands, i)
  }

  ghost predicate CommandedAt(history: seq<Rows>, commands: seq<Command>, i: nat)
    requires i < |commands| && |history| == |commands| + 1
  {
    && StartIsGuarded(history[i], commands[i])
    && history[i + 1]
       == (if Apply(history[i], commands[i]).Applied? then Apply(history[i], commands[i]).rows else history[i])
  }

  lemma UsedGrows(before: Rows, after: Rows, id: Id)
    requires HistoryGrows(before, after) && AttemptIdUsed(before, id)
    ensures AttemptIdUsed(after, id)
  {
    var c, k :| c in before.compensations && 0 <= k < |before.compensations[c].attempts|
      && before.compensations[c].attempts[k].id == id;
    assert AttemptsGrow(before.compensations[c].attempts, after.compensations[c].attempts);
    assert after.compensations[c].attempts[k].id == id;
  }

  lemma {:induction false} UsedStays(history: seq<Rows>, commands: seq<Command>, i: nat, j: nat, id: Id)
    requires IsHistory(history, commands) && i <= j < |history|
    requires AttemptIdUsed(history[i], id)
    ensures AttemptIdUsed(history[j], id)
    decreases j
  {
    if i < j {
      UsedStays(history, commands, i, j - 1, id);
      assert CommandedAt(history, commands, j - 1);
      if Apply(history[j - 1], commands[j - 1]).Applied? {
        ApplyKeepsHistory(history[j - 1], commands[j - 1]);
        UsedGrows(history[j - 1], history[j], id);
      }
    }
  }

  /** A claim takes an identifier that no row has, and writes it. */
  lemma ClaimIsFresh(rows: Rows, command: Command)
    requires Claims(rows, command)
    ensures !AttemptIdUsed(rows, command.attempt.id)
    ensures AttemptIdUsed(Apply(rows, command).rows, command.attempt.id)
  {
    var after := Apply(rows, command).rows;
    var attempts := rows.compensations[command.compensationId].attempts;
    assert after.compensations[command.compensationId].attempts == attempts + [command.attempt];
    assert after.compensations[command.compensationId].attempts[|attempts|].id == command.attempt.id;
  }

  /** Nothing but a claim brings an identifier into the rows. */
  lemma OnlyClaimsUse(rows: Rows, command: Command, id: Id)
    requires Apply(rows, command).Applied?
    requires AttemptIdUsed(Apply(rows, command).rows, id) && !AttemptIdUsed(rows, id)
    ensures Claims(rows, command) && command.attempt.id == id
  {
    var after := Apply(rows, command).rows;
    var c, k :| c in after.compensations && 0 <= k < |after.compensations[c].attempts|
      && after.compensations[c].attempts[k].id == id;
    if c in rows.compensations {
      assert k >= |rows.compensations[c].attempts|;
    }
  }

  lemma {:induction false} UsedWasClaimed(history: seq<Rows>, commands: seq<Command>, j: nat, id: Id)
    returns (i: nat)
    requires IsHistory(history, commands) && j < |history|
    requires AttemptIdUsed(history[j], id)
    ensures i < j && Claims(history[i], commands[i]) && commands[i].attempt.id == id
    decreases j
  {
    assert j > 0;
    assert CommandedAt(history, commands, j - 1);
    if AttemptIdUsed(history[j - 1], id) {
      i := UsedWasClaimed(history, commands, j - 1, id);
    } else {
      OnlyClaimsUse(history[j - 1], commands[j - 1], id);
      i := j - 1;
    }
  }

  lemma ReplayedAttemptIsUsed(rows: Rows, command: Command)
    requires command.RetryAfterVerification? && Apply(rows, command).AlreadyApplied?
    ensures AttemptIdUsed(rows, command.attempt.id)
  {
    var attempts := rows.compensations[command.compensationId].attempts;
    assert attempts[|attempts| - 1].id == command.attempt.id;
  }

  /** Whatever drivers send, in whatever order: a driver that goes on has an attempt which some
      driver has gone on with before if and only if its command was a retry after verification
      answered ALREADY_APPLIED. Every other call is the first one of its attempt. */
  lemma CalledBeforeIff(history: seq<Rows>, commands: seq<Command>, j: nat)
    requires IsHistory(history, commands) && j < |commands|
    requires GoesOn(history[j], commands[j])
    ensures Apply(history[j], commands[j]).AlreadyApplied?
        <==> exists i :: 0 <= i < j && GoesOn(history[i], commands[i])
               && commands[i].attempt.id == commands[j].attempt.id
  {
    var id := commands[j].attempt.id;
    if Apply(history[j], commands[j]).AlreadyApplied? {
      ReplayedAttemptIsUsed(history[j], commands[j]);
      var i := UsedWasClaimed(history, commands, j, id);
      assert GoesOn(history[i], commands[i]);
    } else {
      ClaimIsFresh(history[j], commands[j]);
      forall i | 0 <= i < j && GoesOn(history[i], commands[i]) && commands[i].attempt.id == id ensures false {
        if Claims(history[i], commands[i]) {
          ClaimIsFresh(history[i], commands[i]);
          assert CommandedAt(history, commands, i);
          UsedStays(history, commands, i + 1, j, id);
        } else {
          ReplayedAttemptIsUsed(history[i], commands[i]);
          UsedStays(history, commands, i, j, id);
        }
      }
    }
  }

  // ---------------------------------------------------------------- a retry after verification

  /** Two drivers concluded the same verification from the same versions. Once one has been
      applied, the other is never applied, and it goes on if and only if both carry the same
      attempt identifier. Identifiers are derived from the message, so that is exactly when
      they handle the same message. */
  lemma SecondConclusionGoesOnIff(rows: Rows, first: Command, second: Command)
    requires first.RetryAfterVerification? && second.RetryAfterVerification?
    requires first.expected == second.expected && first.compensationId == second.compensationId
    requires first.expectedCompensation == second.expectedCompensation
    requires Apply(rows, first).Applied?
    ensures var after := Apply(rows, first).rows;
      && !Apply(after, second).Applied?
      && (GoesOn(after, second) <==> first.attempt.id == second.attempt.id)
  {
  }

  /** A first attempt was left open, given up by recovery, and is being verified: the answer is
      that it was not applied. */
  lemma RunToVerdict(setting: Setting) returns (run: seq<System>, verdict: Verdict)
    requires setting.descriptor.verifiable
    ensures IsRun(setting, run) && verdict == Verdict(9, EffectNotApplied, NoError, 0)
    ensures run[|run| - 1].phase == Judged(verdict)
    ensures run[|run| - 1].rows
         == Rows(Operation(Compensating, 4, Some(3)),
                 map[3 := Compensation(CompVerifying, 5, [Attempt(5, 1, Started, 0)])],
                 [Verification(9, 4, 5, None)])
  {
    var start := System(Rows(Operation(Succeeded, 1, None), map[], []), Idle, [], [], 0, 0);
    run := RunToGivenUp(setting, start, 3, 5, 0);
    var s := run[|run| - 1];
    var pair := RetryThenVerify(s.rows, 5, 9);
    assert pair.Both?;
    s := s.(rows := pair.rows);
    assert s.rows.compensations == map[3 := Compensation(CompVerifying, 5, [Attempt(5, 1, Started, 0)])];
    run := Extended(setting, run, ResumeVerification(9), s);
    verdict := Verdict(9, EffectNotApplied, NoError, 0);
    run := Extended(setting, run, AskVerifier(0, verdict),
                    s.(phase := Judged(verdict), verdicts := s.verdicts + [verdict]));
  }

  /** The same message handled twice at once: the first driver has claimed the second attempt and
      is about to call, and the same command of the other driver is answered ALREADY_APPLIED, so
      that it calls for the same attempt as well. It happens for every effect that can be
      verified, under every policy that allows a second attempt. */
  lemma RedeliveryCallsTwice(setting: Setting) returns (run: seq<System>, t: System, command: Command)
    requires setting.descriptor.verifiable && ExecutionCap(setting.obligations) > 1
    ensures IsRun(setting, run + [t]) && |run| > 0
    ensures Takes(setting, run[|run| - 1], Conclude(6, 0), t)
    ensures command.RetryAfterVerification? && Apply(run[|run| - 1].rows, command) == Applied(t.rows)
    ensures t.phase == Claimed(command.attempt)
    ensures Apply(t.rows, command).AlreadyApplied? && GoesOn(t.rows, command)
  {
    var verdict;
    run, verdict := RunToVerdict(setting);
    var s := run[|run| - 1];
    var action := VerdictAction(setting, s.rows, verdict);
    DecisionsAreEvidenced(verdict, LatestAttempt(Current(s.rows)), setting.descriptor, setting.obligations,
                          CountWith(s.rows.verifications, verdict));
    assert action.RetrySafely?;
    command := ConcludeCommand(s.rows, verdict, action, 6, 0).value;
    t := s.(rows := Apply(s.rows, command).rows, phase := Claimed(command.attempt));
    var _ := Extended(setting, run, Conclude(6, 0), t);
  }
}
