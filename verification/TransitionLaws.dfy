/** Laws that TransitionService.apply keeps for every command, whoever sends it and in
    whatever order: they need no assumption on drivers, retries or crashes. */
module TransitionLaws {
  import opened Lifecycle
  import opened Reconciliation
  import opened Transitions

  /** The operation has exactly the compensation it points to, and while it is in the
      compensation family its state is the one that mirrors that record. */
  ghost predicate LockStep(rows: Rows) {
    && rows.compensations.Keys
       == (if rows.op.compensationId.None? then {} else {rows.op.compensationId.value})
    && (InCompensationFamily(rows.op.state) ==>
          && rows.op.compensationId.Some?
          && ParentState(rows.compensations[rows.op.compensationId.value].state) == rows.op.state)
  }

  /** start_compensation sends its command only when no compensation id is set, under the
      lock of the row it read. */
  predicate StartIsGuarded(rows: Rows, command: Command) {
    command.StartCompensation? ==> rows.op.compensationId.None?
  }

  lemma ApplyKeepsLockStep(rows: Rows, command: Command)
    requires LockStep(rows)
    requires StartIsGuarded(rows, command)
    requires Apply(rows, command).Applied?
    ensures LockStep(Apply(rows, command).rows)
  {
    var after := Apply(rows, command).rows;
    match command
    case StartCompensation(_, id) =>
      assert after.compensations.Keys == {id};
    case _ =>
      assert after.compensations.Keys == rows.compensations.Keys;
  }

  /** The state of a compensation stays or moves along a listed edge, one version at a time. */
  ghost predicate CompensationMoved(before: Compensation, after: Compensation) {
    || after == before
    || (&& after.version == before.version + 1
        && (after.state == before.state || LegalCompensationEdge(before.state, after.state)))
  }

  /** Every write moves each record along a listed edge and bumps what it changes by one;
      both tables are respected at once. */
  lemma ApplyFollowsBothTables(rows: Rows, command: Command)
    requires LockStep(rows)
    requires StartIsGuarded(rows, command)
    requires Apply(rows, command).Applied?
    ensures var after := Apply(rows, command).rows;
      && (after.op == rows.op
          || (&& after.op.version == rows.op.version + 1
              && LegalOperationEdge(rows.op.state, after.op.state)))
      && (forall id :: id in rows.compensations ==>
            && id in after.compensations
            && CompensationMoved(rows.compensations[id], after.compensations[id]))
  {
  }

  /** Attempts are only appended, and only an open one is ever completed. */
  ghost predicate AttemptsGrow(before: seq<Attempt>, after: seq<Attempt>) {
    && |before| <= |after|
    && forall k :: 0 <= k < |before| ==>
         && after[k].id == before[k].id
         && after[k].number == before[k].number
         && after[k].startedAt == before[k].startedAt
         && (after[k].state == before[k].state
             || (before[k].state.Started? && after[k].state.Completed?))
  }

  /** Verification rows are only appended, and a durable result is never replaced. */
  ghost predicate VerificationsGrow(before: seq<Verification>, after: seq<Verification>) {
    && |before| <= |after|
    && forall k :: 0 <= k < |before| ==>
         && after[k].id == before[k].id
         && after[k].operationVersion == before[k].operationVersion
         && after[k].targetAttempt == before[k].targetAttempt
         && (before[k].result.Some? ==> after[k].result == before[k].result)
  }

  ghost predicate HistoryGrows(before: Rows, after: Rows) {
    && before.op.version <= after.op.version
    && (before.op.compensationId.Some? ==> after.op.compensationId == before.op.compensationId)
    && VerificationsGrow(before.verifications, after.verifications)
    && forall id :: id in before.compensations ==>
         id in after.compensations
         && AttemptsGrow(before.compensations[id].attempts, after.compensations[id].attempts)
  }

  /** No command rewrites history: the compensation id is write-once, evidence is final. */
  lemma ApplyKeepsHistory(rows: Rows, command: Command)
    requires StartIsGuarded(rows, command)
    requires Apply(rows, command).Applied?
    ensures HistoryGrows(rows, Apply(rows, command).rows)
  {
    match command
    case Move(kind, expected, completed, judged) => MoveKeepsHistory(rows, kind, expected, completed, judged);
    case StartVerification(_, _, _, _, _) => VerificationStartKeepsHistory(rows, command);
    case RetryAfterVerification(_, _, _, _, _) => VerificationRetryKeepsHistory(rows, command);
    case _ =>
  }

  lemma MoveKeepsHistory(
    rows: Rows, kind: Kind, expected: nat, completed: Option<Attempt>, judged: Option<Verdict>)
    requires ApplyMove(rows, kind, expected, completed, judged).Applied?
    ensures HistoryGrows(rows, ApplyMove(rows, kind, expected, completed, judged).rows)
  {
    if completed.Some? {
      CompletionIsComplete(rows, kind, completed, judged);
    }
  }

  lemma VerificationStartKeepsHistory(rows: Rows, command: Command)
    requires command.StartVerification? && ApplyStartVerification(rows, command).Applied?
    ensures HistoryGrows(rows, ApplyStartVerification(rows, command).rows)
  {
    assert LatestAttempt(rows.compensations[command.compensationId]).Some?;
  }

  lemma VerificationRetryKeepsHistory(rows: Rows, command: Command)
    requires command.RetryAfterVerification? && ApplyRetryAfterVerification(rows, command).Applied?
    ensures HistoryGrows(rows, ApplyRetryAfterVerification(rows, command).rows)
  {
  }

  lemma CompletionIsComplete(
    rows: Rows, kind: Kind, completed: Option<Attempt>, judged: Option<Verdict>)
    requires completed.Some?
    requires MoveProblem(rows, kind, completed, judged).None?
    ensures var id := rows.op.compensationId.value;
      var latest := LatestAttempt(rows.compensations[id]);
      latest.Some? && completed.value.id == latest.value.id && completed.value.state.Completed?
  {
  }

  lemma HistoryGrowsTransitively(a: Rows, b: Rows, c: Rows)
    requires HistoryGrows(a, b) && HistoryGrows(b, c)
    ensures HistoryGrows(a, c)
  {
  }

  /** A replayed command never writes: every command of the compensation services is answered
      from the versions it already produced; a lifecycle command of anybody else conflicts. */
  lemma ReplayIsHarmless(rows: Rows, command: Command)
    requires Apply(rows, command).Applied?
    ensures var replay := Apply(Apply(rows, command).rows, command);
      if command.Foreign? then replay.Conflict? else replay.AlreadyApplied?
  {
    var after := Apply(rows, command).rows;
    if command.ClaimRetryAttempt? || command.RetryAfterVerification? {
      assert LatestAttempt(after.compensations[command.compensationId]) == Some(command.attempt);
    }
  }

  /** The write-once rule is the service's, not the transition's: an applied start keeps lock
      step exactly when the operation had no compensation yet. */
  lemma UnguardedStartBreaksLockStep(rows: Rows, expected: nat, id: Id)
    requires LockStep(rows)
    requires Apply(rows, StartCompensation(expected, id)).Applied?
    ensures LockStep(Apply(rows, StartCompensation(expected, id)).rows) <==> rows.op.compensationId.None?
  {
    var after := Apply(rows, StartCompensation(expected, id)).rows;
    if rows.op.compensationId.Some? {
      assert rows.op.compensationId.value in after.compensations;
    } else {
      assert after.compensations.Keys == {id};
    }
  }

  /** Rows that an escalation leaves behind do accept a second start. */
  lemma UnguardedStartIsApplied(rows: Rows, first: Id, second: Id)
    requires LockStep(rows) && rows.op.state.ManualIntervention?
    requires rows.op.compensationId == Some(first) && first != second
    ensures Apply(rows, StartCompensation(rows.op.version, second)).Applied?
    ensures !LockStep(Apply(rows, StartCompensation(rows.op.version, second)).rows)
  {
    UnguardedStartBreaksLockStep(rows, rows.op.version, second);
  }
}
