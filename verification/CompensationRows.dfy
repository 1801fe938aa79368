/** How each commit of the protocol keeps the committed rows in shape. */
module CompensationRows {
  import opened Lifecycle
  import opened Reconciliation
  import opened Transitions
  import opened TransitionLaws
  import opened CompensationProtocol
  import opened CompensationInvariant

  lemma FindInDistinct(rows: seq<Verification>, k: nat)
    requires VerificationsDistinct(rows) && k < |rows|
    ensures FindVerification(rows, rows[k].id) == k
  {
  }

  lemma {:induction false} CountOfUpdate(rows: seq<Verification>, k: nat, verdict: Verdict)
    requires k < |rows| && rows[k].result.None?
    ensures CompletedCount(rows[k := rows[k].(result := Some(verdict))]) == CompletedCount(rows) + 1
  {
    var after := rows[k := rows[k].(result := Some(verdict))];
    var last := |rows| - 1;
    if k == last {
      assert after[..last] == rows[..last];
    } else {
      CountOfUpdate(rows[..last], k, verdict);
      assert after[..last] == rows[..last][k := rows[..last][k].(result := Some(verdict))];
    }
  }

  /** Completing a row makes the count equal to the one reconciliation decided with. */
  lemma CountAfterCompletion(rows: seq<Verification>, verdict: Verdict)
    ensures CompletedCount(CompleteVerification(rows, verdict)) == CountWith(rows, verdict)
  {
    var i := FindVerification(rows, verdict.id);
    if i < |rows| && rows[i].result.None? {
      CountOfUpdate(rows, i, verdict);
    }
  }

  lemma CountOfRequest(rows: seq<Verification>, request: Verification)
    requires request.result.None?
    ensures CompletedCount(rows + [request]) == CompletedCount(rows)
  {
    assert (rows + [request])[..|rows|] == rows;
  }

  lemma StartRows(rows: Rows, id: Id)
    requires RowsFit(rows) && rows.op.compensationId.None?
    requires Apply(rows, StartCompensation(rows.op.version, id)).Applied?
    ensures RowsFit(Apply(rows, StartCompensation(rows.op.version, id)).rows)
  {
    ApplyKeepsLockStep(rows, StartCompensation(rows.op.version, id));
  }

  lemma ForeignRows(rows: Rows, to: OperationState)
    requires RowsFit(rows)
    requires Apply(rows, Foreign(rows.op.version, to)).Applied?
    ensures RowsFit(Apply(rows, Foreign(rows.op.version, to)).rows)
  {
    ApplyKeepsLockStep(rows, Foreign(rows.op.version, to));
  }

  lemma UnusedIdIsNew(rows: Rows, id: Id, k: nat)
    requires HasCompensation(rows) && !AttemptIdUsed(rows, id)
    requires k < |Current(rows).attempts|
    ensures Current(rows).attempts[k].id != id
  {
  }

  lemma AppendKeepsNumbers(attempts: seq<Attempt>, attempt: Attempt)
    requires AttemptsNumbered(attempts)
    requires attempt.number == |attempts| + 1
    requires forall k :: 0 <= k < |attempts| ==> attempts[k].id != attempt.id
    ensures AttemptsNumbered(attempts + [attempt])
  {
  }

  lemma ClaimRows(rows: Rows, id: Id, now: int)
    requires RowsFit(rows) && HasCompensation(rows)
    requires Apply(rows, ClaimCommand(rows, id, now)).Applied?
    ensures RowsFit(Apply(rows, ClaimCommand(rows, id, now)).rows)
  {
    ApplyKeepsLockStep(rows, ClaimCommand(rows, id, now));
    AppendKeepsNumbers(Current(rows).attempts, NextAttempt(Current(rows), id, now));
  }

  /** Recording an outcome that needs no verification result. */
  lemma OutcomeRows(rows: Rows, kind: Kind, completed: Option<Attempt>)
    requires RowsFit(rows) && HasCompensation(rows) && Current(rows).state.CompExecuting?
    requires kind.CompensationApplied? || kind.CompensationOutcomeUnknown? || kind.CompensationOutcomeFailed?
    requires Apply(rows, Move(kind, rows.op.version, completed, None)).Applied?
    ensures RowsFit(Apply(rows, Move(kind, rows.op.version, completed, None)).rows)
  {
    ApplyKeepsLockStep(rows, Move(kind, rows.op.version, completed, None));
    if completed.Some? {
      CompletionIsComplete(rows, kind, completed, None);
    }
  }

  lemma EscalateRows(rows: Rows)
    requires RowsFit(rows)
    requires Apply(rows, Move(CompensationUnknownEscalate, rows.op.version, None, None)).Applied?
    ensures RowsFit(Apply(rows, Move(CompensationUnknownEscalate, rows.op.version, None, None)).rows)
  {
    ApplyKeepsLockStep(rows, Move(CompensationUnknownEscalate, rows.op.version, None, None));
  }

  lemma StartVerificationRows(rows: Rows, completed: Attempt, id: Id)
    requires RowsFit(rows) && HasCompensation(rows)
    requires Apply(rows, VerifyCommand(rows, completed, id)).Applied?
    ensures RowsFit(Apply(rows, VerifyCommand(rows, completed, id)).rows)
  {
    ApplyKeepsLockStep(rows, VerifyCommand(rows, completed, id));
  }

  function VerifyCommand(rows: Rows, completed: Attempt, id: Id): Command
    requires HasCompensation(rows)
  {
    StartVerification(rows.op.version, rows.op.compensationId.value, Current(rows).version,
                      Some(completed), Verification(id, rows.op.version, completed.id, None))
  }

  /** In VERIFYING the row about to be decided is the pending last one. */
  lemma PendingIsLast(rows: Rows, verdict: Verdict)
    requires RowsFit(rows) && HasCompensation(rows)
    requires rows.op.state.Compensating?
    requires var i := FindVerification(rows.verifications, verdict.id);
      i < |rows.verifications| && rows.verifications[i].result.None?
    ensures var last := |rows.verifications| - 1;
      && last >= 0
      && Current(rows).state.CompVerifying?
      && FindVerification(rows.verifications, verdict.id) == last
      && CompleteVerification(rows.verifications, verdict)
         == rows.verifications[last := rows.verifications[last].(result := Some(verdict))]
  {
  }

  /** Recording a verification result that leaves VERIFYING with the operation. */
  lemma VerdictRows(rows: Rows, kind: Kind, completed: Option<Attempt>, verdict: Verdict)
    requires RowsFit(rows) && HasCompensation(rows) && rows.op.state.Compensating?
    requires kind.CompensationApplied? || kind.CompensationOutcomeUnknown? || kind.CompensationOutcomeFailed?
          || kind.CompensationEscalate?
    requires var i := FindVerification(rows.verifications, verdict.id);
      i < |rows.verifications| && rows.verifications[i].result.None?
    requires Apply(rows, Move(kind, rows.op.version, completed, Some(verdict))).Applied?
    ensures RowsFit(Apply(rows, Move(kind, rows.op.version, completed, Some(verdict))).rows)
  {
    ApplyKeepsLockStep(rows, Move(kind, rows.op.version, completed, Some(verdict)));
    PendingIsLast(rows, verdict);
    if completed.Some? {
      CompletionIsComplete(rows, kind, completed, Some(verdict));
    }
  }

  lemma RetryAfterVerdictRows(rows: Rows, verdict: Verdict, id: Id, now: int)
    requires RowsFit(rows) && HasCompensation(rows) && rows.op.state.Compensating?
    requires var i := FindVerification(rows.verifications, verdict.id);
      i < |rows.verifications| && rows.verifications[i].result.None?
    requires Apply(rows, RetryVerdictCommand(rows, verdict, id, now)).Applied?
    ensures RowsFit(Apply(rows, RetryVerdictCommand(rows, verdict, id, now)).rows)
  {
    ApplyKeepsLockStep(rows, RetryVerdictCommand(rows, verdict, id, now));
    PendingIsLast(rows, verdict);
    AppendKeepsNumbers(Current(rows).attempts, NextAttempt(Current(rows), id, now));
  }

  function RetryVerdictCommand(rows: Rows, verdict: Verdict, id: Id, now: int): Command
    requires HasCompensation(rows)
  {
    RetryAfterVerification(rows.op.version, rows.op.compensationId.value, Current(rows).version, verdict,
                           NextAttempt(Current(rows), id, now))
  }

  lemma RetryThenClaimRows(rows: Rows, kind: Kind, id: Id, now: int)
    requires RowsFit(rows) && HasCompensation(rows)
    requires kind.CompensationUnknownRetry? || kind.CompensationFailedRetry?
    ensures var pair := RetryThenClaim(rows, kind, id, now);
      && (pair.Both? ==> RowsFit(pair.rows))
      && (pair.FirstOnly? && kind.CompensationUnknownRetry? ==> RowsFit(pair.first))
  {
  }

  lemma RetryThenVerifyRows(rows: Rows, target: Id, id: Id)
    requires RowsFit(rows) && HasCompensation(rows)
    requires LatestAttempt(Current(rows)).Some? && target == LatestAttempt(Current(rows)).value.id
    requires RetryThenVerify(rows, target, id).Both?
    ensures RowsFit(RetryThenVerify(rows, target, id).rows)
  {
  }
}
