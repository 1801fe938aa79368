/** Approvals and their transitions (approval/service.py, domain/approval_binding.py and the
    approval kinds of TransitionService.apply) for one operation, among the approvals of
    others. A step is one commit. */
module Approvals {
  import opened Lifecycle

  type Id = nat

  datatype ApprovalState = Pending | Approved | Rejected | Expired

  datatype Approval = Approval(
    operation: Id, version: nat, digest: string, policy: Id, state: ApprovalState, expiresAt: Option<int>)

  datatype Operation = Operation(
    id: Id, state: OperationState, version: nat, digest: string, policy: Option<Id>, approval: Option<Id>)

  datatype Desk = Desk(op: Operation, approvals: map<Id, Approval>)

  /** APPROVAL_GRANT, APPROVAL_REJECT and CANCEL_AWAITING_APPROVAL. */
  datatype Verdict = Grant | Reject | Expire

  datatype Outcome = Committed(desk: Desk) | AlreadyThere | Refused | Conflict

  function TargetOf(verdict: Verdict): OperationState {
    match verdict
    case Grant => Ready
    case Reject => Denied
    case Expire => Cancelled
  }

  function Terminal(verdict: Verdict): ApprovalState {
    match verdict
    case Grant => Approved
    case Reject => Rejected
    case Expire => Expired
  }

  /** evaluate_approval_binding for the approval as it will be stored. */
  predicate GrantIsBound(op: Operation, approval: Approval, now: int) {
    && approval.operation == op.id && approval.digest == op.digest && approval.version == op.version
    && op.policy == Some(approval.policy)
    && (approval.expiresAt.Some? ==> now < approval.expiresAt.value)
  }

  /** _apply_operation for the three kinds. */
  function ApplyVerdict(desk: Desk, verdict: Verdict, expected: nat, id: Id, now: int): Outcome {
    var op := desk.op;
    if op.version == expected + 1 then (if op.state == TargetOf(verdict) then AlreadyThere else Refused)
    else if op.version != expected then Conflict
    else if !op.state.AwaitingApproval? then Refused
    else if id !in desk.approvals || !desk.approvals[id].state.Pending? then Refused
    else if verdict.Grant? && !GrantIsBound(op, desk.approvals[id], now) then Refused
    else if desk.approvals[id].digest != op.digest then Refused
    else
      Committed(Desk(
        op.(state := TargetOf(verdict), version := op.version + 1, approval := Some(id)),
        desk.approvals[id := desk.approvals[id].(state := Terminal(verdict))]))
  }

  /** _binding_error */
  predicate Binds(op: Operation, id: Id, approval: Approval) {
    && approval.operation == op.id
    && op.approval == Some(id)
    && approval.digest == op.digest
    && op.policy == Some(approval.policy)
    && (if approval.state.Pending? then approval.version == op.version else op.version > approval.version)
  }

  // ---------------------------------------------------------------- runs

  datatype Step =
    | RequireApproval(id: Id, policy: Id, expiresAt: Option<int>)
    | DecidePolicy(policy: Id, to: OperationState)
    | Decide(verdict: Verdict, expected: nat, id: Id, now: int)
    | Advance(to: OperationState)
    | OtherOperation(id: Id, approval: Approval)

  predicate Takes(s: Desk, step: Step, t: Desk) {
    var op := s.op;
    match step
    case RequireApproval(id, policy, expiresAt) =>
      && op.state.PendingPolicy? && id !in s.approvals
      && t == Desk(
                op.(state := AwaitingApproval, version := op.version + 1, policy := Some(policy), approval := Some(id)),
                s.approvals[id := Approval(op.id, op.version + 1, op.digest, policy, Pending, expiresAt)])
    case DecidePolicy(policy, to) =>
      && op.state.PendingPolicy? && (to.Ready? || to.Denied?)
      && t == s.(op := op.(state := to, version := op.version + 1, policy := Some(policy)))
    case Decide(verdict, expected, id, now) =>
      && id in s.approvals && Binds(op, id, s.approvals[id])
      && (verdict.Expire? ==> s.approvals[id].expiresAt.Some? && s.approvals[id].expiresAt.value <= now)
      && ApplyVerdict(s, verdict, expected, id, now) == Committed(t)
    case Advance(to) =>
      && !op.state.PendingPolicy? && !op.state.AwaitingApproval? && LegalOperationEdge(op.state, to)
      && !to.Cancelled?
      && t == s.(op := op.(state := to, version := op.version + 1))
    case OtherOperation(id, approval) =>
      && approval.operation != op.id
      && (id in s.approvals ==> s.approvals[id].operation != op.id)
      && t == s.(approvals := s.approvals[id := approval])
  }

  ghost predicate Next(s: Desk, t: Desk) {
    exists step :: Takes(s, step, t)
  }

  ghost predicate StepAt(run: seq<Desk>, i: nat)
    requires i + 1 < |run|
  {
    Next(run[i], run[i + 1])
  }

  predicate Initial(s: Desk) {
    && s.op.state.PendingPolicy? && s.op.policy.None? && s.op.approval.None?
    && forall id :: id in s.approvals ==> s.approvals[id].operation != s.op.id
  }

  ghost predicate IsRun(run: seq<Desk>) {
    && |run| > 0
    && Initial(run[0])
    && forall i :: 0 <= i < |run| - 1 ==> StepAt(run, i)
  }

  /** The operation's only approval, and how it mirrors the operation. */
  ghost predicate Inv(s: Desk) {
    && (forall id :: id in s.approvals && s.approvals[id].operation == s.op.id ==> s.op.approval == Some(id))
    && (s.op.state.PendingPolicy? || s.op.approval.None? ==> s.op.approval.None? && !s.op.state.AwaitingApproval?)
    && (s.op.approval.Some? ==>
          && s.op.approval.value in s.approvals
          && Mirrors(s.op, s.op.approval.value, s.approvals[s.op.approval.value]))
  }

  /** PENDING exactly while the operation waits, exactly while it still has the approval's
      version; afterwards the decision and the operation's way out agree. */
  ghost predicate Mirrors(op: Operation, id: Id, approval: Approval) {
    && approval.operation == op.id && approval.digest == op.digest && op.policy == Some(approval.policy)
    && approval.version <= op.version
    && (approval.state.Pending? <==> op.state.AwaitingApproval?)
    && (approval.state.Pending? <==> approval.version == op.version)
    && (approval.state.Rejected? <==> op.state.Denied?)
    && (approval.state.Expired? <==> op.state.Cancelled?)
  }

  lemma StepKeepsInv(s: Desk, step: Step, t: Desk)
    requires Inv(s) && Takes(s, step, t)
    ensures Inv(t)
  {
  }

  /** A decided approval is never decided again. */
  ghost predicate DecisionStays(s: Desk, t: Desk, id: Id)
    requires id in s.approvals && s.approvals[id].operation == s.op.id
  {
    && t.op.id == s.op.id
    && id in t.approvals && t.approvals[id] == s.approvals[id].(state := t.approvals[id].state)
    && (!s.approvals[id].state.Pending? ==> t.approvals[id].state == s.approvals[id].state)
    && s.op.version <= t.op.version
  }

  lemma StepKeepsDecision(s: Desk, step: Step, t: Desk, id: Id)
    requires Inv(s) && Takes(s, step, t) && id in s.approvals && s.approvals[id].operation == s.op.id
    ensures DecisionStays(s, t, id)
  {
  }

  lemma {:induction false} ApprovalInvariantHolds(run: seq<Desk>, i: nat)
    requires IsRun(run) && i < |run|
    ensures Inv(run[i])
    decreases i
  {
    if i > 0 {
      ApprovalInvariantHolds(run, i - 1);
      assert StepAt(run, i - 1);
      var step :| Takes(run[i - 1], step, run[i]);
      StepKeepsInv(run[i - 1], step, run[i]);
    }
  }

  lemma RunStepKeepsDecision(run: seq<Desk>, i: nat, id: Id)
    requires IsRun(run) && i + 1 < |run| && id in run[i].approvals && run[i].approvals[id].operation == run[i].op.id
    ensures DecisionStays(run[i], run[i + 1], id)
  {
    ApprovalInvariantHolds(run, i);
    assert StepAt(run, i);
    var step :| Takes(run[i], step, run[i + 1]);
    StepKeepsDecision(run[i], step, run[i + 1], id);
  }

  /** Decided once: whatever the interleaving, an approval leaves PENDING at most once. */
  lemma {:induction false} DecidedOnce(run: seq<Desk>, i: nat, j: nat, id: Id)
    requires IsRun(run) && i <= j < |run|
    requires id in run[i].approvals && run[i].approvals[id].operation == run[i].op.id
    ensures DecisionStays(run[i], run[j], id)
    decreases j
  {
    if i < j {
      DecidedOnce(run, i, j - 1, id);
      RunStepKeepsDecision(run, j - 1, id);
    }
  }

  /** PENDING if and only if the operation awaits approval if and only if it still has the
      version the approval was requested at; and an operation has at most one approval. */
  lemma PendingMeansUndecided(run: seq<Desk>, i: nat, id: Id)
    requires IsRun(run) && i < |run|
    requires id in run[i].approvals && run[i].approvals[id].operation == run[i].op.id
    ensures run[i].op.approval == Some(id)
    ensures run[i].approvals[id].state.Pending? <==> run[i].op.state.AwaitingApproval?
    ensures run[i].approvals[id].state.Pending? <==> run[i].op.version == run[i].approvals[id].version
    ensures run[i].op.state.Denied? <==> run[i].approvals[id].state.Rejected?
    ensures run[i].op.state.Cancelled? <==> run[i].approvals[id].state.Expired?
  {
    ApprovalInvariantHolds(run, i);
  }

  /** The binding check of the service never turns down the operation's own approval: not while
      it is pending, and not at any later version once it is decided. */
  lemma OwnApprovalBinds(run: seq<Desk>, i: nat, id: Id)
    requires IsRun(run) && i < |run| && id in run[i].approvals
    ensures Binds(run[i].op, id, run[i].approvals[id]) <==> run[i].approvals[id].operation == run[i].op.id
  {
    ApprovalInvariantHolds(run, i);
  }

  /** A grant after expiry is refused and leaves the approval pending, until it is expired. */
  lemma LateGrantIsRefused(desk: Desk, expected: nat, id: Id, now: int)
    requires Inv(desk) && desk.op.approval == Some(id) && desk.op.state.AwaitingApproval?
    requires desk.op.version == expected
    ensures ApplyVerdict(desk, Grant, expected, id, now).Committed?
        <==> !(desk.approvals[id].expiresAt.Some? && desk.approvals[id].expiresAt.value <= now)
    ensures ApplyVerdict(desk, Reject, expected, id, now).Committed?
    ensures ApplyVerdict(desk, Expire, expected, id, now).Committed?
  {
  }

  /** What a committed verdict leaves behind: READY with an APPROVED approval, DENIED with a
      REJECTED one, or CANCELLED with an EXPIRED one, one version later. */
  lemma VerdictDecides(desk: Desk, verdict: Verdict, expected: nat, id: Id, now: int)
    requires ApplyVerdict(desk, verdict, expected, id, now).Committed?
    ensures var after := ApplyVerdict(desk, verdict, expected, id, now).desk;
      && id in desk.approvals && id in after.approvals && after.approvals.Keys == desk.approvals.Keys
      && after.op.version == desk.op.version + 1 && after.op.approval == Some(id)
      && (after.op.state.Ready? <==> verdict.Grant?) && (after.op.state.Denied? <==> verdict.Reject?)
      && (after.op.state.Cancelled? <==> verdict.Expire?)
      && (after.approvals[id].state.Approved? <==> verdict.Grant?)
      && (after.approvals[id].state.Rejected? <==> verdict.Reject?)
      && (after.approvals[id].state.Expired? <==> verdict.Expire?)
      && (forall other :: other in desk.approvals && other != id ==> after.approvals[other] == desk.approvals[other])
  {
  }
}
