/** approval/service.py as it runs, beside any number of other deciders and other commands. The
    ghost field `run` records every step taken. */
module ApprovalServices {
  import opened Approvals

  datatype Disposition = Accepted | NotAccepted | Unauthorized

  predicate StandsAt(desk: Desk, id: Id, state: ApprovalState) {
    id in desk.approvals && desk.approvals[id].operation == desk.op.id && desk.approvals[id].state == state
  }

  class ApprovalService {
    var desk: Desk
    ghost var run: seq<Desk>
    /** How often somebody else committed. */
    ghost var disturbances: nat

    ghost predicate Valid()
      reads this
    {
      IsRun(run) && run[|run| - 1] == desk
    }

    constructor (desk: Desk)
      requires Initial(desk)
      ensures Valid() && this.desk == desk
    {
      this.desk := desk;
      this.run := [desk];
      this.disturbances := 0;
    }

    ghost method Extend(step: Step)
      requires IsRun(run) && Takes(run[|run| - 1], step, desk)
      modifies this`run
      ensures Valid() && run == old(run) + [desk]
    {
      ghost var before := run;
      run := run + [desk];
      forall i | 0 <= i < |run| - 1 ensures StepAt(run, i) {
        if i < |before| - 1 {
          assert StepAt(before, i);
        } else {
          assert Takes(run[i], step, run[i + 1]);
        }
      }
    }

    /** Commits of others. */
    method Interfere()
      requires Valid()
      modifies this
      ensures Valid() && old(run) <= run
      ensures old(disturbances) <= disturbances
      ensures disturbances == old(disturbances) ==> desk == old(desk)
    {
      var count: nat := *;
      while count > 0
        invariant Valid() && old(run) <= run
        invariant old(disturbances) <= disturbances
        invariant disturbances == old(disturbances) ==> desk == old(desk)
      {
        var step: Step, next: Desk := *, *;
        if Takes(desk, step, next) {
          desk := next;
          disturbances := disturbances + 1;
          Extend(step);
        }
        count := count - 1;
      }
    }

    /** This approval is the operation's own, in this state. */
    predicate Stands(id: Id, state: ApprovalState)
      reads this
    {
      StandsAt(desk, id, state)
    }

    /** The approval can be decided so: it is the operation's own and pending at the version that
        the command names, and a grant is in time. */
    predicate Decidable(before: Desk, verdict: Verdict, expected: nat, id: Id, now: int) {
      && StandsAt(before, id, Pending) && before.op.version == expected
      && (verdict.Grant? && before.approvals[id].expiresAt.Some? ==> now < before.approvals[id].expiresAt.value)
    }

    /** decide. Acceptance is true: the approval carries the requested decision. A repetition of
        the winning decision by an authorized actor is accepted, however far the operation has
        moved on; nobody else's and no other decision is. Undisturbed, an authorized decision is
        accepted exactly when it stands already or can be made. */
    method Decide(verdict: Verdict, expected: nat, id: Id, authorized: bool, now: int)
      returns (disposition: Disposition)
      requires Valid() && !verdict.Expire?
      modifies this
      ensures Valid() && old(run) <= run
      ensures disposition.Accepted? ==> Stands(id, Terminal(verdict))
      ensures old(Stands(id, Terminal(verdict))) ==> (disposition.Accepted? <==> authorized)
      ensures !authorized ==> !disposition.Accepted?
      ensures old(disturbances) <= disturbances
      ensures disturbances == old(disturbances) && authorized ==>
                (disposition.Accepted?
                 <==> || StandsAt(old(desk), id, Terminal(verdict))
                      || Decidable(old(desk), verdict, expected, id, now))
    {
      ghost var since := |run| - 1;
      Interfere();
      StillStands(since, id, Terminal(verdict));
      Sound();
      if id !in desk.approvals || !Binds(desk.op, id, desk.approvals[id]) {
        return NotAccepted;
      }
      if !authorized {
        return Unauthorized;
      }
      if desk.approvals[id].state == Terminal(verdict) {
        return Accepted;
      }
      if !desk.approvals[id].state.Pending? {
        return NotAccepted;
      }
      disposition := CommitVerdict(verdict, expected, id, now);
    }

    /** The unit of work of a verdict on an approval that was pending when it was loaded. */
    method CommitVerdict(verdict: Verdict, expected: nat, id: Id, now: int) returns (disposition: Disposition)
      requires Valid() && Stands(id, Pending)
      requires verdict.Expire? ==>
                 desk.approvals[id].expiresAt.Some? && desk.approvals[id].expiresAt.value <= now
      modifies this
      ensures Valid() && old(run) <= run && !disposition.Unauthorized?
      ensures disposition.Accepted? ==> Stands(id, Terminal(verdict))
      ensures old(disturbances) <= disturbances
      ensures disturbances == old(disturbances)
          ==> (disposition.Accepted? <==> Decidable(old(desk), verdict, expected, id, now))
    {
      ghost var since := |run| - 1;
      Interfere();
      OwnStays(since, id);
      VerdictLeads(verdict, expected, id, now);
      var result := ApplyVerdict(desk, verdict, expected, id, now);
      match result {
        case Committed(next) =>
          Sound();
          desk := next;
          Extend(Step.Decide(verdict, expected, id, now));
          return Accepted;
        case AlreadyThere =>
          AlreadyThereIsTrue(verdict, expected, id, now);
          return Accepted;
        case Refused =>
          return NotAccepted;
        case Conflict =>
          disposition := ResolveConcurrent(verdict, id);
      }
    }

    /** What applying a verdict to the operation's own pending approval comes to. */
    lemma VerdictLeads(verdict: Verdict, expected: nat, id: Id, now: int)
      requires Valid()
      ensures Stands(id, Pending) ==>
                var result := ApplyVerdict(desk, verdict, expected, id, now);
                && (result.Committed? <==> Decidable(desk, verdict, expected, id, now))
                && !result.AlreadyThere?
    {
      Sound();
    }

    lemma Sound()
      requires Valid()
      ensures Inv(desk)
      ensures forall id :: id in desk.approvals && desk.approvals[id].operation == desk.op.id
                ==> Binds(desk.op, id, desk.approvals[id])
    {
      ApprovalInvariantHolds(run, |run| - 1);
    }

    /** The operation's own approval stays its own, and its expiry does not move. */
    lemma OwnStays(since: nat, id: Id)
      requires Valid() && since < |run|
      requires id in run[since].approvals && run[since].approvals[id].operation == run[since].op.id
      ensures id in desk.approvals && desk.approvals[id].operation == desk.op.id
      ensures desk.approvals[id].expiresAt == run[since].approvals[id].expiresAt
    {
      DecidedOnce(run, since, |run| - 1, id);
    }

    /** A decision that stood then stands now, and the service's check finds it. */
    lemma StillStands(since: nat, id: Id, state: ApprovalState)
      requires Valid() && since < |run| && !state.Pending?
      ensures StandsAt(run[since], id, state) ==> Stands(id, state) && Binds(desk.op, id, desk.approvals[id])
    {
      if StandsAt(run[since], id, state) {
        DecidedOnce(run, since, |run| - 1, id);
        Sound();
      }
    }

    /** A command that finds its target reached found its own decision made. */
    lemma AlreadyThereIsTrue(verdict: Verdict, expected: nat, id: Id, now: int)
      requires Valid() && id in desk.approvals && desk.approvals[id].operation == desk.op.id
      requires ApplyVerdict(desk, verdict, expected, id, now).AlreadyThere?
      ensures Stands(id, Terminal(verdict))
    {
      Sound();
    }

    /** _resolve_concurrent, and its counterpart in expire. */
    method ResolveConcurrent(verdict: Verdict, id: Id) returns (disposition: Disposition)
      requires Valid()
      modifies this
      ensures Valid() && old(run) <= run && !disposition.Unauthorized?
      ensures disposition.Accepted? <==> Stands(id, Terminal(verdict))
      ensures old(disturbances) <= disturbances
      ensures disturbances == old(disturbances) ==> desk == old(desk)
    {
      Interfere();
      Sound();
      if id !in desk.approvals || !Binds(desk.op, id, desk.approvals[id]) {
        return NotAccepted;
      }
      return if desk.approvals[id].state == Terminal(verdict) then Accepted else NotAccepted;
    }

    /** expire */
    method ExpireApproval(expected: nat, id: Id, now: int) returns (disposition: Disposition)
      requires Valid()
      modifies this
      ensures Valid() && old(run) <= run && !disposition.Unauthorized?
      ensures disposition.Accepted? ==> Stands(id, Expired)
      ensures old(Stands(id, Expired)) ==> disposition.Accepted?
      ensures old(disturbances) <= disturbances
      ensures disturbances == old(disturbances) ==>
                (disposition.Accepted?
                 <==> || StandsAt(old(desk), id, Expired)
                      || (&& Decidable(old(desk), Expire, expected, id, now)
                          && old(desk).approvals[id].expiresAt.Some?
                          && old(desk).approvals[id].expiresAt.value <= now))
    {
      ghost var since := |run| - 1;
      Interfere();
      StillStands(since, id, Expired);
      Sound();
      if id !in desk.approvals || !Binds(desk.op, id, desk.approvals[id]) {
        return NotAccepted;
      }
      var approval := desk.approvals[id];
      if approval.state.Expired? {
        return Accepted;
      }
      if !approval.state.Pending? || approval.expiresAt.None? || now < approval.expiresAt.value {
        return NotAccepted;
      }
      disposition := CommitVerdict(Expire, expected, id, now);
    }
  }
}
