/** JetStreamConsumer.handle and the quarantine commands as they run, beside other consumers,
    operators and relays. The ghost field `run` records every step taken. */
module WorkConsumers {
  import opened Lifecycle
  import opened WorkQueue

  datatype ReplayOutcome = ReplayDone | ReplayRefused | ReplayInterrupted | ReplayTimedOut

  /** How publishing a diagnostic goes: it is accepted, its acknowledgement is lost, or it is
      refused. */
  datatype Quarantining = DiagnosticAccepted | AcknowledgementLost | DiagnosticRefused

  datatype ConsumerCrash = BeforeAnswer | BeforeTermination

  datatype DiscardOutcome = DiscardDone | DiscardRefused | DiscardTimedOut

  class WorkConsumer {
    const maxDeliveries: nat
    const me: nat
    var streams: Streams
    ghost var run: seq<Streams>

    ghost predicate Valid()
      reads this
    {
      IsRun(maxDeliveries, run) && run[|run| - 1] == streams
    }

    function Mine(): Process
      reads this
    {
      ProcessOf(streams, me)
    }

    constructor (maxDeliveries: nat, me: nat)
      ensures Valid() && this.maxDeliveries == maxDeliveries && this.me == me && Mine().Waiting?
    {
      var initial := Streams(map[], map[], map[], {}, {}, {}, {}, 0);
      this.maxDeliveries := maxDeliveries;
      this.me := me;
      this.streams := initial;
      this.run := [initial];
    }

    ghost method Extend(p: nat, step: Step)
      requires IsRun(maxDeliveries, run) && Takes(maxDeliveries, run[|run| - 1], p, step, streams)
      modifies this`run
      ensures Valid() && run == old(run) + [streams]
    {
      ghost var before := run;
      run := run + [streams];
      forall i | 0 <= i < |run| - 1 ensures StepAt(maxDeliveries, run, i) {
        if i < |before| - 1 {
          assert StepAt(maxDeliveries, before, i);
        } else {
          assert Takes(maxDeliveries, run[i], p, step, run[i + 1]);
        }
      }
    }

    lemma Sound()
      requires Valid()
      ensures Inv(streams)
    {
      StreamInvariantHolds(maxDeliveries, run, |run| - 1);
    }

    /** This part of the run took this step for this process. */
    ghost predicate TookSince(from: nat, before: Process, step: Step)
      reads this
    {
      exists i :: from <= i < |run| - 1 && ProcessOf(run[i], me) == before
        && Takes(maxDeliveries, run[i], me, step, run[i + 1])
    }

    ghost predicate JustTook(step: Step)
      reads this
    {
      |run| >= 2 && Takes(maxDeliveries, run[|run| - 2], me, step, run[|run| - 1])
    }

    method Do(step: Step, next: Streams)
      requires Valid() && Takes(maxDeliveries, streams, me, step, next)
      modifies this
      ensures Valid() && streams == next && run == old(run) + [next]
    {
      streams := next;
      Extend(me, step);
    }

    /** Any number of steps of the others. */
    method Interfere()
      requires Valid()
      modifies this
      ensures Valid() && old(run) <= run && Mine() == old(Mine())
    {
      var count: nat := *;
      while count > 0
        invariant Valid() && old(run) <= run && Mine() == old(Mine())
      {
        var q: nat, step: Step, next: Streams := *, *, *;
        if q != me && Takes(maxDeliveries, streams, q, step, next) {
          OthersUntouched(maxDeliveries, streams, q, step, next);
          streams := next;
          Extend(q, step);
        }
        count := count - 1;
      }
    }

    method Stop()
      requires Valid()
      modifies this
      ensures Valid() && old(run) <= run && Mine().Waiting?
      ensures streams == With(old(streams), me, Waiting)
    {
      Do(Step.Crash, With(streams, me, Waiting));
    }

    /** handle: ack, nak, or quarantine first and terminate after. The answer is the one that the
        payload, the dispatch and the delivery count call for, except that a message whose
        diagnostic is not accepted is put back; and what it reports about a message that it removed
        is true of the streams it leaves behind. */
    method HandleOne(dispatched: Dispatched, quarantining: Quarantining, crash: Option<ConsumerCrash>)
      returns (decision: Decision, crashed: bool)
      requires Valid() && Mine().Holding?
      modifies this
      ensures Valid() && old(run) <= run && Mine().Waiting?
      ensures decision.Ack? <==> old(Mine()).payload.ValidWork? && dispatched.Handled?
      ensures !decision.Ack? ==>
                var exhausted := old(Mine()).payload.Poison? || old(Mine()).count >= maxDeliveries;
                (decision.Term? <==> exhausted && (quarantining.DiagnosticAccepted? || crash == Some(BeforeAnswer)))
      ensures crash.None? ==> !crashed
      ensures decision.Ack? && !crashed ==>
                && old(Mine()).slot !in streams.work
                && MessagesOf(old(Mine()).payload) <= streams.settled
      ensures decision.Term? && !crashed ==> old(Mine()).slot !in streams.work
    {
      var slot, payload, count := Mine().slot, Mine().payload, Mine().count;
      Interfere();
      decision := Handle(payload, count, dispatched, maxDeliveries);
      LastDeliveryIsNeverPutBack(payload, count, dispatched, maxDeliveries);
      Do(Dispatch(dispatched),
         With(streams.(handled := streams.handled + (if dispatched.Handled? then MessagesOf(payload) else {})),
              me, Decided(slot, payload, count, decision)));
      Interfere();
      crashed := crash == Some(BeforeAnswer);
      if crashed {
        Stop();
        return;
      }
      match decision {
        case Ack =>
          Do(SendAck, With(streams.(work := streams.work - {slot},
                                    settled := streams.settled + MessagesOf(payload)), me, Waiting));
        case Nak =>
          Do(SendNak, With(streams, me, Waiting));
        case Term =>
          decision, crashed := QuarantineAndTerminate(slot, payload, count, quarantining, crash.Some?);
      }
    }

    /** The work message is only terminated after its diagnostic was accepted; otherwise it is
        put back. */
    method QuarantineAndTerminate(slot: Slot, payload: Payload, count: nat, quarantining: Quarantining, crashes: bool)
      returns (decision: Decision, crashed: bool)
      requires Valid() && Mine() == Decided(slot, payload, count, Decision.Term)
      modifies this
      ensures Valid() && old(run) <= run && Mine().Waiting? && !decision.Ack?
      ensures decision.Term? <==> quarantining.DiagnosticAccepted?
      ensures crashed <==> crashes && decision.Term?
      ensures decision.Term? && !crashed ==> slot !in streams.work && JustTook(SendTerm)
      ensures decision.Term? ==>
                TookSince(|old(run)| - 1, Decided(slot, payload, count, Decision.Term), PublishDiagnostic(true))
      ensures decision.Nak? ==> streams.work == old(streams.work)
    {
      ghost var start := |run| - 1;
      var seen := quarantining.DiagnosticAccepted?;
      if !quarantining.DiagnosticRefused? {
        Do(PublishDiagnostic(seen),
           With(streams.(quarantine := streams.quarantine[streams.next := Parked(DiagnosticOf(payload, count), 0)],
                         next := streams.next + 1),
                me, if seen then Quarantined(slot, payload) else Waiting));
      }
      if !seen {
        Stop();
        return Nak, false;
      }
      ghost var taken := run;
      assert ProcessOf(taken[start], me) == Decided(slot, payload, count, Decision.Term);
      assert Takes(maxDeliveries, taken[start], me, PublishDiagnostic(true), taken[start + 1]);
      Interfere();
      if crashes {
        Stop();
        return Term, true;
      }
      Do(SendTerm, With(streams.(work := streams.work - {slot}), me, Waiting));
      assert taken[start] == run[start] && taken[start + 1] == run[start + 1];
      return Term, false;
    }

    /** Fetches one diagnostic; the broker hands it out only so many times. */
    method FetchDiagnostic(slot: Slot) returns (diagnostic: Option<Diagnostic>)
      requires Valid() && Mine().Waiting? && slot in streams.quarantine
      modifies this
      ensures Valid() && old(run) <= run
      ensures diagnostic.None? <==> old(streams.quarantine[slot]).deliveries >= MAX_INSPECTIONS
      ensures diagnostic.None? ==> streams == old(streams)
      ensures diagnostic.Some? ==>
                && diagnostic.value == old(streams.quarantine[slot]).diagnostic
                && Mine() == Inspecting(slot, diagnostic.value)
    {
      var parked := streams.quarantine[slot];
      if parked.deliveries >= MAX_INSPECTIONS {
        return None;
      }
      Do(Inspect(slot),
         With(streams.(quarantine := streams.quarantine[slot := parked.(deliveries := parked.deliveries + 1)]),
              me, Inspecting(slot, parked.diagnostic)));
      Interfere();
      return Some(parked.diagnostic);
    }

    /** inspect_quarantine: looks at a diagnostic and puts it back, one delivery older. */
    method InspectQuarantine(slot: Slot) returns (diagnostic: Option<Diagnostic>)
      requires Valid() && Mine().Waiting? && slot in streams.quarantine
      modifies this
      ensures Valid() && old(run) <= run && Mine().Waiting?
      ensures diagnostic.None? <==> old(streams.quarantine[slot]).deliveries >= MAX_INSPECTIONS
      ensures diagnostic.Some? ==> diagnostic.value == old(streams.quarantine[slot]).diagnostic
    {
      diagnostic := FetchDiagnostic(slot);
      Stop();
    }

    /** replay_quarantine: the copy is queued before the diagnostic is acknowledged. */
    method ReplayQuarantine(slot: Slot, confirmed: MessageId, crashes: bool) returns (outcome: ReplayOutcome)
      requires Valid() && Mine().Waiting? && slot in streams.quarantine
      modifies this
      ensures Valid() && old(run) <= run && Mine().Waiting?
      ensures outcome.ReplayTimedOut? <==> old(streams.quarantine[slot]).deliveries >= MAX_INSPECTIONS
      ensures outcome.ReplayRefused?
          <==> && !outcome.ReplayTimedOut?
               && old(streams.quarantine[slot]).diagnostic.replay != Some(ValidWork(confirmed))
      ensures outcome.ReplayInterrupted? ==> crashes
      ensures outcome.ReplayDone? || outcome.ReplayInterrupted? ==>
                TookSince(|old(run)| - 1, Inspecting(slot, old(streams.quarantine[slot]).diagnostic),
                          PublishReplay(confirmed))
      ensures outcome.ReplayDone? ==>
                JustTook(AckReplayed) && slot !in streams.quarantine && confirmed in streams.known
    {
      var fetched := FetchDiagnostic(slot);
      if fetched.None? {
        return ReplayTimedOut;
      }
      var diagnostic := fetched.value;
      if diagnostic.replay != Some(ValidWork(confirmed)) {
        Stop();
        return ReplayRefused;
      }
      Sound();
      assert ProcessFits(streams, Mine());
      assert confirmed in MessagesOf(diagnostic.replay.value);
      ghost var before := |run| - 1;
      Do(PublishReplay(confirmed),
         With(streams.(work := streams.work[streams.next := Stored(ValidWork(confirmed), 0)],
                       next := streams.next + 1),
              me, Replayed(slot)));
      ghost var taken := run;
      assert ProcessOf(taken[before], me) == Inspecting(slot, diagnostic);
      assert Takes(maxDeliveries, taken[before], me, PublishReplay(confirmed), taken[before + 1]);
      Interfere();
      KnownStaysKnown(maxDeliveries, run, before + 1, |run| - 1);
      if crashes {
        Stop();
        return ReplayInterrupted;
      }
      Do(AckReplayed, With(streams.(quarantine := streams.quarantine - {slot}), me, Waiting));
      assert taken[before] == run[before] && taken[before + 1] == run[before + 1];
      return ReplayDone;
    }

    /** discard_quarantine: the only way a message leaves without being handled. The digest that
        a person confirms decides, and it identifies the payload that is given up. */
    method DiscardQuarantine(slot: Slot, confirmed: Digest) returns (outcome: DiscardOutcome)
      requires Valid() && Mine().Waiting? && slot in streams.quarantine
      modifies this
      ensures Valid() && old(run) <= run && Mine().Waiting?
      ensures outcome.DiscardTimedOut? <==> old(streams.quarantine[slot]).deliveries >= MAX_INSPECTIONS
      ensures outcome.DiscardDone?
          <==> && !outcome.DiscardTimedOut?
               && old(streams.quarantine[slot]).diagnostic.digest == confirmed
      ensures outcome.DiscardDone? ==>
                && slot !in streams.quarantine
                && MessagesOf(confirmed.payload) <= streams.discarded
    {
      var fetched := FetchDiagnostic(slot);
      if fetched.None? {
        return DiscardTimedOut;
      }
      var diagnostic := fetched.value;
      if diagnostic.digest != confirmed {
        Stop();
        return DiscardRefused;
      }
      Sound();
      assert ProcessFits(streams, Mine());
      Do(Discard(confirmed),
         With(streams.(quarantine := streams.quarantine - {slot},
                       discarded := streams.discarded
                         + (if diagnostic.replay.Some? then MessagesOf(diagnostic.replay.value) else {})),
              me, Waiting));
      return DiscardDone;
    }
  }
}
