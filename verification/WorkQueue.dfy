/** Work messages between the broker's work stream, the workers and the quarantine stream
    (messaging/nats.py, messaging/worker.py and the operator commands of
    deployment/processes.py). A step is one action of one process on one stream; deliveries
    may be repeated and overlap, acknowledgements may be lost, and any process may crash. */
module WorkQueue {
  import opened Lifecycle

  type MessageId = nat
  type Slot = nat

  /** What a payload is to the consumer: it decodes as a work message, or it is poison. */
  datatype Payload = ValidWork(message: MessageId) | Poison(content: nat)

  /** The SHA-256 digest of a payload. */
  datatype Digest = Sha256(payload: Payload)

  /** A message of the work stream with the number of its deliveries. */
  datatype Stored = Stored(payload: Payload, deliveries: nat)

  /** What encode_quarantine_diagnostic keeps of a payload. */
  datatype Diagnostic = Diagnostic(digest: Digest, deliveryCount: nat, replay: Option<Payload>)

  /** A diagnostic of the quarantine stream with the number of its own deliveries. */
  datatype Parked = Parked(diagnostic: Diagnostic, deliveries: nat)

  /** max_deliver of the quarantine consumer. */
  const MAX_INSPECTIONS := 20

  datatype Decision = Ack | Nak | Term

  /** How loading and dispatching one delivery went. */
  datatype Dispatched = NotLoaded | DispatchRaised | InfrastructureFailure | Handled

  /** What a process has in hand. */
  datatype Process =
    | Waiting
    | Holding(slot: Slot, payload: Payload, count: nat)
    | Decided(slot: Slot, payload: Payload, count: nat, decision: Decision)
    | Quarantined(slot: Slot, payload: Payload)
    | Inspecting(slot: Slot, diagnostic: Diagnostic)
    | Replayed(slot: Slot)

  datatype Streams = Streams(
    work: map<Slot, Stored>,
    quarantine: map<Slot, Parked>,
    processes: map<nat, Process>,
    known: set<MessageId>,
    settled: set<MessageId>,
    discarded: set<MessageId>,
    handled: set<MessageId>,
    next: Slot)

  function ProcessOf(s: Streams, p: nat): Process {
    if p in s.processes then s.processes[p] else Waiting
  }

  function With(s: Streams, p: nat, process: Process): Streams {
    s.(processes := s.processes[p := process])
  }

  /** _retry_or_term */
  function RetryOrTerm(count: nat, maxDeliveries: nat): Decision {
    if count >= maxDeliveries then Term else Nak
  }

  /** WorkHandler.handle */
  function Handle(payload: Payload, count: nat, dispatched: Dispatched, maxDeliveries: nat): Decision {
    if payload.Poison? then Term
    else if dispatched.Handled? then Ack
    else RetryOrTerm(count, maxDeliveries)
  }

  /** encode_quarantine_diagnostic: only a valid message leaves a replayable copy. */
  function DiagnosticOf(payload: Payload, count: nat): Diagnostic {
    Diagnostic(Sha256(payload), count, if payload.ValidWork? then Some(payload) else None)
  }

  function MessagesOf(payload: Payload): set<MessageId> {
    if payload.ValidWork? then {payload.message} else {}
  }

  // ---------------------------------------------------------------- steps

  datatype Step =
    | Enqueue(payload: Payload)
    | Deliver(slot: Slot)
    | Dispatch(dispatched: Dispatched)
    | SendAck
    | SendNak
    | PublishDiagnostic(seen: bool)
    | SendTerm
    | Inspect(slot: Slot)
    | PublishReplay(confirmed: MessageId)
    | AckReplayed
    | Discard(digest: Digest)
    | Crash

  predicate TakesWork(maxDeliveries: nat, s: Streams, p: nat, step: Step, t: Streams) {
    var process := ProcessOf(s, p);
    match step
    case Enqueue(payload) =>
      t == s.(work := s.work[s.next := Stored(payload, 0)], next := s.next + 1,
              known := s.known + MessagesOf(payload))
    case Deliver(slot) =>
      && process.Waiting? && slot in s.work && s.work[slot].deliveries < maxDeliveries
      && var count := s.work[slot].deliveries + 1;
      && t == With(s.(work := s.work[slot := s.work[slot].(deliveries := count)]),
                   p, Holding(slot, s.work[slot].payload, count))
    case Dispatch(dispatched) =>
      && process.Holding?
      && t == With(
                s.(handled := s.handled + (if dispatched.Handled? then MessagesOf(process.payload) else {})),
                p, Decided(process.slot, process.payload, process.count,
                           Handle(process.payload, process.count, dispatched, maxDeliveries)))
    case SendAck =>
      && process.Decided? && process.decision.Ack?
      && t == With(s.(work := s.work - {process.slot}, settled := s.settled + MessagesOf(process.payload)),
                   p, Waiting)
    case SendNak => process.Decided? && process.decision.Nak? && t == With(s, p, Waiting)
    case PublishDiagnostic(seen) =>
      && process.Decided? && process.decision.Term?
      && t == With(
                s.(quarantine := s.quarantine[s.next := Parked(DiagnosticOf(process.payload, process.count), 0)],
                   next := s.next + 1),
                p, if seen then Quarantined(process.slot, process.payload) else Waiting)
    case SendTerm => process.Quarantined? && t == With(s.(work := s.work - {process.slot}), p, Waiting)
    case _ => false
  }

  predicate TakesQuarantine(s: Streams, p: nat, step: Step, t: Streams) {
    var process := ProcessOf(s, p);
    match step
    case Inspect(slot) =>
      && process.Waiting? && slot in s.quarantine && s.quarantine[slot].deliveries < MAX_INSPECTIONS
      && var parked := s.quarantine[slot];
      && t == With(s.(quarantine := s.quarantine[slot := parked.(deliveries := parked.deliveries + 1)]),
                   p, Inspecting(slot, parked.diagnostic))
    case PublishReplay(confirmed) =>
      && process.Inspecting? && process.diagnostic.replay == Some(ValidWork(confirmed))
      && t == With(s.(work := s.work[s.next := Stored(ValidWork(confirmed), 0)], next := s.next + 1),
                   p, Replayed(process.slot))
    case AckReplayed => process.Replayed? && t == With(s.(quarantine := s.quarantine - {process.slot}), p, Waiting)
    case Discard(digest) =>
      && process.Inspecting? && process.diagnostic.digest == digest
      && t == With(
                s.(quarantine := s.quarantine - {process.slot},
                   discarded := s.discarded
                     + (if process.diagnostic.replay.Some? then MessagesOf(process.diagnostic.replay.value) else {})),
                p, Waiting)
    case Crash => t == With(s, p, Waiting)
    case _ => false
  }

  predicate Takes(maxDeliveries: nat, s: Streams, p: nat, step: Step, t: Streams) {
    TakesWork(maxDeliveries, s, p, step, t) || TakesQuarantine(s, p, step, t)
  }

  ghost predicate Next(maxDeliveries: nat, s: Streams, t: Streams) {
    exists p, step :: Takes(maxDeliveries, s, p, step, t)
  }

  predicate Initial(s: Streams) {
    s == Streams(map[], map[], map[], {}, {}, {}, {}, 0)
  }

  /** Position i of the run is followed by one step. */
  ghost predicate StepAt(maxDeliveries: nat, run: seq<Streams>, i: nat)
    requires i + 1 < |run|
  {
    Next(maxDeliveries, run[i], run[i + 1])
  }

  ghost predicate IsRun(maxDeliveries: nat, run: seq<Streams>) {
    && |run| > 0
    && Initial(run[0])
    && forall i :: 0 <= i < |run| - 1 ==> StepAt(maxDeliveries, run, i)
  }

  // ---------------------------------------------------------------- the invariant

  /** Somebody is about to remove this message of the work stream after quarantining it. */
  ghost predicate ToBeTerminated(s: Streams, slot: Slot) {
    exists p :: p in s.processes && s.processes[p].Quarantined? && s.processes[p].slot == slot
  }

  /** Somebody is about to remove this diagnostic after replaying it. */
  ghost predicate ToBeReplayed(s: Streams, slot: Slot) {
    exists p :: p in s.processes && s.processes[p].Replayed? && s.processes[p].slot == slot
  }

  ghost predicate QueuedFor(s: Streams, message: MessageId, slot: Slot) {
    slot in s.work && s.work[slot].payload == ValidWork(message) && !ToBeTerminated(s, slot)
  }

  ghost predicate ReplayableFor(s: Streams, message: MessageId, slot: Slot) {
    && slot in s.quarantine && s.quarantine[slot].diagnostic.replay == Some(ValidWork(message))
    && !ToBeReplayed(s, slot)
  }

  /** The message is somewhere that nobody is about to remove. */
  ghost predicate Kept(s: Streams, message: MessageId) {
    || message in s.settled || message in s.discarded
    || (exists slot :: QueuedFor(s, message, slot))
    || (exists slot :: ReplayableFor(s, message, slot))
  }

  /** A diagnostic is what was written for the payload that its digest identifies. */
  ghost predicate DiagnosticFits(s: Streams, diagnostic: Diagnostic) {
    && diagnostic == DiagnosticOf(diagnostic.digest.payload, diagnostic.deliveryCount)
    && MessagesOf(diagnostic.digest.payload) <= s.known
  }

  ghost predicate ProcessFits(s: Streams, process: Process) {
    match process
    case Waiting => true
    case Holding(slot, payload, count) =>
      slot < s.next && (slot in s.work ==> s.work[slot].payload == payload) && MessagesOf(payload) <= s.known
    case Decided(slot, payload, count, decision) =>
      && slot < s.next && (slot in s.work ==> s.work[slot].payload == payload) && MessagesOf(payload) <= s.known
      && (decision.Ack? ==> MessagesOf(payload) <= s.handled)
    case Quarantined(slot, payload) => slot < s.next
    case Inspecting(slot, diagnostic) =>
      && slot < s.next && (slot in s.quarantine ==> s.quarantine[slot].diagnostic == diagnostic)
      && DiagnosticFits(s, diagnostic)
    case Replayed(slot) => slot < s.next
  }

  ghost predicate Inv(s: Streams) {
    && (forall slot :: slot in s.work ==> slot < s.next && MessagesOf(s.work[slot].payload) <= s.known)
    && (forall slot :: slot in s.quarantine ==>
          slot < s.next && DiagnosticFits(s, s.quarantine[slot].diagnostic))
    && (forall p :: p in s.processes ==> ProcessFits(s, s.processes[p]))
    && s.settled <= s.handled
    && (forall message :: message in s.known ==> Kept(s, message))
  }

  // ---------------------------------------------------------------- conservation

  /** Where the step of process p leaves a message that was kept before it. */
  lemma StillKept(maxDeliveries: nat, s: Streams, p: nat, step: Step, t: Streams, message: MessageId)
    requires Inv(s) && Takes(maxDeliveries, s, p, step, t) && Kept(s, message)
    requires !step.PublishDiagnostic? && !step.PublishReplay? && !step.Enqueue? && !step.Deliver?
    ensures Kept(t, message)
  {
    if slot :| QueuedFor(s, message, slot) {
      if slot in t.work {
        assert QueuedFor(t, message, slot);
      }
    } else if slot :| ReplayableFor(s, message, slot) {
      if slot in t.quarantine {
        assert ReplayableFor(t, message, slot);
      }
    }
  }

  lemma KeptAfterPublishing(maxDeliveries: nat, s: Streams, p: nat, step: Step, t: Streams, message: MessageId)
    requires Inv(s) && Takes(maxDeliveries, s, p, step, t) && Kept(s, message)
    requires step.PublishDiagnostic? || step.PublishReplay? || step.Enqueue? || step.Deliver?
    ensures Kept(t, message)
  {
    if slot :| QueuedFor(s, message, slot) {
      if ToBeTerminated(t, slot) {
        assert ReplayableFor(t, message, s.next);
      } else {
        assert QueuedFor(t, message, slot);
      }
    } else if slot :| ReplayableFor(s, message, slot) {
      if ToBeReplayed(t, slot) {
        assert QueuedFor(t, message, s.next);
      } else {
        assert ReplayableFor(t, message, slot);
      }
    }
  }

  lemma ProcessesFitAfter(maxDeliveries: nat, s: Streams, p: nat, step: Step, t: Streams)
    requires Inv(s) && Takes(maxDeliveries, s, p, step, t)
    ensures forall q :: q in t.processes ==> ProcessFits(t, t.processes[q])
  {
    forall q | q in t.processes ensures ProcessFits(t, t.processes[q]) {
      if q in s.processes { assert ProcessFits(s, s.processes[q]); }
      if p in s.processes { assert ProcessFits(s, s.processes[p]); }
    }
  }

  lemma StreamStepKeeps(maxDeliveries: nat, s: Streams, p: nat, step: Step, t: Streams)
    requires Inv(s) && Takes(maxDeliveries, s, p, step, t)
    ensures Inv(t)
    ensures s.known <= t.known
  {
    ProcessesFitAfter(maxDeliveries, s, p, step, t);
    if p in s.processes { assert ProcessFits(s, s.processes[p]); }
    forall message | message in t.known ensures Kept(t, message) {
      if message !in s.known {
        assert QueuedFor(t, message, s.next);
      } else if step.PublishDiagnostic? || step.PublishReplay? || step.Enqueue? || step.Deliver? {
        KeptAfterPublishing(maxDeliveries, s, p, step, t, message);
      } else {
        StillKept(maxDeliveries, s, p, step, t, message);
      }
    }
  }

  lemma StreamStepOf(maxDeliveries: nat, run: seq<Streams>, i: nat) returns (p: nat, step: Step)
    requires IsRun(maxDeliveries, run) && i + 1 < |run|
    ensures Takes(maxDeliveries, run[i], p, step, run[i + 1])
  {
    assert StepAt(maxDeliveries, run, i);
    p, step :| Takes(maxDeliveries, run[i], p, step, run[i + 1]);
  }

  lemma {:induction false} StreamInvariantHolds(maxDeliveries: nat, run: seq<Streams>, i: nat)
    requires IsRun(maxDeliveries, run) && i < |run|
    ensures Inv(run[i])
    decreases i
  {
    if i > 0 {
      StreamInvariantHolds(maxDeliveries, run, i - 1);
      var p, step := StreamStepOf(maxDeliveries, run, i - 1);
      StreamStepKeeps(maxDeliveries, run[i - 1], p, step, run[i]);
    }
  }

  lemma RunStepKeepsKnown(maxDeliveries: nat, run: seq<Streams>, i: nat)
    requires IsRun(maxDeliveries, run) && i + 1 < |run|
    ensures run[i].known <= run[i + 1].known
  {
    StreamInvariantHolds(maxDeliveries, run, i);
    var p, step := StreamStepOf(maxDeliveries, run, i);
    StreamStepKeeps(maxDeliveries, run[i], p, step, run[i + 1]);
  }

  lemma {:induction false} KnownStaysKnown(maxDeliveries: nat, run: seq<Streams>, i: nat, j: nat)
    requires IsRun(maxDeliveries, run) && i <= j < |run|
    ensures run[i].known <= run[j].known
    decreases j
  {
    if i < j {
      KnownStaysKnown(maxDeliveries, run, i, j - 1);
      RunStepKeepsKnown(maxDeliveries, run, j - 1);
    }
  }

  /** Conservation: a valid message that was once queued is, at every later moment, still
      queued, or replayable from quarantine, or settled by a dispatch that did not report an
      infrastructure failure, or discarded by an operator. */
  lemma NoMessageIsLost(maxDeliveries: nat, run: seq<Streams>, i: nat, j: nat, slot: Slot, message: MessageId)
    requires IsRun(maxDeliveries, run) && i <= j < |run|
    requires slot in run[i].work && run[i].work[slot].payload == ValidWork(message)
    ensures || (exists there :: there in run[j].work && run[j].work[there].payload == ValidWork(message))
            || (exists there :: there in run[j].quarantine
                  && run[j].quarantine[there].diagnostic.replay == Some(ValidWork(message)))
            || message in run[j].settled * run[j].handled
            || message in run[j].discarded
  {
    StreamInvariantHolds(maxDeliveries, run, i);
    StreamInvariantHolds(maxDeliveries, run, j);
    KnownStaysKnown(maxDeliveries, run, i, j);
    assert MessagesOf(run[i].work[slot].payload) <= run[i].known;
    assert message in MessagesOf(run[i].work[slot].payload);
    assert Kept(run[j], message);
    if there :| QueuedFor(run[j], message, there) {
      assert there in run[j].work;
    } else if there :| ReplayableFor(run[j], message, there) {
      assert there in run[j].quarantine;
    }
  }

  // ---------------------------------------------------------------- the last delivery

  /** Only handled work is acknowledged, and the handler never asks for another delivery after the
      last one: poison and exhausted work are terminated. */
  lemma LastDeliveryIsNeverPutBack(payload: Payload, count: nat, dispatched: Dispatched, maxDeliveries: nat)
    ensures Handle(payload, count, dispatched, maxDeliveries).Nak?
        <==> payload.ValidWork? && !dispatched.Handled? && count < maxDeliveries
    ensures Handle(payload, count, dispatched, maxDeliveries).Ack? <==> payload.ValidWork? && dispatched.Handled?
  {
  }

  /** A message whose deliveries are used up and that no process holds. The broker counts with
      the same limit as the handler. */
  ghost predicate Stuck(maxDeliveries: nat, s: Streams, slot: Slot) {
    && slot in s.work && s.work[slot].deliveries >= maxDeliveries
    && slot < s.next
    && forall p :: p in s.processes ==> !AtWork(s.processes[p], slot)
  }

  predicate AtWork(process: Process, slot: Slot) {
    (process.Holding? || process.Decided? || process.Quarantined?) && process.slot == slot
  }

  lemma StepKeepsStuck(maxDeliveries: nat, s: Streams, p: nat, step: Step, t: Streams, slot: Slot)
    requires Inv(s) && Takes(maxDeliveries, s, p, step, t) && Stuck(maxDeliveries, s, slot)
    ensures Stuck(maxDeliveries, t, slot) && t.work[slot] == s.work[slot]
  {
    if p in s.processes { assert ProcessFits(s, s.processes[p]); }
  }

  lemma RunStepKeepsStuck(maxDeliveries: nat, run: seq<Streams>, i: nat, slot: Slot)
    requires IsRun(maxDeliveries, run) && i + 1 < |run| && Stuck(maxDeliveries, run[i], slot)
    ensures Stuck(maxDeliveries, run[i + 1], slot) && run[i + 1].work[slot] == run[i].work[slot]
  {
    StreamInvariantHolds(maxDeliveries, run, i);
    var p, step := StreamStepOf(maxDeliveries, run, i);
    StepKeepsStuck(maxDeliveries, run[i], p, step, run[i + 1], slot);
  }

  /** If the worker dies, or the quarantine refuses the diagnostic, on the last delivery, then
      this copy is kept but never delivered, dispatched or quarantined again. */
  lemma {:induction false} StuckForGood(maxDeliveries: nat, run: seq<Streams>, i: nat, j: nat, slot: Slot)
    requires IsRun(maxDeliveries, run) && i <= j < |run| && Stuck(maxDeliveries, run[i], slot)
    ensures Stuck(maxDeliveries, run[j], slot) && run[j].work[slot] == run[i].work[slot]
    decreases j
  {
    if i < j {
      StuckForGood(maxDeliveries, run, i, j - 1, slot);
      RunStepKeepsStuck(maxDeliveries, run, j - 1, slot);
    }
  }

  lemma OthersUntouched(maxDeliveries: nat, s: Streams, p: nat, step: Step, t: Streams)
    requires Takes(maxDeliveries, s, p, step, t)
    ensures forall q :: q in s.processes && q != p ==> q in t.processes && t.processes[q] == s.processes[q]
  {
  }

  /** A step that lets go of a copy of the work stream without removing it. */
  predicate LetsGo(step: Step) {
    step.Crash? || step.SendNak? || (step.PublishDiagnostic? && !step.seen)
  }

  /** A copy gets stuck exactly when the only process that has it lets go of it on the last
      delivery: it dies, it puts an earlier delivery back, or it does not see the quarantine
      accept the diagnostic. */
  lemma StuckIff(maxDeliveries: nat, s: Streams, p: nat, step: Step, t: Streams, slot: Slot)
    requires Inv(s) && Takes(maxDeliveries, s, p, step, t)
    requires slot in s.work && !Stuck(maxDeliveries, s, slot)
    ensures Stuck(maxDeliveries, t, slot)
        <==> && s.work[slot].deliveries >= maxDeliveries
             && AtWork(ProcessOf(s, p), slot) && LetsGo(step)
             && forall q :: q in s.processes && q != p ==> !AtWork(s.processes[q], slot)
  {
    if p in s.processes { assert ProcessFits(s, s.processes[p]); }
    OthersUntouched(maxDeliveries, s, p, step, t);
    if Stuck(maxDeliveries, t, slot) {
      assert p in t.processes ==> !AtWork(t.processes[p], slot);
      assert t.work[slot].deliveries == s.work[slot].deliveries;
      var q :| q in s.processes && AtWork(s.processes[q], slot);
      forall other | other in s.processes && other != p ensures !AtWork(s.processes[other], slot) {
      }
    } else if AtWork(ProcessOf(s, p), slot) && LetsGo(step) {
      assert slot in t.work && t.work[slot] == s.work[slot];
    }
  }

  // ---------------------------------------------------------------- the last inspection

  predicate AtQuarantine(process: Process, slot: Slot) {
    (process.Inspecting? || process.Replayed?) && process.slot == slot
  }

  /** A diagnostic whose deliveries are used up and that nobody has in hand. Inspections and
      refused confirmations use them up as replays do. */
  ghost predicate Spent(s: Streams, slot: Slot) {
    && slot in s.quarantine && s.quarantine[slot].deliveries >= MAX_INSPECTIONS
    && slot < s.next
    && forall p :: p in s.processes ==> !AtQuarantine(s.processes[p], slot)
  }

  lemma StepKeepsSpent(maxDeliveries: nat, s: Streams, p: nat, step: Step, t: Streams, slot: Slot)
    requires Inv(s) && Takes(maxDeliveries, s, p, step, t) && Spent(s, slot)
    ensures Spent(t, slot) && t.quarantine[slot] == s.quarantine[slot]
  {
    if p in s.processes { assert ProcessFits(s, s.processes[p]); }
  }

  lemma RunStepKeepsSpent(maxDeliveries: nat, run: seq<Streams>, i: nat, slot: Slot)
    requires IsRun(maxDeliveries, run) && i + 1 < |run| && Spent(run[i], slot)
    ensures Spent(run[i + 1], slot) && run[i + 1].quarantine[slot] == run[i].quarantine[slot]
  {
    StreamInvariantHolds(maxDeliveries, run, i);
    var p, step := StreamStepOf(maxDeliveries, run, i);
    StepKeepsSpent(maxDeliveries, run[i], p, step, run[i + 1], slot);
  }

  /** A spent diagnostic is kept but can never be inspected, replayed or discarded again. */
  lemma {:induction false} SpentForGood(maxDeliveries: nat, run: seq<Streams>, i: nat, j: nat, slot: Slot)
    requires IsRun(maxDeliveries, run) && i <= j < |run| && Spent(run[i], slot)
    ensures Spent(run[j], slot) && run[j].quarantine[slot] == run[i].quarantine[slot]
    decreases j
  {
    if i < j {
      SpentForGood(maxDeliveries, run, i, j - 1, slot);
      RunStepKeepsSpent(maxDeliveries, run, j - 1, slot);
    }
  }

  /** A diagnostic is spent exactly when the only process that has it lets go of it on its last
      delivery, whether it meant to look, to replay or to discard. */
  lemma SpentIff(maxDeliveries: nat, s: Streams, p: nat, step: Step, t: Streams, slot: Slot)
    requires Inv(s) && Takes(maxDeliveries, s, p, step, t)
    requires slot in s.quarantine && !Spent(s, slot)
    ensures Spent(t, slot)
        <==> && s.quarantine[slot].deliveries >= MAX_INSPECTIONS
             && AtQuarantine(ProcessOf(s, p), slot) && step.Crash?
             && forall q :: q in s.processes && q != p ==> !AtQuarantine(s.processes[q], slot)
  {
    if p in s.processes { assert ProcessFits(s, s.processes[p]); }
    OthersUntouched(maxDeliveries, s, p, step, t);
    if Spent(t, slot) {
      assert p in t.processes ==> !AtQuarantine(t.processes[p], slot);
      assert t.quarantine[slot].deliveries == s.quarantine[slot].deliveries;
      var q :| q in s.processes && AtQuarantine(s.processes[q], slot);
      forall other | other in s.processes && other != p ensures !AtQuarantine(s.processes[other], slot) {
      }
    } else if AtQuarantine(ProcessOf(s, p), slot) && step.Crash? {
      assert slot in t.quarantine && t.quarantine[slot] == s.quarantine[slot];
    }
  }

  /** Until then a waiting process can still queue the message of a diagnostic again. */
  lemma UnspentCanBeReplayed(maxDeliveries: nat, s: Streams, p: nat, slot: Slot, message: MessageId)
    returns (seen: Streams, t: Streams)
    requires ProcessOf(s, p).Waiting? && slot in s.quarantine
    requires s.quarantine[slot].deliveries < MAX_INSPECTIONS
    requires s.quarantine[slot].diagnostic.replay == Some(ValidWork(message))
    ensures Takes(maxDeliveries, s, p, Inspect(slot), seen)
    ensures Takes(maxDeliveries, seen, p, PublishReplay(message), t)
    ensures s.next in t.work && t.work[s.next] == Stored(ValidWork(message), 0)
  {
    var parked := s.quarantine[slot];
    seen := With(s.(quarantine := s.quarantine[slot := parked.(deliveries := parked.deliveries + 1)]),
                 p, Inspecting(slot, parked.diagnostic));
    t := With(seen.(work := seen.work[seen.next := Stored(ValidWork(message), 0)], next := seen.next + 1),
              p, Replayed(slot));
  }
}
