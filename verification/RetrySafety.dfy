/** When a mutating retry is justified (src/stateback/domain/retry_safety.py,
    providers/registry.py and providers/retry.py). */
module RetrySafety {
  import opened Lifecycle

  datatype IdempotencyMode = NoIdempotency | NaturalIdempotency | ProviderKey

  datatype SafetyVerdict = Safe | Unsafe | NeedsCapabilityProof

  datatype Basis = ExecutionNotApplied | VerifiedNotApplied | ByNaturalIdempotency | ByProviderKey

  datatype SafetyDecision = SafetyDecision(verdict: SafetyVerdict, basis: Option<Basis>)

  /** A declared replay window: none, a text that does not parse, or seconds. */
  datatype KeySemantics = KeySemantics(replayWindow: Option<string>)

  datatype Descriptor = Descriptor(
    idempotency: IdempotencyMode,
    keySemantics: Option<KeySemantics>,
    verifiable: bool,
    responseProvesApplied: bool)

  predicate IsDigit(c: char) {
    '0' <= c <= '9'
  }

  predicate AllDigits(text: string) {
    forall i :: 0 <= i < |text| ==> IsDigit(text[i])
  }

  function DigitValue(c: char): nat
    requires IsDigit(c)
  {
    c as int - '0' as int
  }

  /** The texts matched by [1-9][0-9]*. */
  predicate IsPositiveDecimal(text: string) {
    && |text| > 0
    && text[0] != '0'
    && AllDigits(text)
  }

  function DecimalValue(text: string): nat
    requires AllDigits(text)
  {
    if |text| == 0 then 0
    else DecimalValue(text[..|text| - 1]) * 10 + DigitValue(text[|text| - 1])
  }

  function ParseReplayWindowSeconds(raw: Option<string>): Option<nat> {
    match raw
    case None => None
    case Some(text) => if IsPositiveDecimal(text) then Some(DecimalValue(text)) else None
  }

  function ReplayWindowHasElapsed(semantics: KeySemantics, startedAt: int, now: int): bool {
    if semantics.replayWindow.None? then false
    else
      match ParseReplayWindowSeconds(semantics.replayWindow)
      case None => true
      case Some(seconds) => now - startedAt >= seconds
  }

  /** The pure classification of a retry by the evidence at hand. */
  function EvaluateEffectRetrySafety(
    execution: Option<EffectOutcome>,
    verification: Option<EffectOutcome>,
    idempotency: IdempotencyMode,
    insufficientSignal: bool,
    keySemantics: Option<KeySemantics>,
    windowElapsed: bool,
    naturalTested: bool): SafetyDecision
  {
    if insufficientSignal then SafetyDecision(Unsafe, None)
    else if execution == Some(EffectApplied) then SafetyDecision(Unsafe, None)
    else if verification == Some(EffectApplied) then SafetyDecision(Unsafe, None)
    else if verification == Some(EffectNotApplied) then SafetyDecision(Safe, Some(VerifiedNotApplied))
    else if execution == Some(EffectNotApplied) then SafetyDecision(Safe, Some(ExecutionNotApplied))
    else
      match idempotency
      case NoIdempotency => SafetyDecision(Unsafe, None)
      case NaturalIdempotency =>
        if naturalTested then SafetyDecision(Safe, Some(ByNaturalIdempotency))
        else SafetyDecision(NeedsCapabilityProof, Some(ByNaturalIdempotency))
      case ProviderKey =>
        if keySemantics.None? then SafetyDecision(NeedsCapabilityProof, Some(ByProviderKey))
        else if windowElapsed then SafetyDecision(Unsafe, None)
        else SafetyDecision(Safe, Some(ByProviderKey))
  }

  /** CapabilityRegistry.evaluate_retry_safety for one registered effect. */
  function RegistryRetrySafety(
    descriptor: Descriptor,
    execution: Option<EffectOutcome>,
    verification: Option<EffectOutcome>,
    now: int,
    firstAttemptAt: Option<int>,
    insufficientSignal: bool): SafetyDecision
  {
    if insufficientSignal then
      EvaluateEffectRetrySafety(execution, verification, descriptor.idempotency, true, None, false, false)
    else
      match descriptor.idempotency
      case ProviderKey =>
        if firstAttemptAt.None? then SafetyDecision(Unsafe, None)
        else if descriptor.keySemantics.None? then
          EvaluateEffectRetrySafety(execution, verification, ProviderKey, false, None, false, false)
        else
          var elapsed :=
            ReplayWindowHasElapsed(descriptor.keySemantics.value, firstAttemptAt.value, now);
          EvaluateEffectRetrySafety(
            execution, verification, ProviderKey, false, descriptor.keySemantics, elapsed, false)
      case NaturalIdempotency =>
        EvaluateEffectRetrySafety(execution, verification, NaturalIdempotency, false, None, false, true)
      case NoIdempotency =>
        EvaluateEffectRetrySafety(execution, verification, NoIdempotency, false, None, false, false)
  }

  /** What may license a mutating retry: positive evidence that nothing was applied,
      a naturally idempotent effect, or a provider key that is still replayable. */
  ghost predicate RetryLicensed(
    descriptor: Descriptor,
    execution: Option<EffectOutcome>,
    verification: Option<EffectOutcome>,
    now: int,
    firstAttemptAt: Option<int>)
  {
    && execution != Some(EffectApplied)
    && verification != Some(EffectApplied)
    && (descriptor.idempotency.ProviderKey? ==> firstAttemptAt.Some?)
    && (|| verification == Some(EffectNotApplied)
        || execution == Some(EffectNotApplied)
        || descriptor.idempotency.NaturalIdempotency?
        || (&& descriptor.idempotency.ProviderKey?
            && descriptor.keySemantics.Some?
            && WindowOpen(descriptor.keySemantics.value, firstAttemptAt.value, now)))
  }

  /** The replay window is unbounded, or well formed and not yet over. */
  ghost predicate WindowOpen(semantics: KeySemantics, startedAt: int, now: int) {
    || semantics.replayWindow.None?
    || (&& IsPositiveDecimal(semantics.replayWindow.value)
        && now < startedAt + DecimalValue(semantics.replayWindow.value))
  }

  /** The registry says SAFE exactly when the retry is licensed. */
  lemma SafeIffLicensed(
    descriptor: Descriptor,
    execution: Option<EffectOutcome>,
    verification: Option<EffectOutcome>,
    now: int,
    firstAttemptAt: Option<int>,
    insufficientSignal: bool)
    ensures RegistryRetrySafety(
              descriptor, execution, verification, now, firstAttemptAt, insufficientSignal).verdict.Safe?
        <==> !insufficientSignal && RetryLicensed(descriptor, execution, verification, now, firstAttemptAt)
  {
    if descriptor.keySemantics.Some? && firstAttemptAt.Some? {
      assert WindowOpen(descriptor.keySemantics.value, firstAttemptAt.value, now)
          <==> !ReplayWindowHasElapsed(descriptor.keySemantics.value, firstAttemptAt.value, now);
    }
  }

  /** Time only takes permission away: a retry refused at one moment is refused at every later one. */
  lemma VerdictNeverRecovers(
    descriptor: Descriptor,
    execution: Option<EffectOutcome>,
    verification: Option<EffectOutcome>,
    now: int,
    later: int,
    firstAttemptAt: Option<int>,
    insufficientSignal: bool)
    requires now <= later
    requires !RegistryRetrySafety(
        descriptor, execution, verification, now, firstAttemptAt, insufficientSignal).verdict.Safe?
    ensures RegistryRetrySafety(
              descriptor, execution, verification, later, firstAttemptAt, insufficientSignal)
         == RegistryRetrySafety(
              descriptor, execution, verification, now, firstAttemptAt, insufficientSignal)
  {
    if descriptor.keySemantics.Some? && firstAttemptAt.Some? {
      var semantics := descriptor.keySemantics.value;
      assert ReplayWindowHasElapsed(semantics, firstAttemptAt.value, now)
         ==> ReplayWindowHasElapsed(semantics, firstAttemptAt.value, later);
    }
  }

  /** For an unresolved effect under a provider key with a well-formed window the
      permission ends exactly at the window's end. */
  lemma ProviderKeyPermissionEnds(descriptor: Descriptor, window: string, startedAt: int, now: int)
    requires descriptor.idempotency.ProviderKey?
    requires descriptor.keySemantics == Some(KeySemantics(Some(window)))
    requires IsPositiveDecimal(window)
    ensures RegistryRetrySafety(
              descriptor, Some(EffectUnknown), None, now, Some(startedAt), false).verdict.Safe?
        <==> now < startedAt + DecimalValue(window)
    ensures DecimalValue(window) >= 1
  {
    SafeIffLicensed(descriptor, Some(EffectUnknown), None, now, Some(startedAt), false);
    assert ReplayWindowHasElapsed(KeySemantics(Some(window)), startedAt, now)
        <==> now - startedAt >= DecimalValue(window);
    PositiveDecimalIsPositive(window);
  }

  lemma {:induction false} PositiveDecimalIsPositive(text: string)
    requires IsPositiveDecimal(text)
    ensures DecimalValue(text) >= 1
  {
    if |text| > 1 {
      PositiveDecimalIsPositive(text[..|text| - 1]);
    } else {
      assert DecimalValue(text[..0]) == 0;
    }
  }
}
