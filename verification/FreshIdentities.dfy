/** The identifiers one invocation of the compensation services writes (execute.py, recover.py,
    operator.py and messaging/ids.py). Identifiers are hashes of a name; names are compared
    here, so equal names are the only way to write an identifier twice. */
module FreshIdentities {
  /** What an identifier is for. */
  datatype Role =
    | AttemptRow
    | AttemptAudit
    | AttemptOutbox
    | EvidenceAudit
    | CompleteTransition
    | CompleteOutbox
    | VerificationRow
    | VerifyStartAudit
    | VerifyCompleteAudit
    | VerifyOutbox
    | ParentTransition
    | ParentOutbox
    | ResumeVerificationRow
    | ResumeVerifyStart
    | ResumeVerifyComplete
    | ResumeVerifyOutbox
    | ResumeTransition
    | ResumeOutbox
    | ManualAudit

  /** A name of the caller's bundle, or of its retry bundle for one attempt number. */
  datatype Name = Own(role: Role) | Retry(number: nat, role: Role)

  /** ids for attempt n: the retry bundle from the second attempt on. */
  function ForAttempt(n: nat, role: Role): Name {
    if n > 1 then Retry(n, role) else Own(role)
  }

  /** for_attempt accepts attempt numbers from 2 on. */
  predicate IsIssued(name: Name) {
    name.Retry? ==> name.number >= 2
  }

  /** The identifier of the verification being answered: of this invocation's own bundle, or of an
      earlier command's. */
  datatype Row = Ours(name: Name) | Foreign

  /** What the invocation does next. */
  datatype Mode =
    | Idle
    | Compensating(n: nat)
    | Verifying(n: nat, row: Row)

  datatype Entry =
    | ClaimFirst
    | ResumePending(n: nat, row: Row)
    | ReplayAnswer(n: nat)
    | RetryParent(n: nat)
    | StartResumption(n: nat)
    | AbandonLeftover
    | EscalateUnknown

  datatype Choice =
    | AnswerApplied
    | AnswerUnknown
    | AnswerFailed
    | AnswerFailedThenRetry
    | AnswerNeedsVerification
    | ConcludeDecided
    | ConcludeUnknown
    | ConcludeEscalate
    | ConcludeRetry

  /** The writes of a claim after the parent's retry. */
  function RetryWrites(n: nat): seq<Name> {
    [Retry(n, ParentTransition), Retry(n, ParentOutbox), Retry(n, AttemptRow), Retry(n, AttemptAudit)]
  }

  function EntryWrites(entry: Entry): seq<Name> {
    match entry
    case ClaimFirst => [Own(AttemptRow), Own(AttemptAudit)]
    case ResumePending(_, _) => []
    case ReplayAnswer(_) => []
    case RetryParent(n) => RetryWrites(n + 1)
    case StartResumption(n) =>
      [Retry(n + 1, ParentTransition), Retry(n + 1, ParentOutbox), Retry(n + 1, ResumeVerificationRow),
       Retry(n + 1, ResumeVerifyStart), Retry(n + 1, ResumeVerifyOutbox)]
    case AbandonLeftover => [Own(CompleteTransition), Own(EvidenceAudit), Own(CompleteOutbox)]
    case EscalateUnknown => [Own(CompleteTransition), Own(ManualAudit)]
  }

  function EntryMode(entry: Entry): Mode {
    match entry
    case ClaimFirst => Compensating(1)
    case ResumePending(n, row) => Verifying(n, row)
    case ReplayAnswer(n) => Compensating(n)
    case RetryParent(n) => Compensating(n + 1)
    case StartResumption(n) => Verifying(n, Ours(Retry(n + 1, ResumeVerificationRow)))
    case AbandonLeftover => Idle
    case EscalateUnknown => Idle
  }

  predicate IsEntry(entry: Entry) {
    match entry
    case ResumePending(n, _) => n >= 1
    case ReplayAnswer(n) => n >= 1
    case RetryParent(n) => n >= 1
    case StartResumption(n) => n >= 1
    case _ => true
  }

  /** _verification_write_ids: transition, verification and outbox names of a conclusion, found by
      comparing the row's identifier with those the bundle would have given it. */
  function ConclusionName(n: nat, row: Row, role: Role): Name
    requires IsConclusionRole(role)
  {
    if row == Ours(Own(VerificationRow)) then Own(role)
    else if n >= 2 && row == Ours(Retry(n, VerificationRow)) then Retry(n, role)
    else if row == Ours(Retry(n + 1, ResumeVerificationRow)) then Retry(n + 1, ResumedRole(role))
    else Own(role)
  }

  predicate IsConclusionRole(role: Role) {
    role.CompleteTransition? || role.CompleteOutbox? || role.VerifyCompleteAudit?
  }

  function ResumedRole(role: Role): Role
    requires IsConclusionRole(role)
  {
    if role.CompleteTransition? then ResumeTransition
    else if role.CompleteOutbox? then ResumeOutbox
    else ResumeVerifyComplete
  }

  predicate IsChoice(mode: Mode, choice: Choice) {
    match mode
    case Idle => false
    case Compensating(_) =>
      choice.AnswerApplied? || choice.AnswerUnknown? || choice.AnswerFailed? || choice.AnswerFailedThenRetry?
      || choice.AnswerNeedsVerification?
    case Verifying(_, _) =>
      choice.ConcludeDecided? || choice.ConcludeUnknown? || choice.ConcludeEscalate? || choice.ConcludeRetry?
  }

  function Writes(mode: Mode, choice: Choice): seq<Name>
    requires IsChoice(mode, choice)
  {
    match choice
    case AnswerApplied => [ForAttempt(mode.n, CompleteTransition), ForAttempt(mode.n, EvidenceAudit)]
    case AnswerUnknown =>
      [ForAttempt(mode.n, CompleteTransition), ForAttempt(mode.n, EvidenceAudit), ForAttempt(mode.n, CompleteOutbox)]
    case AnswerFailed => [ForAttempt(mode.n, CompleteTransition), ForAttempt(mode.n, EvidenceAudit)]
    case AnswerFailedThenRetry =>
      [ForAttempt(mode.n, CompleteTransition), ForAttempt(mode.n, EvidenceAudit)] + RetryWrites(mode.n + 1)
    case AnswerNeedsVerification =>
      [ForAttempt(mode.n, EvidenceAudit), ForAttempt(mode.n, VerificationRow), ForAttempt(mode.n, VerifyStartAudit),
       ForAttempt(mode.n, VerifyOutbox)]
    case ConcludeDecided =>
      [ConclusionName(mode.n, mode.row, CompleteTransition),
       ConclusionName(mode.n, mode.row, VerifyCompleteAudit)]
    case ConcludeUnknown =>
      [ConclusionName(mode.n, mode.row, CompleteTransition),
       ConclusionName(mode.n, mode.row, VerifyCompleteAudit),
       ConclusionName(mode.n, mode.row, CompleteOutbox)]
    case ConcludeEscalate => [ConclusionName(mode.n, mode.row, CompleteTransition), Own(ManualAudit)]
    case ConcludeRetry =>
      [ConclusionName(mode.n, mode.row, VerifyCompleteAudit), Retry(mode.n + 1, AttemptRow),
       Retry(mode.n + 1, AttemptAudit), Retry(mode.n + 1, AttemptOutbox)]
  }

  function Then(mode: Mode, choice: Choice): Mode
    requires IsChoice(mode, choice)
  {
    match choice
    case AnswerFailedThenRetry => Compensating(mode.n + 1)
    case AnswerNeedsVerification => Verifying(mode.n, Ours(ForAttempt(mode.n, VerificationRow)))
    case ConcludeRetry => Compensating(mode.n + 1)
    case _ => Idle
  }

  /** All that an invocation writes when its provider, verifier and policy choose like this; the
      choices after its end change nothing. */
  function AllWrites(mode: Mode, choices: seq<Choice>): seq<Name>
    decreases |choices|
  {
    if |choices| == 0 || !IsChoice(mode, choices[0]) then []
    else Writes(mode, choices[0]) + AllWrites(Then(mode, choices[0]), choices[1..])
  }

  // ---------------------------------------------------------------- freshness

  /** Names the rest of the invocation may still write. */
  predicate IsAhead(mode: Mode, name: Name) {
    match mode
    case Idle => false
    case Compensating(n) =>
      || (name.Retry? && name.number > n)
      || (name == ForAttempt(n, name.role) && IsOutcomeRole(name.role))
      || name == Own(ManualAudit)
    case Verifying(n, row) =>
      || (name.Retry? && name.number > n + 1)
      || (name.Retry? && name.number == n + 1 && IsRetriedRole(name.role))
      || name == ConclusionName(n, row, CompleteTransition)
      || name == ConclusionName(n, row, CompleteOutbox)
      || name == ConclusionName(n, row, VerifyCompleteAudit)
      || name == Own(ManualAudit)
  }

  predicate IsOutcomeRole(role: Role) {
    || IsConclusionRole(role) || role.EvidenceAudit?
    || role.VerificationRow? || role.VerifyStartAudit? || role.VerifyOutbox?
  }

  /** Roles of the next bundle that the attempt after a verification uses. */
  predicate IsRetriedRole(role: Role) {
    IsOutcomeRole(role) || role.AttemptRow? || role.AttemptAudit? || role.AttemptOutbox?
  }

  predicate Distinct(names: seq<Name>) {
    forall i, j :: 0 <= i < j < |names| ==> names[i] != names[j]
  }

  lemma WritesAreAhead(mode: Mode, choice: Choice)
    requires IsChoice(mode, choice) && mode.n >= 1
    ensures forall name :: name in Writes(mode, choice) ==> IsAhead(mode, name) && IsIssued(name)
  {
  }

  lemma LessIsAhead(mode: Mode, choice: Choice)
    requires IsChoice(mode, choice) && mode.n >= 1
    ensures forall name :: IsAhead(Then(mode, choice), name) ==> IsAhead(mode, name)
    ensures forall name :: name in Writes(mode, choice) ==> !IsAhead(Then(mode, choice), name)
  {
  }

  lemma OneStepIsFresh(mode: Mode, choice: Choice)
    requires IsChoice(mode, choice) && mode.n >= 1
    ensures Distinct(Writes(mode, choice))
    ensures forall name :: name in Writes(mode, choice) ==> IsAhead(mode, name) && IsIssued(name)
    ensures forall name :: IsAhead(Then(mode, choice), name) ==> IsAhead(mode, name)
    ensures forall name :: name in Writes(mode, choice) ==> !IsAhead(Then(mode, choice), name)
  {
    WritesAreAhead(mode, choice);
    LessIsAhead(mode, choice);
  }

  /** From here on only names ahead are written, each once. */
  lemma {:induction false} RestIsFresh(mode: Mode, choices: seq<Choice>)
    requires mode.Idle? || mode.n >= 1
    ensures Distinct(AllWrites(mode, choices))
    ensures forall name :: name in AllWrites(mode, choices) ==> IsAhead(mode, name) && IsIssued(name)
    decreases |choices|
  {
    if |choices| > 0 && IsChoice(mode, choices[0]) {
      var first, rest := Writes(mode, choices[0]), AllWrites(Then(mode, choices[0]), choices[1..]);
      OneStepIsFresh(mode, choices[0]);
      RestIsFresh(Then(mode, choices[0]), choices[1..]);
      forall i, j | 0 <= i < j < |first + rest| ensures (first + rest)[i] != (first + rest)[j] {
        if i < |first| <= j {
          assert first[i] in first && rest[j - |first|] in rest;
        }
      }
    }
  }

  lemma EntryIsFresh(entry: Entry)
    requires IsEntry(entry)
    ensures Distinct(EntryWrites(entry))
    ensures forall name :: name in EntryWrites(entry) ==> !IsAhead(EntryMode(entry), name) && IsIssued(name)
    ensures EntryMode(entry).Idle? || EntryMode(entry).n >= 1
  {
  }

  /** Whatever way an invocation takes through claims, retries, resumptions and verifications, no
      identifier is written twice, and the retry bundle is never asked for the first attempt. */
  lemma InvocationWritesAreFresh(entry: Entry, choices: seq<Choice>)
    requires IsEntry(entry)
    ensures Distinct(EntryWrites(entry) + AllWrites(EntryMode(entry), choices))
    ensures forall name :: name in EntryWrites(entry) + AllWrites(EntryMode(entry), choices) ==> IsIssued(name)
  {
    EntryIsFresh(entry);
    RestIsFresh(EntryMode(entry), choices);
    var first, rest := EntryWrites(entry), AllWrites(EntryMode(entry), choices);
    forall i, j | 0 <= i < j < |first + rest| ensures (first + rest)[i] != (first + rest)[j] {
      if i < |first| <= j {
        assert first[i] in first && rest[j - |first|] in rest;
      }
    }
  }

  /** A verification asked for by this invocation is concluded under the names of the same bundle:
      those of its attempt, or those of the resumption. */
  lemma ConclusionFollowsItsRequest(mode: Mode, choice: Choice, entry: Entry, role: Role)
    requires IsChoice(mode, choice) && !mode.Idle? && mode.n >= 1 && IsConclusionRole(role)
    ensures Then(mode, choice).Verifying? ==>
              && ConclusionName(mode.n, Then(mode, choice).row, role) == ForAttempt(mode.n, role)
              && Then(mode, choice).n == mode.n
              && ForAttempt(mode.n, VerificationRow) in Writes(mode, choice)
    ensures EntryMode(entry).Verifying? && entry.StartResumption? ==>
              && ConclusionName(entry.n, EntryMode(entry).row, role) == Retry(entry.n + 1, ResumedRole(role))
              && Retry(entry.n + 1, ResumeVerificationRow) in EntryWrites(entry)
  {
  }
}
