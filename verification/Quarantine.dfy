/** Quarantine diagnostics (messaging/codec.py): what is kept of a message that is given up. A
    work message is kept in canonical form, so that it can be replayed; anything else leaves
    only its digest and its size. */
module Quarantine {
  import opened Lifecycle
  import opened Json
  import opened Bytes
  import opened CanonicalText
  import opened JsonReader
  import opened WireObjects
  import opened WireFields
  import opened WorkMessages
  import Base64

  const MAX_DIAGNOSTIC_BYTES: nat := 64 * 1024

  // ---------------------------------------------------------------- writing

  function CommonFields(kind: string, count: int): seq<Field> {
    [ Field("contract_version", JsonString("v1")),
      Field("delivery_count", JsonInt(count)),
      Field("diagnostic_type", JsonString(kind))]
  }

  function MessageIds(m: WorkMessage): seq<Field> {
    [ Field("message_id", JsonString(m.messageId)),
      Field("operation_id", JsonString(m.operationId)),
      Field("outbox_event_id", JsonString(m.outboxEventId))]
  }

  function PayloadFields(digest: string, size: nat, replay: Json): seq<Field> {
    [ Field("payload_sha256", JsonString(digest)),
      Field("payload_size_bytes", JsonInt(size)),
      Field("replay_payload_base64", replay)]
  }

  function PoisonFields(digest: string, size: nat, count: int): seq<Field> {
    CommonFields("POISON_MESSAGE", count) + PayloadFields(digest, size, JsonNull)
  }

  function ExhaustedFields(m: WorkMessage, canonical: seq<byte>, digest: string, count: int): seq<Field> {
    [Field("command", JsonString(WorkText(m.command)))]
    + CommonFields("DELIVERY_EXHAUSTED", count)
    + MessageIds(m)
    + PayloadFields(digest, |canonical|, JsonString(Base64.Encode(canonical, false)))
  }

  /** Integers that the interpreter turns into text. */
  predicate IsWritable(n: int) {
    |Decimal(Magnitude(n))| <= MAX_INT_DIGITS
  }

  /** encode_quarantine_diagnostic. All text in a diagnostic is printable ASCII, so escaping the
      rest changes nothing. None: the interpreter's complaint about a long integer passes through. */
  function EncodeDiagnostic(hash: Digester, payload: seq<byte>, count: int, pads: bool): Option<seq<byte>> {
    match DecodeMessage(payload)
    case Raises => None
    case Refused(_) =>
      if !IsWritable(count) || !IsWritable(|payload|) then None
      else Some(CanonicalBytes(ObjectOf(PoisonFields(hash(payload), |payload|, count))))
    case Message(m) =>
      if !IsWritable(count) then None
      else
        var canonical := EncodeMessage(m, pads);
        Some(CanonicalBytes(ObjectOf(ExhaustedFields(m, canonical, hash(canonical), count))))
  }

  // ---------------------------------------------------------------- reading

  datatype DiagnosticError = OversizeDiagnostic | MalformedDiagnostic | ReplayRefused(error: ContractError)

  datatype Kind = Poison | Exhausted(message: WorkMessage, replay: seq<byte>)

  datatype Diagnosed =
    | Diagnosis(kind: Kind, deliveries: int, digest: string, size: int)
    | DiagnosisRefused(reason: DiagnosticError)
    | DiagnosisRaises

  function PoisonKeys(): set<Key> {
    { TextKey("contract_version"), TextKey("delivery_count"), TextKey("diagnostic_type"),
      TextKey("payload_sha256"), TextKey("payload_size_bytes"), TextKey("replay_payload_base64")}
  }

  function ExhaustedKeys(): set<Key> {
    PoisonKeys()
    + {TextKey("command"), TextKey("message_id"), TextKey("operation_id"), TextKey("outbox_event_id")}
  }

  /** raw.get */
  function At(table: map<Key, Data>, name: string): Option<Data> {
    if TextKey(name) in table then Some(table[TextKey(name)]) else None
  }

  predicate IsIntFrom(data: Option<Data>, minimum: int) {
    data.Some? && data.value.IntData? && data.value.number >= minimum
  }

  /** The checks of decode_quarantine_diagnostic on one read object. */
  function Judge(hash: Digester, table: map<Key, Data>): Diagnosed {
    var kind := At(table, "diagnostic_type");
    var poison := kind == Some(TextData("POISON_MESSAGE"));
    var count, size := At(table, "delivery_count"), At(table, "payload_size_bytes");
    var digest := At(table, "payload_sha256");
    if table.Keys != (if poison then PoisonKeys() else ExhaustedKeys())
       || At(table, "contract_version") != Some(TextData("v1"))
    then DiagnosisRefused(MalformedDiagnostic)
    else if kind.Some? && (kind.value.ListData? || kind.value.DictData?) then DiagnosisRaises
    else if (!poison && kind != Some(TextData("DELIVERY_EXHAUSTED"))) || !IsIntFrom(count, 1)
            || digest.None? || !digest.value.TextData? || !IsDigest(digest.value.text) || !IsIntFrom(size, 0)
    then DiagnosisRefused(MalformedDiagnostic)
    else if poison then
      if At(table, "replay_payload_base64") != Some(NullData) then DiagnosisRefused(MalformedDiagnostic)
      else Diagnosis(Poison, count.value.number, digest.value.text, size.value.number)
    else JudgeReplay(hash, table, count.value.number, digest.value.text, size.value.number)
  }

  /** The replay payload must be what the diagnostic says about it. */
  function JudgeReplay(hash: Digester, table: map<Key, Data>, count: int, digest: string, size: int): Diagnosed {
    var encoded := At(table, "replay_payload_base64");
    if encoded.None? || !encoded.value.TextData? then DiagnosisRefused(MalformedDiagnostic)
    else
      match Base64.Decode(encoded.value.text, false)
      case None => DiagnosisRefused(MalformedDiagnostic)
      case Some(replay) =>
        if |replay| != size || hash(replay) != digest then DiagnosisRefused(MalformedDiagnostic)
        else
          match DecodeMessage(replay)
          case Raises => DiagnosisRaises
          case Refused(error) => DiagnosisRefused(ReplayRefused(error))
          case Message(m) =>
            if Described(table, m) then Diagnosis(Exhausted(m, replay), count, digest, size)
            else DiagnosisRefused(MalformedDiagnostic)
  }

  predicate Described(table: map<Key, Data>, m: WorkMessage) {
    && At(table, "message_id") == Some(TextData(m.messageId))
    && At(table, "outbox_event_id") == Some(TextData(m.outboxEventId))
    && At(table, "operation_id") == Some(TextData(m.operationId))
    && At(table, "command") == Some(TextData(WorkText(m.command)))
  }

  /** decode_quarantine_diagnostic */
  function DecodeDiagnostic(hash: Digester, bytes: seq<byte>): Diagnosed {
    if |bytes| > MAX_DIAGNOSTIC_BYTES then DiagnosisRefused(OversizeDiagnostic)
    else
      match FromAscii(bytes)
      case None => DiagnosisRefused(MalformedDiagnostic)
      case Some(text) =>
        match ReadDocument(text)
        case Malformed => DiagnosisRefused(MalformedDiagnostic)
        case TooManyDigits => DiagnosisRaises
        case Read(value, _) =>
          if !value.PlainDict? then DiagnosisRefused(MalformedDiagnostic)
          else Judge(hash, MeaningOf(value).table)
  }
}
