/** Work messages on the wire (messaging/codec.py and domain/messaging.py). */
module WorkMessages {
  import opened Lifecycle
  import opened Json
  import opened Bytes
  import opened CanonicalText
  import opened JsonReader
  import opened WireObjects
  import opened Cursor
  import opened WireFields
  import Outbox

  type Work = Outbox.Work

  const MAX_MESSAGE_BYTES: nat := 16 * 1024

  datatype WorkMessage = WorkMessage(
    messageId: string,
    outboxEventId: string,
    operationId: string,
    expectedVersion: int,
    command: Work,
    correlationId: Option<string>,
    createdAt: Stamp)

  predicate IsMessage(m: WorkMessage) {
    && IsOpaqueId(m.messageId) && IsOpaqueId(m.outboxEventId) && IsOpaqueId(m.operationId)
    && m.expectedVersion >= 1
    && (m.correlationId.Some? ==> m.correlationId.value != "")
    && IsStamp(m.createdAt)
  }

  // ---------------------------------------------------------------- writing

  function WorkText(work: Work): string {
    match work
    case ExecuteWork => "EXECUTE"
    case VerifyWork => "VERIFY"
    case CompensateWork => "COMPENSATE"
  }

  /** WorkMessageV1.to_wire, in key order. */
  function MessageFields(m: WorkMessage, pads: bool): seq<Field> {
    [ Field("command", JsonString(WorkText(m.command))),
      Field("contract_version", JsonString("v1")),
      Field("correlation_id", OptionalText(m.correlationId)),
      Field("created_at", JsonString(WireStamp(m.createdAt, pads))),
      Field("expected_operation_version", JsonInt(m.expectedVersion)),
      Field("message_id", JsonString(m.messageId)),
      Field("operation_id", JsonString(m.operationId)),
      Field("outbox_event_id", JsonString(m.outboxEventId))]
  }

  /** encode_work_message */
  function EncodeMessage(m: WorkMessage, pads: bool): seq<byte> {
    CanonicalBytes(ObjectOf(MessageFields(m, pads)))
  }

  // ---------------------------------------------------------------- reading

  function FieldKeys(): set<Key> {
    { TextKey("command"), TextKey("contract_version"), TextKey("correlation_id"), TextKey("created_at"),
      TextKey("expected_operation_version"), TextKey("message_id"), TextKey("operation_id"),
      TextKey("outbox_event_id")}
  }

  /** parse_contract_version */
  function CheckVersion(data: Data): Checked<string> {
    var text :- AsNonEmptyText(data);
    if text == "v1" then Good(text) else Bad(UnsupportedVersion)
  }

  /** OpaqueId.from_wire */
  function AsId(data: Data): (id: Checked<string>)
    ensures id.Good? ==> data == TextData(id.value) && IsOpaqueId(id.value)
  {
    var text :- AsText(data);
    if IsOpaqueId(text) then Good(text) else Bad(InvalidOpaqueId)
  }

  /** parse_enum */
  function AsWork(data: Data): Checked<Work> {
    var text :- AsText(data);
    if text == "EXECUTE" then Good(Outbox.ExecuteWork)
    else if text == "VERIFY" then Good(Outbox.VerifyWork)
    else if text == "COMPENSATE" then Good(Outbox.CompensateWork)
    else Bad(UnknownEnum)
  }

  /** WorkMessageV1.from_wire */
  function FromWire(data: Data): Checked<WorkMessage> {
    var table :- Mapping(data, FieldKeys());
    var version :- Required(table, "contract_version");
    var _ :- CheckVersion(version);
    var rawMessageId :- Required(table, "message_id");
    var messageId :- AsId(rawMessageId);
    var rawEventId :- Required(table, "outbox_event_id");
    var eventId :- AsId(rawEventId);
    var rawOperationId :- Required(table, "operation_id");
    var operationId :- AsId(rawOperationId);
    var rawExpected :- Required(table, "expected_operation_version");
    var expected :- AsCount(rawExpected);
    var rawCommand :- Required(table, "command");
    var command :- AsWork(rawCommand);
    var correlation :- OptionalUnder(table, "correlation_id");
    var rawCreatedAt :- Required(table, "created_at");
    var createdAt :- AsStamp(rawCreatedAt);
    Good(WorkMessage(messageId, eventId, operationId, expected, command, correlation, createdAt))
  }

  /** A message, a refusal, or the interpreter's own complaint about a long integer, which is
      not a refusal and reaches the caller. */
  datatype Decoded = Message(message: WorkMessage) | Refused(error: ContractError) | Raises

  /** decode_work_message */
  function DecodeMessage(payload: seq<byte>): Decoded {
    if |payload| > MAX_MESSAGE_BYTES then Refused(OversizeMessage)
    else
      match FromUtf8(payload)
      case None => Refused(MalformedMessage)
      case Some(text) =>
        match ReadDocument(text)
        case Malformed => Refused(MalformedMessage)
        case TooManyDigits => Raises
        case Read(value, _) =>
          match FromWire(MeaningOf(value))
          case Bad(error) => Refused(error)
          case Good(message) => Message(message)
  }
}
