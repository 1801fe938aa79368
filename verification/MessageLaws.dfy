/** Laws of the work message codec: what is written is read back, and what was accepted can be
    written again within the limits. */
module MessageLaws {
  import opened Lifecycle
  import opened RetrySafety
  import opened Json
  import opened JsonLaws
  import opened Bytes
  import opened CanonicalText
  import opened JsonReader
  import opened ReadingLaws
  import opened ShortestText
  import opened ReadValues
  import opened WireObjects
  import opened Cursor
  import opened WireFields
  import opened WorkMessages

  // ---------------------------------------------------------------- timestamps

  lemma {:induction false} FixedOfDigits(digits: string)
    requires AllDigits(digits)
    ensures Fixed(DecimalValue(digits), |digits|) == digits
    decreases |digits|
  {
    if |digits| > 0 {
      var front := digits[..|digits| - 1];
      FixedOfDigits(front);
      assert DecimalValue(digits) / 10 == DecimalValue(front);
      assert DecimalValue(digits) % 10 == DigitValue(digits[|digits| - 1]);
      assert digits == front + [digits[|digits| - 1]];
    }
  }

  lemma FieldsOfText(text: string, width: nat, separator: char)
    requires |text| == width + 6 && ParseFields(text, width, separator).Some?
    ensures var (a, b, c) := ParseFields(text, width, separator).value;
      text == Fixed(a, width) + ([separator] + Fixed(b, 2) + ([separator] + Fixed(c, 2)))
  {
    FixedOfDigits(text[..width]);
    FixedOfDigits(text[width + 1..width + 3]);
    FixedOfDigits(text[width + 4..]);
  }

  lemma StampSplits(text: string)
    requires |text| == 27
    ensures text == text[..10] + (text[10..11] + text[11..19]) + (text[19..20] + text[20..26] + text[26..])
  {
  }

  /** Every timestamp has one wire text. */
  lemma StampTextIsCanonical(text: string)
    requires ParseStamp(text).Some?
    ensures StampText(ParseStamp(text).value) == text
  {
    var date, time, micros := text[..10], text[11..19], text[20..26];
    StampSplits(text);
    FieldsOfText(date, 4, '-');
    FieldsOfText(time, 2, ':');
    FixedOfDigits(micros);
    assert text[10..11] == "T" && text[19..20] == "." && text[26..] == "Z";
  }

  // ---------------------------------------------------------------- the object on the wire

  function Names(): seq<string> {
    [ "command", "contract_version", "correlation_id", "created_at",
      "expected_operation_version", "message_id", "operation_id", "outbox_event_id"]
  }

  lemma NamesAscend()
    ensures forall k :: 0 <= k < 7 ==> Below(Names()[k], Names()[k + 1])
  {
    BelowAt("command", "contract_version", 2);
    BelowAt("contract_version", "correlation_id", 2);
    BelowAt("correlation_id", "created_at", 1);
    BelowAt("created_at", "expected_operation_version", 0);
    BelowAt("expected_operation_version", "message_id", 0);
    BelowAt("message_id", "operation_id", 0);
    BelowAt("operation_id", "outbox_event_id", 1);
  }

  lemma FieldsAreNamed(m: WorkMessage, pads: bool)
    ensures |MessageFields(m, pads)| == 8
    ensures forall k :: 0 <= k < 8 ==> MessageFields(m, pads)[k].name == Names()[k] != ""
    ensures forall k :: 0 <= k < 8 ==> IsCanonical(MessageFields(m, pads)[k].content)
  {
  }

  lemma AscendingByName(fields: seq<Field>)
    requires |fields| == 8 && forall k :: 0 <= k < 8 ==> fields[k].name == Names()[k] != ""
    requires forall k :: 0 <= k < 8 ==> IsCanonical(fields[k].content)
    ensures Ascending(fields)
  {
    NamesAscend();
    AscendingByNeighbours(fields);
  }

  lemma FieldsAscend(m: WorkMessage, pads: bool)
    ensures Ascending(MessageFields(m, pads))
  {
    FieldsAreNamed(m, pads);
    AscendingByName(MessageFields(m, pads));
  }

  /** What from_wire finds under each key. */
  ghost predicate Wired(table: map<Key, Data>, m: WorkMessage, pads: bool) {
    && table.Keys == FieldKeys()
    && FirstWired(table, m, pads)
    && LastWired(table, m)
  }

  ghost predicate FirstWired(table: map<Key, Data>, m: WorkMessage, pads: bool)
    requires table.Keys == FieldKeys()
  {
    && table[TextKey("command")] == TextData(WorkText(m.command))
    && table[TextKey("contract_version")] == TextData("v1")
    && table[TextKey("correlation_id")] == MeaningOfJson(OptionalText(m.correlationId))
    && table[TextKey("created_at")] == TextData(WireStamp(m.createdAt, pads))
  }

  ghost predicate LastWired(table: map<Key, Data>, m: WorkMessage)
    requires table.Keys == FieldKeys()
  {
    && table[TextKey("expected_operation_version")] == IntData(m.expectedVersion)
    && table[TextKey("message_id")] == TextData(m.messageId)
    && table[TextKey("operation_id")] == TextData(m.operationId)
    && table[TextKey("outbox_event_id")] == TextData(m.outboxEventId)
  }

  lemma KeysOfMessage(m: WorkMessage, pads: bool)
    ensures KeysOf(MessageFields(m, pads)) == FieldKeys()
  {
    var fields := MessageFields(m, pads);
    forall key | key in FieldKeys() ensures key in KeysOf(fields) {
      var i := if key == TextKey("command") then 0
        else if key == TextKey("contract_version") then 1
        else if key == TextKey("correlation_id") then 2
        else if key == TextKey("created_at") then 3
        else if key == TextKey("expected_operation_version") then 4
        else if key == TextKey("message_id") then 5
        else if key == TextKey("operation_id") then 6
        else 7;
      assert key == TextKey(fields[i].name);
    }
  }

  lemma FirstWiredIff(table: map<Key, Data>, m: WorkMessage, pads: bool)
    requires table.Keys == FieldKeys()
    ensures FirstWired(table, m, pads) <==> forall i :: 0 <= i < 4 ==> Holds(table, MessageFields(m, pads)[i])
  {
    var fields := MessageFields(m, pads);
    assert (forall i :: 0 <= i < 4 ==> Holds(table, fields[i]))
        <==> Holds(table, fields[0]) && Holds(table, fields[1]) && Holds(table, fields[2]) && Holds(table, fields[3]);
  }

  lemma LastWiredIff(table: map<Key, Data>, m: WorkMessage, pads: bool)
    requires table.Keys == FieldKeys()
    ensures LastWired(table, m) <==> forall i :: 4 <= i < 8 ==> Holds(table, MessageFields(m, pads)[i])
  {
    var fields := MessageFields(m, pads);
    assert (forall i :: 4 <= i < 8 ==> Holds(table, fields[i]))
        <==> Holds(table, fields[4]) && Holds(table, fields[5]) && Holds(table, fields[6]) && Holds(table, fields[7]);
  }

  lemma TableInHalves(table: map<Key, Data>, fields: seq<Field>)
    requires |fields| == 8
    ensures TableIs(table, fields)
        <==> && table.Keys == KeysOf(fields)
             && (forall i :: 0 <= i < 4 ==> Holds(table, fields[i]))
             && (forall i :: 4 <= i < 8 ==> Holds(table, fields[i]))
  {
    AllHoldIff(table, fields);
  }

  lemma WiredIff(table: map<Key, Data>, m: WorkMessage, pads: bool)
    ensures Wired(table, m, pads) <==> TableIs(table, MessageFields(m, pads))
  {
    KeysOfMessage(m, pads);
    TableInHalves(table, MessageFields(m, pads));
    if table.Keys == FieldKeys() {
      FirstWiredIff(table, m, pads);
      LastWiredIff(table, m, pads);
    }
  }

  lemma WorkRoundTrip(work: Work)
    ensures AsWork(TextData(WorkText(work))) == Good(work)
  {
  }

  /** from_wire inverts to_wire, except for a year that was written with fewer than four digits. */
  lemma FromWireInvertsToWire(m: WorkMessage, table: map<Key, Data>, pads: bool)
    requires IsMessage(m) && Wired(table, m, pads)
    ensures FromWire(DictData(table)) == (if Readable(m.createdAt, pads) then Good(m) else Bad(InvalidTimestamp))
  {
    WorkRoundTrip(m.command);
    if Readable(m.createdAt, pads) {
      StampRoundTrip(m.createdAt);
    } else {
      StampIsShort(m.createdAt);
    }
  }

  lemma AcceptedFields(table: map<Key, Data>)
    requires FromWire(DictData(table)).Good?
    ensures var m := FromWire(DictData(table)).value;
      && IsMessage(m)
      && FieldKeys() - {TextKey("correlation_id")} <= table.Keys <= FieldKeys()
      && (m.correlationId.Some? ==>
            && table.Keys == FieldKeys()
            && table[TextKey("correlation_id")] == TextData(m.correlationId.value)
            && LastWired(table, m))
      && table[TextKey("expected_operation_version")] == IntData(m.expectedVersion)
  {
  }

  lemma AcceptedTexts(table: map<Key, Data>)
    requires FromWire(DictData(table)).Good?
    ensures var m := FromWire(DictData(table)).value;
      && TextKey("command") in table && table[TextKey("command")] == TextData(WorkText(m.command))
      && TextKey("contract_version") in table && table[TextKey("contract_version")] == TextData("v1")
      && TextKey("created_at") in table && table[TextKey("created_at")] == TextData(StampText(m.createdAt))
  {
    StampTextIsCanonical(table[TextKey("created_at")].text);
  }

  /** What from_wire accepts is the wire form of its message, up to a missing correlation. */
  lemma AcceptedIsWired(table: map<Key, Data>)
    requires FromWire(DictData(table)).Good? && FromWire(DictData(table)).value.correlationId.Some?
    ensures Wired(table, FromWire(DictData(table)).value, true)
  {
    AcceptedFields(table);
    AcceptedTexts(table);
  }

  // ---------------------------------------------------------------- round trip

  predicate VersionFits(m: WorkMessage) {
    |Decimal(Magnitude(m.expectedVersion))| <= MAX_INT_DIGITS
  }

  lemma FieldIntsFit(m: WorkMessage, pads: bool)
    requires VersionFits(m)
    ensures forall k :: 0 <= k < 8 ==> IntsFit(MessageFields(m, pads)[k].content)
  {
  }

  lemma MessageIsRead(m: WorkMessage, pads: bool)
    requires VersionFits(m)
    ensures var value := ObjectOf(MessageFields(m, pads));
      && FromUtf8(EncodeMessage(m, pads)) == Some(Text(value))
      && ReadDocument(Text(value)) == Read(ToPlain(value), "")
      && ToPlain(value).PlainDict?
      && Wired(MeaningOf(ToPlain(value)).table, m, pads)
  {
    FieldsAscend(m, pads);
    FieldIntsFit(m, pads);
    ObjectIsRead(MessageFields(m, pads));
    WiredIff(MeaningOf(ToPlain(ObjectOf(MessageFields(m, pads)))).table, m, pads);
  }

  /** decode_work_message inverts encode_work_message within the size limit, except for a year
      that was written with fewer than four digits. */
  lemma MessageRoundTrip(m: WorkMessage, pads: bool)
    requires IsMessage(m) && VersionFits(m)
    ensures DecodeMessage(EncodeMessage(m, pads))
         == if |EncodeMessage(m, pads)| > MAX_MESSAGE_BYTES then Refused(OversizeMessage)
            else if Readable(m.createdAt, pads) then Message(m)
            else Refused(InvalidTimestamp)
  {
    MessageIsRead(m, pads);
    FromWireInvertsToWire(m, MeaningOf(ToPlain(ObjectOf(MessageFields(m, pads)))).table, pads);
  }

  // ---------------------------------------------------------------- size

  lemma StampIsPlainText(s: Stamp, pads: bool)
    requires IsStamp(s)
    ensures IsPlainText(WireStamp(s, pads)) && |WireStamp(s, pads)| <= 27
  {
    if !Readable(s, pads) {
      DecimalRoundTrip(s.year);
      StampIsShort(s);
    }
  }

  lemma UnpaddedFields(m: WorkMessage)
    ensures MessageFields(m, false)
         == MessageFields(m, true)[3 := Field("created_at", JsonString(WireStamp(m.createdAt, false)))]
  {
  }

  lemma ShorterTextIsShorter(fields: seq<Field>, i: nat, text: string)
    requires i < |fields| && fields[i].content.JsonString?
    requires IsPlainText(text) && IsPlainText(fields[i].content.text) && |text| <= |fields[i].content.text|
    ensures |CanonicalBytes(ObjectOf(fields[i := Field(fields[i].name, JsonString(text))]))|
         <= |CanonicalBytes(ObjectOf(fields))|
  {
    PlainTextIsItself(text);
    PlainTextIsItself(fields[i].content.text);
    SizeOfUpdate(fields, i, Field(fields[i].name, JsonString(text)));
  }

  lemma UnpaddedIsShorter(m: WorkMessage)
    requires IsMessage(m)
    ensures |EncodeMessage(m, false)| <= |EncodeMessage(m, true)|
  {
    StampIsPlainText(m.createdAt, true);
    StampIsPlainText(m.createdAt, false);
    UnpaddedFields(m);
    ShorterTextIsShorter(MessageFields(m, true), 3, WireStamp(m.createdAt, false));
  }

  lemma PairIsBounded(name: string, content: Json)
    requires |name| <= 26
    requires content.JsonNull? || (content.JsonString? && |content.text| <= 36)
    ensures PairCost(name, content) <= 380
  {
    QuotedIsBounded(name);
    if content.JsonString? {
      QuotedIsBounded(content.text);
    } else {
      SizeOfAscii("null");
    }
  }

  lemma OthersAreBounded(m: WorkMessage, pads: bool)
    requires IsMessage(m) && m.correlationId.None?
    ensures var fields := MessageFields(m, pads);
      forall k :: 0 <= k < |fields| && k != 4 ==> PairCost(fields[k].name, fields[k].content) <= 380
  {
    var fields := MessageFields(m, pads);
    StampIsPlainText(m.createdAt, pads);
    forall k | 0 <= k < |fields| && k != 4 ensures PairCost(fields[k].name, fields[k].content) <= 380 {
      PairIsBounded(fields[k].name, fields[k].content);
    }
  }

  lemma VersionCost(m: WorkMessage, pads: bool)
    requires VersionFits(m)
    ensures PairCost(MessageFields(m, pads)[4].name, MessageFields(m, pads)[4].content)
         <= 160 + MAX_INT_DIGITS + 3
  {
    QuotedIsBounded("expected_operation_version");
    SizeOfInt(m.expectedVersion);
  }

  /** Without a correlation everything but the version is short. */
  lemma UncorrelatedIsShort(m: WorkMessage, pads: bool)
    requires IsMessage(m) && VersionFits(m) && m.correlationId.None?
    ensures |EncodeMessage(m, pads)| <= MAX_MESSAGE_BYTES
  {
    OthersAreBounded(m, pads);
    VersionCost(m, pads);
    SizeIsBounded(MessageFields(m, pads), 4, 380);
  }

  /** What was accepted can be written within the limit: its canonical form takes no more bytes
      than the payload, or it is short anyway. */
  lemma AcceptedFits(payload: seq<byte>, pads: bool)
    requires DecodeMessage(payload).Message?
    ensures IsMessage(DecodeMessage(payload).message) && VersionFits(DecodeMessage(payload).message)
    ensures |EncodeMessage(DecodeMessage(payload).message, pads)| <= MAX_MESSAGE_BYTES
  {
    var m, text := DecodeMessage(payload).message, FromUtf8(payload).value;
    var value := ReadDocument(text).value;
    var table := MeaningOf(value).table;
    AcceptedFields(table);
    ReadsPlain(SkipSpace(text));
    IntUnderKeyFits(value.entries, TextKey("expected_operation_version"));
    if m.correlationId.Some? {
      AcceptedIsWired(table);
      FieldsAscend(m, true);
      WiredIff(table, m, true);
      TableIdentifiesObject(value, MessageFields(m, true));
      CanonicalIsShortest(text);
      Utf8IsCanonical(payload);
      UnpaddedIsShorter(m);
    } else {
      UncorrelatedIsShort(m, pads);
    }
  }
}
