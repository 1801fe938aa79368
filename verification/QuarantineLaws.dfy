/** The quarantine codec keeps what it has to keep: a message that is given up can be read back
    and replayed, anything else is known by its digest, and no diagnostic is too large. */
module QuarantineLaws {
  import opened Lifecycle
  import opened RetrySafety
  import opened Json
  import opened JsonLaws
  import opened Bytes
  import opened CanonicalText
  import opened JsonReader
  import opened ReadingLaws
  import opened ShortestText
  import opened WireObjects
  import opened Cursor
  import opened WireFields
  import opened WorkMessages
  import opened MessageLaws
  import opened Quarantine
  import Base64

  /** A count that the interpreter turns into text. */
  predicate IsCounter(n: int) {
    n >= 0 && IsWritable(n)
  }

  // ---------------------------------------------------------------- plain text

  lemma {:induction false} EncodedIsPlain(bytes: seq<byte>)
    ensures IsPlainText(Base64.Encode(bytes, false))
    decreases |bytes|
  {
    if |bytes| > 2 {
      EncodedIsPlain(bytes[3..]);
    }
  }

  lemma WordsArePlain(work: Work)
    ensures IsPlainText(WorkText(work)) && IsPlainText("command")
  {
  }

  lemma KindsArePlain()
    ensures IsPlainText("POISON_MESSAGE") && IsPlainText("DELIVERY_EXHAUSTED")
  {
  }

  lemma CommonNamesArePlain()
    ensures IsPlainText("contract_version") && IsPlainText("delivery_count") && IsPlainText("diagnostic_type")
    ensures IsPlainText("v1")
  {
  }

  lemma CommonIsPlain(kind: string, count: int)
    requires IsPlainText(kind)
    ensures ArePlainFields(CommonFields(kind, count))
  {
    CommonNamesArePlain();
  }

  lemma IdIsPlain(id: string)
    requires IsOpaqueId(id)
    ensures IsPlainText(id)
  {
  }

  lemma IdsArePlain(m: WorkMessage)
    requires IsMessage(m)
    ensures ArePlainFields(MessageIds(m))
  {
    IdIsPlain(m.messageId);
    IdIsPlain(m.operationId);
    IdIsPlain(m.outboxEventId);
  }

  lemma DigestIsPlain(digest: string)
    requires IsDigest(digest)
    ensures IsPlainText(digest)
  {
  }

  lemma PayloadIsPlain(digest: string, size: nat, replay: Json)
    requires IsDigest(digest) && (replay.JsonNull? || (replay.JsonString? && IsPlainText(replay.text)))
    ensures ArePlainFields(PayloadFields(digest, size, replay))
  {
    DigestIsPlain(digest);
  }

  // ---------------------------------------------------------------- key order

  lemma CommonAscends(kind: string, count: int)
    ensures Ascending(CommonFields(kind, count))
  {
    BelowAt("contract_version", "delivery_count", 0);
    BelowAt("delivery_count", "diagnostic_type", 1);
    AscendingByNeighbours(CommonFields(kind, count));
  }

  lemma IdsAscend(m: WorkMessage)
    ensures Ascending(MessageIds(m))
  {
    BelowAt("message_id", "operation_id", 0);
    BelowAt("operation_id", "outbox_event_id", 1);
    AscendingByNeighbours(MessageIds(m));
  }

  lemma PayloadNamesAscend()
    ensures Below("payload_sha256", "payload_size_bytes")
    ensures Below("payload_size_bytes", "replay_payload_base64")
  {
    BelowAt("payload_sha256", "payload_size_bytes", 9);
    BelowAt("payload_size_bytes", "replay_payload_base64", 0);
  }

  lemma PayloadAscends(digest: string, size: nat, replay: Json)
    requires IsCanonical(replay)
    ensures Ascending(PayloadFields(digest, size, replay))
  {
    PayloadNamesAscend();
    ThreeAscend(Field("payload_sha256", JsonString(digest)), Field("payload_size_bytes", JsonInt(size)),
                Field("replay_payload_base64", replay));
  }

  lemma PoisonAscends(digest: string, size: nat, count: int)
    ensures Ascending(PoisonFields(digest, size, count))
  {
    CommonAscends("POISON_MESSAGE", count);
    PayloadAscends(digest, size, JsonNull);
    BelowAt("diagnostic_type", "payload_sha256", 0);
    AscendingParts(CommonFields("POISON_MESSAGE", count), PayloadFields(digest, size, JsonNull));
  }

  lemma PartNamesAscend()
    ensures Below("command", "contract_version")
    ensures Below("diagnostic_type", "message_id")
    ensures Below("outbox_event_id", "payload_sha256")
  {
    BelowAt("command", "contract_version", 2);
    BelowAt("diagnostic_type", "message_id", 0);
    BelowAt("outbox_event_id", "payload_sha256", 0);
  }

  lemma FourPartsAscend(first: Field, common: seq<Field>, ids: seq<Field>, payload: seq<Field>)
    requires Ascending([first]) && Ascending(common) && Ascending(ids) && Ascending(payload)
    requires |common| > 0 && |ids| > 0 && |payload| > 0
    requires Below(first.name, common[0].name) && Below(common[|common| - 1].name, ids[0].name)
    requires Below(ids[|ids| - 1].name, payload[0].name)
    ensures Ascending([first] + common + ids + payload)
  {
    AscendingParts([first], common);
    AscendingParts([first] + common, ids);
    AscendingParts([first] + common + ids, payload);
  }

  lemma ExhaustedAscends(m: WorkMessage, canonical: seq<byte>, digest: string, count: int)
    ensures Ascending(ExhaustedFields(m, canonical, digest, count))
  {
    var replay := JsonString(Base64.Encode(canonical, false));
    CommonAscends("DELIVERY_EXHAUSTED", count);
    IdsAscend(m);
    PayloadAscends(digest, |canonical|, replay);
    PartNamesAscend();
    FourPartsAscend(
      Field("command", JsonString(WorkText(m.command))), CommonFields("DELIVERY_EXHAUSTED", count), MessageIds(m),
      PayloadFields(digest, |canonical|, replay));
  }

  // ---------------------------------------------------------------- what is found under the keys

  lemma ThreeHold(table: map<Key, Data>, a: Field, b: Field, c: Field)
    requires AllHold(table, [a, b, c])
    ensures At(table, a.name) == Some(MeaningOfJson(a.content))
    ensures At(table, b.name) == Some(MeaningOfJson(b.content))
    ensures At(table, c.name) == Some(MeaningOfJson(c.content))
  {
    assert [a, b, c][1..] == [b, c] && [b, c][1..] == [c];
    assert AllHold(table, [b, c]) && AllHold(table, [c]);
  }

  ghost predicate Labelled(table: map<Key, Data>, kind: string, count: int) {
    && At(table, "contract_version") == Some(TextData("v1"))
    && At(table, "delivery_count") == Some(IntData(count))
    && At(table, "diagnostic_type") == Some(TextData(kind))
  }

  ghost predicate Sized(table: map<Key, Data>, digest: string, size: nat, replay: Data) {
    && At(table, "payload_sha256") == Some(TextData(digest))
    && At(table, "payload_size_bytes") == Some(IntData(size))
    && At(table, "replay_payload_base64") == Some(replay)
  }

  lemma CommonMean(table: map<Key, Data>, kind: string, count: int)
    requires AllHold(table, CommonFields(kind, count))
    ensures Labelled(table, kind, count)
  {
    ThreeHold(table, Field("contract_version", JsonString("v1")), Field("delivery_count", JsonInt(count)),
              Field("diagnostic_type", JsonString(kind)));
  }

  lemma PayloadMeans(table: map<Key, Data>, digest: string, size: nat, replay: Json)
    requires AllHold(table, PayloadFields(digest, size, replay))
    ensures Sized(table, digest, size, MeaningOfJson(replay))
  {
    ThreeHold(table, Field("payload_sha256", JsonString(digest)), Field("payload_size_bytes", JsonInt(size)),
              Field("replay_payload_base64", replay));
  }

  lemma DescriptionMeans(table: map<Key, Data>, m: WorkMessage)
    requires AllHold(table, MessageIds(m)) && AllHold(table, [Field("command", JsonString(WorkText(m.command)))])
    ensures Described(table, m)
  {
    ThreeHold(table, Field("message_id", JsonString(m.messageId)), Field("operation_id", JsonString(m.operationId)),
              Field("outbox_event_id", JsonString(m.outboxEventId)));
    assert Holds(table, Field("command", JsonString(WorkText(m.command))));
  }

  lemma PoisonTable(table: map<Key, Data>, digest: string, size: nat, count: int)
    requires TableIs(table, PoisonFields(digest, size, count))
    ensures table.Keys == PoisonKeys()
    ensures Labelled(table, "POISON_MESSAGE", count) && Sized(table, digest, size, NullData)
  {
    var common, payload := CommonFields("POISON_MESSAGE", count), PayloadFields(digest, size, JsonNull);
    PartsHold(table, common, payload);
    CommonMean(table, "POISON_MESSAGE", count);
    PayloadMeans(table, digest, size, JsonNull);
    KeysOfParts(common, payload);
    KeysOfThree(common[0], common[1], common[2]);
    KeysOfThree(payload[0], payload[1], payload[2]);
  }

  lemma FourPartsHold(
    table: map<Key, Data>, first: seq<Field>, common: seq<Field>, ids: seq<Field>, payload: seq<Field>)
    requires AllHold(table, first + common + ids + payload)
    ensures AllHold(table, first) && AllHold(table, common) && AllHold(table, ids) && AllHold(table, payload)
  {
    PartsHold(table, first + common + ids, payload);
    PartsHold(table, first + common, ids);
    PartsHold(table, first, common);
  }

  lemma KeysOfFourParts(first: seq<Field>, common: seq<Field>, ids: seq<Field>, payload: seq<Field>)
    ensures KeysOf(first + common + ids + payload) == KeysOf(first) + KeysOf(common) + KeysOf(ids) + KeysOf(payload)
  {
    KeysOfParts(first + common + ids, payload);
    KeysOfParts(first + common, ids);
    KeysOfParts(first, common);
  }

  lemma ExhaustedKeysAreParts(m: WorkMessage, digest: string, size: nat, replay: Json, count: int)
    ensures KeysOf([Field("command", JsonString(WorkText(m.command)))])
            + KeysOf(CommonFields("DELIVERY_EXHAUSTED", count))
            + KeysOf(MessageIds(m)) + KeysOf(PayloadFields(digest, size, replay))
         == ExhaustedKeys()
  {
    var first := [Field("command", JsonString(WorkText(m.command)))];
    var common, ids := CommonFields("DELIVERY_EXHAUSTED", count), MessageIds(m);
    var payload := PayloadFields(digest, size, replay);
    assert TextKey(first[0].name) in KeysOf(first);
    KeysOfThree(common[0], common[1], common[2]);
    KeysOfThree(ids[0], ids[1], ids[2]);
    KeysOfThree(payload[0], payload[1], payload[2]);
  }

  lemma KeysOfExhausted(m: WorkMessage, canonical: seq<byte>, digest: string, count: int)
    ensures KeysOf(ExhaustedFields(m, canonical, digest, count)) == ExhaustedKeys()
  {
    var replay := JsonString(Base64.Encode(canonical, false));
    KeysOfFourParts([Field("command", JsonString(WorkText(m.command)))], CommonFields("DELIVERY_EXHAUSTED", count),
                    MessageIds(m), PayloadFields(digest, |canonical|, replay));
    ExhaustedKeysAreParts(m, digest, |canonical|, replay, count);
  }

  lemma ExhaustedParts(table: map<Key, Data>, m: WorkMessage, canonical: seq<byte>, digest: string, count: int)
    requires AllHold(table, ExhaustedFields(m, canonical, digest, count))
    ensures AllHold(table, [Field("command", JsonString(WorkText(m.command)))])
    ensures AllHold(table, CommonFields("DELIVERY_EXHAUSTED", count)) && AllHold(table, MessageIds(m))
    ensures AllHold(table, PayloadFields(digest, |canonical|, JsonString(Base64.Encode(canonical, false))))
  {
    FourPartsHold(table, [Field("command", JsonString(WorkText(m.command)))],
                  CommonFields("DELIVERY_EXHAUSTED", count), MessageIds(m),
                  PayloadFields(digest, |canonical|, JsonString(Base64.Encode(canonical, false))));
  }

  lemma ExhaustedIsLabelled(table: map<Key, Data>, m: WorkMessage, canonical: seq<byte>, digest: string, count: int)
    requires AllHold(table, ExhaustedFields(m, canonical, digest, count))
    ensures Labelled(table, "DELIVERY_EXHAUSTED", count)
  {
    ExhaustedParts(table, m, canonical, digest, count);
    CommonMean(table, "DELIVERY_EXHAUSTED", count);
  }

  lemma ExhaustedIsSized(table: map<Key, Data>, m: WorkMessage, canonical: seq<byte>, digest: string, count: int)
    requires AllHold(table, ExhaustedFields(m, canonical, digest, count))
    ensures Sized(table, digest, |canonical|, TextData(Base64.Encode(canonical, false)))
  {
    ExhaustedParts(table, m, canonical, digest, count);
    PayloadMeans(table, digest, |canonical|, JsonString(Base64.Encode(canonical, false)));
  }

  lemma ExhaustedIsDescribed(table: map<Key, Data>, m: WorkMessage, canonical: seq<byte>, digest: string, count: int)
    requires AllHold(table, ExhaustedFields(m, canonical, digest, count))
    ensures Described(table, m)
  {
    ExhaustedParts(table, m, canonical, digest, count);
    DescriptionMeans(table, m);
  }

  // ---------------------------------------------------------------- judging

  lemma PoisonIsJudged(hash: Digester, table: map<Key, Data>, digest: string, size: nat, count: int)
    requires table.Keys == PoisonKeys() && IsDigest(digest) && count >= 1
    requires Labelled(table, "POISON_MESSAGE", count) && Sized(table, digest, size, NullData)
    ensures Judge(hash, table) == Diagnosis(Poison, count, digest, size)
  {
  }

  lemma ReplayIsJudged(hash: Digester, table: map<Key, Data>, m: WorkMessage, canonical: seq<byte>, count: int)
    requires Described(table, m)
    requires At(table, "replay_payload_base64") == Some(TextData(Base64.Encode(canonical, false)))
    ensures var judged := JudgeReplay(hash, table, count, hash(canonical), |canonical|);
      && (DecodeMessage(canonical) == Message(m) ==>
            judged == Diagnosis(Exhausted(m, canonical), count, hash(canonical), |canonical|))
      && (DecodeMessage(canonical).Refused? ==>
            judged == DiagnosisRefused(ReplayRefused(DecodeMessage(canonical).error)))
  {
    Base64.DecodeInvertsEncode(canonical, false);
  }

  lemma ExhaustedIsJudged(hash: Digester, table: map<Key, Data>, digest: string, size: nat, replay: Data, count: int)
    requires table.Keys == ExhaustedKeys() && IsDigest(digest) && count >= 1
    requires Labelled(table, "DELIVERY_EXHAUSTED", count) && Sized(table, digest, size, replay)
    ensures Judge(hash, table) == JudgeReplay(hash, table, count, digest, size)
  {
    assert |"DELIVERY_EXHAUSTED"| == 18 && |"POISON_MESSAGE"| == 14;
  }

  // ---------------------------------------------------------------- size

  lemma ShortField(name: string, content: Json)
    requires |name| <= 26
    requires content.JsonNull? || (content.JsonString? && |content.text| <= 64)
          || (content.JsonInt? && IsCounter(content.number))
    ensures PairCost(name, content) <= 4500
  {
    QuotedIsBounded(name);
    match content
    case JsonString(text) => QuotedIsBounded(text);
    case JsonInt(number) => SizeOfInt(number);
    case _ => SizeOfAscii("null");
  }

  lemma CommonCost(kind: string, count: int)
    requires |kind| <= 64 && IsCounter(count)
    ensures FieldsCost(CommonFields(kind, count)) <= 3 * 4500
  {
    var fields := CommonFields(kind, count);
    forall i | 0 <= i < 3 ensures PairCost(fields[i].name, fields[i].content) <= 4500 {
      ShortField(fields[i].name, fields[i].content);
    }
    CostIsBounded(fields, 4500);
  }

  lemma IdsCost(m: WorkMessage)
    requires IsMessage(m)
    ensures FieldsCost(MessageIds(m)) <= 3 * 4500
  {
    var fields := MessageIds(m);
    forall i | 0 <= i < 3 ensures PairCost(fields[i].name, fields[i].content) <= 4500 {
      ShortField(fields[i].name, fields[i].content);
    }
    CostIsBounded(fields, 4500);
  }

  lemma PayloadCost(digest: string, size: nat, replay: Json)
    requires IsDigest(digest) && IsCounter(size)
    ensures FieldsCost(PayloadFields(digest, size, replay)) <= 2 * 4500 + 150 + Size(Text(replay))
  {
    ShortField("payload_sha256", JsonString(digest));
    ShortField("payload_size_bytes", JsonInt(size));
    QuotedIsBounded("replay_payload_base64");
    CostOfThree(Field("payload_sha256", JsonString(digest)), Field("payload_size_bytes", JsonInt(size)),
                Field("replay_payload_base64", replay));
  }

  lemma CommandCost(work: Work)
    ensures FieldsCost([Field("command", JsonString(WorkText(work)))]) <= 4500
  {
    ShortField("command", JsonString(WorkText(work)));
    CostIsBounded([Field("command", JsonString(WorkText(work)))], 4500);
  }

  lemma NullIsSmall()
    ensures Size(Text(JsonNull)) == 4
  {
    SizeOfAscii("null");
  }

  lemma PoisonIsSmall(digest: string, size: nat, count: int)
    requires IsDigest(digest) && IsCounter(size) && IsCounter(count)
    ensures |CanonicalBytes(ObjectOf(PoisonFields(digest, size, count)))| <= MAX_DIAGNOSTIC_BYTES
  {
    CommonCost("POISON_MESSAGE", count);
    PayloadCost(digest, size, JsonNull);
    NullIsSmall();
    CostOfParts(CommonFields("POISON_MESSAGE", count), PayloadFields(digest, size, JsonNull));
    SizeOfObject(PoisonFields(digest, size, count));
  }

  lemma MessageSizeIsCounter(size: nat)
    requires size <= MAX_MESSAGE_BYTES
    ensures IsCounter(size)
  {
    assert size / 10 / 10 / 10 / 10 < 10;
    assert |Decimal(size / 10 / 10 / 10 / 10)| == 1;
    assert |Decimal(size / 10 / 10 / 10)| <= 2;
    assert |Decimal(size / 10 / 10)| <= 3;
    assert |Decimal(size / 10)| <= 4;
  }

  lemma ReplaySize(canonical: seq<byte>)
    requires |canonical| <= MAX_MESSAGE_BYTES
    ensures Size(Text(JsonString(Base64.Encode(canonical, false)))) <= 21_850
  {
    EncodedIsPlain(canonical);
    PlainTextIsItself(Base64.Encode(canonical, false));
    Base64.EncodedLength(canonical, false);
  }

  lemma CostOfFourParts(first: seq<Field>, common: seq<Field>, ids: seq<Field>, payload: seq<Field>)
    ensures FieldsCost(first + common + ids + payload)
         == FieldsCost(first) + FieldsCost(common) + FieldsCost(ids) + FieldsCost(payload)
  {
    CostOfParts(first + common + ids, payload);
    CostOfParts(first + common, ids);
    CostOfParts(first, common);
  }

  lemma ExhaustedIsSmall(m: WorkMessage, canonical: seq<byte>, digest: string, count: int)
    requires IsMessage(m) && |canonical| <= MAX_MESSAGE_BYTES && IsDigest(digest) && IsCounter(count)
    ensures |CanonicalBytes(ObjectOf(ExhaustedFields(m, canonical, digest, count)))| <= MAX_DIAGNOSTIC_BYTES
  {
    var replay := JsonString(Base64.Encode(canonical, false));
    CommandCost(m.command);
    CommonCost("DELIVERY_EXHAUSTED", count);
    IdsCost(m);
    MessageSizeIsCounter(|canonical|);
    PayloadCost(digest, |canonical|, replay);
    ReplaySize(canonical);
    CostOfFourParts([Field("command", JsonString(WorkText(m.command)))], CommonFields("DELIVERY_EXHAUSTED", count),
                    MessageIds(m), PayloadFields(digest, |canonical|, replay));
    SizeOfObject(ExhaustedFields(m, canonical, digest, count));
  }

  // ---------------------------------------------------------------- the codec as a whole

  lemma PlainParts(a: seq<Field>, b: seq<Field>)
    requires ArePlainFields(a) && ArePlainFields(b)
    ensures ArePlainFields(a + b)
  {
  }

  lemma PoisonIsPlain(digest: string, size: nat, count: int)
    requires IsDigest(digest)
    ensures ArePlainFields(PoisonFields(digest, size, count))
  {
    KindsArePlain();
    CommonIsPlain("POISON_MESSAGE", count);
    PayloadIsPlain(digest, size, JsonNull);
    PlainParts(CommonFields("POISON_MESSAGE", count), PayloadFields(digest, size, JsonNull));
  }

  lemma CommandIsPlain(work: Work)
    ensures ArePlainFields([Field("command", JsonString(WorkText(work)))])
  {
    WordsArePlain(work);
  }

  lemma ExhaustedIsPlain(m: WorkMessage, canonical: seq<byte>, digest: string, count: int)
    requires IsMessage(m) && IsDigest(digest)
    ensures ArePlainFields(ExhaustedFields(m, canonical, digest, count))
  {
    var first, common := [Field("command", JsonString(WorkText(m.command)))], CommonFields("DELIVERY_EXHAUSTED", count);
    var replay := JsonString(Base64.Encode(canonical, false));
    KindsArePlain();
    CommandIsPlain(m.command);
    CommonIsPlain("DELIVERY_EXHAUSTED", count);
    IdsArePlain(m);
    EncodedIsPlain(canonical);
    PayloadIsPlain(digest, |canonical|, replay);
    PlainParts(first, common);
    PlainParts(first + common, MessageIds(m));
    PlainParts(first + common + MessageIds(m), PayloadFields(digest, |canonical|, replay));
  }

  lemma PoisonIntsFit(digest: string, size: nat, count: int)
    requires IsCounter(size) && IsCounter(count)
    ensures forall k :: 0 <= k < 6 ==> IntsFit(PoisonFields(digest, size, count)[k].content)
  {
  }

  lemma ExhaustedIntsFit(m: WorkMessage, canonical: seq<byte>, digest: string, count: int)
    requires IsCounter(|canonical|) && IsCounter(count)
    ensures forall k :: 0 <= k < 10 ==> IntsFit(ExhaustedFields(m, canonical, digest, count)[k].content)
  {
  }

  /** A small object in plain ASCII is decoded by judging its table. */
  lemma PlainObjectIsJudged(hash: Digester, fields: seq<Field>)
    requires Ascending(fields) && ArePlainFields(fields)
    requires forall k :: 0 <= k < |fields| ==> IntsFit(fields[k].content)
    requires |CanonicalBytes(ObjectOf(fields))| <= MAX_DIAGNOSTIC_BYTES
    ensures ToPlain(ObjectOf(fields)).PlainDict?
    ensures DecodeDiagnostic(hash, CanonicalBytes(ObjectOf(fields)))
         == Judge(hash, MeaningOf(ToPlain(ObjectOf(fields))).table)
    ensures TableIs(MeaningOf(ToPlain(ObjectOf(fields))).table, fields)
  {
    PlainObjectIsAscii(fields);
    ObjectIsRead(fields);
  }

  lemma PoisonIsRead(hash: Digester, digest: string, size: nat, count: int)
    requires IsDigest(digest) && IsCounter(size) && IsCounter(count)
    ensures var written := ObjectOf(PoisonFields(digest, size, count));
      && ToPlain(written).PlainDict?
      && |CanonicalBytes(written)| <= MAX_DIAGNOSTIC_BYTES
      && DecodeDiagnostic(hash, CanonicalBytes(written)) == Judge(hash, MeaningOf(ToPlain(written)).table)
      && TableIs(MeaningOf(ToPlain(written)).table, PoisonFields(digest, size, count))
  {
    PoisonIsSmall(digest, size, count);
    PoisonIsPlain(digest, size, count);
    PoisonAscends(digest, size, count);
    PoisonIntsFit(digest, size, count);
    PlainObjectIsJudged(hash, PoisonFields(digest, size, count));
  }

  /** What cannot be decoded is quarantined by its digest and size alone. */
  lemma PoisonRoundTrip(hash: Digester, digest: string, size: nat, count: int)
    requires IsDigest(digest) && IsCounter(size) && IsCounter(count) && count >= 1
    ensures var bytes := CanonicalBytes(ObjectOf(PoisonFields(digest, size, count)));
      && |bytes| <= MAX_DIAGNOSTIC_BYTES
      && DecodeDiagnostic(hash, bytes) == Diagnosis(Poison, count, digest, size)
  {
    PoisonIsRead(hash, digest, size, count);
    var table := MeaningOf(ToPlain(ObjectOf(PoisonFields(digest, size, count)))).table;
    PoisonTable(table, digest, size, count);
    PoisonIsJudged(hash, table, digest, size, count);
  }

  lemma ExhaustedIsRead(hash: Digester, m: WorkMessage, canonical: seq<byte>, count: int)
    requires IsMessage(m) && |canonical| <= MAX_MESSAGE_BYTES && IsDigest(hash(canonical)) && IsCounter(count)
    ensures var written := ObjectOf(ExhaustedFields(m, canonical, hash(canonical), count));
      && ToPlain(written).PlainDict?
      && |CanonicalBytes(written)| <= MAX_DIAGNOSTIC_BYTES
      && DecodeDiagnostic(hash, CanonicalBytes(written)) == Judge(hash, MeaningOf(ToPlain(written)).table)
      && TableIs(MeaningOf(ToPlain(written)).table, ExhaustedFields(m, canonical, hash(canonical), count))
  {
    var digest := hash(canonical);
    MessageSizeIsCounter(|canonical|);
    ExhaustedIsSmall(m, canonical, digest, count);
    ExhaustedIsPlain(m, canonical, digest, count);
    ExhaustedAscends(m, canonical, digest, count);
    ExhaustedIntsFit(m, canonical, digest, count);
    PlainObjectIsJudged(hash, ExhaustedFields(m, canonical, digest, count));
  }

  /** A diagnostic of a message is read as what decoding its replay payload says. */
  lemma ExhaustedRoundTrip(hash: Digester, m: WorkMessage, canonical: seq<byte>, count: int)
    requires IsMessage(m) && |canonical| <= MAX_MESSAGE_BYTES && IsDigest(hash(canonical))
    requires IsCounter(count) && count >= 1
    ensures var bytes := CanonicalBytes(ObjectOf(ExhaustedFields(m, canonical, hash(canonical), count)));
      && |bytes| <= MAX_DIAGNOSTIC_BYTES
      && (DecodeMessage(canonical) == Message(m) ==>
            DecodeDiagnostic(hash, bytes)
            == Diagnosis(Exhausted(m, canonical), count, hash(canonical), |canonical|))
      && (DecodeMessage(canonical).Refused? ==>
            DecodeDiagnostic(hash, bytes) == DiagnosisRefused(ReplayRefused(DecodeMessage(canonical).error)))
  {
    var digest, replay := hash(canonical), TextData(Base64.Encode(canonical, false));
    ExhaustedIsRead(hash, m, canonical, count);
    var table := MeaningOf(ToPlain(ObjectOf(ExhaustedFields(m, canonical, digest, count)))).table;
    KeysOfExhausted(m, canonical, digest, count);
    ExhaustedIsLabelled(table, m, canonical, digest, count);
    ExhaustedIsSized(table, m, canonical, digest, count);
    ExhaustedIsDescribed(table, m, canonical, digest, count);
    ExhaustedIsJudged(hash, table, digest, |canonical|, replay, count);
    ReplayIsJudged(hash, table, m, canonical, count);
  }

  /** The quarantine codec, for every payload and every delivery count. It raises exactly when
      decoding the payload does, or when a number is too long for the interpreter to write. Its
      diagnostic stays within the limit of the decoder. A payload that is no work message comes
      back as its digest and size; a work message comes back as itself, with a replay payload
      that decodes to it, if and only if its year is written with four digits. */
  lemma QuarantineRoundTrip(hash: Digester, payload: seq<byte>, count: int, pads: bool)
    requires IsDigester(hash) && count >= 1
    ensures var encoded, decoded := EncodeDiagnostic(hash, payload, count, pads), DecodeMessage(payload);
      && (encoded.None? <==>
            decoded.Raises? || !IsWritable(count) || (decoded.Refused? && !IsWritable(|payload|)))
      && (encoded.Some? ==> |encoded.value| <= MAX_DIAGNOSTIC_BYTES)
      && (encoded.Some? && decoded.Refused? ==>
            DecodeDiagnostic(hash, encoded.value) == Diagnosis(Poison, count, hash(payload), |payload|))
      && (encoded.Some? && decoded.Message? ==>
            var m, canonical := decoded.message, EncodeMessage(decoded.message, pads);
            if Readable(m.createdAt, pads) then
              && DecodeMessage(canonical) == Message(m)
              && DecodeDiagnostic(hash, encoded.value)
                 == Diagnosis(Exhausted(m, canonical), count, hash(canonical), |canonical|)
            else
              DecodeDiagnostic(hash, encoded.value) == DiagnosisRefused(ReplayRefused(InvalidTimestamp)))
  {
    if EncodeDiagnostic(hash, payload, count, pads).Some? {
      if DecodeMessage(payload).Refused? {
        PoisonRoundTrip(hash, hash(payload), |payload|, count);
      } else {
        var m := DecodeMessage(payload).message;
        AcceptedFits(payload, pads);
        MessageRoundTrip(m, pads);
        ExhaustedRoundTrip(hash, m, EncodeMessage(m, pads), count);
      }
    }
  }

  lemma LongReadingRaises(payload: seq<byte>, text: string)
    requires |payload| <= MAX_MESSAGE_BYTES && FromUtf8(payload) == Some(text)
    requires ReadDocument(text) == TooManyDigits
    ensures DecodeMessage(payload) == Raises
  {
  }

  lemma NothingIsEncoded(hash: Digester, payload: seq<byte>, count: int, pads: bool)
    requires DecodeMessage(payload) == Raises
    ensures EncodeDiagnostic(hash, payload, count, pads).None?
  {
  }

  lemma BytesOfDigits(digits: string)
    requires AllDigits(digits)
    ensures |Utf8All(digits)| == |digits| && FromUtf8(Utf8All(digits)) == Some(digits)
  {
    DigitsAreAscii(digits);
    SizeOfAscii(digits);
    Utf8RoundTrip(digits);
  }

  /** A payload for which nothing is quarantined: one integer, too long for the interpreter but
      not for a message. It is neither a message nor poison. */
  lemma LongIntegerIsNeverQuarantined(hash: Digester, digits: string, count: int, pads: bool)
    requires AllDigits(digits) && MAX_INT_DIGITS < |digits| <= MAX_MESSAGE_BYTES && digits[0] != '0'
    ensures EncodeDiagnostic(hash, Utf8All(digits), count, pads).None?
  {
    BytesOfDigits(digits);
    LongIntegerStops(digits);
    LongReadingRaises(Utf8All(digits), digits);
    NothingIsEncoded(hash, Utf8All(digits), count, pads);
  }
}
