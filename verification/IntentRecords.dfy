/** Sealed intents and their records (domain/intent.py, domain/refs.py): an envelope with its two
    hashes, checked whenever it is built, and the object it is stored as. */
module IntentRecords {
  import opened Lifecycle
  import opened Json
  import opened JsonLaws
  import opened JsonReader
  import opened Bytes
  import opened Cursor
  import opened WireFields
  import opened WireObjects
  import opened Intent

  datatype Sealed = Sealed(envelope: Envelope, argumentsHash: string, digest: string)

  /** PrincipalType */
  predicate IsKind(text: string) {
    text == "AGENT" || text == "HUMAN" || text == "SERVICE" || text == "OPERATOR"
  }

  /** What str.strip removes. */
  predicate IsBlank(c: char) {
    var n := c as int;
    || 0x09 <= n <= 0x0D || 0x1C <= n <= 0x20 || n == 0x85 || n == 0xA0 || n == 0x1680
    || 0x2000 <= n <= 0x200A || n == 0x2028 || n == 0x2029 || n == 0x202F || n == 0x205F || n == 0x3000
  }

  predicate IsTrimmed(text: string) {
    |text| > 0 ==> !IsBlank(text[0]) && !IsBlank(text[|text| - 1])
  }

  /** What the types of its parts say of an envelope. */
  predicate HasParts(envelope: Envelope) {
    && IsKind(envelope.requester.kind) && IsTrimmed(envelope.requester.id)
    && IsCanonical(envelope.arguments) && IsStamp(envelope.requestedAt)
  }

  /** Arguments or a reference to them, as the mode says. */
  predicate FitsItsMode(envelope: Envelope) {
    match envelope.mode
    case Inline => !envelope.arguments.JsonNull? && envelope.argumentsRef.None?
    case Reference => envelope.arguments.JsonNull? && envelope.argumentsRef.Some?
  }

  /** IntentEnvelope.__post_init__ */
  function Validated(hash: Digester, sealed: Sealed): (r: Checked<Sealed>)
    ensures r.Good? ==> r.value == sealed
  {
    if !FitsItsMode(sealed.envelope) then Bad(IllegalCombination)
    else if !IsDigest(sealed.argumentsHash) || !IsDigest(sealed.digest) then Bad(InvalidHash)
    else if ArgumentsHash(hash, sealed.envelope) != sealed.argumentsHash then Bad(HashMismatch)
    else
      match IntentDigest(hash, sealed.envelope)
      case Err(reason) => Bad(NotCanonical(reason))
      case Ok(digest) => if digest == sealed.digest then Good(sealed) else Bad(HashMismatch)
  }

  /** IntentEnvelope.from_parts */
  function FromParts(hash: Digester, envelope: Envelope): Checked<Sealed> {
    match IntentDigest(hash, envelope)
    case Err(reason) => Bad(NotCanonical(reason))
    case Ok(digest) => Validated(hash, Sealed(envelope, ArgumentsHash(hash, envelope), digest))
  }

  // ---------------------------------------------------------------- writing

  function EffectFields(effect: Effect): seq<Field> {
    [ Field("action", JsonString(effect.action)),
      Field("provider", JsonString(effect.provider)),
      Field("version", JsonString(effect.version))]
  }

  function RequesterFields(requester: Requester): seq<Field> {
    [ Field("display_name", OptionalText(requester.displayName)),
      Field("id", JsonString(requester.id)),
      Field("type", JsonString(requester.kind))]
  }

  function ArgumentFields(envelope: Envelope): seq<Field> {
    [ Field("arguments", envelope.arguments),
      Field("arguments_mode", JsonString(ModeText(envelope.mode))),
      Field("arguments_ref", OptionalText(envelope.argumentsRef))]
  }

  function IdentityFields(sealed: Sealed): seq<Field> {
    [ Field("canonical_arguments_hash", JsonString(sealed.argumentsHash)),
      Field("effect", ObjectOf(EffectFields(sealed.envelope.effect))),
      Field("intent_digest", JsonString(sealed.digest))]
  }

  function RequestFields(envelope: Envelope, pads: bool): seq<Field> {
    [ Field("metadata", JsonObject(SortPairs(envelope.metadata))),
      Field("requested_at", JsonString(WireStamp(envelope.requestedAt, pads))),
      Field("requester", ObjectOf(RequesterFields(envelope.requester)))]
  }

  /** IntentEnvelope.to_wire, in key order. */
  function RecordFields(sealed: Sealed, pads: bool): seq<Field> {
    ArgumentFields(sealed.envelope) + IdentityFields(sealed) + RequestFields(sealed.envelope, pads)
  }

  function Record(sealed: Sealed, pads: bool): Json {
    ObjectOf(RecordFields(sealed, pads))
  }

  // ---------------------------------------------------------------- reading

  function EffectKeys(): set<Key> {
    {TextKey("action"), TextKey("provider"), TextKey("version")}
  }

  /** EffectRef.from_wire */
  function AsEffect(data: Data): Checked<Effect> {
    var table :- Mapping(data, EffectKeys());
    var rawProvider :- Required(table, "provider");
    var provider :- AsNonEmptyText(rawProvider);
    var rawAction :- Required(table, "action");
    var action :- AsNonEmptyText(rawAction);
    var rawVersion :- Required(table, "version");
    var version :- AsNonEmptyText(rawVersion);
    Good(Effect(provider, action, version))
  }

  function AsKind(data: Data): Checked<string> {
    var text :- AsText(data);
    if IsKind(text) then Good(text) else Bad(UnknownEnum)
  }

  function RequesterKeys(): set<Key> {
    {TextKey("display_name"), TextKey("id"), TextKey("type")}
  }

  /** PrincipalRef.from_wire */
  function AsRequester(data: Data): Checked<Requester> {
    var table :- Mapping(data, RequesterKeys());
    var rawKind :- Required(table, "type");
    var kind :- AsKind(rawKind);
    var rawId :- Required(table, "id");
    var id :- AsNonEmptyText(rawId);
    var displayName :- OptionalUnder(table, "display_name");
    if IsTrimmed(id) then Good(Requester(kind, id, displayName)) else Bad(InvalidPrincipal)
  }

  function AsMode(data: Data): Checked<Mode> {
    var text :- AsText(data);
    if text == "INLINE" then Good(Inline) else if text == "REFERENCE" then Good(Reference) else Bad(UnknownEnum)
  }

  /** parse_optional_json_value of optional_key */
  function ArgumentsUnder(entries: Entries): Checked<Json> {
    if !HasKey(entries, TextKey("arguments")) then Good(JsonNull)
    else
      match FromPlain(Lookup(entries, TextKey("arguments")))
      case Err(reason) => Bad(NotCanonical(reason))
      case Ok(value) => Good(value)
  }

  /** One step of the stable sort by key. */
  function InsertPair(name: string, text: string, pairs: Pairs): Pairs {
    match pairs
    case NoPairs => Pair(name, text, NoPairs)
    case Pair(first, other, next) =>
      if Below(first, name) then Pair(first, other, InsertPair(name, text, next)) else Pair(name, text, pairs)
  }

  function PairsOf(entries: Entries): Checked<Pairs> {
    match entries
    case NoEntries => Good(NoPairs)
    case Entry(key, value, others) =>
      if key.OtherKey? || key.text == "" then Bad(WrongType)
      else
        var text :- AsNonEmptyText(MeaningOf(value));
        var next :- PairsOf(others);
        Good(InsertPair(key.text, text, next))
  }

  /** parse_str_map of require_key; the keys of a dictionary are distinct. */
  function MetadataUnder(entries: Entries): Checked<Pairs> {
    if !HasKey(entries, TextKey("metadata")) then Bad(MissingField)
    else
      var value := Lookup(entries, TextKey("metadata"));
      if value.PlainDict? then PairsOf(value.entries) else Bad(WrongType)
  }

  function RecordKeys(): set<Key> {
    { TextKey("arguments"), TextKey("arguments_mode"), TextKey("arguments_ref"),
      TextKey("canonical_arguments_hash"), TextKey("effect"), TextKey("intent_digest"), TextKey("metadata"),
      TextKey("requested_at"), TextKey("requester")}
  }

  /** IntentEnvelope.from_wire */
  function FromRecord(hash: Digester, stored: Plain): (r: Checked<Sealed>)
    ensures r.Good? ==> Validated(hash, r.value) == r
  {
    var table :- Mapping(MeaningOf(stored), RecordKeys());
    var rawEffect :- Required(table, "effect");
    var effect :- AsEffect(rawEffect);
    var rawMode :- Required(table, "arguments_mode");
    var mode :- AsMode(rawMode);
    var arguments :- ArgumentsUnder(stored.entries);
    var argumentsRef :- OptionalUnder(table, "arguments_ref");
    var rawHash :- Required(table, "canonical_arguments_hash");
    var argumentsHash :- AsNonEmptyText(rawHash);
    var rawDigest :- Required(table, "intent_digest");
    var digest :- AsNonEmptyText(rawDigest);
    var rawRequester :- Required(table, "requester");
    var requester :- AsRequester(rawRequester);
    var rawRequestedAt :- Required(table, "requested_at");
    var requestedAt :- AsStamp(rawRequestedAt);
    var metadata :- MetadataUnder(stored.entries);
    Validated(hash, Sealed(Envelope(effect, mode, arguments, argumentsRef, requester, requestedAt, metadata),
                           argumentsHash, digest))
  }

  // ---------------------------------------------------------------- what is accepted

  /** Nothing is accepted but what from_parts makes of the same envelope. */
  lemma AcceptedIffMade(hash: Digester, sealed: Sealed)
    requires IsDigester(hash)
    ensures Validated(hash, sealed).Good? <==> FromParts(hash, sealed.envelope) == Good(sealed)
  {
  }

  /** A stored record that is accepted under the digest of an intent says the same as that
      intent, whatever was done to the record. */
  lemma AcceptedDigestIdentifies(hash: Digester, sealed: Sealed, stored: Plain)
    requires Injective(hash) && Validated(hash, sealed).Good? && FromRecord(hash, stored).Good?
    ensures FromRecord(hash, stored).value.digest == sealed.digest
        <==> SameIntent(FromRecord(hash, stored).value.envelope, sealed.envelope)
  {
    DigestIdentifiesIntent(hash, FromRecord(hash, stored).value.envelope, sealed.envelope);
  }

  // ---------------------------------------------------------------- metadata in order

  function SortedPairs(pairs: Pairs): Pairs {
    match pairs
    case NoPairs => NoPairs
    case Pair(name, text, next) => InsertPair(name, text, SortedPairs(next))
  }

  function AsMembers(pairs: Pairs): Members {
    match pairs
    case NoPairs => NoMembers
    case Pair(name, text, next) => Member(name, JsonString(text), AsMembers(next))
  }

  lemma {:induction false} InsertPairInserts(name: string, text: string, pairs: Pairs)
    ensures AsMembers(InsertPair(name, text, pairs)) == Insert(name, JsonString(text), AsMembers(pairs))
    decreases pairs
  {
    if pairs.Pair? && Below(pairs.name, name) {
      InsertPairInserts(name, text, pairs.next);
    }
  }

  lemma {:induction false} SortedPairsAreSorted(pairs: Pairs)
    ensures AsMembers(SortedPairs(pairs)) == SortPairs(pairs)
    decreases pairs
  {
    if pairs.Pair? {
      SortedPairsAreSorted(pairs.next);
      InsertPairInserts(pairs.name, pairs.text, SortedPairs(pairs.next));
    }
  }

  lemma {:induction false} AsMembersIsInjective(a: Pairs, b: Pairs)
    requires AsMembers(a) == AsMembers(b)
    ensures a == b
    decreases a
  {
    if a.Pair? {
      AsMembersIsInjective(a.next, b.next);
    }
  }

  lemma {:induction false} PairsAreNames(pairs: Pairs, name: string)
    ensures HasPair(pairs, name) <==> HasName(AsMembers(pairs), name)
    decreases pairs
  {
    if pairs.Pair? {
      PairsAreNames(pairs.next, name);
    }
  }

  lemma {:induction false} SortingAgainChangesNothing(pairs: Pairs)
    requires Sorted(AsMembers(pairs))
    ensures SortPairs(pairs) == AsMembers(pairs) && PairsDistinct(pairs)
    decreases pairs
  {
    if pairs.Pair? {
      SortingAgainChangesNothing(pairs.next);
      FirstIsUnique(AsMembers(pairs));
      PairsAreNames(pairs.next, pairs.name);
      if pairs.next.Pair? {
        BelowIsTotal(pairs.name, pairs.next.name);
      }
    }
  }

  /** The digest does not see the order of the metadata. */
  lemma SortingKeepsDigest(hash: Digester, envelope: Envelope)
    requires IntentDigest(hash, envelope).Ok?
    ensures IntentDigest(hash, envelope.(metadata := SortedPairs(envelope.metadata))) == IntentDigest(hash, envelope)
  {
    var pairs, sorted := envelope.metadata, SortedPairs(envelope.metadata);
    SortedPairsMeanTheTable(pairs);
    SortedPairsAreSorted(pairs);
    SortingAgainChangesNothing(sorted);
    PairsAreNames(sorted, "");
    assert MetadataObject(sorted) == MetadataObject(pairs);
  }

  // ---------------------------------------------------------------- what is found in a record

  lemma {:induction false} LookupMeans(entries: Entries, key: Key)
    requires EntriesArePlain(entries) && HasKey(entries, key)
    ensures key in MeaningOfEntries(entries) && MeaningOf(Lookup(entries, key)) == MeaningOfEntries(entries)[key]
    ensures IsPlain(Lookup(entries, key))
    decreases entries
  {
    if entries.key != key {
      LookupMeans(entries.others, key);
    }
  }

  /** Texts under text keys, none of them empty. */
  ghost predicate IsTextTable(table: map<Key, Data>) {
    forall key :: key in table ==> key.TextKey? && key.text != "" && table[key].TextData? && table[key].text != ""
  }

  lemma {:induction false} PairsAreRead(entries: Entries)
    requires EntriesArePlain(entries)
    ensures PairsOf(entries).Good? <==> IsTextTable(MeaningOfEntries(entries))
    ensures PairsOf(entries).Good? ==> FromEntries(entries) == Ok(AsMembers(PairsOf(entries).value))
    decreases entries
  {
    if entries.Entry? {
      var others, all := MeaningOfEntries(entries.others), MeaningOfEntries(entries);
      PairsAreRead(entries.others);
      KeysAreEntries(entries.others, entries.key);
      assert forall key :: key in others ==> key in all && all[key] == others[key];
      assert entries.key in all && all[entries.key] == MeaningOf(entries.value);
      if PairsOf(entries).Good? {
        InsertPairInserts(entries.key.text, MeaningOf(entries.value).text, PairsOf(entries.others).value);
      }
    }
  }

  /** No value is an empty text. */
  ghost predicate HasTexts(pairs: Pairs) {
    forall name :: name in TableOf(pairs) ==> TableOf(pairs)[name] != ""
  }

  lemma TextTableIff(pairs: Pairs)
    requires MetadataObject(pairs).Ok?
    ensures IsTextTable(MeaningOfMembers(SortPairs(pairs))) <==> HasTexts(pairs)
  {
    SortedPairsMeanTheTable(pairs);
    TableKeys(pairs, "");
    var meaning, table := MeaningOfMembers(SortPairs(pairs)), TableOf(pairs);
    if HasTexts(pairs) {
      forall key | key in meaning
        ensures key.TextKey? && key.text != "" && meaning[key].TextData? && meaning[key].text != ""
      {
        assert key.text in table;
      }
    } else {
      var name :| name in table && table[name] == "";
      assert TextKey(name) in meaning;
    }
  }

  /** Metadata is read back in key order, however its dictionary was stored. */
  lemma MetadataIsRead(entries: Entries, pairs: Pairs)
    requires MetadataObject(pairs).Ok? && EntriesArePlain(entries)
    requires MeaningOfEntries(entries) == MeaningOfMembers(SortPairs(pairs))
    ensures PairsOf(entries).Good? <==> HasTexts(pairs)
    ensures PairsOf(entries).Good? ==> PairsOf(entries).value == SortedPairs(pairs)
  {
    PairsAreRead(entries);
    TextTableIff(pairs);
    if PairsOf(entries).Good? {
      var metadata := MetadataObject(pairs).value;
      MetadataMeaning(pairs);
      SortedPairsMeanTheTable(pairs);
      RoundTrip(metadata);
      SameCanonicalIff(ToPlain(metadata), PlainDict(entries));
      SortedPairsAreSorted(pairs);
      AsMembersIsInjective(PairsOf(entries).value, SortedPairs(pairs));
    }
  }

  lemma ThreeHold(table: map<Key, Data>, fields: seq<Field>)
    requires |fields| == 3 && AllHold(table, fields)
    ensures Holds(table, fields[0]) && Holds(table, fields[1]) && Holds(table, fields[2])
  {
    AllHoldIff(table, fields);
  }

  lemma ThreeNames(table: map<Key, Data>, fields: seq<Field>)
    requires |fields| == 3 && TableIs(table, fields)
    ensures table.Keys == {TextKey(fields[0].name), TextKey(fields[1].name), TextKey(fields[2].name)}
    ensures Holds(table, fields[0]) && Holds(table, fields[1]) && Holds(table, fields[2])
  {
    ThreeHold(table, fields);
    KeysOfThree(fields[0], fields[1], fields[2]);
    assert fields == [fields[0], fields[1], fields[2]];
  }

  predicate EffectHasTexts(effect: Effect) {
    effect.provider != "" && effect.action != "" && effect.version != ""
  }

  ghost predicate DepictsEffect(data: Data, effect: Effect) {
    data.DictData? && TableIs(data.table, EffectFields(effect))
  }

  lemma EffectIsRead(effect: Effect, data: Data)
    requires DepictsEffect(data, effect)
    ensures AsEffect(data) == if EffectHasTexts(effect) then Good(effect) else Bad(EmptyText)
  {
    ThreeNames(data.table, EffectFields(effect));
  }

  predicate RequesterHasTexts(requester: Requester) {
    requester.id != "" && (requester.displayName.Some? ==> requester.displayName.value != "")
  }

  ghost predicate DepictsRequester(data: Data, requester: Requester) {
    data.DictData? && TableIs(data.table, RequesterFields(requester))
  }

  lemma RequesterIsRead(requester: Requester, data: Data)
    requires IsKind(requester.kind) && IsTrimmed(requester.id) && DepictsRequester(data, requester)
    ensures AsRequester(data) == if RequesterHasTexts(requester) then Good(requester) else Bad(EmptyText)
  {
    ThreeNames(data.table, RequesterFields(requester));
  }

  lemma NestedObjectsAscend(effect: Effect, requester: Requester)
    ensures Ascending(EffectFields(effect)) && Ascending(RequesterFields(requester))
  {
    BelowAt("action", "provider", 0);
    BelowAt("provider", "version", 0);
    BelowAt("display_name", "id", 0);
    BelowAt("id", "type", 0);
    AscendingByNeighbours(EffectFields(effect));
    AscendingByNeighbours(RequesterFields(requester));
  }

  lemma NestedObjectIsHeld(table: map<Key, Data>, field: Field, nested: seq<Field>)
    requires Holds(table, field) && field.content == ObjectOf(nested) && Ascending(nested)
    ensures table[TextKey(field.name)].DictData? && TableIs(table[TextKey(field.name)].table, nested)
  {
    ObjectMeans(nested);
  }

  // ---------------------------------------------------------------- the record as a whole

  lemma ArgumentNamesAscend()
    ensures Below("arguments", "arguments_mode") && Below("arguments_mode", "arguments_ref")
  {
    PrefixIsBelow("arguments", "_mode");
    BelowAt("arguments_mode", "arguments_ref", 10);
  }

  lemma OtherNamesAscend()
    ensures Below("canonical_arguments_hash", "effect") && Below("effect", "intent_digest")
    ensures Below("metadata", "requested_at") && Below("requested_at", "requester")
  {
    BelowAt("canonical_arguments_hash", "effect", 0);
    BelowAt("effect", "intent_digest", 0);
    BelowAt("metadata", "requested_at", 0);
    BelowAt("requested_at", "requester", 8);
  }

  lemma PartNamesAscend()
    ensures Below("arguments_ref", "canonical_arguments_hash") && Below("intent_digest", "metadata")
  {
    BelowAt("arguments_ref", "canonical_arguments_hash", 0);
    BelowAt("intent_digest", "metadata", 0);
  }

  lemma ArgumentsAscend(envelope: Envelope)
    requires IsCanonical(envelope.arguments)
    ensures Ascending(ArgumentFields(envelope))
  {
    var fields := ArgumentFields(envelope);
    ArgumentNamesAscend();
    ThreeAscend(fields[0], fields[1], fields[2]);
  }

  lemma IdentityAscends(sealed: Sealed)
    ensures Ascending(IdentityFields(sealed))
  {
    var fields := IdentityFields(sealed);
    OtherNamesAscend();
    NestedObjectsAscend(sealed.envelope.effect, sealed.envelope.requester);
    ObjectIsCanonical(EffectFields(sealed.envelope.effect));
    ThreeAscend(fields[0], fields[1], fields[2]);
  }

  lemma RequestAscends(envelope: Envelope, pads: bool)
    requires MetadataObject(envelope.metadata).Ok?
    ensures Ascending(RequestFields(envelope, pads))
  {
    var fields := RequestFields(envelope, pads);
    OtherNamesAscend();
    NestedObjectsAscend(envelope.effect, envelope.requester);
    ObjectIsCanonical(RequesterFields(envelope.requester));
    SortedPairsMeanTheTable(envelope.metadata);
    ThreeAscend(fields[0], fields[1], fields[2]);
  }

  lemma RecordAscends(sealed: Sealed, pads: bool)
    requires IsCanonical(sealed.envelope.arguments) && MetadataObject(sealed.envelope.metadata).Ok?
    ensures Ascending(RecordFields(sealed, pads))
  {
    var a, b, c := ArgumentFields(sealed.envelope), IdentityFields(sealed), RequestFields(sealed.envelope, pads);
    ArgumentsAscend(sealed.envelope);
    IdentityAscends(sealed);
    RequestAscends(sealed.envelope, pads);
    PartNamesAscend();
    AscendingParts(a, b);
    AscendingParts(a + b, c);
  }

  lemma KeysOfRecord(sealed: Sealed, pads: bool)
    ensures KeysOf(RecordFields(sealed, pads)) == RecordKeys()
  {
    var a, b, c := ArgumentFields(sealed.envelope), IdentityFields(sealed), RequestFields(sealed.envelope, pads);
    KeysOfParts(a, b);
    KeysOfParts(a + b, c);
    KeysOfThree(a[0], a[1], a[2]);
    KeysOfThree(b[0], b[1], b[2]);
    KeysOfThree(c[0], c[1], c[2]);
  }

  /** What is under the keys of a record. */
  ghost predicate Recorded(table: map<Key, Data>, sealed: Sealed, pads: bool) {
    && table.Keys == RecordKeys()
    && AllHold(table, ArgumentFields(sealed.envelope))
    && AllHold(table, IdentityFields(sealed))
    && AllHold(table, RequestFields(sealed.envelope, pads))
  }

  lemma RecordMeans(sealed: Sealed, pads: bool)
    requires HasParts(sealed.envelope) && MetadataObject(sealed.envelope.metadata).Ok?
    ensures IsCanonical(Record(sealed, pads))
    ensures Recorded(MeaningOfJson(Record(sealed, pads)).table, sealed, pads)
  {
    var table := MeaningOfJson(Record(sealed, pads)).table;
    var a, b, c := ArgumentFields(sealed.envelope), IdentityFields(sealed), RequestFields(sealed.envelope, pads);
    RecordAscends(sealed, pads);
    ObjectIsCanonical(RecordFields(sealed, pads));
    ObjectMeans(RecordFields(sealed, pads));
    KeysOfRecord(sealed, pads);
    PartsHold(table, a + b, c);
    PartsHold(table, a, b);
  }

  // ---------------------------------------------------------------- reading a record back

  /** What from_wire demands beyond what the constructors do: texts that are not empty and a
      year of four digits. */
  ghost predicate Transmissible(envelope: Envelope, pads: bool) {
    && EffectHasTexts(envelope.effect) && RequesterHasTexts(envelope.requester)
    && (envelope.argumentsRef.Some? ==> envelope.argumentsRef.value != "")
    && Readable(envelope.requestedAt, pads) && HasTexts(envelope.metadata)
  }

  lemma ArgumentsAreRead(entries: Entries, arguments: Json)
    requires EntriesArePlain(entries) && IsCanonical(arguments)
    requires var table := MeaningOfEntries(entries);
      TextKey("arguments") in table && table[TextKey("arguments")] == MeaningOfJson(arguments)
    ensures ArgumentsUnder(entries) == Good(arguments)
  {
    KeysAreEntries(entries, TextKey("arguments"));
    LookupMeans(entries, TextKey("arguments"));
    ToPlainIsPlain(arguments);
    RoundTrip(arguments);
    SameCanonicalIff(ToPlain(arguments), Lookup(entries, TextKey("arguments")));
  }

  lemma MetadataIsUnder(entries: Entries, pairs: Pairs)
    requires EntriesArePlain(entries) && MetadataObject(pairs).Ok?
    requires var table := MeaningOfEntries(entries);
      TextKey("metadata") in table && table[TextKey("metadata")] == MeaningOfJson(JsonObject(SortPairs(pairs)))
    ensures MetadataUnder(entries).Good? <==> HasTexts(pairs)
    ensures MetadataUnder(entries).Good? ==> MetadataUnder(entries).value == SortedPairs(pairs)
  {
    KeysAreEntries(entries, TextKey("metadata"));
    LookupMeans(entries, TextKey("metadata"));
    MetadataIsRead(Lookup(entries, TextKey("metadata")).entries, pairs);
  }

  lemma StampIsRead(s: Stamp, pads: bool)
    requires IsStamp(s)
    ensures AsStamp(TextData(WireStamp(s, pads))) == if Readable(s, pads) then Good(s) else Bad(InvalidTimestamp)
  {
    if Readable(s, pads) {
      StampRoundTrip(s);
    } else {
      StampIsShort(s);
    }
  }

  lemma ModeRoundTrip(mode: Mode)
    ensures AsMode(TextData(ModeText(mode))) == Good(mode)
  {
    assert |"INLINE"| == 6 && |"REFERENCE"| == 9;
  }

  /** The sealed intent that a record of it is read as. */
  function InKeyOrder(sealed: Sealed): Sealed {
    sealed.(envelope := sealed.envelope.(metadata := SortedPairs(sealed.envelope.metadata)))
  }

  lemma InKeyOrderIsValid(hash: Digester, sealed: Sealed)
    requires Validated(hash, sealed).Good?
    ensures Validated(hash, InKeyOrder(sealed)) == Good(InKeyOrder(sealed))
  {
    SortingKeepsDigest(hash, sealed.envelope);
  }

  /** What the readers of the single fields make of a record. */
  ghost predicate FieldsRead(table: map<Key, Data>, sealed: Sealed, pads: bool)
    requires table.Keys == RecordKeys()
  {
    var envelope := sealed.envelope;
    && AsMode(table[TextKey("arguments_mode")]) == Good(envelope.mode)
    && OptionalUnder(table, "arguments_ref")
       == (if envelope.argumentsRef == Some("") then Bad(EmptyText) else Good(envelope.argumentsRef))
    && AsNonEmptyText(table[TextKey("canonical_arguments_hash")]) == Good(sealed.argumentsHash)
    && AsNonEmptyText(table[TextKey("intent_digest")]) == Good(sealed.digest)
    && AsEffect(table[TextKey("effect")])
       == (if EffectHasTexts(envelope.effect) then Good(envelope.effect) else Bad(EmptyText))
    && AsRequester(table[TextKey("requester")])
       == (if RequesterHasTexts(envelope.requester) then Good(envelope.requester) else Bad(EmptyText))
    && AsStamp(table[TextKey("requested_at")])
       == (if Readable(envelope.requestedAt, pads) then Good(envelope.requestedAt) else Bad(InvalidTimestamp))
  }

  lemma ArgumentFieldsAreRead(table: map<Key, Data>, envelope: Envelope)
    requires table.Keys == RecordKeys() && AllHold(table, ArgumentFields(envelope))
    ensures table[TextKey("arguments")] == MeaningOfJson(envelope.arguments)
    ensures AsMode(table[TextKey("arguments_mode")]) == Good(envelope.mode)
    ensures OptionalUnder(table, "arguments_ref")
         == (if envelope.argumentsRef == Some("") then Bad(EmptyText) else Good(envelope.argumentsRef))
  {
    ThreeHold(table, ArgumentFields(envelope));
    ModeRoundTrip(envelope.mode);
  }

  lemma IdentityFieldsMean(table: map<Key, Data>, sealed: Sealed)
    requires table.Keys == RecordKeys() && AllHold(table, IdentityFields(sealed))
    ensures table[TextKey("canonical_arguments_hash")] == TextData(sealed.argumentsHash)
    ensures table[TextKey("intent_digest")] == TextData(sealed.digest)
    ensures DepictsEffect(table[TextKey("effect")], sealed.envelope.effect)
  {
    ThreeHold(table, IdentityFields(sealed));
    NestedObjectsAscend(sealed.envelope.effect, sealed.envelope.requester);
    NestedObjectIsHeld(table, IdentityFields(sealed)[1], EffectFields(sealed.envelope.effect));
  }

  lemma IdentityFieldsAreRead(table: map<Key, Data>, sealed: Sealed)
    requires table.Keys == RecordKeys() && AllHold(table, IdentityFields(sealed))
    requires IsDigest(sealed.argumentsHash) && IsDigest(sealed.digest)
    ensures AsNonEmptyText(table[TextKey("canonical_arguments_hash")]) == Good(sealed.argumentsHash)
    ensures AsNonEmptyText(table[TextKey("intent_digest")]) == Good(sealed.digest)
    ensures AsEffect(table[TextKey("effect")])
         == (if EffectHasTexts(sealed.envelope.effect) then Good(sealed.envelope.effect) else Bad(EmptyText))
  {
    IdentityFieldsMean(table, sealed);
    EffectIsRead(sealed.envelope.effect, table[TextKey("effect")]);
  }

  lemma RequestFieldsMean(table: map<Key, Data>, envelope: Envelope, pads: bool)
    requires table.Keys == RecordKeys() && AllHold(table, RequestFields(envelope, pads))
    ensures table[TextKey("metadata")] == MeaningOfJson(JsonObject(SortPairs(envelope.metadata)))
    ensures table[TextKey("requested_at")] == TextData(WireStamp(envelope.requestedAt, pads))
  {
    ThreeHold(table, RequestFields(envelope, pads));
  }

  lemma RequesterIsHeld(table: map<Key, Data>, envelope: Envelope, pads: bool)
    requires table.Keys == RecordKeys() && AllHold(table, RequestFields(envelope, pads))
    ensures DepictsRequester(table[TextKey("requester")], envelope.requester)
  {
    ThreeHold(table, RequestFields(envelope, pads));
    NestedObjectsAscend(envelope.effect, envelope.requester);
    NestedObjectIsHeld(table, RequestFields(envelope, pads)[2], RequesterFields(envelope.requester));
  }

  lemma RequestFieldsAreRead(table: map<Key, Data>, envelope: Envelope, pads: bool)
    requires HasParts(envelope) && table.Keys == RecordKeys() && AllHold(table, RequestFields(envelope, pads))
    ensures table[TextKey("metadata")] == MeaningOfJson(JsonObject(SortPairs(envelope.metadata)))
    ensures AsRequester(table[TextKey("requester")])
         == (if RequesterHasTexts(envelope.requester) then Good(envelope.requester) else Bad(EmptyText))
    ensures AsStamp(table[TextKey("requested_at")])
         == (if Readable(envelope.requestedAt, pads) then Good(envelope.requestedAt) else Bad(InvalidTimestamp))
  {
    RequestFieldsMean(table, envelope, pads);
    RequesterIsHeld(table, envelope, pads);
    RequesterIsRead(envelope.requester, table[TextKey("requester")]);
    StampIsRead(envelope.requestedAt, pads);
  }

  /** The readings of the fields make up the reading of the record. */
  lemma ReadingIsAssembled(hash: Digester, sealed: Sealed, stored: Plain, pads: bool)
    requires stored.PlainDict? && MeaningOf(stored).table.Keys == RecordKeys()
    requires FieldsRead(MeaningOf(stored).table, sealed, pads)
    requires ArgumentsUnder(stored.entries) == Good(sealed.envelope.arguments)
    requires MetadataUnder(stored.entries).Good? <==> HasTexts(sealed.envelope.metadata)
    requires MetadataUnder(stored.entries).Good? ==>
               MetadataUnder(stored.entries).value == SortedPairs(sealed.envelope.metadata)
    ensures Transmissible(sealed.envelope, pads) ==>
              FromRecord(hash, stored) == Validated(hash, InKeyOrder(sealed))
    ensures !Transmissible(sealed.envelope, pads) ==> FromRecord(hash, stored).Bad?
  {
    assert Mapping(MeaningOf(stored), RecordKeys()) == Good(MeaningOf(stored).table);
  }

  /** An accepted intent that was written and stored is accepted again, with the same hashes, in
      whatever order its dictionaries come back, if and only if it is transmissible; only its
      metadata comes back in key order. */
  lemma StoredIntentIsAccepted(hash: Digester, sealed: Sealed, stored: Plain, pads: bool)
    requires HasParts(sealed.envelope) && Validated(hash, sealed).Good?
    requires IsPlain(stored) && MeaningOf(stored) == MeaningOfJson(Record(sealed, pads))
    ensures FromRecord(hash, stored).Good? <==> Transmissible(sealed.envelope, pads)
    ensures FromRecord(hash, stored).Good? ==> FromRecord(hash, stored).value == InKeyOrder(sealed)
  {
    var table := MeaningOf(stored).table;
    RecordMeans(sealed, pads);
    ArgumentFieldsAreRead(table, sealed.envelope);
    IdentityFieldsAreRead(table, sealed);
    RequestFieldsAreRead(table, sealed.envelope, pads);
    ArgumentsAreRead(stored.entries, sealed.envelope.arguments);
    MetadataIsUnder(stored.entries, sealed.envelope.metadata);
    ReadingIsAssembled(hash, sealed, stored, pads);
    InKeyOrderIsValid(hash, sealed);
  }
}
