/** Intent digests (domain/intent.py): two hashes over canonical JSON that identify what an
    operation was asked to do. The hash function is any injective function of the bytes. */
module Intent {
  import opened Lifecycle
  import opened Json
  import opened JsonLaws
  import opened CanonicalText
  import opened Bytes
  import opened Cursor

  datatype Effect = Effect(provider: string, action: string, version: string)

  datatype Mode = Inline | Reference

  /** A requester; the digest leaves the display name out. */
  datatype Requester = Requester(kind: string, id: string, displayName: Option<string>)

  datatype Pairs = NoPairs | Pair(name: string, text: string, next: Pairs)

  /** An intent; absent arguments are JSON null, as in the source. */
  datatype Envelope = Envelope(
    effect: Effect, mode: Mode, arguments: Json, argumentsRef: Option<string>,
    requester: Requester, requestedAt: Stamp, metadata: Pairs)

  function ModeText(mode: Mode): string {
    if mode.Inline? then "INLINE" else "REFERENCE"
  }

  function OptionalPlain(text: Option<string>): Plain {
    if text.Some? then PlainString(text.value) else PlainNull
  }

  /** compute_canonical_arguments_hash */
  function ArgumentsHash(hash: Digester, envelope: Envelope): string {
    hash(CanonicalBytes(JsonObject(
      Member("arguments", envelope.arguments,
      Member("arguments_mode", JsonString(ModeText(envelope.mode)),
      Member("arguments_ref", OptionalText(envelope.argumentsRef), NoMembers))))))
  }

  // ---------------------------------------------------------------- metadata

  predicate HasPair(pairs: Pairs, name: string) {
    pairs.Pair? && (pairs.name == name || HasPair(pairs.next, name))
  }

  predicate PairsDistinct(pairs: Pairs) {
    pairs.Pair? ==> !HasPair(pairs.next, pairs.name) && PairsDistinct(pairs.next)
  }

  /** sorted(metadata), as pairs of an object. */
  function SortPairs(pairs: Pairs): Members {
    match pairs
    case NoPairs => NoMembers
    case Pair(name, text, next) => Insert(name, JsonString(text), SortPairs(next))
  }

  function MetadataObject(pairs: Pairs): Result<Json> {
    if HasPair(pairs, "") then Err(EmptyKey)
    else if !PairsDistinct(pairs) then Err(DuplicateKey)
    else Ok(JsonObject(SortPairs(pairs)))
  }

  function TableOf(pairs: Pairs): map<string, string> {
    match pairs
    case NoPairs => map[]
    case Pair(name, text, next) => TableOf(next)[name := text]
  }

  lemma {:induction false} TableKeys(pairs: Pairs, name: string)
    ensures name in TableOf(pairs) <==> HasPair(pairs, name)
    decreases pairs
  {
    if pairs.Pair? {
      TableKeys(pairs.next, name);
    }
  }

  ghost predicate Depicts(meaning: map<Key, Data>, table: map<string, string>) {
    && (forall key :: key in meaning <==> key.TextKey? && key.text in table)
    && (forall name :: name in table ==> TextKey(name) in meaning && meaning[TextKey(name)] == TextData(table[name]))
  }

  lemma {:induction false} SortedPairsMeanTheTable(pairs: Pairs)
    requires PairsDistinct(pairs)
    ensures Sorted(SortPairs(pairs)) && MembersCanonical(SortPairs(pairs))
    ensures Depicts(MeaningOfMembers(SortPairs(pairs)), TableOf(pairs))
    ensures forall name :: HasName(SortPairs(pairs), name) <==> HasPair(pairs, name)
    decreases pairs
  {
    if pairs.Pair? {
      SortedPairsMeanTheTable(pairs.next);
      var rest := SortPairs(pairs.next);
      InsertKeepsOrder(pairs.name, JsonString(pairs.text), rest);
      InsertMeans(pairs.name, JsonString(pairs.text), rest);
      forall name ensures HasName(SortPairs(pairs), name) <==> HasPair(pairs, name) {
        InsertAddsName(pairs.name, JsonString(pairs.text), rest, name);
      }
      InsertAddsName(pairs.name, JsonString(pairs.text), rest, pairs.name);
    }
  }

  // ---------------------------------------------------------------- the digest

  function EffectMaterial(effect: Effect): Plain {
    PlainDict(
      Entry(TextKey("provider"), PlainString(effect.provider),
      Entry(TextKey("action"), PlainString(effect.action),
      Entry(TextKey("version"), PlainString(effect.version), NoEntries))))
  }

  function RequesterMaterial(requester: Requester): Plain {
    PlainDict(
      Entry(TextKey("id"), PlainString(requester.id),
      Entry(TextKey("type"), PlainString(requester.kind), NoEntries)))
  }

  function Material(argumentsHash: string, envelope: Envelope, metadata: Json): Plain {
    PlainDict(
      Entry(TextKey("arguments_mode"), PlainString(ModeText(envelope.mode)),
      Entry(TextKey("arguments_ref"), OptionalPlain(envelope.argumentsRef),
      Entry(TextKey("canonical_arguments_hash"), PlainString(argumentsHash),
      Entry(TextKey("effect"), EffectMaterial(envelope.effect),
      Entry(TextKey("metadata"), ToPlain(metadata),
      Entry(TextKey("requester"), RequesterMaterial(envelope.requester), NoEntries)))))))
  }

  /** compute_intent_digest, or the complaint about the metadata. */
  function IntentDigest(hash: Digester, envelope: Envelope): Result<string> {
    match MetadataObject(envelope.metadata)
    case Err(error) => Err(error)
    case Ok(metadata) =>
      match FromPlain(Material(ArgumentsHash(hash, envelope), envelope, metadata))
      case Err(error) => Err(error)
      case Ok(value) => Ok(hash(CanonicalBytes(value)))
  }

  /** One more entry of a dictionary under a key that is not used yet. */
  lemma OneMore(key: string, value: Plain, others: Entries)
    requires EntriesArePlain(others) && IsPlain(value) && TextKey(key) !in MeaningOfEntries(others)
    ensures var entries := Entry(TextKey(key), value, others);
      && EntriesArePlain(entries)
      && MeaningOfEntries(entries) == MeaningOfEntries(others)[TextKey(key) := MeaningOf(value)]
  {
    KeysAreEntries(others, TextKey(key));
  }

  lemma KeysDiffer(a: string, b: string)
    requires |a| != |b|
    ensures TextKey(a) != TextKey(b)
  {
  }

  lemma EffectMeaning(effect: Effect)
    ensures IsPlain(EffectMaterial(effect))
    ensures MeaningOf(EffectMaterial(effect))
         == DictData(map[TextKey("provider") := TextData(effect.provider),
                         TextKey("action") := TextData(effect.action),
                         TextKey("version") := TextData(effect.version)])
    ensures IsJsonData(MeaningOf(EffectMaterial(effect)))
  {
    KeysDiffer("action", "version");
    KeysDiffer("provider", "version");
    KeysDiffer("provider", "action");
    var third := Entry(TextKey("version"), PlainString(effect.version), NoEntries);
    var second := Entry(TextKey("action"), PlainString(effect.action), third);
    OneMore("version", PlainString(effect.version), NoEntries);
    OneMore("action", PlainString(effect.action), third);
    OneMore("provider", PlainString(effect.provider), second);
    assert MeaningOf(EffectMaterial(effect))
        == DictData(map[TextKey("version") := TextData(effect.version)]
                      [TextKey("action") := TextData(effect.action)]
                      [TextKey("provider") := TextData(effect.provider)]);
  }

  lemma EffectIsIdentified(a: Effect, b: Effect)
    ensures MeaningOf(EffectMaterial(a)) == MeaningOf(EffectMaterial(b)) <==> a == b
  {
    EffectMeaning(a);
    EffectMeaning(b);
    KeysDiffer("action", "version");
    KeysDiffer("provider", "version");
    KeysDiffer("provider", "action");
    var s, t := MeaningOf(EffectMaterial(a)).table, MeaningOf(EffectMaterial(b)).table;
    assert s[TextKey("provider")] == TextData(a.provider) && t[TextKey("provider")] == TextData(b.provider);
    assert s[TextKey("action")] == TextData(a.action) && t[TextKey("action")] == TextData(b.action);
    assert s[TextKey("version")] == TextData(a.version) && t[TextKey("version")] == TextData(b.version);
  }

  lemma RequesterMeaning(requester: Requester)
    ensures IsPlain(RequesterMaterial(requester))
    ensures MeaningOf(RequesterMaterial(requester))
         == DictData(map[TextKey("id") := TextData(requester.id), TextKey("type") := TextData(requester.kind)])
    ensures IsJsonData(MeaningOf(RequesterMaterial(requester)))
  {
    KeysDiffer("id", "type");
    var second := Entry(TextKey("type"), PlainString(requester.kind), NoEntries);
    OneMore("type", PlainString(requester.kind), NoEntries);
    OneMore("id", PlainString(requester.id), second);
    assert MeaningOf(RequesterMaterial(requester))
        == DictData(map[TextKey("type") := TextData(requester.kind)][TextKey("id") := TextData(requester.id)]);
  }

  lemma RequesterIsIdentified(a: Requester, b: Requester)
    ensures MeaningOf(RequesterMaterial(a)) == MeaningOf(RequesterMaterial(b))
        <==> a.id == b.id && a.kind == b.kind
  {
    RequesterMeaning(a);
    RequesterMeaning(b);
    KeysDiffer("id", "type");
    var s, t := MeaningOf(RequesterMaterial(a)).table, MeaningOf(RequesterMaterial(b)).table;
    assert s[TextKey("id")] == TextData(a.id) && t[TextKey("id")] == TextData(b.id);
    assert s[TextKey("type")] == TextData(a.kind) && t[TextKey("type")] == TextData(b.kind);
  }

  lemma MetadataMeaning(pairs: Pairs)
    requires MetadataObject(pairs).Ok?
    ensures var plain := ToPlain(MetadataObject(pairs).value);
      && IsPlain(plain) && IsJsonData(MeaningOf(plain))
      && MeaningOf(plain).DictData? && Depicts(MeaningOf(plain).table, TableOf(pairs))
  {
    SortedPairsMeanTheTable(pairs);
    ToPlainIsPlain(MetadataObject(pairs).value);
  }

  /** What the material says, one datum under each of its six keys. */
  ghost predicate MaterialMeans(argumentsHash: string, envelope: Envelope, metadata: Json, table: map<Key, Data>) {
    table == map[
      TextKey("requester") := MeaningOf(RequesterMaterial(envelope.requester)),
      TextKey("metadata") := MeaningOf(ToPlain(metadata)),
      TextKey("effect") := MeaningOf(EffectMaterial(envelope.effect)),
      TextKey("canonical_arguments_hash") := TextData(argumentsHash),
      TextKey("arguments_ref") := MeaningOf(OptionalPlain(envelope.argumentsRef)),
      TextKey("arguments_mode") := TextData(ModeText(envelope.mode))]
  }

  lemma MaterialKeysDiffer()
    ensures TextKey("requester") !in {TextKey("metadata"), TextKey("effect"), TextKey("canonical_arguments_hash"),
                                      TextKey("arguments_ref"), TextKey("arguments_mode")}
    ensures TextKey("metadata") !in {TextKey("effect"), TextKey("canonical_arguments_hash"),
                                     TextKey("arguments_ref"), TextKey("arguments_mode")}
    ensures TextKey("effect") !in {TextKey("canonical_arguments_hash"), TextKey("arguments_ref"),
                                   TextKey("arguments_mode")}
    ensures TextKey("canonical_arguments_hash") !in {TextKey("arguments_ref"), TextKey("arguments_mode")}
    ensures TextKey("arguments_ref") != TextKey("arguments_mode")
  {
    assert |"requester"| == 9 && |"metadata"| == 8 && |"effect"| == 6;
    assert |"canonical_arguments_hash"| == 24 && |"arguments_ref"| == 13 && |"arguments_mode"| == 14;
    forall a: string, b: string | |a| != |b| ensures TextKey(a) != TextKey(b) {
      KeysDiffer(a, b);
    }
  }

  /** The last three entries of the material. */
  function NestedEntries(envelope: Envelope, metadata: Json): Entries {
    Entry(TextKey("effect"), EffectMaterial(envelope.effect),
    Entry(TextKey("metadata"), ToPlain(metadata),
    Entry(TextKey("requester"), RequesterMaterial(envelope.requester), NoEntries)))
  }

  lemma NestedMeaning(envelope: Envelope, metadata: Json)
    requires IsPlain(ToPlain(metadata))
    ensures EntriesArePlain(NestedEntries(envelope, metadata))
    ensures MeaningOfEntries(NestedEntries(envelope, metadata))
         == map[TextKey("requester") := MeaningOf(RequesterMaterial(envelope.requester)),
                TextKey("metadata") := MeaningOf(ToPlain(metadata)),
                TextKey("effect") := MeaningOf(EffectMaterial(envelope.effect))]
  {
    MaterialKeysDiffer();
    EffectMeaning(envelope.effect);
    RequesterMeaning(envelope.requester);
    var e6 := Entry(TextKey("requester"), RequesterMaterial(envelope.requester), NoEntries);
    var e5 := Entry(TextKey("metadata"), ToPlain(metadata), e6);
    OneMore("requester", RequesterMaterial(envelope.requester), NoEntries);
    OneMore("metadata", ToPlain(metadata), e6);
    OneMore("effect", EffectMaterial(envelope.effect), e5);
  }

  lemma MaterialEntriesMean(argumentsHash: string, envelope: Envelope, metadata: Json)
    requires IsPlain(ToPlain(metadata))
    ensures var material := Material(argumentsHash, envelope, metadata);
      IsPlain(material) && MaterialMeans(argumentsHash, envelope, metadata, MeaningOf(material).table)
  {
    MaterialKeysDiffer();
    NestedMeaning(envelope, metadata);
    var e4 := NestedEntries(envelope, metadata);
    var e3 := Entry(TextKey("canonical_arguments_hash"), PlainString(argumentsHash), e4);
    var e2 := Entry(TextKey("arguments_ref"), OptionalPlain(envelope.argumentsRef), e3);
    OneMore("canonical_arguments_hash", PlainString(argumentsHash), e4);
    OneMore("arguments_ref", OptionalPlain(envelope.argumentsRef), e3);
    OneMore("arguments_mode", PlainString(ModeText(envelope.mode)), e2);
  }

  lemma MaterialIsJson(argumentsHash: string, envelope: Envelope, metadata: Json, table: map<Key, Data>)
    requires MaterialMeans(argumentsHash, envelope, metadata, table)
    requires IsJsonData(MeaningOf(ToPlain(metadata)))
    ensures IsJsonData(DictData(table))
  {
    var effect := MeaningOf(EffectMaterial(envelope.effect));
    var requester := MeaningOf(RequesterMaterial(envelope.requester));
    EffectMeaning(envelope.effect);
    RequesterMeaning(envelope.requester);
    assert IsJsonData(effect) && IsJsonData(requester);
    forall key | key in table ensures key.TextKey? && key.text != "" && IsJsonData(table[key]) {
    }
  }

  lemma MaterialMeaning(argumentsHash: string, envelope: Envelope)
    requires MetadataObject(envelope.metadata).Ok?
    ensures var metadata := MetadataObject(envelope.metadata).value;
      var material := Material(argumentsHash, envelope, metadata);
      && IsPlain(material) && MaterialMeans(argumentsHash, envelope, metadata, MeaningOf(material).table)
      && FromPlain(material).Ok?
  {
    var metadata := MetadataObject(envelope.metadata).value;
    MetadataMeaning(envelope.metadata);
    MaterialEntriesMean(argumentsHash, envelope, metadata);
    var material := Material(argumentsHash, envelope, metadata);
    MaterialIsJson(argumentsHash, envelope, metadata, MeaningOf(material).table);
    AcceptedIff(material);
  }

  /** Two materials mean the same exactly when they agree under every key. */
  lemma MaterialIsIdentified(
    ha: string, a: Envelope, ma: Json, ta: map<Key, Data>, hb: string, b: Envelope, mb: Json, tb: map<Key, Data>)
    requires MaterialMeans(ha, a, ma, ta) && MaterialMeans(hb, b, mb, tb)
    ensures ta == tb
        <==> && MeaningOf(RequesterMaterial(a.requester)) == MeaningOf(RequesterMaterial(b.requester))
             && MeaningOf(ToPlain(ma)) == MeaningOf(ToPlain(mb))
             && MeaningOf(EffectMaterial(a.effect)) == MeaningOf(EffectMaterial(b.effect))
             && ha == hb
             && a.argumentsRef == b.argumentsRef
             && a.mode == b.mode
  {
    MaterialKeysDiffer();
    assert |ModeText(Inline)| == 6 && |ModeText(Reference)| == 9;
    if ta == tb {
      assert ta[TextKey("requester")] == tb[TextKey("requester")];
      assert ta[TextKey("metadata")] == tb[TextKey("metadata")];
      assert ta[TextKey("effect")] == tb[TextKey("effect")];
      assert ta[TextKey("canonical_arguments_hash")] == tb[TextKey("canonical_arguments_hash")];
      assert ta[TextKey("arguments_ref")] == tb[TextKey("arguments_ref")];
      assert ta[TextKey("arguments_mode")] == tb[TextKey("arguments_mode")];
    }
  }

  /** Everything an intent says, except when it was requested and how its requester is shown. */
  ghost predicate SameIntent(a: Envelope, b: Envelope) {
    && a.effect == b.effect && a.mode == b.mode && a.arguments == b.arguments
    && a.argumentsRef == b.argumentsRef
    && a.requester.id == b.requester.id && a.requester.kind == b.requester.kind
    && TableOf(a.metadata) == TableOf(b.metadata)
  }

  lemma ArgumentsHashIdentifies(hash: Digester, a: Envelope, b: Envelope)
    requires Injective(hash)
    ensures ArgumentsHash(hash, a) == ArgumentsHash(hash, b)
        <==> a.arguments == b.arguments && a.mode == b.mode && a.argumentsRef == b.argumentsRef
  {
    if ArgumentsHash(hash, a) == ArgumentsHash(hash, b) {
      var left := Member("arguments", a.arguments,
                  Member("arguments_mode", JsonString(ModeText(a.mode)),
                  Member("arguments_ref", OptionalText(a.argumentsRef), NoMembers)));
      var right := Member("arguments", b.arguments,
                   Member("arguments_mode", JsonString(ModeText(b.mode)),
                   Member("arguments_ref", OptionalText(b.argumentsRef), NoMembers)));
      BytesAreInjective(JsonObject(left), JsonObject(right));
      assert left.next.content == right.next.content;
      assert left.next.next.content == right.next.next.content;
      assert |ModeText(a.mode)| == |ModeText(b.mode)|;
    }
  }

  lemma DepictsIsUnique(a: map<Key, Data>, b: map<Key, Data>, s: map<string, string>, t: map<string, string>)
    requires Depicts(a, s) && Depicts(b, t)
    ensures a == b <==> s == t
  {
    if a == b {
      forall name ensures name in s <==> name in t {
        assert TextKey(name) in a <==> TextKey(name) in b;
      }
      forall name | name in s ensures s[name] == t[name] {
        assert a[TextKey(name)] == b[TextKey(name)];
      }
      assert s == t;
    }
    if s == t {
      forall key | key in a ensures key in b && a[key] == b[key] {
        assert key == TextKey(key.text);
      }
      assert a == b;
    }
  }

  /** Equal digests mean equal intents, whatever the insertion orders were; and equal intents
      have equal digests, whoever displays them and whenever they were made. */
  lemma DigestIdentifiesIntent(hash: Digester, a: Envelope, b: Envelope)
    requires Injective(hash)
    requires IntentDigest(hash, a).Ok? && IntentDigest(hash, b).Ok?
    ensures IntentDigest(hash, a) == IntentDigest(hash, b) <==> SameIntent(a, b)
  {
    var ha, hb := ArgumentsHash(hash, a), ArgumentsHash(hash, b);
    var ma, mb := MetadataObject(a.metadata).value, MetadataObject(b.metadata).value;
    var pa, pb := Material(ha, a, ma), Material(hb, b, mb);
    MaterialMeaning(ha, a);
    MaterialMeaning(hb, b);
    SameBytesIff(pa, pb);
    MaterialIsIdentified(ha, a, ma, MeaningOf(pa).table, hb, b, mb, MeaningOf(pb).table);
    ArgumentsHashIdentifies(hash, a, b);
    EffectIsIdentified(a.effect, b.effect);
    RequesterIsIdentified(a.requester, b.requester);
    MetadataMeaning(a.metadata);
    MetadataMeaning(b.metadata);
    DepictsIsUnique(MeaningOf(ToPlain(ma)).table, MeaningOf(ToPlain(mb)).table,
                    TableOf(a.metadata), TableOf(b.metadata));
  }

  /** The digest is refused exactly for metadata with an empty or a repeated key. */
  lemma DigestExistsIff(hash: Digester, envelope: Envelope)
    ensures IntentDigest(hash, envelope).Ok?
        <==> !HasPair(envelope.metadata, "") && PairsDistinct(envelope.metadata)
  {
    if MetadataObject(envelope.metadata).Ok? {
      MaterialMeaning(ArgumentsHash(hash, envelope), envelope);
    }
  }
}
