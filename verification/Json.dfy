/** Plain values and canonical JSON values (domain/jsonutil.py). A plain value is what a JSON
    parser or a caller hands over: dictionaries keep their insertion order. A canonical value
    has no floats, and its objects have unique, non-empty, sorted keys. */
module Json {
  import opened Lifecycle

  datatype Plain =
    | PlainNull
    | PlainBool(flag: bool)
    | PlainInt(number: int)
    | PlainString(text: string)
    | PlainFloat
    | PlainOther
    | PlainList(elements: Elements)
    | PlainDict(entries: Entries)

  datatype Elements = NoElements | Element(head: Plain, rest: Elements)

  datatype Key = TextKey(text: string) | OtherKey(identity: nat)

  datatype Entries = NoEntries | Entry(key: Key, value: Plain, others: Entries)

  datatype Json =
    | JsonNull
    | JsonBool(flag: bool)
    | JsonInt(number: int)
    | JsonString(text: string)
    | JsonArray(items: Items)
    | JsonObject(members: Members)

  datatype Items = NoItems | Item(first: Json, more: Items)

  datatype Members = NoMembers | Member(name: string, content: Json, next: Members)

  datatype JsonError = NonCanonicalNumber | InvalidType | EmptyKey | DuplicateKey

  datatype Result<+T> = Ok(value: T) | Err(error: JsonError)

  // ---------------------------------------------------------------- key order

  /** Order by Unicode code point. */
  predicate Below(a: string, b: string) {
    if |b| == 0 then false
    else if |a| == 0 then true
    else if a[0] != b[0] then a[0] < b[0]
    else Below(a[1..], b[1..])
  }

  /** The texts agree up to k, where the first one ends or has the smaller character. */
  predicate PartsAt(a: string, b: string, k: nat) {
    && k <= |a| && k < |b| && a[..k] == b[..k]
    && (k == |a| || a[k] < b[k])
  }

  lemma {:induction false} BelowIff(a: string, b: string)
    ensures Below(a, b) <==> exists k: nat :: PartsAt(a, b, k)
  {
    if |a| > 0 && |b| > 0 && a[0] == b[0] {
      BelowIff(a[1..], b[1..]);
      if Below(a[1..], b[1..]) {
        var k: nat :| PartsAt(a[1..], b[1..], k);
        assert a[..k + 1] == [a[0]] + a[1..][..k] && b[..k + 1] == [b[0]] + b[1..][..k];
        assert PartsAt(a, b, k + 1);
      }
      if k: nat :| PartsAt(a, b, k) {
        assert a[1..][..k - 1] == a[..k][1..] && b[1..][..k - 1] == b[..k][1..];
        assert PartsAt(a[1..], b[1..], k - 1);
      }
    } else if |b| > 0 && (|a| == 0 || a[0] < b[0]) {
      assert PartsAt(a, b, 0);
    }
  }

  lemma {:induction false} BelowIsTransitive(a: string, b: string, c: string)
    requires Below(a, b) && Below(b, c)
    ensures Below(a, c)
  {
    if |a| > 0 && a[0] == b[0] && b[0] == c[0] {
      BelowIsTransitive(a[1..], b[1..], c[1..]);
    }
  }

  lemma {:induction false} BelowIsTotal(a: string, b: string)
    ensures a == b || Below(a, b) || Below(b, a)
    ensures !(Below(a, b) && Below(b, a)) && !Below(a, a)
  {
    if |a| > 0 && |b| > 0 && a[0] == b[0] {
      BelowIsTotal(a[1..], b[1..]);
      assert a == [a[0]] + a[1..] && b == [b[0]] + b[1..];
    }
    if |a| > 0 {
      BelowIsTotal(a[1..], a[1..]);
    }
  }

  // ---------------------------------------------------------------- canonical values

  predicate Sorted(members: Members) {
    match members
    case NoMembers => true
    case Member(name, _, next) => (next.Member? ==> Below(name, next.name)) && Sorted(next)
  }

  predicate HasName(members: Members, name: string) {
    members.Member? && (members.name == name || HasName(members.next, name))
  }

  /** The invariant of JsonArray and JsonObject, at every level. */
  predicate IsCanonical(value: Json) {
    match value
    case JsonArray(items) => ItemsCanonical(items)
    case JsonObject(members) => Sorted(members) && !HasName(members, "") && MembersCanonical(members)
    case _ => true
  }

  predicate ItemsCanonical(items: Items) {
    items.Item? ==> IsCanonical(items.first) && ItemsCanonical(items.more)
  }

  predicate MembersCanonical(members: Members) {
    members.Member? ==> IsCanonical(members.content) && MembersCanonical(members.next)
  }

  /** One step of the stable sort by key. */
  function Insert(name: string, content: Json, members: Members): Members {
    match members
    case NoMembers => Member(name, content, NoMembers)
    case Member(first, other, next) =>
      if Below(first, name) then Member(first, other, Insert(name, content, next))
      else Member(name, content, members)
  }

  function OptionalText(text: Option<string>): Json {
    match text
    case None => JsonNull
    case Some(content) => JsonString(content)
  }

  // ---------------------------------------------------------------- conversions

  /** json_from_plain */
  function FromPlain(value: Plain): Result<Json> {
    match value
    case PlainNull => Ok(JsonNull)
    case PlainBool(flag) => Ok(JsonBool(flag))
    case PlainInt(number) => Ok(JsonInt(number))
    case PlainString(text) => Ok(JsonString(text))
    case PlainFloat => Err(NonCanonicalNumber)
    case PlainOther => Err(InvalidType)
    case PlainList(elements) =>
      (match FromElements(elements)
       case Ok(items) => Ok(JsonArray(items))
       case Err(error) => Err(error))
    case PlainDict(entries) =>
      match FromEntries(entries)
      case Ok(members) => MakeObject(members)
      case Err(error) => Err(error)
  }

  function FromElements(elements: Elements): Result<Items> {
    match elements
    case NoElements => Ok(NoItems)
    case Element(head, rest) =>
      match FromPlain(head)
      case Err(error) => Err(error)
      case Ok(first) =>
        match FromElements(rest)
        case Err(error) => Err(error)
        case Ok(more) => Ok(Item(first, more))
  }

  /** The sorted pairs of a dictionary, or its first error in insertion order. */
  function FromEntries(entries: Entries): Result<Members> {
    match entries
    case NoEntries => Ok(NoMembers)
    case Entry(key, value, others) =>
      if key.OtherKey? then Err(InvalidType)
      else
        match FromPlain(value)
        case Err(error) => Err(error)
        case Ok(content) =>
          match FromEntries(others)
          case Err(error) => Err(error)
          case Ok(next) => Ok(Insert(key.text, content, next))
  }

  /** JsonObject.__post_init__ for pairs that are already sorted. */
  function MakeObject(members: Members): Result<Json> {
    if HasName(members, "") then Err(EmptyKey)
    else if !Sorted(members) then Err(DuplicateKey)
    else Ok(JsonObject(members))
  }

  /** json_to_plain */
  function ToPlain(value: Json): Plain {
    match value
    case JsonNull => PlainNull
    case JsonBool(flag) => PlainBool(flag)
    case JsonInt(number) => PlainInt(number)
    case JsonString(text) => PlainString(text)
    case JsonArray(items) => PlainList(ToElements(items))
    case JsonObject(members) => PlainDict(ToEntries(members))
  }

  function ToElements(items: Items): Elements {
    match items
    case NoItems => NoElements
    case Item(first, more) => Element(ToPlain(first), ToElements(more))
  }

  function ToEntries(members: Members): Entries {
    match members
    case NoMembers => NoEntries
    case Member(name, content, next) => Entry(TextKey(name), ToPlain(content), ToEntries(next))
  }

  // ---------------------------------------------------------------- meaning

  /** What a plain value says, whatever the order of its dictionaries. */
  datatype Data =
    | NullData
    | BoolData(flag: bool)
    | IntData(number: int)
    | TextData(text: string)
    | FloatData
    | OtherData
    | ListData(data: DataList)
    | DictData(table: map<Key, Data>)

  datatype DataList = NoData | MoreData(datum: Data, tail: DataList)

  function MeaningOf(value: Plain): Data {
    match value
    case PlainNull => NullData
    case PlainBool(flag) => BoolData(flag)
    case PlainInt(number) => IntData(number)
    case PlainString(text) => TextData(text)
    case PlainFloat => FloatData
    case PlainOther => OtherData
    case PlainList(elements) => ListData(MeaningOfElements(elements))
    case PlainDict(entries) => DictData(MeaningOfEntries(entries))
  }

  function MeaningOfElements(elements: Elements): DataList {
    match elements
    case NoElements => NoData
    case Element(head, rest) => MoreData(MeaningOf(head), MeaningOfElements(rest))
  }

  function MeaningOfEntries(entries: Entries): map<Key, Data> {
    match entries
    case NoEntries => map[]
    case Entry(key, value, others) => MeaningOfEntries(others)[key := MeaningOf(value)]
  }

  predicate HasKey(entries: Entries, key: Key) {
    entries.Entry? && (entries.key == key || HasKey(entries.others, key))
  }

  /** Python dictionaries have distinct keys, at every level. */
  predicate IsPlain(value: Plain) {
    match value
    case PlainList(elements) => ElementsArePlain(elements)
    case PlainDict(entries) => EntriesArePlain(entries)
    case _ => true
  }

  predicate ElementsArePlain(elements: Elements) {
    elements.Element? ==> IsPlain(elements.head) && ElementsArePlain(elements.rest)
  }

  predicate EntriesArePlain(entries: Entries) {
    entries.Entry? ==>
      && !HasKey(entries.others, entries.key) && IsPlain(entries.value) && EntriesArePlain(entries.others)
  }

  /** Meanings that have a canonical form: no floats or foreign objects, text keys only. */
  predicate IsJsonData(data: Data) {
    match data
    case FloatData => false
    case OtherData => false
    case ListData(list) => IsJsonList(list)
    case DictData(table) =>
      forall key :: key in table ==> key.TextKey? && key.text != "" && IsJsonData(table[key])
    case _ => true
  }

  predicate IsJsonList(list: DataList) {
    list.MoreData? ==> IsJsonData(list.datum) && IsJsonList(list.tail)
  }
}
