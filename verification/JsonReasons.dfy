/** For which reasons json_from_plain may refuse a meaning, and when the order in which a
    dictionary was filled does not matter for the reason. */
module JsonReasons {
  import opened Json
  import opened JsonLaws

  /** The reasons for refusing a meaning, over all orders of its dictionaries. A list is refused
      for its first offending element. */
  ghost function Reasons(data: Data): set<JsonError>
    decreases data, 0
  {
    match data
    case FloatData => {NonCanonicalNumber}
    case OtherData => {InvalidType}
    case ListData(list) => ListReasons(list)
    case DictData(table) =>
      var entries := set key, error | key in table && error in KeyReasons(key, table[key]) :: error;
      if entries == {} && TextKey("") in table then {EmptyKey} else entries
    case _ => {}
  }

  ghost function ListReasons(list: DataList): set<JsonError>
    decreases list, 0
  {
    match list
    case NoData => {}
    case MoreData(datum, tail) => if Reasons(datum) != {} then Reasons(datum) else ListReasons(tail)
  }

  /** A foreign key is refused whatever its value is. */
  ghost function KeyReasons(key: Key, data: Data): set<JsonError>
    decreases data, 1
  {
    if key.OtherKey? then {InvalidType} else Reasons(data)
  }

  ghost function TableReasons(table: map<Key, Data>): set<JsonError> {
    set key, error | key in table && error in KeyReasons(key, table[key]) :: error
  }

  // ---------------------------------------------------------------- every error is a reason

  /** What conversion answers is a reason, and there is none exactly when it accepts. */
  ghost predicate Explained<T>(result: Result<T>, reasons: set<JsonError>) {
    match result
    case Ok(_) => reasons == {}
    case Err(error) => error in reasons
  }

  lemma {:induction false} ReasonIsAmong(value: Plain)
    requires IsPlain(value)
    ensures Explained(FromPlain(value), Reasons(MeaningOf(value)))
    decreases value
  {
    match value
    case PlainList(elements) => ElementReasonIsAmong(elements);
    case PlainDict(entries) => DictReasonIsAmong(entries);
    case _ =>
  }

  lemma {:induction false} ElementReasonIsAmong(elements: Elements)
    requires ElementsArePlain(elements)
    ensures Explained(FromElements(elements), ListReasons(MeaningOfElements(elements)))
    decreases elements
  {
    if elements.Element? {
      ReasonIsAmong(elements.head);
      ElementReasonIsAmong(elements.rest);
    }
  }

  lemma {:induction false} DictReasonIsAmong(entries: Entries)
    requires EntriesArePlain(entries)
    ensures Explained(FromPlain(PlainDict(entries)), Reasons(DictData(MeaningOfEntries(entries))))
    decreases entries, 1
  {
    EntryReasonIsAmong(entries);
    if FromEntries(entries).Ok? {
      EntriesKeepMeaning(entries);
      NamesAreKeys(FromEntries(entries).value, TextKey(""));
    }
  }

  lemma {:induction false} EntryReasonIsAmong(entries: Entries)
    requires EntriesArePlain(entries)
    ensures Explained(FromEntries(entries), TableReasons(MeaningOfEntries(entries)))
    decreases entries, 0
  {
    if entries.Entry? {
      if entries.key.TextKey? { ReasonIsAmong(entries.value); }
      EntryReasonIsAmong(entries.others);
      ReasonsOfMore(entries);
    }
  }

  /** The reasons of an entry add to those of the entries after it. */
  lemma ReasonsOfMore(entries: Entries)
    requires entries.Entry? && EntriesArePlain(entries)
    ensures TableReasons(MeaningOfEntries(entries))
         == KeyReasons(entries.key, MeaningOf(entries.value)) + TableReasons(MeaningOfEntries(entries.others))
  {
    var rest, table := MeaningOfEntries(entries.others), MeaningOfEntries(entries);
    KeysAreEntries(entries.others, entries.key);
    assert table == rest[entries.key := MeaningOf(entries.value)];
    forall error | error in TableReasons(rest) ensures error in TableReasons(table) {
      var key :| key in rest && error in KeyReasons(key, rest[key]);
      assert table[key] == rest[key];
    }
    assert entries.key in table && table[entries.key] == MeaningOf(entries.value);
  }

  // ---------------------------------------------------------------- every reason is given

  /** The entries without this key. */
  function Without(entries: Entries, key: Key): Entries {
    match entries
    case NoEntries => NoEntries
    case Entry(first, value, others) =>
      if first == key then Without(others, key) else Entry(first, value, Without(others, key))
  }

  lemma {:induction false} WithoutForgets(entries: Entries, key: Key)
    requires EntriesArePlain(entries)
    ensures EntriesArePlain(Without(entries, key)) && !HasKey(Without(entries, key), key)
    ensures forall other :: HasKey(Without(entries, key), other) ==> HasKey(entries, other)
    ensures MeaningOfEntries(Without(entries, key)) == MeaningOfEntries(entries) - {key}
    decreases entries
  {
    if entries.Entry? {
      WithoutForgets(entries.others, key);
      KeysAreEntries(entries.others, entries.key);
    }
  }

  /** For every reason there is an order of the dictionaries, at every level, with which
      conversion gives that reason. */
  lemma {:induction false} ReasonIsAttained(value: Plain, error: JsonError) returns (other: Plain)
    requires IsPlain(value) && error in Reasons(MeaningOf(value))
    ensures IsPlain(other) && MeaningOf(other) == MeaningOf(value) && FromPlain(other) == Err(error)
    decreases value, 1
  {
    match value
    case PlainList(elements) =>
      var ordered := ElementReasonIsAttained(elements, error);
      other := PlainList(ordered);
    case PlainDict(entries) =>
      if error in TableReasons(MeaningOfEntries(entries)) {
        var key, first := EntryReasonIsAttained(entries, error);
        other := MovedToFront(entries, key, first, error);
      } else {
        ReasonIsAmong(value);
        other := value;
      }
    case _ => other := value;
  }

  lemma {:induction false} ElementReasonIsAttained(elements: Elements, error: JsonError)
    returns (other: Elements)
    requires ElementsArePlain(elements) && error in ListReasons(MeaningOfElements(elements))
    ensures ElementsArePlain(other) && MeaningOfElements(other) == MeaningOfElements(elements)
    ensures FromElements(other) == Err(error)
    decreases elements
  {
    if Reasons(MeaningOf(elements.head)) != {} {
      var head := ReasonIsAttained(elements.head, error);
      other := Element(head, elements.rest);
    } else {
      ReasonIsAmong(elements.head);
      var rest := ElementReasonIsAttained(elements.rest, error);
      other := Element(elements.head, rest);
    }
  }

  /** The entry that gives the reason, with its value in the right order. */
  lemma {:induction false} EntryReasonIsAttained(entries: Entries, error: JsonError)
    returns (key: Key, first: Plain)
    requires EntriesArePlain(entries) && error in TableReasons(MeaningOfEntries(entries))
    ensures key in MeaningOfEntries(entries) && MeaningOf(first) == MeaningOfEntries(entries)[key]
    ensures IsPlain(first)
    ensures if key.OtherKey? then error == InvalidType else FromPlain(first) == Err(error)
    decreases entries
  {
    ReasonsOfMore(entries);
    if error in KeyReasons(entries.key, MeaningOf(entries.value)) {
      key, first := entries.key, entries.value;
      if key.TextKey? { first := ReasonIsAttained(entries.value, error); }
    } else {
      KeysAreEntries(entries.others, entries.key);
      key, first := EntryReasonIsAttained(entries.others, error);
    }
  }

  lemma MovedToFront(entries: Entries, key: Key, first: Plain, error: JsonError) returns (other: Plain)
    requires EntriesArePlain(entries) && IsPlain(first)
    requires key in MeaningOfEntries(entries) && MeaningOf(first) == MeaningOfEntries(entries)[key]
    requires if key.OtherKey? then error == InvalidType else FromPlain(first) == Err(error)
    ensures IsPlain(other) && MeaningOf(other) == DictData(MeaningOfEntries(entries))
    ensures FromPlain(other) == Err(error)
  {
    WithoutForgets(entries, key);
    var ordered := Entry(key, first, Without(entries, key));
    assert MeaningOfEntries(ordered) == MeaningOfEntries(entries);
    other := PlainDict(ordered);
  }

  // ---------------------------------------------------------------- when the order does not matter

  /** Every plain value of the same meaning is answered alike. */
  ghost predicate OrderFree(value: Plain) {
    forall other :: IsPlain(other) && MeaningOf(other) == MeaningOf(value) ==> FromPlain(other) == FromPlain(value)
  }

  lemma AtMostOne(reasons: set<JsonError>)
    ensures |reasons| <= 1 <==> forall a, b :: a in reasons && b in reasons ==> a == b
  {
    if |reasons| > 1 {
      var a :| a in reasons;
      var others := reasons - {a};
      assert |others| > 0;
      var b :| b in others;
    } else if a :| a in reasons {
      assert |reasons - {a}| == 0;
    }
  }

  /** The answer does not depend on the order of any dictionary if and only if the meaning has
      at most one reason to be refused. */
  lemma OrderFreeIff(value: Plain)
    requires IsPlain(value)
    ensures OrderFree(value) <==> |Reasons(MeaningOf(value))| <= 1
  {
    var reasons := Reasons(MeaningOf(value));
    ReasonIsAmong(value);
    AtMostOne(reasons);
    if |reasons| <= 1 {
      forall other | IsPlain(other) && MeaningOf(other) == MeaningOf(value)
        ensures FromPlain(other) == FromPlain(value)
      {
        ReasonIsAmong(other);
        if FromPlain(value).Ok? { SameCanonicalIff(value, other); }
      }
    } else {
      var a, b :| a in reasons && b in reasons && a != b;
      var one := ReasonIsAttained(value, a);
      var two := ReasonIsAttained(value, b);
      assert FromPlain(one) != FromPlain(two);
    }
  }

  /** Such meanings exist: a dictionary with a float and a foreign key. */
  lemma ReasonDependsOnOrder()
    ensures var value := PlainDict(Entry(TextKey("a"), PlainFloat, Entry(OtherKey(0), PlainNull, NoEntries)));
      && IsPlain(value) && Reasons(MeaningOf(value)) == {NonCanonicalNumber, InvalidType} && !OrderFree(value)
  {
    var a, b := TextKey("a"), OtherKey(0);
    var table := MeaningOfEntries(Entry(a, PlainFloat, Entry(b, PlainNull, NoEntries)));
    assert table == map[a := FloatData, b := NullData];
    assert NonCanonicalNumber in KeyReasons(a, table[a]) && InvalidType in KeyReasons(b, table[b]);
    OrderFreeIff(PlainDict(Entry(a, PlainFloat, Entry(b, PlainNull, NoEntries))));
    assert |{NonCanonicalNumber, InvalidType}| == 2;
  }
}
