/** Canonical JSON values stand for meanings: conversion accepts exactly what has a canonical
    form, forgets exactly the key order, and loses nothing else. */
module JsonLaws {
  import opened Lifecycle
  import opened Json

  function MeaningOfMembers(members: Members): map<Key, Data> {
    MeaningOfEntries(ToEntries(members))
  }

  function MeaningOfJson(value: Json): Data {
    MeaningOf(ToPlain(value))
  }

  // ---------------------------------------------------------------- sorted members

  lemma {:induction false} FirstIsLeast(members: Members, name: string)
    requires Sorted(members) && HasName(members, name)
    ensures name == members.name || Below(members.name, name)
    decreases members
  {
    if members.name != name {
      FirstIsLeast(members.next, name);
      if name != members.next.name {
        BelowIsTransitive(members.name, members.next.name, name);
      }
    }
  }

  lemma FirstIsUnique(members: Members)
    requires members.Member? && Sorted(members)
    ensures !HasName(members.next, members.name)
  {
    if HasName(members.next, members.name) {
      FirstIsLeast(members.next, members.name);
      BelowIsTotal(members.name, members.next.name);
    }
  }

  lemma {:induction false} NamesAreKeys(members: Members, key: Key)
    ensures key in MeaningOfMembers(members) <==> key.TextKey? && HasName(members, key.text)
    decreases members
  {
    if members.Member? {
      NamesAreKeys(members.next, key);
    }
  }

  lemma {:induction false} InsertKeepsOrder(name: string, content: Json, members: Members)
    requires Sorted(members) && !HasName(members, name)
    ensures Sorted(Insert(name, content, members))
    ensures Insert(name, content, members).name == (if members.Member? && Below(members.name, name)
                                                    then members.name else name)
    decreases members
  {
    if members.Member? {
      BelowIsTotal(members.name, name);
      if Below(members.name, name) {
        InsertKeepsOrder(name, content, members.next);
      }
    }
  }

  lemma {:induction false} InsertAddsName(name: string, content: Json, members: Members, other: string)
    ensures HasName(Insert(name, content, members), other) <==> other == name || HasName(members, other)
    ensures MembersCanonical(Insert(name, content, members))
        <==> MembersCanonical(members) && IsCanonical(content)
    decreases members
  {
    if members.Member? {
      InsertAddsName(name, content, members.next, other);
    }
  }

  lemma {:induction false} InsertMeans(name: string, content: Json, members: Members)
    requires !HasName(members, name)
    ensures MeaningOfMembers(Insert(name, content, members))
         == MeaningOfMembers(members)[TextKey(name) := MeaningOfJson(content)]
    decreases members
  {
    if members.Member? && Below(members.name, name) {
      InsertMeans(name, content, members.next);
      var rest := MeaningOfMembers(members.next);
      assert rest[TextKey(name) := MeaningOfJson(content)][TextKey(members.name) := MeaningOfJson(members.content)]
          == rest[TextKey(members.name) := MeaningOfJson(members.content)][TextKey(name) := MeaningOfJson(content)];
    }
  }

  // ---------------------------------------------------------------- conversion keeps the meaning

  lemma {:induction false} KeysAreEntries(entries: Entries, key: Key)
    ensures key in MeaningOfEntries(entries) <==> HasKey(entries, key)
    decreases entries
  {
    if entries.Entry? {
      KeysAreEntries(entries.others, key);
    }
  }

  /** json_from_plain yields a canonical value with the same meaning. */
  lemma {:induction false} ConversionKeepsMeaning(value: Plain)
    requires IsPlain(value) && FromPlain(value).Ok?
    ensures IsCanonical(FromPlain(value).value)
    ensures MeaningOfJson(FromPlain(value).value) == MeaningOf(value)
    decreases value
  {
    match value
    case PlainList(elements) => ElementsKeepMeaning(elements);
    case PlainDict(entries) => EntriesKeepMeaning(entries);
    case _ =>
  }

  lemma {:induction false} ElementsKeepMeaning(elements: Elements)
    requires ElementsArePlain(elements) && FromElements(elements).Ok?
    ensures ItemsCanonical(FromElements(elements).value)
    ensures MeaningOfElements(ToElements(FromElements(elements).value)) == MeaningOfElements(elements)
    decreases elements
  {
    if elements.Element? {
      ConversionKeepsMeaning(elements.head);
      ElementsKeepMeaning(elements.rest);
    }
  }

  lemma {:induction false} EntriesKeepMeaning(entries: Entries)
    requires EntriesArePlain(entries) && FromEntries(entries).Ok?
    ensures Sorted(FromEntries(entries).value) && MembersCanonical(FromEntries(entries).value)
    ensures MeaningOfMembers(FromEntries(entries).value) == MeaningOfEntries(entries)
    decreases entries
  {
    if entries.Entry? {
      var name, content, next :=
        entries.key.text, FromPlain(entries.value).value, FromEntries(entries.others).value;
      ConversionKeepsMeaning(entries.value);
      EntriesKeepMeaning(entries.others);
      KeysAreEntries(entries.others, entries.key);
      NamesAreKeys(next, entries.key);
      InsertKeepsOrder(name, content, next);
      InsertAddsName(name, content, next, name);
      InsertMeans(name, content, next);
    }
  }

  // ---------------------------------------------------------------- acceptance

  /** A table whose keys are texts and whose values are JSON. */
  predicate IsJsonTable(table: map<Key, Data>) {
    forall key :: key in table ==> key.TextKey? && IsJsonData(table[key])
  }

  /** A dictionary is accepted exactly when its meaning is JSON; then no key is duplicated, so
      the only complaint left to the object is about an empty key. */
  lemma {:induction false} AcceptedIff(value: Plain)
    requires IsPlain(value)
    ensures FromPlain(value).Ok? <==> IsJsonData(MeaningOf(value))
    ensures FromPlain(value) != Err(DuplicateKey)
    decreases value
  {
    match value
    case PlainList(elements) => ElementsAcceptedIff(elements);
    case PlainDict(entries) =>
      EntriesAcceptedIff(entries);
      if FromEntries(entries).Ok? {
        EntriesKeepMeaning(entries);
        NamesAreKeys(FromEntries(entries).value, TextKey(""));
        var table := MeaningOfEntries(entries);
        if TextKey("") !in table {
          forall key | key in table ensures key.TextKey? && key.text != "" && IsJsonData(table[key]) {
            assert key == TextKey(key.text);
          }
        }
      }
    case _ =>
  }

  lemma {:induction false} ElementsAcceptedIff(elements: Elements)
    requires ElementsArePlain(elements)
    ensures FromElements(elements).Ok? <==> IsJsonList(MeaningOfElements(elements))
    ensures FromElements(elements) != Err(DuplicateKey)
    decreases elements
  {
    if elements.Element? {
      AcceptedIff(elements.head);
      ElementsAcceptedIff(elements.rest);
    }
  }

  lemma {:induction false} EntriesAcceptedIff(entries: Entries)
    requires EntriesArePlain(entries)
    ensures FromEntries(entries).Ok? <==> IsJsonTable(MeaningOfEntries(entries))
    ensures FromEntries(entries) != Err(DuplicateKey)
    decreases entries
  {
    if entries.Entry? {
      AcceptedIff(entries.value);
      EntriesAcceptedIff(entries.others);
      KeysAreEntries(entries.others, entries.key);
      var rest, table := MeaningOfEntries(entries.others), MeaningOfEntries(entries);
      assert table[entries.key] == MeaningOf(entries.value);
      if IsJsonTable(table) {
        forall key | key in rest ensures key.TextKey? && IsJsonData(rest[key]) {
          assert key in table && table[key] == rest[key];
        }
      }
    }
  }

  // ---------------------------------------------------------------- one form per meaning

  /** Two canonical values with one meaning are the same value. */
  lemma {:induction false} CanonicalFormIsUnique(a: Json, b: Json)
    requires IsCanonical(a) && IsCanonical(b) && MeaningOfJson(a) == MeaningOfJson(b)
    ensures a == b
    decreases a
  {
    match a
    case JsonArray(items) => ItemsAreUnique(items, b.items);
    case JsonObject(members) => MembersAreUnique(members, b.members);
    case _ =>
  }

  lemma {:induction false} ItemsAreUnique(a: Items, b: Items)
    requires ItemsCanonical(a) && ItemsCanonical(b)
    requires MeaningOfElements(ToElements(a)) == MeaningOfElements(ToElements(b))
    ensures a == b
    decreases a
  {
    if a.Item? {
      CanonicalFormIsUnique(a.first, b.first);
      ItemsAreUnique(a.more, b.more);
    }
  }

  lemma SameFirstName(a: Members, b: Members)
    requires Sorted(a) && Sorted(b) && a.Member?
    requires MeaningOfMembers(a) == MeaningOfMembers(b)
    ensures b.Member? && a.name == b.name
  {
    NamesAreKeys(a, TextKey(a.name));
    NamesAreKeys(b, TextKey(a.name));
    FirstIsLeast(b, a.name);
    NamesAreKeys(b, TextKey(b.name));
    NamesAreKeys(a, TextKey(b.name));
    FirstIsLeast(a, b.name);
    BelowIsTotal(a.name, b.name);
  }

  lemma MeaningOfNext(members: Members)
    requires members.Member? && Sorted(members)
    ensures MeaningOfMembers(members.next) == MeaningOfMembers(members) - {TextKey(members.name)}
    ensures TextKey(members.name) in MeaningOfMembers(members)
    ensures MeaningOfMembers(members)[TextKey(members.name)] == MeaningOfJson(members.content)
  {
    FirstIsUnique(members);
    NamesAreKeys(members.next, TextKey(members.name));
  }

  lemma {:induction false} MembersAreUnique(a: Members, b: Members)
    requires Sorted(a) && Sorted(b) && MembersCanonical(a) && MembersCanonical(b)
    requires MeaningOfMembers(a) == MeaningOfMembers(b)
    ensures a == b
    decreases a
  {
    if a.Member? {
      SameFirstName(a, b);
      MeaningOfNext(a);
      MeaningOfNext(b);
      CanonicalFormIsUnique(a.content, b.content);
      MembersAreUnique(a.next, b.next);
    } else if b.Member? {
      SameFirstName(b, a);
    }
  }

  // ---------------------------------------------------------------- results

  lemma {:induction false} ToPlainIsPlain(value: Json)
    requires IsCanonical(value)
    ensures IsPlain(ToPlain(value)) && IsJsonData(MeaningOfJson(value))
    decreases value
  {
    match value
    case JsonArray(items) => ToElementsArePlain(items);
    case JsonObject(members) =>
      ToEntriesArePlain(members);
      forall key | key in MeaningOfMembers(members) ensures key.TextKey? && key.text != "" {
        NamesAreKeys(members, key);
      }
    case _ =>
  }

  lemma {:induction false} ToElementsArePlain(items: Items)
    requires ItemsCanonical(items)
    ensures ElementsArePlain(ToElements(items)) && IsJsonList(MeaningOfElements(ToElements(items)))
    decreases items
  {
    if items.Item? {
      ToPlainIsPlain(items.first);
      ToElementsArePlain(items.more);
    }
  }

  lemma {:induction false} ToEntriesArePlain(members: Members)
    requires Sorted(members) && MembersCanonical(members)
    ensures EntriesArePlain(ToEntries(members))
    ensures IsJsonTable(MeaningOfMembers(members))
    decreases members
  {
    if members.Member? {
      ToPlainIsPlain(members.content);
      ToEntriesArePlain(members.next);
      FirstIsUnique(members);
      KeysAreEntries(ToEntries(members.next), TextKey(members.name));
      NamesAreKeys(members.next, TextKey(members.name));
    }
  }

  /** json_from_plain inverts json_to_plain. */
  lemma RoundTrip(value: Json)
    requires IsCanonical(value)
    ensures FromPlain(ToPlain(value)) == Ok(value)
  {
    ToPlainIsPlain(value);
    AcceptedIff(ToPlain(value));
    ConversionKeepsMeaning(ToPlain(value));
    CanonicalFormIsUnique(FromPlain(ToPlain(value)).value, value);
  }

  /** Two plain values convert to the same canonical value exactly when they mean the same;
      the insertion order of keys is all that the conversion forgets, at any level. */
  lemma SameCanonicalIff(a: Plain, b: Plain)
    requires IsPlain(a) && IsPlain(b) && FromPlain(a).Ok?
    ensures FromPlain(a) == FromPlain(b) <==> MeaningOf(a) == MeaningOf(b)
  {
    AcceptedIff(a);
    AcceptedIff(b);
    ConversionKeepsMeaning(a);
    if FromPlain(b).Ok? {
      ConversionKeepsMeaning(b);
      if MeaningOf(a) == MeaningOf(b) {
        CanonicalFormIsUnique(FromPlain(a).value, FromPlain(b).value);
      }
    }
  }
}
