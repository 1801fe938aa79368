/** JSON objects with known keys: their fields in key order, their table of meanings, and their
    size. */
module WireObjects {
  import opened Lifecycle
  import opened Json
  import opened JsonLaws
  import opened Bytes
  import opened CanonicalText
  import opened JsonReader
  import opened ReadingLaws
  import opened ShortestText

  datatype Field = Field(name: string, content: Json)

  predicate Ascending(fields: seq<Field>) {
    && (forall i :: 0 <= i < |fields| ==> fields[i].name != "" && IsCanonical(fields[i].content))
    && (forall i, j :: 0 <= i < j < |fields| ==> Below(fields[i].name, fields[j].name))
  }

  function MembersOf(fields: seq<Field>): (members: Members)
    ensures members.Member? <==> |fields| > 0
  {
    if |fields| == 0 then NoMembers else Member(fields[0].name, fields[0].content, MembersOf(fields[1..]))
  }

  function ObjectOf(fields: seq<Field>): Json {
    JsonObject(MembersOf(fields))
  }

  lemma {:induction false} MembersAreCanonical(fields: seq<Field>, name: string)
    requires Ascending(fields)
    ensures Sorted(MembersOf(fields)) && MembersCanonical(MembersOf(fields))
    ensures HasName(MembersOf(fields), name) <==> exists i :: 0 <= i < |fields| && fields[i].name == name
    decreases |fields|
  {
    if |fields| > 0 {
      var rest := fields[1..];
      MembersAreCanonical(rest, name);
      if |rest| > 0 {
        assert Below(fields[0].name, rest[0].name);
      }
      assert (exists i :: 0 <= i < |fields| && fields[i].name == name)
          <==> fields[0].name == name || exists i :: 0 <= i < |rest| && rest[i].name == name by {
        if i :| 0 < i < |fields| && fields[i].name == name {
          assert rest[i - 1].name == name;
        }
        if i :| 0 <= i < |rest| && rest[i].name == name {
          assert fields[i + 1].name == name;
        }
      }
    }
  }

  lemma ObjectIsCanonical(fields: seq<Field>)
    requires Ascending(fields)
    ensures IsCanonical(ObjectOf(fields))
  {
    MembersAreCanonical(fields, "");
  }

  function KeysOf(fields: seq<Field>): set<Key> {
    set i | 0 <= i < |fields| :: TextKey(fields[i].name)
  }

  ghost predicate Holds(table: map<Key, Data>, field: Field) {
    TextKey(field.name) in table && table[TextKey(field.name)] == MeaningOfJson(field.content)
  }

  ghost predicate AllHold(table: map<Key, Data>, fields: seq<Field>) {
    |fields| > 0 ==> Holds(table, fields[0]) && AllHold(table, fields[1..])
  }

  lemma {:induction false} AllHoldIff(table: map<Key, Data>, fields: seq<Field>)
    ensures AllHold(table, fields) <==> forall i :: 0 <= i < |fields| ==> Holds(table, fields[i])
    decreases |fields|
  {
    if |fields| > 0 {
      var rest := fields[1..];
      AllHoldIff(table, rest);
      assert (forall i :: 0 <= i < |rest| ==> Holds(table, rest[i]))
          <==> forall i :: 1 <= i < |fields| ==> Holds(table, fields[i]) by {
        forall i | 1 <= i < |fields| ensures fields[i] == rest[i - 1] {
        }
        if forall i :: 1 <= i < |fields| ==> Holds(table, fields[i]) {
          forall i | 0 <= i < |rest| ensures Holds(table, rest[i]) {
            assert rest[i] == fields[i + 1];
          }
        }
      }
    }
  }

  /** The table has these fields and no others. */
  ghost predicate TableIs(table: map<Key, Data>, fields: seq<Field>) {
    table.Keys == KeysOf(fields) && AllHold(table, fields)
  }

  lemma TableIsUnique(a: map<Key, Data>, b: map<Key, Data>, fields: seq<Field>)
    requires TableIs(a, fields) && TableIs(b, fields)
    ensures a == b
  {
    AllHoldIff(a, fields);
    AllHoldIff(b, fields);
    forall key | key in a ensures a[key] == b[key] {
      var i :| 0 <= i < |fields| && key == TextKey(fields[i].name);
      assert Holds(a, fields[i]) && Holds(b, fields[i]);
    }
  }

  lemma KeysOfFirst(fields: seq<Field>)
    requires |fields| > 0
    ensures KeysOf(fields) == {TextKey(fields[0].name)} + KeysOf(fields[1..])
  {
    var rest := fields[1..];
    forall key | key in KeysOf(fields) ensures key in {TextKey(fields[0].name)} + KeysOf(rest) {
      var i :| 0 <= i < |fields| && key == TextKey(fields[i].name);
      if i > 0 {
        assert rest[i - 1] == fields[i];
      }
    }
    forall key | key in KeysOf(rest) ensures key in KeysOf(fields) {
      var i :| 0 <= i < |rest| && key == TextKey(rest[i].name);
      assert fields[i + 1] == rest[i];
    }
  }

  /** A first field in front of a table of the later ones. */
  lemma FirstIsAdded(table: map<Key, Data>, later: map<Key, Data>, fields: seq<Field>)
    requires |fields| > 0 && Ascending(fields) && TableIs(later, fields[1..])
    requires table == later[TextKey(fields[0].name) := MeaningOfJson(fields[0].content)]
    ensures TableIs(table, fields)
  {
    var rest := fields[1..];
    AllHoldIff(later, rest);
    AllHoldIff(table, rest);
    forall i | 0 <= i < |rest| ensures Holds(table, rest[i]) {
      assert Holds(later, rest[i]) && rest[i] == fields[i + 1];
      BelowIsTotal(fields[0].name, fields[i + 1].name);
    }
    KeysOfFirst(fields);
  }

  lemma FirstMeans(fields: seq<Field>)
    requires |fields| > 0 && Ascending(fields)
    requires TableIs(MeaningOfEntries(ToEntries(MembersOf(fields[1..]))), fields[1..])
    ensures MeaningOfEntries(ToEntries(MembersOf(fields)))
         == MeaningOfEntries(ToEntries(MembersOf(fields[1..])))
              [TextKey(fields[0].name) := MeaningOfJson(fields[0].content)]
  {
    var rest := fields[1..];
    if TextKey(fields[0].name) in KeysOf(rest) {
      var i :| 0 <= i < |rest| && rest[i].name == fields[0].name;
      assert rest[i] == fields[i + 1];
      BelowIsTotal(fields[0].name, fields[i + 1].name);
    }
  }

  lemma {:induction false} ObjectMeans(fields: seq<Field>)
    requires Ascending(fields)
    ensures TableIs(MeaningOfEntries(ToEntries(MembersOf(fields))), fields)
    decreases |fields|
  {
    if |fields| > 0 {
      ObjectMeans(fields[1..]);
      FirstMeans(fields);
      FirstIsAdded(MeaningOfEntries(ToEntries(MembersOf(fields))), MeaningOfEntries(ToEntries(MembersOf(fields[1..]))),
                   fields);
    }
  }

  /** Any plain value with this table is the same object. */
  lemma TableIdentifiesObject(value: Plain, fields: seq<Field>)
    requires IsPlain(value) && value.PlainDict? && Ascending(fields)
    requires TableIs(MeaningOf(value).table, fields)
    ensures FromPlain(value) == Ok(ObjectOf(fields))
  {
    ObjectIsCanonical(fields);
    ObjectMeans(fields);
    TableIsUnique(MeaningOf(value).table, MeaningOfJson(ObjectOf(fields)).table, fields);
    ToPlainIsPlain(ObjectOf(fields));
    RoundTrip(ObjectOf(fields));
    SameCanonicalIff(ToPlain(ObjectOf(fields)), value);
  }

  /** The sizes of the fields, each with its colon and the character after it. */
  function FieldsCost(fields: seq<Field>): nat {
    if |fields| == 0 then 0 else PairCost(fields[0].name, fields[0].content) + FieldsCost(fields[1..])
  }

  lemma {:induction false} SizeOfFields(fields: seq<Field>)
    ensures MembersCost(MembersOf(fields)) == FieldsCost(fields)
    decreases |fields|
  {
    if |fields| > 0 {
      SizeOfFields(fields[1..]);
    }
  }

  lemma SizeOfObject(fields: seq<Field>)
    requires |fields| > 0
    ensures |CanonicalBytes(ObjectOf(fields))| == 1 + FieldsCost(fields)
  {
    SizeOfContainer(ObjectOf(fields));
    SizeOfFields(fields);
  }

  lemma {:induction false} FieldsFit(fields: seq<Field>)
    requires forall i :: 0 <= i < |fields| ==> IntsFit(fields[i].content)
    ensures MemberIntsFit(MembersOf(fields))
    decreases |fields|
  {
    if |fields| > 0 {
      FieldsFit(fields[1..]);
    }
  }

  /** The first difference decides the order. */
  lemma {:induction false} BelowAt(a: string, b: string, k: nat)
    requires k < |a| && k < |b| && a[..k] == b[..k] && a[k] < b[k]
    ensures Below(a, b)
    decreases k
  {
    if k > 0 {
      assert a[0] == a[..k][0] && b[0] == b[..k][0];
      assert a[1..][..k - 1] == a[..k][1..] && b[1..][..k - 1] == b[..k][1..];
      BelowAt(a[1..], b[1..], k - 1);
    }
  }

  lemma {:induction false} PrefixIsBelow(a: string, more: string)
    requires |more| > 0
    ensures Below(a, a + more)
    decreases |a|
  {
    if |a| > 0 {
      assert (a + more)[1..] == a[1..] + more;
      PrefixIsBelow(a[1..], more);
    }
  }

  /** Neighbours in order are enough. */
  lemma {:induction false} NeighboursAscend(fields: seq<Field>, i: nat, j: nat)
    requires forall k :: 0 <= k < |fields| - 1 ==> Below(fields[k].name, fields[k + 1].name)
    requires i < j < |fields|
    ensures Below(fields[i].name, fields[j].name)
    decreases j
  {
    if i + 1 < j {
      NeighboursAscend(fields, i, j - 1);
      BelowIsTransitive(fields[i].name, fields[j - 1].name, fields[j].name);
    }
  }

  lemma AscendingByNeighbours(fields: seq<Field>)
    requires forall i :: 0 <= i < |fields| ==> fields[i].name != "" && IsCanonical(fields[i].content)
    requires forall k :: 0 <= k < |fields| - 1 ==> Below(fields[k].name, fields[k + 1].name)
    ensures Ascending(fields)
  {
    forall i, j | 0 <= i < j < |fields| ensures Below(fields[i].name, fields[j].name) {
      NeighboursAscend(fields, i, j);
    }
  }

  /** What one field contributes does not depend on the others. */
  lemma {:induction false} CostOfUpdate(fields: seq<Field>, i: nat, field: Field)
    requires i < |fields|
    ensures FieldsCost(fields[i := field]) + PairCost(fields[i].name, fields[i].content)
         == FieldsCost(fields) + PairCost(field.name, field.content)
    decreases |fields|
  {
    if i == 0 {
      assert fields[0 := field][1..] == fields[1..];
    } else {
      CostOfUpdate(fields[1..], i - 1, field);
      assert fields[i := field][1..] == fields[1..][i - 1 := field];
    }
  }

  lemma {:induction false} CostIsBounded(fields: seq<Field>, bound: nat)
    requires forall i :: 0 <= i < |fields| ==> PairCost(fields[i].name, fields[i].content) <= bound
    ensures FieldsCost(fields) <= |fields| * bound
    decreases |fields|
  {
    if |fields| > 0 {
      CostIsBounded(fields[1..], bound);
      assert |fields| * bound == (|fields| - 1) * bound + bound;
    }
  }

  lemma CostOfThree(a: Field, b: Field, c: Field)
    ensures FieldsCost([a, b, c])
         == PairCost(a.name, a.content) + PairCost(b.name, b.content) + PairCost(c.name, c.content)
  {
    CostOfParts([a], [b, c]);
    CostOfParts([b], [c]);
    assert [a] + [b, c] == [a, b, c] && [b] + [c] == [b, c];
  }

  // ---------------------------------------------------------------- sizes of texts

  lemma {:induction false} EscapedIsBounded(text: string)
    ensures Size(EscapeAll(text)) <= 6 * |text|
    decreases |text|
  {
    if |text| > 0 {
      EscapedIsBounded(text[1..]);
      SizeOfEscape(text[0]);
      SizeOfConcat(Escape(text[0]), EscapeAll(text[1..]));
    }
  }

  lemma QuotedIsBounded(text: string)
    ensures Size(Quoted(text)) <= 6 * |text| + 2
  {
    EscapedIsBounded(text);
    SizeOfQuoted(text);
  }

  /** Printable ASCII without quote and backslash. */
  predicate IsPlainText(text: string) {
    forall i :: 0 <= i < |text| ==> 32 <= text[i] as int < 127 && text[i] != '\"' && text[i] != '\\'
  }

  lemma {:induction false} PlainTextIsItself(text: string)
    requires IsPlainText(text)
    ensures EscapeAll(text) == text && Size(Quoted(text)) == |text| + 2
    decreases |text|
  {
    if |text| > 0 {
      assert IsPlainText(text[1..]);
      PlainTextIsItself(text[1..]);
      assert text == [text[0]] + text[1..];
    }
    SizeOfQuoted(text);
    SizeOfAscii(text);
  }

  lemma {:induction false} DecimalIsBounded(n: nat)
    ensures |Decimal(n)| <= 1 + n / 10
    decreases n
  {
    if n >= 10 {
      DecimalIsBounded(n / 10);
      assert n / 10 / 10 + 1 <= n / 10;
    }
  }

  // ---------------------------------------------------------------- objects as wholes

  /** Written and read, an object has the table of its fields. */
  lemma ObjectIsRead(fields: seq<Field>)
    requires Ascending(fields) && forall i :: 0 <= i < |fields| ==> IntsFit(fields[i].content)
    ensures var value := ObjectOf(fields);
      && FromUtf8(CanonicalBytes(value)) == Some(Text(value))
      && ReadDocument(Text(value)) == Read(ToPlain(value), "")
      && ToPlain(value).PlainDict?
      && TableIs(MeaningOf(ToPlain(value)).table, fields)
  {
    ObjectIsCanonical(fields);
    FieldsFit(fields);
    ReadsCanonicalBytes(ObjectOf(fields));
    ObjectMeans(fields);
  }

  lemma SizeOfUpdate(fields: seq<Field>, i: nat, field: Field)
    requires i < |fields|
    ensures |CanonicalBytes(ObjectOf(fields[i := field]))| + PairCost(fields[i].name, fields[i].content)
         == |CanonicalBytes(ObjectOf(fields))| + PairCost(field.name, field.content)
  {
    CostOfUpdate(fields, i, field);
    SizeOfObject(fields);
    SizeOfObject(fields[i := field]);
  }

  /** One long field among short ones. */
  lemma SizeIsBounded(fields: seq<Field>, i: nat, bound: nat)
    requires i < |fields|
    requires forall k :: 0 <= k < |fields| && k != i ==> PairCost(fields[k].name, fields[k].content) <= bound
    ensures |CanonicalBytes(ObjectOf(fields))|
         <= 1 + |fields| * bound + PairCost(fields[i].name, fields[i].content)
  {
    var others := fields[..i] + fields[i + 1..];
    CostWithout(fields, i);
    CostIsBounded(others, bound);
    assert |others| * bound <= |fields| * bound by { LessTimes(|others|, |fields|, bound); }
    SizeOfObject(fields);
  }

  lemma LessTimes(a: nat, b: nat, c: nat)
    requires a <= b
    ensures a * c <= b * c
  {
  }

  lemma {:induction false} CostWithout(fields: seq<Field>, i: nat)
    requires i < |fields|
    ensures FieldsCost(fields)
         == FieldsCost(fields[..i] + fields[i + 1..]) + PairCost(fields[i].name, fields[i].content)
    decreases i
  {
    if i == 0 {
      assert fields[..0] + fields[1..] == fields[1..];
    } else {
      CostWithout(fields[1..], i - 1);
      assert (fields[..i] + fields[i + 1..])[1..] == fields[1..][..i - 1] + fields[1..][i..];
      assert (fields[..i] + fields[i + 1..])[0] == fields[0];
    }
  }

  // ---------------------------------------------------------------- objects in parts

  lemma AscendingParts(a: seq<Field>, b: seq<Field>)
    requires Ascending(a) && Ascending(b) && |a| > 0 && |b| > 0
    requires Below(a[|a| - 1].name, b[0].name)
    ensures Ascending(a + b)
  {
    var all := a + b;
    forall k | 0 <= k < |all| - 1 ensures Below(all[k].name, all[k + 1].name) {
      if k + 1 < |a| {
        assert all[k] == a[k] && all[k + 1] == a[k + 1];
      } else if k >= |a| {
        assert all[k] == b[k - |a|] && all[k + 1] == b[k + 1 - |a|];
      }
    }
    AscendingByNeighbours(all);
  }

  lemma {:induction false} PartsHold(table: map<Key, Data>, a: seq<Field>, b: seq<Field>)
    ensures AllHold(table, a + b) <==> AllHold(table, a) && AllHold(table, b)
    decreases |a|
  {
    if |a| == 0 {
      assert a + b == b;
    } else {
      assert (a + b)[1..] == a[1..] + b;
      PartsHold(table, a[1..], b);
    }
  }

  lemma KeysOfParts(a: seq<Field>, b: seq<Field>)
    ensures KeysOf(a + b) == KeysOf(a) + KeysOf(b)
  {
    forall i | 0 <= i < |a| ensures TextKey(a[i].name) in KeysOf(a + b) {
      assert (a + b)[i] == a[i];
    }
    forall i | 0 <= i < |b| ensures TextKey(b[i].name) in KeysOf(a + b) {
      assert (a + b)[|a| + i] == b[i];
    }
  }

  lemma {:induction false} CostOfParts(a: seq<Field>, b: seq<Field>)
    ensures FieldsCost(a + b) == FieldsCost(a) + FieldsCost(b)
    decreases |a|
  {
    if |a| == 0 {
      assert a + b == b;
    } else {
      assert (a + b)[1..] == a[1..] + b;
      CostOfParts(a[1..], b);
    }
  }

  lemma ThreeAscend(a: Field, b: Field, c: Field)
    requires a.name != "" && Below(a.name, b.name) && Below(b.name, c.name)
    requires IsCanonical(a.content) && IsCanonical(b.content) && IsCanonical(c.content)
    ensures Ascending([a, b, c])
  {
    AscendingByNeighbours([a, b, c]);
  }

  lemma KeysOfThree(a: Field, b: Field, c: Field)
    ensures KeysOf([a, b, c]) == {TextKey(a.name), TextKey(b.name), TextKey(c.name)}
  {
    var fields := [a, b, c];
    assert TextKey(fields[0].name) in KeysOf(fields) && TextKey(fields[1].name) in KeysOf(fields)
        && TextKey(fields[2].name) in KeysOf(fields);
  }

  // ---------------------------------------------------------------- objects in ASCII

  /** A field that is written in printable ASCII without escapes. */
  predicate IsPlainField(field: Field) {
    && IsPlainText(field.name)
    && (|| field.content.JsonNull? || field.content.JsonInt?
        || (field.content.JsonString? && IsPlainText(field.content.text)))
  }

  predicate ArePlainFields(fields: seq<Field>) {
    forall i :: 0 <= i < |fields| ==> IsPlainField(fields[i])
  }

  lemma QuotedIsAscii(text: string)
    requires IsPlainText(text)
    ensures IsAscii(Quoted(text))
  {
    PlainTextIsItself(text);
  }

  lemma PlainContentIsAscii(field: Field)
    requires IsPlainField(field)
    ensures IsAscii(Text(field.content)) && IsAscii(Quoted(field.name))
  {
    QuotedIsAscii(field.name);
    if field.content.JsonString? {
      QuotedIsAscii(field.content.text);
    } else if field.content.JsonInt? {
      var n := field.content.number;
      DecimalRoundTrip(Magnitude(n));
      DigitsAreAscii(Decimal(Magnitude(n)));
    }
  }

  lemma {:induction false} PlainMembersAreAscii(fields: seq<Field>)
    requires ArePlainFields(fields)
    ensures IsAscii(MembersText(MembersOf(fields)))
    decreases |fields|
  {
    if |fields| > 0 {
      PlainContentIsAscii(fields[0]);
      PlainMembersAreAscii(fields[1..]);
    }
  }

  lemma PlainObjectIsAscii(fields: seq<Field>)
    requires ArePlainFields(fields)
    ensures FromAscii(CanonicalBytes(ObjectOf(fields))) == Some(Text(ObjectOf(fields)))
  {
    PlainMembersAreAscii(fields);
    AsciiIsUtf8(Text(ObjectOf(fields)));
    AsciiRoundTrip(Text(ObjectOf(fields)));
  }
}
