/** No JSON text for a value takes fewer bytes than its canonical text: reading consumes at
    least what writing the value would produce. */
module ShortestText {
  import opened Lifecycle
  import opened RetrySafety
  import opened Json
  import opened Bytes
  import opened CanonicalText
  import opened JsonReader

  /** The size of a text in UTF-8. */
  function Size(text: string): nat {
    |Utf8All(text)|
  }

  lemma SizeOfConcat(a: string, b: string)
    ensures Size(a + b) == Size(a) + Size(b)
  {
    Utf8Concat(a, b);
  }

  lemma SizeSplits(text: string, k: nat)
    requires k <= |text|
    ensures Size(text) == Size(text[..k]) + Size(text[k..])
  {
    SizeOfConcat(text[..k], text[k..]);
    assert text[..k] + text[k..] == text;
  }

  lemma {:induction false} SizeAtLeast(text: string)
    ensures Size(text) >= |text|
    decreases |text|
  {
    if |text| > 0 {
      SizeAtLeast(text[1..]);
    }
  }

  lemma SizeAfter(text: string, k: nat)
    requires k <= |text|
    ensures Size(text) >= k + Size(text[k..])
  {
    SizeSplits(text, k);
    SizeAtLeast(text[..k]);
  }

  lemma SizeOfAscii(text: string)
    requires IsAscii(text)
    ensures Size(text) == |text|
  {
    AsciiIsUtf8(text);
  }

  lemma {:induction false} SpaceCosts(text: string)
    ensures Size(SkipSpace(text)) <= Size(text)
    decreases |text|
  {
    if |text| > 0 && IsSpace(text[0]) {
      SpaceCosts(text[1..]);
      SizeAfter(text, 1);
    }
  }

  // ---------------------------------------------------------------- strings

  lemma SizeOfOne(c: char)
    ensures Size([c]) == |Utf8(c)|
  {
    assert [c][1..] == "" && Utf8All("") == [];
  }

  lemma SizeOfEscape(c: char)
    ensures Size(Escape(c)) <= 6
    ensures ShortEscape(c).Some? ==> Size(Escape(c)) == 2
    ensures ShortEscape(c).None? && c as int >= 32 ==> Size(Escape(c)) == |Utf8(c)|
  {
    SizeOfOne(c);
    if |Escape(c)| > 1 {
      SizeOfAscii(Escape(c));
    }
  }

  lemma ShortUtf8(c: char)
    ensures c as int < 128 ==> |Utf8(c)| == 1
  {
  }

  lemma CharCosts(text: string)
    requires |text| > 0 && text[0] != '\"' && ReadChar(text).Read?
    ensures Size(text) >= Size(ReadChar(text).rest) + Size(Escape(ReadChar(text).value))
  {
    var c, rest := ReadChar(text).value, ReadChar(text).rest;
    SizeOfEscape(c);
    SizeOfOne(c);
    ShortUtf8(c);
    if text[0] != '\\' {
      SizeSplits(text, 1);
      assert text[..1] == [c];
    } else if text[1] != 'u' {
      SizeAfter(text, 2);
    } else {
      SizeAfter(text, 6);
      if |rest| + 6 != |text| {
        SizeAfter(text[6..], 6);
        assert text[6..][6..] == rest;
      }
    }
  }

  lemma {:induction false} StringCosts(text: string)
    requires ReadString(text).Read?
    ensures Size(text) >= Size(ReadString(text).rest) + Size(EscapeAll(ReadString(text).value)) + 1
    decreases |text|
  {
    if text[0] == '\"' {
      SizeAfter(text, 1);
      assert Utf8All("") == [];
    } else {
      var c, rest := ReadChar(text).value, ReadChar(text).rest;
      var more := ReadString(rest).value;
      CharCosts(text);
      StringCosts(rest);
      assert ([c] + more)[1..] == more;
      SizeOfConcat(Escape(c), EscapeAll(more));
    }
  }

  lemma SizeOfQuoted(text: string)
    ensures Size(Quoted(text)) == Size(EscapeAll(text)) + 2
  {
    SizeOfConcat("\"" + EscapeAll(text), "\"");
    SizeOfConcat("\"", EscapeAll(text));
    SizeOfAscii("\"");
  }

  // ---------------------------------------------------------------- numbers

  lemma {:induction false} ShortestDigits(digits: string)
    requires AllDigits(digits) && |digits| > 0
    ensures |Decimal(DecimalValue(digits))| <= |digits|
    decreases |digits|
  {
    var front := digits[..|digits| - 1];
    if |front| > 0 {
      ShortestDigits(front);
      assert DecimalValue(digits) / 10 == DecimalValue(front);
    } else {
      assert DecimalValue(front) == 0;
    }
  }

  lemma DigitsAreAscii(text: string)
    requires AllDigits(text)
    ensures IsAscii(text)
  {
    forall i | 0 <= i < |text| ensures text[i] as int < 128 {
      assert IsDigit(text[i]);
    }
  }

  lemma SizeOfInt(n: int)
    ensures Size(IntText(n)) == |Decimal(Magnitude(n))| + (if n < 0 then 1 else 0)
  {
    DecimalRoundTrip(Magnitude(n));
    DigitsAreAscii(Decimal(Magnitude(n)));
    SizeOfAscii(IntText(n));
  }

  lemma MagnitudeCosts(negative: bool, text: string)
    requires ReadMagnitude(negative, text).Read?
    ensures Size(text) >= Size(ReadMagnitude(negative, text).rest)
    ensures ReadMagnitude(negative, text).value.PlainInt? ==>
              Size(text) + (if negative then 1 else 0)
              >= Size(ReadMagnitude(negative, text).rest)
                + Size(IntText(ReadMagnitude(negative, text).value.number))
  {
    var size := if text[0] == '0' then 1 else DigitRun(text);
    var rest := text[size..];
    var more := FractionSize(rest) + ExponentSize(rest[FractionSize(rest)..]);
    SizeAfter(text, size);
    SizeAfter(rest, more);
    DigitsCost(negative, text[..size]);
  }

  lemma DigitsCost(negative: bool, digits: string)
    requires AllDigits(digits) && |digits| > 0
    ensures |digits| + (if negative then 1 else 0) >= Size(IntText(Signed(negative, DecimalValue(digits))))
  {
    var value := DecimalValue(digits);
    ShortestDigits(digits);
    SizeOfInt(Signed(negative, value));
    assert Magnitude(Signed(negative, value)) == value;
  }

  lemma NumberCosts(text: string)
    requires ReadNumber(text).Read?
    ensures Size(text) >= Size(ReadNumber(text).rest)
    ensures ReadNumber(text).value.PlainInt? ==>
              Size(text) >= Size(ReadNumber(text).rest) + Size(IntText(ReadNumber(text).value.number))
    ensures ReadNumber(text).value.PlainInt? || ReadNumber(text).value.PlainFloat?
  {
    if "-" <= text {
      MagnitudeCosts(true, text[1..]);
      SizeAfter(text, 1);
    } else {
      MagnitudeCosts(false, text);
    }
  }

  /** Reading takes a value's text at least, where the value has a canonical text. */
  ghost predicate Costs(text: string, reading: Reading<Plain>) {
    reading.Read? ==>
      && Size(text) >= Size(reading.rest)
      && (FromPlain(reading.value).Ok? ==>
            Size(text) >= Size(reading.rest) + Size(Text(FromPlain(reading.value).value)))
  }

  lemma LiteralCosts(text: string, word: string, value: Plain)
    requires word <= text && IsAscii(word)
    requires FromPlain(value).Ok? ==> Text(FromPlain(value).value) == word
    ensures Costs(text, Read(value, text[|word|..]))
  {
    SizeAfter(text, |word|);
    SizeOfAscii(word);
  }

  /** Floats have no canonical text. */
  lemma FloatCosts(text: string, size: nat)
    requires size <= |text|
    ensures Costs(text, Read(PlainFloat, text[size..]))
  {
    SizeAfter(text, size);
  }

  lemma NumbersCost(text: string)
    ensures Costs(text, ReadNumber(text))
  {
    if ReadNumber(text).Read? {
      NumberCosts(text);
    }
  }

  lemma WordCosts(text: string)
    ensures Costs(text, ReadWord(text))
  {
    if |text| > 0 && (IsDigit(text[0]) || (text[0] == '-' && !("-Infinity" <= text))) {
      NumbersCost(text);
    } else if "null" <= text {
      LiteralCosts(text, "null", PlainNull);
    } else if "true" <= text {
      LiteralCosts(text, "true", PlainBool(true));
    } else if "false" <= text {
      LiteralCosts(text, "false", PlainBool(false));
    } else if "NaN" <= text {
      FloatCosts(text, 3);
    } else if "Infinity" <= text {
      FloatCosts(text, 8);
    } else if "-Infinity" <= text {
      FloatCosts(text, 9);
    }
  }

  // ---------------------------------------------------------------- containers

  /** What the items of a list take, each with the character after it. */
  function ItemsCost(items: Items): nat {
    match items
    case NoItems => 0
    case Item(first, more) => Size(Text(first)) + 1 + ItemsCost(more)
  }

  function PairCost(name: string, content: Json): nat {
    Size(Quoted(name)) + 1 + Size(Text(content)) + 1
  }

  function MembersCost(members: Members): nat {
    match members
    case NoMembers => 0
    case Member(name, content, next) => PairCost(name, content) + MembersCost(next)
  }

  lemma {:induction false} SizeOfItems(items: Items)
    ensures items.Item? ==> Size(ItemsText(items)) + 1 == ItemsCost(items)
    decreases items
  {
    if items.Item? && items.more.Item? {
      SizeOfItems(items.more);
      SizeOfConcat(Text(items.first) + ",", ItemsText(items.more));
      SizeOfConcat(Text(items.first), ",");
      SizeOfAscii(",");
    }
  }

  lemma {:induction false} SizeOfMembers(members: Members)
    ensures members.Member? ==> Size(MembersText(members)) + 1 == MembersCost(members)
    decreases members
  {
    if members.Member? {
      var own := Quoted(members.name) + ":" + Text(members.content);
      SizeOfConcat(Quoted(members.name) + ":", Text(members.content));
      SizeOfConcat(Quoted(members.name), ":");
      SizeOfAscii(":");
      if members.next.Member? {
        SizeOfMembers(members.next);
        SizeOfConcat(own + ",", MembersText(members.next));
        SizeOfConcat(own, ",");
        SizeOfAscii(",");
      }
    }
  }

  lemma SizeOfEnclosed(open: string, inner: string, close: string)
    requires |open| == 1 && |close| == 1 && IsAscii(open) && IsAscii(close)
    ensures Size(open + inner + close) == Size(inner) + 2
  {
    SizeOfConcat(open + inner, close);
    SizeOfConcat(open, inner);
    SizeOfAscii(open);
    SizeOfAscii(close);
  }

  lemma SizeOfContainer(value: Json)
    ensures value.JsonArray? ==>
              Size(Text(value)) == (if value.items.NoItems? then 2 else 1 + ItemsCost(value.items))
    ensures value.JsonObject? ==>
              Size(Text(value)) == (if value.members.NoMembers? then 2 else 1 + MembersCost(value.members))
  {
    if value.JsonArray? {
      SizeOfEnclosed("[", ItemsText(value.items), "]");
      SizeOfItems(value.items);
    } else if value.JsonObject? {
      SizeOfEnclosed("{", MembersText(value.members), "}");
      SizeOfMembers(value.members);
    }
  }

  lemma {:induction false} InsertCosts(name: string, content: Json, members: Members)
    ensures MembersCost(Insert(name, content, members)) == PairCost(name, content) + MembersCost(members)
    decreases members
  {
    if members.Member? && Below(members.name, name) {
      InsertCosts(name, content, members.next);
    }
  }

  /** The order in which pairs are sorted in does not change what they take. */
  lemma {:induction false} WithoutCosts(entries: Entries, key: Key)
    requires HasKey(entries, key)
    requires FromPlain(Lookup(entries, key)).Ok? && FromEntries(Without(entries, key)).Ok? && key.TextKey?
    ensures FromEntries(entries).Ok?
    ensures MembersCost(FromEntries(entries).value)
         == PairCost(key.text, FromPlain(Lookup(entries, key)).value)
            + MembersCost(FromEntries(Without(entries, key)).value)
    decreases entries
  {
    if entries.key == key {
      InsertCosts(key.text, FromPlain(entries.value).value, FromEntries(entries.others).value);
    } else {
      WithoutCosts(entries.others, key);
      var content := FromPlain(entries.value).value;
      InsertCosts(entries.key.text, content, FromEntries(entries.others).value);
      InsertCosts(entries.key.text, content, FromEntries(Without(entries.others, key)).value);
    }
  }

  /** A pair that is overridden costs nothing later. */
  lemma OverriddenCosts(key: string, value: Plain, others: Entries)
    requires FromEntries(Overridden(TextKey(key), value, others)).Ok?
    ensures FromEntries(others).Ok?
    ensures var total := MembersCost(FromEntries(Overridden(TextKey(key), value, others)).value);
      || total == MembersCost(FromEntries(others).value)
      || (&& FromPlain(value).Ok?
          && total == PairCost(key, FromPlain(value).value) + MembersCost(FromEntries(others).value))
  {
    if HasKey(others, TextKey(key)) {
      var later, rest := Lookup(others, TextKey(key)), Without(others, TextKey(key));
      WithoutCosts(others, TextKey(key));
      InsertCosts(key, FromPlain(later).value, FromEntries(rest).value);
    } else {
      InsertCosts(key, FromPlain(value).value, FromEntries(others).value);
    }
  }

  // ---------------------------------------------------------------- values

  lemma QuotedTextCosts(text: string)
    requires |text| > 0 && text[0] == '\"'
    ensures Costs(text, ReadValue(text))
  {
    if ReadValue(text).Read? {
      SizeAfter(text, 1);
      StringCosts(text[1..]);
      SizeOfQuoted(ReadString(text[1..]).value);
    }
  }

  lemma {:induction false} ValueCosts(text: string)
    ensures Costs(text, ReadValue(text))
    decreases |text|, 3
  {
    if ReadValue(text).Read? {
      if text[0] == '\"' {
        QuotedTextCosts(text);
      } else if text[0] == '[' {
        ListCosts(text);
      } else if text[0] == '{' {
        DictCosts(text);
      } else {
        WordCosts(text);
      }
    }
  }

  lemma {:induction false} ListCosts(text: string)
    requires |text| > 0 && text[0] == '[' && ReadValue(text).Read?
    ensures Costs(text, ReadValue(text))
    decreases |text|, 2
  {
    var inner := SkipSpace(text[1..]);
    SizeAfter(text, 1);
    SpaceCosts(text[1..]);
    SizeAfter(inner, 1);
    if !("]" <= inner) {
      ElementsCost(inner);
    }
    if FromPlain(ReadValue(text).value).Ok? {
      SizeOfContainer(FromPlain(ReadValue(text).value).value);
    }
  }

  lemma {:induction false} DictCosts(text: string)
    requires |text| > 0 && text[0] == '{' && ReadValue(text).Read?
    ensures Costs(text, ReadValue(text))
    decreases |text|, 2
  {
    var inner := SkipSpace(text[1..]);
    SizeAfter(text, 1);
    SpaceCosts(text[1..]);
    SizeAfter(inner, 1);
    if !("}" <= inner) {
      EntriesCost(inner);
    }
    if FromPlain(ReadValue(text).value).Ok? {
      SizeOfContainer(FromPlain(ReadValue(text).value).value);
    }
  }

  lemma {:induction false} ElementsCost(text: string)
    requires ReadElements(text).Read?
    ensures Size(text) >= Size(ReadElements(text).rest)
    ensures ReadElements(text).value.Element?
    ensures FromElements(ReadElements(text).value).Ok? ==>
              Size(text) >= Size(ReadElements(text).rest) + ItemsCost(FromElements(ReadElements(text).value).value)
    decreases |text|, 4
  {
    var rest := SkipSpace(ReadValue(text).rest);
    ValueCosts(text);
    SpaceCosts(ReadValue(text).rest);
    SizeAfter(rest, 1);
    if !("]" <= rest) {
      SpaceCosts(rest[1..]);
      ElementsCost(SkipSpace(rest[1..]));
    }
  }

  lemma KeyCosts(text: string)
    requires ReadKey(text).Read?
    ensures Size(text) >= Size(ReadKey(text).rest) + Size(Quoted(ReadKey(text).value)) + 1
  {
    var colon := SkipSpace(ReadString(text[1..]).rest);
    SizeAfter(text, 1);
    StringCosts(text[1..]);
    SizeOfQuoted(ReadKey(text).value);
    SpaceCosts(ReadString(text[1..]).rest);
    SizeAfter(colon, 1);
    SpaceCosts(colon[1..]);
  }

  lemma {:induction false} EntriesCost(text: string)
    requires ReadEntries(text).Read?
    ensures Size(text) >= Size(ReadEntries(text).rest)
    ensures ReadEntries(text).value.Entry?
    ensures FromEntries(ReadEntries(text).value).Ok? ==>
              Size(text) >= Size(ReadEntries(text).rest) + MembersCost(FromEntries(ReadEntries(text).value).value)
    decreases |text|, 4
  {
    var key, content := ReadKey(text).value, ReadKey(text).rest;
    var value, after := ReadValue(content).value, ReadValue(content).rest;
    var rest := SkipSpace(after);
    KeyCosts(text);
    ValueCosts(content);
    SpaceCosts(after);
    SizeAfter(rest, 1);
    if "}" <= rest {
      if FromPlain(value).Ok? {
        InsertCosts(key, FromPlain(value).value, NoMembers);
      }
    } else {
      var more := SkipSpace(rest[1..]);
      SpaceCosts(rest[1..]);
      EntriesCost(more);
      if FromEntries(ReadEntries(text).value).Ok? {
        OverriddenCosts(key, value, ReadEntries(more).value);
      }
    }
  }

  /** Whatever JSON text a value was read from, its canonical bytes are no more than that. */
  lemma CanonicalIsShortest(text: string)
    requires ReadDocument(text).Read? && FromPlain(ReadDocument(text).value).Ok?
    ensures |CanonicalBytes(FromPlain(ReadDocument(text).value).value)| <= |Utf8All(text)|
  {
    SpaceCosts(text);
    ValueCosts(SkipSpace(text));
  }
}
