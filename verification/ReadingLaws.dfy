/** What reading JSON text makes of canonical text, and why no text for a value is shorter. */
module ReadingLaws {
  import opened Lifecycle
  import opened RetrySafety
  import opened Json
  import opened Bytes
  import opened CanonicalText
  import opened JsonReader

  // ---------------------------------------------------------------- strings

  lemma HexRoundTrip(d: nat)
    requires d < 16
    ensures HexValue(HexChar(d)) == Some(d)
  {
  }

  lemma ReadsEscape(c: char, x: string)
    ensures ReadChar(Escape(c) + x) == Read(c, x)
  {
    var text := Escape(c) + x;
    EscapeShape(c, x);
    if ShortEscape(c).None? && c as int < 32 {
      var n := c as int;
      HexRoundTrip(n / 16);
      HexRoundTrip(n % 16);
      assert text[2..][0] == '0' && text[2..][1] == '0';
      assert text[2..][2] == HexChar(n / 16) && text[2..][3] == HexChar(n % 16);
      assert HexQuad(text[2..]) == Some(n);
      assert text[6..] == x;
    } else if ShortEscape(c).Some? {
      assert text[0] == '\\' && text[1] == ShortEscape(c).value && text[2..] == x;
    } else {
      assert text[0] == c && text[1..] == x;
    }
  }

  lemma {:induction false} ReadsEscapedText(text: string, x: string)
    ensures ReadString(EscapeAll(text) + "\"" + x) == Read(text, x)
    decreases |text|
  {
    EscapedTextUnfolds(text, x);
    if |text| > 0 {
      ReadsEscape(text[0], EscapeAll(text[1..]) + "\"" + x);
      ReadsEscapedText(text[1..], x);
      assert text == [text[0]] + text[1..];
    }
  }

  lemma ReadsQuoted(text: string, x: string)
    ensures "\"" <= Quoted(text) + x
    ensures ReadString((Quoted(text) + x)[1..]) == Read(text, x)
  {
    assert (Quoted(text) + x)[1..] == EscapeAll(text) + "\"" + x;
    ReadsEscapedText(text, x);
  }

  // ---------------------------------------------------------------- numbers

  lemma {:induction false} RunOfDigits(digits: string, x: string)
    requires AllDigits(digits) && Stops(x)
    ensures DigitRun(digits + x) == |digits|
    decreases |digits|
  {
    if |digits| == 0 {
      assert digits + x == x;
    } else {
      assert (digits + x)[1..] == digits[1..] + x;
      RunOfDigits(digits[1..], x);
    }
  }

  lemma {:induction false} DecimalHasNoLeadingZero(n: nat)
    ensures |Decimal(n)| > 0
    ensures Decimal(n)[0] == '0' <==> n == 0
    ensures n < 10 ==> |Decimal(n)| == 1
    decreases n
  {
    if n >= 10 {
      DecimalHasNoLeadingZero(n / 10);
    }
  }

  lemma NoFraction(x: string)
    requires Follows(x)
    ensures Stops(x) && FractionSize(x) == 0 && x[0..] == x && ExponentSize(x) == 0
  {
  }

  lemma ReadsDecimal(n: nat, x: string, negative: bool)
    requires Follows(x) && |Decimal(n)| <= MAX_INT_DIGITS
    ensures ReadMagnitude(negative, Decimal(n) + x) == Read(PlainInt(Signed(negative, n)), x)
  {
    var digits, text := Decimal(n), Decimal(n) + x;
    DecimalRoundTrip(n);
    DecimalHasNoLeadingZero(n);
    NoFraction(x);
    RunOfDigits(digits, x);
    assert text[0] == digits[0] && IsDigit(digits[0]);
    assert text[..|digits|] == digits && text[|digits|..] == x;
  }

  lemma NotAWord(text: string)
    requires |text| > 0 && (IsDigit(text[0]) || (text[0] == '-' && |text| > 1 && IsDigit(text[1])))
    ensures ReadWord(text) == ReadNumber(text)
  {
    assert "-Infinity"[1] == 'I' && !IsDigit('I');
  }

  lemma ReadsInt(n: int, x: string)
    requires Follows(x) && |Decimal(Magnitude(n))| <= MAX_INT_DIGITS
    ensures ReadWord(IntText(n) + x) == Read(PlainInt(n), x)
  {
    var text, digits := IntText(n) + x, Decimal(Magnitude(n));
    IntTextShape(n, x);
    ReadsDecimal(Magnitude(n), x, n < 0);
    DecimalHasNoLeadingZero(Magnitude(n));
    if n < 0 {
      assert text[1] == text[1..][0] && (digits + x)[0] == digits[0];
    }
    NotAWord(text);
  }

  lemma LongMagnitude(digits: string)
    requires AllDigits(digits) && |digits| > MAX_INT_DIGITS && digits[0] != '0'
    ensures ReadMagnitude(false, digits) == TooManyDigits
  {
    RunOfDigits(digits, "");
    assert digits + "" == digits;
    NoFraction("");
    assert digits[|digits|..] == "";
  }

  /** A longer integer stops the reading, whatever else there is to complain about. */
  lemma LongIntegerStops(digits: string)
    requires AllDigits(digits) && |digits| > MAX_INT_DIGITS && digits[0] != '0'
    ensures ReadDocument(digits) == TooManyDigits
  {
    LongMagnitude(digits);
    assert IsDigit(digits[0]);
    NotAWord(digits);
    assert SkipSpace(digits) == digits;
  }

  // ---------------------------------------------------------------- values

  /** Integers that the interpreter reads. */
  predicate IntsFit(value: Json) {
    match value
    case JsonInt(number) => |Decimal(Magnitude(number))| <= MAX_INT_DIGITS
    case JsonArray(items) => ItemIntsFit(items)
    case JsonObject(members) => MemberIntsFit(members)
    case _ => true
  }

  predicate ItemIntsFit(items: Items) {
    items.Item? ==> IntsFit(items.first) && ItemIntsFit(items.more)
  }

  predicate MemberIntsFit(members: Members) {
    members.Member? ==> IntsFit(members.content) && MemberIntsFit(members.next)
  }

  /** Canonical text has no space to skip. */
  lemma NoSpace(value: Json, x: string)
    ensures SkipSpace(Text(value) + x) == Text(value) + x
    ensures !("]" <= Text(value) + x)
  {
    TextUnfolds(value, x);
  }

  lemma NoSpaceAfter(x: string)
    requires Follows(x)
    ensures SkipSpace(x) == x
  {
  }

  /** Canonical text reads as the value it was made from. */
  lemma {:induction false} ReadsText(value: Json, x: string)
    requires IsCanonical(value) && IntsFit(value) && Follows(x)
    ensures ReadValue(Text(value) + x) == Read(ToPlain(value), x)
    decreases value
  {
    var text := Text(value) + x;
    TextUnfolds(value, x);
    match value
    case JsonNull => assert "null" <= text && text[4..] == x;
    case JsonBool(flag) =>
      if flag {
        assert "true" <= text && text[4..] == x;
      } else {
        assert "false" <= text && text[5..] == x;
      }
    case JsonInt(number) => ReadsInt(number, x);
    case JsonString(content) => ReadsQuoted(content, x);
    case JsonArray(items) =>
      var inner := ItemsText(items) + "]" + x;
      ItemsTextUnfolds(items, x);
      if items.Item? {
        NoSpace(items.first, AfterItem(items.more, x));
        ReadsItems(items, x);
      }
    case JsonObject(members) =>
      var inner := MembersText(members) + "}" + x;
      MembersTextUnfolds(members, x);
      if members.Member? {
        ReadsMembers(members, x);
      }
  }

  lemma {:induction false} ReadsItems(items: Items, x: string)
    requires items.Item? && ItemsCanonical(items) && ItemIntsFit(items)
    ensures ReadElements(ItemsText(items) + "]" + x) == Read(ToElements(items), x)
    decreases items
  {
    var after := AfterItem(items.more, x);
    ItemsTextUnfolds(items, x);
    AfterItemUnfolds(items.more, x);
    ReadsText(items.first, after);
    NoSpaceAfter(after);
    if items.more.Item? {
      ReadsItems(items.more, x);
      ItemsTextUnfolds(items.more, x);
      NoSpace(items.more.first, AfterItem(items.more.more, x));
    }
  }

  lemma ReadsKey(name: string, value: Json, after: string)
    ensures ReadKey(Quoted(name) + (":" + (Text(value) + after))) == Read(name, Text(value) + after)
  {
    var colon := ":" + (Text(value) + after);
    ReadsQuoted(name, colon);
    assert SkipSpace(colon) == colon && colon[1..] == Text(value) + after;
    NoSpace(value, after);
  }

  lemma {:induction false} NotAmongLater(members: Members, name: string)
    requires Sorted(members) && members.Member? && Below(name, members.name)
    ensures !HasKey(ToEntries(members), TextKey(name))
    decreases members
  {
    BelowIsTotal(name, members.name);
    if members.next.Member? {
      BelowIsTransitive(name, members.name, members.next.name);
      NotAmongLater(members.next, name);
    }
  }

  lemma {:induction false} ReadsMembers(members: Members, x: string)
    requires members.Member? && Sorted(members) && MembersCanonical(members) && MemberIntsFit(members)
    ensures ReadEntries(MembersText(members) + "}" + x) == Read(ToEntries(members), x)
    ensures SkipSpace(MembersText(members) + "}" + x) == MembersText(members) + "}" + x
    ensures !("}" <= MembersText(members) + "}" + x)
    decreases members
  {
    var text, after := MembersText(members) + "}" + x, AfterMember(members.next, x);
    MembersTextUnfolds(members, x);
    assert text[0] == '\"';
    AfterMemberUnfolds(members.next, x);
    ReadsKey(members.name, members.content, after);
    ReadsText(members.content, after);
    NoSpaceAfter(after);
    if members.next.Member? {
      ReadsMembers(members.next, x);
      NotAmongLater(members.next, members.name);
    }
  }

  /** Reading canonical bytes gives back what json_to_plain gives. */
  lemma ReadsCanonicalBytes(value: Json)
    requires IsCanonical(value) && IntsFit(value)
    ensures FromUtf8(CanonicalBytes(value)) == Some(Text(value))
    ensures ReadDocument(Text(value)) == Read(ToPlain(value), "")
  {
    Utf8RoundTrip(Text(value));
    ReadsText(value, "");
    NoSpace(value, "");
    assert Text(value) + "" == Text(value);
  }
}
