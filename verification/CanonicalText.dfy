/** Canonical JSON text and bytes (domain/canonical.py): json.dumps without spaces, with sorted
    keys and only the escapes that RFC 8259 section 7 requires, in UTF-8 (RFC 3629). Text is
    made of Unicode scalar values; lone surrogates cannot be encoded and do not occur. */
module CanonicalText {
  import opened Lifecycle
  import opened RetrySafety
  import opened Json
  import opened JsonLaws
  import opened Bytes

  // ---------------------------------------------------------------- numbers

  function DigitChar(d: nat): (c: char)
    requires d < 10
    ensures IsDigit(c) && DigitValue(c) == d
  {
    "0123456789"[d]
  }

  function Decimal(n: nat): string {
    if n < 10 then [DigitChar(n)] else Decimal(n / 10) + [DigitChar(n % 10)]
  }

  function IntText(n: int): string {
    if n < 0 then "-" + Decimal(-n) else Decimal(n)
  }

  lemma {:induction false} DecimalRoundTrip(n: nat)
    ensures AllDigits(Decimal(n)) && |Decimal(n)| > 0
    ensures DecimalValue(Decimal(n)) == n
    decreases n
  {
    var text := Decimal(n);
    if n >= 10 {
      DecimalRoundTrip(n / 10);
      assert text[..|text| - 1] == Decimal(n / 10);
    } else {
      assert text[..0] == "";
    }
  }

  /** No digit follows. */
  predicate Stops(rest: string) {
    |rest| == 0 || !IsDigit(rest[0])
  }

  lemma {:induction false} DigitRunIsUnique(a: string, x: string, b: string, y: string)
    requires AllDigits(a) && AllDigits(b) && Stops(x) && Stops(y)
    requires a + x == b + y
    ensures a == b && x == y
    decreases |a|
  {
    if |a| == 0 { assert a + x == x; } else { assert (a + x)[0] == a[0]; }
    if |b| == 0 { assert b + y == y; } else { assert (b + y)[0] == b[0]; }
    if |a| > 0 && |b| > 0 {
      assert (a + x)[1..] == a[1..] + x && (b + y)[1..] == b[1..] + y;
      DigitRunIsUnique(a[1..], x, b[1..], y);
      assert a == [a[0]] + a[1..] && b == [b[0]] + b[1..];
    }
  }

  function Magnitude(n: int): nat {
    if n < 0 then -n else n
  }

  /** A number's text is its sign and the digits of its magnitude. */
  lemma IntTextShape(n: int, x: string)
    ensures |IntText(n)| > 0 && (IntText(n) + x)[0] == IntText(n)[0]
    ensures n < 0 ==> IntText(n)[0] == '-' && (IntText(n) + x)[1..] == Decimal(Magnitude(n)) + x
    ensures n >= 0 ==> IsDigit(IntText(n)[0]) && IntText(n) + x == Decimal(Magnitude(n)) + x
    ensures AllDigits(Decimal(Magnitude(n))) && DecimalValue(Decimal(Magnitude(n))) == Magnitude(n)
  {
    DecimalRoundTrip(Magnitude(n));
    SignSplits(Decimal(Magnitude(n)), x);
  }

  lemma SignSplits(digits: string, x: string)
    requires |digits| > 0
    ensures (digits + x)[0] == digits[0]
    ensures ("-" + digits + x)[0] == '-' && ("-" + digits + x)[1..] == digits + x
  {
  }

  lemma IntTextIsUnique(m: int, x: string, n: int, y: string)
    requires Stops(x) && Stops(y) && IntText(m) + x == IntText(n) + y
    ensures m == n && x == y
  {
    IntTextShape(m, x);
    IntTextShape(n, y);
    DigitRunIsUnique(Decimal(Magnitude(m)), x, Decimal(Magnitude(n)), y);
  }

  // ---------------------------------------------------------------- strings

  function HexChar(d: nat): char
    requires d < 16
  {
    if d < 10 then ('0' as int + d) as char else ('a' as int + d - 10) as char
  }

  /** The two-character escapes, by their second character. */
  function ShortEscape(c: char): Option<char> {
    if c == '\"' then Some('\"')
    else if c == '\\' then Some('\\')
    else if c == '\n' then Some('n')
    else if c == '\r' then Some('r')
    else if c == '\t' then Some('t')
    else if c as int == 12 then Some('f')
    else if c as int == 8 then Some('b')
    else None
  }

  function Escape(c: char): string {
    if ShortEscape(c).Some? then ['\\', ShortEscape(c).value]
    else if c as int < 32 then ['\\', 'u', '0', '0', HexChar(c as int / 16), HexChar(c as int % 16)]
    else [c]
  }

  function EscapeAll(text: string): string {
    if |text| == 0 then "" else Escape(text[0]) + EscapeAll(text[1..])
  }

  function Quoted(text: string): string {
    "\"" + EscapeAll(text) + "\""
  }

  lemma EscapeShape(c: char, x: string)
    ensures (Escape(c) + x)[|Escape(c)|..] == x
    ensures forall i :: 0 <= i < |Escape(c)| ==> (Escape(c) + x)[i] == Escape(c)[i]
    ensures Escape(c)[0] == '\\' <==> |Escape(c)| > 1
    ensures Escape(c)[0] != '\"'
    ensures |Escape(c)| == 1 ==> Escape(c)[0] == c
    ensures |Escape(c)| > 1 ==> (Escape(c)[1] == 'u' <==> |Escape(c)| > 2)
  {
  }

  lemma HexIsUnique(m: nat, n: nat)
    requires m < 32 && n < 32
    requires HexChar(m / 16) == HexChar(n / 16) && HexChar(m % 16) == HexChar(n % 16)
    ensures m == n
  {
  }

  /** An escape is never a prefix of another one, and never starts like a closing quote. */
  lemma EscapeIsUnique(c: char, x: string, d: char, y: string)
    requires Escape(c) + x == Escape(d) + y
    ensures c == d && x == y
  {
    EscapeShape(c, x);
    EscapeShape(d, y);
    var both := Escape(c) + x;
    assert both[0] == Escape(c)[0] && both[0] == Escape(d)[0];
    if |Escape(c)| > 1 {
      assert both[1] == Escape(c)[1] && both[1] == Escape(d)[1];
      if |Escape(c)| > 2 {
        assert both[4] == Escape(c)[4] && both[4] == Escape(d)[4];
        assert both[5] == Escape(c)[5] && both[5] == Escape(d)[5];
        HexIsUnique(c as int, d as int);
      }
    }
  }

  lemma {:induction false} EscapedTextIsUnique(a: string, x: string, b: string, y: string)
    requires EscapeAll(a) + "\"" + x == EscapeAll(b) + "\"" + y
    ensures a == b && x == y
    decreases |a|
  {
    EscapedTextUnfolds(a, x);
    EscapedTextUnfolds(b, y);
    if |a| > 0 && |b| > 0 {
      EscapeIsUnique(a[0], EscapeAll(a[1..]) + "\"" + x, b[0], EscapeAll(b[1..]) + "\"" + y);
      EscapedTextIsUnique(a[1..], x, b[1..], y);
      assert a == [a[0]] + a[1..] && b == [b[0]] + b[1..];
    }
  }

  lemma EscapedTextUnfolds(text: string, x: string)
    ensures var all := EscapeAll(text) + "\"" + x;
      && |all| > 0
      && (all[0] == '\"' <==> |text| == 0)
      && (|text| == 0 ==> all[1..] == x)
      && (|text| > 0 ==> all == Escape(text[0]) + (EscapeAll(text[1..]) + "\"" + x))
  {
    if |text| > 0 {
      EscapeShape(text[0], EscapeAll(text[1..]) + "\"" + x);
      Reassociate(Escape(text[0]), EscapeAll(text[1..]), "\"", x);
    } else {
      assert ("" + "\"") + x == "\"" + x;
    }
  }

  lemma Reassociate(a: string, b: string, c: string, d: string)
    ensures a + b + c + d == a + (b + c + d)
  {
  }

  lemma QuotedIsUnique(a: string, x: string, b: string, y: string)
    requires Quoted(a) + x == Quoted(b) + y
    ensures a == b && x == y
  {
    assert (Quoted(a) + x)[1..] == EscapeAll(a) + "\"" + x;
    assert (Quoted(b) + y)[1..] == EscapeAll(b) + "\"" + y;
    EscapedTextIsUnique(a, x, b, y);
  }

  // ---------------------------------------------------------------- values

  function Text(value: Json): string {
    match value
    case JsonNull => "null"
    case JsonBool(flag) => if flag then "true" else "false"
    case JsonInt(number) => IntText(number)
    case JsonString(text) => Quoted(text)
    case JsonArray(items) => "[" + ItemsText(items) + "]"
    case JsonObject(members) => "{" + MembersText(members) + "}"
  }

  function ItemsText(items: Items): string {
    match items
    case NoItems => ""
    case Item(first, NoItems) => Text(first)
    case Item(first, more) => Text(first) + "," + ItemsText(more)
  }

  function MembersText(members: Members): string {
    match members
    case NoMembers => ""
    case Member(name, content, NoMembers) => Quoted(name) + ":" + Text(content)
    case Member(name, content, next) => Quoted(name) + ":" + Text(content) + "," + MembersText(next)
  }

  /** Literals, numbers and the separator of a list. */
  lemma TextOfList()
    ensures Text(JsonArray(Item(JsonInt(-12), Item(JsonBool(true), Item(JsonNull, NoItems))))) == "[-12,true,null]"
  {
    assert Decimal(12) == "12";
  }

  /** Keys, strings and the separators of an object. */
  lemma TextOfObject()
    ensures Text(JsonObject(Member("a", JsonString("x"), Member("b", JsonBool(false), NoMembers))))
         == "{\"a\":\"x\",\"b\":false}"
  {
    assert EscapeAll("a") == "a" && EscapeAll("b") == "b" && EscapeAll("x") == "x";
  }

  /** Each escape, and a character that is written as it is. */
  lemma TextOfEscapes()
    ensures Escape('\"') == "\\\"" && Escape('\\') == "\\\\"
    ensures Escape('\n') == "\\n" && Escape('\r') == "\\r" && Escape('\t') == "\\t"
    ensures Escape('\U{0c}') == "\\f" && Escape('\U{08}') == "\\b" && Escape('\U{1f}') == "\\u001f"
    ensures Escape('\U{e9}') == "\U{e9}" && Escape('/') == "/"
  {
  }

  /** What may follow a value inside canonical text. */
  predicate Follows(rest: string) {
    |rest| == 0 || rest[0] == ',' || rest[0] == ']' || rest[0] == '}'
  }

  /** The first character tells the kind of a value. */
  predicate Opens(value: Json, c: char) {
    match value
    case JsonNull => c == 'n'
    case JsonBool(flag) => c == (if flag then 't' else 'f')
    case JsonInt(number) => c == '-' || IsDigit(c)
    case JsonString(_) => c == '\"'
    case JsonArray(_) => c == '['
    case JsonObject(_) => c == '{'
  }

  lemma TextOpens(value: Json)
    ensures |Text(value)| > 0 && Opens(value, Text(value)[0])
  {
    if value.JsonInt? {
      DecimalRoundTrip(if value.number < 0 then -value.number else value.number);
    }
  }

  /** The text of a value, its first character split off where a container starts. */
  lemma TextUnfolds(value: Json, x: string)
    ensures |Text(value)| > 0 && (Text(value) + x)[0] == Text(value)[0] && Opens(value, Text(value)[0])
    ensures (Text(value) + x)[|Text(value)|..] == x
    ensures value.JsonArray? ==> (Text(value) + x)[1..] == ItemsText(value.items) + "]" + x
    ensures value.JsonObject? ==> (Text(value) + x)[1..] == MembersText(value.members) + "}" + x
  {
    TextOpens(value);
  }

  /** Unique reading: canonical text says where a value ends and which value it is. */
  lemma {:induction false} TextIsUnique(a: Json, x: string, b: Json, y: string)
    requires Follows(x) && Follows(y) && Text(a) + x == Text(b) + y
    ensures a == b && x == y
    decreases a
  {
    TextUnfolds(a, x);
    TextUnfolds(b, y);
    SameKind(a, b, Text(a)[0]);
    match a
    case JsonInt(number) => IntTextIsUnique(number, x, b.number, y);
    case JsonString(text) => QuotedIsUnique(text, x, b.text, y);
    case JsonArray(items) => ItemsTextIsUnique(items, x, b.items, y);
    case JsonObject(members) => MembersTextIsUnique(members, x, b.members, y);
    case _ =>
  }

  lemma SameKind(a: Json, b: Json, c: char)
    requires Opens(a, c) && Opens(b, c)
    ensures a.JsonInt? <==> b.JsonInt?
    ensures a.JsonString? <==> b.JsonString?
    ensures a.JsonArray? <==> b.JsonArray?
    ensures a.JsonObject? <==> b.JsonObject?
    ensures a.JsonNull? || a.JsonBool? ==> a == b
  {
  }

  /** What follows an item: the rest of the list and its end. */
  function AfterItem(more: Items, x: string): string {
    if more.NoItems? then "]" + x else "," + (ItemsText(more) + "]" + x)
  }

  lemma ItemsTextUnfolds(items: Items, x: string)
    ensures items.NoItems? ==> ItemsText(items) + "]" + x == "]" + x && ("]" + x)[0] == ']' && ("]" + x)[1..] == x
    ensures items.Item? ==>
              ItemsText(items) + "]" + x == Text(items.first) + AfterItem(items.more, x)
  {
    if items.Item? {
      if items.more.NoItems? {
        assert ItemsText(items) + "]" + x == Text(items.first) + ("]" + x);
      } else {
        RegroupNext(Text(items.first), ItemsText(items.more), x, "]");
      }
    }
  }

  lemma RegroupNext(own: string, more: string, x: string, close: string)
    ensures (own + "," + more) + close + x == own + ("," + (more + close + x))
  {
  }

  lemma {:induction false} ItemsTextIsUnique(a: Items, x: string, b: Items, y: string)
    requires ItemsText(a) + "]" + x == ItemsText(b) + "]" + y
    ensures a == b && x == y
    decreases a
  {
    ItemsTextUnfolds(a, x);
    ItemsTextUnfolds(b, y);
    if a.Item? { TextUnfolds(a.first, AfterItem(a.more, x)); }
    if b.Item? { TextUnfolds(b.first, AfterItem(b.more, y)); }
    if a.Item? && b.Item? {
      AfterItemUnfolds(a.more, x);
      AfterItemUnfolds(b.more, y);
      TextIsUnique(a.first, AfterItem(a.more, x), b.first, AfterItem(b.more, y));
      if a.more.Item? {
        ItemsTextIsUnique(a.more, x, b.more, y);
      }
    }
  }

  lemma AfterItemUnfolds(more: Items, x: string)
    ensures Follows(AfterItem(more, x))
    ensures AfterItem(more, x)[0] == ']' <==> more.NoItems?
    ensures AfterItem(more, x)[1..] == (if more.NoItems? then x else ItemsText(more) + "]" + x)
  {
  }

  function AfterMember(next: Members, x: string): string {
    if next.NoMembers? then "}" + x else "," + (MembersText(next) + "}" + x)
  }

  lemma Regroup(q: string, c: string, tail: string)
    ensures (q + ":" + c) + tail == q + (":" + (c + tail))
  {
  }

  lemma MembersTextUnfolds(members: Members, x: string)
    ensures members.NoMembers? ==>
              MembersText(members) + "}" + x == "}" + x && ("}" + x)[0] == '}' && ("}" + x)[1..] == x
    ensures members.Member? ==>
              MembersText(members) + "}" + x
              == Quoted(members.name) + (":" + (Text(members.content) + AfterMember(members.next, x)))
  {
    if members.Member? {
      var own := Quoted(members.name) + ":" + Text(members.content);
      Regroup(Quoted(members.name), Text(members.content), AfterMember(members.next, x));
      if members.next.NoMembers? {
        assert own + "}" + x == own + ("}" + x);
      } else {
        RegroupNext(own, MembersText(members.next), x, "}");
      }
    }
  }

  lemma AfterMemberUnfolds(next: Members, x: string)
    ensures Follows(AfterMember(next, x))
    ensures AfterMember(next, x)[0] == '}' <==> next.NoMembers?
    ensures AfterMember(next, x)[1..] == (if next.NoMembers? then x else MembersText(next) + "}" + x)
  {
  }

  lemma {:induction false} MembersTextIsUnique(a: Members, x: string, b: Members, y: string)
    requires MembersText(a) + "}" + x == MembersText(b) + "}" + y
    ensures a == b && x == y
    decreases a
  {
    MembersTextUnfolds(a, x);
    MembersTextUnfolds(b, y);
    if a.Member? { assert (MembersText(a) + "}" + x)[0] == '\"'; }
    if b.Member? { assert (MembersText(b) + "}" + y)[0] == '\"'; }
    if a.Member? && b.Member? {
      var left := Text(a.content) + AfterMember(a.next, x);
      var right := Text(b.content) + AfterMember(b.next, y);
      QuotedIsUnique(a.name, ":" + left, b.name, ":" + right);
      assert (":" + left)[1..] == left && (":" + right)[1..] == right;
      AfterMemberUnfolds(a.next, x);
      AfterMemberUnfolds(b.next, y);
      TextIsUnique(a.content, AfterMember(a.next, x), b.content, AfterMember(b.next, y));
      if a.next.Member? {
        MembersTextIsUnique(a.next, x, b.next, y);
      }
    }
  }

  // ---------------------------------------------------------------- bytes

  /** canonical_json_bytes */
  function CanonicalBytes(value: Json): seq<byte> {
    Utf8All(Text(value))
  }

  /** Equal canonical bytes mean equal values. */
  lemma BytesAreInjective(a: Json, b: Json)
    requires CanonicalBytes(a) == CanonicalBytes(b)
    ensures a == b
  {
    Utf8IsUnique(Text(a), Text(b));
    assert Text(a) + "" == Text(b) + "";
    TextIsUnique(a, "", b, "");
  }

  /** Two inputs have the same canonical bytes exactly when they mean the same: a hash of the
      bytes identifies the meaning, not the spelling. */
  lemma SameBytesIff(a: Plain, b: Plain)
    requires IsPlain(a) && IsPlain(b) && FromPlain(a).Ok? && FromPlain(b).Ok?
    ensures CanonicalBytes(FromPlain(a).value) == CanonicalBytes(FromPlain(b).value)
        <==> MeaningOf(a) == MeaningOf(b)
  {
    SameCanonicalIff(a, b);
    if CanonicalBytes(FromPlain(a).value) == CanonicalBytes(FromPlain(b).value) {
      BytesAreInjective(FromPlain(a).value, FromPlain(b).value);
    }
  }
}
