/** Reading JSON text (json.loads as messaging/codec.py uses it): RFC 8259 and, as Python adds,
    NaN and the infinities as floats. A repeated key keeps its first place and its last value.
    Text is made of Unicode scalar values, so an escaped lone surrogate is not read. */
module JsonReader {
  import opened Lifecycle
  import opened RetrySafety
  import opened Json
  import opened Bytes

  /** The interpreter refuses longer integers with an error of its own. */
  const MAX_INT_DIGITS: nat := 4300

  datatype Reading<+T> = Read(value: T, rest: string) | Malformed | TooManyDigits

  predicate IsSpace(c: char) {
    c == ' ' || c == '\t' || c == '\n' || c == '\r'
  }

  function SkipSpace(text: string): (rest: string)
    ensures |rest| <= |text|
  {
    if |text| > 0 && IsSpace(text[0]) then SkipSpace(text[1..]) else text
  }

  // ---------------------------------------------------------------- strings

  function HexValue(c: char): (d: Option<nat>)
    ensures d.Some? ==> d.value < 16
  {
    if '0' <= c <= '9' then Some(c as int - '0' as int)
    else if 'a' <= c <= 'f' then Some(c as int - 'a' as int + 10)
    else if 'A' <= c <= 'F' then Some(c as int - 'A' as int + 10)
    else None
  }

  /** The number written in the first four hexadecimal digits. */
  function HexQuad(text: string): (n: Option<nat>)
    ensures n.Some? ==> |text| >= 4 && n.value < 0x1_0000
  {
    if |text| < 4 then None
    else
      var a, b, c, d := HexValue(text[0]), HexValue(text[1]), HexValue(text[2]), HexValue(text[3]);
      if a.None? || b.None? || c.None? || d.None? then None
      else Some(((a.value * 16 + b.value) * 16 + c.value) * 16 + d.value)
  }

  /** The character behind a backslash and this one. */
  function ShortMeaning(c: char): Option<char> {
    if c == '\"' || c == '\\' || c == '/' then Some(c)
    else if c == 'b' then Some(8 as char)
    else if c == 'f' then Some(12 as char)
    else if c == 'n' then Some('\n')
    else if c == 'r' then Some('\r')
    else if c == 't' then Some('\t')
    else None
  }

  /** The second half of a surrogate pair. */
  function ReadLowHalf(high: nat, text: string): (r: Reading<char>)
    requires 0xD800 <= high < 0xDC00
    ensures r.Read? ==> |r.rest| + 6 == |text|
  {
    if !("\\u" <= text) then Malformed
    else
      match HexQuad(text[2..])
      case None => Malformed
      case Some(low) =>
        if 0xDC00 <= low < 0xE000
        then Read((0x1_0000 + (high - 0xD800) * 0x400 + (low - 0xDC00)) as char, text[6..])
        else Malformed
  }

  /** The next character of a string, which may be escaped. */
  function ReadChar(text: string): (r: Reading<char>)
    requires |text| > 0
    ensures r.Read? ==> |r.rest| < |text|
  {
    if text[0] as int < 32 then Malformed
    else if text[0] != '\\' then Read(text[0], text[1..])
    else if |text| == 1 then Malformed
    else if text[1] != 'u' then
      match ShortMeaning(text[1])
      case None => Malformed
      case Some(c) => Read(c, text[2..])
    else
      match HexQuad(text[2..])
      case None => Malformed
      case Some(n) =>
        if IsScalar(n) then Read(n as char, text[6..])
        else if n < 0xDC00 then ReadLowHalf(n, text[6..])
        else Malformed
  }

  /** The rest of a string after its opening quote. */
  function ReadString(text: string): (r: Reading<string>)
    ensures r.Read? ==> |r.rest| < |text|
    decreases |text|
  {
    if |text| == 0 then Malformed
    else if text[0] == '\"' then Read("", text[1..])
    else
      match ReadChar(text)
      case Malformed => Malformed
      case TooManyDigits => TooManyDigits
      case Read(c, rest) =>
        match ReadString(rest)
        case Malformed => Malformed
        case TooManyDigits => TooManyDigits
        case Read(more, end) => Read([c] + more, end)
  }

  // ---------------------------------------------------------------- numbers and words

  /** How many digits the text starts with. */
  function DigitRun(text: string): (n: nat)
    ensures n <= |text| && AllDigits(text[..n])
    ensures n < |text| ==> !IsDigit(text[n])
  {
    if |text| > 0 && IsDigit(text[0]) then
      var n := DigitRun(text[1..]);
      assert text[..1 + n] == [text[0]] + text[1..][..n];
      1 + n
    else 0
  }

  function FractionSize(text: string): (n: nat)
    ensures n <= |text|
  {
    if |text| > 1 && text[0] == '.' && IsDigit(text[1]) then 1 + DigitRun(text[1..]) else 0
  }

  function ExponentSize(text: string): (n: nat)
    ensures n <= |text|
  {
    if |text| == 0 || (text[0] != 'e' && text[0] != 'E') then 0
    else
      var sign := if |text| > 1 && (text[1] == '+' || text[1] == '-') then 1 else 0;
      var digits := DigitRun(text[1 + sign..]);
      if digits == 0 then 0 else 1 + sign + digits
  }

  function Signed(negative: bool, n: int): int {
    if negative then -n else n
  }

  /** A number without its sign. */
  function ReadMagnitude(negative: bool, text: string): (r: Reading<Plain>)
    ensures r.Read? ==> |r.rest| < |text|
  {
    if |text| == 0 || !IsDigit(text[0]) then Malformed
    else
      var size := if text[0] == '0' then 1 else DigitRun(text);
      var rest := text[size..];
      var fraction := FractionSize(rest);
      var exponent := ExponentSize(rest[fraction..]);
      if fraction + exponent > 0 then Read(PlainFloat, rest[fraction + exponent..])
      else if size > MAX_INT_DIGITS then TooManyDigits
      else Read(PlainInt(Signed(negative, DecimalValue(text[..size]))), rest)
  }

  function ReadNumber(text: string): (r: Reading<Plain>)
    ensures r.Read? ==> |r.rest| < |text|
  {
    if "-" <= text then ReadMagnitude(true, text[1..]) else ReadMagnitude(false, text)
  }

  function ReadWord(text: string): (r: Reading<Plain>)
    ensures r.Read? ==> |r.rest| < |text|
  {
    if |text| > 0 && (IsDigit(text[0]) || (text[0] == '-' && !("-Infinity" <= text))) then ReadNumber(text)
    else if "null" <= text then Read(PlainNull, text[4..])
    else if "true" <= text then Read(PlainBool(true), text[4..])
    else if "false" <= text then Read(PlainBool(false), text[5..])
    else if "NaN" <= text then Read(PlainFloat, text[3..])
    else if "Infinity" <= text then Read(PlainFloat, text[8..])
    else if "-Infinity" <= text then Read(PlainFloat, text[9..])
    else Malformed
  }

  // ---------------------------------------------------------------- values

  function Lookup(entries: Entries, key: Key): Plain
    requires HasKey(entries, key)
  {
    if entries.key == key then entries.value else Lookup(entries.others, key)
  }

  function Without(entries: Entries, key: Key): Entries {
    match entries
    case NoEntries => NoEntries
    case Entry(k, value, others) => if k == key then others else Entry(k, value, Without(others, key))
  }

  /** A pair read before others: a later value for its key takes its place. */
  function Overridden(key: Key, value: Plain, others: Entries): Entries {
    if HasKey(others, key) then Entry(key, Lookup(others, key), Without(others, key))
    else Entry(key, value, others)
  }

  function ReadValue(text: string): (r: Reading<Plain>)
    ensures r.Read? ==> |r.rest| < |text|
    decreases |text|, 0
  {
    if |text| == 0 then Malformed
    else if text[0] == '\"' then
      match ReadString(text[1..])
      case Malformed => Malformed
      case TooManyDigits => TooManyDigits
      case Read(value, rest) => Read(PlainString(value), rest)
    else if text[0] == '[' then
      var inner := SkipSpace(text[1..]);
      if "]" <= inner then Read(PlainList(NoElements), inner[1..])
      else
        match ReadElements(inner)
        case Malformed => Malformed
        case TooManyDigits => TooManyDigits
        case Read(elements, rest) => Read(PlainList(elements), rest)
    else if text[0] == '{' then
      var inner := SkipSpace(text[1..]);
      if "}" <= inner then Read(PlainDict(NoEntries), inner[1..])
      else
        match ReadEntries(inner)
        case Malformed => Malformed
        case TooManyDigits => TooManyDigits
        case Read(entries, rest) => Read(PlainDict(entries), rest)
    else ReadWord(text)
  }

  /** The elements of a list up to its end. */
  function ReadElements(text: string): (r: Reading<Elements>)
    ensures r.Read? ==> |r.rest| < |text|
    decreases |text|, 1
  {
    match ReadValue(text)
    case Malformed => Malformed
    case TooManyDigits => TooManyDigits
    case Read(head, after) =>
      var rest := SkipSpace(after);
      if "]" <= rest then Read(Element(head, NoElements), rest[1..])
      else if !("," <= rest) then Malformed
      else
        match ReadElements(SkipSpace(rest[1..]))
        case Malformed => Malformed
        case TooManyDigits => TooManyDigits
        case Read(more, end) => Read(Element(head, more), end)
  }

  /** A key, its colon and the space around it. */
  function ReadKey(text: string): (r: Reading<string>)
    ensures r.Read? ==> |r.rest| < |text|
  {
    if !("\"" <= text) then Malformed
    else
      match ReadString(text[1..])
      case Malformed => Malformed
      case TooManyDigits => TooManyDigits
      case Read(key, after) =>
        var colon := SkipSpace(after);
        if ":" <= colon then Read(key, SkipSpace(colon[1..])) else Malformed
  }

  /** The pairs of a dictionary up to its end. */
  function ReadEntries(text: string): (r: Reading<Entries>)
    ensures r.Read? ==> |r.rest| < |text|
    decreases |text|, 1
  {
    match ReadKey(text)
    case Malformed => Malformed
    case TooManyDigits => TooManyDigits
    case Read(key, content) =>
      match ReadValue(content)
      case Malformed => Malformed
      case TooManyDigits => TooManyDigits
      case Read(value, after) =>
        var rest := SkipSpace(after);
        if "}" <= rest then Read(Entry(TextKey(key), value, NoEntries), rest[1..])
        else if !("," <= rest) then Malformed
        else
          match ReadEntries(SkipSpace(rest[1..]))
          case Malformed => Malformed
          case TooManyDigits => TooManyDigits
          case Read(others, end) => Read(Overridden(TextKey(key), value, others), end)
  }

  /** json.loads: one value and nothing else. */
  function ReadDocument(text: string): Reading<Plain> {
    match ReadValue(SkipSpace(text))
    case Malformed => Malformed
    case TooManyDigits => TooManyDigits
    case Read(value, rest) => if SkipSpace(rest) == "" then Read(value, "") else Malformed
  }
}
