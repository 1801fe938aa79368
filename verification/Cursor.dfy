/** Page cursors (application/service.py): creation time and identifier, joined by a bar, in
    base64url (RFC 4648 section 5) with the padding dropped and restored. */
module Cursor {
  import opened Lifecycle
  import opened RetrySafety
  import opened Bytes
  import opened Base64

  // ---------------------------------------------------------------- timestamps

  /** A UTC timestamp by its fields. */
  datatype Stamp = Stamp(
    year: nat, month: nat, day: nat, hour: nat, minute: nat, second: nat, micros: nat)

  predicate IsLeapYear(year: nat) {
    year % 4 == 0 && (year % 100 != 0 || year % 400 == 0)
  }

  function DaysIn(year: nat, month: nat): (days: nat)
    ensures 28 <= days <= 31
  {
    if month == 2 then (if IsLeapYear(year) then 29 else 28)
    else if month == 4 || month == 6 || month == 9 || month == 11 then 30
    else 31
  }

  predicate IsStamp(s: Stamp) {
    && 1 <= s.year <= 9999 && 1 <= s.month <= 12 && 1 <= s.day <= DaysIn(s.year, s.month)
    && s.hour < 24 && s.minute < 60 && s.second < 60 && s.micros < 1_000_000
  }

  function Power(width: nat): (p: nat)
    ensures p >= 1
  {
    if width == 0 then 1 else 10 * Power(width - 1)
  }

  /** The last `width` decimal digits of n. */
  function Fixed(n: nat, width: nat): (text: string)
    ensures |text| == width && forall i :: 0 <= i < width ==> IsDigit(text[i])
  {
    if width == 0 then "" else Fixed(n / 10, width - 1) + [(48 + n % 10) as char]
  }

  lemma {:induction false} FixedRoundTrip(n: nat, width: nat)
    requires n < Power(width)
    ensures DecimalValue(Fixed(n, width)) == n
    decreases width
  {
    if width > 0 {
      var text := Fixed(n, width);
      assert text[..width - 1] == Fixed(n / 10, width - 1);
      FixedRoundTrip(n / 10, width - 1);
    }
  }

  /** The first digit of a number is the most significant one. */
  lemma {:induction false} LeadingDigit(text: string)
    requires |text| > 0 && AllDigits(text)
    ensures DecimalValue(text) == DigitValue(text[0]) * Power(|text| - 1) + DecimalValue(text[1..])
    decreases |text|
  {
    var last := |text| - 1;
    if last == 0 {
      assert text[..0] == "" && text[1..] == "";
    } else {
      var front, rest := text[..last], text[1..];
      LeadingDigit(front);
      assert front[0] == text[0] && front[1..] == rest[..last - 1];
      assert rest[|rest| - 1] == text[last];
      Distribute(DigitValue(text[0]), Power(last - 1), DecimalValue(front[1..]), DigitValue(text[last]));
    }
  }

  lemma Distribute(a: nat, b: nat, c: nat, d: nat)
    ensures (a * b + c) * 10 + d == a * (10 * b) + (c * 10 + d)
  {
  }

  /** Characters of a timestamp. */
  predicate IsStampChar(c: char) {
    IsDigit(c) || c == '-' || c == ':' || c == '.' || c == 'T' || c == 'Z'
  }

  predicate AllStampChars(text: string) {
    forall i :: 0 <= i < |text| ==> IsStampChar(text[i])
  }

  /** YYYY-MM-DD */
  function DateText(s: Stamp): (text: string)
    ensures |text| == 10 && AllStampChars(text)
  {
    Fixed(s.year, 4) + ("-" + Fixed(s.month, 2) + ("-" + Fixed(s.day, 2)))
  }

  /** HH:MM:SS */
  function TimeText(s: Stamp): (text: string)
    ensures |text| == 8 && AllStampChars(text)
  {
    Fixed(s.hour, 2) + (":" + Fixed(s.minute, 2) + (":" + Fixed(s.second, 2)))
  }

  /** to_wire: YYYY-MM-DDTHH:MM:SS.ffffffZ */
  function StampText(s: Stamp): (text: string)
    ensures |text| == 27 && AllStampChars(text)
  {
    DateText(s) + ("T" + TimeText(s)) + ("." + Fixed(s.micros, 6) + "Z")
  }

  /** Three decimal fields of the given widths, with one separator in between. */
  function ParseFields(text: string, first: nat, separator: char): Option<(nat, nat, nat)>
    requires |text| == first + 6
  {
    if text[first] == separator && text[first + 3] == separator
       && AllDigits(text[..first]) && AllDigits(text[first + 1..first + 3]) && AllDigits(text[first + 4..])
    then Some((DecimalValue(text[..first]), DecimalValue(text[first + 1..first + 3]), DecimalValue(text[first + 4..])))
    else None
  }

  /** Parsing of the wire form; a date that the calendar does not have is refused. */
  function ParseStamp(text: string): Option<Stamp> {
    if |text| != 27 || text[10] != 'T' || text[19] != '.' || text[26] != 'Z' || !AllDigits(text[20..26]) then None
    else
      var date, time := ParseFields(text[..10], 4, '-'), ParseFields(text[11..19], 2, ':');
      if date.None? || time.None? then None
      else
        var stamp := Stamp(date.value.0, date.value.1, date.value.2, time.value.0, time.value.1, time.value.2,
                           DecimalValue(text[20..26]));
        if IsStamp(stamp) then Some(stamp) else None
  }

  lemma Powers()
    ensures Power(2) == 100 && Power(4) == 10_000 && Power(6) == 1_000_000
  {
    assert Power(1) == 10 && Power(3) == 1000 && Power(5) == 100_000;
  }

  lemma FieldsRoundTrip(a: nat, width: nat, b: nat, c: nat, separator: char)
    requires a < Power(width) && b < 100 && c < 100
    ensures var text := Fixed(a, width) + ([separator] + Fixed(b, 2) + ([separator] + Fixed(c, 2)));
      |text| == width + 6 && ParseFields(text, width, separator) == Some((a, b, c))
  {
    Powers();
    FixedRoundTrip(a, width);
    FixedRoundTrip(b, 2);
    FixedRoundTrip(c, 2);
    var text := Fixed(a, width) + ([separator] + Fixed(b, 2) + ([separator] + Fixed(c, 2)));
    assert text[..width] == Fixed(a, width);
    assert text[width + 1..width + 3] == Fixed(b, 2);
    assert text[width + 4..] == Fixed(c, 2);
  }

  lemma StampParts(s: Stamp)
    ensures var text := StampText(s);
      && text[..10] == DateText(s) && text[10] == 'T' && text[11..19] == TimeText(s)
      && text[19] == '.' && text[20..26] == Fixed(s.micros, 6) && text[26] == 'Z'
  {
    var front := DateText(s) + ("T" + TimeText(s));
    var back := "." + Fixed(s.micros, 6) + "Z";
    var text := front + back;
    assert |front| == 19 && |back| == 8;
    assert front[..10] == DateText(s) && front[11..] == TimeText(s) && front[10] == 'T';
    assert text[..19] == front && text[19..] == back;
    assert text[..10] == front[..10] && text[11..19] == front[11..];
    assert back[1..7] == Fixed(s.micros, 6);
    assert text[20..26] == back[1..7];
  }

  /** Where each field of a timestamp stands in its wire text. */
  lemma StampReads(s: Stamp)
    requires IsStamp(s)
    ensures var text := StampText(s);
      && text[4] == '-' && text[7] == '-' && text[10] == 'T' && text[13] == ':' && text[16] == ':'
      && text[19] == '.' && text[26] == 'Z'
      && AllDigits(text[..4]) && AllDigits(text[5..7]) && AllDigits(text[8..10])
      && AllDigits(text[11..13]) && AllDigits(text[14..16]) && AllDigits(text[17..19]) && AllDigits(text[20..26])
      && DecimalValue(text[..4]) == s.year && DecimalValue(text[5..7]) == s.month
      && DecimalValue(text[8..10]) == s.day && DecimalValue(text[11..13]) == s.hour
      && DecimalValue(text[14..16]) == s.minute && DecimalValue(text[17..19]) == s.second
      && DecimalValue(text[20..26]) == s.micros
  {
    var text := StampText(s);
    StampParts(s);
    DateParts(s);
    TimeParts(s);
    assert text[..4] == text[..10][..4] && text[5..7] == text[..10][5..7] && text[8..10] == text[..10][8..];
    assert text[4] == text[..10][4] && text[7] == text[..10][7];
    assert text[11..13] == text[11..19][..2] && text[14..16] == text[11..19][3..5];
    assert text[17..19] == text[11..19][6..];
    assert text[13] == text[11..19][2] && text[16] == text[11..19][5];
    Powers();
    FixedRoundTrip(s.micros, 6);
  }

  lemma DateParts(s: Stamp)
    requires IsStamp(s)
    ensures var text := DateText(s);
      && text[4] == '-' && text[7] == '-'
      && AllDigits(text[..4]) && AllDigits(text[5..7]) && AllDigits(text[8..])
      && DecimalValue(text[..4]) == s.year && DecimalValue(text[5..7]) == s.month && DecimalValue(text[8..]) == s.day
  {
    Powers();
    FieldsRoundTrip(s.year, 4, s.month, s.day, '-');
    FixedRoundTrip(s.year, 4);
    FixedRoundTrip(s.month, 2);
    FixedRoundTrip(s.day, 2);
    var text := DateText(s);
    assert text[..4] == Fixed(s.year, 4) && text[5..7] == Fixed(s.month, 2) && text[8..] == Fixed(s.day, 2);
  }

  lemma TimeParts(s: Stamp)
    requires IsStamp(s)
    ensures var text := TimeText(s);
      && text[2] == ':' && text[5] == ':'
      && AllDigits(text[..2]) && AllDigits(text[3..5]) && AllDigits(text[6..])
      && DecimalValue(text[..2]) == s.hour && DecimalValue(text[3..5]) == s.minute
      && DecimalValue(text[6..]) == s.second
  {
    Powers();
    FixedRoundTrip(s.hour, 2);
    FixedRoundTrip(s.minute, 2);
    FixedRoundTrip(s.second, 2);
    var text := TimeText(s);
    assert text[..2] == Fixed(s.hour, 2) && text[3..5] == Fixed(s.minute, 2) && text[6..] == Fixed(s.second, 2);
  }

  lemma StampRoundTrip(s: Stamp)
    requires IsStamp(s)
    ensures ParseStamp(StampText(s)) == Some(s)
  {
    Powers();
    StampParts(s);
    FieldsRoundTrip(s.year, 4, s.month, s.day, '-');
    FieldsRoundTrip(s.hour, 2, s.minute, s.second, ':');
    FixedRoundTrip(s.micros, 6);
    assert ParseFields(DateText(s), 4, '-') == Some((s.year, s.month, s.day));
    assert ParseFields(TimeText(s), 2, ':') == Some((s.hour, s.minute, s.second));
  }

  // ---------------------------------------------------------------- cursors

  /** Lowercase 8-4-4-4-12 hex. */
  predicate IsOpaqueId(text: string) {
    && |text| == 36
    && forall i :: 0 <= i < 36 ==>
         if i == 8 || i == 13 || i == 18 || i == 23 then text[i] == '-' else IsHex(text[i])
  }

  datatype Position = Position(createdAt: Stamp, id: string)

  predicate IsPosition(p: Position) {
    IsStamp(p.createdAt) && IsOpaqueId(p.id)
  }

  function Raw(p: Position): (text: string)
    requires IsPosition(p)
    ensures forall i :: 0 <= i < |text| ==> text[i] as int < 128
  {
    StampText(p.createdAt) + "|" + p.id
  }

  /** _cursor */
  function CursorOf(p: Position): string
    requires IsPosition(p)
  {
    Strip(Encode(Ascii(Raw(p)), true))
  }

  /** The index of the first bar, or the length. */
  function FirstBar(text: string): (i: nat)
    ensures i <= |text|
    ensures forall j :: 0 <= j < i ==> text[j] != '|'
    ensures i < |text| ==> text[i] == '|'
  {
    if |text| == 0 || text[0] == '|' then 0 else 1 + FirstBar(text[1..])
  }

  /** _decode_cursor; None is invalid_cursor. */
  function DecodeCursor(value: string): Option<Position> {
    match Decode(Restore(value), true)
    case None => None
    case Some(bytes) =>
      match FromAscii(bytes)
      case None => None
      case Some(raw) =>
        var bar := FirstBar(raw);
        if bar == |raw| then None
        else
          match ParseStamp(raw[..bar])
          case None => None
          case Some(stamp) => if IsOpaqueId(raw[bar + 1..]) then Some(Position(stamp, raw[bar + 1..])) else None
  }

  /** _decode_cursor inverts _cursor. */
  lemma CursorRoundTrip(p: Position)
    requires IsPosition(p)
    ensures DecodeCursor(CursorOf(p)) == Some(p)
  {
    var raw := Raw(p);
    StampRoundTrip(p.createdAt);
    PaddingIsShort(Ascii(raw), true);
    DecodeInvertsEncode(Ascii(raw), true);
    AsciiRoundTrip(raw);
    assert raw[27] == '|';
    assert FirstBar(raw) == 27 by {
      forall j | 0 <= j < 27 ensures raw[j] != '|' {
        assert raw[j] == StampText(p.createdAt)[j];
      }
    }
    assert raw[..27] == StampText(p.createdAt) && raw[28..] == p.id;
  }

  /** What a cursor says: the wire text of the time, a bar, and the identifier. */
  lemma CursorSays(p: Position)
    requires IsPosition(p)
    ensures Decode(Restore(CursorOf(p)), true) == Some(Ascii(StampText(p.createdAt) + "|" + p.id))
  {
    PaddingIsShort(Ascii(Raw(p)), true);
    DecodeInvertsEncode(Ascii(Raw(p)), true);
    assert Raw(p) == StampText(p.createdAt) + "|" + p.id;
  }

  /** Different positions have different cursors. */
  lemma CursorsDiffer(p: Position, q: Position)
    requires IsPosition(p) && IsPosition(q) && CursorOf(p) == CursorOf(q)
    ensures p == q
  {
    CursorRoundTrip(p);
    CursorRoundTrip(q);
  }
}
