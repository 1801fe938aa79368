/** What reading JSON text yields: dictionaries with distinct text keys, and no integer that is
    too long to be written again. */
module ReadValues {
  import opened Lifecycle
  import opened Json
  import opened CanonicalText
  import opened JsonReader
  import opened ShortestText

  predicate NumbersFit(value: Plain) {
    match value
    case PlainInt(number) => |Decimal(Magnitude(number))| <= MAX_INT_DIGITS
    case PlainList(elements) => ElementNumbersFit(elements)
    case PlainDict(entries) => EntryNumbersFit(entries)
    case _ => true
  }

  predicate ElementNumbersFit(elements: Elements) {
    elements.Element? ==> NumbersFit(elements.head) && ElementNumbersFit(elements.rest)
  }

  predicate EntryNumbersFit(entries: Entries) {
    entries.Entry? ==> NumbersFit(entries.value) && EntryNumbersFit(entries.others)
  }

  lemma MagnitudeFits(negative: bool, text: string)
    requires ReadMagnitude(negative, text).Read?
    ensures IsPlain(ReadMagnitude(negative, text).value) && NumbersFit(ReadMagnitude(negative, text).value)
  {
    if ReadMagnitude(negative, text).value.PlainInt? {
      var size := if text[0] == '0' then 1 else DigitRun(text);
      ShortestDigits(text[..size]);
    }
  }

  lemma NumberFits(text: string)
    requires ReadNumber(text).Read?
    ensures IsPlain(ReadNumber(text).value) && NumbersFit(ReadNumber(text).value)
  {
    if "-" <= text {
      MagnitudeFits(true, text[1..]);
    } else {
      MagnitudeFits(false, text);
    }
  }

  lemma WordFits(text: string)
    requires ReadWord(text).Read?
    ensures IsPlain(ReadWord(text).value) && NumbersFit(ReadWord(text).value)
  {
    if ReadNumber(text).Read? {
      NumberFits(text);
    }
  }

  lemma {:induction false} WithoutIsPlain(entries: Entries, key: Key)
    requires HasKey(entries, key) && EntriesArePlain(entries) && EntryNumbersFit(entries)
    ensures EntriesArePlain(Without(entries, key)) && EntryNumbersFit(Without(entries, key))
    ensures IsPlain(Lookup(entries, key)) && NumbersFit(Lookup(entries, key))
    ensures !HasKey(Without(entries, key), key)
    ensures forall k :: HasKey(Without(entries, key), k) ==> HasKey(entries, k)
    decreases entries
  {
    if entries.key != key {
      WithoutIsPlain(entries.others, key);
    }
  }

  lemma OverriddenIsPlain(key: Key, value: Plain, others: Entries)
    requires IsPlain(value) && NumbersFit(value) && EntriesArePlain(others) && EntryNumbersFit(others)
    ensures EntriesArePlain(Overridden(key, value, others)) && EntryNumbersFit(Overridden(key, value, others))
  {
    if HasKey(others, key) {
      WithoutIsPlain(others, key);
    }
  }

  lemma {:induction false} ReadsPlain(text: string)
    requires ReadValue(text).Read?
    ensures IsPlain(ReadValue(text).value) && NumbersFit(ReadValue(text).value)
    decreases |text|, 0
  {
    if text[0] == '[' {
      var inner := SkipSpace(text[1..]);
      if !("]" <= inner) {
        ReadsPlainElements(inner);
      }
    } else if text[0] == '{' {
      var inner := SkipSpace(text[1..]);
      if !("}" <= inner) {
        ReadsPlainEntries(inner);
      }
    } else if text[0] != '\"' {
      WordFits(text);
    }
  }

  lemma {:induction false} ReadsPlainElements(text: string)
    requires ReadElements(text).Read?
    ensures ElementsArePlain(ReadElements(text).value) && ElementNumbersFit(ReadElements(text).value)
    decreases |text|, 1
  {
    ReadsPlain(text);
    var rest := SkipSpace(ReadValue(text).rest);
    if !("]" <= rest) {
      ReadsPlainElements(SkipSpace(rest[1..]));
    }
  }

  lemma {:induction false} ReadsPlainEntries(text: string)
    requires ReadEntries(text).Read?
    ensures EntriesArePlain(ReadEntries(text).value) && EntryNumbersFit(ReadEntries(text).value)
    decreases |text|, 1
  {
    var key, content := ReadKey(text).value, ReadKey(text).rest;
    ReadsPlain(content);
    var rest := SkipSpace(ReadValue(content).rest);
    if !("}" <= rest) {
      var more := SkipSpace(rest[1..]);
      ReadsPlainEntries(more);
      OverriddenIsPlain(TextKey(key), ReadValue(content).value, ReadEntries(more).value);
    }
  }

  /** An integer under some key of a dictionary. */
  lemma {:induction false} IntUnderKeyFits(entries: Entries, key: Key)
    requires EntryNumbersFit(entries) && key in MeaningOfEntries(entries) && MeaningOfEntries(entries)[key].IntData?
    ensures |Decimal(Magnitude(MeaningOfEntries(entries)[key].number))| <= MAX_INT_DIGITS
    decreases entries
  {
    if entries.key == key {
      assert entries.value == PlainInt(MeaningOfEntries(entries)[key].number);
    } else {
      IntUnderKeyFits(entries.others, key);
    }
  }
}
