/** Reading the fields of wire objects (domain/wire.py and domain/time.py). */
module WireFields {
  import opened Lifecycle
  import opened Json
  import opened CanonicalText
  import opened Cursor

  /** Why a contract is refused. */
  datatype ContractError =
    | OversizeMessage
    | MalformedMessage
    | WrongType
    | UnknownField
    | MissingField
    | EmptyText
    | UnsupportedVersion
    | InvalidOpaqueId
    | InvalidRange
    | UnknownEnum
    | InvalidTimestamp
    | InvalidPrincipal
    | InvalidHash
    | HashMismatch
    | IllegalCombination
    | NotCanonical(reason: JsonError)

  datatype Checked<+T> = Good(value: T) | Bad(error: ContractError)
  {
    predicate IsFailure() {
      Bad?
    }

    function PropagateFailure<U>(): Checked<U>
      requires Bad?
    {
      Bad(error)
    }

    function Extract(): T
      requires Good?
    {
      value
    }
  }

  /** UtcTimestamp.to_wire. Whether %Y pads years below 1000 is up to the platform. */
  function WireStamp(s: Stamp, pads: bool): string {
    if pads || s.year >= 1000 then StampText(s) else Decimal(s.year) + StampText(s)[4..]
  }

  /** Readable again by from_wire. */
  predicate Readable(s: Stamp, pads: bool) {
    pads || s.year >= 1000
  }

  /** require_mapping and reject_unknown_keys */
  function Mapping(data: Data, allowed: set<Key>): Checked<map<Key, Data>> {
    if !data.DictData? || (exists key | key in data.table :: key.OtherKey?) then Bad(WrongType)
    else if data.table.Keys <= allowed then Good(data.table)
    else Bad(UnknownField)
  }

  /** require_key */
  function Required(table: map<Key, Data>, name: string): Checked<Data> {
    if TextKey(name) in table then Good(table[TextKey(name)]) else Bad(MissingField)
  }

  function AsText(data: Data): Checked<string> {
    if data.TextData? then Good(data.text) else Bad(WrongType)
  }

  /** parse_str */
  function AsNonEmptyText(data: Data): Checked<string> {
    var text :- AsText(data);
    if text == "" then Bad(EmptyText) else Good(text)
  }

  /** parse_int with minimum 1 */
  function AsCount(data: Data): Checked<int> {
    if !data.IntData? then Bad(WrongType)
    else if data.number < 1 then Bad(InvalidRange)
    else Good(data.number)
  }

  /** parse_optional_str of optional_key */
  function OptionalUnder(table: map<Key, Data>, name: string): Checked<Option<string>> {
    if TextKey(name) !in table || table[TextKey(name)].NullData? then Good(None)
    else
      var text :- AsNonEmptyText(table[TextKey(name)]);
      Good(Some(text))
  }

  /** UtcTimestamp.from_wire */
  function AsStamp(data: Data): Checked<Stamp> {
    var text :- AsText(data);
    match ParseStamp(text)
    case None => Bad(InvalidTimestamp)
    case Some(stamp) => Good(stamp)
  }

  lemma StampIsShort(s: Stamp)
    requires IsStamp(s) && s.year < 1000
    ensures |WireStamp(s, false)| < 27
  {
    assert Decimal(s.year / 10 / 10) == [DigitChar(s.year / 10 / 10)];
    assert |Decimal(s.year / 10)| <= 2;
  }
}
