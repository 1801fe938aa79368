/** json_from_plain as it runs: it collects the converted pairs of a dictionary in a list and
    sorts them at the end. */
module JsonConversion {
  import opened Lifecycle
  import opened Json

  datatype NamedJson = NamedJson(name: string, content: Json)

  function ItemsOf(values: seq<Json>, tail: Items): Items {
    if |values| == 0 then tail else Item(values[0], ItemsOf(values[1..], tail))
  }

  /** sort: inserts the pairs one by one, the last one first. */
  function SortInto(pairs: seq<NamedJson>, members: Members): Members {
    if |pairs| == 0 then members else Insert(pairs[0].name, pairs[0].content, SortInto(pairs[1..], members))
  }

  function ThenItems(values: seq<Json>, rest: Result<Items>): Result<Items> {
    if rest.Ok? then Ok(ItemsOf(values, rest.value)) else rest
  }

  function ThenMembers(pairs: seq<NamedJson>, rest: Result<Members>): Result<Members> {
    if rest.Ok? then Ok(SortInto(pairs, rest.value)) else rest
  }

  lemma {:induction false} ItemsOfAppend(values: seq<Json>, last: Json, tail: Items)
    ensures ItemsOf(values + [last], tail) == ItemsOf(values, Item(last, tail))
    decreases |values|
  {
    if |values| > 0 {
      assert (values + [last])[1..] == values[1..] + [last];
      ItemsOfAppend(values[1..], last, tail);
    } else {
      assert (values + [last])[1..] == [];
    }
  }

  lemma {:induction false} SortIntoAppend(pairs: seq<NamedJson>, last: NamedJson, members: Members)
    ensures SortInto(pairs + [last], members) == SortInto(pairs, Insert(last.name, last.content, members))
    decreases |pairs|
  {
    if |pairs| > 0 {
      assert (pairs + [last])[1..] == pairs[1..] + [last];
      SortIntoAppend(pairs[1..], last, members);
    } else {
      assert (pairs + [last])[1..] == [];
    }
  }

  method JsonFromPlain(value: Plain) returns (result: Result<Json>)
    ensures result == FromPlain(value)
    decreases value
  {
    match value
    case PlainNull => return Ok(JsonNull);
    case PlainBool(flag) => return Ok(JsonBool(flag));
    case PlainInt(number) => return Ok(JsonInt(number));
    case PlainString(text) => return Ok(JsonString(text));
    case PlainFloat => return Err(NonCanonicalNumber);
    case PlainOther => return Err(InvalidType);
    case PlainList(elements) => result := ArrayFromPlain(elements);
    case PlainDict(entries) => result := ObjectFromPlain(entries);
  }

  method ArrayFromPlain(elements: Elements) returns (result: Result<Json>)
    ensures result == FromPlain(PlainList(elements))
    decreases elements
  {
    var values: seq<Json> := [];
    var rest := elements;
    while rest.Element?
      invariant rest == elements || rest < elements
      invariant FromElements(elements) == ThenItems(values, FromElements(rest))
      decreases rest
    {
      var converted := JsonFromPlain(rest.head);
      if converted.Err? {
        return Err(converted.error);
      }
      if FromElements(rest.rest).Ok? {
        ItemsOfAppend(values, converted.value, FromElements(rest.rest).value);
      }
      values := values + [converted.value];
      rest := rest.rest;
    }
    return Ok(JsonArray(ItemsOf(values, NoItems)));
  }

  method ObjectFromPlain(entries: Entries) returns (result: Result<Json>)
    ensures result == FromPlain(PlainDict(entries))
    decreases entries
  {
    var pairs: seq<NamedJson> := [];
    var rest := entries;
    while rest.Entry?
      invariant rest == entries || rest < entries
      invariant FromEntries(entries) == ThenMembers(pairs, FromEntries(rest))
      decreases rest
    {
      if rest.key.OtherKey? {
        return Err(InvalidType);
      }
      var converted := JsonFromPlain(rest.value);
      if converted.Err? {
        return Err(converted.error);
      }
      var pair := NamedJson(rest.key.text, converted.value);
      if FromEntries(rest.others).Ok? {
        SortIntoAppend(pairs, pair, FromEntries(rest.others).value);
      }
      pairs := pairs + [pair];
      rest := rest.others;
    }
    return MakeObject(SortInto(pairs, NoMembers));
  }
}
