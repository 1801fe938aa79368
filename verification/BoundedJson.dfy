/** Resource bounds for untrusted input (application/input_validation.py): an explicit-stack
    traversal, proved against the recursive limits it stands for. */
module BoundedJson {
  import opened Lifecycle
  import opened Json
  import opened JsonConversion

  const MAX_DEPTH := 32
  const MAX_NODES := 10_000
  const MAX_ITEMS := 1_000
  const MAX_CHARACTERS := 65_536
  const MAX_STACK := 33 * 999 + 1

  // ---------------------------------------------------------------- the limits

  function Nodes(value: Plain): (n: nat)
    ensures n >= 1
  {
    match value
    case PlainList(elements) => 1 + ElementNodes(elements)
    case PlainDict(entries) => 1 + EntryNodes(entries)
    case _ => 1
  }

  function ElementNodes(elements: Elements): nat {
    if elements.NoElements? then 0 else Nodes(elements.head) + ElementNodes(elements.rest)
  }

  function EntryNodes(entries: Entries): nat {
    if entries.NoEntries? then 0 else Nodes(entries.value) + EntryNodes(entries.others)
  }

  function ElementCount(elements: Elements): nat {
    if elements.NoElements? then 0 else 1 + ElementCount(elements.rest)
  }

  function EntryCount(entries: Entries): nat {
    if entries.NoEntries? then 0 else 1 + EntryCount(entries.others)
  }

  predicate KeyFits(key: Key) {
    key.TextKey? ==> |key.text| <= MAX_CHARACTERS
  }

  /** The value, met at this depth, stays within the limits of depth, length and width. */
  predicate ShapeFits(value: Plain, depth: nat) {
    && depth <= MAX_DEPTH
    && match value
       case PlainString(text) => |text| <= MAX_CHARACTERS
       case PlainList(elements) => ElementCount(elements) <= MAX_ITEMS && ElementsFit(elements, depth + 1)
       case PlainDict(entries) => EntryCount(entries) <= MAX_ITEMS && EntriesFit(entries, depth + 1)
       case _ => true
  }

  predicate ElementsFit(elements: Elements, depth: nat) {
    elements.Element? ==> ShapeFits(elements.head, depth) && ElementsFit(elements.rest, depth)
  }

  predicate EntriesFit(entries: Entries, depth: nat) {
    entries.Entry? ==>
      KeyFits(entries.key) && ShapeFits(entries.value, depth) && EntriesFit(entries.others, depth)
  }

  /** Within all limits. */
  predicate Bounded(value: Plain) {
    ShapeFits(value, 0) && Nodes(value) <= MAX_NODES
  }

  // ---------------------------------------------------------------- the stack

  datatype Pending = Pending(value: Plain, depth: nat)

  function StackNodes(stack: seq<Pending>): nat {
    if |stack| == 0 then 0 else StackNodes(stack[..|stack| - 1]) + Nodes(stack[|stack| - 1].value)
  }

  ghost predicate StackFits(stack: seq<Pending>) {
    forall i :: 0 <= i < |stack| ==> ShapeFits(stack[i].value, stack[i].depth)
  }

  /** Below an entry there are at most 999 siblings for each level above it. */
  ghost predicate StackIsShallow(stack: seq<Pending>) {
    forall i :: 0 <= i < |stack| ==> stack[i].depth <= MAX_DEPTH + 1 && i <= (MAX_ITEMS - 1) * stack[i].depth
  }

  lemma Pushed(stack: seq<Pending>, pending: Pending)
    ensures StackNodes(stack + [pending]) == StackNodes(stack) + Nodes(pending.value)
    ensures StackFits(stack + [pending]) <==> StackFits(stack) && ShapeFits(pending.value, pending.depth)
  {
    var grown := stack + [pending];
    assert grown[..|stack|] == stack;
    assert StackFits(grown) ==> forall i :: 0 <= i < |stack| ==> stack[i] == grown[i];
  }

  lemma Popped(stack: seq<Pending>)
    requires |stack| > 0
    ensures var top, rest := stack[|stack| - 1], stack[..|stack| - 1];
      && StackNodes(stack) == StackNodes(rest) + Nodes(top.value)
      && (StackFits(stack) <==> StackFits(rest) && ShapeFits(top.value, top.depth))
  {
    var top, rest := stack[|stack| - 1], stack[..|stack| - 1];
    Pushed(rest, top);
    assert rest + [top] == stack;
  }

  lemma ShallowStackIsSmall(stack: seq<Pending>)
    requires StackIsShallow(stack)
    ensures |stack| <= MAX_STACK
  {
    if |stack| > 0 {
      var top := stack[|stack| - 1];
      assert |stack| - 1 <= (MAX_ITEMS - 1) * top.depth <= (MAX_ITEMS - 1) * (MAX_DEPTH + 1);
    }
  }

  /** stack.extend over the elements of a list. */
  method PushElements(stack: seq<Pending>, elements: Elements, depth: nat) returns (grown: seq<Pending>)
    requires StackIsShallow(stack) && |stack| <= (MAX_ITEMS - 1) * depth && depth <= MAX_DEPTH
    requires ElementCount(elements) <= MAX_ITEMS
    ensures StackIsShallow(grown)
    ensures StackNodes(grown) == StackNodes(stack) + ElementNodes(elements)
    ensures StackFits(grown) <==> StackFits(stack) && ElementsFit(elements, depth + 1)
  {
    grown := stack;
    var rest := elements;
    while rest.Element?
      invariant StackIsShallow(grown)
      invariant |grown| + ElementCount(rest) == |stack| + ElementCount(elements)
      invariant StackNodes(grown) + ElementNodes(rest) == StackNodes(stack) + ElementNodes(elements)
      invariant StackFits(grown) && ElementsFit(rest, depth + 1)
            <==> StackFits(stack) && ElementsFit(elements, depth + 1)
      decreases rest
    {
      Pushed(grown, Pending(rest.head, depth + 1));
      grown := grown + [Pending(rest.head, depth + 1)];
      rest := rest.rest;
    }
  }

  /** The loop over the items of a dictionary; None is the complaint about a long key. */
  method PushEntries(stack: seq<Pending>, entries: Entries, depth: nat) returns (grown: Option<seq<Pending>>)
    requires StackIsShallow(stack) && |stack| <= (MAX_ITEMS - 1) * depth && depth <= MAX_DEPTH
    requires EntryCount(entries) <= MAX_ITEMS
    ensures grown.None? ==> !EntriesFit(entries, depth + 1)
    ensures grown.Some? ==>
              && StackIsShallow(grown.value)
              && StackNodes(grown.value) == StackNodes(stack) + EntryNodes(entries)
              && (StackFits(grown.value) <==> StackFits(stack) && EntriesFit(entries, depth + 1))
  {
    var all := stack;
    var rest := entries;
    while rest.Entry?
      invariant StackIsShallow(all)
      invariant |all| + EntryCount(rest) == |stack| + EntryCount(entries)
      invariant StackNodes(all) + EntryNodes(rest) == StackNodes(stack) + EntryNodes(entries)
      invariant !EntriesFit(rest, depth + 1) ==> !EntriesFit(entries, depth + 1)
      invariant StackFits(all) && EntriesFit(rest, depth + 1)
            <==> StackFits(stack) && EntriesFit(entries, depth + 1)
      decreases rest
    {
      if !KeyFits(rest.key) {
        return None;
      }
      Pushed(all, Pending(rest.value, depth + 1));
      all := all + [Pending(rest.value, depth + 1)];
      rest := rest.others;
    }
    return Some(all);
  }

  /** bounded_json_from_plain: None is input_too_large. The traversal accepts exactly what is
      within the limits, however the value is nested, and is itself bounded: it looks at no
      more than 10,001 nodes and never stacks more than MAX_STACK of them. */
  method BoundedJsonFromPlain(value: Plain)
    returns (result: Option<Result<Json>>, ghost rounds: nat, ghost peak: nat)
    ensures result.Some? <==> Bounded(value)
    ensures result.Some? ==> result.value == FromPlain(value)
    ensures rounds <= MAX_NODES + 1 && peak <= MAX_STACK
  {
    var stack := [Pending(value, 0)];
    var nodes: nat := 0;
    rounds, peak := 0, 1;
    Pushed([], Pending(value, 0));
    assert stack == [] + [Pending(value, 0)];
    while |stack| > 0
      invariant StackIsShallow(stack)
      invariant nodes <= MAX_NODES && rounds == nodes && |stack| <= peak <= MAX_STACK
      invariant Bounded(value) <==> StackFits(stack) && nodes + StackNodes(stack) <= MAX_NODES
      decreases MAX_NODES - nodes
    {
      Popped(stack);
      var current, depth := stack[|stack| - 1].value, stack[|stack| - 1].depth;
      stack := stack[..|stack| - 1];
      nodes := nodes + 1;
      rounds := rounds + 1;
      if nodes > MAX_NODES || depth > MAX_DEPTH {
        return None, rounds, peak;
      }
      match current {
        case PlainString(text) =>
          if |text| > MAX_CHARACTERS {
            return None, rounds, peak;
          }
        case PlainList(elements) =>
          if ElementCount(elements) > MAX_ITEMS {
            return None, rounds, peak;
          }
          stack := PushElements(stack, elements, depth);
        case PlainDict(entries) =>
          if EntryCount(entries) > MAX_ITEMS {
            return None, rounds, peak;
          }
          var grown := PushEntries(stack, entries, depth);
          if grown.None? {
            return None, rounds, peak;
          }
          stack := grown.value;
        case _ =>
      }
      ShallowStackIsSmall(stack);
      peak := if |stack| > peak then |stack| else peak;
    }
    var converted := JsonFromPlain(value);
    return Some(converted), rounds, peak;
  }
}
