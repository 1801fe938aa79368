/** The capability registry (providers/registry.py): which adapter serves which effect. */
module Registry {
  import opened Lifecycle
  import opened Intent

  /** An adapter with its supported effects and, for each, the effect its descriptor names. */
  datatype Adapter = Adapter(name: nat, supported: seq<Effect>, described: seq<Effect>)

  predicate IsAdapter(adapter: Adapter) {
    |adapter.described| == |adapter.supported|
  }

  datatype Refusal = NothingSupported | AlreadyServed(effect: Effect) | WrongDescriptor(effect: Effect)

  /** Whether the effect at this place may be registered. */
  predicate MayServe(adapters: map<Effect, Adapter>, adapter: Adapter, i: nat)
    requires IsAdapter(adapter) && i < |adapter.supported|
  {
    adapter.supported[i] !in adapters && adapter.described[i] == adapter.supported[i]
  }

  /** Listed, in order of registration, exactly the effects that are served. */
  ghost predicate Lists(order: seq<Effect>, adapters: map<Effect, Adapter>) {
    forall effect :: effect in order <==> effect in adapters
  }

  ghost predicate Distinct(effects: seq<Effect>) {
    forall i, j :: 0 <= i < j < |effects| ==> effects[i] != effects[j]
  }

  class CapabilityRegistry {
    var order: seq<Effect>
    var adapters: map<Effect, Adapter>

    ghost predicate Valid()
      reads this
    {
      Lists(order, adapters)
    }

    constructor ()
      ensures Valid() && order == [] && adapters == map[]
    {
      order, adapters := [], map[];
    }

    /** register: all effects of an adapter or none. */
    method Register(adapter: Adapter) returns (refusal: Option<Refusal>)
      requires Valid() && IsAdapter(adapter)
      modifies this
      ensures Valid()
      ensures refusal.None? <==>
                |adapter.supported| > 0
                && forall i :: 0 <= i < |adapter.supported| ==> MayServe(old(adapters), adapter, i)
      ensures refusal.Some? ==> order == old(order) && adapters == old(adapters)
      ensures refusal.None? ==>
                && order == old(order) + adapter.supported
                && adapters == old(adapters) + (map effect | effect in adapter.supported :: adapter)
    {
      if |adapter.supported| == 0 {
        return Some(NothingSupported);
      }
      var n := |adapter.supported|;
      for i := 0 to n
        invariant forall k :: 0 <= k < i ==> MayServe(adapters, adapter, k)
      {
        var effect := adapter.supported[i];
        if effect in adapters {
          assert !MayServe(adapters, adapter, i);
          return Some(AlreadyServed(effect));
        }
        if adapter.described[i] != effect {
          assert !MayServe(adapters, adapter, i);
          return Some(WrongDescriptor(effect));
        }
      }
      var before := adapters;
      for i := 0 to n
        invariant order == old(order) + adapter.supported[..i]
        invariant adapters == before + (map effect | effect in adapter.supported[..i] :: adapter)
      {
        var effect := adapter.supported[i];
        assert adapter.supported[..i + 1] == adapter.supported[..i] + [effect];
        adapters := adapters[effect := adapter];
        order := order + [effect];
      }
      assert adapter.supported[..n] == adapter.supported;
      refusal := None;
    }
  }

  /** An accepted registration never takes an effect away from its adapter, and it lists every
      effect once if and only if the adapter itself names none twice: the check looks at what is
      served already, not at what the same adapter named before. */
  lemma ListedOnceIff(order: seq<Effect>, adapters: map<Effect, Adapter>, adapter: Adapter)
    requires Lists(order, adapters) && Distinct(order) && IsAdapter(adapter)
    requires forall i :: 0 <= i < |adapter.supported| ==> MayServe(adapters, adapter, i)
    ensures var served := adapters + (map effect | effect in adapter.supported :: adapter);
      forall effect :: effect in adapters ==> served[effect] == adapters[effect]
    ensures Distinct(order + adapter.supported) <==> Distinct(adapter.supported)
  {
    var all, n := order + adapter.supported, |order|;
    forall i | 0 <= i < |adapter.supported| ensures adapter.supported[i] !in adapters {
      assert MayServe(adapters, adapter, i);
    }
    assert forall i :: 0 <= i < |adapter.supported| ==> all[n + i] == adapter.supported[i];
    if Distinct(adapter.supported) {
      forall i, j | 0 <= i < j < |all| ensures all[i] != all[j] {
        if i < n <= j {
          assert all[i] in order && MayServe(adapters, adapter, j - n);
        }
      }
    }
  }
}
