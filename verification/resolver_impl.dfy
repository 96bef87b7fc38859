/**
 * BaseItemResolver: the table of creators (one per key, replaced on add)
 * and the table of decorators (a sequence per key, appended on add). Each
 * method is proved against the functions of module Resolution.
 */
module ResolverImpl {
  import opened Wrappers
  import opened Errors
  import opened Resolution

  class BaseItemResolver<K(==), !T, E> {
    var mappings: map<K, Mapping<K, T, E>>
    var aoMappings: map<K, seq<AOMapping<K, T, E>>>

    /** The tables as a value. */
    function State(): Table<K, T, E>
      reads this
    {
      Table(mappings, aoMappings)
    }

    /** Every mapping is filed under its own key, as the add methods file them. */
    ghost predicate Valid()
      reads this
    {
      WellKeyed(State())
    }

    /** A resolver with both tables empty. */
    constructor ()
      ensures Valid()
      ensures mappings == map[] && aoMappings == map[]
    {
      mappings := map[];
      aoMappings := map[];
    }

    /** Register a creator, replacing any creator its key had; nothing else changes. */
    method AddMapping(m: Mapping<K, T, E>)
      requires Valid()
      modifies this
      ensures Valid()
      ensures mappings == old(mappings)[m.key := m]
      ensures aoMappings == old(aoMappings)
    {
      mappings := mappings[m.key := m];
    }

    /** Register creators in order; a later one for the same key replaces an earlier one. */
    method AddMappings(ms: seq<Mapping<K, T, E>>)
      requires Valid()
      modifies this
      ensures Valid()
      ensures mappings == Resolution.AddMappings(old(mappings), ms)
      ensures aoMappings == old(aoMappings)
    {
      for i := 0 to |ms|
        invariant Valid()
        invariant mappings == Resolution.AddMappings(old(mappings), ms[..i])
        invariant aoMappings == old(aoMappings)
      {
        assert ms[..i + 1][..i] == ms[..i];
        mappings := mappings[ms[i].key := ms[i]];
      }
      assert ms[..|ms|] == ms;
    }

    /** The variadic form: the same as AddMappings. */
    method AddMappingsVar(ms: seq<Mapping<K, T, E>>)
      requires Valid()
      modifies this
      ensures Valid()
      ensures mappings == Resolution.AddMappings(old(mappings), ms)
      ensures aoMappings == old(aoMappings)
    {
      AddMappings(ms);
    }

    /** The creator registered for `key`, if any. */
    method GetMapping(key: K) returns (m: Option<Mapping<K, T, E>>)
      ensures m.Some? <==> key in mappings
      ensures m.Some? ==> m.value == mappings[key]
    {
      if key in mappings {
        m := Some(mappings[key]);
      } else {
        m := None;
      }
    }

    /**
     * Build the item of `key`: nothing without a creator; a not-resolved
     * error, with no decorator run, when the creator fails; otherwise the
     * created item passed through the decorator chain.
     */
    method ResolveItem(key: K) returns (r: Result<Option<T>, DiscoveryError<K, E>>)
      requires Valid()
      ensures r == Resolution.ResolveItem(State(), key)
    {
      var creator := GetMapping(key);
      if creator.None? {
        return Ok(None);
      }
      var created := creator.value.creator();
      if created.Err? {
        return Err(NotResolved(key, created.error));
      }
      r := WrapAO(key, created.value);
    }

    /** Build an item from the given mapping, without consulting the creator table. */
    method ResolveMapping(m: Mapping<K, T, E>) returns (r: Result<Option<T>, DiscoveryError<K, E>>)
      requires Valid()
      ensures r == Resolution.ResolveMapping(State(), m)
    {
      var created := m.creator();
      if created.Err? {
        return Err(NotResolved(m.key, created.error));
      }
      r := WrapAO(m.key, created.value);
    }

    /** The decorators registered for `key` in registration order, and whether there are any entries. */
    method GetAOMappings(key: K) returns (ds: seq<AOMapping<K, T, E>>, ok: bool)
      ensures ok <==> key in aoMappings
      ensures ds == Registered(aoMappings, key)
    {
      ok := key in aoMappings;
      ds := if ok then aoMappings[key] else [];
    }

    /** Append a decorator to its key's sequence; every other key keeps its sequence. */
    method AddAOMapping(m: AOMapping<K, T, E>)
      requires Valid()
      modifies this
      ensures Valid()
      ensures aoMappings == Resolution.AddAOMapping(old(aoMappings), m)
      ensures mappings == old(mappings)
    {
      var existing := if m.key in aoMappings then aoMappings[m.key] else [];
      aoMappings := aoMappings[m.key := existing + [m]];
    }

    /** Append decorators in order. */
    method AddAOMappings(ms: seq<AOMapping<K, T, E>>)
      requires Valid()
      modifies this
      ensures Valid()
      ensures aoMappings == Resolution.AddAOMappings(old(aoMappings), ms)
      ensures mappings == old(mappings)
    {
      for i := 0 to |ms|
        invariant Valid()
        invariant aoMappings == Resolution.AddAOMappings(old(aoMappings), ms[..i])
        invariant mappings == old(mappings)
      {
        assert ms[..i + 1][..i] == ms[..i];
        var existing := if ms[i].key in aoMappings then aoMappings[ms[i].key] else [];
        aoMappings := aoMappings[ms[i].key := existing + [ms[i]]];
      }
      assert ms[..|ms|] == ms;
    }

    /**
     * Decorate `item` with the decorators of `key`, walking them from the
     * last registered down to the first and stopping at the first failure.
     */
    method WrapAO(key: K, item: Option<T>) returns (r: Result<Option<T>, DiscoveryError<K, E>>)
      requires Valid()
      ensures r == Wrap(key, Registered(aoMappings, key), item)
    {
      r := Ok(item);
      if key in aoMappings {
        var ms := aoMappings[key];
        var result := item;
        var i := |ms| - 1;
        assert ms[..i + 1] == ms;
        while i >= 0
          invariant -1 <= i < |ms|
          invariant Wrap(key, ms, item) == Wrap(key, ms[..i + 1], result)
        {
          assert ms[..i + 1][..i] == ms[..i];
          var next := ms[i].decorator(result);
          if next.Err? {
            return Err(NotResolved(ms[i].key, next.error));
          }
          result := next.value;
          i := i - 1;
        }
        r := Ok(result);
      }
    }
  }
}
