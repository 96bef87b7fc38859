/**
 * ItemDiscovery: a registry that owns a key-to-item cache, may have a
 * parent registry to fall back on, and resolves missing items through a
 * BaseItemResolver. Locking is not modelled: every operation runs to
 * completion on its own. The lookup is proved against Lookup.GetItem.
 */
module DiscoveryImpl {
  import opened Wrappers
  import opened Errors
  import opened Resolution
  import opened ResolveOptions
  import opened ResolverImpl
  import opened Lookup

  /** `s` without its first occurrence of `k`; unchanged when `k` does not occur. */
  function RemoveFirst<K(==)>(s: seq<K>, k: K): seq<K>
    decreases |s|
  {
    if s == [] then []
    else if s[0] == k then s[1..]
    else [s[0]] + RemoveFirst(s[1..], k)
  }

  /** Removal drops exactly the first occurrence: the entries before and after it stay in order. */
  lemma {:induction false} RemoveFirstAt<K>(s: seq<K>, k: K, i: nat)
    requires i < |s| && s[i] == k && k !in s[..i]
    ensures RemoveFirst(s, k) == s[..i] + s[i + 1..]
    decreases i
  {
    if i > 0 {
      assert s[0] in s[..i];
      assert s[1..][..i - 1] == s[1..i];
      assert k !in s[1..][..i - 1];
      RemoveFirstAt(s[1..], k, i - 1);
      assert s[..i] == [s[0]] + s[1..][..i - 1];
      assert s[1..][i - 1 + 1..] == s[i + 1..];
    }
  }

  /** Removing a key that is not in the list leaves the list as it was. */
  lemma {:induction false} RemoveFirstAbsent<K>(s: seq<K>, k: K)
    requires k !in s
    ensures RemoveFirst(s, k) == s
    decreases |s|
  {
    if s != [] {
      assert s[0] in s;
      assert forall x :: x in s[1..] ==> x in s;
      RemoveFirstAbsent(s[1..], k);
      assert [s[0]] + s[1..] == s;
    }
  }

  /** Removal takes exactly one copy of `k` out of the list when there is one, and nothing else. */
  lemma {:induction false} RemoveFirstMultiset<K>(s: seq<K>, k: K)
    ensures multiset(RemoveFirst(s, k)) == multiset(s) - multiset{k}
    decreases |s|
  {
    if s != [] {
      assert s == [s[0]] + s[1..];
      if s[0] != k {
        RemoveFirstMultiset(s[1..], k);
      }
    }
  }

  /** Pushing a key that is not yet in the list and then removing it restores the list. */
  lemma RemoveFirstUndoesPush<K>(s: seq<K>, k: K)
    requires k !in s
    ensures RemoveFirst(s + [k], k) == s
  {
    var t := s + [k];
    assert t[..|s|] == s;
    RemoveFirstAt(t, k, |s|);
    assert t[|s| + 1..] == [];
  }

  class ItemDiscovery<K(==), !T, E> {
    var items: map<K, T>
    var baseDiscovery: ItemDiscovery?<K, T, E>
    var activeResolvers: seq<K>
    var resolver: BaseItemResolver<K, T, E>

    /** This registry and its ancestors. */
    ghost var Repr: set<ItemDiscovery<K, T, E>>
    /** The resolvers of this registry and its ancestors (a resolver may be shared). */
    ghost var Resolvers: set<BaseItemResolver<K, T, E>>
    /** The number of ancestors. */
    ghost var depth: nat

    /**
     * The parent chain is finite and acyclic, every resolver on it is
     * valid, and between operations no resolution is in progress.
     */
    ghost predicate Valid()
      reads this, Repr, Resolvers
      decreases Repr
    {
      && this in Repr
      && resolver in Resolvers
      && resolver.Valid()
      && activeResolvers == []
      && (baseDiscovery == null ==> Repr == {this} && Resolvers == {resolver} && depth == 0)
      && (baseDiscovery != null ==>
            && baseDiscovery in Repr
            && this !in baseDiscovery.Repr
            && Repr == {this} + baseDiscovery.Repr
            && Resolvers == {resolver} + baseDiscovery.Resolvers
            && depth == baseDiscovery.depth + 1
            && baseDiscovery.Valid())
    }

    /** The chain as values: this registry's level first, then its ancestors'. */
    ghost function Levels(): (ls: seq<Level<K, T, E>>)
      requires Valid()
      reads this, Repr, Resolvers
      ensures |ls| == depth + 1
      ensures ls[0] == Level(items, resolver.State())
      decreases Repr
    {
      [Level(items, resolver.State())] + (if baseDiscovery == null then [] else baseDiscovery.Levels())
    }

    /** A registry without a parent; a missing resolver is replaced by a fresh, empty one. */
    constructor (resolver: BaseItemResolver?<K, T, E>)
      requires resolver != null ==> resolver.Valid()
      ensures Valid() && fresh(Repr)
      ensures items == map[] && baseDiscovery == null
      ensures resolver != null ==> this.resolver == resolver
      ensures resolver == null ==> fresh(this.resolver) && this.resolver.mappings == map[] && this.resolver.aoMappings == map[]
    {
      var r := resolver;
      if r == null {
        r := new BaseItemResolver();
      }
      items := map[];
      baseDiscovery := null;
      activeResolvers := [];
      this.resolver := r;
      Repr := {this};
      Resolvers := {r};
      depth := 0;
    }

    /** A registry whose lookups fall back on `base` (a nil base means no parent). */
    constructor WithBase(base: ItemDiscovery?<K, T, E>, resolver: BaseItemResolver?<K, T, E>)
      requires base != null ==> base.Valid()
      requires resolver != null ==> resolver.Valid()
      ensures Valid() && fresh(Repr - (if base == null then {} else base.Repr))
      ensures items == map[] && baseDiscovery == base
      ensures resolver != null ==> this.resolver == resolver
      ensures resolver == null ==> fresh(this.resolver) && this.resolver.mappings == map[] && this.resolver.aoMappings == map[]
    {
      var r := resolver;
      if r == null {
        r := new BaseItemResolver();
      }
      items := map[];
      baseDiscovery := base;
      activeResolvers := [];
      this.resolver := r;
      if base == null {
        Repr := {this};
        Resolvers := {r};
        depth := 0;
      } else {
        Repr := {this} + base.Repr;
        Resolvers := {r} + base.Resolvers;
        depth := base.depth + 1;
      }
    }

    /**
     * Register an item under `key`, overwriting any previous entry, when it
     * is convertible to the key; otherwise fail and leave the cache alone.
     * A nil item has no dynamic type to test, and the source panics on it.
     */
    method AddItem(key: K, item: Option<T>, convertibleTo: (T, K) -> bool) returns (err: Option<DiscoveryError<K, E>>, panicked: bool)
      requires Valid()
      modifies this`items
      ensures Valid()
      ensures item.None? ==> panicked && err == None && items == old(items)
      ensures item.Some? && convertibleTo(item.value, key) ==> !panicked && err == None && items == old(items)[key := item.value]
      ensures item.Some? && !convertibleTo(item.value, key) ==> !panicked && err == Some(NotItemType(key)) && items == old(items)
    {
      if item.None? {
        return None, true;
      }
      if !convertibleTo(item.value, key) {
        return Some(NotItemType(key)), false;
      }
      SetTypedItem(key, item.value);
      return None, false;
    }

    /** Evict `key` from the cache; an absent key is a no-op. Mappings are untouched. */
    method RemoveItem(key: K)
      requires Valid()
      modifies this`items
      ensures Valid()
      ensures items == old(items) - {key}
      ensures key !in old(items) ==> items == old(items)
    {
      if key in items {
        items := items - {key};
      }
    }

    /** Cache membership only: no resolution, no parent, no change. */
    method HasItem(key: K) returns (b: bool)
      ensures b <==> key in items
    {
      var cached := GetTypedItem(key);
      b := cached.Some?;
    }

    /** The lookup with default options. */
    method GetItem(key: K) returns (r: Result<T, DiscoveryError<K, E>>)
      requires Valid()
      modifies Repr`items, Repr`activeResolvers
      ensures Valid()
      ensures Lookup.GetItem(old(Levels()), key, RoNone) == Outcome(r, Levels())
    {
      r := GetItemWithOptions(key, RoNone);
    }

    /** The default lookup, panicking exactly when GetItem would return an error. */
    method GetRequiredItem(key: K) returns (r: Result<T, DiscoveryError<K, E>>, panicked: bool)
      requires Valid()
      modifies Repr`items, Repr`activeResolvers
      ensures Valid()
      ensures Lookup.GetItem(old(Levels()), key, RoNone) == Outcome(r, Levels())
      ensures panicked <==> r.Err?
    {
      r := GetItemWithOptions(key, RoNone);
      panicked := r.Err?;
    }

    /** Despite its name, the same lookup as GetItemWithOptions: it returns errors and never panics. */
    method GetRequiredItemWithOptions(key: K, opts: Options) returns (r: Result<T, DiscoveryError<K, E>>)
      requires Valid()
      modifies Repr`items, Repr`activeResolvers
      ensures Valid()
      ensures Lookup.GetItem(old(Levels()), key, opts) == Outcome(r, Levels())
    {
      r := GetItemWithOptions(key, opts);
    }

    /** Decorate an item built outside the registry with the decorators of `key`. */
    method WrapAO(key: K, item: Option<T>) returns (r: Result<Option<T>, DiscoveryError<K, E>>)
      requires Valid()
      ensures r == Wrap(key, Registered(resolver.aoMappings, key), item)
    {
      r := resolver.WrapAO(key, item);
    }

    /** The cached item of `key`, if any. */
    method GetTypedItem(key: K) returns (item: Option<T>)
      ensures item.Some? <==> key in items
      ensures item.Some? ==> item.value == items[key]
    {
      if key in items {
        item := Some(items[key]);
      } else {
        item := None;
      }
    }

    /** Store `item` under `key`, replacing any previous entry. */
    method SetTypedItem(key: K, item: T)
      requires Valid()
      modifies this`items
      ensures Valid()
      ensures items == old(items)[key := item]
    {
      items := items[key := item];
    }

    /**
     * The options-driven lookup. The registry's own phase comes first (see
     * LocalLookup); an error is returned at once; nothing found, without
     * RoInstanceItem, asks the parent with the same options; still nothing
     * is not-found.
     */
    method GetItemWithOptions(key: K, opts: Options) returns (r: Result<T, DiscoveryError<K, E>>)
      requires Valid()
      modifies Repr`items, Repr`activeResolvers
      ensures Valid()
      ensures Lookup.GetItem(old(Levels()), key, opts) == Outcome(r, Levels())
      decreases Repr, 1
    {
      ghost var before := Levels();
      assert before[1..] == if baseDiscovery == null then [] else baseDiscovery.Levels();

      var item, err := LocalLookup(key, opts);
      if baseDiscovery != null {
        ChainUnchanged(baseDiscovery);
      }
      assert Levels() == [Level(items, resolver.State())] + before[1..];
      if err.Some? {
        r := Err(err.value);
      } else if item.None? && !Has(opts, RoInstanceItem) && baseDiscovery != null {
        r := AskParent(key, opts);
      } else if item.None? {
        r := Err(NotFound(key));
      } else {
        r := Ok(item.value);
      }
    }

    /** The fallback to the parent: its own lookup with the same options; this registry's cache is left alone. */
    method AskParent(key: K, opts: Options) returns (r: Result<T, DiscoveryError<K, E>>)
      requires Valid() && baseDiscovery != null
      modifies Repr`items, Repr`activeResolvers
      ensures Valid()
      ensures Levels() == [Level(old(items), resolver.State())] + Lookup.GetItem(old(baseDiscovery.Levels()), key, opts).levels
      ensures r == Lookup.GetItem(old(baseDiscovery.Levels()), key, opts).result
      decreases Repr, 0
    {
      r := baseDiscovery.GetItemWithOptions(key, opts);
    }

    /**
     * The registry's own phase of a lookup. With RoInstanceItem: resolve
     * without the cache. Otherwise the cache, then, on a miss and without
     * RoDontResolve, the resolver, whose non-nil item is written back.
     * Yields an item or nothing, or an error; no other registry is touched.
     */
    method LocalLookup(key: K, opts: Options) returns (item: Option<T>, err: Option<DiscoveryError<K, E>>)
      requires Valid()
      modifies this`items, this`activeResolvers
      ensures Valid()
      ensures var (local, cache) := Lookup.LocalPhase(Level(old(items), resolver.State()), key, opts);
              items == cache && (if err.Some? then local == Err(err.value) else local == Ok(item))
    {
      item := None;
      err := None;
      if Has(opts, RoInstanceItem) {
        var res := ResolveItem(key, false);
        if res.Err? { err := Some(res.error); } else { item := res.value; }
      } else {
        item := GetTypedItem(key);
        if item.None? && !Has(opts, RoDontResolve) {
          var res := ResolveItem(key, true);
          if res.Err? { err := Some(res.error); } else { item := res.value; }
        }
      }
    }

    /**
     * Run the resolver for `key`. When `shared` (the source passes a
     * check-back and a set-item callback), the cache is consulted once more
     * after the resolve lock and a non-nil result is written back; when not
     * shared the cache is neither read nor written.
     */
    method ResolveItem(key: K, shared: bool) returns (r: Result<Option<T>, DiscoveryError<K, E>>)
      requires Valid()
      modifies this`items, this`activeResolvers
      ensures Valid()
      ensures shared && key in old(items) ==> r == Ok(Some(old(items)[key])) && items == old(items)
      ensures !(shared && key in old(items)) ==> r == Resolution.ResolveItem(resolver.State(), key)
      ensures !(shared && key in old(items)) ==> items == if shared then WriteBack(old(items), key, r) else old(items)
    {
      var panic := AcquireResolveLock(key);
      // Valid() keeps the active list empty between operations, so the circular-dependency panic does not fire here.
      assert panic == None;
      assert Valid();
      r := ResolveLocked(key, shared);
    }

    /** The part of ResolveItem that runs while the resolve lock for `key` is held. */
    method ResolveLocked(key: K, shared: bool) returns (r: Result<Option<T>, DiscoveryError<K, E>>)
      requires Valid()
      modifies this`items
      ensures Valid()
      ensures shared && key in old(items) ==> r == Ok(Some(old(items)[key])) && items == old(items)
      ensures !(shared && key in old(items)) ==> r == Resolution.ResolveItem(resolver.State(), key)
      ensures !(shared && key in old(items)) ==> items == if shared then WriteBack(old(items), key, r) else old(items)
    {
      if shared {
        var cached := GetTypedItem(key);
        if cached.Some? {
          return Ok(cached);
        }
      }
      r := resolver.ResolveItem(key);
      if r.Ok? && r.value.Some? && shared {
        SetTypedItem(key, r.value.value);
      }
    }

    /** Whether `key` is on the list of active resolutions. */
    method IsResolving(key: K) returns (b: bool)
      ensures b <==> key in activeResolvers
    {
      var i := 0;
      while i < |activeResolvers|
        invariant 0 <= i <= |activeResolvers|
        invariant key !in activeResolvers[..i]
      {
        if activeResolvers[i] == key {
          return true;
        }
        assert activeResolvers[..i + 1] == activeResolvers[..i] + [activeResolvers[i]];
        i := i + 1;
      }
      assert activeResolvers[..i] == activeResolvers;
      return false;
    }

    /** Remove the first entry equal to `key` from the active list. */
    method RemoveActiveResolver(key: K)
      modifies this`activeResolvers
      ensures activeResolvers == RemoveFirst(old(activeResolvers), key)
    {
      var i := 0;
      while i < |activeResolvers|
        invariant 0 <= i <= |activeResolvers|
        invariant activeResolvers == old(activeResolvers)
        invariant key !in activeResolvers[..i]
      {
        if activeResolvers[i] == key {
          RemoveFirstAt(activeResolvers, key, i);
          activeResolvers := activeResolvers[..i] + activeResolvers[i + 1..];
          return;
        }
        assert activeResolvers[..i + 1] == activeResolvers[..i] + [activeResolvers[i]];
        i := i + 1;
      }
      assert activeResolvers[..i] == activeResolvers;
      RemoveFirstAbsent(activeResolvers, key);
    }

    /**
     * The bookkeeping of taking the resolve lock: a key already on the
     * active list is a circular dependency (the source panics); otherwise
     * the key is pushed and, by the deferred removal, popped again before
     * returning, so the list is as it was on entry.
     */
    method AcquireResolveLock(key: K) returns (panic: Option<DiscoveryError<K, E>>)
      modifies this`activeResolvers
      ensures panic == if key in old(activeResolvers) then Some(Circular(key)) else None
      ensures activeResolvers == old(activeResolvers)
    {
      var resolving := IsResolving(key);
      if resolving {
        return Some(Circular(key));
      }
      activeResolvers := activeResolvers + [key];
      RemoveActiveResolver(key);
      RemoveFirstUndoesPush(old(activeResolvers), key);
      return None;
    }
  }

  /** A registry none of whose chain objects or resolvers changed is still valid and has the same levels. */
  twostate lemma ChainUnchanged<K, T, E>(d: ItemDiscovery<K, T, E>)
    requires old(d.Valid())
    requires unchanged(old(d.Repr)) && unchanged(old(d.Resolvers))
    ensures d.Valid() && d.Levels() == old(d.Levels())
  {
  }
}
