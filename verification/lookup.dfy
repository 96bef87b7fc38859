/**
 * The options-driven lookup of a registry and its parent chain, as a
 * function on values. A chain is a non-empty sequence of levels, the
 * registry asked first and its ancestors after it; each level is that
 * registry's cache together with its resolver's tables. The lookup yields
 * the result and the chain's new levels (only caches ever change).
 */
module Lookup {
  import opened Wrappers
  import opened Errors
  import opened Resolution
  import opened ResolveOptions

  /** One registry of a chain: its cache and the tables of its resolver. */
  datatype Level<K, !T, E> = Level(items: map<K, T>, tables: Table<K, T, E>)

  /** What a lookup returns, and the chain afterwards. */
  datatype Outcome<K, !T, E> = Outcome(result: Result<T, DiscoveryError<K, E>>, levels: seq<Level<K, T, E>>)

  /**
   * The registry's own phase: with RoInstanceItem, resolve without touching
   * the cache; otherwise the cache first, then, on a miss and without
   * RoDontResolve, the resolver, whose non-nil item is written back.
   * Yields an item, nothing, or an error, and the cache afterwards.
   */
  function LocalPhase<K(==), T, E>(lv: Level<K, T, E>, key: K, opts: Options): (Result<Option<T>, DiscoveryError<K, E>>, map<K, T>) {
    if Has(opts, RoInstanceItem) then (ResolveItem(lv.tables, key), lv.items)
    else if key in lv.items then (Ok(Some(lv.items[key])), lv.items)
    else if Has(opts, RoDontResolve) then (Ok(None), lv.items)
    else (ResolveItem(lv.tables, key), WriteBack(lv.items, key, ResolveItem(lv.tables, key)))
  }

  /** The cache after a resolution: only a non-nil item is written back. */
  function WriteBack<K(==), T, E>(items: map<K, T>, key: K, r: Result<Option<T>, DiscoveryError<K, E>>): map<K, T> {
    if r.Ok? && r.value.Some? then items[key := r.value.value] else items
  }

  /**
   * The full lookup: a local error is returned as it is; a local item is
   * returned; nothing locally, without RoInstanceItem and with a parent,
   * asks the parent with the same options; otherwise the key is not found.
   */
  function GetItem<K(==), T, E>(levels: seq<Level<K, T, E>>, key: K, opts: Options): (o: Outcome<K, T, E>)
    requires |levels| > 0
    ensures |o.levels| == |levels|
    ensures forall i :: 0 <= i < |levels| ==> o.levels[i].tables == levels[i].tables
    decreases |levels|
  {
    var (local, cache) := LocalPhase(levels[0], key, opts);
    var here := Level(cache, levels[0].tables);
    match local
    case Err(e) => Outcome(Err(e), [here] + levels[1..])
    case Ok(Some(item)) => Outcome(Ok(item), [here] + levels[1..])
    case Ok(None) =>
      if !Has(opts, RoInstanceItem) && |levels| > 1 then
        var up := GetItem(levels[1..], key, opts);
        Outcome(up.result, [here] + up.levels)
      else
        Outcome(Err(NotFound(key)), [here] + levels[1..])
  }

  /** The first item cached for `key` along the chain, if any. */
  function FirstCached<K(==), T, E>(levels: seq<Level<K, T, E>>, key: K): Option<T>
    decreases |levels|
  {
    if levels == [] then None
    else if key in levels[0].items then Some(levels[0].items[key])
    else FirstCached(levels[1..], key)
  }

  /** The same chain with other resolver tables. */
  ghost predicate SameCaches<K, T, E>(a: seq<Level<K, T, E>>, b: seq<Level<K, T, E>>) {
    |a| == |b| && forall i :: 0 <= i < |a| ==> a[i].items == b[i].items
  }

  /**
   * A cache hit (without RoInstanceItem) returns the cached item and leaves
   * the whole chain as it was; no resolver and no parent is involved.
   */
  lemma CacheHit<K, T, E>(levels: seq<Level<K, T, E>>, key: K, opts: Options)
    requires |levels| > 0 && !Has(opts, RoInstanceItem) && key in levels[0].items
    ensures GetItem(levels, key, opts) == Outcome(Ok(levels[0].items[key]), levels)
  {
    assert [levels[0]] + levels[1..] == levels;
  }

  /**
   * A miss that may resolve runs the registry's own resolver: a non-nil
   * item is returned and cached here; an error is returned with no cache
   * written and no parent asked; nothing asks the parent with the same
   * options, or is not found without a parent. This registry never caches
   * what its parent returns.
   */
  lemma MissResolves<K, T, E>(levels: seq<Level<K, T, E>>, key: K, opts: Options)
    requires |levels| > 0 && !Has(opts, RoInstanceItem) && !Has(opts, RoDontResolve)
    requires key !in levels[0].items
    ensures var r := ResolveItem(levels[0].tables, key);
            r.Ok? && r.value.Some? ==>
              GetItem(levels, key, opts) == Outcome(Ok(r.value.value), [Level(levels[0].items[key := r.value.value], levels[0].tables)] + levels[1..])
    ensures var r := ResolveItem(levels[0].tables, key);
            r.Err? ==> GetItem(levels, key, opts) == Outcome(Err(r.error), levels)
    ensures var r := ResolveItem(levels[0].tables, key);
            r == Ok(None) && |levels| == 1 ==> GetItem(levels, key, opts) == Outcome(Err(NotFound(key)), levels)
    ensures var r := ResolveItem(levels[0].tables, key);
            r == Ok(None) && |levels| > 1 ==>
              GetItem(levels, key, opts) ==
              Outcome(GetItem(levels[1..], key, opts).result, [levels[0]] + GetItem(levels[1..], key, opts).levels)
  {
    assert [levels[0]] + levels[1..] == levels;
  }

  /**
   * With RoInstanceItem the cache is neither read nor written and no parent
   * is asked: the chain is unchanged and the result depends only on this
   * registry's resolver.
   */
  lemma InstanceItemBypassesCacheAndParent<K, T, E>(levels: seq<Level<K, T, E>>, key: K, opts: Options)
    requires |levels| > 0 && Has(opts, RoInstanceItem)
    ensures GetItem(levels, key, opts).levels == levels
    ensures GetItem(levels, key, opts).result ==
            match ResolveItem(levels[0].tables, key)
            case Err(e) => Err(e)
            case Ok(Some(item)) => Ok(item)
            case Ok(None) => Err(NotFound(key))
  {
    assert [levels[0]] + levels[1..] == levels;
  }

  /**
   * With RoDontResolve (and not RoInstanceItem) no resolver runs: the
   * result is the first cached item along the chain, or not-found, whatever
   * the resolvers hold, and no cache changes.
   */
  lemma {:induction false} DontResolveIsCacheOnly<K, T, E>(levels: seq<Level<K, T, E>>, key: K, opts: Options)
    requires |levels| > 0 && Has(opts, RoDontResolve) && !Has(opts, RoInstanceItem)
    ensures GetItem(levels, key, opts).levels == levels
    ensures GetItem(levels, key, opts).result ==
            match FirstCached(levels, key)
            case Some(item) => Ok(item)
            case None => Err(NotFound(key))
    decreases |levels|
  {
    assert [levels[0]] + levels[1..] == levels;
    if key !in levels[0].items && |levels| > 1 {
      DontResolveIsCacheOnly(levels[1..], key, opts);
    }
  }

  /** Consequently, under RoDontResolve two chains with the same caches answer alike. */
  lemma DontResolveIgnoresResolvers<K, T, E>(a: seq<Level<K, T, E>>, b: seq<Level<K, T, E>>, key: K, opts: Options)
    requires |a| > 0 && SameCaches(a, b) && Has(opts, RoDontResolve) && !Has(opts, RoInstanceItem)
    ensures GetItem(a, key, opts).result == GetItem(b, key, opts).result
  {
    DontResolveIsCacheOnly(a, key, opts);
    DontResolveIsCacheOnly(b, key, opts);
    FirstCachedSameCaches(a, b, key);
  }

  lemma {:induction false} FirstCachedSameCaches<K, T, E>(a: seq<Level<K, T, E>>, b: seq<Level<K, T, E>>, key: K)
    requires SameCaches(a, b)
    ensures FirstCached(a, key) == FirstCached(b, key)
    decreases |a|
  {
    if a != [] {
      assert a[0].items == b[0].items;
      assert SameCaches(a[1..], b[1..]) by {
        forall i | 0 <= i < |a| - 1 ensures a[1..][i].items == b[1..][i].items {
          assert a[1..][i] == a[i + 1] && b[1..][i] == b[i + 1];
        }
      }
      FirstCachedSameCaches(a[1..], b[1..], key);
    }
  }

  /**
   * Asking again with the same options gives the same answer and changes
   * nothing more: in particular, after a successful default lookup the item
   * is cached where it was resolved and a later lookup returns that item.
   */
  lemma {:induction false} LookupIsStable<K, T, E>(levels: seq<Level<K, T, E>>, key: K, opts: Options)
    requires |levels| > 0
    ensures GetItem(GetItem(levels, key, opts).levels, key, opts) == GetItem(levels, key, opts)
    decreases |levels|
  {
    var o := GetItem(levels, key, opts);
    assert [levels[0]] + levels[1..] == levels;
    if Has(opts, RoInstanceItem) {
      InstanceItemBypassesCacheAndParent(levels, key, opts);
    } else if key in levels[0].items {
      CacheHit(levels, key, opts);
    } else {
      var (local, cache) := LocalPhase(levels[0], key, opts);
      match local
      case Err(e) =>
      case Ok(Some(item)) =>
        CacheHit(o.levels, key, opts);
      case Ok(None) =>
        if |levels| > 1 {
          var up := GetItem(levels[1..], key, opts);
          LookupIsStable(levels[1..], key, opts);
          assert o.levels == [levels[0]] + up.levels;
          assert o.levels[1..] == up.levels;
        }
    }
  }

  /** A key that no level caches and no level's resolver maps is not found, and nothing changes. */
  lemma {:induction false} NotFoundWhenNowhere<K, T, E>(levels: seq<Level<K, T, E>>, key: K, opts: Options)
    requires |levels| > 0
    requires forall i :: 0 <= i < |levels| ==> key !in levels[i].items && key !in levels[i].tables.mappings
    ensures GetItem(levels, key, opts) == Outcome(Err(NotFound(key)), levels)
    decreases |levels|
  {
    assert [levels[0]] + levels[1..] == levels;
    if |levels| > 1 && !Has(opts, RoInstanceItem) {
      assert forall i :: 0 <= i < |levels| - 1 ==> levels[1..][i] == levels[i + 1];
      NotFoundWhenNowhere(levels[1..], key, opts);
    }
  }

  /** RoUseAOItem is never tested: adding it to the options changes neither result nor caches. */
  lemma {:induction false} UseAOItemIsIgnored<K, T, E>(levels: seq<Level<K, T, E>>, key: K, opts: Options)
    requires |levels| > 0
    ensures GetItem(levels, key, opts | RoUseAOItem) == GetItem(levels, key, opts)
    decreases |levels|
  {
    OtherFlagsDoNotInterfere(opts);
    if |levels| > 1 {
      UseAOItemIsIgnored(levels[1..], key, opts);
    }
  }

  /**
   * The parent fallback: a registry that neither caches nor maps the key,
   * below a parent that caches it, returns the parent's item on a default
   * lookup, and caches it nowhere new.
   */
  lemma ParentFallback<K, T, E>(levels: seq<Level<K, T, E>>, key: K)
    requires |levels| > 1
    requires key !in levels[0].items && key !in levels[0].tables.mappings
    requires key in levels[1].items
    ensures GetItem(levels, key, RoNone) == Outcome(Ok(levels[1].items[key]), levels)
  {
    NoneHasNoFlag(RoInstanceItem);
    NoneHasNoFlag(RoDontResolve);
    CacheHit(levels[1..], key, RoNone);
    assert [levels[0]] + levels[1..] == levels;
  }
}
