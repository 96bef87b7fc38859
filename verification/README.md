# discovery — a Dafny model of the resolution engine

This project models the core of `gotomgo/discovery`, a type-keyed service
registry for Go programs. It covers three parts:

- **`ItemDiscovery`**: a registry that caches one item per key. A registry
  may fall back on a parent ("base") registry. It resolves missing items
  through its resolver, steered by the `ResolveOptions` flags
  (`RoNone`, `RoDontResolve`, `RoInstanceItem`, `RoUseAOItem`).
- **`BaseItemResolver`**: holds the resolver's two tables.
  - Primary mappings: one creator per key; a later registration replaces
    an earlier one.
  - "AO" (decorator) mappings: a sequence of wrappers per key; a
    registration appends to it.
  - To resolve a key, it runs the key's creator, then applies the key's
    decorators from the last registered to the first.
- **`ResolveOptions`**: the bit flags that steer a lookup. The comment on
  `RoUseAOItem` (resolveOptions.go:14-15) says it decides whether a resolved
  item is wrapped, but the resolver always wraps (resolver_impl.go:78) and
  the lookup never tests the flag; the model follows the code
  (`Lookup.UseAOItemIsIgnored`).

Keys stand for the source's `reflect.Type`. Items are values of a type
parameter `T`, and a nil item is `Option.None`. A creator's or decorator's
error is a value of a type parameter `E`. The registry's errors are the four
cases of `Errors.DiscoveryError`:

| error | raised when |
|---|---|
| `NotFound` | the key is not found |
| `NotResolved` | a creator or decorator failed; it wraps the cause |
| `NotItemType` | `AddItem` is given an item of the wrong type |
| `Circular` | the key is already on the active-resolver list when the resolve lock is taken (never, in a sequential run) |

The model has two layers:

- **Pure layer.** `Resolution` models the tables and what resolving against
  them yields. `Lookup` models a whole registry chain as a sequence of
  levels, one per registry (its cache and its resolver's tables), and
  states the options-driven lookup as a function of that chain. All lookup
  properties are lemmas about these functions: cache hit, miss, instance
  items, cache-only lookups, parent fallback, idempotence, and the
  inertness of `RoUseAOItem`.
- **Imperative layer.** The classes `ResolverImpl.BaseItemResolver` and
  `DiscoveryImpl.ItemDiscovery` keep the source's fields and update them in
  place.
  - Every resolver method is proved to compute the matching `Resolution`
    function.
  - `ItemDiscovery.GetItemWithOptions` is proved to return the result of
    `Lookup.GetItem` on the chain as it was, and to leave the chain's
    caches exactly as that function says.

The active-resolver list is modelled with its loops (`IsResolving`,
`RemoveActiveResolver`). Taking the resolve lock pushes the key and then,
through the deferred removal inside the same function, removes it again
before the lock call returns. So the list is empty again before the
creator runs. `AcquireResolveLock` states this: the list after the call
equals the list before it. The circular-dependency panic therefore fires
only for a key that is already on the list when the lock is taken. Between
operations the list is always empty (`ItemDiscovery.Valid`), so in this
sequential model the panic never fires from `ResolveItem`. The model does
not claim that cycles are detected.

## Model

| member | source | states |
|---|---|---|
| ResolveOptions.NoneHasNoFlag | resolveOptions.go:8 | `RoNone` tests negative for every flag |
| ResolveOptions.FlagsAreDistinctSingleBits | resolveOptions.go:6-17 | the flags are the single bits 1, 2 and 4, pairwise disjoint |
| ResolveOptions.OtherFlagsDoNotInterfere | resolveOptions.go:8-16 | or-ing one flag into the options never changes the test of another flag, and makes its own test succeed |
| Resolution.Wrap | resolver_impl.go:131-151 | every error of the decorator chain is a not-resolved error for the key being decorated |
| Resolution.WrapCallOrder | resolver_impl.go:138-147 | the decorators are called from the last registered towards the first; the first call gets the item, each later call gets the previous call's output, and there are at most as many calls as decorators |
| Resolution.WrapRunsAllOnSuccess | resolver_impl.go:136-150 | a successful chain called every decorator, and the result is what the first-registered one returned; with no decorators the item comes back unchanged |
| Resolution.WrapStopsAtFirstFailure | resolver_impl.go:141-146 | a failing chain stopped at the decorator that failed, so no earlier-registered decorator was called, and the error carries that decorator's cause |
| Resolution.WrapAppend | resolver_impl.go:139-147 | the chain of `front + back` runs `back`'s chain, then `front`'s on its output, and stops at the first error |
| Resolution.FirstRegisteredIsOutermost | resolver_impl.go:139-141 | the first-registered decorator wraps the output of all later ones |
| Resolution.ResolveItemCases | resolver_impl.go:66-79 | no mapping gives nil with no error; a failing creator gives a not-resolved error with its cause, whatever decorators are registered; otherwise the created item is passed through the key's decorators |
| Resolution.ResolveItemIsResolveMapping | resolver_impl.go:66-89 | in a table where every mapping is filed under its own key, resolving a key equals resolving the mapping filed under it |
| Resolution.AddMappingsKeepsOthers | resolver_impl.go:42-49 | adding mappings leaves every key they do not name as it was, present or absent |
| Resolution.AddMappingsLastWins | resolver_impl.go:42-49 | a key named by several added mappings ends with the last of them |
| Resolution.AddAOMappingsAppends | resolver_impl.go:121-128 | adding decorators appends each key's new ones to its earlier ones, in registration order; a key none of them serves keeps its presence and its sequence |
| Resolution.RegistrationKeepsWellKeyed | resolver_impl.go:29-128 | registering mappings and decorators keeps every entry filed under its own key |
| ResolverImpl.BaseItemResolver.constructor | resolver_impl.go:21-26 | a new resolver has both tables empty |
| ResolverImpl.BaseItemResolver.AddMapping | resolver_impl.go:34-39 | the key's creator is replaced; no other key and no decorator changes |
| ResolverImpl.BaseItemResolver.AddMappings | resolver_impl.go:42-49 | the loop leaves the creator table equal to `Resolution.AddMappings` of the old table; decorators unchanged |
| ResolverImpl.BaseItemResolver.AddMappingsVar | resolver_impl.go:52-54 | the same as `AddMappings` |
| ResolverImpl.BaseItemResolver.GetMapping | resolver_impl.go:57-63 | finds a mapping exactly when the key has one, and returns it |
| ResolverImpl.BaseItemResolver.ResolveItem | resolver_impl.go:66-79 | returns `Resolution.ResolveItem` of the current tables |
| ResolverImpl.BaseItemResolver.ResolveMapping | resolver_impl.go:81-89 | returns `Resolution.ResolveMapping` of the current tables and the given mapping |
| ResolverImpl.BaseItemResolver.GetAOMappings | resolver_impl.go:92-103 | `ok` holds exactly when the key has an entry; the sequence is the key's decorators (empty when absent) |
| ResolverImpl.BaseItemResolver.AddAOMapping | resolver_impl.go:106-118 | appends the decorator to its key's sequence; nothing else changes |
| ResolverImpl.BaseItemResolver.AddAOMappings | resolver_impl.go:121-128 | the loop leaves the decorator table equal to `Resolution.AddAOMappings` of the old table; creators unchanged |
| ResolverImpl.BaseItemResolver.WrapAO | resolver_impl.go:131-151 | the downward loop returns `Resolution.Wrap` of the key's registered decorators, with the error built from the failing mapping's key |
| Lookup.GetItem | discovery_impl.go:193-228 | a lookup keeps the chain's length and never changes any resolver table |
| Lookup.CacheHit | discovery_impl.go:199-203 | without `RoInstanceItem`, a cached item is returned and the whole chain is left as it was |
| Lookup.MissResolves | discovery_impl.go:199-225 | on a miss that may resolve: a non-nil item is returned and cached here; a resolve error is returned with no cache written and no parent asked; nil asks the parent with the same options (nothing is cached here), or gives not-found without a parent |
| Lookup.InstanceItemBypassesCacheAndParent | discovery_impl.go:197-198 | with `RoInstanceItem` no cache is read or written and no parent is asked; the result is this registry's resolution, and nil is not-found |
| Lookup.DontResolveIsCacheOnly | discovery_impl.go:199-225 | with `RoDontResolve` no resolver runs: the result is the first cached item along the chain, or not-found, and no cache changes |
| Lookup.DontResolveIgnoresResolvers | discovery_impl.go:204 | under `RoDontResolve`, two chains with the same caches give the same answer whatever their resolvers hold |
| Lookup.LookupIsStable | discovery_impl.go:193-228 | with deterministic creators and decorators, asking again with the same options gives the same result and changes nothing more; an instance lookup or a failed resolution is run again and repeats its outcome |
| Lookup.NotFoundWhenNowhere | discovery_impl.go:223-225 | a key that no registry caches or maps is not found, and the chain is unchanged |
| Lookup.UseAOItemIsIgnored | resolveOptions.go:14-16 | adding `RoUseAOItem` to the options changes neither the result nor any cache |
| Lookup.ParentFallback | discovery_impl.go:215-221 | a registry that neither caches nor maps the key returns its parent's cached item and caches it nowhere new |
| DiscoveryImpl.RemoveFirstAt | discovery_impl.go:269-276 | removal deletes exactly the first occurrence of the key and keeps the other entries in order |
| DiscoveryImpl.RemoveFirstAbsent | discovery_impl.go:269-276 | removing an absent key leaves the list unchanged |
| DiscoveryImpl.RemoveFirstMultiset | discovery_impl.go:269-276 | removal takes out one copy of the key, if there is one, and nothing else |
| DiscoveryImpl.RemoveFirstUndoesPush | discovery_impl.go:295-296 | pushing a key that is not on the list and then removing it restores the list |
| DiscoveryImpl.ItemDiscovery.constructor | discovery_impl.go:73-85 | an empty cache and no parent; the given resolver, or a fresh empty one when it is nil |
| DiscoveryImpl.ItemDiscovery.WithBase | discovery_impl.go:95-108 | the same, with the given parent (none when nil) |
| DiscoveryImpl.ItemDiscovery.AddItem | discovery_impl.go:115-125 | a nil item panics (it has no dynamic type to test) and leaves the cache alone; an item convertible to the key overwrites the entry; otherwise a not-item-type error and the cache is unchanged |
| DiscoveryImpl.ItemDiscovery.RemoveItem | discovery_impl.go:128-136 | the key's entry is gone, every other entry stays, and an absent key is a no-op |
| DiscoveryImpl.ItemDiscovery.HasItem | discovery_impl.go:146-149 | true exactly when the key is in this registry's own cache |
| DiscoveryImpl.ItemDiscovery.GetItem | discovery_impl.go:151-153 | the lookup with `RoNone`, equal to `Lookup.GetItem` on the chain |
| DiscoveryImpl.ItemDiscovery.GetRequiredItem | discovery_impl.go:155-163 | the lookup with `RoNone`; it panics exactly when that lookup fails |
| DiscoveryImpl.ItemDiscovery.GetItemWithOptions | discovery_impl.go:193-228 | returns `Lookup.GetItem` of the chain as it was, and the chain afterwards is that function's new chain; validity is kept |
| DiscoveryImpl.ItemDiscovery.GetRequiredItemWithOptions | discovery_impl.go:169-171 | the same lookup as `GetItemWithOptions`; it returns errors and never panics |
| DiscoveryImpl.ItemDiscovery.WrapAO | discovery_impl.go:176-178 | decorates an outside item with the key's decorators, as `Resolution.Wrap` does |
| DiscoveryImpl.ItemDiscovery.GetTypedItem | discovery_impl.go:180-185 | finds an item exactly when the key is cached, and returns the cached item |
| DiscoveryImpl.ItemDiscovery.SetTypedItem | discovery_impl.go:187-191 | the key's entry becomes the item; no other entry changes |
| DiscoveryImpl.ItemDiscovery.LocalLookup | discovery_impl.go:197-209 | this registry's own phase, equal to `Lookup.LocalPhase` of its cache and tables, in both the result and the cache |
| DiscoveryImpl.ItemDiscovery.AskParent | discovery_impl.go:215-221 | the parent's lookup with the same options; this registry's cache is not touched |
| DiscoveryImpl.ItemDiscovery.ResolveItem | discovery_impl.go:233-257 | shared mode: a cached item is returned unchanged; otherwise the resolver's result, with a non-nil item written back; instance mode never reads or writes the cache |
| DiscoveryImpl.ItemDiscovery.ResolveLocked | discovery_impl.go:244-256 | the same result and cache as `ResolveItem`, once the resolve lock is held |
| DiscoveryImpl.ItemDiscovery.IsResolving | discovery_impl.go:259-267 | the loop answers true exactly when the key is on the active list |
| DiscoveryImpl.ItemDiscovery.RemoveActiveResolver | discovery_impl.go:269-276 | the loop removes exactly the first occurrence of the key (`RemoveFirst`) |
| DiscoveryImpl.ItemDiscovery.AcquireResolveLock | discovery_impl.go:278-305 | a key already on the list is a circular-dependency panic; otherwise the key is pushed and removed again, so the list afterwards equals the list before |

## Left out

- Concurrency is not modelled. That covers the read/write lock of the cache, the resolver's mutex, the bookkeeping lock, the per-key mutexes (`resolveLocks`) and `releaseResolveLock` (discovery_impl.go:307-320). Every operation runs to completion alone.
- Cycle detection is not claimed. The marker is cleared before the creator runs (discovery_impl.go:295-296), so the circular-dependency panic is unreachable in a sequential run. A real re-entrant resolution would block on the non-reentrant per-key mutex, and that is not modelled either. The error catalogue still has a circular-dependency error (errors.go:46-49); the model follows the code and only shows when that error would be raised.
- Creators and decorators do not receive the registry, so they cannot resolve other keys. Nested resolutions and everything that depends on them are out of scope.
- Lookup.LookupIsStable: creators and decorators are pure functions in the model, so a repeated resolution repeats its outcome. A Go closure may hold state (fail until configured, or build a fresh object each call), and then a repeated instance lookup or a retried failed resolution can differ.
- ResolverImpl.BaseItemResolver.GetAOMappings: the source returns the resolver's own slice (resolver_impl.go:101), so a caller that writes an element of it changes the registered decorators. The model returns a value sequence and does not capture that aliasing.
- `AddItem`'s reflection test (`reflect.TypeOf(item).ConvertibleTo(itemType)`) is a predicate passed in by the caller.
- Object identity is not modelled; items are values. In particular, the promise that `RoInstanceItem` yields a distinct instance is not modelled.
- DiscoveryImpl.ItemDiscovery.ResolveItem: the branch for a nil resolver (discovery_impl.go:234-236) is not modelled, because both constructors always install a resolver.
- DiscoveryImpl.ItemDiscovery.WithBase: the parent must itself be an `ItemDiscovery`. The source accepts any `Discovery`.
- DiscoveryImpl.ItemDiscovery.WrapAO: the source's type assertion to `AOItemResolver` always succeeds for `BaseItemResolver`, the only resolver modelled. Custom resolvers are not modelled.
- DiscoveryImpl.ItemDiscovery.GetRequiredItem: the panic is a `panicked` out-parameter, returned beside the result.
- `GetResolver` (discovery_impl.go:142-144) is a field read. It is the `resolver` field of the class.
- `NewDiscovery` and `NewDiscoveryWithBase` only retype the result of the two constructors.
- `typeListeners` and `listenerLock` are never used by the core.
- Error texts and identifiers are reduced to the four error cases: message templates, type names and error codes are not modelled. The decorator error's key is the failing mapping's key, which equals the decorated key because registration files every decorator under its own key.
- `ResolveOptions` is the source's `int`; it is modelled as a 64-bit vector, since only bit tests are applied to it.
- helpers.go and setup.go (the process-wide default registry) are not part of this model.
