/**
 * The resolver's mapping tables as values, and what resolving a key
 * against them yields. The class in resolver_impl.dfy holds these tables
 * as fields and is proved to compute the functions below.
 *
 * A creator and a decorator are total functions returning a Result; they
 * do not receive the registry, so they cannot resolve other keys.
 */
module Resolution {
  import opened Wrappers
  import opened Errors

  /** A primary mapping: the key it serves and the creator that builds its item. */
  datatype Mapping<K, T, E> = Mapping(key: K, creator: () -> Result<Option<T>, E>)

  /** A decorator ("AO") mapping: the key it serves and the wrapper it applies. */
  datatype AOMapping<K, !T, E> = AOMapping(key: K, decorator: Option<T> -> Result<Option<T>, E>)

  /** Both tables of a resolver: at most one creator per key, a sequence of decorators per key. */
  datatype Table<K, !T, E> = Table(mappings: map<K, Mapping<K, T, E>>, aoMappings: map<K, seq<AOMapping<K, T, E>>>)

  /** Every mapping is filed under its own key. */
  ghost predicate WellKeyed<K, T, E>(t: Table<K, T, E>) {
    && (forall k :: k in t.mappings ==> t.mappings[k].key == k)
    && (forall k :: k in t.aoMappings ==> forall i :: 0 <= i < |t.aoMappings[k]| ==> t.aoMappings[k][i].key == k)
  }

  /** The decorators registered for `key`, in registration order (none when the key is absent). */
  function Registered<K(==), T, E>(ao: map<K, seq<AOMapping<K, T, E>>>, key: K): seq<AOMapping<K, T, E>> {
    if key in ao then ao[key] else []
  }

  // ---------------------------------------------------------------------
  // Decoration
  // ---------------------------------------------------------------------

  /**
   * The decorator chain: the last-registered decorator is applied to the
   * item first, each output is fed to the next earlier one, and the first
   * failure aborts the chain with a not-resolved error for `key`.
   */
  function Wrap<K(==), T, E>(key: K, ds: seq<AOMapping<K, T, E>>, item: Option<T>): (r: Result<Option<T>, DiscoveryError<K, E>>)
    ensures r.Err? ==> r.error.NotResolved? && r.error.key == key
    decreases |ds|
  {
    if ds == [] then Ok(item)
    else match ds[|ds| - 1].decorator(item)
      case Err(e) => Err(NotResolved(key, e))
      case Ok(next) => Wrap(key, ds[..|ds| - 1], next)
  }

  /** The inputs the decorators are called with, in call order. */
  function Inputs<K(==), T, E>(ds: seq<AOMapping<K, T, E>>, item: Option<T>): seq<Option<T>>
    decreases |ds|
  {
    if ds == [] then []
    else [item] + match ds[|ds| - 1].decorator(item)
      case Err(_) => []
      case Ok(next) => Inputs(ds[..|ds| - 1], next)
  }

  /** The i-th call of the chain: decorator |ds|-1-i, fed the i-th input, returned the next input. */
  ghost predicate CallReturnedNext<K, T, E>(ds: seq<AOMapping<K, T, E>>, inputs: seq<Option<T>>, i: int)
    requires 0 <= i < |inputs| - 1 && |inputs| <= |ds|
  {
    ds[|ds| - 1 - i].decorator(inputs[i]) == Ok(inputs[i + 1])
  }

  /**
   * Wrap calls the decorators from the last registered towards the first:
   * the first call gets the item itself and each later call the previous
   * one's output.
   */
  lemma {:induction false} WrapCallOrder<K, T, E>(ds: seq<AOMapping<K, T, E>>, item: Option<T>)
    ensures |Inputs(ds, item)| <= |ds|
    ensures |ds| > 0 ==> |Inputs(ds, item)| > 0 && Inputs(ds, item)[0] == item
    ensures forall i :: 0 <= i < |Inputs(ds, item)| - 1 ==> CallReturnedNext(ds, Inputs(ds, item), i)
    decreases |ds|
  {
    if ds != [] {
      var n := |ds|;
      match ds[n - 1].decorator(item)
      case Err(e) =>
      case Ok(next) =>
        var rest := ds[..n - 1];
        var tail := Inputs(rest, next);
        WrapCallOrder(rest, next);
        var inp := Inputs(ds, item);
        assert inp == [item] + tail;
        forall i | 0 <= i < |inp| - 1
          ensures CallReturnedNext(ds, inp, i)
        {
          if i > 0 {
            FedShift(ds, inp, tail, i);
          }
        }
    }
  }

  /** A call of the chain without its last decorator is a call of the whole chain, one step later. */
  lemma FedShift<K, T, E>(ds: seq<AOMapping<K, T, E>>, inp: seq<Option<T>>, tail: seq<Option<T>>, i: int)
    requires |ds| > 0 && |inp| <= |ds| && |inp| > 0 && |tail| > 0 && inp == [inp[0]] + tail
    requires 0 < i < |inp| - 1 && CallReturnedNext(ds[..|ds| - 1], tail, i - 1)
    ensures CallReturnedNext(ds, inp, i)
  {
    assert inp[i] == tail[i - 1] && inp[i + 1] == tail[i];
    assert ds[|ds| - 1 - i] == ds[..|ds| - 1][|ds| - 1 - 1 - (i - 1)];
  }

  /**
   * How a successful chain ends: every decorator ran, and the
   * first-registered one produced the result.
   */
  lemma {:induction false} WrapRunsAllOnSuccess<K, T, E>(key: K, ds: seq<AOMapping<K, T, E>>, item: Option<T>)
    requires Wrap(key, ds, item).Ok?
    ensures |Inputs(ds, item)| == |ds|
    ensures ds == [] ==> Wrap(key, ds, item) == Ok(item)
    ensures ds != [] ==> ds[0].decorator(Inputs(ds, item)[|ds| - 1]) == Ok(Wrap(key, ds, item).value)
    decreases |ds|
  {
    if ds != [] {
      var n := |ds|;
      match ds[n - 1].decorator(item)
      case Err(e) =>
      case Ok(next) =>
        var rest := ds[..n - 1];
        WrapRunsAllOnSuccess(key, rest, next);
        assert Inputs(ds, item) == [item] + Inputs(rest, next);
        if rest != [] {
          assert ds[0] == rest[0];
        }
    }
  }

  /**
   * How a failing chain ends: it stopped at the decorator that failed, so
   * none registered before it was called, and the error wraps that
   * decorator's cause.
   */
  lemma {:induction false} WrapStopsAtFirstFailure<K, T, E>(key: K, ds: seq<AOMapping<K, T, E>>, item: Option<T>)
    requires Wrap(key, ds, item).Err?
    ensures 0 < |Inputs(ds, item)| <= |ds|
    ensures ds[|ds| - |Inputs(ds, item)|].decorator(Inputs(ds, item)[|Inputs(ds, item)| - 1]) == Err(Wrap(key, ds, item).error.cause)
    decreases |ds|
  {
    var n := |ds|;
    match ds[n - 1].decorator(item)
    case Err(e) =>
    case Ok(next) =>
      var rest := ds[..n - 1];
      var tail := Inputs(rest, next);
      WrapStopsAtFirstFailure(key, rest, next);
      assert Inputs(ds, item) == [item] + tail;
      assert ds[n - |Inputs(ds, item)|] == rest[|rest| - |tail|];
  }

  /**
   * Registering more decorators after `front` puts them inside: the chain of
   * `front + back` first runs `back`'s chain, then `front`'s on its output.
   */
  lemma {:induction false} WrapAppend<K, T, E>(key: K, front: seq<AOMapping<K, T, E>>, back: seq<AOMapping<K, T, E>>, item: Option<T>)
    ensures Wrap(key, front + back, item) ==
            match Wrap(key, back, item)
            case Err(e) => Err(e)
            case Ok(inner) => Wrap(key, front, inner)
    decreases |back|
  {
    if back == [] {
      assert front + back == front;
    } else {
      var all := front + back;
      var n := |back|;
      assert all[|all| - 1] == back[n - 1];
      assert all[..|all| - 1] == front + back[..n - 1];
      match back[n - 1].decorator(item)
      case Err(e) =>
      case Ok(next) =>
        WrapAppend(key, front, back[..n - 1], next);
    }
  }

  /** The first-registered decorator is the outermost: it wraps the result of all the others. */
  lemma FirstRegisteredIsOutermost<K, T, E>(key: K, first: AOMapping<K, T, E>, later: seq<AOMapping<K, T, E>>, item: Option<T>)
    ensures Wrap(key, [first] + later, item) ==
            match Wrap(key, later, item)
            case Err(e) => Err(e)
            case Ok(inner) =>
              match first.decorator(inner)
              case Err(e) => Err(NotResolved(key, e))
              case Ok(outer) => Ok(outer)
  {
    WrapAppend(key, [first], later, item);
    match Wrap(key, later, item)
    case Err(e) =>
    case Ok(inner) =>
      assert [first][..0] == [];
  }

  // ---------------------------------------------------------------------
  // Resolution
  // ---------------------------------------------------------------------

  /** Run a mapping's creator and decorate what it made with the decorators of the mapping's key. */
  function ResolveMapping<K(==), T, E>(t: Table<K, T, E>, m: Mapping<K, T, E>): Result<Option<T>, DiscoveryError<K, E>> {
    match m.creator()
    case Err(e) => Err(NotResolved(m.key, e))
    case Ok(item) => Wrap(m.key, Registered(t.aoMappings, m.key), item)
  }

  /** Look up the creator of `key`; without one the answer is "nothing", which is not an error. */
  function ResolveItem<K(==), T, E>(t: Table<K, T, E>, key: K): Result<Option<T>, DiscoveryError<K, E>> {
    if key !in t.mappings then Ok(None)
    else match t.mappings[key].creator()
      case Err(e) => Err(NotResolved(key, e))
      case Ok(item) => Wrap(key, Registered(t.aoMappings, key), item)
  }

  /**
   * The three outcomes of resolving a key: nothing without a mapping; a
   * not-resolved error when the creator fails, whatever decorators are
   * registered (none of them runs); the decorated item otherwise.
   */
  lemma ResolveItemCases<K, T, E>(t: Table<K, T, E>, key: K)
    ensures key !in t.mappings ==> ResolveItem(t, key) == Ok(None)
    ensures key in t.mappings && t.mappings[key].creator().Err? ==>
              && ResolveItem(t, key) == Err(NotResolved(key, t.mappings[key].creator().error))
              && forall ao :: ResolveItem(Table(t.mappings, ao), key) == ResolveItem(t, key)
    ensures key in t.mappings && t.mappings[key].creator().Ok? ==>
              ResolveItem(t, key) == Wrap(key, Registered(t.aoMappings, key), t.mappings[key].creator().value)
  {
  }

  /** Resolving a key is resolving the mapping filed under it, in a well-keyed table. */
  lemma ResolveItemIsResolveMapping<K, T, E>(t: Table<K, T, E>, key: K)
    requires WellKeyed(t)
    requires key in t.mappings
    ensures ResolveItem(t, key) == ResolveMapping(t, t.mappings[key])
  {
  }

  // ---------------------------------------------------------------------
  // Registration
  // ---------------------------------------------------------------------

  /** The primary table after adding `ms` in order, each replacing what its key had. */
  function AddMappings<K(==), T, E>(m: map<K, Mapping<K, T, E>>, ms: seq<Mapping<K, T, E>>): map<K, Mapping<K, T, E>>
    decreases |ms|
  {
    if ms == [] then m
    else AddMappings(m, ms[..|ms| - 1])[ms[|ms| - 1].key := ms[|ms| - 1]]
  }

  /** A key that none of `ms` names keeps its old entry, or stays absent. */
  lemma {:induction false} AddMappingsKeepsOthers<K, T, E>(m: map<K, Mapping<K, T, E>>, ms: seq<Mapping<K, T, E>>, k: K)
    requires forall i :: 0 <= i < |ms| ==> ms[i].key != k
    ensures k in AddMappings(m, ms) <==> k in m
    ensures k in m ==> AddMappings(m, ms)[k] == m[k]
    decreases |ms|
  {
    if ms != [] {
      var init := ms[..|ms| - 1];
      assert forall i :: 0 <= i < |init| ==> init[i] == ms[i];
      AddMappingsKeepsOthers(m, init, k);
    }
  }

  /** A key named in `ms` ends with the last mapping of `ms` that names it: a later duplicate wins. */
  lemma {:induction false} AddMappingsLastWins<K, T, E>(m: map<K, Mapping<K, T, E>>, ms: seq<Mapping<K, T, E>>, i: nat)
    requires i < |ms|
    requires forall j :: i < j < |ms| ==> ms[j].key != ms[i].key
    ensures ms[i].key in AddMappings(m, ms) && AddMappings(m, ms)[ms[i].key] == ms[i]
    decreases |ms|
  {
    var n := |ms|;
    if i < n - 1 {
      var init := ms[..n - 1];
      assert forall j :: i < j < |init| ==> init[j] == ms[j];
      AddMappingsLastWins(m, init, i);
    }
  }

  /** The decorators of `ms` that serve `key`, in their order in `ms`. */
  function DecoratorsServing<K(==), T, E>(ms: seq<AOMapping<K, T, E>>, key: K): seq<AOMapping<K, T, E>>
    decreases |ms|
  {
    if ms == [] then []
    else DecoratorsServing(ms[..|ms| - 1], key) + (if ms[|ms| - 1].key == key then [ms[|ms| - 1]] else [])
  }

  /** Append one decorator mapping to the sequence of its key. */
  function AddAOMapping<K(==), T, E>(ao: map<K, seq<AOMapping<K, T, E>>>, m: AOMapping<K, T, E>): map<K, seq<AOMapping<K, T, E>>> {
    ao[m.key := Registered(ao, m.key) + [m]]
  }

  /** The decorator table after appending each of `ms` in order. */
  function AddAOMappings<K(==), T, E>(ao: map<K, seq<AOMapping<K, T, E>>>, ms: seq<AOMapping<K, T, E>>): map<K, seq<AOMapping<K, T, E>>>
    decreases |ms|
  {
    if ms == [] then ao
    else AddAOMapping(AddAOMappings(ao, ms[..|ms| - 1]), ms[|ms| - 1])
  }

  /**
   * Registration only appends: every key keeps its earlier decorators and
   * gains those of `ms` that serve it, in registration order; a key that
   * none of them serves is untouched.
   */
  lemma {:induction false} AddAOMappingsAppends<K, T, E>(ao: map<K, seq<AOMapping<K, T, E>>>, ms: seq<AOMapping<K, T, E>>, k: K)
    ensures Registered(AddAOMappings(ao, ms), k) == Registered(ao, k) + DecoratorsServing(ms, k)
    ensures DecoratorsServing(ms, k) == [] ==> (k in AddAOMappings(ao, ms) <==> k in ao)
    decreases |ms|
  {
    if ms != [] {
      var n := |ms|;
      AddAOMappingsAppends(ao, ms[..n - 1], k);
      if ms[n - 1].key == k {
        assert Registered(ao, k) + DecoratorsServing(ms, k) == (Registered(ao, k) + DecoratorsServing(ms[..n - 1], k)) + [ms[n - 1]];
      } else {
        assert DecoratorsServing(ms, k) == DecoratorsServing(ms[..n - 1], k) + [];
      }
    }
  }

  /** Registration keeps every mapping filed under its own key. */
  lemma {:induction false} RegistrationKeepsWellKeyed<K, T, E>(t: Table<K, T, E>, ms: seq<Mapping<K, T, E>>, aos: seq<AOMapping<K, T, E>>)
    requires WellKeyed(t)
    ensures WellKeyed(Table(AddMappings(t.mappings, ms), AddAOMappings(t.aoMappings, aos)))
    decreases |ms| + |aos|
  {
    if ms != [] {
      RegistrationKeepsWellKeyed(t, ms[..|ms| - 1], aos);
    } else if aos != [] {
      var n := |aos|;
      RegistrationKeepsWellKeyed(t, ms, aos[..n - 1]);
      var before: map<K, seq<AOMapping<K, T, E>>> := AddAOMappings(t.aoMappings, aos[..n - 1]);
      var after: map<K, seq<AOMapping<K, T, E>>> := AddAOMappings(t.aoMappings, aos);
      forall k, i | k in after && 0 <= i < |after[k]| ensures after[k][i].key == k {
        if k == aos[n - 1].key {
          assert after[k] == Registered(before, k) + [aos[n - 1]];
        }
      }
    }
  }
}
