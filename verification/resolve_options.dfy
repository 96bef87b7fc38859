/**
 * The lookup flags. The source declares them as an integer type whose
 * constants are single bits; the lookup tests them with `&`. A 64-bit
 * vector gives `&` and `|` exactly their two's-complement meaning.
 */
module ResolveOptions {

  type Options = bv64

  /** No flag set: resolve normally and share the result through the cache. */
  const RoNone: Options := 0
  /** Look only in the caches; never run a creator. */
  const RoDontResolve: Options := 1 << 0
  /** Create an item for this caller alone: bypass the cache and the parent. */
  const RoInstanceItem: Options := 1 << 1
  /** Declared by the source, but never tested by the lookup. */
  const RoUseAOItem: Options := 1 << 2

  /** The test the lookup writes as `(options & flag) != 0`. */
  predicate Has(options: Options, flag: Options) {
    options & flag != 0
  }

  lemma NoneHasNoFlag(flag: Options)
    ensures !Has(RoNone, flag)
  {
  }

  lemma FlagsAreDistinctSingleBits()
    ensures RoDontResolve == 1 && RoInstanceItem == 2 && RoUseAOItem == 4
    ensures RoDontResolve & RoInstanceItem == 0
    ensures RoDontResolve & RoUseAOItem == 0
    ensures RoInstanceItem & RoUseAOItem == 0
  {
  }

  /** Each flag test sees its own bit only: or-ing in a different flag changes nothing. */
  lemma OtherFlagsDoNotInterfere(options: Options)
    ensures Has(options | RoUseAOItem, RoDontResolve) == Has(options, RoDontResolve)
    ensures Has(options | RoUseAOItem, RoInstanceItem) == Has(options, RoInstanceItem)
    ensures Has(options | RoInstanceItem, RoDontResolve) == Has(options, RoDontResolve)
    ensures Has(options | RoDontResolve, RoInstanceItem) == Has(options, RoInstanceItem)
    ensures Has(options | RoDontResolve, RoDontResolve) && Has(options | RoInstanceItem, RoInstanceItem)
  {
  }
}
