/**
 * The four error kinds a registry raises. Message templates and status
 * codes are not modelled; each error carries the key it concerns and,
 * for a failed resolution, the underlying cause.
 */
module Errors {

  datatype DiscoveryError<K, E> =
    | NotFound(key: K)              // no cached item, no mapping, no parent that has it
    | NotResolved(key: K, cause: E) // a creator or a decorator failed
    | NotItemType(key: K)           // AddItem with an item not convertible to the key
    | Circular(key: K)              // the key is already on the active-resolver list when the resolve lock is taken
}
