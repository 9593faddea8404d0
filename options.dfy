/** Optional values, and the JavaScript truthiness test the source applies to optional numeric ids. */
module Options {

  datatype Option<+T> = None | Some(value: T)

  /** `if (id)` on a number-or-undefined: false for a missing id and for 0. */
  predicate Truthy(id: Option<int>)
  {
    id.Some? && id.value != 0
  }
}
