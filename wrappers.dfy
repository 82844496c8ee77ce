/** An optional value: a JavaScript `null`/`undefined` or a missing key on
    one side, a present value on the other. */
module Wrappers {

  datatype Option<+T> = None | Some(value: T)

  /** `o ?? d`. */
  function OrElse<T>(o: Option<T>, d: T): (r: T)
    ensures o.Some? ==> r == o.value
    ensures o.None? ==> r == d
  {
    if o.Some? then o.value else d
  }
}
