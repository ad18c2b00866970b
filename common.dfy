/** Small values shared by every part of the proctoring model. */
module Common {

  /** A value that may be absent: JavaScript's `undefined`/`null` beside a present value. */
  datatype Option<+T> = None | Some(value: T)

  /** JavaScript truthiness of an optional millisecond timestamp:
      both `undefined` and the number `0` are falsy. */
  predicate Truthy(t: Option<int>)
  {
    t.Some? && t.value != 0
  }

  /** `Math.max` on integers. */
  function Max(a: int, b: int): (r: int)
    ensures r >= a && r >= b && (r == a || r == b)
  {
    if a >= b then a else b
  }
}
