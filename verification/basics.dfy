/** Small shared datatypes used by both quiz scripts. */
module Basics {

  /** Python's `None`-or-value returns (`choose_word`, the `ValueError` of `random.sample`). */
  datatype Option<T> = None | Some(value: T)

  function Min(a: int, b: int): (m: int)
    ensures m <= a && m <= b
    ensures m == a || m == b
  {
    if a <= b then a else b
  }
}
