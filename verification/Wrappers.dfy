/** Small datatypes shared by the other modules. */
module Wrappers {

  datatype Option<+T> = None | Some(value: T)

  function Or<T>(v: Option<T>, default: T): T {
    if v.Some? then v.value else default
  }

  /** Two values, addressed the way the cache addresses its two vectors: id 0, or anything else. */
  datatype Pair<T> = Pair(zero: T, one: T) {
    function At(id: int): T {
      if id == 0 then zero else one
    }

    function With(id: int, x: T): Pair<T> {
      if id == 0 then this.(zero := x) else this.(one := x)
    }
  }
}
