/** What every module shares: a value that may be absent, points in time, counting, concatenation. */
module Wrappers {
  type Time = real

  datatype Option<+T> = None | Some(value: T) {
    function ToSeq(): seq<T> {
      match this
      case None => []
      case Some(v) => [v]
    }
  }

  function Min(a: int, b: int): int
  {
    if a < b then a else b
  }

  /** How often `x` occurs in `s`. */
  function Count<T(==)>(s: seq<T>, x: T): nat
  {
    if s == [] then 0 else Count(s[..|s| - 1], x) + if s[|s| - 1] == x then 1 else 0
  }

  lemma Associative<T>(x: seq<T>, y: seq<T>, z: seq<T>)
    ensures (x + y) + z == x + (y + z)
  {
  }
}
