/** Optional values and the outcomes of a service call. */
module Wrappers {

  datatype Option<+T> = None | Some(value: T)

  /** The two HTTP exceptions the modelled services throw on purpose. */
  datatype Error = NotFound | BadRequest

  datatype Result<+T> = Ok(value: T) | Err(error: Error)

  function Min(a: int, b: int): (m: int)
    ensures m <= a && m <= b && (m == a || m == b)
  {
    if a < b then a else b
  }

  function Max(a: int, b: int): (m: int)
    ensures a <= m && b <= m && (m == a || m == b)
  {
    if a < b then b else a
  }

  /** A run without its last element. */
  function Front<T>(run: seq<T>): seq<T>
    requires run != []
  {
    run[..|run| - 1]
  }

  function Last<T>(run: seq<T>): T
    requires run != []
  {
    run[|run| - 1]
  }

  function Repeat<T>(x: T, n: nat): (s: seq<T>)
    ensures |s| == n && forall i :: 0 <= i < n ==> s[i] == x
  {
    seq(n, _ => x)
  }
}
