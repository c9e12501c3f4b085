/** Small value types shared by the ingestion and classification modules. */
module Common {

  datatype Option<T> = None | Some(value: T)

  /** The outcome of an operation that the source lets raise an exception. */
  datatype Result<T, E> = Success(value: T) | Failure(error: E)

  function Min(a: nat, b: nat): nat {
    if a <= b then a else b
  }

  /** Python's slice `s[:n]` for a non-negative `n`: never fails, keeps at most `n` items. */
  function Take<T>(s: seq<T>, n: nat): (r: seq<T>)
    ensures |r| == Min(|s|, n)
    ensures r == s[..|r|]
  {
    if |s| <= n then s else s[..n]
  }
}
