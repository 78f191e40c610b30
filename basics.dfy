/** Small vocabulary shared by every module of the model: optional values,
    results with an error type, bytes, substring search and truncation. */
module Basics {

  datatype Option<+T> = None | Some(value: T)

  datatype Result<+T, +E> = Ok(value: T) | Err(error: E)

  /** An HTTP status, or None when the request failed in transport
      (DNS, connect, timeout). */
  type Status = Option<nat>

  type Byte = x: int | 0 <= x < 256

  /** A reply from a remote HTTP service: a transport failure, or a status
      with a body that is None when it could not be read or decoded. */
  datatype Reply<+B> = TransportFailure | Reply(status: nat, body: Option<B>)

  /** `sub` occurs in `s` starting at offset `i`. */
  predicate OccursAt(s: string, sub: string, i: nat)
  {
    i + |sub| <= |s| && s[i..i + |sub|] == sub
  }

  /** `s.contains(sub)` on Rust strings: `sub` occurs in `s` at some offset. */
  predicate Contains(s: string, sub: string)
  {
    exists i: nat :: i <= |s| && OccursAt(s, sub, i)
  }

  /** `v.into_iter().take(n)`: the first `n` elements, or all of them. */
  function Cap<T>(s: seq<T>, n: nat): (r: seq<T>)
    ensures |r| <= n && |r| <= |s|
    ensures |s| <= n ==> r == s
    ensures |s| > n ==> |r| == n
    ensures forall i :: 0 <= i < |r| ==> r[i] == s[i]
  {
    if |s| <= n then s else s[..n]
  }
}
