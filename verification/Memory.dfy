/** Bytes in memory. */
module Memory {

  newtype Byte = b: int | 0 <= b < 256
  type Bytes = seq<Byte>

  /** `s` with the bytes from `at` on replaced. */
  function Patch(s: Bytes, at: nat, b: Bytes): (r: Bytes)
    requires at + |b| <= |s|
    ensures |r| == |s|
  {
    s[..at] + b + s[at + |b|..]
  }

  lemma PatchNothing(s: Bytes, at: nat)
    requires at <= |s|
    ensures Patch(s, at, []) == s
  {
  }

  /** A C string: it ends at the first NUL. */
  predicate NulFree(s: Bytes) {
    forall i :: 0 <= i < |s| ==> s[i] != 0
  }

  function Repeat<T>(v: T, n: nat): (s: seq<T>)
    ensures |s| == n && forall i :: 0 <= i < n ==> s[i] == v
  {
    seq(n, _ => v)
  }
}
