/** Values shared by every component: options, bytes, digests and the hash they come from. */
module Basics {

  datatype Option<+T> = None | Some(value: T)

  newtype byte = x: int | 0 <= x < 256

  type Bytes = seq<byte>

  /** A SHA-256 digest. Nothing below looks inside one. */
  type Digest = seq<byte>

  /** SHA-256 is a parameter: every theorem holds for every function of this type. */
  type Hash = Bytes -> Digest

  /** A PostgreSQL log position. Zero is the value the spool reports when it has no checkpoint. */
  type Lsn = nat

  function Max(a: int, b: int): int {
    if a < b then b else a
  }

  function Min(a: int, b: int): int {
    if a < b then a else b
  }

  ghost predicate Injective<A(!new), B>(f: A -> B) {
    forall x, y :: f(x) == f(y) ==> x == y
  }
}
