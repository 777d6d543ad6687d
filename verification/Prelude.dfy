/** Shared vocabulary: optional values, results, the crate's error categories, look-up and finite sets. */
module Prelude {

  datatype Option<+T> = None | Some(value: T)

  /** The error categories of the crate, without their messages. */
  datatype Error =
    | Cancelled
    | Invalid
    | PeerNotFound
    | TransferNotFound
    | InvalidState
    | Io
    | Network
    | Integrity

  datatype Result<+T> = Ok(value: T) | Err(error: Error)

  const U64_MAX: nat := 0xFFFF_FFFF_FFFF_FFFF

  const FILE_STREAM_CONCURRENCY := 4

  function Min(a: nat, b: nat): nat {
    if a <= b then a else b
  }

  /** The first position of a key, as a linear search finds it. */
  function IndexOf<K(==)>(keys: seq<K>, key: K): (r: Option<nat>)
    ensures r.Some? ==> r.value < |keys| && keys[r.value] == key
    ensures r.Some? ==> forall i :: 0 <= i < r.value ==> keys[i] != key
    ensures r.None? ==> key !in keys
  {
    if keys == [] then None
    else if keys[0] == key then Some(0)
    else match IndexOf(keys[1..], key)
         case None => None
         case Some(i) => Some(i + 1)
  }

  /** A subset as large as the whole is the whole. */
  lemma SubsetOfSameSize<T>(a: set<T>, b: set<T>)
    requires a <= b && |a| == |b|
    ensures a == b
  {
    assert b == a + (b - a);
  }

  lemma SubsetSize<T>(a: set<T>, b: set<T>)
    requires a <= b
    ensures |a| <= |b|
  {
    assert b == a + (b - a);
  }
}
