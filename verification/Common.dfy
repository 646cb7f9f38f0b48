/**
 Vocabulary shared by every component of the model: bytes, optional values,
 flattening of chunk lists and Go's byte-wise string order.
 */
module Common {

  type byte = x: int | 0 <= x < 256
  type Bytes = seq<byte>

  datatype Option<+T> = None | Some(value: T)

  /** No element twice. */
  predicate Distinct<T(==)>(s: seq<T>) {
    forall i, j :: 0 <= i < j < |s| ==> s[i] != s[j]
  }

  /** The byte stream made of a list of chunks. */
  function Flatten(chunks: seq<Bytes>): Bytes {
    if chunks == [] then [] else Flatten(chunks[..|chunks| - 1]) + chunks[|chunks| - 1]
  }

  lemma {:induction false} FlattenPush(chunks: seq<Bytes>, c: Bytes)
    ensures Flatten(chunks + [c]) == Flatten(chunks) + c
  {
    assert (chunks + [c])[..|chunks|] == chunks;
  }

  lemma {:induction false} FlattenOne(c: Bytes)
    ensures Flatten([c]) == c
  {
    FlattenPush([], c);
    assert [] + [c] == [c];
  }

  /** A prefix of the chunk list is a prefix of the byte stream. */
  lemma {:induction false} FlattenPrefix(a: seq<Bytes>, b: seq<Bytes>)
    requires a <= b
    ensures Flatten(a) <= Flatten(b)
    decreases |b|
  {
    if a == b {
    } else {
      FlattenPrefix(a, b[..|b| - 1]);
    }
  }
}
