/** Shared value types: optional values, results carrying the adapter's error kinds, bytes. */
module Prelude {

  datatype Option<+T> = None | Some(value: T)

  /** The Object error taxonomy, as far as control flow in the adapter depends on it. */
  datatype Error =
    | Unavailable
    | RateLimited
    | NotFound
    | ConditionalConflict
    | ImmutableConflict
    | InvalidRequest
    | IncompleteUpload
    | RangeNotSatisfiable
    | DigestMismatch
    | RetentionDenied
    | MultipartInvalid
    | OtherFailure

  datatype Result<+T> = Ok(value: T) | Err(error: Error)

  newtype Byte = x: int | 0 <= x < 256

  type Bytes = seq<Byte>

  /** All chunks of a stream, in order. */
  function Concat(chunks: seq<Bytes>): Bytes {
    if chunks == [] then [] else Concat(chunks[..|chunks| - 1]) + chunks[|chunks| - 1]
  }

  lemma ConcatTake(chunks: seq<Bytes>, i: nat)
    requires i < |chunks|
    ensures Concat(chunks[..i + 1]) == Concat(chunks[..i]) + chunks[i]
  {
    assert chunks[..i + 1][..i] == chunks[..i];
  }

  lemma {:induction false} ConcatSplit(chunks: seq<Bytes>, more: seq<Bytes>)
    ensures Concat(chunks + more) == Concat(chunks) + Concat(more)
  {
    if more == [] {
      assert chunks + more == chunks;
    } else {
      var front := more[..|more| - 1];
      assert (chunks + more)[..|chunks + more| - 1] == chunks + front;
      ConcatSplit(chunks, front);
    }
  }

  lemma {:induction false} ConcatLonger(chunks: seq<Bytes>, i: nat)
    requires i <= |chunks|
    ensures |Concat(chunks[..i])| <= |Concat(chunks)|
  {
    assert chunks == chunks[..i] + chunks[i..];
    ConcatSplit(chunks[..i], chunks[i..]);
  }
}
