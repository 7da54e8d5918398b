/** Payloads: their chunks and declarations, the byte ranges they are sent in, and streaming them. */
module Payloads {
  import opened Prelude
  import opened Models
  import opened Transport

  /** A registered payload: what opening it yields, chunk by chunk, and what was declared about it. */
  datatype Payload = Payload(chunks: seq<Bytes>, replayable: bool, expectedLength: Option<nat>,
                             expectedDigest: Option<Digest>)
  {
    function Content(): Bytes { Concat(chunks) }

    /** `iter_payload_chunks` never yields an empty chunk. */
    ghost predicate WellChunked() { forall n :: 0 <= n < |chunks| ==> chunks[n] != [] }
  }

  function IdentityOf(e: Env, content: Bytes): Identity { Identity(e.hash(content), |content|) }

  /** The payload respects the size limit and its declarations. */
  predicate Accepted(e: Env, b: Binding, p: Payload) {
    && |p.Content()| <= b.maxObjectBytes
    && (p.expectedLength.Some? ==> p.expectedLength.value == |p.Content()|)
    && (p.expectedDigest.Some? ==> p.expectedDigest.value == e.hash(p.Content()))
  }

  /** An error that says what is wrong with the payload: too long, not as long as declared, or otherwise not the
      declared content. */
  predicate Rejection(e: Env, b: Binding, p: Payload, error: Error) {
    match error
    case InvalidRequest => |p.Content()| > b.maxObjectBytes
    case IncompleteUpload => p.expectedLength.Some? && p.expectedLength.value != |p.Content()|
    case DigestMismatch =>
      && |p.Content()| <= b.maxObjectBytes
      && (p.expectedLength.Some? ==> p.expectedLength.value == |p.Content()|)
      && p.expectedDigest.Some? && p.expectedDigest.value != e.hash(p.Content())
    case _ => false
  }

  lemma RejectionFacts(e: Env, b: Binding, p: Payload, error: Error)
    requires Rejection(e, b, p, error)
    ensures !Accepted(e, b, p) && error != Unavailable && error != RateLimited
  {
  }

  /** `_verify_identity`. */
  function VerifyIdentity(p: Payload, content: Identity): Option<Error> {
    if p.expectedLength.Some? && content.byteLength != p.expectedLength.value then Some(IncompleteUpload)
    else if p.expectedDigest.Some? && content.digest != p.expectedDigest.value then Some(DigestMismatch)
    else None
  }

  /** The half-open byte ranges of consecutive chunks, from offset zero. */
  function ChunkRanges(chunks: seq<Bytes>): seq<(nat, nat)> {
    if chunks == [] then []
    else
      var front := chunks[..|chunks| - 1];
      ChunkRanges(front) + [(|Concat(front)|, |Concat(chunks)|)]
  }

  lemma RangesTake(chunks: seq<Bytes>, i: nat)
    requires i < |chunks|
    ensures ChunkRanges(chunks[..i + 1]) ==
            ChunkRanges(chunks[..i]) + [(|Concat(chunks[..i])|, |Concat(chunks[..i + 1])|)]
  {
    assert chunks[..i + 1][..i] == chunks[..i];
  }

  /** Consecutive chunks tile the content: they start at zero, meet end to start, and end at its length. */
  lemma {:induction false} RangesTile(chunks: seq<Bytes>)
    ensures var r := ChunkRanges(chunks);
            && |r| == |chunks|
            && (r != [] ==> r[0].0 == 0 && r[|r| - 1].1 == |Concat(chunks)|)
            && (forall n :: 0 <= n < |r| ==> r[n].1 == r[n].0 + |chunks[n]|)
            && (forall n :: 0 <= n < |r| ==> r[n].1 <= |Concat(chunks)| && Concat(chunks)[r[n].0..r[n].1] == chunks[n])
            && (forall n :: 0 < n < |r| ==> r[n].0 == r[n - 1].1)
  {
    if chunks != [] {
      var front := chunks[..|chunks| - 1];
      RangesTile(front);
      var r, s, last := ChunkRanges(chunks), ChunkRanges(front), chunks[|chunks| - 1];
      assert r == s + [(|Concat(front)|, |Concat(chunks)|)] && Concat(chunks) == Concat(front) + last;
      hide Concat, ChunkRanges;
      forall n | 0 <= n < |r|
        ensures r[n].1 == r[n].0 + |chunks[n]| && r[n].1 <= |Concat(chunks)|
                && Concat(chunks)[r[n].0..r[n].1] == chunks[n]
      {
        if n < |s| {
          assert r[n] == s[n] && chunks[n] == front[n];
          WithinLonger(Concat(front), last, s[n].0, s[n].1);
        } else {
          assert Concat(chunks)[|Concat(front)|..] == last;
        }
      }
      forall n | 0 < n < |r| ensures r[n].0 == r[n - 1].1 {
        if n < |s| { assert r[n] == s[n] && r[n - 1] == s[n - 1]; } else if s != [] { assert r[n - 1] == s[|s| - 1]; }
      }
      if s != [] { assert r[0] == s[0]; }
    }
  }

  lemma WithinLonger(s: Bytes, more: Bytes, i: nat, j: nat)
    requires i <= j <= |s|
    ensures (s + more)[i..j] == s[i..j]
  {
  }

  function UploadOf(at: Option<UploadLocation>): Option<nat> {
    if at.Some? then Some(at.value.upload) else None
  }

  /** After `i` chunks: what was hashed and measured, and what an open upload holds, is the first `i` chunks. */
  ghost predicate Streaming(b: Binding, p: Payload, i: nat, fed: Bytes, length: nat, at: Option<UploadLocation>,
                            uploads: map<nat, Bytes>, ranges: seq<(nat, nat)>) {
    && i <= |p.chunks| && fed == Concat(p.chunks[..i]) && length == |fed| <= b.maxObjectBytes
    && (p.expectedLength.Some? ==> length <= p.expectedLength.value)
    && (at.Some? ==>
          && at.value.offset == length && at.value.upload in uploads && uploads[at.value.upload] == fed
          && ranges == ChunkRanges(p.chunks[..i]))
  }

  lemma StreamingStarts(b: Binding, p: Payload, at: Option<UploadLocation>, uploads: map<nat, Bytes>)
    requires at.Some? ==> at.value.offset == 0 && at.value.upload in uploads && uploads[at.value.upload] == []
    ensures Streaming(b, p, 0, [], 0, at, uploads, [])
  {
  }

  /** The next chunk is not empty, and a payload that is too long with it is not acceptable. */
  lemma StreamingChunk(e: Env, b: Binding, p: Payload, i: nat, fed: Bytes, length: nat, at: Option<UploadLocation>,
                       uploads: map<nat, Bytes>, ranges: seq<(nat, nat)>)
    requires p.WellChunked() && i < |p.chunks| && Streaming(b, p, i, fed, length, at, uploads, ranges)
    ensures p.chunks[i] != []
    ensures at.Some? ==> at.value.offset == |fed| && at.value.upload in uploads && uploads[at.value.upload] == fed
    ensures length + |p.chunks[i]| > b.maxObjectBytes ==> Rejection(e, b, p, InvalidRequest)
    ensures p.expectedLength.Some? && length + |p.chunks[i]| > p.expectedLength.value ==>
              Rejection(e, b, p, IncompleteUpload)
  {
    ConcatTake(p.chunks, i);
    ConcatLonger(p.chunks, i + 1);
  }

  lemma StreamingStep(b: Binding, p: Payload, i: nat, fed: Bytes, length: nat, at: Option<UploadLocation>,
                      before: map<nat, Bytes>, ranges: seq<(nat, nat)>, next: Option<UploadLocation>,
                      uploads: map<nat, Bytes>, more: seq<(nat, nat)>)
    requires i < |p.chunks| && Streaming(b, p, i, fed, length, at, before, ranges)
    requires length + |p.chunks[i]| <= b.maxObjectBytes
    requires p.expectedLength.Some? ==> length + |p.chunks[i]| <= p.expectedLength.value
    requires next.Some? ==>
               && at.Some? && more == ranges + [(at.value.offset, next.value.offset)]
               && next.value.offset == |fed + p.chunks[i]|
               && next.value.upload in uploads && uploads[next.value.upload] == fed + p.chunks[i]
    ensures Streaming(b, p, i + 1, fed + p.chunks[i], length + |p.chunks[i]|, next, uploads, more)
  {
    hide Concat, ChunkRanges;
    ConcatTake(p.chunks, i);
    RangesTake(p.chunks, i);
  }

  lemma StreamingEnds(e: Env, b: Binding, p: Payload, i: nat, fed: Bytes, length: nat, at: Option<UploadLocation>,
                      uploads: map<nat, Bytes>, ranges: seq<(nat, nat)>)
    requires i == |p.chunks| && Streaming(b, p, i, fed, length, at, uploads, ranges)
    ensures fed == p.Content() && length == |fed|
    ensures at.Some? ==> at.value.offset == length && at.value.upload in uploads && uploads[at.value.upload] == fed
                         && ranges == ChunkRanges(p.chunks)
    ensures var wrong := VerifyIdentity(p, Identity(e.hash(fed), length));
            if wrong.None? then Accepted(e, b, p) else Rejection(e, b, p, wrong.value)
  {
    assert p.chunks[..i] == p.chunks;
  }
}
