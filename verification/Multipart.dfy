/** `OciMultipartManager` (multipart/__init__.py). */
module Multipart {
  import opened Prelude
  import opened Models
  import opened Store
  import opened Runs
  import opened Plan
  import opened Journal
  import opened Transport
  import opened Payloads
  import opened Adapter

  const MIN_PART_BYTES := 64 * 1024

  datatype Part = Part(number: nat, identity: Identity, token: string)

  datatype ObjectRef = ObjectRef(resource: string, objectId: string, digest: Option<Digest>)

  /** The caller's handle. */
  datatype Session = Session(id: string, ref: ObjectRef, partSize: nat, expiresAt: int)

  /**
    `_MultipartState`. `hashed` is what the running hash was fed, `contents` what each part held, and
    `partLimit` the largest part size of the handles used so far.
   */
  datatype MultipartState = MultipartState(
    req: PutRequest, upload: UploadLocation, machine: PutState, hashed: Bytes, length: nat, nextPart: nat,
    parts: seq<Part>, contents: seq<Bytes>, partLimit: nat)

  /** The session's own books agree, and the registry holds exactly the bytes that were hashed. */
  ghost predicate Live(e: Env, b: Binding, uploads: map<nat, Bytes>, s: MultipartState) {
    && s.machine == Uploading
    && InStep(e, b, s.contents, s.parts, s.hashed, s.length, s.nextPart, s.upload.offset, s.partLimit)
    && s.upload.upload in uploads && uploads[s.upload.upload] == s.hashed
  }

  /** Hash input, length, upload offset, next part number and part list describe the same parts, in order. */
  ghost predicate InStep(e: Env, b: Binding, contents: seq<Bytes>, parts: seq<Part>, hashed: Bytes,
                         length: nat, nextPart: nat, offset: nat, partLimit: nat) {
    && nextPart == |parts| + 1
    && |contents| == |parts|
    && hashed == Concat(contents)
    && length == |hashed| == offset && length <= b.maxObjectBytes
    && (forall n :: 0 <= n < |parts| ==>
          && parts[n].number == n + 1
          && parts[n].identity == IdentityOf(e, contents[n])
          && 1 <= parts[n].identity.byteLength <= partLimit)
  }

  function Larger(x: nat, y: nat): nat { if x < y then y else x }

  lemma FreshInStep(e: Env, b: Binding)
    ensures InStep(e, b, [], [], [], 0, 1, 0, b.chunkSize)
  {
  }

  function RefFor(b: Binding, req: PutRequest): ObjectRef { ObjectRef(b.resource, req.objectId, req.expectedDigest) }

  /**
    Every upload in `open` is held by exactly one session, its owner, and every session but `busy` is
    live.
   */
  ghost predicate Tracked(e: Env, b: Binding, sessions: map<string, MultipartState>, owners: map<nat, string>,
                          uploads: map<nat, Bytes>, open: set<nat>, busy: Option<string>) {
    && owners.Keys == open
    && (forall u :: u in owners ==> owners[u] in sessions && sessions[owners[u]].upload.upload == u)
    && (forall k :: k in sessions ==> sessions[k].upload.upload in owners && owners[sessions[k].upload.upload] == k)
    && (forall k :: k in sessions && busy != Some(k) ==> Live(e, b, uploads, sessions[k]))
  }

  lemma TrackedSteady(e: Env, b: Binding, sessions: map<string, MultipartState>, owners: map<nat, string>,
                      uploads: map<nat, Bytes>, open: set<nat>, uploads': map<nat, Bytes>)
    requires Tracked(e, b, sessions, owners, uploads, open, None) && Kept(uploads, uploads', None)
    ensures Tracked(e, b, sessions, owners, uploads', open, None)
  {
    hide InStep;
  }

  lemma TrackedNew(e: Env, b: Binding, sessions: map<string, MultipartState>, owners: map<nat, string>,
                   uploads: map<nat, Bytes>, open: set<nat>, uploads': map<nat, Bytes>, token: string,
                   s: MultipartState)
    requires Tracked(e, b, sessions, owners, uploads, open, None) && Kept(uploads, uploads', None)
    requires token !in sessions && s.upload.upload !in open && Live(e, b, uploads', s)
    ensures Tracked(e, b, sessions[token := s], owners[s.upload.upload := token], uploads', open + {s.upload.upload},
                    None)
  {
    hide InStep;
  }

  lemma TouchedDropped(before: map<nat, Bytes>, after: map<nat, Bytes>, u: nat)
    requires OnlyTouched(before, after, Some(u))
    ensures after - {u} == before - {u}
  {
  }

  /** Session `k` moved on, touching its own upload only. */
  lemma TrackedUpdate(e: Env, b: Binding, sessions: map<string, MultipartState>, owners: map<nat, string>,
                      uploads: map<nat, Bytes>, open: set<nat>, uploads': map<nat, Bytes>, k: string,
                      s: MultipartState, busy: Option<string>)
    requires Tracked(e, b, sessions, owners, uploads, open, None) && k in sessions
    requires s.upload.upload == sessions[k].upload.upload && Kept(uploads, uploads', Some(s.upload.upload))
    requires busy == Some(k) || (busy == None && Live(e, b, uploads', s))
    ensures Tracked(e, b, sessions[k := s], owners, uploads', open, busy)
  {
    hide InStep;
  }

  /** Session `k` is gone and its upload closed. */
  lemma TrackedDrop(e: Env, b: Binding, sessions: map<string, MultipartState>, owners: map<nat, string>,
                    uploads: map<nat, Bytes>, open: set<nat>, uploads': map<nat, Bytes>, k: string,
                    busy: Option<string>)
    requires Tracked(e, b, sessions, owners, uploads, open, busy) && k in sessions && (busy == None || busy == Some(k))
    requires Kept(uploads, uploads', Some(sessions[k].upload.upload))
    ensures Tracked(e, b, sessions - {k}, owners - {sessions[k].upload.upload}, uploads',
                    open - {sessions[k].upload.upload}, None)
  {
    hide InStep;
  }

  /** What is checked before a completion touches its session: the uploaded parts, each but the last of at least
      64 KiB, and the verdict of `MultipartCompletion`. */
  predicate Presentable(s: MultipartState, supplied: seq<Part>, rejected: bool) {
    && supplied == s.parts
    && (forall n :: 0 <= n < |supplied| - 1 ==> 65536 <= supplied[n].identity.byteLength)
    && !rejected
  }

  /** The put declared these bytes, or declared nothing. */
  predicate Declares(e: Env, req: PutRequest, bytes: Bytes) {
    && (req.expectedDigest.Some? ==> req.expectedDigest.value == e.hash(bytes))
    && (req.expectedLength.Some? ==> req.expectedLength.value == |bytes|)
  }

  lemma LiveIdentity(e: Env, b: Binding, uploads: map<nat, Bytes>, s: MultipartState)
    requires Live(e, b, uploads, s)
    ensures s.hashed == Concat(s.contents) && s.length == |s.hashed| == s.upload.offset && s.length <= b.maxObjectBytes
    ensures s.nextPart == |s.parts| + 1
    ensures s.upload.upload in uploads && uploads[s.upload.upload] == s.hashed
  {
  }

  /** What `upload_part` demands of a part's bytes. */
  predicate PartAccepted(e: Env, b: Binding, partSize: nat, length: nat, p: Payload) {
    && 1 <= |p.Content()| <= partSize
    && length + |p.Content()| <= b.maxObjectBytes
    && (p.expectedLength.Some? ==> p.expectedLength.value == |p.Content()|)
    && (p.expectedDigest.Some? ==> p.expectedDigest.value == e.hash(p.Content()))
  }

  /** An error that says what is wrong with a part: empty or too long, not as long as declared, or otherwise not the
      declared content. */
  predicate PartRejection(e: Env, b: Binding, partSize: nat, length: nat, p: Payload, error: Error) {
    var fits := 1 <= |p.Content()| <= partSize && length + |p.Content()| <= b.maxObjectBytes;
    match error
    case MultipartInvalid => !fits
    case IncompleteUpload => fits && p.expectedLength.Some? && p.expectedLength.value != |p.Content()|
    case DigestMismatch =>
      && fits && (p.expectedLength.Some? ==> p.expectedLength.value == |p.Content()|)
      && p.expectedDigest.Some? && p.expectedDigest.value != e.hash(p.Content())
    case _ => false
  }

  /** A part is acceptable under these conditions, and then no rejection applies. */
  lemma PartVerdicts(e: Env, b: Binding, partSize: nat, length: nat, p: Payload)
    ensures PartAccepted(e, b, partSize, length, p) <==>
            && 1 <= |p.Content()| <= partSize && length + |p.Content()| <= b.maxObjectBytes
            && (p.expectedLength.Some? ==> p.expectedLength.value == |p.Content()|)
            && (p.expectedDigest.Some? ==> p.expectedDigest.value == e.hash(p.Content()))
    ensures forall error :: PartRejection(e, b, partSize, length, p, error) ==> !PartAccepted(e, b, partSize, length, p)
  {
  }

  /** After `i` chunks of a part: the part hash, the running hash, the upload and the limits. */
  ghost predicate PartStreaming(b: Binding, partSize: nat, s: MultipartState, p: Payload, i: nat, part: Bytes,
                                length: nat, hashed: Bytes, at: UploadLocation, uploads: map<nat, Bytes>) {
    && i <= |p.chunks| && part == Concat(p.chunks[..i]) && length == |part| <= partSize
    && s.length + length <= b.maxObjectBytes
    && hashed == s.hashed + part && at.offset == |hashed| && at.upload in uploads && uploads[at.upload] == hashed
  }

  lemma PartStarts(b: Binding, partSize: nat, s: MultipartState, p: Payload, uploads: map<nat, Bytes>)
    requires s.length <= b.maxObjectBytes && s.upload.offset == |s.hashed|
    requires s.upload.upload in uploads && uploads[s.upload.upload] == s.hashed
    ensures PartStreaming(b, partSize, s, p, 0, [], 0, s.hashed, s.upload, uploads)
  {
    assert s.hashed + [] == s.hashed;
  }

  lemma PartChunk(e: Env, b: Binding, partSize: nat, s: MultipartState, p: Payload, i: nat, part: Bytes, length: nat,
                  hashed: Bytes, at: UploadLocation, uploads: map<nat, Bytes>)
    requires p.WellChunked() && i < |p.chunks| && PartStreaming(b, partSize, s, p, i, part, length, hashed, at, uploads)
    ensures p.chunks[i] != [] && at.offset == |hashed| && at.upload in uploads && uploads[at.upload] == hashed
    ensures length + |p.chunks[i]| > partSize || s.length + length + |p.chunks[i]| > b.maxObjectBytes ==>
              PartRejection(e, b, partSize, s.length, p, MultipartInvalid)
  {
    ConcatTake(p.chunks, i);
    ConcatLonger(p.chunks, i + 1);
  }

  lemma PartStep(b: Binding, partSize: nat, s: MultipartState, p: Payload, i: nat, part: Bytes, length: nat,
                 hashed: Bytes, at: UploadLocation, before: map<nat, Bytes>, next: UploadLocation,
                 uploads: map<nat, Bytes>)
    requires i < |p.chunks| && PartStreaming(b, partSize, s, p, i, part, length, hashed, at, before)
    requires length + |p.chunks[i]| <= partSize && s.length + length + |p.chunks[i]| <= b.maxObjectBytes
    requires next.offset == |hashed + p.chunks[i]| && next.upload in uploads
             && uploads[next.upload] == hashed + p.chunks[i]
    ensures PartStreaming(b, partSize, s, p, i + 1, part + p.chunks[i], length + |p.chunks[i]|, hashed + p.chunks[i],
                          next, uploads)
  {
    ConcatTake(p.chunks, i);
    assert s.hashed + part + p.chunks[i] == s.hashed + (part + p.chunks[i]);
  }

  lemma PartEnds(e: Env, b: Binding, partSize: nat, s: MultipartState, p: Payload, i: nat, part: Bytes, length: nat,
                 hashed: Bytes, at: UploadLocation, uploads: map<nat, Bytes>)
    requires i == |p.chunks| && PartStreaming(b, partSize, s, p, i, part, length, hashed, at, uploads)
    ensures part == p.Content() && length == |part| && hashed == s.hashed + part
    ensures at.offset == |hashed| && at.upload in uploads && uploads[at.upload] == hashed
    ensures var wrong := VerifyIdentity(p, Identity(e.hash(part), length));
            if length == 0 then PartRejection(e, b, partSize, s.length, p, MultipartInvalid)
            else if wrong.None? then PartAccepted(e, b, partSize, s.length, p)
            else PartRejection(e, b, partSize, s.length, p, wrong.value)
  {
    assert p.chunks[..i] == p.chunks;
  }

  lemma SessionIsLive(e: Env, b: Binding, sessions: map<string, MultipartState>, owners: map<nat, string>,
                      uploads: map<nat, Bytes>, open: set<nat>, k: string)
    requires Tracked(e, b, sessions, owners, uploads, open, None) && k in sessions
    ensures Live(e, b, uploads, sessions[k]) && sessions[k].upload.upload in open
  {
  }

  lemma DropBusy(e: Env, b: Binding, sessions: map<string, MultipartState>, owners: map<nat, string>,
                 uploads: map<nat, Bytes>, open: set<nat>, k: string, busy: Option<string>)
    requires Tracked(e, b, sessions, owners, uploads, open, busy) && k in sessions
    ensures sessions[k].upload.upload in open
  {
  }

  /** The books stay in step when a part's bytes were hashed, sent and recorded. */
  lemma PartAdded(e: Env, b: Binding, partSize: nat, uploads: map<nat, Bytes>, uploads': map<nat, Bytes>,
                  s: MultipartState, t: MultipartState, p: Payload, part: Part)
    requires Live(e, b, uploads, s) && PartAccepted(e, b, partSize, s.length, p)
    requires part.number == s.nextPart && part.identity == IdentityOf(e, p.Content())
    requires t == s.(hashed := s.hashed + p.Content(), upload := t.upload, length := s.length + |p.Content()|,
                     parts := s.parts + [part], nextPart := s.nextPart + 1, contents := s.contents + [p.Content()],
                     partLimit := Larger(s.partLimit, partSize))
    requires t.upload.offset == |t.hashed| && t.upload.upload in uploads' && uploads'[t.upload.upload] == t.hashed
    ensures Live(e, b, uploads', t)
  {
    assert t.contents[..|t.contents| - 1] == s.contents;
  }

  class Manager {
    const adapter: Adapter
    var sessions: map<string, MultipartState>
    /** Which session holds an open upload. */
    ghost var owners: map<nat, string>

    /** All sessions but `busy` are live, and open uploads and sessions match one to one. */
    ghost predicate ValidBut(busy: Option<string>)
      reads this, adapter, adapter.transport, adapter.transport.registry
    {
      && adapter.Valid()
      && Tracked(adapter.e, adapter.b, sessions, owners, adapter.transport.registry.uploads, adapter.transport.Open(),
                 busy)
    }

    ghost predicate Valid()
      reads this, adapter, adapter.transport, adapter.transport.registry
    {
      ValidBut(None)
    }

    constructor (adapter: Adapter)
      requires adapter.Valid() && adapter.transport.Open() == {}
      ensures Valid() && this.adapter == adapter && sessions == map[]
    {
      this.adapter := adapter;
      sessions, owners := map[], map[];
    }

    /** A put, a delete or any other adapter call that leaves open uploads alone leaves every session live. */
    twostate lemma AdapterCallsKeepSessions()
      requires old(Valid()) && adapter.Valid() && adapter.Steady()
      requires sessions == old(sessions) && owners == old(owners)
      ensures Valid()
    {
      hide Simulates, Lawful, Replay, LawfulRun, IsJournal, InStep, Tracked;
      TrackedSteady(adapter.e, adapter.b, sessions, owners, old(adapter.transport.registry.uploads),
                    adapter.transport.Open(), adapter.transport.registry.uploads);
    }

    /** `begin_multipart`, with the random session token as an argument. */
    method BeginMultipart(req: PutRequest, token: string, now: int) returns (r: Result<Session>)
      requires Valid() && token !in sessions
      modifies this, adapter.transport, adapter.transport.registry`uploads, adapter.transport.registry`counter
      ensures Valid() && adapter.Now() == old(adapter.Now())
      ensures r.Ok? ==>
                && r.value == Session(token, RefFor(adapter.b, req), adapter.b.chunkSize, now + 3600)
                && sessions.Keys == old(sessions).Keys + {token}
                && (forall k :: k in old(sessions) ==> sessions[k] == old(sessions)[k])
                && sessions[token].req == req && sessions[token].contents == [] && sessions[token].parts == []
                && sessions[token].partLimit == adapter.b.chunkSize
      ensures r.Err? ==> sessions == old(sessions)
      ensures r.Ok? ==> !Taken(adapter.store, req)
      ensures old(adapter.transport.faults) <= adapter.transport.faults
      ensures adapter.transport.faults == old(adapter.transport.faults) ==>
                && (r.Err? <==> Taken(adapter.store, req))
                && (r.Err? ==> r.error == Conflict(req)
                               && adapter.transport.registry.uploads == old(adapter.transport.registry.uploads))
    {
      hide Simulates, Lawful, Replay, LawfulRun, IsJournal, Taken, InStep, Tracked;
      FreshInStep(adapter.e, adapter.b);
      ghost var before, open := adapter.transport.registry.uploads, adapter.transport.Open();
      var refused := adapter.RequireCreateAvailable(req);
      if refused.Some? { return Err(refused.value); }
      var started := adapter.transport.StartUpload();
      if started.Err? {
        TrackedSteady(adapter.e, adapter.b, sessions, owners, before, open, adapter.transport.registry.uploads);
        return Err(started.error);
      }
      var state := MultipartState(req, started.value, Uploading, [], 0, 1, [], [], adapter.b.chunkSize);
      TrackedNew(adapter.e, adapter.b, sessions, owners, before, open, adapter.transport.registry.uploads, token,
                 state);
      sessions := sessions[token := state];
      owners := owners[started.value.upload := token];
      assert adapter.transport.Open() == open + {started.value.upload};
      r := Ok(Session(token, RefFor(adapter.b, req), adapter.b.chunkSize, now + 3600));
    }

    /** `abort_multipart`: forgets the session and attempts to abort its upload. `machine` is the state it ends in. */
    method AbortMultipart(session: Session) returns (machine: Option<PutState>)
      requires ValidBut(None) || ValidBut(Some(session.id))
      modifies this, adapter.transport, adapter.transport.registry`uploads
      ensures Valid() && adapter.Now() == old(adapter.Now()) && sessions == old(sessions) - {session.id}
      ensures old(adapter.transport.faults) <= adapter.transport.faults
      ensures session.id in old(sessions) ==> old(sessions)[session.id].upload.upload in adapter.transport.abandoned
      ensures adapter.transport.faults == old(adapter.transport.faults) ==>
                adapter.transport.registry.uploads ==
                (if session.id !in old(sessions) then old(adapter.transport.registry.uploads)
                 else old(adapter.transport.registry.uploads) - {old(sessions)[session.id].upload.upload})
      ensures machine == if session.id !in old(sessions) then None
                         else if old(sessions)[session.id].machine == Uploading then Some(Aborted)
                         else Some(old(sessions)[session.id].machine)
    {
      hide Simulates, Lawful, Replay, LawfulRun, IsJournal, InStep, Live;
      if session.id !in sessions { return None; }
      var state := sessions[session.id];
      ghost var before, open := adapter.transport.registry.uploads, adapter.transport.Open();
      ghost var busy := if ValidBut(None) then None else Some(session.id);
      DropBusy(adapter.e, adapter.b, sessions, owners, before, open, session.id, busy);
      adapter.transport.AbortSafely(state.upload);
      TrackedDrop(adapter.e, adapter.b, sessions, owners, before, open, adapter.transport.registry.uploads,
                  session.id, busy);
      sessions := sessions - {session.id};
      owners := owners - {state.upload.upload};
      assert adapter.transport.Open() == open - {state.upload.upload};
      machine := Some(if state.machine == Uploading then Aborted else state.machine);
    }

    /** `_state`. */
    function StateOf(session: Session): (r: Option<MultipartState>)
      reads this
      ensures r.Some? <==> session.id in sessions
                           && session.ref == ObjectRef(adapter.b.resource, sessions[session.id].req.objectId,
                                                       sessions[session.id].req.expectedDigest)
      ensures r.Some? ==> r.value == sessions[session.id]
    {
      if session.id in sessions && session.ref == RefFor(adapter.b, sessions[session.id].req)
      then Some(sessions[session.id]) else None
    }

    /** The chunk loop of `upload_part`. */
    method StreamPart(session: Session, state: MultipartState, p: Payload)
      returns (r: Result<Identity>, hashed: Bytes, at: UploadLocation)
      requires adapter.transport.Valid() && adapter.transport.e == adapter.e && adapter.transport.b == adapter.b
      requires p.WellChunked() && Live(adapter.e, adapter.b, adapter.transport.registry.uploads, state)
      modifies adapter.transport`faults, adapter.transport.registry`uploads
      ensures adapter.transport.Valid() && old(adapter.transport.faults) <= adapter.transport.faults
      ensures OnlyTouched(old(adapter.transport.registry.uploads), adapter.transport.registry.uploads,
                          Some(state.upload.upload))
      ensures at.upload == state.upload.upload
      ensures r.Ok? ==>
                && PartAccepted(adapter.e, adapter.b, session.partSize, state.length, p)
                && r.value == IdentityOf(adapter.e, p.Content())
                && hashed == state.hashed + p.Content() && at.offset == |hashed|
                && at.upload in adapter.transport.registry.uploads
                && adapter.transport.registry.uploads[at.upload] == hashed
      ensures r.Err? && adapter.transport.faults == old(adapter.transport.faults) ==>
                PartRejection(adapter.e, adapter.b, session.partSize, state.length, p, r.error)
    {
      hide Concat, PartStreaming, PartAccepted, PartRejection, Payload.WellChunked, Live;
      var part: Bytes, length: nat, i: nat, failure: Option<Error> := [], 0, 0, None;
      hashed, at := state.hashed, state.upload;
      LiveIdentity(adapter.e, adapter.b, adapter.transport.registry.uploads, state);
      PartStarts(adapter.b, session.partSize, state, p, adapter.transport.registry.uploads);
      while i < |p.chunks| && failure.None?
        invariant 0 <= i <= |p.chunks| && adapter.transport.Valid()
                  && old(adapter.transport.faults) <= adapter.transport.faults
        invariant OnlyTouched(old(adapter.transport.registry.uploads), adapter.transport.registry.uploads,
                              Some(state.upload.upload))
        invariant at.upload == state.upload.upload
        invariant failure.None? ==>
                    PartStreaming(adapter.b, session.partSize, state, p, i, part, length, hashed, at,
                                  adapter.transport.registry.uploads)
        invariant failure.Some? && adapter.transport.faults == old(adapter.transport.faults) ==>
                    PartRejection(adapter.e, adapter.b, session.partSize, state.length, p, failure.value)
        decreases |p.chunks| - i, failure.None?
      {
        var chunk := p.chunks[i];
        ghost var before, was := adapter.transport.registry.uploads, length;
        PartChunk(adapter.e, adapter.b, session.partSize, state, p, i, part, length, hashed, at, before);
        length := length + |chunk|;
        // Reading the payload source may fail too.
        failure := adapter.transport.Falter();
        if failure.Some? {
        } else if length > session.partSize || state.length + length > adapter.b.maxObjectBytes {
          failure := Some(MultipartInvalid);
        } else {
          var next;
          failure, next := adapter.transport.Forward(Some(at), chunk, hashed);
          if failure.None? {
            PartStep(adapter.b, session.partSize, state, p, i, part, was, hashed, at, before, next.value,
                     adapter.transport.registry.uploads);
          }
          at, part, hashed, i := next.value, part + chunk, hashed + chunk, i + 1;
        }
      }
      if failure.Some? { return Err(failure.value), hashed, at; }
      PartEnds(adapter.e, adapter.b, session.partSize, state, p, i, part, length, hashed, at,
               adapter.transport.registry.uploads);
      if length == 0 { return Err(MultipartInvalid), hashed, at; }
      var identity := Identity(adapter.e.hash(part), length);
      var wrong := VerifyIdentity(p, identity);
      r := if wrong.Some? then Err(wrong.value) else Ok(identity);
    }

    /**
      `upload_part`. A part in order extends the session by exactly its bytes; a failure while
      streaming removes the session; a part out of order or beyond the part count changes nothing.
     */
    method UploadPart(session: Session, number: nat, p: Payload) returns (r: Result<Part>)
      requires Valid() && p.WellChunked()
      modifies this, adapter.transport, adapter.transport.registry`uploads
      ensures Valid() && adapter.Now() == old(adapter.Now())
      ensures old(adapter.transport.faults) <= adapter.transport.faults
      ensures var s := old(StateOf(session));
              var expected := s.Some? && number == s.value.nextPart && number <= adapter.b.maxMultipartParts;
              && (r.Ok? ==>
                    && expected && PartAccepted(adapter.e, adapter.b, session.partSize, s.value.length, p)
                    && r.value == Part(number, IdentityOf(adapter.e, p.Content()),
                                       adapter.e.partToken(session.id, number, IdentityOf(adapter.e, p.Content())))
                    && session.id in sessions
                    && sessions[session.id].req == s.value.req
                    && sessions[session.id].contents == s.value.contents + [p.Content()]
                    && sessions[session.id].parts == s.value.parts + [r.value]
                    && sessions[session.id].partLimit == Larger(s.value.partLimit, session.partSize)
                    && sessions - {session.id} == old(sessions) - {session.id})
              && (r.Err? && !expected ==> sessions == old(sessions) && r.error == MultipartInvalid)
              && (r.Err? && expected ==> sessions == old(sessions) - {session.id})
              && (expected && adapter.transport.faults == old(adapter.transport.faults) ==>
                    if r.Ok? then PartAccepted(adapter.e, adapter.b, session.partSize, s.value.length, p)
                    else PartRejection(adapter.e, adapter.b, session.partSize, s.value.length, p, r.error))
              && (expected && adapter.transport.faults == old(adapter.transport.faults) ==>
                    (r.Ok? <==>
                       && 1 <= |p.Content()| <= session.partSize
                       && s.value.length + |p.Content()| <= adapter.b.maxObjectBytes
                       && (p.expectedLength.Some? ==> p.expectedLength.value == |p.Content()|)
                       && (p.expectedDigest.Some? ==> p.expectedDigest.value == adapter.e.hash(p.Content()))))
      ensures var s := old(StateOf(session));
              adapter.transport.faults == old(adapter.transport.faults) ==>
                if r.Err? && s.Some? && session.id !in sessions
                then adapter.transport.registry.uploads ==
                     old(adapter.transport.registry.uploads) - {s.value.upload.upload}
                else OnlyTouched(old(adapter.transport.registry.uploads), adapter.transport.registry.uploads,
                                 if s.None? then None else Some(s.value.upload.upload))
    {
      hide Simulates, Lawful, Replay, LawfulRun, IsJournal, InStep, Tracked, Live, PartAccepted, PartRejection;
      var known := StateOf(session);
      if known.None? || number != known.value.nextPart || number > adapter.b.maxMultipartParts {
        return Err(MultipartInvalid);
      }
      var state := known.value;
      PartVerdicts(adapter.e, adapter.b, session.partSize, state.length, p);
      ghost var before, open, was := adapter.transport.registry.uploads, adapter.transport.Open(), sessions;
      SessionIsLive(adapter.e, adapter.b, sessions, owners, before, open, session.id);
      var streamed, hashed, at;
      streamed, hashed, at := StreamPart(session, state, p);
      ghost var after := adapter.transport.registry.uploads;
      if streamed.Err? {
        var broken := state.(hashed := hashed, upload := at);
        TrackedUpdate(adapter.e, adapter.b, sessions, owners, before, open, after, session.id, broken,
                      Some(session.id));
        sessions := sessions[session.id := broken];
        var aborted := AbortMultipart(session);
        assert sessions == was - {session.id};
        TouchedDropped(before, after, state.upload.upload);
        return Err(streamed.error);
      }
      var part := Part(number, streamed.value, adapter.e.partToken(session.id, number, streamed.value));
      var next := state.(hashed := hashed, upload := at, length := state.length + streamed.value.byteLength,
                         parts := state.parts + [part], nextPart := state.nextPart + 1,
                         contents := state.contents + [p.Content()],
                         partLimit := Larger(state.partLimit, session.partSize));
      PartAdded(adapter.e, adapter.b, session.partSize, before, after, state, next, p, part);
      TrackedUpdate(adapter.e, adapter.b, sessions, owners, before, open, after, session.id, next, None);
      sessions := sessions[session.id := next];
      r := Ok(part);
    }

    /**
      `complete_multipart`. On success the repository, the returned metadata and the run are those of one
      put of the concatenated parts at the same clock reading; a failure leaves a prefix of that. Only a
      refusal before the declarations are checked leaves the session in place. `rejected` is the verdict of
      `MultipartCompletion` on the parts.
     */
    method CompleteMultipart(session: Session, supplied: seq<Part>, rejected: bool, now: int)
      returns (res: Result<Metadata>)
      requires Valid()
      modifies this, adapter, adapter.transport, adapter.transport.registry
      ensures Valid()
      ensures old(StateOf(session)).None? ==>
                sessions == old(sessions) && adapter.Now() == old(adapter.Now()) && res == Err(MultipartInvalid)
      ensures old(StateOf(session)).Some? ==>
                var s := old(StateOf(session)).value;
                var bytes := Concat(s.contents);
                var w := WithContent(adapter.e, old(adapter.Now()), bytes);
                var plan := CommitPlan(adapter.e, adapter.b, w, s.req, IdentityOf(adapter.e, bytes), now);
                && old(adapter.trace) <= adapter.trace <= old(adapter.trace) + [AddBlob(bytes)] + plan.events
                && (res.Ok? ==>
                      && res == plan.outcome
                      && adapter.trace == old(adapter.trace) + [AddBlob(bytes)] + plan.events
                      && adapter.Now() == Replay(adapter.e, w, plan.events))
                && (Presentable(s, supplied, rejected) <==>
                      && supplied == s.parts && !rejected
                      && forall n :: 0 <= n < |supplied| - 1 ==> 65536 <= supplied[n].identity.byteLength)
                && (Declares(adapter.e, s.req, bytes) <==>
                      && (s.req.expectedDigest.Some? ==> s.req.expectedDigest.value == adapter.e.hash(bytes))
                      && (s.req.expectedLength.Some? ==> s.req.expectedLength.value == |bytes|))
                && (if Presentable(s, supplied, rejected) then sessions == old(sessions) - {session.id}
                    else sessions == old(sessions) && adapter.trace == old(adapter.trace)
                         && res == Err(MultipartInvalid))
                && (res.Ok? ==> Presentable(s, supplied, rejected) && Declares(adapter.e, s.req, bytes))
                && (Presentable(s, supplied, rejected)
                    && adapter.transport.faults == old(adapter.transport.faults) ==>
                      && res == (if Declares(adapter.e, s.req, bytes) then plan.outcome else Err(IncompleteUpload))
                      && adapter.transport.registry.uploads ==
                           old(adapter.transport.registry.uploads) - {s.upload.upload})
      ensures old(adapter.transport.faults) <= adapter.transport.faults
      ensures old(StateOf(session)).Some? ==>
                var s := old(StateOf(session)).value;
                CrashConsistent(adapter.e, adapter.b, old(adapter.Now()), adapter.Now(), s.req, Concat(s.contents), now)
      ensures adapter.journal == old(adapter.journal) ||
              (old(StateOf(session)).Some? &&
               adapter.journal == old(adapter.journal) +
                 [Entry(old(StateOf(session)).value.req, |old(adapter.trace)|, |adapter.trace|, res.Ok?)])
      ensures res.Ok? ==> adapter.journal != old(adapter.journal)
      ensures old(StateOf(session)).Some? && Taken(old(adapter.store), old(StateOf(session)).value.req) ==>
                res.Err? && adapter.trace == old(adapter.trace)
    {
      hide Simulates, Lawful, Replay, LawfulRun, IsJournal, InStep, Tracked, Live, CommitPlan, WithContent,
        CrashConsistent;
      var known := StateOf(session);
      if known.None? { return Err(MultipartInvalid); }
      var state := known.value;
      StandstillIsCrashConsistent(adapter.e, adapter.b, adapter.Now(), state.req, Concat(state.contents), now);
      if supplied != state.parts { return Err(MultipartInvalid); }
      if exists n :: 0 <= n < |supplied| - 1 && supplied[n].identity.byteLength < MIN_PART_BYTES {
        return Err(MultipartInvalid);
      }
      if rejected { return Err(MultipartInvalid); }
      ghost var before, open := adapter.transport.registry.uploads, adapter.transport.Open();
      SessionIsLive(adapter.e, adapter.b, sessions, owners, before, open, session.id);
      LiveIdentity(adapter.e, adapter.b, before, state);
      var identity := Identity(adapter.e.hash(state.hashed), state.length);
      if (state.req.expectedDigest.Some? && state.req.expectedDigest.value != identity.digest)
         || (state.req.expectedLength.Some? && state.req.expectedLength.value != identity.byteLength) {
        var aborted := AbortMultipart(session);
        return Err(IncompleteUpload);
      }
      var machine;
      res, machine := FinishSession(session, state, identity, now);
    }

    /**
      Publish the upload and forget the session, aborting the upload when it was not finalized. The state
      machine ends committed exactly on success; a failure it calls free of a physical commit left the
      abstract store as it was, and any other failure came after the payload was stored.
     */
    method FinishSession(session: Session, state: MultipartState, identity: Identity, now: int)
      returns (res: Result<Metadata>, machine: PutState)
      requires Valid() && StateOf(session) == Some(state) && identity == IdentityOf(adapter.e, Concat(state.contents))
      requires state.hashed == Concat(state.contents)
      requires state.upload.upload in adapter.transport.registry.uploads
      requires adapter.transport.registry.uploads[state.upload.upload] == state.hashed
      modifies this, adapter, adapter.transport, adapter.transport.registry
      ensures Valid() && sessions == old(sessions) - {session.id}
      ensures var bytes := Concat(state.contents);
              var w := WithContent(adapter.e, old(adapter.Now()), bytes);
              var plan := CommitPlan(adapter.e, adapter.b, w, state.req, identity, now);
              && old(adapter.trace) <= adapter.trace <= old(adapter.trace) + [AddBlob(bytes)] + plan.events
              && (res.Ok? ==>
                    && res == plan.outcome
                    && adapter.trace == old(adapter.trace) + [AddBlob(bytes)] + plan.events
                    && adapter.Now() == Replay(adapter.e, w, plan.events))
              && (adapter.transport.faults == old(adapter.transport.faults) ==>
                    && res == plan.outcome
                    && adapter.transport.registry.uploads ==
                         old(adapter.transport.registry.uploads) - {state.upload.upload})
      ensures old(adapter.transport.faults) <= adapter.transport.faults
      ensures adapter.journal == old(adapter.journal) +
                [Entry(state.req, |old(adapter.trace)|, |adapter.trace|, res.Ok?)]
      ensures CrashConsistent(adapter.e, adapter.b, old(adapter.Now()), adapter.Now(), state.req,
                              Concat(state.contents), now)
      ensures if res.Ok? then machine == Committed else machine.Failed?
      ensures Taken(old(adapter.store), state.req) ==> machine == Failed(false) && adapter.trace == old(adapter.trace)
      ensures machine == Failed(false) ==>
                adapter.store == old(adapter.store) && state.upload.upload in adapter.transport.abandoned
      ensures machine == Failed(true) ==> old(adapter.trace) + [AddBlob(Concat(state.contents))] <= adapter.trace
    {
      hide Simulates, Lawful, Replay, LawfulRun, IsJournal, InStep, Tracked, Live, CommitPlan, WithContent, Concat,
        CrashConsistent;
      ghost var before, open := adapter.transport.registry.uploads, adapter.transport.Open();
      ghost var w0, t, entries := adapter.Now(), adapter.trace, adapter.journal;
      ghost var bytes := Concat(state.contents);
      SessionIsLive(adapter.e, adapter.b, sessions, owners, before, open, session.id);
      res, machine := adapter.PublishUpload(state.req, state.upload, identity, now, bytes);
      if machine == Uploading {
        adapter.transport.AbortSafely(state.upload);
        machine := Failed(false);
      } else if machine == Verifying {
        machine := Failed(true);
      }
      PrefixIsCrashConsistent(adapter.e, adapter.b, adapter.origin, t, adapter.trace, [AddBlob(bytes)], state.req,
                              bytes, now);
      if res.Ok? {
        ContentAdded(adapter.e, adapter.b, w0, bytes);
        PublicationExplained(adapter.e, adapter.b, adapter.origin, t, [AddBlob(bytes)],
                             WithContent(adapter.e, w0, bytes), state.req, identity, now);
      }
      adapter.Enter(state.req, t, entries, res.Ok?);
      TrackedDrop(adapter.e, adapter.b, sessions, owners, before, open, adapter.transport.registry.uploads,
                  session.id, None);
      sessions := sessions - {session.id};
      owners := owners - {state.upload.upload};
      assert adapter.transport.Open() == open - {state.upload.upload};
    }
  }
}
