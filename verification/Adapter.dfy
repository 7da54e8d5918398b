/** `OciDistributionAdapter` (adapter.py): put, delete and the read-only resolution they rely on. */
module Adapter {
  import opened Prelude
  import opened Models
  import opened Naming
  import opened Store
  import opened Resolve
  import opened Runs
  import opened Plan
  import opened Crash
  import opened Journal
  import opened Transport
  import opened Payloads

  /** The world with one more payload blob. */
  function WithContent(e: Env, w: World, content: Bytes): World { World(WithBlob(e, w.data, content), w.store) }

  /** The states of `PutStateMachine` that a multipart session goes through. */
  datatype PutState = Uploading | Verifying | Committed | Aborted | Failed(commitPossible: bool)

  predicate Transient(error: Error) { error == Unavailable || error == RateLimited }

  /**
    Crash consistency of a publication of `bytes` that started at `w` and left `w'`: nothing visible
    happened, or the version is stored under the old latest alias, or under its own; and every reference
    to another object or another version reads as before.
   */
  ghost predicate CrashConsistent(e: Env, b: Binding, w: World, w': World, req: PutRequest, bytes: Bytes, now: int) {
    var content := IdentityOf(e, bytes);
    && Interrupted(w.store, w'.store, req.objectId, Target(e, b, WithContent(e, w, bytes), req, content, now))
    && (forall id, digest: Option<Digest> ::
          id != req.objectId || (digest.Some? && digest.value != content.digest) ==>
            Read(e, b, w'.data, w'.data, w'.data, id, digest) == Read(e, b, w.data, w.data, w.data, id, digest))
  }

  /** Payload blobs and then a prefix of the commit plan are crash consistent. */
  lemma PrefixIsCrashConsistent(e: Env, b: Binding, origin: World, before: Trace, trace: Trace, sent: Trace,
                                req: PutRequest, bytes: Bytes, now: int)
    requires Lawful(e) && Simulates(e, b, Replay(e, origin, before)) && Simulates(e, b, Replay(e, origin, trace))
    requires forall n :: 0 <= n < |sent| ==> sent[n].AddBlob?
    requires var at := WithContent(e, Replay(e, origin, before), bytes);
             before <= trace <= before + sent + CommitPlan(e, b, at, req, IdentityOf(e, bytes), now).events
    ensures CrashConsistent(e, b, Replay(e, origin, before), Replay(e, origin, trace), req, bytes, now)
    ensures var w := Replay(e, origin, before);
            var at := WithContent(e, w, bytes);
            var plan := CommitPlan(e, b, at, req, IdentityOf(e, bytes), now);
            trace == before + sent + plan.events ==>
              && Replay(e, origin, trace).store == Replay(e, at, plan.events).store
              && (req.objectId in Replay(e, origin, trace).store.anchored <==>
                  req.objectId in w.store.anchored || ReachesAnchor(e, b, at, req, IdentityOf(e, bytes)))
  {
    hide Simulates, Lawful, Replay, LawfulRun, CommitPlan, WithContent, Target, Read, Interrupted, IdentityOf,
      ReachesAnchor;
    var w, w', content := Replay(e, origin, before), Replay(e, origin, trace), IdentityOf(e, bytes);
    var at := WithContent(e, w, bytes);
    ContentAdded(e, b, w, bytes);
    PublicationCrash(e, b, origin, before, sent, trace, at, req, content, now);
    AnchoredAfterIff(e, b, at, req, content, now);
    TargetKey(e, b, at, req, content, now);
    forall id, digest: Option<Digest> | id != req.objectId || (digest.Some? && digest.value != content.digest)
      ensures Read(e, b, w'.data, w'.data, w'.data, id, digest) == Read(e, b, w.data, w.data, w.data, id, digest)
    {
      CrashIsLocal(e, b, w, w', Target(e, b, at, req, content, now), id, digest);
    }
  }

  lemma StandstillIsCrashConsistent(e: Env, b: Binding, w: World, req: PutRequest, bytes: Bytes, now: int)
    ensures CrashConsistent(e, b, w, w, req, bytes, now)
  {
    hide Read, Target, HalfPublished, Published;
  }

  class Adapter {
    const e: Env
    const b: Binding
    const transport: Transport
    /** The repository this adapter was attached to, and everything its writers did since. */
    ghost const origin: World
    ghost var store: Store
    ghost var trace: Trace
    ghost var journal: seq<Entry>

    ghost function Now(): World
      reads this, transport, transport.registry
    {
      World(transport.registry.Snapshot(), store)
    }

    /** The repository represents the abstract store, which is where the recorded lawful run leads. */
    ghost predicate Valid()
      reads this, transport, transport.registry
    {
      && transport.Valid() && transport.e == e && transport.b == b
      && Lawful(e)
      && Simulates(e, b, origin)
      && LawfulRun(e, b, origin, trace)
      && Now() == Replay(e, origin, trace)
      && Simulates(e, b, Now())
      && IsJournal(e, origin, trace, journal)
    }

    /** Open uploads are as before: every upload a call started was finalized or an abort was attempted,
        and other uploads are untouched. Without a request failure the registry holds the same uploads. */
    twostate predicate Steady()
      reads this, transport, transport.registry
    {
      && transport.Open() == old(transport.Open()) && old(transport.issued) <= transport.issued
      && old(transport.faults) <= transport.faults
      && (forall u :: u in old(transport.registry.uploads) ==>
            u in transport.registry.uploads && transport.registry.uploads[u] == old(transport.registry.uploads)[u])
      && old(transport.registry.counter) <= transport.registry.counter
      && (transport.faults == old(transport.faults) ==> transport.registry.uploads == old(transport.registry.uploads))
    }

    constructor (e: Env, b: Binding, transport: Transport, ghost represented: Store)
      requires Lawful(e) && transport.Valid() && transport.e == e && transport.b == b
      requires Simulates(e, b, World(transport.registry.Snapshot(), represented))
      ensures Valid() && trace == [] && journal == [] && store == represented
      ensures this.transport == transport && this.e == e && this.b == b
    {
      this.e, this.b, this.transport := e, b, transport;
      origin, store, trace, journal := World(transport.registry.Snapshot(), represented), represented, [], [];
    }

    /** Account for one enabled effect that just happened to the repository `before`. */
    ghost method Log(ev: Event, before: Data)
      requires transport.Valid() && transport.e == e && transport.b == b
      requires Lawful(e) && Simulates(e, b, origin) && LawfulRun(e, b, origin, trace)
      requires World(before, store) == Replay(e, origin, trace) && Simulates(e, b, World(before, store))
      requires IsJournal(e, origin, trace, journal)
      requires Enabled(e, b, World(before, store), ev) && transport.registry.Snapshot() == Apply(e, before, ev)
      modifies this`store, this`trace
      ensures Valid() && trace == old(trace) + [ev]
      ensures Now() == Next(e, World(before, old(store)), ev)
    {
      hide Simulates, Lawful, Enabled, Apply, Abstract;
      StepSimulates(e, b, World(before, store), ev);
      assert (trace + [ev])[..|trace|] == trace;
      JournalKept(e, origin, trace, [ev], journal);
      trace := trace + [ev];
      store := Abstract(store, ev);
    }

    /** `put_manifest` of the body that `ev` stands for. */
    method BindManifest(ghost ev: Event, tag: Tag, body: Bytes) returns (r: Result<Descriptor>)
      requires Valid() && Enabled(e, b, Now(), ev) && |body| <= b.maxManifestBytes
      requires Apply(e, Now().data, ev) == WithManifest(e, Now().data, tag, body)
      modifies this`store, this`trace, transport`faults, transport.registry`manifests, transport.registry`tags
      ensures Valid() && Steady()
      ensures trace == old(trace) || trace == old(trace) + [ev]
      ensures r.Ok? ==> trace == old(trace) + [ev] && r.value == Descriptor(MANIFEST_MEDIA_TYPE, e.hash(body), |body|)
      ensures trace == old(trace) ==> Now() == old(Now())
      ensures trace == old(trace) + [ev] ==> Now() == Next(e, old(Now()), ev)
      ensures r.Err? ==> old(transport.faults) < transport.faults
    {
      hide Simulates, Lawful, Enabled, Apply, Replay, LawfulRun, IsJournal;
      ghost var before := transport.registry.Snapshot();
      ghost var effect: bool;
      r, effect := transport.PutManifest(tag, body);
      if effect { Log(ev, before); }
    }

    /** `upload_blob_bytes`. */
    method EnsureBlob(content: Bytes) returns (r: Result<()>)
      requires Valid()
      modifies this`store, this`trace, transport, transport.registry`uploads, transport.registry`counter,
               transport.registry`blobs
      ensures Valid() && Steady()
      ensures trace == old(trace) || trace == old(trace) + BlobPlan(e, old(Now()).data, content)
      ensures r.Ok? ==> trace == old(trace) + BlobPlan(e, old(Now()).data, content)
      ensures r.Err? ==> old(transport.faults) < transport.faults
    {
      hide Simulates, Lawful, Replay, LawfulRun, IsJournal;
      ghost var before := transport.registry.Snapshot();
      BlobSizes(e, b, Now(), content);
      ghost var effect: bool;
      r, effect := transport.UploadBlobBytes(content);
      if effect { Log(AddBlob(content), before); }
      assert old(trace) + [] == old(trace);
    }

    /** `_require_create_available`. */
    method RequireCreateAvailable(req: PutRequest) returns (refused: Option<Error>)
      requires Valid()
      modifies transport`faults
      ensures Valid() && Steady() && Now() == old(Now())
      ensures refused.None? ==> !Taken(store, req)
      ensures transport.faults == old(transport.faults) ==>
                var once := req.immutability.Some? && req.immutability.value.publishOnce;
                refused == (if once && AnchorTag(e, req.objectId) in Now().data.tags then Some(ImmutableConflict)
                            else if !once && req.createOnly && LatestTag(e, req.objectId) in Now().data.tags
                            then Some(ConditionalConflict) else None)
      ensures refused.Some? ==>
                old(transport.faults) < transport.faults || (Taken(store, req) && refused.value == Conflict(req))
    {
      hide Simulates, Lawful, Replay, LawfulRun, IsJournal;
      if !req.Exclusive() { return None; }
      TagsPresent(e, b, Now(), req.objectId, "");
      var tag := if req.PublishOnce() then AnchorTag(e, req.objectId) else LatestTag(e, req.objectId);
      var found := transport.ManifestExists(tag);
      if found.Err? { return Some(found.error); }
      refused := if found.value then Some(Conflict(req)) else None;
    }

    /** `_stored_for_reference`: in a repository that represents a store, the answer of the store. */
    method StoredForReference(id: string, digest: Option<Digest>) returns (r: Result<Resolved>)
      requires Valid()
      modifies transport`faults
      ensures Valid() && Steady() && Now() == old(Now())
      ensures r == Lookup(e, store, id, digest) || (r.Err? && old(transport.faults) < transport.faults)
    {
      hide Simulates, Lawful, Replay, LawfulRun, IsJournal, Lookup, Read;
      ReadNow(e, b, Now(), id, digest);
      r := ReadReference(id, digest);
    }

    /** The reads and checks of `_stored_for_reference`, whatever the registry holds. */
    method ReadReference(id: string, digest: Option<Digest>) returns (r: Result<Resolved>)
      requires transport.Valid() && transport.e == e && transport.b == b
      modifies transport`faults
      ensures old(transport.faults) <= transport.faults
      ensures var d := transport.registry.Snapshot();
              r == Read(e, b, d, d, d, id, digest) || (r.Err? && old(transport.faults) < transport.faults)
    {
      hide FetchManifest, FetchBlob, Checked, ManifestDescriptors;
      var doc := transport.GetManifest(TagFor(e, id, digest));
      if doc.Err? { return Err(doc.error); }
      var parts := ManifestDescriptors(doc.value.value);
      if parts.None? { return Err(DigestMismatch); }
      var bytes := transport.GetBlobBytes(parts.value.0, b.maxMetadataBytes);
      if bytes.Err? { return Err(bytes.error); }
      var found := Checked(e, doc.value, parts.value.1, bytes.value);
      if found.Err? { return Err(found.error); }
      var m := found.value.stored.metadata;
      if m.resource != b.resource || m.objectId != id { return Err(NotFound); }
      if digest.Some? && m.digest != digest.value { return Err(NotFound); }
      var anchor := transport.GetManifest(AnchorTag(e, id));
      if anchor.Err? { return Err(anchor.error); }
      CheckedKeepsDocument(e, doc.value, parts.value.1, bytes.value);
      if parts.value.2.digest != anchor.value.digest { return Err(DigestMismatch); }
      r := found;
    }

    /** The part of `_ensure_anchor` for a bound anchor tag: take it only if it is the anchor of this id. */
    method RecognizeAnchor(id: string) returns (r: Result<Descriptor>)
      requires transport.Valid() && transport.e == e && transport.b == b
      modifies transport`faults
      ensures old(transport.faults) <= transport.faults
      ensures var doc := FetchManifest(e, b, transport.registry.Snapshot(), AnchorTag(e, id));
              && (r.Ok? || transport.faults == old(transport.faults) ==>
                    r == if doc.Err? then Err(doc.error)
                         else if doc.value.value.artifactType != AnchorArtifact
                                 || doc.value.value.annotations != AnchorAnnotations(e.hash(e.utf8(id)))
                         then Err(ConditionalConflict)
                         else Ok(Descriptor("application/vnd.oci.image.manifest.v1+json", doc.value.digest,
                                            |doc.value.body|)))
    {
      hide FetchManifest, AnchorTag;
      var doc := transport.GetManifest(AnchorTag(e, id));
      if doc.Err? { return Err(doc.error); }
      var m := doc.value.value;
      if !m.artifactType.AnchorArtifact? || m.annotations != AnchorAnnotations(IdHash(e, id)) {
        return Err(ConditionalConflict);
      }
      r := Ok(Descriptor(MANIFEST_MEDIA_TYPE, doc.value.digest, |doc.value.body|));
    }

    /** `_ensure_anchor`. */
    method EnsureAnchor(id: string) returns (r: Result<Descriptor>)
      requires Valid()
      modifies this`store, this`trace, transport, transport.registry
      ensures Valid() && Steady() && journal == old(journal)
      ensures old(trace) <= trace <= old(trace) + AnchorPlan(e, b, old(Now()), id)
      ensures r.Ok? ==> trace == old(trace) + AnchorPlan(e, b, old(Now()), id) && r.value == AnchorDescriptor(e, id)
      ensures r.Ok? ==> id in old(store).anchored || AnchorFits(e, b, id)
      ensures r.Err? && transport.faults == old(transport.faults) ==>
                && trace == old(trace) + AnchorPlan(e, b, old(Now()), id)
                && id !in old(store).anchored && !AnchorFits(e, b, id) && r.error == OtherFailure
    {
      hide Simulates, Lawful, Replay, LawfulRun, IsJournal, AnchorBody, AnchorTag, Enabled;
      ghost var w, t := Now(), trace;
      TagsPresent(e, b, w, id, "");
      var tag := AnchorTag(e, id);
      var found := transport.ManifestExists(tag);
      if found.Err? { return Err(found.error); }
      if found.value {
        AnchorDocument(e, b, w, id);
        r := RecognizeAnchor(id);
        return;
      }
      ghost var blob := BlobPlan(e, w.data, EMPTY_JSON);
      ghost var bind := if AnchorFits(e, b, id) then [BindAnchor(id)] else [];
      var empty := EnsureBlob(EMPTY_JSON);
      StagePrefix(trace, t, blob, bind);
      if empty.Err? { return Err(empty.error); }
      var body := e.manifestText(AnchorManifest(e, IdHash(e, id)));
      assert body == AnchorBody(e, id) by { AnchorBodyText(e, id); }
      if |body| > b.maxManifestBytes { return Err(OtherFailure); }
      AnchorBindable(e, b, origin, t, w, id);
      r := BindManifest(BindAnchor(id), tag, body);
    }

    /** The branch of `_commit_object` for an exact version that is already published. */
    method CommitKnown(req: PutRequest, content: Identity) returns (res: Result<Metadata>)
      requires Valid() && VersionTag(e, req.objectId, content.digest) in Now().data.tags
      modifies this`store, this`trace, transport, transport.registry
      ensures Valid() && Steady() && journal == old(journal)
      ensures var key := Key(req.objectId, content.digest);
              var plan := if key !in old(store).versions then Plan([], Err(NotFound))
                          else Plan([BindLatest(old(store).versions[key])], Ok(old(store).versions[key].metadata));
              && old(trace) <= trace <= old(trace) + plan.events
              && (res.Ok? || transport.faults == old(transport.faults) ==>
                    trace == old(trace) + plan.events && res == plan.outcome)
    {
      hide Simulates, Lawful, Replay, LawfulRun, IsJournal, VersionBody, VersionTag, VersionManifest;
      var existing := StoredForReference(req.objectId, Some(content.digest));
      if existing.Err? { return Err(existing.error); }
      ghost var so := store.versions[Key(req.objectId, content.digest)];
      VersionWithinLimits(e, b, Now(), Key(req.objectId, content.digest));
      var bound := BindManifest(BindLatest(so), LatestTag(e, req.objectId), existing.value.manifest.body);
      if bound.Err? { return Err(bound.error); }
      res := Ok(existing.value.stored.metadata);
    }

    /** The rest of `_commit_object`: anchor, config, version, latest alias. */
    method CommitFresh(req: PutRequest, content: Identity, now: int) returns (res: Result<Metadata>)
      requires Valid() && ContentHeld(Now().data, content)
      requires VersionTag(e, req.objectId, content.digest) !in Now().data.tags
      modifies this`store, this`trace, transport, transport.registry
      ensures Valid() && Steady() && journal == old(journal)
      ensures var plan := FreshPlan(e, b, old(Now()), req, NewStored(b, req, content, now));
              && old(trace) <= trace <= old(trace) + plan.events
              && (res.Ok? || transport.faults == old(transport.faults) ==>
                    trace == old(trace) + plan.events && res == plan.outcome)
    {
      hide Simulates, Lawful, Replay, LawfulRun, IsJournal, VersionBody, VersionTag, AnchorPlan, BlobPlan, AnchorFits,
        Enabled;
      ghost var w, t := Now(), trace;
      var so := NewStored(b, req, content, now);
      ghost var anchorPlan := AnchorPlan(e, b, w, req.objectId);
      ghost var ground := Groundwork(e, b, w, req, so);
      ghost var plan := FreshPlan(e, b, w, req, so);
      ghost var ending := if plan.outcome.Ok? then [BindVersion(so), BindLatest(so)] else [];
      var anchor := EnsureAnchor(req.objectId);
      StagePrefix(trace, t, anchorPlan, ground[|anchorPlan|..]);
      StagePrefix(trace, t, ground, ending);
      if anchor.Err? { return Err(anchor.error); }
      if RESERVED_FIELD in req.provenance { return Err(InvalidRequest); }
      var config := e.configText(so);
      if |config| > b.maxMetadataBytes { return Err(InvalidRequest); }
      ReplaySplit(e, b, origin, t, anchorPlan);
      var uploaded := EnsureBlob(config);
      StagePrefix(trace, t, ground, ending);
      if uploaded.Err? { return Err(uploaded.error); }
      if !ValidMediaType(so.metadata.mediaType) { return Err(OtherFailure); }
      var body := e.manifestText(ObjectManifest(e, anchor.value, ConfigDescriptor(e, so), PayloadDescriptor(so),
                                                IdHash(e, req.objectId), now, so.metadata.mutability));
      VersionBodyText(e, so);
      if |body| > b.maxManifestBytes { return Err(OtherFailure); }
      res := PublishVersion(w, t, req, content, now, so, body);
    }

    /** The last two puts of `_commit_object`. */
    method PublishVersion(ghost w: World, ghost t: Trace, req: PutRequest, content: Identity, now: int,
                          so: StoredObject, body: Bytes) returns (res: Result<Metadata>)
      requires Valid() && Simulates(e, b, w) && w == Replay(e, origin, t) && ContentHeld(w.data, content)
      requires VersionTag(e, req.objectId, content.digest) !in w.data.tags
      requires so == NewStored(b, req, content, now) && body == VersionBody(e, so)
      requires FreshVerdict(e, b, w, req, so).Ok? && trace == t + Groundwork(e, b, w, req, so)
      modifies this`store, this`trace, transport, transport.registry
      ensures Valid() && Steady() && journal == old(journal)
      ensures old(trace) <= trace <= old(trace) + [BindVersion(so), BindLatest(so)]
      ensures res.Ok? || transport.faults == old(transport.faults) ==>
                trace == old(trace) + [BindVersion(so), BindLatest(so)] && res == Ok(so.metadata)
    {
      hide Simulates, Lawful, Replay, LawfulRun, IsJournal, VersionTag, Groundwork, VersionBody, FreshVerdict;
      ReplaySplit(e, b, origin, t, Groundwork(e, b, w, req, so));
      VersionBindable(e, b, w, req, content, now);
      ghost var t0 := trace;
      assert t0 + [BindVersion(so)] + [BindLatest(so)] == t0 + [BindVersion(so), BindLatest(so)];
      BodyWithinLimits(e, b, w, req, so);
      var exact := BindManifest(BindVersion(so), VersionTag(e, req.objectId, content.digest), body);
      if exact.Err? { return Err(exact.error); }
      var latest := BindManifest(BindLatest(so), LatestTag(e, req.objectId), body);
      if latest.Err? { return Err(latest.error); }
      res := Ok(so.metadata);
    }

    /** `_commit_object`: its effects are a prefix of the plan, all of it when it returns normally. */
    method CommitObject(req: PutRequest, content: Identity, now: int) returns (res: Result<Metadata>)
      requires Valid() && ContentHeld(Now().data, content)
      modifies this`store, this`trace, transport, transport.registry
      ensures Valid() && Steady() && journal == old(journal)
      ensures var plan := CommitPlan(e, b, old(Now()), req, content, now);
              && old(trace) <= trace <= old(trace) + plan.events
              && (res.Ok? || transport.faults == old(transport.faults) ==>
                    trace == old(trace) + plan.events && res == plan.outcome)
    {
      hide Simulates, Lawful, Replay, LawfulRun, IsJournal, VersionBody, VersionTag, FreshPlan, NewStored, Taken;
      var refused := RequireCreateAvailable(req);
      if refused.Some? { return Err(refused.value); }
      var tag := VersionTag(e, req.objectId, content.digest);
      TagsPresent(e, b, Now(), req.objectId, content.digest);
      var found := transport.ManifestExists(tag);
      if found.Err? { return Err(found.error); }
      if !found.value {
        res := CommitFresh(req, content, now);
      } else if req.Exclusive() {
        return Err(Conflict(req));
      } else {
        res := CommitKnown(req, content);
      }
    }

    /**
      The streaming loop of `_upload_payload`: hash and measure every chunk and send it on the open
      upload, if there is one. `ranges` are the byte ranges of the PATCH requests.
     */
    method StreamPayload(p: Payload, start: Option<UploadLocation>)
      returns (r: Result<Identity>, at: Option<UploadLocation>, ghost ranges: seq<(nat, nat)>)
      requires transport.Valid() && transport.e == e && transport.b == b && p.WellChunked()
      requires start.Some? ==> start.value.offset == 0 && start.value.upload in transport.registry.uploads
                               && transport.registry.uploads[start.value.upload] == []
      modifies transport`faults, transport.registry`uploads
      ensures transport.Valid() && old(transport.faults) <= transport.faults
      ensures OnlyTouched(old(transport.registry.uploads), transport.registry.uploads, UploadOf(start))
      ensures at.Some? <==> start.Some?
      ensures start.Some? ==> at.value.upload == start.value.upload
      ensures r.Ok? ==> Accepted(e, b, p) && r.value == IdentityOf(e, p.Content())
      ensures r.Ok? && at.Some? ==>
                && at.value.upload in transport.registry.uploads
                && transport.registry.uploads[at.value.upload] == p.Content()
                && at.value.offset == |p.Content()|
                && ranges == ChunkRanges(p.chunks)
      ensures r.Err? && transport.faults == old(transport.faults) ==> Rejection(e, b, p, r.error)
    {
      hide Concat, ChunkRanges, Streaming, Accepted, Rejection, Payload.WellChunked;
      var fed: Bytes, length: nat, i: nat, failure: Option<Error> := [], 0, 0, None;
      at, ranges := start, [];
      StreamingStarts(b, p, start, transport.registry.uploads);
      while i < |p.chunks| && failure.None?
        invariant 0 <= i <= |p.chunks| && transport.Valid() && old(transport.faults) <= transport.faults
        invariant OnlyTouched(old(transport.registry.uploads), transport.registry.uploads, UploadOf(start))
        invariant (at.Some? <==> start.Some?) && UploadOf(at) == UploadOf(start)
        invariant failure.None? ==> Streaming(b, p, i, fed, length, at, transport.registry.uploads, ranges)
        invariant failure.Some? && transport.faults == old(transport.faults) ==>
                    Rejection(e, b, p, failure.value)
        decreases |p.chunks| - i, failure.None?
      {
        var chunk := p.chunks[i];
        ghost var before, was := transport.registry.uploads, length;
        StreamingChunk(e, b, p, i, fed, length, at, before, ranges);
        length := length + |chunk|;
        // Reading the payload source may fail too.
        failure := transport.Falter();
        if failure.Some? {
        } else if length > b.maxObjectBytes {
          failure := Some(InvalidRequest);
        } else if p.expectedLength.Some? && length > p.expectedLength.value {
          failure := Some(IncompleteUpload);
        } else {
          var next;
          failure, next := transport.Forward(at, chunk, fed);
          ghost var more := if at.Some? then ranges + [(at.value.offset, next.value.offset)] else ranges;
          if failure.None? {
            StreamingStep(b, p, i, fed, was, at, before, ranges, next, transport.registry.uploads, more);
          }
          at, fed, i, ranges := next, fed + chunk, i + 1, more;
        }
      }
      if failure.Some? { return Err(failure.value), at, ranges; }
      StreamingEnds(e, b, p, i, fed, length, at, transport.registry.uploads, ranges);
      var content := Identity(e.hash(fed), length);
      var wrong := VerifyIdentity(p, content);
      r := if wrong.Some? then Err(wrong.value) else Ok(content);
    }

    /**
      One pass of `_upload_payload`: look for the declared blob, else open an upload; stream; verify;
      finalize. A pass that fails aborts the upload it opened. `begun` tells whether
      the pass got beyond looking for the blob, which is not repeated.
     */
    method UploadOnce(p: Payload) returns (r: Result<Identity>, begun: bool)
      requires Valid() && p.WellChunked()
      modifies this`store, this`trace, transport, transport.registry
      ensures Valid() && Steady() && journal == old(journal) && store == old(store)
      ensures trace == old(trace) || trace == old(trace) + [AddBlob(p.Content())]
      ensures Now() == old(Now()) || Now() == WithContent(e, old(Now()), p.Content())
      ensures r.Ok? ==> Now() == WithContent(e, old(Now()), p.Content())
      ensures r.Ok? ==> Accepted(e, b, p) && r.value == IdentityOf(e, p.Content())
      ensures r.Err? && transport.faults == old(transport.faults) ==> Rejection(e, b, p, r.error)
      ensures p.expectedDigest.None? ==> begun
      ensures p.expectedDigest.Some? && p.expectedDigest.value in old(Now()).data.blobs ==>
                trace == old(trace) && transport.issued == old(transport.issued)
    {
      hide Simulates, Lawful, Replay, LawfulRun, IsJournal, Concat, Accepted, Rejection;
      begun := true;
      var existing: Option<nat> := None;
      if p.expectedDigest.Some? {
        var head := transport.HeadBlob(p.expectedDigest.value);
        if head.Err? { return Err(head.error), false; }
        existing := head.value;
      }
      if existing.Some? {
        var none: Option<UploadLocation> := None;
        ghost var ranges;
        r, none, ranges := StreamPayload(p, None);
        if r.Err? { return; }
        KnownBlob(e, b, Now(), p);
        if existing.value != r.value.byteLength { return Err(DigestMismatch), true; }
        return;
      }
      r := UploadNew(p);
    }

    /** A pass that sends the bytes. */
    method UploadNew(p: Payload) returns (r: Result<Identity>)
      requires Valid() && p.WellChunked()
      modifies this`store, this`trace, transport, transport.registry
      ensures Valid() && Steady() && journal == old(journal) && store == old(store)
      ensures trace == old(trace) || trace == old(trace) + [AddBlob(p.Content())]
      ensures Now() == old(Now()) || Now() == WithContent(e, old(Now()), p.Content())
      ensures r.Ok? ==> Now() == WithContent(e, old(Now()), p.Content())
      ensures r.Ok? ==> Accepted(e, b, p) && r.value == IdentityOf(e, p.Content())
      ensures r.Err? && transport.faults == old(transport.faults) ==> Rejection(e, b, p, r.error)
    {
      hide Simulates, Lawful, Replay, LawfulRun, IsJournal, Concat, Accepted, Rejection, WithContent, IdentityOf;
      var started := transport.StartUpload();
      if started.Err? { return Err(started.error); }
      var at;
      r, at := SendPayload(p, started.value);
      OpenedAndDropped(old(transport.registry.uploads), at.upload, transport.registry.uploads);
      if r.Err? {
        transport.AbortSafely(at);
      }
    }

    /** Stream the payload on a fresh upload and finalize it; `at` is the upload to abort on failure. */
    method SendPayload(p: Payload, start: UploadLocation) returns (r: Result<Identity>, at: UploadLocation)
      requires Valid() && p.WellChunked() && start.upload in transport.issued
      requires start.offset == 0 && start.upload in transport.registry.uploads
               && transport.registry.uploads[start.upload] == []
      modifies this`store, this`trace, transport`faults, transport`finalized, transport.registry`uploads,
               transport.registry`blobs
      ensures Valid() && store == old(store) && at.upload == start.upload && old(transport.faults) <= transport.faults
      ensures trace == old(trace) || trace == old(trace) + [AddBlob(p.Content())]
      ensures Now() == old(Now()) || Now() == WithContent(e, old(Now()), p.Content())
      ensures r.Ok? ==>
                Now() == WithContent(e, old(Now()), p.Content()) && Accepted(e, b, p)
                && r.value == IdentityOf(e, p.Content())
      ensures transport.finalized ==
              if r.Ok? then old(transport.finalized) + {start.upload} else old(transport.finalized)
      ensures r.Err? && transport.faults == old(transport.faults) ==> Rejection(e, b, p, r.error)
      ensures OnlyTouched(old(transport.registry.uploads), transport.registry.uploads, Some(start.upload))
      ensures r.Ok? ==> start.upload !in transport.registry.uploads
    {
      hide Simulates, Lawful, Replay, LawfulRun, IsJournal, Concat, Accepted, Rejection, WithContent, ChunkRanges;
      var sent: Option<UploadLocation>;
      ghost var ranges;
      r, sent, ranges := StreamPayload(p, Some(start));
      at := sent.value;
      if r.Err? { return; }
      var done := FinishUpload(at, r.value.digest, p.Content());
      if done.Err? { r := Err(done.error); }
    }

    /** `finish_upload` of an upload that holds `content`. */
    method FinishUpload(at: UploadLocation, digest: Digest, ghost content: Bytes) returns (r: Result<()>)
      requires Valid() && at.upload in transport.registry.uploads && at.upload in transport.issued
      requires transport.registry.uploads[at.upload] == content && digest == e.hash(content)
      modifies this`store, this`trace, transport`faults, transport`finalized, transport.registry`uploads,
               transport.registry`blobs
      ensures Valid() && store == old(store) && old(transport.faults) <= transport.faults
      ensures trace == old(trace) || trace == old(trace) + [AddBlob(content)]
      ensures trace == old(trace) ==> Now() == old(Now())
      ensures trace == old(trace) + [AddBlob(content)] ==> Now() == WithContent(e, old(Now()), content)
      ensures r.Ok? ==>
                trace == old(trace) + [AddBlob(content)]
                && transport.finalized == old(transport.finalized) + {at.upload}
      ensures r.Err? ==> transport.finalized == old(transport.finalized) && old(transport.faults) < transport.faults
      ensures OnlyTouched(old(transport.registry.uploads), transport.registry.uploads, Some(at.upload))
      ensures r.Ok? ==> transport.registry.uploads == old(transport.registry.uploads) - {at.upload}
    {
      hide Simulates, Lawful, Replay, LawfulRun, IsJournal;
      ghost var before := transport.registry.Snapshot();
      assert content + [] == content;
      ghost var effect;
      r, effect := transport.Finalize(at, [], digest);
      if effect { Log(AddBlob(content), before); }
    }

    /** `_upload_payload`: at most two passes, and only the payload's own blob is ever added. */
    method UploadPayload(p: Payload) returns (r: Result<Identity>, begun: bool, ghost passes: nat)
      requires Valid() && p.WellChunked()
      modifies this`store, this`trace, transport, transport.registry
      ensures Valid() && Steady() && journal == old(journal) && store == old(store)
      ensures old(trace) <= trace && (forall n :: |old(trace)| <= n < |trace| ==> trace[n] == AddBlob(p.Content()))
      ensures 1 <= passes <= (if p.replayable then 2 else 1) && |trace| <= |old(trace)| + passes
      ensures p.replayable && begun && (r == Err(Unavailable) || r == Err(RateLimited)) ==> passes == 2
      ensures p.expectedDigest.None? ==> begun
      ensures p.expectedDigest.Some? && p.expectedDigest.value in old(Now()).data.blobs ==>
                trace == old(trace) && transport.issued == old(transport.issued)
      ensures r.Ok? ==> Now() == WithContent(e, old(Now()), p.Content())
      ensures r.Ok? ==> Accepted(e, b, p) && r.value == IdentityOf(e, p.Content())
      ensures r.Err? && transport.faults == old(transport.faults) ==> Rejection(e, b, p, r.error)
    {
      hide Simulates, Lawful, Replay, LawfulRun, IsJournal, Concat, Accepted, Rejection;
      var attempts := if p.replayable then 2 else 1;
      passes, begun := 0, true;
      for attempt := 0 to attempts
        invariant Valid() && Steady() && journal == old(journal) && store == old(store)
        invariant old(trace) <= trace && (forall n :: |old(trace)| <= n < |trace| ==> trace[n] == AddBlob(p.Content()))
        invariant passes == attempt && attempt < attempts && |trace| <= |old(trace)| + passes
        invariant Now() == old(Now()) || Now() == WithContent(e, old(Now()), p.Content())
        invariant p.expectedDigest.Some? && p.expectedDigest.value in old(Now()).data.blobs ==>
                    trace == old(trace) && transport.issued == old(transport.issued) && Now() == old(Now())
        invariant (passes > 0 ==> old(transport.faults) < transport.faults) && (p.expectedDigest.None? ==> begun)
      {
        r, begun := UploadOnce(p);
        passes := passes + 1;
        if r.Err? && Rejection(e, b, p, r.error) { RejectionFacts(e, b, p, r.error); }
        if r.Ok? || !begun || !Transient(r.error) || attempt + 1 == attempts { return; }
      }
      assert false;
    }

    /** Close the journal entry of a publication that started when the run was `before` long. */
    ghost method Enter(req: PutRequest, before: Trace, entries: seq<Entry>, ok: bool)
      requires Valid() && before <= trace && journal == entries && IsJournal(e, origin, before, entries)
      requires Explained(e, origin, trace, Entry(req, |before|, |trace|, ok))
      modifies this`journal
      ensures Valid() && journal == entries + [Entry(req, |before|, |trace|, ok)]
    {
      hide Simulates, Lawful, Replay, LawfulRun, IsJournal, Explained;
      assert trace == before + trace[|before|..];
      JournalGrows(e, origin, before, trace[|before|..], journal, Entry(req, |before|, |trace|, ok));
      journal := journal + [Entry(req, |before|, |trace|, ok)];
    }

    /**
      `_put`. Its effects are up to two copies of the payload blob and then a prefix of the commit
      plan: all of it when it returns normally, and whatever a failing request left otherwise.
     */
    method Put(req: PutRequest, p: Payload, now: int) returns (res: Result<Metadata>, ghost sent: Trace)
      requires Valid() && p.WellChunked()
      modifies this, transport, transport.registry
      ensures Valid() && Steady()
      ensures |sent| <= 2 && forall n :: 0 <= n < |sent| ==> sent[n] == AddBlob(p.Content())
      ensures Taken(old(store), req) ==> trace == old(trace)
      ensures p.expectedDigest.Some? && p.expectedDigest.value in old(Now()).data.blobs ==> sent == []
      ensures var w := WithContent(e, old(Now()), p.Content());
              var plan := CommitPlan(e, b, w, req, IdentityOf(e, p.Content()), now);
              && old(trace) + sent <= trace <= old(trace) + sent + plan.events
              && (res.Ok? ==>
                    && Accepted(e, b, p) && res == plan.outcome
                    && trace == old(trace) + sent + plan.events && Now() == Replay(e, w, plan.events))
              && (transport.faults == old(transport.faults) ==>
                    if Accepted(e, b, p) || Taken(old(store), req)
                    then res == plan.outcome && trace == old(trace) + sent + plan.events
                    else res.Err? && Rejection(e, b, p, res.error))
      ensures CrashConsistent(e, b, old(Now()), Now(), req, p.Content(), now)
      ensures transport.faults == old(transport.faults) && Accepted(e, b, p) ==>
                var w := WithContent(e, old(Now()), p.Content());
                var content := IdentityOf(e, p.Content());
                && store == Replay(e, w, CommitPlan(e, b, w, req, content, now).events).store
                && (req.objectId in store.anchored <==>
                    req.objectId in old(store).anchored || ReachesAnchor(e, b, w, req, content))
      ensures journal == old(journal) + [Entry(req, |old(trace)|, |trace|, res.Ok?)]
    {
      hide Simulates, Lawful, Replay, LawfulRun, IsJournal, Concat, Accepted, Rejection, Taken, WithContent, IdentityOf,
        CommitPlan, ReachesAnchor, CrashConsistent;
      ghost var w0, before, entries := Now(), trace, journal;
      ghost var w := WithContent(e, w0, p.Content());
      res, sent := PutUnlogged(req, p, now);
      if res.Ok? {
        ContentAdded(e, b, w0, p.Content());
        PublicationExplained(e, b, origin, before, sent, w, req, IdentityOf(e, p.Content()), now);
      }
      PrefixIsCrashConsistent(e, b, origin, before, trace, sent, req, p.Content(), now);
      Enter(req, before, entries, res.Ok?);
    }

    method PutUnlogged(req: PutRequest, p: Payload, now: int) returns (res: Result<Metadata>, ghost sent: Trace)
      requires Valid() && p.WellChunked()
      modifies this`store, this`trace, transport, transport.registry
      ensures Valid() && Steady() && journal == old(journal)
      ensures |sent| <= 2 && forall n :: 0 <= n < |sent| ==> sent[n] == AddBlob(p.Content())
      ensures Taken(old(store), req) ==> trace == old(trace)
      ensures p.expectedDigest.Some? && p.expectedDigest.value in old(Now()).data.blobs ==> sent == []
      ensures var w := WithContent(e, old(Now()), p.Content());
              var plan := CommitPlan(e, b, w, req, IdentityOf(e, p.Content()), now);
              && old(trace) + sent <= trace <= old(trace) + sent + plan.events
              && (res.Ok? ==>
                    && Accepted(e, b, p) && res == plan.outcome
                    && trace == old(trace) + sent + plan.events && Now() == Replay(e, w, plan.events))
              && (transport.faults == old(transport.faults) ==>
                    if Accepted(e, b, p) || Taken(old(store), req)
                    then res == plan.outcome && trace == old(trace) + sent + plan.events
                    else res.Err? && Rejection(e, b, p, res.error))
    {
      hide Simulates, Lawful, Replay, LawfulRun, IsJournal, Concat, Accepted, Rejection, Taken, FreshPlan;
      ghost var t := trace;
      sent := [];
      var refused := RequireCreateAvailable(req);
      if refused.Some? { return Err(refused.value), []; }
      ghost var passes;
      var uploaded, begun;
      uploaded, begun, passes := UploadPayload(p);
      sent := trace[|t|..];
      assert t + sent == trace;
      if uploaded.Err? {
        if Rejection(e, b, p, uploaded.error) { RejectionFacts(e, b, p, uploaded.error); }
        return Err(uploaded.error), sent;
      }
      assert ContentHeld(Now().data, uploaded.value);
      ghost var w, t1 := Now(), trace;
      res := CommitObject(req, uploaded.value, now);
      ReplaySplit(e, b, origin, t1, CommitPlan(e, b, w, req, uploaded.value, now).events);
    }

    /**
      The locked part of `complete_multipart`: check availability again, finalize the upload that holds
      `content`, commit. `machine` is how far the session's state machine got.
     */
    method PublishUpload(req: PutRequest, at: UploadLocation, content: Identity, now: int, ghost bytes: Bytes)
      returns (res: Result<Metadata>, machine: PutState)
      requires Valid() && at.upload in transport.registry.uploads && at.upload in transport.issued
      requires transport.registry.uploads[at.upload] == bytes && content == IdentityOf(e, bytes)
      modifies this`store, this`trace, transport, transport.registry
      ensures Valid() && journal == old(journal) && old(transport.faults) <= transport.faults
      ensures machine == Uploading || machine == Verifying || machine == Committed
      ensures transport.Open() == (if machine == Uploading then old(transport.Open())
                                   else old(transport.Open()) - {at.upload})
      ensures (res.Ok? <==> machine == Committed) && (machine == Uploading ==> store == old(store))
      ensures machine != Uploading ==> old(trace) + [AddBlob(bytes)] <= trace
      ensures Taken(old(store), req) ==> machine == Uploading && trace == old(trace)
      ensures transport.faults == old(transport.faults) ==>
                transport.registry.uploads ==
                (if machine == Uploading then old(transport.registry.uploads)
                 else old(transport.registry.uploads) - {at.upload})
      ensures old(transport.issued) <= transport.issued
      ensures forall u :: u in old(transport.registry.uploads) && u != at.upload ==>
                u in transport.registry.uploads && transport.registry.uploads[u] == old(transport.registry.uploads)[u]
      ensures var w := WithContent(e, old(Now()), bytes);
              var plan := CommitPlan(e, b, w, req, content, now);
              && old(trace) <= trace <= old(trace) + [AddBlob(bytes)] + plan.events
              && (res.Ok? ==>
                    && res == plan.outcome
                    && trace == old(trace) + [AddBlob(bytes)] + plan.events && Now() == Replay(e, w, plan.events))
              && (transport.faults == old(transport.faults) ==> res == plan.outcome)
    {
      hide Simulates, Lawful, Replay, LawfulRun, IsJournal, Taken, FreshPlan;
      machine := Uploading;
      var refused := RequireCreateAvailable(req);
      if refused.Some? { return Err(refused.value), machine; }
      var done := FinishUpload(at, content.digest, bytes);
      if done.Err? { return Err(done.error), machine; }
      machine := Verifying;
      assert ContentHeld(Now().data, content);
      ghost var w, t := Now(), trace;
      res := CommitObject(req, content, now);
      ReplaySplit(e, b, origin, t, CommitPlan(e, b, w, req, content, now).events);
      if res.Ok? { machine := Committed; }
    }

    /** `_delete`: removes exactly the named version, and only when its retention permits. */
    method Delete(id: string, digest: Digest, now: int) returns (res: Result<()>)
      requires Valid()
      modifies this`store, this`trace, transport, transport.registry
      ensures Valid() && Steady() && journal == old(journal)
      ensures var key := Key(id, digest);
              && ((trace == old(trace) && Now() == old(Now()))
                  || (key in old(store).versions
                      && trace == old(trace) + [Remove(old(store).versions[key], now)]
                      && Now() == Next(e, old(Now()), Remove(old(store).versions[key], now))))
              && (res.Ok? ==> trace != old(trace))
              && (res.Err? && transport.faults == old(transport.faults) ==> trace == old(trace))
              && (transport.faults == old(transport.faults) ==>
                    res == (if key !in old(store).versions then Err(NotFound)
                            else if !DeletePermitted(old(store).versions[key].retention, now) then Err(RetentionDenied)
                            else Ok(())))
    {
      hide Simulates, Lawful, Replay, LawfulRun, IsJournal, VersionBody, VersionTag, VersionManifest;
      var found := StoredForReference(id, Some(digest));
      if found.Err? { return Err(found.error); }
      var so := found.value.stored;
      if !DeletePermitted(so.retention, now) { return Err(RetentionDenied); }
      VersionBound(e, b, Now(), Key(id, digest));
      ghost var before := transport.registry.Snapshot();
      ghost var effect;
      var gone;
      gone, effect := transport.DeleteManifest(found.value.manifest.digest);
      if effect { Log(Remove(so, now), before); }
      if gone.Err? { return Err(gone.error); }
      if !gone.value { return Err(NotFound); }
      res := Ok(());
    }
  }

  lemma VersionBound(e: Env, b: Binding, w: World, k: Key)
    requires Simulates(e, b, w) && k in w.store.versions
    ensures KeyOf(w.store.versions[k]) == k && e.hash(VersionBody(e, w.store.versions[k])) in w.data.manifests
  {
    assert Complete(e, b, w, k);
  }

  lemma ContentAdded(e: Env, b: Binding, w: World, content: Bytes)
    requires Lawful(e) && Simulates(e, b, w)
    ensures Simulates(e, b, WithContent(e, w, content))
    ensures WithContent(e, w, content).store == w.store
    ensures ContentHeld(WithContent(e, w, content).data, IdentityOf(e, content))
  {
    hide Simulates;
    AddBlobStep(e, b, w, content);
  }

  lemma KnownBlob(e: Env, b: Binding, w: World, p: Payload)
    requires Lawful(e) && Simulates(e, b, w) && Accepted(e, b, p)
    requires p.expectedDigest.Some? && p.expectedDigest.value in w.data.blobs
    ensures w.data.blobs[p.expectedDigest.value] == p.Content()
    ensures WithContent(e, w, p.Content()) == w
  {
    BlobSizes(e, b, w, p.Content());
    assert w.data.blobs[e.hash(p.Content()) := p.Content()] == w.data.blobs;
  }

  lemma VersionWithinLimits(e: Env, b: Binding, w: World, k: Key)
    requires Simulates(e, b, w) && k in w.store.versions
    ensures |VersionBody(e, w.store.versions[k])| <= b.maxManifestBytes && KeyOf(w.store.versions[k]) == k
  {
    assert Complete(e, b, w, k);
  }

  lemma BodyWithinLimits(e: Env, b: Binding, w: World, req: PutRequest, so: StoredObject)
    requires FreshVerdict(e, b, w, req, so).Ok?
    ensures |VersionBody(e, so)| <= b.maxManifestBytes
  {
  }

  lemma VersionBodyText(e: Env, so: StoredObject)
    ensures VersionBody(e, so) ==
            e.manifestText(ObjectManifest(e, AnchorDescriptor(e, so.metadata.objectId), ConfigDescriptor(e, so),
                                          PayloadDescriptor(so), IdHash(e, so.metadata.objectId),
                                          so.metadata.createdAt, so.metadata.mutability))
  {
  }

  lemma AnchorBodyText(e: Env, id: string)
    ensures AnchorBody(e, id) == e.manifestText(AnchorManifest(e, IdHash(e, id)))
  {
  }

  lemma CheckedKeepsDocument(e: Env, doc: Document, payload: Descriptor, bytes: Bytes)
    ensures Checked(e, doc, payload, bytes).Ok? ==> Checked(e, doc, payload, bytes).value.manifest == doc
  {
  }

  /** The anchor of an anchored id is found, recognized and described by its own bytes. */
  lemma AnchorDocument(e: Env, b: Binding, w: World, id: string)
    requires Lawful(e) && Simulates(e, b, w) && id in w.store.anchored
    ensures FetchManifest(e, b, w.data, AnchorTag(e, id)) ==
            Ok(Document(AnchorBody(e, id), e.hash(AnchorBody(e, id)), AnchorManifest(e, IdHash(e, id))))
  {
    assert AnchorAgrees(e, b, w, id);
    FetchBound(e, b, w.data, AnchorTag(e, id), AnchorManifest(e, IdHash(e, id)));
  }

  /** Once the empty blob is stored, a missing anchor can be bound. */
  lemma AnchorBindable(e: Env, b: Binding, origin: World, t: Trace, w: World, id: string)
    requires Lawful(e) && Simulates(e, b, w) && w == Replay(e, origin, t)
    requires id !in w.store.anchored && AnchorFits(e, b, id)
    ensures Enabled(e, b, Replay(e, origin, t + BlobPlan(e, w.data, EMPTY_JSON)), BindAnchor(id))
  {
    hide Lawful, Simulates, Replay, LawfulRun, AnchorBody, BlobPlan;
    BlobsHashed(e, b, w);
    BlobStage(e, b, w, EMPTY_JSON);
    ReplaySplit(e, b, origin, t, BlobPlan(e, w.data, EMPTY_JSON));
  }

  lemma BlobSizes(e: Env, b: Binding, w: World, content: Bytes)
    requires Lawful(e) && Simulates(e, b, w)
    ensures e.hash(content) in w.data.blobs ==> w.data.blobs[e.hash(content)] == content
  {
    if e.hash(content) in w.data.blobs {
      assert e.preimage(e.hash(w.data.blobs[e.hash(content)])) == w.data.blobs[e.hash(content)];
      assert e.preimage(e.hash(content)) == content;
    }
  }

  /** Which tags exist, in terms of the abstract store. */
  lemma TagsPresent(e: Env, b: Binding, w: World, id: string, digest: Digest)
    requires Lawful(e) && Simulates(e, b, w)
    ensures Present(w.data, AnchorTag(e, id)) <==> id in w.store.anchored
    ensures Present(w.data, LatestTag(e, id)) <==> id in w.store.latest
    ensures Present(w.data, AnchorTag(e, id)) <==> AnchorTag(e, id) in w.data.tags
    ensures Present(w.data, LatestTag(e, id)) <==> LatestTag(e, id) in w.data.tags
    ensures Present(w.data, VersionTag(e, id, digest)) <==> VersionTag(e, id, digest) in w.data.tags
  {
    hide VersionBody, VersionTag, LatestTag, AnchorTag, AnchorBody;
    assert AnchorAgrees(e, b, w, id) && AliasAgrees(e, w, id);
    if VersionTag(e, id, digest) in w.data.tags {
      var k := TagTarget(e, b, w, id, Some(digest));
    }
  }

  predicate Present(d: Data, tag: Tag) { tag in d.tags && d.tags[tag] in d.manifests }

  /** A prefix of one stage is a prefix of the stages together. */
  lemma StagePrefix(x: Trace, s: Trace, a: Trace, c: Trace)
    requires x <= s + a
    ensures x <= s + (a + c) && s + a <= s + (a + c) && s + (a + c) == s + a + c
  {
    assert s + (a + c) == (s + a) + c;
  }
}
