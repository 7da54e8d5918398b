/**
  `_commit_object` and `_ensure_anchor` as a plan: the effects they have, in order, when no request
  fails, and the result they then return. A failing request cuts the plan short, so every crash
  point of a put is a prefix of its plan.
 */
module Plan {
  import opened Prelude
  import opened Models
  import opened Naming
  import opened Store
  import opened Runs

  datatype Plan = Plan(events: Trace, outcome: Result<Metadata>)

  const RESERVED_FIELD := "meridianAdapter"

  function Conflict(req: PutRequest): Error {
    if req.PublishOnce() then ImmutableConflict else ConditionalConflict
  }

  /** `_require_create_available` refuses. */
  predicate Taken(st: Store, req: PutRequest) {
    req.Exclusive() && (if req.PublishOnce() then req.objectId in st.anchored else req.objectId in st.latest)
  }

  function NewStored(b: Binding, req: PutRequest, content: Identity, now: int): StoredObject {
    StoredObject(
      Metadata(b.resource, req.objectId, content.digest, content.digest, content.byteLength, req.mediaType, now,
               req.creationContext, req.userMetadata, req.Policy().mutability,
               req.provenance[RESERVED_FIELD := b.adapterStamp]),
      req.Policy(), req.retention)
  }

  /** `upload_blob_bytes`. */
  function BlobPlan(e: Env, d: Data, content: Bytes): Trace {
    if e.hash(content) in d.blobs then [] else [AddBlob(content)]
  }

  /** `_ensure_anchor`. */
  function AnchorPlan(e: Env, b: Binding, w: World, id: string): Trace {
    if id in w.store.anchored then []
    else BlobPlan(e, w.data, EMPTY_JSON) + (if AnchorFits(e, b, id) then [BindAnchor(id)] else [])
  }

  predicate AnchorFits(e: Env, b: Binding, id: string) { |AnchorBody(e, id)| <= b.maxManifestBytes }

  /** The result of committing a version whose exact tag is free. */
  function FreshVerdict(e: Env, b: Binding, w: World, req: PutRequest, so: StoredObject): Result<Metadata> {
    if req.objectId !in w.store.anchored && !AnchorFits(e, b, req.objectId) then Err(OtherFailure)
    else if RESERVED_FIELD in req.provenance then Err(InvalidRequest)
    else if |e.configText(so)| > b.maxMetadataBytes then Err(InvalidRequest)
    else if !ValidMediaType(so.metadata.mediaType) || |VersionBody(e, so)| > b.maxManifestBytes then Err(OtherFailure)
    else Ok(so.metadata)
  }

  /** The metadata config is uploaded once the anchor is in place and the request is acceptable. */
  predicate ReachesConfig(e: Env, b: Binding, w: World, req: PutRequest, so: StoredObject) {
    && (req.objectId in w.store.anchored || AnchorFits(e, b, req.objectId))
    && RESERVED_FIELD !in req.provenance
    && |e.configText(so)| <= b.maxMetadataBytes
  }

  /** Anchor and config: everything before the version becomes visible. */
  function Groundwork(e: Env, b: Binding, w: World, req: PutRequest, so: StoredObject): Trace {
    var anchor := AnchorPlan(e, b, w, req.objectId);
    anchor + (if ReachesConfig(e, b, w, req, so) then BlobPlan(e, Replay(e, w, anchor).data, e.configText(so)) else [])
  }

  function FreshPlan(e: Env, b: Binding, w: World, req: PutRequest, so: StoredObject): Plan {
    var verdict := FreshVerdict(e, b, w, req, so);
    Plan(Groundwork(e, b, w, req, so) + (if verdict.Ok? then [BindVersion(so), BindLatest(so)] else []), verdict)
  }

  function CommitPlan(e: Env, b: Binding, w: World, req: PutRequest, content: Identity, now: int): Plan {
    var key := Key(req.objectId, content.digest);
    if Taken(w.store, req) then Plan([], Err(Conflict(req)))
    else if TagOf(e, key) !in w.data.tags then FreshPlan(e, b, w, req, NewStored(b, req, content, now))
    else if req.Exclusive() then Plan([], Err(Conflict(req)))
    else if key !in w.store.versions then Plan([], Err(NotFound))
    else Plan([BindLatest(w.store.versions[key])], Ok(w.store.versions[key].metadata))
  }

  /** The payload blob of `content` is in the repository. */
  predicate ContentHeld(d: Data, content: Identity) {
    content.digest in d.blobs && |d.blobs[content.digest]| == content.byteLength
  }

  // ----- stages -----

  lemma OneStep(e: Env, b: Binding, w: World, ev: Event)
    ensures Replay(e, w, [ev]) == Next(e, w, ev)
    ensures LawfulRun(e, b, w, [ev]) <==> Enabled(e, b, w, ev)
  {
    hide Next, Enabled;
    assert [ev][..0] == [];
    assert Replay(e, w, []) == w;
  }

  /** Uploading a blob only adds it. */
  lemma BlobStage(e: Env, b: Binding, w: World, content: Bytes)
    requires Lawful(e) && BlobsAddressed(e, w.data)
    ensures var t := BlobPlan(e, w.data, content);
            var end := Replay(e, w, t);
            && LawfulRun(e, b, w, t) && end.store == w.store
            && end.data.tags == w.data.tags && end.data.manifests == w.data.manifests
            && Held(e, end.data, content)
            && (forall d :: d in w.data.blobs ==> d in end.data.blobs && end.data.blobs[d] == w.data.blobs[d])
  {
    OneStep(e, b, w, AddBlob(content));
    StepKeepsBlobs(e, w, AddBlob(content));
    if e.hash(content) in w.data.blobs {
      assert e.preimage(e.hash(w.data.blobs[e.hash(content)])) == w.data.blobs[e.hash(content)];
      assert e.preimage(e.hash(content)) == content;
      assert Replay(e, w, []) == w;
    }
  }

  /** Ensuring the anchor changes nothing but the anchored flag, and binds no version tag. */
  lemma AnchorStage(e: Env, b: Binding, w: World, id: string)
    requires Lawful(e) && Simulates(e, b, w)
    ensures var t := AnchorPlan(e, b, w, id);
            var end := Replay(e, w, t);
            && LawfulRun(e, b, w, t)
            && end.store == (if AnchorFits(e, b, id) then w.store.(anchored := w.store.anchored + {id}) else w.store)
            && (forall tag :: tag in end.data.tags && IsVersionTag(tag) ==> tag in w.data.tags)
            && (forall d :: d in w.data.blobs ==> d in end.data.blobs && end.data.blobs[d] == w.data.blobs[d])
  {
    hide Lawful, AnchorBody, AnchorTag, VersionTag, LatestTag, VersionBody, IsVersionTag;
    var blob := BlobPlan(e, w.data, EMPTY_JSON);
    var mid := Replay(e, w, blob);
    BlobStage(e, b, w, EMPTY_JSON);
    if id in w.store.anchored {
      AnchorFitsOnce(e, b, w, id);
      assert w.store.anchored + {id} == w.store.anchored;
      assert Replay(e, w, []) == w;
    } else if AnchorFits(e, b, id) {
      ReplaySplit(e, b, w, blob, [BindAnchor(id)]);
      OneStep(e, b, mid, BindAnchor(id));
      TagFamiliesDisjoint(e, id, id, "");
    } else {
      assert blob + [] == blob;
    }
  }

  lemma AnchorFitsOnce(e: Env, b: Binding, w: World, id: string)
    requires Simulates(e, b, w) && id in w.store.anchored
    ensures AnchorFits(e, b, id)
  {
    assert AnchorAgrees(e, b, w, id);
  }

  /** The groundwork is lawful, keeps everything visible, and leaves the exact tag free and the config held. */
  lemma GroundworkStage(e: Env, b: Binding, w: World, req: PutRequest, so: StoredObject)
    requires Lawful(e) && Simulates(e, b, w)
    ensures var t := Groundwork(e, b, w, req, so);
            var end := Replay(e, w, t);
            && LawfulRun(e, b, w, t)
            && end.store == (if AnchorFits(e, b, req.objectId)
                             then w.store.(anchored := w.store.anchored + {req.objectId}) else w.store)
            && (forall tag :: tag in end.data.tags && IsVersionTag(tag) ==> tag in w.data.tags)
            && (forall d :: d in w.data.blobs ==> d in end.data.blobs && end.data.blobs[d] == w.data.blobs[d])
            && (ReachesConfig(e, b, w, req, so) ==> Held(e, end.data, e.configText(so)))
  {
    hide AnchorPlan, AnchorFits, IsVersionTag, Simulates, Lawful;
    var anchor := AnchorPlan(e, b, w, req.objectId);
    var mid := Replay(e, w, anchor);
    AnchorStage(e, b, w, req.objectId);
    RunSimulates(e, b, w, anchor);
    BlobsHashed(e, b, mid);
    if ReachesConfig(e, b, w, req, so) {
      BlobStage(e, b, mid, e.configText(so));
      ReplaySplit(e, b, w, anchor, BlobPlan(e, mid.data, e.configText(so)));
    } else {
      assert anchor + [] == anchor;
    }
  }

  lemma BlobsHashed(e: Env, b: Binding, w: World)
    requires Simulates(e, b, w)
    ensures BlobsAddressed(e, w.data)
  {
  }

  /** What a successful put does to the abstract store. */
  function Published(st: Store, so: StoredObject): Store {
    Store(st.versions[KeyOf(so) := so], st.latest[so.metadata.objectId := so.metadata.digest],
          st.anchored + {so.metadata.objectId})
  }

  /** Publishing a version and its latest alias on top of the groundwork. */
  lemma PublishStage(e: Env, b: Binding, w: World, so: StoredObject)
    requires Enabled(e, b, w, BindVersion(so))
    ensures LawfulRun(e, b, w, [BindVersion(so), BindLatest(so)])
    ensures Replay(e, w, [BindVersion(so)]).store == w.store.(versions := w.store.versions[KeyOf(so) := so])
    ensures Replay(e, w, [BindVersion(so), BindLatest(so)]).store == Published(w.store, so)
  {
    hide Apply, VersionBody, VersionTag;
    var mid := Next(e, w, BindVersion(so));
    OneStep(e, b, w, BindVersion(so));
    OneStep(e, b, mid, BindLatest(so));
    ReplaySplit(e, b, w, [BindVersion(so)], [BindLatest(so)]);
    assert [BindVersion(so)] + [BindLatest(so)] == [BindVersion(so), BindLatest(so)];
    assert w.store.anchored + {so.metadata.objectId} == w.store.anchored;
  }

  /** After the groundwork of an acceptable request, the version can be bound. */
  lemma VersionBindable(e: Env, b: Binding, w: World, req: PutRequest, content: Identity, now: int)
    requires Lawful(e) && Simulates(e, b, w) && ContentHeld(w.data, content)
    requires TagOf(e, Key(req.objectId, content.digest)) !in w.data.tags
    requires FreshVerdict(e, b, w, req, NewStored(b, req, content, now)).Ok?
    ensures var so := NewStored(b, req, content, now);
            Enabled(e, b, Replay(e, w, Groundwork(e, b, w, req, so)), BindVersion(so))
  {
    hide Groundwork, Lawful, Simulates, VersionBody, VersionTag, IsVersionTag;
    var so := NewStored(b, req, content, now);
    GroundworkStage(e, b, w, req, so);
    TagFamiliesDisjoint(e, "", req.objectId, content.digest);
    if req.objectId in w.store.anchored { AnchorFitsOnce(e, b, w, req.objectId); }
  }

  /** The version a successful put publishes: the one already stored, else the new record. */
  function Target(e: Env, b: Binding, w: World, req: PutRequest, content: Identity, now: int): StoredObject {
    var key := Key(req.objectId, content.digest);
    if TagOf(e, key) in w.data.tags && key in w.store.versions then w.store.versions[key]
    else NewStored(b, req, content, now)
  }

  lemma FreshPlanRuns(e: Env, b: Binding, w: World, req: PutRequest, content: Identity, now: int)
    requires Lawful(e) && Simulates(e, b, w) && ContentHeld(w.data, content)
    requires TagOf(e, Key(req.objectId, content.digest)) !in w.data.tags
    ensures var so := NewStored(b, req, content, now);
            var plan := FreshPlan(e, b, w, req, so);
            && LawfulRun(e, b, w, plan.events)
            && (plan.outcome.Ok? ==>
                  Replay(e, w, plan.events).store == Published(w.store, so) && plan.outcome.value == so.metadata)
  {
    hide Groundwork, Lawful, Simulates, VersionBody, VersionTag, IsVersionTag, Enabled, ReachesConfig;
    var so := NewStored(b, req, content, now);
    var ground := Groundwork(e, b, w, req, so);
    GroundworkStage(e, b, w, req, so);
    if FreshVerdict(e, b, w, req, so).Ok? {
      VersionBindable(e, b, w, req, content, now);
      PublishStage(e, b, Replay(e, w, ground), so);
      ReplaySplit(e, b, w, ground, [BindVersion(so), BindLatest(so)]);
      if req.objectId in w.store.anchored { AnchorFitsOnce(e, b, w, req.objectId); }
      assert w.store.anchored + {req.objectId} + {req.objectId} == w.store.anchored + {req.objectId};
    } else {
      assert ground + [] == ground;
    }
  }

  /**
    A commit only ever takes enabled steps, and a successful one changes the abstract store by
    exactly one publication.
   */
  lemma CommitPlanRuns(e: Env, b: Binding, w: World, req: PutRequest, content: Identity, now: int)
    requires Lawful(e) && Simulates(e, b, w) && ContentHeld(w.data, content)
    ensures var plan := CommitPlan(e, b, w, req, content, now);
            && LawfulRun(e, b, w, plan.events)
            && (plan.outcome.Ok? ==>
                  && Replay(e, w, plan.events).store == Published(w.store, Target(e, b, w, req, content, now))
                  && plan.outcome.value == Target(e, b, w, req, content, now).metadata)
  {
    hide FreshPlan, Lawful, VersionBody, VersionTag, AnchorBody, AnchorTag, LatestTag;
    var key := Key(req.objectId, content.digest);
    if TagOf(e, key) !in w.data.tags {
      FreshPlanRuns(e, b, w, req, content, now);
    } else if key in w.store.versions {
      assert Complete(e, b, w, key);
      var so := w.store.versions[key];
      OneStep(e, b, w, BindLatest(so));
      assert w.store.versions[key := so] == w.store.versions;
      assert w.store.anchored + {key.id} == w.store.anchored;
    }
  }
}
