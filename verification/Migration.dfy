/** Logical export and import (migration.py), and what a published object's bytes are. */
module Migration {
  import opened Prelude
  import opened Models
  import opened Naming
  import opened Store
  import opened Resolve
  import opened Runs
  import opened Plan
  import opened Crash
  import opened Journal
  import opened Payloads
  import opened Adapter
  import opened Stream

  datatype LogicalExport = LogicalExport(
    metadata: Metadata, payload: Payload, immutability: Immutability, retention: Option<Retention>)

  /** The put that `import_logical` issues: everything portable, without the source adapter's stamp. */
  function ImportRequest(x: LogicalExport, createOnly: bool): PutRequest {
    PutRequest(x.metadata.objectId, createOnly, Some(x.immutability), x.retention, x.metadata.mediaType,
               Some(x.metadata.digest), Some(x.metadata.byteLength), x.metadata.creationContext,
               x.metadata.userMetadata, x.metadata.provenance - {RESERVED_FIELD})
  }

  /** The version as it should appear in the target. */
  function Migrated(b: Binding, so: StoredObject, now: int): StoredObject {
    so.(metadata := so.metadata.(
        resource := b.resource, createdAt := now,
        provenance := so.metadata.provenance[RESERVED_FIELD := b.adapterStamp]))
  }

  /** Migration changes the resource, the creation time and the adapter stamp of a record, and nothing else. */
  lemma MigratedKeeps(b: Binding, so: StoredObject, now: int)
    ensures var was, m := so.metadata, Migrated(b, so, now).metadata;
            && m.resource == b.resource && m.createdAt == now
            && m.objectId == was.objectId && m.digest == was.digest && m.refDigest == was.refDigest
            && m.byteLength == was.byteLength && m.mediaType == was.mediaType && m.mutability == was.mutability
            && m.creationContext == was.creationContext && m.userMetadata == was.userMetadata
            && "meridianAdapter" in m.provenance && m.provenance["meridianAdapter"] == b.adapterStamp
            && m.provenance - {"meridianAdapter"} == was.provenance - {"meridianAdapter"}
    ensures Migrated(b, so, now).immutability == so.immutability && Migrated(b, so, now).retention == so.retention
  {
  }

  /** How a reader cuts bytes into chunks: nothing lost, no empty chunk. */
  ghost predicate Cuts(cut: Bytes -> seq<Bytes>) {
    forall v :: Concat(cut(v)) == v && forall n :: 0 <= n < |cut(v)| ==> cut(v)[n] != []
  }

  /** `export_logical`. */
  method ExportLogical(a: Adapter, id: string, digest: Option<Digest>, cut: Bytes -> seq<Bytes>)
    returns (r: Result<LogicalExport>)
    requires a.Valid() && Cuts(cut)
    modifies a.transport`faults
    ensures a.Valid() && a.Now() == old(a.Now())
    ensures r.Ok? ==>
              var k := Key(id, r.value.metadata.digest);
              && k in a.store.versions && (digest.Some? ==> k.digest == digest.value)
              && Exports(a.Now(), k, r.value)
              && r.value.payload.expectedLength == Some(|r.value.payload.Content()|)
              && r.value.payload.expectedDigest == Some(k.digest) && r.value.payload.replayable
    ensures old(a.transport.faults) <= a.transport.faults
    ensures a.transport.faults == old(a.transport.faults) ==>
              (r.Ok? <==> if digest.Some? then Key(id, digest.value) in a.store.versions else id in a.store.latest)
    ensures r.Err? && a.transport.faults == old(a.transport.faults) ==> r.error == NotFound
    ensures r.Ok? && digest.None? ==>
              id in a.store.latest && r.value.metadata.digest == a.store.latest[id]
  {
    hide Simulates, Lawful, Replay, LawfulRun, IsJournal, VersionBody, VersionManifest, Concat;
    StoredParts(a.e, a.b, a.Now());
    LatestDigest(a.e, a.b, a.Now(), id);
    var found := a.StoredForReference(id, digest);
    if found.Err? { return Err(found.error); }
    var so, d := found.value.stored, found.value.payload;
    var bytes := a.transport.registry.blobs[d.digest];
    r := Ok(LogicalExport(so.metadata, Payload(cut(bytes), true, Some(d.size), Some(d.digest)), so.immutability,
                          so.retention));
  }

  lemma StoredParts(e: Env, b: Binding, w: World)
    requires Simulates(e, b, w)
    ensures forall k :: k in w.store.versions ==>
              && KeyOf(w.store.versions[k]) == k && k.digest in w.data.blobs
              && |w.data.blobs[k.digest]| == w.store.versions[k].metadata.byteLength
  {
    hide VersionBody, VersionTag;
    assert forall k :: k in w.store.versions ==> Complete(e, b, w, k);
  }

  /** The export carries version `k` of the world and its bytes. */
  ghost predicate Exports(w: World, k: Key, x: LogicalExport)
    requires k in w.store.versions
  {
    var so := w.store.versions[k];
    && x.metadata == so.metadata && x.immutability == so.immutability && x.retention == so.retention
    && k.digest in w.data.blobs && x.payload.Content() == w.data.blobs[k.digest] && x.payload.WellChunked()
  }

  /** What the import publishes when the version is new to the target. */
  lemma ImportedRecord(e: Env, source: Binding, b: Binding, w: World, k: Key, x: LogicalExport, createOnly: bool,
                       now: int)
    requires Lawful(e) && Simulates(e, source, w) && k in w.store.versions && Exports(w, k, x)
    ensures NewStored(b, ImportRequest(x, createOnly), IdentityOf(e, x.payload.Content()), now) ==
            Migrated(b, w.store.versions[k], now)
    ensures IdentityOf(e, x.payload.Content()) == Identity(k.digest, x.metadata.byteLength)
  {
    hide VersionBody, VersionTag, Lawful;
    assert Complete(e, source, w, k);
    var p := x.metadata.provenance;
    assert (p - {RESERVED_FIELD})[RESERVED_FIELD := b.adapterStamp] == p[RESERVED_FIELD := b.adapterStamp];
  }

  /**
    Migration: importing an export into a repository where the id was never published makes both
    references of the target read the same object, differing only in resource, creation time and the
    adapter stamp, with the same bytes.
   */
  lemma MigrationPreserves(e: Env, source: Binding, b: Binding, from: World, w: World, k: Key, x: LogicalExport,
                           createOnly: bool, now: int)
    requires Lawful(e) && Simulates(e, source, from) && k in from.store.versions && Exports(from, k, x)
    requires Simulates(e, b, w) && k.id !in w.store.anchored
    requires var at := WithContent(e, w, x.payload.Content());
             CommitPlan(e, b, at, ImportRequest(x, createOnly), IdentityOf(e, x.payload.Content()), now).outcome.Ok?
    ensures var at := WithContent(e, w, x.payload.Content());
            var plan := CommitPlan(e, b, at, ImportRequest(x, createOnly), IdentityOf(e, x.payload.Content()), now);
            var end := Replay(e, at, plan.events);
            var so := Migrated(b, from.store.versions[k], now);
            && plan.outcome.value == so.metadata
            && Read(e, b, end.data, end.data, end.data, k.id, Some(k.digest)) == Ok(Resolve.View(e, so))
            && Read(e, b, end.data, end.data, end.data, k.id, None) == Ok(Resolve.View(e, so))
            && k.digest in end.data.blobs && end.data.blobs[k.digest] == from.data.blobs[k.digest]
  {
    hide Simulates, Lawful, Replay, LawfulRun, Read, CommitPlan, NewStored, Migrated, WithContent, IdentityOf;
    var content := x.payload.Content();
    var req, id := ImportRequest(x, createOnly), IdentityOf(e, content);
    var at := WithContent(e, w, content);
    ContentAdded(e, b, w, content);
    ImportedRecord(e, source, b, from, k, x, createOnly, now);
    KeyMatches(e, source, from, k, x);
    NewToTarget(e, b, at, req, id, now);
    SuccessIsPublished(e, b, at, req, id, now);
    CommitPlanRuns(e, b, at, req, id, now);
    PublishedBytes(e, b, w, req, content, now);
  }

  /** An exported payload is what it declares, so only its size can be in the way. */
  lemma ExportAccepted(e: Env, source: Binding, b: Binding, w: World, k: Key, x: LogicalExport)
    requires Simulates(e, source, w) && k in w.store.versions && Exports(w, k, x)
    requires x.payload.expectedLength == Some(|x.payload.Content()|) && x.payload.expectedDigest == Some(k.digest)
    ensures Accepted(e, b, x.payload) <==> w.store.versions[k].metadata.byteLength <= b.maxObjectBytes
    ensures x.payload.WellChunked()
  {
    hide VersionBody, VersionTag;
    assert Complete(e, source, w, k);
  }

  lemma KeyMatches(e: Env, b: Binding, w: World, k: Key, x: LogicalExport)
    requires Simulates(e, b, w) && k in w.store.versions && Exports(w, k, x)
    ensures x.metadata.objectId == k.id && x.metadata.digest == k.digest && e.hash(x.payload.Content()) == k.digest
  {
    hide VersionBody, VersionTag;
    assert Complete(e, b, w, k);
  }

  /** A put of an id that was never anchored publishes its own record. */
  lemma NewToTarget(e: Env, b: Binding, w: World, req: PutRequest, content: Identity, now: int)
    requires Simulates(e, b, w) && req.objectId !in w.store.anchored
    ensures Target(e, b, w, req, content, now) == NewStored(b, req, content, now)
  {
    hide VersionBody, VersionTag, NewStored;
    assert forall k :: k in w.store.versions ==> Complete(e, b, w, k);
  }

  /** After a successful put the payload blob of its digest holds exactly the bytes that were put. */
  lemma PublishedBytes(e: Env, b: Binding, w: World, req: PutRequest, content: Bytes, now: int)
    requires Lawful(e) && Simulates(e, b, w)
    ensures var at := WithContent(e, w, content);
            var end := Replay(e, at, CommitPlan(e, b, at, req, IdentityOf(e, content), now).events);
            e.hash(content) in end.data.blobs && end.data.blobs[e.hash(content)] == content
  {
    hide Simulates, Lawful, Replay, LawfulRun, CommitPlan;
    var at := WithContent(e, w, content);
    ContentAdded(e, b, w, content);
    CommitPlanRuns(e, b, at, req, IdentityOf(e, content), now);
    RunKeeps(e, b, at, CommitPlan(e, b, at, req, IdentityOf(e, content), now).events);
  }

  /**
    Bytes round trip: after a successful put of a payload, and whatever lawful effects follow, a get of
    its exact reference that is still answered names a blob whose response, however chunked and read in
    pieces of whatever sizes, yields the payload.
   */
  lemma BytesRoundTrip(e: Env, b: Binding, w: World, req: PutRequest, content: Bytes, now: int,
                       end: World, later: Trace, last: World, response: seq<Bytes>, sizes: seq<int>)
    requires Lawful(e) && Simulates(e, b, w)
    requires end == Replay(e, WithContent(e, w, content),
                           CommitPlan(e, b, WithContent(e, w, content), req, IdentityOf(e, content), now).events)
    requires LawfulRun(e, b, end, later) && last == Replay(e, end, later)
    requires Lookup(e, last.store, req.objectId, Some(e.hash(content))).Ok?
    requires ServedFrom(last.data, Lookup(e, last.store, req.objectId, Some(e.hash(content))).value.payload.digest,
                        response)
    requires Exhausts(Concat(response), sizes)
    ensures Concat(ServedAll(Concat(response), sizes)) == content
  {
    hide Simulates, Lawful, Replay, LawfulRun, CommitPlan, View, Lookup, Exhausts, Concat, WithContent;
    var at := WithContent(e, w, content);
    var plan := CommitPlan(e, b, at, req, IdentityOf(e, content), now);
    ContentAdded(e, b, w, content);
    CommitPlanRuns(e, b, at, req, IdentityOf(e, content), now);
    RunSimulates(e, b, at, plan.events);
    PublishedBytes(e, b, w, req, content, now);
    RunKeeps(e, b, end, later);
    RunSimulates(e, b, end, later);
    LookupDigest(e, b, last, req.objectId, e.hash(content));
    PiecesCoverBody(Concat(response), sizes);
  }

  /** A response streams the blob of a digest. */
  ghost predicate ServedFrom(d: Data, digest: Digest, response: seq<Bytes>) {
    digest in d.blobs && Concat(response) == d.blobs[digest]
  }

  lemma LookupDigest(e: Env, b: Binding, w: World, id: string, digest: Digest)
    requires Simulates(e, b, w) && Lookup(e, w.store, id, Some(digest)).Ok?
    ensures Lookup(e, w.store, id, Some(digest)).value.payload.digest == digest
  {
    hide VersionBody, VersionTag;
    assert forall k :: k in w.store.versions ==> Complete(e, b, w, k);
  }

  /** `import_logical`. */
  method ImportLogical(a: Adapter, x: LogicalExport, createOnly: bool, now: int) returns (res: Result<Metadata>)
    requires a.Valid() && x.payload.WellChunked()
    modifies a, a.transport, a.transport.registry
    ensures a.Valid()
    ensures res.Ok? ==>
              var at := WithContent(a.e, old(a.Now()), x.payload.Content());
              var plan := CommitPlan(a.e, a.b, at, ImportRequest(x, createOnly), IdentityOf(a.e, x.payload.Content()),
                                     now);
              res == plan.outcome && a.Now() == Replay(a.e, at, plan.events)
    ensures a.transport.faults == old(a.transport.faults) ==>
              var at := WithContent(a.e, old(a.Now()), x.payload.Content());
              var plan := CommitPlan(a.e, a.b, at, ImportRequest(x, createOnly), IdentityOf(a.e, x.payload.Content()),
                                     now);
              if Accepted(a.e, a.b, x.payload) then res == plan.outcome else res.Err?
  {
    hide Simulates, Lawful, Replay, LawfulRun, CommitPlan, WithContent, IsJournal, Concat, Accepted, Rejection, Taken,
      ReachesAnchor, CrashConsistent;
    TakenRefuses(a.e, a.b, WithContent(a.e, a.Now(), x.payload.Content()), a.Now(), ImportRequest(x, createOnly),
                 x.payload.Content(), now);
    ghost var sent;
    res, sent := a.Put(ImportRequest(x, createOnly), x.payload, now);
  }

  lemma TakenRefuses(e: Env, b: Binding, at: World, w: World, req: PutRequest, content: Bytes, now: int)
    requires at == WithContent(e, w, content)
    ensures Taken(w.store, req) ==> CommitPlan(e, b, at, req, IdentityOf(e, content), now).outcome.Err?
  {
  }

  /** Exactly when an import into a repository where the id was never published is accepted. */
  lemma ImportAccepted(e: Env, source: Binding, b: Binding, from: World, w: World, k: Key, x: LogicalExport,
                       createOnly: bool, now: int)
    requires Lawful(e) && Simulates(e, source, from) && k in from.store.versions && Exports(from, k, x)
    requires Simulates(e, b, w) && k.id !in w.store.anchored
    ensures var at := WithContent(e, w, x.payload.Content());
            CommitPlan(e, b, at, ImportRequest(x, createOnly), IdentityOf(e, x.payload.Content()), now).outcome.Ok? <==>
              Importable(e, b, w, k, Migrated(b, from.store.versions[k], now))
  {
    hide Simulates, Lawful, Replay, LawfulRun, CommitPlan, NewStored, Migrated, WithContent, IdentityOf, VersionBody,
      VersionTag, AnchorBody, AnchorTag, LatestTag;
    var content := x.payload.Content();
    var req, id, at := ImportRequest(x, createOnly), IdentityOf(e, content), WithContent(e, w, content);
    ContentAdded(e, b, w, content);
    ImportedRecord(e, source, b, from, k, x, createOnly, now);
    KeyMatches(e, source, from, k, x);
    CommitOutcome(e, b, at, req, id, now);
    NeverPublished(e, b, at, k);
    SameTags(e, w, content);
    MediaTypeValid(e, source, from, k);
  }

  /** The exact tag is free and the record as migrated fits the target's limits. */
  predicate Importable(e: Env, b: Binding, w: World, k: Key, so: StoredObject) {
    && VersionTag(e, k.id, k.digest) !in w.data.tags
    && |AnchorBody(e, k.id)| <= b.maxManifestBytes && |e.configText(so)| <= b.maxMetadataBytes
    && |VersionBody(e, so)| <= b.maxManifestBytes
  }

  lemma NeverPublished(e: Env, b: Binding, w: World, k: Key)
    requires Simulates(e, b, w) && k.id !in w.store.anchored
    ensures k !in w.store.versions && AnchorTag(e, k.id) !in w.data.tags && LatestTag(e, k.id) !in w.data.tags
  {
    hide VersionBody, VersionTag, LatestTag, AnchorTag;
    assert forall o :: o in w.store.versions ==> Complete(e, b, w, o);
    assert AnchorAgrees(e, b, w, k.id) && AliasAgrees(e, w, k.id);
  }

  lemma SameTags(e: Env, w: World, content: Bytes)
    ensures WithContent(e, w, content).data.tags == w.data.tags
  {
  }

  lemma MediaTypeValid(e: Env, b: Binding, w: World, k: Key)
    requires Simulates(e, b, w) && k in w.store.versions
    ensures '/' in w.store.versions[k].metadata.mediaType
  {
    assert Complete(e, b, w, k);
  }

  /** Import an export of version `k` of `from`, and what that does where the id was never published. */
  method ImportNew(a: Adapter, ghost source: Binding, ghost from: World, ghost k: Key, x: LogicalExport,
                   createOnly: bool, now: int) returns (res: Result<Metadata>)
    requires a.Valid() && Simulates(a.e, source, from) && k in from.store.versions && Exports(from, k, x)
    requires x.payload.expectedLength == Some(|x.payload.Content()|) && x.payload.expectedDigest == Some(k.digest)
    modifies a, a.transport, a.transport.registry
    ensures a.Valid()
    ensures k.id !in old(a.store).anchored && a.transport.faults == old(a.transport.faults) ==>
              (res.Ok? <==>
                 && from.store.versions[k].metadata.byteLength <= a.b.maxObjectBytes
                 && Importable(a.e, a.b, old(a.Now()), k, Migrated(a.b, from.store.versions[k], now)))
    ensures k.id !in old(a.store).anchored && res.Ok? ==>
              var so := Migrated(a.b, from.store.versions[k], now);
              && res.value == so.metadata && res.value.digest == k.digest
              && Lookup(a.e, a.store, k.id, Some(k.digest)) == Ok(Resolve.View(a.e, so))
              && Lookup(a.e, a.store, k.id, None) == Ok(Resolve.View(a.e, so))
              && k.digest in a.Now().data.blobs && a.Now().data.blobs[k.digest] == x.payload.Content()
  {
    hide Simulates, Lawful, Replay, LawfulRun, CommitPlan, WithContent, IsJournal, Concat, Read, Lookup, Importable,
      Accepted, Exports, Payload.WellChunked, ImportRequest, IdentityOf, Resolve.View, Migrated;
    ghost var w := a.Now();
    ExportAccepted(a.e, source, a.b, from, k, x);
    if k.id !in w.store.anchored { ImportAccepted(a.e, source, a.b, from, w, k, x, createOnly, now); }
    KeyMatches(a.e, source, from, k, x);
    ExportedBytes(from, k, x);
    MigratedDigest(a.e, source, a.b, from, k, now);
    res := ImportLogical(a, x, createOnly, now);
    if res.Ok? && k.id !in w.store.anchored {
      MigrationPreserves(a.e, source, a.b, from, w, k, x, createOnly, now);
      ReadNow(a.e, a.b, a.Now(), k.id, Some(k.digest));
      ReadNow(a.e, a.b, a.Now(), k.id, None);
    }
  }

  lemma ExportedBytes(w: World, k: Key, x: LogicalExport)
    requires k in w.store.versions && Exports(w, k, x)
    ensures k.digest in w.data.blobs && w.data.blobs[k.digest] == x.payload.Content()
  {
  }

  lemma MigratedDigest(e: Env, source: Binding, b: Binding, w: World, k: Key, now: int)
    requires Simulates(e, source, w) && k in w.store.versions
    ensures Migrated(b, w.store.versions[k], now).metadata.digest == k.digest
  {
    hide VersionBody, VersionTag;
    assert Complete(e, source, w, k);
  }

  /** Export from one adapter and import into another. */
  method Migrate(source: Adapter, target: Adapter, id: string, digest: Option<Digest>, cut: Bytes -> seq<Bytes>,
                 createOnly: bool, now: int) returns (res: Result<Metadata>)
    requires source.Valid() && target.Valid() && Cuts(cut) && source.e == target.e
    requires source != target && source.transport != target.transport
    requires source.transport.registry != target.transport.registry
    modifies source.transport`faults, target, target.transport, target.transport.registry
    ensures source.Valid() && target.Valid() && source.Now() == old(source.Now())
    ensures (source.transport.faults == old(source.transport.faults)
             && target.transport.faults == old(target.transport.faults) && id !in old(target.store).anchored) ==>
              if !(if digest.Some? then Key(id, digest.value) in source.store.versions else id in source.store.latest)
              then res == Err(NotFound)
              else
                var k := Key(id, if digest.Some? then digest.value else source.store.latest[id]);
                k in source.store.versions &&
                (res.Ok? <==>
                   && source.store.versions[k].metadata.byteLength <= target.b.maxObjectBytes
                   && Importable(target.e, target.b, old(target.Now()), k,
                                 Migrated(target.b, source.store.versions[k], now)))
    ensures res.Ok? && id !in old(target.store).anchored ==>
              var k := Key(id, res.value.digest);
              && k in source.store.versions
              && (if digest.Some? then k.digest == digest.value
                  else id in source.store.latest && k.digest == source.store.latest[id])
              && var so := Migrated(target.b, source.store.versions[k], now);
                 && res.value == so.metadata
                 && Lookup(target.e, target.store, id, Some(k.digest)) == Ok(Resolve.View(target.e, so))
                 && Lookup(target.e, target.store, id, None) == Ok(Resolve.View(target.e, so))
                 && k.digest in source.Now().data.blobs && k.digest in target.Now().data.blobs
                 && target.Now().data.blobs[k.digest] == source.Now().data.blobs[k.digest]
  {
    hide Simulates, Lawful, Replay, LawfulRun, CommitPlan, WithContent, IsJournal, Concat, Read, Lookup, Cuts,
      Importable, Accepted, Migrated, Exports, Payload.WellChunked;
    var x := ExportLogical(source, id, digest, cut);
    if x.Err? { return Err(x.error); }
    ghost var k := Key(id, x.value.metadata.digest);
    ExportedBytes(source.Now(), k, x.value);
    res := ImportNew(target, source.b, source.Now(), k, x.value, createOnly, now);
  }
}
