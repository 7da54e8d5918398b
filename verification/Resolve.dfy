/**
  Reading an object back (`_stored_for_reference` and `_stored_from_manifest`). A lock-free reader
  makes three requests, the tag, the config blob and the anchor, which may each meet a different
  repository state.
 */
module Resolve {
  import opened Prelude
  import opened Models
  import opened Naming
  import opened Store

  datatype Document = Document(body: Bytes, digest: Digest, value: Manifest)

  datatype Resolved = Resolved(stored: StoredObject, manifest: Document, payload: Descriptor)

  /** `get_manifest` by tag. */
  function FetchManifest(e: Env, b: Binding, d: Data, tag: Tag): Result<Document> {
    if tag !in d.tags || d.tags[tag] !in d.manifests then Err(NotFound)
    else
      var body := d.manifests[d.tags[tag]];
      if |body| > b.maxManifestBytes then Err(Unavailable)
      else match e.parseManifest(body)
        case None => Err(DigestMismatch)
        case Some(m) => Ok(Document(body, e.hash(body), m))
  }

  /** `get_blob_bytes`. */
  function FetchBlob(e: Env, d: Data, descriptor: Descriptor, maximum: nat): Result<Bytes> {
    if descriptor.size > maximum then Err(InvalidRequest)
    else if descriptor.digest !in d.blobs then Err(NotFound)
    else
      var body := d.blobs[descriptor.digest];
      if |body| > maximum then Err(Unavailable)
      else if |body| != descriptor.size then Err(DigestMismatch)
      else if e.hash(body) != descriptor.digest then Err(DigestMismatch)
      else Ok(body)
  }

  /** `_stored_from_manifest`. */
  function StoredFrom(e: Env, b: Binding, d: Data, doc: Document): Result<Resolved> {
    match ManifestDescriptors(doc.value)
    case None => Err(DigestMismatch)
    case Some((config, payload, _)) =>
      match FetchBlob(e, d, config, b.maxMetadataBytes)
      case Err(error) => Err(error)
      case Ok(bytes) => Checked(e, doc, payload, bytes)
  }

  /** Decode the config and compare it with the payload descriptor. */
  function Checked(e: Env, doc: Document, payload: Descriptor, bytes: Bytes): Result<Resolved> {
    match e.parseConfig(bytes)
    case None => Err(DigestMismatch)
    case Some(so) =>
      if so.metadata.digest != payload.digest || so.metadata.byteLength != payload.size
         || so.metadata.mediaType != payload.mediaType
      then Err(DigestMismatch)
      else Ok(Resolved(so, doc, payload))
  }

  function TagFor(e: Env, id: string, digest: Option<Digest>): Tag {
    match digest
    case None => LatestTag(e, id)
    case Some(d) => VersionTag(e, id, d)
  }

  /** The checks after decoding, with the anchor read from `d`. */
  function Confirm(e: Env, b: Binding, d: Data, id: string, digest: Option<Digest>, r: Resolved): Result<Resolved> {
    var m := r.stored.metadata;
    if m.resource != b.resource || m.objectId != id then Err(NotFound)
    else if digest.Some? && m.digest != digest.value then Err(NotFound)
    else match FetchManifest(e, b, d, AnchorTag(e, id))
      case Err(error) => Err(error)
      case Ok(anchor) =>
        match ManifestDescriptors(r.manifest.value)
        case None => Err(OtherFailure)
        case Some((_, _, subject)) => if subject.digest != anchor.digest then Err(DigestMismatch) else Ok(r)
  }

  /** `_stored_for_reference`, its three reads meeting the states `atTag`, `atConfig` and `atAnchor`. */
  function Read(e: Env, b: Binding, atTag: Data, atConfig: Data, atAnchor: Data,
                id: string, digest: Option<Digest>): Result<Resolved> {
    match FetchManifest(e, b, atTag, TagFor(e, id, digest))
    case Err(error) => Err(error)
    case Ok(doc) =>
      match StoredFrom(e, b, atConfig, doc)
      case Err(error) => Err(error)
      case Ok(r) => Confirm(e, b, atAnchor, id, digest, r)
  }

  /**
    Whatever a repository holds, tampered with or not, an answered read is of the object asked for: the
    manifest was bound to the tag and small enough, the config has the digest and size the manifest gives it,
    the payload descriptor agrees with the record, and the subject is the manifest then bound to the anchor tag.
   */
  lemma ReadVerifies(e: Env, b: Binding, atTag: Data, atConfig: Data, atAnchor: Data, id: string,
                     digest: Option<Digest>)
    requires Read(e, b, atTag, atConfig, atAnchor, id, digest).Ok?
    ensures var r := Read(e, b, atTag, atConfig, atAnchor, id, digest).value;
            var tag := if digest.None? then LatestTag(e, id) else VersionTag(e, id, digest.value);
            var doc, m := r.manifest.value, r.stored.metadata;
            && tag in atTag.tags && atTag.tags[tag] in atTag.manifests
            && r.manifest.body == atTag.manifests[atTag.tags[tag]] && |r.manifest.body| <= b.maxManifestBytes
            && r.manifest.digest == e.hash(r.manifest.body) && e.parseManifest(r.manifest.body) == Some(doc)
            && doc.artifactType == ObjectArtifact && |doc.layers| == 1 && doc.subject.Some?
            && doc.config.digest in atConfig.blobs
            && (var config := atConfig.blobs[doc.config.digest];
                && |config| == doc.config.size <= b.maxMetadataBytes && e.hash(config) == doc.config.digest
                && e.parseConfig(config) == Some(r.stored))
            && r.payload == doc.layers[0] && r.payload == Descriptor(m.mediaType, m.digest, m.byteLength)
            && m.resource == b.resource && m.objectId == id && (digest.Some? ==> m.digest == digest.value)
            && AnchorTag(e, id) in atAnchor.tags && atAnchor.tags[AnchorTag(e, id)] in atAnchor.manifests
            && doc.subject.value.digest == e.hash(atAnchor.manifests[atAnchor.tags[AnchorTag(e, id)]])
  {
    hide VersionTag, LatestTag, AnchorTag;
  }

  /** What the abstract store answers. */
  function Lookup(e: Env, st: Store, id: string, digest: Option<Digest>): Result<Resolved> {
    var key := Key(id, if digest.Some? then digest.value else if id in st.latest then st.latest[id] else "");
    if (digest.None? && id !in st.latest) || key !in st.versions then Err(NotFound)
    else Ok(View(e, st.versions[key]))
  }

  /** A version as a reader sees it. */
  function View(e: Env, so: StoredObject): Resolved {
    Resolved(so, Document(VersionBody(e, so), e.hash(VersionBody(e, so)), VersionManifest(e, so)),
             PayloadDescriptor(so))
  }

  lemma FetchBound(e: Env, b: Binding, d: Data, tag: Tag, m: Manifest)
    requires Lawful(e) && Bound(e, d, tag, e.manifestText(m)) && |e.manifestText(m)| <= b.maxManifestBytes
    ensures FetchManifest(e, b, d, tag) == Ok(Document(e.manifestText(m), e.hash(e.manifestText(m)), m))
  {
  }

  /** The config of a published version decodes to that version wherever its blob is held. */
  lemma StoredFromVersion(e: Env, b: Binding, d: Data, so: StoredObject)
    requires Lawful(e) && Publishable(e, b, so) && Held(e, d, e.configText(so))
    ensures StoredFrom(e, b, d, View(e, so).manifest) == Ok(View(e, so))
  {
    hide VersionBody, VersionManifest;
    DescriptorsRoundTrip(e, so);
  }

  /** A published version of `id` is confirmed wherever the anchor of `id` is in place. */
  lemma ConfirmVersion(e: Env, b: Binding, d: Data, id: string, digest: Option<Digest>, so: StoredObject)
    requires Lawful(e) && Publishable(e, b, so)
    requires so.metadata.objectId == id ==>
               Bound(e, d, AnchorTag(e, id), AnchorBody(e, id)) && |AnchorBody(e, id)| <= b.maxManifestBytes
    ensures Confirm(e, b, d, id, digest, View(e, so)) ==
            if so.metadata.objectId == id && (digest.Some? ==> so.metadata.digest == digest.value)
            then Ok(View(e, so)) else Err(NotFound)
  {
    hide VersionBody, VersionManifest;
    if so.metadata.objectId == id {
      FetchBound(e, b, d, AnchorTag(e, id), AnchorManifest(e, IdHash(e, id)));
      DescriptorsRoundTrip(e, so);
    }
  }

  /** The tag a reader asks for is bound to a published version, or to nothing. */
  lemma TagTarget(e: Env, b: Binding, w: World, id: string, digest: Option<Digest>) returns (k: Key)
    requires Lawful(e) && Simulates(e, b, w) && TagFor(e, id, digest) in w.data.tags
    ensures k in w.store.versions && Complete(e, b, w, k)
    ensures Bound(e, w.data, TagFor(e, id, digest), VersionBody(e, w.store.versions[k]))
    ensures digest.None? ==> id in w.store.latest && k == Key(id, w.store.latest[id])
    ensures digest.Some? ==> k.digest == digest.value && ShortHash(e, k.id) == ShortHash(e, id)
    ensures digest.Some? && Key(id, digest.value) in w.store.versions ==> k == Key(id, digest.value)
  {
    hide VersionBody, VersionTag, LatestTag, Publishable, ShortHash;
    assert AliasAgrees(e, w, id);
    if digest.None? {
      k := Key(id, w.store.latest[id]);
    } else {
      TagFamiliesDisjoint(e, id, id, digest.value);
      assert Owned(e, w.store, TagFor(e, id, digest));
      k :| k in w.store.versions && TagOf(e, k) == TagFor(e, id, digest);
      VersionTagCollision(e, k.id, k.digest, id, digest.value);
      assert Complete(e, b, w, k);
      if Key(id, digest.value) in w.store.versions {
        SameTagSameVersion(e, b, w, k, Key(id, digest.value));
      }
    }
  }

  /** The latest version of an id is one of its stored versions. */
  lemma LatestDigest(e: Env, b: Binding, w: World, id: string)
    requires Simulates(e, b, w)
    ensures id in w.store.latest ==>
              var k := Key(id, w.store.latest[id]); k in w.store.versions && KeyOf(w.store.versions[k]) == k
  {
    hide VersionBody, VersionTag, LatestTag;
    assert AliasAgrees(e, w, id);
    assert forall k :: k in w.store.versions ==> Complete(e, b, w, k);
  }

  lemma StoredTagBound(e: Env, b: Binding, w: World, k: Key)
    requires Simulates(e, b, w) && k in w.store.versions
    ensures TagOf(e, k) in w.data.tags
  {
    assert Complete(e, b, w, k);
  }

  lemma SameTagSameVersion(e: Env, b: Binding, w: World, x: Key, y: Key)
    requires Lawful(e) && VersionsAgree(e, b, w)
    requires x in w.store.versions && y in w.store.versions && TagOf(e, x) == TagOf(e, y)
    ensures x == y
  {
    assert Complete(e, b, w, x) && Complete(e, b, w, y);
    ManifestsDistinct(e, b, w, x, y);
  }

  /**
    A reader is answered as the abstract store would answer at its tag request, as long as the later
    states still hold the config blobs and anchors of that moment.
   */
  lemma ReadIsLookup(e: Env, b: Binding, w: World, atConfig: Data, atAnchor: Data, id: string, digest: Option<Digest>)
    requires Lawful(e) && Simulates(e, b, w)
    requires forall c :: Held(e, w.data, c) ==> Held(e, atConfig, c)
    requires forall i :: i in w.store.anchored ==> Bound(e, atAnchor, AnchorTag(e, i), AnchorBody(e, i))
    ensures Read(e, b, w.data, atConfig, atAnchor, id, digest) == Lookup(e, w.store, id, digest)
  {
    var tag := TagFor(e, id, digest);
    if tag in w.data.tags {
      var k := TagTarget(e, b, w, id, digest);
      ReadVersion(e, b, w, atConfig, atAnchor, id, digest, k);
      TargetIsLookup(e, b, w, id, digest, k);
    } else {
      AbsentTag(e, b, w, id, digest);
    }
  }

  lemma AbsentTag(e: Env, b: Binding, w: World, id: string, digest: Option<Digest>)
    requires Lawful(e) && Simulates(e, b, w) && TagFor(e, id, digest) !in w.data.tags
    ensures Lookup(e, w.store, id, digest) == Err(NotFound)
  {
    hide VersionBody, VersionTag, LatestTag, Publishable;
    assert AliasAgrees(e, w, id);
    assert forall k :: k in w.store.versions ==> Complete(e, b, w, k);
  }

  lemma ReadVersion(e: Env, b: Binding, w: World, atConfig: Data, atAnchor: Data, id: string, digest: Option<Digest>,
                    k: Key)
    requires Lawful(e) && AnchorsAgree(e, b, w)
    requires forall c :: Held(e, w.data, c) ==> Held(e, atConfig, c)
    requires forall i :: i in w.store.anchored ==> Bound(e, atAnchor, AnchorTag(e, i), AnchorBody(e, i))
    requires k in w.store.versions && Complete(e, b, w, k)
    requires Bound(e, w.data, TagFor(e, id, digest), VersionBody(e, w.store.versions[k]))
    ensures Read(e, b, w.data, atConfig, atAnchor, id, digest) ==
            if k.id == id && (digest.Some? ==> k.digest == digest.value)
            then Ok(View(e, w.store.versions[k])) else Err(NotFound)
  {
    hide VersionManifest, VersionTag, LatestTag, AnchorTag, StoredFrom, Confirm, FetchManifest;
    var so := w.store.versions[k];
    FetchBound(e, b, w.data, TagFor(e, id, digest), VersionManifest(e, so));
    StoredFromVersion(e, b, atConfig, so);
    assert AnchorAgrees(e, b, w, k.id);
    ConfirmVersion(e, b, atAnchor, id, digest, so);
  }

  lemma TargetIsLookup(e: Env, b: Binding, w: World, id: string, digest: Option<Digest>, k: Key)
    requires k in w.store.versions
    requires digest.None? ==> id in w.store.latest && k == Key(id, w.store.latest[id])
    requires digest.Some? ==> k.digest == digest.value
    requires digest.Some? && Key(id, digest.value) in w.store.versions ==> k == Key(id, digest.value)
    ensures Lookup(e, w.store, id, digest) ==
            if k.id == id && (digest.Some? ==> k.digest == digest.value)
            then Ok(View(e, w.store.versions[k])) else Err(NotFound)
  {
  }
}
