/**
  The documents the adapter stores in a registry (transport/models.py), the naming and
  encoding functions it stores them with, and the private binding's limits.
 */
module Models {
  import opened Prelude

  /** The hexadecimal part of a `sha256:` digest. */
  type Digest = string

  /** The text of one JSON value. */
  type Json = string

  datatype Descriptor = Descriptor(mediaType: string, digest: Digest, size: nat)

  /** `application/vnd.meridian.object.v1`, `application/vnd.meridian.object.anchor.v1`, or anything else. */
  datatype ArtifactType = ObjectArtifact | AnchorArtifact | OtherArtifact(name: string)

  /** The `org.meridian.object.*` and creation-time annotations of the two manifest kinds. */
  datatype Annotations =
    | AnchorAnnotations(anchor: Digest)
    | VersionAnnotations(created: string, digest: Digest, idHash: Digest, mutability: string)
    | OtherAnnotations(entries: map<string, string>)

  datatype Manifest = Manifest(
    artifactType: ArtifactType,
    config: Descriptor,
    layers: seq<Descriptor>,
    subject: Option<Descriptor>,
    annotations: Annotations)

  datatype Immutability = Immutability(mutability: string, publishOnce: bool)

  datatype Retention = Retention(retainUntil: Option<int>, policy: string)

  datatype Metadata = Metadata(
    resource: string,
    objectId: string,
    refDigest: Digest,
    digest: Digest,
    byteLength: nat,
    mediaType: string,
    createdAt: int,
    creationContext: map<string, Json>,
    userMetadata: map<string, string>,
    mutability: string,
    provenance: map<string, Json>)

  datatype StoredObject = StoredObject(
    metadata: Metadata,
    immutability: Immutability,
    retention: Option<Retention>)

  /** The input of a put Operation, for the single-call and the multipart form alike. */
  datatype PutRequest = PutRequest(
    objectId: string,
    createOnly: bool,
    immutability: Option<Immutability>,
    retention: Option<Retention>,
    mediaType: string,
    expectedDigest: Option<Digest>,
    expectedLength: Option<nat>,
    creationContext: map<string, Json>,
    userMetadata: map<string, string>,
    provenance: map<string, Json>)
  {
    function Policy(): Immutability {
      if immutability.None? then Immutability("immutable", false) else immutability.value
    }

    predicate PublishOnce() { Policy().publishOnce }

    predicate Exclusive() { createOnly || PublishOnce() }
  }

  datatype Identity = Identity(digest: Digest, byteLength: nat)

  datatype Binding = Binding(
    resource: string,
    chunkSize: nat,
    maxObjectBytes: nat,
    maxManifestBytes: nat,
    maxMetadataBytes: nat,
    maxScanTags: nat,
    maxMultipartParts: nat,
    adapterStamp: Json)

  /**
    The library functions the adapter is built on: SHA-256, UTF-8, canonical JSON of the two
    stored documents, the timestamp format and the keyed part token.
   */
  datatype Env = Env(
    hash: Bytes -> Digest,
    preimage: Digest -> Bytes,
    utf8: string -> Bytes,
    fromUtf8: Bytes -> string,
    configText: StoredObject -> Bytes,
    parseConfig: Bytes -> Option<StoredObject>,
    manifestText: Manifest -> Bytes,
    parseManifest: Bytes -> Option<Manifest>,
    timeText: int -> string,
    partToken: (string, nat, Identity) -> string)

  /**
    What is assumed of those functions. The hash and UTF-8 are injective (stated through a left
    inverse), parsing undoes canonical printing, and a hexadecimal hash has at least 32 characters.
   */
  ghost predicate Lawful(e: Env) {
    && (forall v :: e.preimage(e.hash(v)) == v)
    && (forall v :: |e.hash(v)| >= 32)
    && (forall s :: e.fromUtf8(e.utf8(s)) == s)
    && (forall s :: e.parseConfig(e.configText(s)) == Some(s))
    && (forall m :: e.parseManifest(e.manifestText(m)) == Some(m))
  }

  const MANIFEST_MEDIA_TYPE := "application/vnd.oci.image.manifest.v1+json"
  const EMPTY_MEDIA_TYPE := "application/vnd.oci.empty.v1+json"
  const CONFIG_MEDIA_TYPE := "application/vnd.meridian.object.config.v1+json"
  const EMPTY_JSON: Bytes := [123, 125]

  predicate ValidMediaType(mediaType: string) { '/' in mediaType }

  function IdHash(e: Env, id: string): Digest { e.hash(e.utf8(id)) }

  function AnchorManifest(e: Env, objectHash: Digest): Manifest {
    var empty := Descriptor(EMPTY_MEDIA_TYPE, e.hash(EMPTY_JSON), 2);
    Manifest(AnchorArtifact, empty, [empty], None, AnchorAnnotations(objectHash))
  }

  function ObjectManifest(e: Env, anchor: Descriptor, config: Descriptor, payload: Descriptor,
                          objectHash: Digest, createdAt: int, mutability: string): Manifest {
    Manifest(ObjectArtifact, config, [payload], Some(anchor),
             VersionAnnotations(e.timeText(createdAt), payload.digest, objectHash, mutability))
  }

  /** The bytes of the anchor of an object id. */
  function AnchorBody(e: Env, id: string): Bytes {
    e.manifestText(AnchorManifest(e, IdHash(e, id)))
  }

  function AnchorDescriptor(e: Env, id: string): Descriptor {
    Descriptor(MANIFEST_MEDIA_TYPE, e.hash(AnchorBody(e, id)), |AnchorBody(e, id)|)
  }

  function ConfigDescriptor(e: Env, so: StoredObject): Descriptor {
    Descriptor(CONFIG_MEDIA_TYPE, e.hash(e.configText(so)), |e.configText(so)|)
  }

  function PayloadDescriptor(so: StoredObject): Descriptor {
    Descriptor(so.metadata.mediaType, so.metadata.digest, so.metadata.byteLength)
  }

  /** The manifest published for one stored version. */
  function VersionManifest(e: Env, so: StoredObject): Manifest {
    ObjectManifest(e, AnchorDescriptor(e, so.metadata.objectId), ConfigDescriptor(e, so),
                   PayloadDescriptor(so), IdHash(e, so.metadata.objectId),
                   so.metadata.createdAt, so.metadata.mutability)
  }

  function VersionBody(e: Env, so: StoredObject): Bytes {
    e.manifestText(VersionManifest(e, so))
  }

  /** `manifest_descriptors`: the config, payload and subject of a Meridian object manifest. */
  function ManifestDescriptors(m: Manifest): Option<(Descriptor, Descriptor, Descriptor)> {
    if !m.artifactType.ObjectArtifact? || m.subject.None? || |m.layers| != 1 then None
    else if !ValidMediaType(m.config.mediaType) || !ValidMediaType(m.layers[0].mediaType)
            || !ValidMediaType(m.subject.value.mediaType) then None
    else if m.config.mediaType != CONFIG_MEDIA_TYPE then None
    else if m.subject.value.mediaType != MANIFEST_MEDIA_TYPE then None
    else Some((m.config, m.layers[0], m.subject.value))
  }

  lemma ReservedMediaTypesValid()
    ensures ValidMediaType(CONFIG_MEDIA_TYPE) && ValidMediaType(MANIFEST_MEDIA_TYPE)
  {
    assert CONFIG_MEDIA_TYPE[11] == '/' && MANIFEST_MEDIA_TYPE[11] == '/';
  }

  /** `manifest_descriptors` undoes `build_object_manifest` exactly when the payload media type is valid. */
  lemma DescriptorsRoundTrip(e: Env, so: StoredObject)
    ensures ManifestDescriptors(VersionManifest(e, so)) ==
            if ValidMediaType(so.metadata.mediaType)
            then Some((ConfigDescriptor(e, so), PayloadDescriptor(so), AnchorDescriptor(e, so.metadata.objectId)))
            else None
  {
    ReservedMediaTypesValid();
  }

  /** The published manifest of a version, read back, names the anchor, the config, the payload and the record's own
      annotations. */
  lemma VersionDocument(e: Env, so: StoredObject)
    requires Lawful(e)
    ensures e.parseManifest(VersionBody(e, so)).Some?
    ensures var doc, m := e.parseManifest(VersionBody(e, so)).value, so.metadata;
            var anchor := e.parseManifest(AnchorBody(e, m.objectId));
            && doc.artifactType == ObjectArtifact
            && doc.config.mediaType == "application/vnd.meridian.object.config.v1+json"
            && doc.config.digest == e.hash(e.configText(so)) && doc.config.size == |e.configText(so)|
            && doc.layers == [Descriptor(m.mediaType, m.digest, m.byteLength)]
            && doc.subject == Some(Descriptor("application/vnd.oci.image.manifest.v1+json",
                                              e.hash(AnchorBody(e, m.objectId)), |AnchorBody(e, m.objectId)|))
            && doc.annotations ==
                 VersionAnnotations(e.timeText(m.createdAt), m.digest, e.hash(e.utf8(m.objectId)), m.mutability)
            && anchor.Some? && anchor.value.artifactType == AnchorArtifact && anchor.value.subject == None
            && anchor.value.config == Descriptor("application/vnd.oci.empty.v1+json", e.hash([123, 125]), 2)
            && anchor.value.layers == [anchor.value.config]
            && anchor.value.annotations == AnchorAnnotations(e.hash(e.utf8(m.objectId)))
  {
  }

  /** Different stored versions never share a manifest digest: the digest determines the whole record. */
  lemma VersionBodyInjective(e: Env, x: StoredObject, y: StoredObject)
    requires Lawful(e)
    requires e.hash(VersionBody(e, x)) == e.hash(VersionBody(e, y))
    ensures x == y
  {
    assert VersionBody(e, x) == e.preimage(e.hash(VersionBody(e, x))) == VersionBody(e, y);
    assert Some(VersionManifest(e, x)) == e.parseManifest(VersionBody(e, x)) == Some(VersionManifest(e, y));
    assert e.configText(x) == e.preimage(e.hash(e.configText(x)));
    assert e.configText(y) == e.preimage(e.hash(e.configText(y)));
    assert e.configText(x) == e.configText(y);
    assert Some(x) == e.parseConfig(e.configText(x)) == Some(y);
  }

  /** No version manifest has the digest of an anchor. */
  lemma VersionBodyNotAnchor(e: Env, so: StoredObject, id: string)
    requires Lawful(e)
    ensures e.hash(VersionBody(e, so)) != e.hash(AnchorBody(e, id))
  {
    assert VersionBody(e, so) == e.preimage(e.hash(VersionBody(e, so)));
    assert AnchorBody(e, id) == e.preimage(e.hash(AnchorBody(e, id)));
    assert Some(VersionManifest(e, so)) == e.parseManifest(VersionBody(e, so));
    assert Some(AnchorManifest(e, IdHash(e, id))) == e.parseManifest(AnchorBody(e, id));
  }

  lemma IdHashInjective(e: Env, i: string, j: string)
    requires Lawful(e)
    requires IdHash(e, i) == IdHash(e, j)
    ensures i == j
  {
    assert e.utf8(i) == e.preimage(IdHash(e, i)) == e.utf8(j);
    assert i == e.fromUtf8(e.utf8(i)) == j;
  }
}
