/**
  The registry's contents, the abstract object store they stand for, and the steps that the
  adapter's writers take. `Simulates` relates the two; every enabled step keeps it.
 */
module Store {
  import opened Prelude
  import opened Models
  import opened Naming

  /** What a repository holds: content-addressed blobs and manifests, and tags bound to manifests. */
  datatype Data = Data(blobs: map<Digest, Bytes>, manifests: map<Digest, Bytes>, tags: map<Tag, Digest>)

  /** One exact version of one object. */
  datatype Key = Key(id: string, digest: Digest)

  /** The abstract store: versions by id and digest, a latest pointer per id, and the ids ever anchored. */
  datatype Store = Store(versions: map<Key, StoredObject>, latest: map<string, Digest>, anchored: set<string>)

  datatype World = World(data: Data, store: Store)

  /** One effect of a transport call on the repository. */
  datatype Event =
    | AddBlob(content: Bytes)
    | BindAnchor(id: string)
    | BindVersion(stored: StoredObject)
    | BindLatest(stored: StoredObject)
    | Remove(stored: StoredObject, now: int)

  const EMPTY_DATA := Data(map[], map[], map[])
  const EMPTY_STORE := Store(map[], map[], {})

  function KeyOf(so: StoredObject): Key { Key(so.metadata.objectId, so.metadata.digest) }

  function TagOf(e: Env, k: Key): Tag { VersionTag(e, k.id, k.digest) }

  // ----- registry transitions (tests/support/registry.py) -----

  function WithBlob(e: Env, d: Data, content: Bytes): Data {
    d.(blobs := d.blobs[e.hash(content) := content])
  }

  function WithManifest(e: Env, d: Data, tag: Tag, body: Bytes): Data {
    d.(manifests := d.manifests[e.hash(body) := body], tags := d.tags[tag := e.hash(body)])
  }

  function WithoutManifest(d: Data, digest: Digest): Data {
    d.(manifests := d.manifests - {digest}, tags := map t | t in d.tags && d.tags[t] != digest :: d.tags[t])
  }

  function Apply(e: Env, d: Data, ev: Event): Data {
    match ev
    case AddBlob(content) => WithBlob(e, d, content)
    case BindAnchor(id) => WithManifest(e, d, AnchorTag(e, id), AnchorBody(e, id))
    case BindVersion(so) => WithManifest(e, d, TagOf(e, KeyOf(so)), VersionBody(e, so))
    case BindLatest(so) => WithManifest(e, d, LatestTag(e, so.metadata.objectId), VersionBody(e, so))
    case Remove(so, _) => WithoutManifest(d, e.hash(VersionBody(e, so)))
  }

  // ----- the abstract store's transitions -----

  function Abstract(st: Store, ev: Event): Store {
    match ev
    case AddBlob(_) => st
    case BindAnchor(id) => st.(anchored := st.anchored + {id})
    case BindVersion(so) => st.(versions := st.versions[KeyOf(so) := so])
    case BindLatest(so) => st.(latest := st.latest[so.metadata.objectId := so.metadata.digest])
    case Remove(so, _) =>
      var id := so.metadata.objectId;
      st.(versions := st.versions - {KeyOf(so)},
          latest := if id in st.latest && st.latest[id] == so.metadata.digest then st.latest - {id} else st.latest)
  }

  function Next(e: Env, w: World, ev: Event): World {
    World(Apply(e, w.data, ev), Abstract(w.store, ev))
  }

  // ----- what a step needs -----

  /** `require_delete_permitted` (retention/__init__.py). */
  predicate DeletePermitted(retention: Option<Retention>, now: int) {
    match retention
    case None => true
    case Some(r) => r.retainUntil.Some? && r.retainUntil.value <= now
  }

  /** The stored record is consistent and within the binding's limits. */
  predicate Publishable(e: Env, b: Binding, so: StoredObject) {
    && so.metadata.resource == b.resource
    && so.metadata.refDigest == so.metadata.digest
    && so.metadata.mutability == so.immutability.mutability
    && ValidMediaType(so.metadata.mediaType)
    && |e.configText(so)| <= b.maxMetadataBytes
    && |VersionBody(e, so)| <= b.maxManifestBytes
  }

  predicate Held(e: Env, d: Data, content: Bytes) {
    e.hash(content) in d.blobs && d.blobs[e.hash(content)] == content
  }

  predicate PayloadHeld(d: Data, so: StoredObject) {
    so.metadata.digest in d.blobs && |d.blobs[so.metadata.digest]| == so.metadata.byteLength
  }

  predicate Enabled(e: Env, b: Binding, w: World, ev: Event) {
    match ev
    case AddBlob(_) => true
    case BindAnchor(id) =>
      && id !in w.store.anchored && |AnchorBody(e, id)| <= b.maxManifestBytes
      && Held(e, w.data, EMPTY_JSON)
    case BindVersion(so) =>
      && Publishable(e, b, so)
      && so.metadata.objectId in w.store.anchored
      && TagOf(e, KeyOf(so)) !in w.data.tags
      && Held(e, w.data, e.configText(so))
      && PayloadHeld(w.data, so)
    case BindLatest(so) => KeyOf(so) in w.store.versions && w.store.versions[KeyOf(so)] == so
    case Remove(so, now) =>
      && KeyOf(so) in w.store.versions && w.store.versions[KeyOf(so)] == so
      && DeletePermitted(so.retention, now)
  }

  // ----- the simulation relation -----

  predicate Bound(e: Env, d: Data, tag: Tag, body: Bytes) {
    && tag in d.tags && d.tags[tag] == e.hash(body)
    && e.hash(body) in d.manifests && d.manifests[e.hash(body)] == body
  }

  /** The anchor, config, payload and tag of one stored version are all in place and agree. */
  ghost predicate Complete(e: Env, b: Binding, w: World, k: Key)
    requires k in w.store.versions
  {
    var so := w.store.versions[k];
    && KeyOf(so) == k
    && Publishable(e, b, so)
    && k.id in w.store.anchored
    && Bound(e, w.data, TagOf(e, k), VersionBody(e, so))
    && Held(e, w.data, e.configText(so))
    && PayloadHeld(w.data, so)
  }

  ghost predicate BlobsAddressed(e: Env, d: Data) {
    forall digest :: digest in d.blobs ==> e.hash(d.blobs[digest]) == digest
  }

  /** The anchor tag of an id is bound exactly when the id is anchored, and then to its anchor manifest, whose
      empty config and layer are held. */
  ghost predicate AnchorAgrees(e: Env, b: Binding, w: World, id: string) {
    && (AnchorTag(e, id) in w.data.tags ==> id in w.store.anchored)
    && (id in w.store.anchored ==>
          && Bound(e, w.data, AnchorTag(e, id), AnchorBody(e, id)) && |AnchorBody(e, id)| <= b.maxManifestBytes
          && Held(e, w.data, EMPTY_JSON))
  }

  ghost predicate AnchorsAgree(e: Env, b: Binding, w: World) {
    forall id :: AnchorAgrees(e, b, w, id)
  }

  ghost predicate VersionsAgree(e: Env, b: Binding, w: World) {
    && (forall k {:trigger Complete(e, b, w, k)} :: k in w.store.versions ==> Complete(e, b, w, k))
    && (forall t {:trigger Owned(e, w.store, t)} :: t in w.data.tags && IsVersionTag(t) ==> Owned(e, w.store, t))
  }

  ghost predicate Owned(e: Env, st: Store, t: Tag) {
    exists k :: k in st.versions && TagOf(e, k) == t
  }

  /** The latest tag of an id is bound exactly when the id has a latest version, and then to its manifest. */
  ghost predicate AliasAgrees(e: Env, w: World, id: string) {
    && (LatestTag(e, id) in w.data.tags ==> id in w.store.latest)
    && (id in w.store.latest ==>
          && Key(id, w.store.latest[id]) in w.store.versions
          && Bound(e, w.data, LatestTag(e, id), VersionBody(e, w.store.versions[Key(id, w.store.latest[id])])))
  }

  ghost predicate LatestAgree(e: Env, w: World) {
    forall id :: AliasAgrees(e, w, id)
  }

  /** The repository represents the abstract store. */
  ghost predicate Simulates(e: Env, b: Binding, w: World) {
    && BlobsAddressed(e, w.data)
    && AnchorsAgree(e, b, w)
    && VersionsAgree(e, b, w)
    && LatestAgree(e, w)
  }

  lemma EmptySimulates(e: Env, b: Binding)
    ensures Simulates(e, b, World(EMPTY_DATA, EMPTY_STORE))
  {
  }

  /** Distinct versions are bound to distinct manifests, and none to an anchor. */
  lemma ManifestsDistinct(e: Env, b: Binding, w: World, x: Key, y: Key)
    requires Lawful(e) && VersionsAgree(e, b, w)
    requires x in w.store.versions && y in w.store.versions
    requires e.hash(VersionBody(e, w.store.versions[x])) == e.hash(VersionBody(e, w.store.versions[y]))
    ensures x == y
  {
    VersionBodyInjective(e, w.store.versions[x], w.store.versions[y]);
    assert Complete(e, b, w, x) && Complete(e, b, w, y);
  }

  /** Content addressing: adding a blob changes no blob that is there. */
  lemma WithBlobKeeps(e: Env, d: Data, content: Bytes, digest: Digest)
    requires Lawful(e) && BlobsAddressed(e, d) && digest in d.blobs
    ensures digest in WithBlob(e, d, content).blobs && WithBlob(e, d, content).blobs[digest] == d.blobs[digest]
  {
    assert e.preimage(e.hash(d.blobs[digest])) == d.blobs[digest];
    assert e.preimage(e.hash(content)) == content;
  }

  lemma AddBlobStep(e: Env, b: Binding, w: World, content: Bytes)
    requires Lawful(e) && Simulates(e, b, w)
    ensures Simulates(e, b, Next(e, w, AddBlob(content)))
  {
    hide VersionBody, VersionTag, IsVersionTag, AnchorTag, AnchorBody, LatestTag, Publishable, Lawful, WithBlob;
    var w' := Next(e, w, AddBlob(content));
    BlobAdded(e, w.data, content);
    forall k | k in w'.store.versions ensures Complete(e, b, w', k) {
      assert Complete(e, b, w, k);
      WithBlobKeeps(e, w.data, content, k.digest);
      WithBlobKeeps(e, w.data, content, e.hash(e.configText(w.store.versions[k])));
    }
    forall t | t in w'.data.tags && IsVersionTag(t) ensures Owned(e, w'.store, t) { assert Owned(e, w.store, t); }
    forall i ensures AliasAgrees(e, w', i) && AnchorAgrees(e, b, w', i) {
      assert AliasAgrees(e, w, i) && AnchorAgrees(e, b, w, i);
      if i in w.store.anchored { WithBlobKeeps(e, w.data, content, e.hash(EMPTY_JSON)); }
    }
  }

  lemma BlobAdded(e: Env, d: Data, content: Bytes)
    requires Lawful(e) && BlobsAddressed(e, d)
    ensures BlobsAddressed(e, WithBlob(e, d, content))
    ensures WithBlob(e, d, content).tags == d.tags && WithBlob(e, d, content).manifests == d.manifests
  {
  }

  /** Binding a fresh tag to any body disturbs no other binding. */
  lemma WithManifestKeeps(e: Env, d: Data, tag: Tag, body: Bytes, other: Tag, otherBody: Bytes)
    requires Lawful(e) && Bound(e, d, other, otherBody) && other != tag
    ensures Bound(e, WithManifest(e, d, tag, body), other, otherBody)
  {
    if e.hash(body) == e.hash(otherBody) {
      assert body == e.preimage(e.hash(body)) == e.preimage(e.hash(otherBody)) == otherBody;
    }
  }

  /** A manifest put under a tag outside the anchor family keeps every anchor. */
  lemma AnchorsKept(e: Env, b: Binding, w: World, w': World, tag: Tag, body: Bytes)
    requires Lawful(e) && AnchorsAgree(e, b, w)
    requires forall i :: AnchorTag(e, i) != tag
    requires w'.data == WithManifest(e, w.data, tag, body) && w'.store.anchored == w.store.anchored
    ensures AnchorsAgree(e, b, w')
  {
    hide AnchorTag, AnchorBody, Lawful;
    forall i ensures AnchorAgrees(e, b, w', i) {
      assert AnchorAgrees(e, b, w, i);
      if i in w.store.anchored { WithManifestKeeps(e, w.data, tag, body, AnchorTag(e, i), AnchorBody(e, i)); }
    }
  }

  /** A manifest put under a tag outside the latest family keeps every latest alias. */
  lemma LatestKept(e: Env, w: World, w': World, tag: Tag, body: Bytes)
    requires Lawful(e) && LatestAgree(e, w)
    requires forall i :: LatestTag(e, i) != tag
    requires w'.data == WithManifest(e, w.data, tag, body) && w'.store.latest == w.store.latest
    requires forall k :: k in w.store.versions ==> k in w'.store.versions && w'.store.versions[k] == w.store.versions[k]
    ensures LatestAgree(e, w')
  {
    hide LatestTag, VersionBody, Lawful;
    forall i ensures AliasAgrees(e, w', i) {
      assert AliasAgrees(e, w, i);
      if i in w.store.latest {
        WithManifestKeeps(e, w.data, tag, body, LatestTag(e, i),
                          VersionBody(e, w.store.versions[Key(i, w.store.latest[i])]));
      }
    }
  }

  /** A manifest put under a tag outside the version family keeps every version. */
  lemma VersionsKept(e: Env, b: Binding, w: World, w': World, tag: Tag, body: Bytes)
    requires Lawful(e) && VersionsAgree(e, b, w)
    requires !IsVersionTag(tag)
    requires w'.data == WithManifest(e, w.data, tag, body)
    requires w'.store.versions == w.store.versions && w.store.anchored <= w'.store.anchored
    ensures VersionsAgree(e, b, w')
  {
    forall k | k in w'.store.versions ensures Complete(e, b, w', k) {
      assert Complete(e, b, w, k);
      TagFamiliesDisjoint(e, "", k.id, k.digest);
      WithManifestKeeps(e, w.data, tag, body, TagOf(e, k), VersionBody(e, w.store.versions[k]));
    }
    forall t | t in w'.data.tags && IsVersionTag(t) ensures Owned(e, w'.store, t) {
      assert Owned(e, w.store, t);
    }
  }

  lemma BindAnchorAgrees(e: Env, b: Binding, w: World, w': World, id: string)
    requires Lawful(e) && AnchorsAgree(e, b, w) && |AnchorBody(e, id)| <= b.maxManifestBytes
             && Held(e, w.data, EMPTY_JSON)
    requires w'.data == WithManifest(e, w.data, AnchorTag(e, id), AnchorBody(e, id))
    requires w'.store.anchored == w.store.anchored + {id}
    ensures AnchorsAgree(e, b, w')
  {
    hide AnchorTag, AnchorBody, Lawful;
    var tag, body := AnchorTag(e, id), AnchorBody(e, id);
    forall i ensures AnchorAgrees(e, b, w', i) {
      assert AnchorAgrees(e, b, w, i);
      if AnchorTag(e, i) == tag {
        AnchorTagInjective(e, i, id);
      } else if i in w.store.anchored {
        WithManifestKeeps(e, w.data, tag, body, AnchorTag(e, i), AnchorBody(e, i));
      }
    }
  }

  lemma BindAnchorStep(e: Env, b: Binding, w: World, id: string)
    requires Lawful(e) && Simulates(e, b, w) && Enabled(e, b, w, BindAnchor(id))
    ensures Simulates(e, b, Next(e, w, BindAnchor(id)))
  {
    var w' := Next(e, w, BindAnchor(id));
    var tag, body := AnchorTag(e, id), AnchorBody(e, id);
    BindAnchorAgrees(e, b, w, w', id);
    forall i ensures LatestTag(e, i) != tag { TagFamiliesDisjoint(e, id, i, ""); }
    TagFamiliesDisjoint(e, id, id, "");
    VersionsKept(e, b, w, w', tag, body);
    LatestKept(e, w, w', tag, body);
  }

  lemma BindVersionStep(e: Env, b: Binding, w: World, so: StoredObject)
    requires Lawful(e) && Simulates(e, b, w) && Enabled(e, b, w, BindVersion(so))
    ensures Simulates(e, b, Next(e, w, BindVersion(so)))
  {
    hide VersionBody, VersionTag, IsVersionTag, AnchorTag, AnchorBody, LatestTag, Publishable, Lawful;
    var w' := Next(e, w, BindVersion(so));
    var key := KeyOf(so);
    var tag, body := TagOf(e, key), VersionBody(e, so);
    forall i ensures AnchorTag(e, i) != tag && LatestTag(e, i) != tag { TagFamiliesDisjoint(e, i, key.id, key.digest); }
    forall k | k in w.store.versions ensures TagOf(e, k) != tag { assert Complete(e, b, w, k); }
    AnchorsKept(e, b, w, w', tag, body);
    LatestKept(e, w, w', tag, body);
    forall k | k in w'.store.versions ensures Complete(e, b, w', k) {
      if k != key {
        assert Complete(e, b, w, k);
        WithManifestKeeps(e, w.data, tag, body, TagOf(e, k), VersionBody(e, w.store.versions[k]));
      }
    }
    forall t | t in w'.data.tags && IsVersionTag(t) ensures Owned(e, w'.store, t) {
      if t == tag { assert key in w'.store.versions; } else {
        assert Owned(e, w.store, t);
        var k :| k in w.store.versions && TagOf(e, k) == t;
        assert k in w'.store.versions;
      }
    }
  }

  lemma BindLatestStep(e: Env, b: Binding, w: World, so: StoredObject)
    requires Lawful(e) && Simulates(e, b, w) && Enabled(e, b, w, BindLatest(so))
    ensures Simulates(e, b, Next(e, w, BindLatest(so)))
  {
    var w' := Next(e, w, BindLatest(so));
    var id := so.metadata.objectId;
    var tag, body := LatestTag(e, id), VersionBody(e, so);
    forall i ensures AnchorTag(e, i) != tag { TagFamiliesDisjoint(e, i, id, ""); }
    TagFamiliesDisjoint(e, id, id, "");
    AnchorsKept(e, b, w, w', tag, body);
    VersionsKept(e, b, w, w', tag, body);
    forall i ensures AliasAgrees(e, w', i) {
      assert AliasAgrees(e, w, i);
      if LatestTag(e, i) == tag {
        LatestTagInjective(e, i, id);
      } else if i in w.store.latest {
        WithManifestKeeps(e, w.data, tag, body, LatestTag(e, i),
                          VersionBody(e, w.store.versions[Key(i, w.store.latest[i])]));
      }
    }
  }

  /** Deleting a version's manifest keeps every binding to another body. */
  lemma WithoutManifestKeeps(e: Env, d: Data, digest: Digest, tag: Tag, body: Bytes)
    requires Bound(e, d, tag, body) && e.hash(body) != digest
    ensures Bound(e, WithoutManifest(d, digest), tag, body)
  {
  }

  lemma RemoveKeepsAnchors(e: Env, b: Binding, w: World, w': World, so: StoredObject)
    requires Lawful(e) && AnchorsAgree(e, b, w)
    requires w'.data == WithoutManifest(w.data, e.hash(VersionBody(e, so))) && w'.store.anchored == w.store.anchored
    ensures AnchorsAgree(e, b, w')
  {
    hide AnchorTag, AnchorBody, VersionBody, Lawful;
    forall i ensures AnchorAgrees(e, b, w', i) {
      assert AnchorAgrees(e, b, w, i);
      VersionBodyNotAnchor(e, so, i);
      if i in w.store.anchored {
        WithoutManifestKeeps(e, w.data, e.hash(VersionBody(e, so)), AnchorTag(e, i), AnchorBody(e, i));
      }
    }
  }

  /** Deleting one version leaves every other version complete and no tag without an owner. */
  lemma RemoveKeepsVersions(e: Env, b: Binding, w: World, w': World, so: StoredObject)
    requires Lawful(e) && VersionsAgree(e, b, w)
    requires KeyOf(so) in w.store.versions && w.store.versions[KeyOf(so)] == so
    requires w'.data == WithoutManifest(w.data, e.hash(VersionBody(e, so))) && w'.store.anchored == w.store.anchored
    requires w'.store.versions == w.store.versions - {KeyOf(so)}
    ensures VersionsAgree(e, b, w')
  {
    hide VersionBody, Publishable, IsVersionTag, VersionTag, Lawful;
    var gone := e.hash(VersionBody(e, so));
    forall k | k in w'.store.versions ensures Complete(e, b, w', k) {
      assert Complete(e, b, w, k);
      var body := VersionBody(e, w.store.versions[k]);
      if e.hash(body) == gone { ManifestsDistinct(e, b, w, k, KeyOf(so)); }
      WithoutManifestKeeps(e, w.data, gone, TagOf(e, k), body);
    }
    forall t | t in w'.data.tags && IsVersionTag(t) ensures Owned(e, w'.store, t) {
      assert Owned(e, w.store, t);
      var k :| k in w.store.versions && TagOf(e, k) == t;
      assert Complete(e, b, w, k);
      assert k in w'.store.versions;
    }
  }

  /** The latest pointers and versions that a removal leaves. */
  lemma RemovedStore(st: Store, so: StoredObject, i: string)
    requires i in st.latest ==> Key(i, st.latest[i]) in st.versions
    ensures var s := Abstract(st, Remove(so, 0));
            && (i in s.latest <==> i in st.latest && Key(i, st.latest[i]) != KeyOf(so))
            && (i in s.latest ==> s.latest[i] == st.latest[i] && Key(i, s.latest[i]) in s.versions
                                  && s.versions[Key(i, s.latest[i])] == st.versions[Key(i, st.latest[i])])
  {
  }

  /** A latest alias goes exactly when it pointed at the deleted version. */
  lemma RemoveKeepsLatest(e: Env, b: Binding, w: World, w': World, so: StoredObject)
    requires Lawful(e) && VersionsAgree(e, b, w) && LatestAgree(e, w)
    requires KeyOf(so) in w.store.versions && w.store.versions[KeyOf(so)] == so
    requires w'.data == WithoutManifest(w.data, e.hash(VersionBody(e, so)))
    requires w'.store == Abstract(w.store, Remove(so, 0))
    ensures LatestAgree(e, w')
  {
    hide Lawful, VersionsAgree, Abstract, AliasAgrees, WithoutManifest;
    forall i ensures AliasAgrees(e, w', i) {
      assert AliasAgrees(e, w, i);
      AliasAfterRemove(e, b, w, w', so, i);
    }
  }

  lemma AliasAfterRemove(e: Env, b: Binding, w: World, w': World, so: StoredObject, i: string)
    requires Lawful(e) && VersionsAgree(e, b, w) && AliasAgrees(e, w, i)
    requires KeyOf(so) in w.store.versions && w.store.versions[KeyOf(so)] == so
    requires w'.data == WithoutManifest(w.data, e.hash(VersionBody(e, so)))
    requires w'.store == Abstract(w.store, Remove(so, 0))
    ensures AliasAgrees(e, w', i)
  {
    hide VersionBody, VersionTag, LatestTag, Lawful, VersionsAgree, Abstract;
    RemovedStore(w.store, so, i);
    if i in w.store.latest && Key(i, w.store.latest[i]) != KeyOf(so) {
      var k := Key(i, w.store.latest[i]);
      var body, gone := VersionBody(e, w.store.versions[k]), e.hash(VersionBody(e, so));
      if e.hash(body) == gone { ManifestsDistinct(e, b, w, k, KeyOf(so)); }
      WithoutManifestKeeps(e, w.data, gone, LatestTag(e, i), body);
    }
  }

  lemma RemoveStep(e: Env, b: Binding, w: World, so: StoredObject, now: int)
    requires Lawful(e) && Simulates(e, b, w) && Enabled(e, b, w, Remove(so, now))
    ensures Simulates(e, b, Next(e, w, Remove(so, now)))
  {
    var w' := Next(e, w, Remove(so, now));
    RemoveKeepsAnchors(e, b, w, w', so);
    RemoveKeepsVersions(e, b, w, w', so);
    RemoveKeepsLatest(e, b, w, w', so);
  }

  /** Every enabled step takes a repository that represents a store to one that represents the next store. */
  lemma StepSimulates(e: Env, b: Binding, w: World, ev: Event)
    requires Lawful(e) && Simulates(e, b, w) && Enabled(e, b, w, ev)
    ensures Simulates(e, b, Next(e, w, ev))
  {
    match ev
    case AddBlob(content) => AddBlobStep(e, b, w, content);
    case BindAnchor(id) => BindAnchorStep(e, b, w, id);
    case BindVersion(so) => BindVersionStep(e, b, w, so);
    case BindLatest(so) => BindLatestStep(e, b, w, so);
    case Remove(so, now) => RemoveStep(e, b, w, so, now);
  }
}
