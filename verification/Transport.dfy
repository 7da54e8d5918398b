/**
  `RegistryHttpClient` as protocol steps (transport/client.py). Every request may fail before its
  effect, or after it with the response lost; `faults` counts the requests that did.
 */
module Transport {
  import opened Prelude
  import opened Models
  import opened Naming
  import opened Store
  import opened Resolve
  import opened Registry
  import opened Paging

  datatype TagPage = TagPage(tags: seq<Tag>, hasMore: bool)

  datatype UploadLocation = UploadLocation(upload: nat, offset: nat)

  /** Uploads other than `skip` are as they were. */
  ghost predicate Kept(before: map<nat, Bytes>, after: map<nat, Bytes>, skip: Option<nat>) {
    forall u :: u in before && Some(u) != skip ==> u in after && after[u] == before[u]
  }

  /** No upload but `touched` was added, dropped or written to. */
  ghost predicate OnlyTouched(before: map<nat, Bytes>, after: map<nat, Bytes>, touched: Option<nat>) {
    && (forall u :: u in before && Some(u) != touched ==> u in after && after[u] == before[u])
    && (forall u :: u in after && Some(u) != touched ==> u in before)
  }

  /** Opening an upload, writing to it alone and dropping it leaves the uploads there were. */
  lemma OpenedAndDropped(before: map<nat, Bytes>, u: nat, written: map<nat, Bytes>)
    requires u !in before && OnlyTouched(before[u := []], written, Some(u))
    ensures written - {u} == before
  {
    assert forall v :: v in before ==> v in before[u := []];
  }

  class Transport {
    const e: Env
    const b: Binding
    const registry: Registry
    ghost var faults: nat
    /** Uploads whose location was returned, those finalized, and those an abort was attempted for. */
    ghost var issued: set<nat>
    ghost var finalized: set<nat>
    ghost var abandoned: set<nat>

    ghost predicate Valid()
      reads this, registry
    {
      && registry.e == e && registry.Valid()
      && (forall u :: u in issued ==> u <= registry.counter)
      && finalized <= issued && abandoned <= issued
    }

    /** Uploads that are neither finalized nor abandoned. */
    ghost function Open(): set<nat>
      reads this
    {
      issued - finalized - abandoned
    }

    constructor (e: Env, b: Binding, registry: Registry)
      requires registry.Valid() && registry.e == e
      ensures Valid() && this.e == e && this.b == b && this.registry == registry && Open() == {}
    {
      this.e, this.b, this.registry := e, b, registry;
      faults, issued, finalized, abandoned := 0, {}, {}, {};
    }

    /** Whether the network fails at this point, and how the failure surfaces. */
    method Falter() returns (failure: Option<Error>)
      modifies this`faults
      ensures faults == if failure.Some? then old(faults) + 1 else old(faults)
    {
      failure := None;
      if * {
        var error: Error := *;
        faults := faults + 1;
        failure := Some(error);
      }
    }

    method HeadBlob(digest: Digest) returns (r: Result<Option<nat>>)
      modifies this`faults
      ensures old(faults) <= faults && (r.Err? <==> old(faults) < faults)
      ensures r.Ok? ==> r.value == if digest in registry.blobs then Some(|registry.blobs[digest]|) else None
    {
      var f := Falter();
      if f.Some? { return Err(f.value); }
      r := Ok(if digest in registry.blobs then Some(|registry.blobs[digest]|) else None);
    }

    method ManifestExists(tag: Tag) returns (r: Result<bool>)
      modifies this`faults
      ensures old(faults) <= faults && (r.Err? <==> old(faults) < faults)
      ensures r.Ok? ==> r.value == (tag in registry.tags && registry.tags[tag] in registry.manifests)
    {
      var f := Falter();
      if f.Some? { return Err(f.value); }
      r := Ok(tag in registry.tags && registry.tags[tag] in registry.manifests);
    }

    method GetManifest(tag: Tag) returns (r: Result<Document>)
      requires Valid()
      modifies this`faults
      ensures old(faults) <= faults && (r.Ok? ==> faults == old(faults))
      ensures r == FetchManifest(e, b, registry.Snapshot(), tag) || (r.Err? && old(faults) < faults)
      ensures faults == old(faults) && !(tag in registry.tags && registry.tags[tag] in registry.manifests) ==>
                r == Err(NotFound)
      ensures faults == old(faults) && tag in registry.tags && registry.tags[tag] in registry.manifests ==>
                var body := registry.manifests[registry.tags[tag]];
                r == (if |body| > b.maxManifestBytes then Err(Unavailable)
                      else if e.parseManifest(body).None? then Err(DigestMismatch)
                      else Ok(Document(body, e.hash(body), e.parseManifest(body).value)))
    {
      var f := Falter();
      if f.Some? { return Err(f.value); }
      r := FetchManifest(e, b, registry.Snapshot(), tag);
    }

    method GetBlobBytes(descriptor: Descriptor, maximum: nat) returns (r: Result<Bytes>)
      requires Valid()
      modifies this`faults
      ensures old(faults) <= faults && (r.Ok? ==> faults == old(faults))
      ensures r == FetchBlob(e, registry.Snapshot(), descriptor, maximum) || (r.Err? && old(faults) < faults)
      ensures r.Ok? ==> |r.value| == descriptor.size <= maximum && e.hash(r.value) == descriptor.digest
      ensures r.Ok? ==> descriptor.digest in registry.blobs && r.value == registry.blobs[descriptor.digest]
      ensures faults == old(faults) ==>
                if descriptor.size > maximum then r == Err(InvalidRequest)
                else if descriptor.digest !in registry.blobs then r == Err(NotFound)
                else
                  var body := registry.blobs[descriptor.digest];
                  r == (if |body| > maximum then Err(Unavailable)
                        else if |body| != descriptor.size || e.hash(body) != descriptor.digest then Err(DigestMismatch)
                        else Ok(body))
    {
      var f := Falter();
      if f.Some? { return Err(f.value); }
      r := FetchBlob(e, registry.Snapshot(), descriptor, maximum);
    }

    method StartUpload() returns (r: Result<UploadLocation>)
      requires Valid()
      modifies this`faults, this`issued, registry`uploads, registry`counter
      ensures Valid() && old(faults) <= faults && (r.Err? <==> old(faults) < faults)
      ensures forall u :: u in old(registry.uploads) ==>
                u in registry.uploads && registry.uploads[u] == old(registry.uploads)[u]
      ensures r.Ok? ==> registry.uploads == old(registry.uploads)[r.value.upload := []]
      ensures r.Ok? ==>
                && r.value.offset == 0 && r.value.upload !in old(issued) && r.value.upload !in old(registry.uploads)
                && r.value.upload > old(registry.counter)
                && r.value.upload in registry.uploads && registry.uploads[r.value.upload] == []
                && issued == old(issued) + {r.value.upload}
      ensures r.Err? ==> issued == old(issued)
      ensures old(registry.counter) <= registry.counter
    {
      var f := Falter();
      if f.Some? { return Err(f.value); }
      var u := registry.StartUpload();
      f := Falter();
      if f.Some? { return Err(f.value); }
      issued := issued + {u};
      r := Ok(UploadLocation(u, 0));
    }

    /** One PATCH of `[offset, offset + |chunk|)`; a wrong offset or an unknown upload is refused. */
    method PatchUpload(at: UploadLocation, chunk: Bytes) returns (r: Result<UploadLocation>)
      requires Valid()
      modifies this`faults, registry`uploads
      ensures Valid() && old(faults) <= faults
      ensures forall u :: u != at.upload ==>
                (u in old(registry.uploads) <==> u in registry.uploads)
                && (u in registry.uploads ==> registry.uploads[u] == old(registry.uploads)[u])
      ensures r.Ok? ==> faults == old(faults)
      ensures r.Ok? ==>
                && chunk != [] && r.value == UploadLocation(at.upload, at.offset + |chunk|)
                && at.upload in old(registry.uploads) && |old(registry.uploads)[at.upload]| == at.offset
                && at.upload in registry.uploads
                && registry.uploads[at.upload] == old(registry.uploads)[at.upload] + chunk
      ensures faults == old(faults) ==>
                r == (if chunk == [] then Err(OtherFailure)
                      else if at.upload !in old(registry.uploads) then Err(NotFound)
                      else if |old(registry.uploads)[at.upload]| != at.offset then Err(RangeNotSatisfiable)
                      else Ok(UploadLocation(at.upload, at.offset + |chunk|)))
    {
      if chunk == [] { return Err(OtherFailure); }
      var f := Falter();
      if f.Some? { return Err(f.value); }
      var status := registry.PatchUpload(at.upload, at.offset, at.offset + |chunk| - 1, chunk);
      f := Falter();
      if f.Some? { return Err(f.value); }
      if status == 404 { return Err(NotFound); }
      if status == 416 { return Err(RangeNotSatisfiable); }
      r := Ok(UploadLocation(at.upload, at.offset + |chunk|));
    }

    /** PATCH the next chunk of an upload that holds `sent`, or do nothing when there is no upload. */
    method Forward(at: Option<UploadLocation>, chunk: Bytes, ghost sent: Bytes)
      returns (failure: Option<Error>, next: Option<UploadLocation>)
      requires Valid() && chunk != []
      requires at.Some? ==>
                 at.value.upload in registry.uploads && registry.uploads[at.value.upload] == sent
                 && at.value.offset == |sent|
      modifies this`faults, registry`uploads
      ensures Valid() && old(faults) <= faults && (failure.Some? ==> old(faults) < faults)
      ensures OnlyTouched(old(registry.uploads), registry.uploads, if at.Some? then Some(at.value.upload) else None)
      ensures (at.None? <==> next.None?) && (at.Some? ==> next.value.upload == at.value.upload)
      ensures failure.None? && at.Some? ==>
                && next.value.offset == |sent + chunk|
                && next.value.upload in registry.uploads && registry.uploads[next.value.upload] == sent + chunk
    {
      failure, next := None, at;
      if at.Some? {
        var patched := PatchUpload(at.value, chunk);
        if patched.Err? { failure := Some(patched.error); } else { next := Some(patched.value); }
      }
    }

    /** The closing PUT of an upload with an optional final body; `effect` says whether the blob was stored. */
    method Finalize(at: UploadLocation, content: Bytes, digest: Digest) returns (r: Result<()>, ghost effect: bool)
      requires Valid() && at.upload in issued
      modifies this`faults, this`finalized, registry`uploads, registry`blobs
      ensures Valid() && old(faults) <= faults
      ensures forall u :: u in old(registry.uploads) && u != at.upload ==>
                u in registry.uploads && registry.uploads[u] == old(registry.uploads)[u]
      ensures effect ==>
                at.upload in old(registry.uploads) && digest == e.hash(old(registry.uploads)[at.upload] + content)
      ensures registry.Snapshot() ==
              if effect then WithBlob(e, old(registry.Snapshot()), old(registry.uploads)[at.upload] + content)
              else old(registry.Snapshot())
      ensures r.Ok? ==> effect && finalized == old(finalized) + {at.upload} && faults == old(faults)
      ensures r.Err? && faults == old(faults) ==>
                if at.upload !in old(registry.uploads) then r.error == NotFound
                else r.error == DigestMismatch && digest != e.hash(old(registry.uploads)[at.upload] + content)
      ensures effect ==> registry.uploads == old(registry.uploads) - {at.upload}
      ensures OnlyTouched(old(registry.uploads), registry.uploads, Some(at.upload))
      ensures r.Err? ==> finalized == old(finalized)
      ensures (r.Err? && at.upload in old(registry.uploads)
               && digest == e.hash(old(registry.uploads)[at.upload] + content)) ==> old(faults) < faults
    {
      effect := false;
      var f := Falter();
      if f.Some? { return Err(f.value), false; }
      var status := registry.FinishUpload(at.upload, content, digest);
      effect := status == 201;
      f := Falter();
      if f.Some? { return Err(f.value), effect; }
      if status == 404 { return Err(NotFound), effect; }
      if status != 201 { return Err(DigestMismatch), effect; }
      finalized := finalized + {at.upload};
      r := Ok(());
    }

    /** `_abort_safely`: the attempt counts, its failure does not matter. */
    method AbortSafely(at: UploadLocation)
      requires Valid() && at.upload in issued
      modifies this`faults, this`abandoned, registry`uploads
      ensures Valid() && old(faults) <= faults
      ensures forall u :: u in old(registry.uploads) && u != at.upload ==>
                u in registry.uploads && registry.uploads[u] == old(registry.uploads)[u]
      ensures abandoned == old(abandoned) + {at.upload}
      ensures faults == old(faults) ==> registry.uploads == old(registry.uploads) - {at.upload}
    {
      abandoned := abandoned + {at.upload};
      var f := Falter();
      if f.Some? { return; }
      var status := registry.AbortUpload(at.upload);
      f := Falter();
    }

    /** `upload_blob_bytes`: store a blob unless it is there; `effect` says whether it was stored now. */
    method UploadBlobBytes(content: Bytes) returns (r: Result<()>, ghost effect: bool)
      requires Valid()
      modifies this, registry`uploads, registry`counter, registry`blobs
      ensures Valid() && old(faults) <= faults
      ensures forall u :: u in old(registry.uploads) ==>
                u in registry.uploads && registry.uploads[u] == old(registry.uploads)[u]
      ensures effect ==> e.hash(content) !in old(registry.blobs)
      ensures r.Ok? ==> (effect <==> e.hash(content) !in old(registry.blobs)) && faults == old(faults)
      ensures faults == old(faults) ==>
                && registry.uploads == old(registry.uploads)
                && (r.Err? <==> e.hash(content) in old(registry.blobs)
                                && |old(registry.blobs)[e.hash(content)]| != |content|)
                && (r.Err? ==> r.error == DigestMismatch)
      ensures registry.Snapshot() ==
              if effect then WithBlob(e, old(registry.Snapshot()), content) else old(registry.Snapshot())
      ensures Open() == old(Open()) && old(issued) <= issued && old(registry.counter) <= registry.counter
    {
      effect := false;
      var digest := e.hash(content);
      var existing := HeadBlob(digest);
      if existing.Err? { return Err(existing.error), false; }
      if existing.value.Some? {
        if existing.value.value != |content| { return Err(DigestMismatch), false; }
        return Ok(()), false;
      }
      var started := StartUpload();
      if started.Err? { return Err(started.error), false; }
      var at := started.value;
      assert [] + content == content;
      r, effect := Finalize(at, content, digest);
      if r.Err? { AbortSafely(at); }
      OpenedAndDropped(old(registry.uploads), at.upload, old(registry.uploads)[at.upload := []]);
    }

    method PutManifest(tag: Tag, body: Bytes) returns (r: Result<Descriptor>, ghost effect: bool)
      requires Valid()
      modifies this`faults, registry`manifests, registry`tags
      ensures Valid() && old(faults) <= faults
      ensures registry.Snapshot() == if effect then WithManifest(e, old(registry.Snapshot()), tag, body)
                                     else old(registry.Snapshot())
      ensures r.Ok? ==> effect && r.value == Descriptor(MANIFEST_MEDIA_TYPE, e.hash(body), |body|)
      ensures r.Ok? ==> faults == old(faults)
      ensures effect ==> |body| <= b.maxManifestBytes
      ensures |body| > b.maxManifestBytes ==> r == Err(OtherFailure)
      ensures r.Err? && |body| <= b.maxManifestBytes ==> old(faults) < faults
    {
      effect := false;
      if |body| > b.maxManifestBytes { return Err(OtherFailure), false; }
      var f := Falter();
      if f.Some? { return Err(f.value), false; }
      registry.PutManifest(tag, body);
      effect := true;
      f := Falter();
      if f.Some? { return Err(f.value), true; }
      r := Ok(Descriptor(MANIFEST_MEDIA_TYPE, e.hash(body), |body|));
    }

    /** DELETE is retried, so after a lost response the second attempt can report the manifest missing. */
    method DeleteManifest(digest: Digest) returns (r: Result<bool>, ghost effect: bool)
      requires Valid()
      modifies this`faults, registry`manifests, registry`tags
      ensures Valid() && old(faults) <= faults
      ensures effect ==> digest in old(registry.manifests)
      ensures registry.Snapshot() == if effect then WithoutManifest(old(registry.Snapshot()), digest)
                                     else old(registry.Snapshot())
      ensures r == Ok(true) ==> effect && faults == old(faults)
      ensures faults == old(faults) ==> effect == (digest in old(registry.manifests)) && r == Ok(effect)
    {
      effect := false;
      var f := Falter();
      if f.Some? { return Err(f.value), false; }
      var status := registry.DeleteManifest(digest);
      effect := status == 202;
      f := Falter();
      if f.Some? {
        if * { return Ok(false), effect; }
        return Err(f.value), effect;
      }
      r := Ok(status != 404);
    }

    method ListTags(limit: nat, last: Option<Tag>) returns (r: Result<TagPage>)
      requires Valid()
      modifies this`faults
      ensures old(faults) <= faults && (r.Err? <==> old(faults) < faults)
      ensures r.Ok? ==> r.value == TagPage(Window(ListAfter(registry.tags.Keys, last), limit),
                                           |ListAfter(registry.tags.Keys, last)| >= limit)
    {
      var f := Falter();
      if f.Some? { return Err(f.value); }
      var tags, link := registry.ListTags(limit, last);
      r := Ok(TagPage(tags, link || |tags| >= limit));
    }
  }
}
